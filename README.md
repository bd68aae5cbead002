# Vehicle-to-grid simulation, modelled in Dafny

The system is a tick-driven simulation of electric cars and the V2G (vehicle-to-grid)
units they charge at. A `Grid` holds the cars and units, a clock and a daily
electricity snapshot. On every tick it does three things:

- At midnight it regenerates the day's production and consumption curves.
- It drives or tows every moving car and ranks every connected car by charging priority.
- It advances the clock by the tick length.

The model also covers the small services the simulation is built on:

- the `dd-hh:mm` clock;
- the log filter;
- the bundled raster library: a canvas of RGB pixels, colour patterns, and the plain
  Netpbm writer and PPM reader.

The modules follow the source files:

| module | file | models |
|---|---|---|
| `Clock` | clock.dfy | `Services/Time`: a class over a three-element `array<int>` |
| `Out` | out.dfy | `Services/Out.print` and `Log_Level` |
| `EnergyModel` | energy_model.dfy | `Electricity_Grid`: generators filling arrays, the mix, the snapshot |
| `CarState` | car_state.dfy | `Electric_Car.State`, profiles, priorities, and the arithmetic of one drive or tow tick |
| `ChargeCurve` | charge_curve.dfy | the arithmetic of `V2G_Unit`: the charging curve, the simulated charging run, the discharge loop |
| `Vehicles` | vehicles.dfy | the classes `ElectricCar` and `V2GUnit` (one module, because they point at each other) |
| `GridSim` | grid.dfy | `Grid`: registries, `tick`, `operate`, `manage_cars` |
| `Pixels`, `Canvas`, `Patterns` | pixels.dfy, canvas.dfy, patterns.dfy | `Bitmap`: colours, the canvas (`array2`), the pattern trees |
| `Netpbm`, `NetpbmRead`, `NetpbmRoundTrip` | netpbm.dfy, netpbm_read.dfy, netpbm_roundtrip.dfy | `Bitmap.render`, `Bitmap.readFromFile`, and the round trip between them |
| `JavaText`, `JavaMath`, `Rng`, `Wrappers` | | Java's `split`, `parseInt`, `valueOf`, `trim`, `join`; truncating division and casts; a seeded generator; `Option`/`Result`/`Outcome` |

Conventions:

- Doubles are exact `real`s.
- `(int)` casts and `int *= double` truncate toward zero (`JavaMath.TruncReal`, `EnergyModel.Scale`).
- Java's `/` on `int` is `JavaMath.TruncDiv`.
- Every exception is the `Failure`/`Fail` branch of a `Result` or `Outcome`, with one constructor per cause.
- Random draws are parameters constrained to the range of the `nextInt` call that makes them (`Rng.Drawn`).
- The grid's tick speed and clock reach the car and unit methods as the parameters `tickSpeed` and `now`.

Where a comment in the source and the code disagree, the model follows the code:

- The wind walk steps by `5 - nextInt(10)`, which lies in [-4, 5], not the [-5, 5] of the comment at `Electricity_Grid.java:85`.
- Without a deficit the reversed candidate list puts NONE cars first and IMMEDIATELY cars last. The comment at `Grid.java:198` says the opposite.
- A malformed `Time(String)` argument keeps the field initialiser `{1, 0, 0}`, although the message at `Time.java:25` says `00-00:00`.

Other behaviours kept as written:

- `inDaysIsolated` returns the minute field.
- The consumption table has 25 values, although `smooth` asserts 24; Java assertions are off by default.
- The photovoltaic multiplier is not clamped afterwards, so a sunny hour 13 yields 150.
- The `pgm` header's max value is 256.
- The last drive tick charges the whole tick's distance (`CarState.LastTickCanOverdraw` shows the charge can go negative).
- `calculate_charging_duration` hands a negative status to `tick_charge(double)`, which then charges the car for real and returns kWh; the loop then reads those kWh as a status. `Vehicles.V2GUnit.CalculateChargingDuration` states exactly that.

## Model

| member | source | states |
|---|---|---|
| Clock.Time.Initial | src/Services/Time.java:16 | a Time built from the field initialiser holds {1, 0, 0} |
| Clock.Time.constructor | src/Services/Time.java:32-34 | `Time()` holds 00-00:00 |
| Clock.ParseMidnight | src/Services/Time.java:32-34 | example: "00-00:00" parses to [0, 0, 0], the no-argument time |
| Clock.Time.Parse | src/Services/Time.java:21-27 | a malformed string leaves {1, 0, 0}; a NumberFormatException escapes; otherwise the normalised parse |
| Clock.ParseTime | src/Services/Time.java:39-52 | a successful parse of "dd-hh:mm" gives three non-negative fields |
| Clock.Time.SetTime | src/Services/Time.java:39-55 | an exception leaves the time untouched; otherwise the time is the normalised parse and is normal |
| Clock.ParseFormat | src/Services/Time.java:39-68 | reading back `asString` of a normal time with at most 99 days gives the same triple, in 8 characters |
| Clock.Time.AsString | src/Services/Time.java:60-68 | the text is the zero-padded `dd-hh:mm` form of the fields |
| Clock.Time.AsIntArr | src/Services/Time.java:73-75 | a copy of the three fields |
| Clock.Time.InHours | src/Services/Time.java:97-99 | the total minutes over 60 |
| Clock.Time.InMinutesWithHoursIsolated | src/Services/Time.java:102 | for a normal time, the minutes since midnight, in [0, 1440) |
| Clock.Time.InDays | src/Services/Time.java:104-106 | the total minutes over 1440 |
| Clock.Time.InDaysIsolated | src/Services/Time.java:107 | the minute field, as the code returns it |
| Clock.Time.AddDelta | src/Services/Time.java:112-121 | a length other than 3 is refused and changes nothing; otherwise the total grows by the delta's minutes |
| Clock.Time.AddMinutes | src/Services/Time.java:123-126 | the total grows by exactly `minutes`; a normal time stays normal while the minute field stays non-negative |
| Clock.Time.UpdateTime | src/Services/Time.java:128-141 | the fields become the carried normal form of the old fields |
| Clock.NormalizeKeepsTotal | src/Services/Time.java:92-94 | carrying never changes days·1440 + hours·60 + minutes |
| Clock.NormalizeBounds | src/Services/Time.java:128-141 | non-negative hours and minutes come out in [0, 24) and [0, 60); negative fields are left uncarried |
| Clock.NormalizeFixes | src/Services/Time.java:128-141 | a normal time is its own normal form |
| Clock.NormalForm | src/Services/Time.java:92-102 | a normal time is fixed by its total: minutes and minute of day are remainders, days the quotient |
| Clock.AddKeepsTotals | src/Services/Time.java:112-126 | adding then carrying adds the delta's minutes to the total |
| Clock.ParseDayOne | src/Grid.java:20 | example: "01-00:00", the grid's start, parses to [1, 0, 0] |
| Out.FallThroughAppends | src/Services/Out.java:20-29 | from the entry case, the switch appends the message once if its level is among the cases passed, else never |
| Out.PrintsIff | src/Services/Out.java:16-36 | a line is printed iff the subject admits the level and the message is not empty; the line is the identifier plus the message |
| Out.NoneIsSilent | src/Services/Out.java:33-34 | a NONE subject prints nothing, and a NONE message is never printed |
| Out.AllPrintsEverything | src/Services/Out.java:22-32 | an ALL subject prints every non-empty message not at NONE |
| Out.PrintMonotone | src/Services/Out.java:20-35 | raising the subject's level never silences a message it printed |
| EnergyModel.NewDistribution | src/Electricity_Grid.java:45-50 | refused iff a weight is negative; otherwise not weak |
| EnergyModel.NewWeakDistribution | src/Electricity_Grid.java:52-57 | refused iff a weight is negative; otherwise weak |
| EnergyModel.Smooth | src/Electricity_Grid.java:65-76 | every minute of the 1440 holds the interpolated value of its hour |
| EnergyModel.SmoothAtMinute | src/Electricity_Grid.java:69-72 | minute j of hour i is the hour's value plus the truncated share j/60 of the step to the next hour |
| EnergyModel.StepBetween | src/Electricity_Grid.java:72 | an interpolated minute never leaves the range between its two hourly values |
| EnergyModel.SmoothAnchors | src/Electricity_Grid.java:68-72 | each full hour with a successor keeps its hourly value |
| EnergyModel.SmoothBetween | src/Electricity_Grid.java:69-72 | each minute lies between the values of its hour and the next |
| EnergyModel.SmoothTail | src/Electricity_Grid.java:67-74 | minutes after the last hour with a successor stay 0 |
| EnergyModel.SmoothBounds | src/Electricity_Grid.java:65-76 | smoothed values stay within the bounds of the hourly values, and are 0 past the last hour |
| EnergyModel.WindFarm | src/Electricity_Grid.java:79-101 | each sample is the walk, scaled and capped in the first 24 minutes |
| EnergyModel.WindWalkSteps | src/Electricity_Grid.java:83-88 | the walk stays in [0, 100] and moves by -4 to +5 a minute |
| EnergyModel.WindBounds | src/Electricity_Grid.java:84-99 | every wind sample is in [0, 100] |
| EnergyModel.PvFarm | src/Electricity_Grid.java:103-122 | the smoothed, weather-scaled hourly photovoltaic values |
| EnergyModel.PvShape | src/Electricity_Grid.java:106-109 | hour 13 yields 100; hour i lies between the slopes 17 and 14 per hour from 13, floored at 0 |
| EnergyModel.PvBounds | src/Electricity_Grid.java:106-120 | output in [0, 150]; hour 13 is 100 scaled by the weather |
| EnergyModel.WaterPowerPlant | src/Electricity_Grid.java:124-141 | each minute is 70 plus its draw, scaled by the weather |
| EnergyModel.WaterBounds | src/Electricity_Grid.java:127-139 | output lies between the scaled 70 and the scaled 84 |
| EnergyModel.NuclearPowerPlant | src/Electricity_Grid.java:143-150 | the smoothed fixed-plus-draw hourly values |
| EnergyModel.FixedPlantBounds | src/Electricity_Grid.java:143-154 | within [fixed, fixed + 5] until 23:00, 0 in the last hour |
| EnergyModel.GenerateConsumption | src/Electricity_Grid.java:31-38 | the 25 base values plus draws, smoothed |
| EnergyModel.ConsumptionBounds | src/Electricity_Grid.java:32-37 | every minute's consumption is between 30 and 87 |
| EnergyModel.MixIsAverage | src/Electricity_Grid.java:21 | the five-weight mix lies between the smallest and the largest source |
| EnergyModel.WeakMixAddsRenewables | src/Electricity_Grid.java:20 | with only renewable weight, the weak mix is the sum of the three renewable plants, not their mean |
| EnergyModel.MixProduction | src/Electricity_Grid.java:18-25 | each minute is the mix divided by 4 with Java's truncating int division |
| EnergyModel.NewSnapshot | src/Electricity_Grid.java:165-173 | keeps the curves and weather, and balance = production − consumption minute by minute |
| EnergyModel.DrawDay | src/Electricity_Grid.java:10-35 | the draws of one day, each in the range of its `nextInt` call |
| EnergyModel.DrawDayFrom | src/Electricity_Grid.java:10-35 | the day's draws lie in the ranges of their `nextInt` calls |
| EnergyModel.GetSnapshot | src/Electricity_Grid.java:9-29 | fails iff the total weight is 0; otherwise a balanced day of the drawn weather, mixed production and smoothed consumption |
| EnergyModel.ProductionBounds | src/Electricity_Grid.java:9-25 | under five weights each minute's production is in [0, 37] |
| CarState.SetDrivingDescriptor | src/Electric_Car.java:388-397 | succeeds iff IDLE; the whole route is left to drive |
| CarState.SetBeingTowedDescriptor | src/Electric_Car.java:399-403 | succeeds iff DRIVING; the penalty is in [25, 34]; the route is kept |
| CarState.SetRemainingRouteLength | src/Electric_Car.java:405-408 | succeeds iff DRIVING, changing only the remaining route |
| CarState.SetDescriptor | src/Electric_Car.java:410-415 | refused iff DRIVING or BEING_TOWED; otherwise only the descriptor changes |
| CarState.SettersGuardTransitions | src/Electric_Car.java:386-415 | DRIVING is entered only from IDLE, BEING_TOWED only from DRIVING |
| CarState.ProfilesConsistent | src/Electric_Car.java:345-369 | contracted times exist iff a contracted status does; it exceeds the minimum; hours are in [0, 24) |
| CarState.ClassifyMonotone | src/Electric_Car.java:315-325 | more time until the contract never makes the priority more urgent |
| CarState.ClassifyExtremes | src/Electric_Car.java:315-325 | IMMEDIATELY iff the charging time uses up the time left; NONE iff the time left exceeds three charging times |
| CarState.Urgency | src/Electric_Car.java:337-339 | the position of a priority in the enum's order, IMMEDIATELY first |
| CarState.MinutesTo | src/Electric_Car.java:309-312 | the forward distance to a minute of day, under a day |
| CarState.MinutesUntilNext | src/Electric_Car.java:309-312 | the distance forward to the nearest contracted minute, under a day |
| CarState.MinutesUntilNextIsFirst | src/Electric_Car.java:309-312 | counting from now, no earlier minute is contracted and that one is |
| CarState.HoursToMinutes | src/Electric_Car.java:304 | each contracted hour times 60 |
| CarState.PriorityForCases | src/Electric_Car.java:299-328 | below the minimum IMMEDIATELY; above it NONE without contracted times; a full profile is always IMMEDIATELY |
| CarState.RouteConsumptionAntitone | src/Electric_Car.java:186-190 | the energy left falls as the route grows |
| CarState.ChargeAfter | src/Electric_Car.java:186-190 | the new status is the old status less distance × consumption / capacity |
| CarState.DriveTickStrands | src/Electric_Car.java:115-146 | stranded iff neither the tick's distance nor the rest of the route is covered; then it is empty, towed with a 25–34 minute penalty, route kept |
| CarState.DriveTickContinues | src/Electric_Car.java:142-144 | a tick leaving route shortens it by the distance and charges for it, and the charge stays non-negative |
| CarState.DriveTickArrives | src/Electric_Car.java:145-154 | the last tick makes the car IDLE with route −1, charged for the whole tick's distance |
| CarState.LastTickCanOverdraw | src/Electric_Car.java:119-146 | a concrete car ends its route with a negative charge |
| CarState.TowTickEffect | src/Electric_Car.java:161-180 | charge unchanged; penalty falls while positive (to −1 when used up); then the route shrinks by 70/60 km per minute until IDLE |
| CarState.TowMeasureFalls | src/Electric_Car.java:165-176 | each tick that leaves the car towed lowers what is left of the tow |
| CarState.TowTicksToArrive | src/Electric_Car.java:161-180 | a tow takes at least one and at most TowMeasure + 1 ticks |
| CarState.TowingArrives | src/Electric_Car.java:161-180 | after that many ticks the car is IDLE with the same charge |
| Vehicles.ElectricCar.constructor | src/Electric_Car.java:48-59 | a full, idle, unconnected car at 90 km/h with the default profile |
| Vehicles.ElectricCar.Drive | src/Electric_Car.java:97-109 | succeeds iff IDLE, then DRIVING with the whole route; otherwise nothing changes |
| Vehicles.ElectricCar.ApplyRouteConsumption | src/Electric_Car.java:115-132 | the car becomes what `CarState.ApplyRouteConsumption` computes |
| Vehicles.ElectricCar.TickDrive | src/Electric_Car.java:137-156 | refused iff not DRIVING, with nothing changed; otherwise one drive tick |
| Vehicles.ElectricCar.TickBeTowed | src/Electric_Car.java:161-180 | refused iff not BEING_TOWED, with nothing changed; otherwise one tow tick |
| Vehicles.ElectricCar.CalculateRouteDuration | src/Electric_Car.java:196-201 | the truncated minutes at a nominal 90 km/h, on a fresh normal Time |
| Vehicles.ElectricCar.ConnectToV2GUnit | src/Electric_Car.java:207-224 | succeeds iff the car is unlinked and IDLE and the unit free; then linked both ways and CONNECTED_IDLE; otherwise nothing changes |
| Vehicles.ElectricCar.DisconnectFromV2GUnit | src/Electric_Car.java:229-239 | with a unit the car becomes IDLE, whether or not the unit agrees; the link is kept |
| Vehicles.ElectricCar.GetChargingPriority | src/Electric_Car.java:292-331 | changes nothing and returns the priority of the charge, profile, minutes to the contract and charging time |
| Vehicles.MinutesUntilContract | src/Electric_Car.java:305-312 | the scratch-clock loop counts exactly the minutes to the nearest contracted time |
| Vehicles.V2GUnit.constructor | src/V2G_Unit.java:24-30 | an unconnected unit with the given rate |
| Vehicles.V2GUnit.WarnLevel | src/V2G_Unit.java:32-34 | the two-argument unit logs at WARN |
| Vehicles.V2GUnit.TickCharge | src/V2G_Unit.java:58-86 | no car: 0; simulated: the next status, car untouched; real: the energy, the new status, CHARGING or IDLE |
| ChargeCurve.EffectiveRate | src/V2G_Unit.java:71 | the smaller of the two rates |
| ChargeCurve.ReducedRate | src/V2G_Unit.java:69-72 | full rate up to 10 kW; otherwise 35–95 % of it below 100 %; the curve index fails outside (−10, 110) |
| ChargeCurve.ChargedStatus | src/V2G_Unit.java:76 | status plus energy as a share of capacity, capped at 100 |
| ChargeCurve.MinGain | src/V2G_Unit.java:69-76 | the least gain of a tick below 100 %, positive |
| ChargeCurve.TickGain | src/V2G_Unit.java:74-76 | at 35 % of the rate or more a tick's energy is positive and its status gains MinGain or reaches 100, never more |
| ChargeCurve.TickChargeProgress | src/V2G_Unit.java:69-76 | below 100 % a tick charges a positive amount, gains at least MinGain or reaches 100, never passes 100, and fails only at or below −10 % |
| ChargeCurve.SimulatedSteps | src/V2G_Unit.java:128-131 | no ticks at or above the target; otherwise between 1 and a bound; no failure above −10 % |
| ChargeCurve.StepsBoundFalls | src/V2G_Unit.java:128-131 | each simulated tick lowers the bound on the ticks still needed, so the loop ends |
| ChargeCurve.SimulatedStepsStep | src/V2G_Unit.java:128-131 | one tick below the target adds one to the count of the rest |
| ChargeCurve.SimulatedStepsReach | src/V2G_Unit.java:128-131 | that many simulated ticks is the first count at which the status reaches the target |
| ChargeCurve.ChargingNeverEnds | src/V2G_Unit.java:124-134 | with a non-positive unit or car rate the simulated status never rises, so the loop never reaches a target above it |
| Vehicles.V2GUnit.SimulatedTicks | src/V2G_Unit.java:128-131 | the loop adds `tickSpeed` × the simulated steps to the duration and leaves the car unchanged |
| Vehicles.V2GUnit.CalculateChargingDuration | src/V2G_Unit.java:124-134 | from a non-negative status, tickSpeed × the simulated steps; from a negative one, a real first charge and then the steps from the kWh it returned |
| Vehicles.V2GUnit.CalculateFullChargingDuration | src/V2G_Unit.java:117-119 | from a non-negative status, the duration to 100 % |
| ChargeCurve.DischargeRunFacts | src/V2G_Unit.java:94-103 | equal withdrawals each minute, never below the minimum or 0 %, stopping early only where one more minute would |
| ChargeCurve.DischargeStep | src/V2G_Unit.java:94-103 | a minute runs iff its new status stays at or above the minimum and 0, and then the rest runs from it |
| ChargeCurve.DischargedStatus | src/V2G_Unit.java:97-99 | one minute lowers the status by the withdrawn energy's share of capacity |
| ChargeCurve.Withdrawn | src/V2G_Unit.java:105-107 | n equal withdrawals add up to n times one |
| ChargeCurve.DischargeEnergy | src/V2G_Unit.java:97-107 | the energy returned is 90 % of what the battery lost |
| Vehicles.V2GUnit.TickDischarge | src/V2G_Unit.java:88-108 | the car ends at the run's status, DISCHARGING if a minute ran; 90 % of the withdrawn energy is returned |
| Vehicles.V2GUnit.ConnectElectricCar | src/V2G_Unit.java:145-156 | succeeds iff free, then linked both ways; otherwise nothing changes |
| Vehicles.V2GUnit.DisconnectElectricCar | src/V2G_Unit.java:162-174 | succeeds iff it is the connected car, then both links are cleared |
| GridSim.Grid.constructor | src/Grid.java:17-37 | empty registries, 01-00:00, one minute per tick, no snapshot |
| GridSim.DayOne | src/Grid.java:20 | the grid clock's initial Time holds [1, 0, 0] |
| GridSim.FirstFreeIndex | src/Grid.java:84-87 | the first drawn id not yet a key; every earlier draw was taken |
| GridSim.Grid.NewElectricCar | src/Grid.java:43-48 | registers the car under a fresh id, adding exactly that entry |
| GridSim.Grid.NewV2GUnit | src/Grid.java:54-59 | registers the unit under a fresh id, adding exactly that entry |
| GridSim.Grid.SetTickSpeed | src/Grid.java:144-150 | accepts exactly values ≥ 1; a refused value keeps the old one |
| GridSim.Grid.GetTickSpeed | src/Grid.java:152-154 | the tick speed, at least 1 |
| GridSim.Grid.TickCar | src/Grid.java:170-175 | DRIVING drives, BEING_TOWED is towed, connected cars are ranked unchanged, others are left alone |
| GridSim.Grid.DriveCar | src/Grid.java:171 | a driving car advances one drive tick, leaves nothing else changed and is not connected |
| GridSim.Grid.TowCar | src/Grid.java:172 | a towed car advances one tow tick, leaves nothing else changed and is not connected |
| GridSim.Grid.TickCars | src/Grid.java:162-176 | every car has advanced one tick, and each connected car sits in exactly the list of the priority it had |
| GridSim.BucketedAdd | src/Grid.java:174 | adding a car to the list of its priority keeps each list holding exactly its ranked cars |
| GridSim.RankedVisit | src/Grid.java:169-176 | visiting one more car keeps the lists in step with the cars visited |
| GridSim.CollectLast | src/Grid.java:186-197 | appending the lists of the first n priorities is the first n − 1 followed by the n-th |
| GridSim.BucketMembers | src/Grid.java:186-197 | a list holds cars of its priority only, and all of them unless IMMEDIATELY is skipped |
| GridSim.AppendRanked | src/Grid.java:186-197 | appending less urgent distinct cars keeps each car once in descending urgency |
| GridSim.CollectMembers | src/Grid.java:186-197 | the appended lists hold exactly the cars of the priorities taken |
| GridSim.CollectOrdered | src/Grid.java:186-197 | each car appears once, from the most to the least urgent |
| GridSim.ReverseRanked | src/Grid.java:198 | reversing keeps the cars and turns the order descending |
| GridSim.Reverse | src/Grid.java:198 | element i is the i-th from the end |
| GridSim.CandidatesOfCollect | src/Grid.java:181-199 | the appended (or reversed) lists are the candidate list |
| GridSim.CandidatesOfBuckets | src/Grid.java:181-199 | any list of each ranked car once, in the right order, is the candidate list |
| GridSim.CandidateCars | src/Grid.java:181-199 | deficit: connected non-IMMEDIATELY cars, most urgent first; otherwise all connected cars, least urgent first; each once |
| GridSim.DaytimeDeficit | src/Grid.java:182 | under a five-weight distribution every minute from 07:00 of a drawn day is a deficit, so manage_cars takes the deficit order |
| GridSim.Grid.ManageCars | src/Grid.java:160-209 | cars advance; the result is the candidate list for the deficit at the minute of day; no snapshot is the failure |
| GridSim.Grid.RefreshSnapshot | src/Grid.java:106-109 | a new snapshot of drawn weather only at minute 0 of a day; otherwise unchanged |
| GridSim.Grid.Install | src/Grid.java:108 | the snapshot is installed and the grid stays valid |
| GridSim.Grid.AdvanceClock | src/Grid.java:115 | the clock moves on by exactly the tick speed |
| GridSim.Grid.Tick | src/Grid.java:104-116 | the snapshot step, then manage_cars, then the clock moves by one tick; a failing step stops the tick |
| GridSim.Grid.ManageAndAdvance | src/Grid.java:113-115 | every car has advanced one tick; without a snapshot the clock stays, otherwise it moves by one tick |
| GridSim.TicksToCoverIsLeast | src/Grid.java:95-98 | TicksToCover ticks reach the target, one fewer does not |
| GridSim.TicksToCoverUnique | src/Grid.java:95-98 | any count that exactly covers the minutes is TicksToCover |
| GridSim.Grid.Operate | src/Grid.java:93-99 | without an exception, the clock moves on by tickSpeed × TicksToCover(minutes) |
| Pixels.ValidateColor | src/Services/Bitmap.java:66-77 | accepts exactly three components in [0, 255]; the length is checked first |
| Canvas.Bitmap.constructor | src/Services/Bitmap.java:42-47 | with render_on_init false: a black canvas of the size, with comment "#" + filename |
| Canvas.Bitmap.Create | src/Services/Bitmap.java:42-50 | with render_on_init the construction throws iff render refuses the name (shorter than 2, or not ppm/pbm/pgm), and otherwise writes the black canvas's text |
| Canvas.Bitmap.Window | src/Services/Bitmap.java:384-385 | the rows render reads: row i, column j is canvas[i][j] |
| Canvas.PixelCheck | src/Services/Bitmap.java:87-91 | passes iff the pixel is on the canvas |
| Canvas.Bitmap.ChangePixel | src/Services/Bitmap.java:86-100 | an off-canvas pixel throws; otherwise only cell [height − y][x − 1] changes |
| Canvas.Spanned | src/Services/Bitmap.java:125-127 | the same rectangle whichever order the corners come in |
| Canvas.ScanOutcome | src/Services/Bitmap.java:137-145 | a clipping scan passes iff the rectangle fits |
| Canvas.FirstOutsideIsFirst | src/Services/Bitmap.java:137-145 | the throwing pixel is off the canvas and every earlier one was on it |
| Canvas.FirstOutsideUnique | src/Services/Bitmap.java:137-145 | an off-canvas pixel the scan reaches is the one that throws |
| Canvas.ScannedAll | src/Services/Bitmap.java:137-145 | a scan that met no off-canvas pixel means the rectangle fits |
| Canvas.StoppedAt | src/Services/Bitmap.java:137-145 | where a clipping scan stops, exactly the pixels scanned before were written |
| Canvas.PaintedClippedIsReached | src/Services/Bitmap.java:137-145 | the closed form of the written pixels equals "reached by the scan" |
| Canvas.Bitmap.FillArea | src/Services/Bitmap.java:124-146 | without clipping exactly the on-canvas pixels of the rectangle; with it the pixels before the first off-canvas one, which throws |
| Canvas.HorizontalBandRows | src/Services/Bitmap.java:155-157 | `thickness` rows upwards from y_pos; below one, a band reaching down to y_pos + thickness − 1 |
| Canvas.VerticalBandColumns | src/Services/Bitmap.java:166-168 | the same for columns |
| Canvas.Bitmap.LineH | src/Services/Bitmap.java:155-157 | throws iff the band leaves the canvas; writes the band's reached pixels |
| Canvas.Bitmap.LineV | src/Services/Bitmap.java:166-168 | the same for the vertical band |
| Canvas.BorderIsRing | src/Services/Bitmap.java:185-196 | the four rectangles cover exactly the ring between the interior and the grown rectangle |
| Canvas.BorderFits | src/Services/Bitmap.java:185-196 | no fill throws iff the grown rectangle fits |
| Canvas.BorderRects | src/Services/Bitmap.java:192-196 | four ordered rectangles |
| Canvas.FirstUnfit | src/Services/Bitmap.java:192-196 | the first rectangle that leaves the canvas; all before it fit |
| Canvas.BorderOutcome | src/Services/Bitmap.java:192-196 | the four fills pass iff every rectangle fits |
| Canvas.Bitmap.FillRects | src/Services/Bitmap.java:192-196 | fills the rectangles until the first that throws, which it also writes up to its first off-canvas pixel |
| Canvas.Bitmap.Border | src/Services/Bitmap.java:185-200 | the four fills in order, stopping at the first that throws |
| Canvas.Bitmap.FillAreaOutlined | src/Services/Bitmap.java:124-146 | an active outline draws the border first, whose throw ends the call; then the fill |
| Canvas.Bitmap.FillWin | src/Services/Bitmap.java:205-210 | invalid colours are refused with nothing changed; otherwise every pixel is the colour |
| Canvas.Bitmap.Clear | src/Services/Bitmap.java:173-175 | every pixel is black |
| Patterns.ValidatePattern | src/Services/Bitmap.java:697-704 | passes iff the name is known, 0 ≤ from ≤ to and opacity ≥ 0; the first failed check names the error |
| Patterns.FirstMarker | src/Services/Bitmap.java:720-728 | the index of the first marker character; none before it |
| Patterns.FastFoldNext | src/Services/Bitmap.java:720-745 | the scan over one more character is one step of the loop |
| Patterns.EvaluateFastPattern | src/Services/Bitmap.java:718-748 | the scan computes the fast-pattern evaluation |
| Patterns.FastFoldShift | src/Services/Bitmap.java:724-726 | shift is set iff it was or a '>' occurs |
| Patterns.FastFoldOrientation | src/Services/Bitmap.java:721-723 | the orientation is that of the last 'H' or 'V', else unchanged |
| Patterns.FastFoldFailureSticks | src/Services/Bitmap.java:738-739 | a refused value is the outcome of the whole scan |
| Patterns.FastPatternPlain | src/Services/Bitmap.java:746 | a name without markers passes through, with the fields unchanged |
| Patterns.FastPatternAssigned | src/Services/Bitmap.java:727-747 | "name=value" gives the name with the fields the value assigns |
| Patterns.FastPatternAuto | src/Services/Bitmap.java:729 | "name=auto" turns auto on and changes nothing else |
| Patterns.FastPatternRange | src/Services/Bitmap.java:731-734 | "name=a-b" sets from to a and to to b |
| Patterns.AssignedRange | src/Services/Bitmap.java:731-734 | "a-b" holds no marker and assigns from := a and to := b |
| Patterns.NewPattern | src/Services/Bitmap.java:563-580 | the fast pattern is evaluated if asked for, then validated; the Pattern holds the resulting name and fields |
| Patterns.SetAutoPattern | src/Services/Bitmap.java:228-252 | without locking no path is recorded |
| Patterns.Unlocked | src/Services/Bitmap.java:259 | unlocking keeps a Color a Color and a Pattern a Pattern |
| Patterns.LockedAreAuto | src/Services/Bitmap.java:228-252 | every recorded path leads to a pattern that was in auto mode and is locked now |
| Patterns.UnlockAutoPattern | src/Services/Bitmap.java:257-261 | every listed pattern is unlocked, in order |
| Patterns.LockThenUnlock | src/Services/Bitmap.java:228-261 | locking then unlocking is fitting without locking |
| Patterns.UnlockedUnder | src/Services/Bitmap.java:257-261 | unlocking paths under one slot changes that slot only |
| Patterns.UnlockedLocked | src/Services/Bitmap.java:242-259 | unlocking a locked Pattern after its slots restores its auto mode |
| Patterns.LockThenUnlockNode | src/Services/Bitmap.java:228-261 | lock-then-unlock at one Pattern, given it for its slots |
| Netpbm.FormatName | src/Services/Bitmap.java:272-277 | a name shorter than 2 throws; without a '.' the format is "ppm" |
| Netpbm.FormatNameOfExtension | src/Services/Bitmap.java:274 | "base.ext" selects ext |
| Netpbm.FormatOf | src/Services/Bitmap.java:299-349 | exactly ppm, pbm and pgm are accepted |
| Netpbm.BitMapPixel | src/Services/Bitmap.java:321-325 | a pbm pixel is 0 iff its component sum exceeds 382 |
| Netpbm.GrayLevelRange | src/Services/Bitmap.java:337-341 | a pgm pixel of a valid colour is the truncated mean, in [0, 255] |
| Netpbm.BodyLines | src/Services/Bitmap.java:305-312 | the body is one line per row |
| Netpbm.WritePixel | src/Services/Bitmap.java:306-341 | the text of one pixel in the format |
| Netpbm.WriteRow | src/Services/Bitmap.java:306-310 | the text of one row |
| Netpbm.WriteBody | src/Services/Bitmap.java:305-312 | the text of all rows, one per line |
| Netpbm.RowTexts | src/Services/Bitmap.java:305-312 | the text of each row, in order |
| Netpbm.Render | src/Services/Bitmap.java:270-349 | render's text, or the exception it throws |
| NetpbmRead.PathCheck | src/Services/Bitmap.java:391 | passes iff the path's second '.' part is "ppm" |
| NetpbmRead.PathCheckOfExtension | src/Services/Bitmap.java:391 | "base.ext" passes iff ext is "ppm" |
| NetpbmRead.ReadLine | src/Services/Bitmap.java:416-443 | one header line; comments and content only grow; nothing fails after the max value |
| NetpbmRead.ReadLinesConsistent | src/Services/Bitmap.java:415-444 | the header loop keeps width and height together and content after the max value |
| NetpbmRead.ReadHeader | src/Services/Bitmap.java:415-444 | the loop from line 1 computes the header |
| NetpbmRead.ReadLinesFailureSticks | src/Services/Bitmap.java:415-444 | an exception at one header line is the outcome of the whole loop |
| NetpbmRead.Values | src/Services/Bitmap.java:445-449 | defined iff every token parses, and then the parsed values |
| NetpbmRead.TriplesOfConcat | src/Services/Bitmap.java:450-453 | grouping the values of triples gives the triples back |
| NetpbmRead.Group | src/Services/Bitmap.java:450-453 | the loop groups the values three by three |
| NetpbmRead.Allocation | src/Services/Bitmap.java:454 | succeeds iff width and height were read, width ≠ 0 and no size is negative |
| NetpbmRead.CopyRange | src/Services/Bitmap.java:452-456 | refused iff from > to or from lies outside |
| NetpbmRead.RowsOf | src/Services/Bitmap.java:455-457 | row i holds pixels from i·width, null past the end |
| NetpbmRead.ToRows | src/Services/Bitmap.java:454-457 | the loop fills the rows as RowsOf says |
| NetpbmRead.RowsFailureSticks | src/Services/Bitmap.java:455-457 | a failing row makes the whole copy fail the same way |
| NetpbmRead.RowsOfTriples | src/Services/Bitmap.java:455-457 | rows built from triples hold triples |
| NetpbmRead.ContentRows | src/Services/Bitmap.java:463-470 | succeeds iff every cell read is in its row and non-null, and then copies them |
| NetpbmRead.ContentRow | src/Services/Bitmap.java:465-469 | one row's copy succeeds iff each cell it reads is in the row and non-null, and then copies them |
| NetpbmRead.ToContent | src/Services/Bitmap.java:463-470 | the copy loops compute ContentRows |
| NetpbmRead.RowFailureSticks | src/Services/Bitmap.java:465-469 | a failing cell fails the rest of the row the same way |
| NetpbmRead.RowsContentFailureSticks | src/Services/Bitmap.java:464-470 | a failing row fails the rest of the copy the same way |
| NetpbmRead.ScannedFile | src/Services/Bitmap.java:390-457 | a scan succeeds only for a ppm path and an existing file, with one row per height and triple cells |
| NetpbmRead.ScanFile | src/Services/Bitmap.java:390-457 | the scanning loops compute ScannedFile |
| NetpbmRead.DecodedAsWritten | src/Services/Bitmap.java:390-480 | as written, the canvas has one row per height |
| NetpbmRead.Decoded | src/Services/Bitmap.java:390-480 | with width columns, the canvas holds every pixel of content_as_rows |
| NetpbmRead.ReadFromFile | src/Services/Bitmap.java:390-482 | the corrected reader |
| NetpbmRead.ReadFromFileAsWritten | src/Services/Bitmap.java:390-482 | the reader as written |
| NetpbmRoundTrip.RoundTrip | src/Services/Bitmap.java:270-480 | reading back a rendered ppm gives the size, the comments, 255, every pixel in the rows and the window as the canvas |
| NetpbmRoundTrip.AsWrittenContent | src/Services/Bitmap.java:454-470 | as written, an image taller than wide throws; a wider one is cut to its height |
| NetpbmRoundTrip.TallImageAsWritten | src/Services/Bitmap.java:463-467 | a 1×2 image throws as written and round-trips in the corrected reader |
| JavaText.ParseIntToString | src/Services/Bitmap.java:426-427 | `parseInt(valueOf(n)) == n` for every int |
| JavaText.LinesOfJoinLines | src/Services/Bitmap.java:404-405 | the lines of text written as lines are the lines |
| JavaText.SplitTwo | src/Services/Time.java:43-44 | splitting "a" + sep + "b" gives a and b back |
| JavaText.SplitSpacesIsWords | src/Services/Bitmap.java:449 | `trim().split(" +")` is the words |
| Rng.NextInt | src/Electricity_Grid.java:35 | a draw lies in [0, bound) |
| Rng.NextInts | src/Electricity_Grid.java:34-36 | `count` draws in [0, bound): the i-th is nextInt from the generator after i draws, and the generator moves on by `count` |
| Rng.Draw | src/Electric_Car.java:402 | the draw and next state of one nextInt call, in [0, bound) |

## Left out

- Console output: every `System.out.println` and `print` call. `Out.Print` returns the line instead.
- The ASCII art of the grid's constructor is left out for the same reason.
- File I/O:
  - `render` returns its text instead of writing it.
  - `readFromFile` takes the file's text as an `Option<string>`, where `None` means the file cannot be opened.
  - Left out with it: the current-directory prefix, `report_path`, and the FileNotFound retry of `render`.
- `Scanner` line separators: lines are split at '\n' only.
- Rng.NextInt: the draw is `(seed >>> 17) % bound` from java.util.Random's multiplier, increment and 48-bit state; the seed scrambling, the power-of-two branch and the rejection loop of `nextInt` are not modelled, so only the range of each draw is relied on. New `Random()` instances are one seeded generator.
- Rng.NextInts: follows Rng.NextInt, so the draws match java.util.Random only up to the same simplifications; the properties of the model use only their ranges.
- Rng.Draw: the same as Rng.NextInt.
- JavaText.ParseInt: accepts ASCII digits only, where `Integer.parseInt` accepts any Unicode decimal digit; so Patterns' fast-pattern values and NetpbmRead.Values refuse numerals in other scripts that Java reads.
- JavaText.UpperCase: maps ASCII letters only, where `toUpperCase` is Unicode-aware; so Out.Identifier leaves other letters of an object's name or id as they are, where Java would upper-case them (and `ß` would become `SS`).
- Vehicles.ElectricCar.constructor: requires capacity > 0, maxChargeRate > 0 and energyConsumption >= 0. With a zero capacity Java divides by zero into an IEEE infinity or NaN, which exact reals cannot express. With a non-positive charge rate the charging-duration loop never ends (see "## Findings" and ChargeCurve.ChargingNeverEnds). A negative consumption makes driving charge the battery, which the drive-tick contracts do not cover.
- Vehicles.V2GUnit.constructor: requires chargingRate > 0, because with a non-positive rate calculate_charging_duration never terminates (see "## Findings").
- Vehicles.V2GUnit.WarnLevel: requires chargingRate > 0 for the same reason.
- GridSim.Grid.NewElectricCar: passes its arguments to the car constructor and has the same requires, for the same reasons.
- GridSim.Grid.NewV2GUnit: passes its rate to the unit constructor and has the same requires, for the same reason.
- Canvas.Bitmap.Create: render's file writing, its FileNotFound retry and its IOException are not modelled; the text it would write is returned.
- `UUID` ids are a parameter sequence of draws, so a fresh id is "the first drawn id not yet taken".
- `generate_id_iterative`, `printV2GUnits`, `printTime`, `out_of_sync_drive`, `V2G_Unit.charge`, `Time.addTime(String)` and `Time.parseInputString` are left out: they are unused or only print.
- The candidate list of `manage_cars` is computed and returned; moving energy along it is left out, because the source leaves it as TODOs.
- Hashtable iteration order is unspecified: the cars are visited in an arbitrary order, and the properties hold for any order.
- Vehicles.ElectricCar.GetChargingPriority: requires a linked unit when a contracted profile is above its minimum. Without one, Java raises a NullPointerException; there `PriorityAt` is NONE and the case is excluded.
- GridSim.Grid.Operate: states the clock and the validity of the grid, not the per-car effect of each tick (that is `GridSim.Grid.Tick`'s).
- Vehicles.V2GUnit.CalculateFullChargingDuration: states the duration only from a non-negative status (the negative case is `CalculateChargingDuration`'s).
- 32-bit `int` overflow is not modelled: clock fields, sums and products are unbounded integers. The Netpbm round trip requires width and height within `int` range.
- Doubles are exact reals, so IEEE rounding and the `(int)` cast of a rounded product may differ by one at rare edges.
- `remaining_time_penalty` is a double in Java but only ever holds whole numbers; it is an `int` here.
- Only `Color` providers paint pixels. `Pattern.run` is not modelled: its gradients, opacity, the `sin`-based patterns, and the `custom`/`smoothed_function` predicates are all floating-point colour maths.
- Also not modelled: `Color.setAlpha`, `Colors.mix`/`brighten`, `circle`, `cross`, `tree`, `Animations` and `Electricity_Usage_Visualizer`.
- Pattern trees are values: a Pattern shared between two slots, or between the caller and the fill, is not modelled as shared.
- `setAutoPattern` therefore returns the fitted tree together with the paths of the locked patterns.
- Canvas colours are copied sequences: that the canvas aliases the colour's `int[]` is not modelled.
- `readFromFile`'s `overwriteSettings` branch is left out; the image it returns carries the canvas it would install.
- Negative canvas sizes (a NegativeArraySizeException in the constructor) are excluded by the constructor's precondition.
- Out-of-memory conditions are not modelled.
- JavaText.ParseDecimal: `Double.parseDouble` is modelled on plain decimal numerals only (no surrounding whitespace, exponents, hex, `NaN` or `Infinity`).

## Findings

| source | as written | input that shows it | evidently intended | confidence | as-written member | corrected member |
|---|---|---|---|---|---|---|
| src/Services/Bitmap.java:463-467 | the int array for the canvas has `content_as_pixels.length / width` columns, the image's height, and the copy reads that many pixels from each row | a 1-pixel-wide, 2-pixel-tall black image rendered to "x.ppm" and read back: row 0 holds one pixel, pixel index 1 is read, ArrayIndexOutOfBoundsException; an image wider than tall loses every column past its height | the int array has `width` columns, so the canvas is the image that was written | not executed | NetpbmRoundTrip.TallImageAsWritten | NetpbmRoundTrip.RoundTrip |
| src/V2G_Unit.java:124-134 | nothing rejects a non-positive charging rate: `V2G_Unit` takes any `charging_rate` and `Electric_Car` any `max_charge_rate`, and the loop `while (charge_status < up_to)` adds `rate / 60 * tick_speed` of energy per tick | a unit built with `new V2G_Unit(0.0, grid)` and a connected car at 50 %: `calculate_charging_duration()` ticks forever, because the status stays at 50 | a positive charging rate, so that each tick raises the status and the loop ends | not executed | ChargeCurve.ChargingNeverEnds | ChargeCurve.SimulatedStepsReach |
