/**
 * Grid.java: the registry of cars and V2G units, the simulation clock and the tick that
 * advances every car and ranks the connected ones for charging or discharging.
 */
module GridSim {
  import opened Wrappers
  import opened Out
  import opened Clock
  import opened CarState
  import opened ChargeCurve
  import opened EnergyModel
  import opened Vehicles
  import Rng

  /** The exceptions a grid operation can raise. */
  datatype GridError =
    | IllegalTickSpeed
    | NoSnapshot                        // manage_cars reads a snapshot that was never generated
    | SnapshotFailed(cause: EnergyError)

  // ---------------------------------------------------------------------------
  // Identifiers

  /** A free draw exists among the drawn ids, so the recursion that skips taken ones stops. */
  predicate HasFreeDraw(draws: seq<string>, taken: set<string>)
  {
    exists k :: 0 <= k < |draws| && draws[k] !in taken
  }

  lemma FreeDrawInTail(draws: seq<string>, taken: set<string>)
    requires HasFreeDraw(draws, taken) && draws[0] in taken
    ensures HasFreeDraw(draws[1..], taken)
  {
    var k :| 0 <= k < |draws| && draws[k] !in taken;
    assert draws[1..][k - 1] == draws[k];
  }

  /**
   * generate_id_recursive: the position of the id that is finally used, i.e. the first
   * drawn id that is not yet a key of the table; every earlier draw was taken.
   */
  function FirstFreeIndex(draws: seq<string>, taken: set<string>): (i: nat)
    requires HasFreeDraw(draws, taken)
    ensures i < |draws| && draws[i] !in taken
    ensures forall j :: 0 <= j < i ==> draws[j] in taken
    decreases |draws|
  {
    if draws[0] !in taken then 0
    else
      FreeDrawInTail(draws, taken);
      var i := FirstFreeIndex(draws[1..], taken);
      assert forall j :: 1 <= j <= i ==> draws[j] == draws[1..][j - 1];
      1 + i
  }

  // ---------------------------------------------------------------------------
  // Priority buckets

  predicate Distinct<T(==)>(s: seq<T>)
  {
    forall i, j :: 0 <= i < j < |s| ==> s[i] != s[j]
  }

  /**
   * The priority table of manage_cars: a list for every priority, each list without
   * repetitions, and every car in the list of the priority it was ranked with.
   */
  ghost predicate Bucketed(table: map<ChargingPriority, seq<ElectricCar>>, rank: map<ElectricCar, ChargingPriority>)
  {
    (forall p: ChargingPriority :: p in table) &&
    (forall p, c :: p in table && c in table[p] ==> c in rank && rank[c] == p) &&
    (forall p :: p in table ==> Distinct(table[p]))
  }

  /** The list of `p` as the candidate list takes it: none of IMMEDIATELY's when `skipImmediately`. */
  function Bucket(table: map<ChargingPriority, seq<ElectricCar>>, p: ChargingPriority, skipImmediately: bool): seq<ElectricCar>
    requires p in table
  {
    if skipImmediately && p == IMMEDIATELY then [] else table[p]
  }

  /** The lists of `ps` appended in order, leaving out IMMEDIATELY's when `skipImmediately`. */
  function Collect(table: map<ChargingPriority, seq<ElectricCar>>, ps: seq<ChargingPriority>, skipImmediately: bool): seq<ElectricCar>
    requires forall p :: p in ps ==> p in table
  {
    if ps == [] then []
    else Collect(table, ps[..|ps| - 1], skipImmediately) + Bucket(table, ps[|ps| - 1], skipImmediately)
  }

  /** Collecting the first `n` priorities is collecting the first `n - 1` and appending the `n`-th. */
  lemma CollectLast(table: map<ChargingPriority, seq<ElectricCar>>, n: nat, skipImmediately: bool)
    requires (forall p: ChargingPriority :: p in table) && 0 < n <= |PRIORITIES|
    ensures Collect(table, PRIORITIES[..n], skipImmediately) ==
            Collect(table, PRIORITIES[..n - 1], skipImmediately) + Bucket(table, PRIORITIES[n - 1], skipImmediately)
  {
    assert PRIORITIES[..n][..n - 1] == PRIORITIES[..n - 1];
  }

  /** What the collected lists hold: the cars ranked among the first `n` priorities, except IMMEDIATELY's when skipped. */
  ghost predicate CollectedFrom(s: seq<ElectricCar>, table: map<ChargingPriority, seq<ElectricCar>>,
                                rank: map<ElectricCar, ChargingPriority>, n: nat, skipImmediately: bool)
    requires Bucketed(table, rank)
  {
    (forall c :: c in s ==> c in rank && c in table[rank[c]] && Urgency(rank[c]) < n && !(skipImmediately && rank[c] == IMMEDIATELY)) &&
    (forall c :: c in rank && c in table[rank[c]] && Urgency(rank[c]) < n && !(skipImmediately && rank[c] == IMMEDIATELY) ==> c in s)
  }

  /** Every car appears once and the urgencies never fall (ascending) or never rise (descending). */
  ghost predicate RankedOnce(s: seq<ElectricCar>, rank: map<ElectricCar, ChargingPriority>, ascending: bool)
    requires forall c :: c in s ==> c in rank
  {
    Distinct(s) &&
    forall i, j :: 0 <= i < j < |s| ==>
      if ascending then Urgency(rank[s[i]]) <= Urgency(rank[s[j]]) else Urgency(rank[s[i]]) >= Urgency(rank[s[j]])
  }

  /** The list a priority contributes holds exactly its ranked cars, unless it is skipped. */
  lemma BucketMembers(table: map<ChargingPriority, seq<ElectricCar>>, rank: map<ElectricCar, ChargingPriority>,
                      p: ChargingPriority, skipImmediately: bool)
    requires Bucketed(table, rank)
    ensures forall c :: c in Bucket(table, p, skipImmediately) ==> c in rank && rank[c] == p && !(skipImmediately && p == IMMEDIATELY)
    ensures forall c :: c in rank && rank[c] == p && c in table[p] && !(skipImmediately && p == IMMEDIATELY) ==>
                        c in Bucket(table, p, skipImmediately)
  {
  }

  /** The first `n` lists of the table in the enum's order hold exactly the cars ranked among the first `n` priorities. */
  lemma {:induction false} CollectMembers(table: map<ChargingPriority, seq<ElectricCar>>, rank: map<ElectricCar, ChargingPriority>,
                                          n: nat, skipImmediately: bool)
    requires Bucketed(table, rank) && n <= |PRIORITIES|
    ensures CollectedFrom(Collect(table, PRIORITIES[..n], skipImmediately), table, rank, n, skipImmediately)
  {
    if n > 0 {
      CollectMembers(table, rank, n - 1, skipImmediately);
      CollectLast(table, n, skipImmediately);
      var p := PRIORITIES[n - 1];
      assert Urgency(p) == n - 1;
      BucketMembers(table, rank, p, skipImmediately);
      var s := Collect(table, PRIORITIES[..n], skipImmediately);
      forall c | c in rank && c in table[rank[c]] && Urgency(rank[c]) < n && !(skipImmediately && rank[c] == IMMEDIATELY)
        ensures c in s
      {
        if Urgency(rank[c]) == n - 1 {
          assert rank[c] == p;
        }
      }
    }
  }

  /** Appending the distinct cars of one less urgent priority keeps a ranking ascending and repetition-free. */
  lemma AppendRanked(prefix: seq<ElectricCar>, added: seq<ElectricCar>, rank: map<ElectricCar, ChargingPriority>, p: ChargingPriority)
    requires forall c :: c in prefix ==> c in rank && Urgency(rank[c]) < Urgency(p)
    requires forall c :: c in added ==> c in rank && rank[c] == p
    requires RankedOnce(prefix, rank, true) && Distinct(added)
    ensures RankedOnce(prefix + added, rank, true)
  {
    var s := prefix + added;
    forall i, j | 0 <= i < j < |s|
      ensures s[i] != s[j] && Urgency(rank[s[i]]) <= Urgency(rank[s[j]])
    {
      if j >= |prefix| {
        assert s[j] == added[j - |prefix|];
        if i >= |prefix| {
          assert s[i] == added[i - |prefix|];
        } else {
          assert s[i] == prefix[i] && prefix[i] in prefix;
        }
      } else {
        assert s[i] == prefix[i] && s[j] == prefix[j];
      }
    }
  }

  /** The first `n` lists of the table in the enum's order hold each car once, from the most to the least urgent. */
  lemma {:induction false} CollectOrdered(table: map<ChargingPriority, seq<ElectricCar>>, rank: map<ElectricCar, ChargingPriority>,
                                          n: nat, skipImmediately: bool)
    requires Bucketed(table, rank) && n <= |PRIORITIES|
    ensures CollectedFrom(Collect(table, PRIORITIES[..n], skipImmediately), table, rank, n, skipImmediately)
    ensures RankedOnce(Collect(table, PRIORITIES[..n], skipImmediately), rank, true)
  {
    CollectMembers(table, rank, n, skipImmediately);
    if n > 0 {
      CollectOrdered(table, rank, n - 1, skipImmediately);
      CollectLast(table, n, skipImmediately);
      var p := PRIORITIES[n - 1];
      assert Urgency(p) == n - 1;
      AppendRanked(Collect(table, PRIORITIES[..n - 1], skipImmediately), Bucket(table, p, skipImmediately), rank, p);
    }
  }

  /** Adding an unranked car to the list of its priority keeps the table bucketed. */
  lemma BucketedAdd(table: map<ChargingPriority, seq<ElectricCar>>, rank: map<ElectricCar, ChargingPriority>,
                    car: ElectricCar, p: ChargingPriority)
    requires Bucketed(table, rank) && car !in rank
    ensures Bucketed(table[p := table[p] + [car]], rank[car := p])
  {
    var t := table[p := table[p] + [car]];
    forall q, c | q in t && c in t[q]
      ensures c in rank[car := p] && rank[car := p][c] == q
    {
      if q == p && c == car {
      } else if q == p {
        assert c in table[p];
      } else {
        assert c in table[q];
      }
    }
    assert car !in table[p];
  }

  function Reverse<T>(s: seq<T>): (r: seq<T>)
    ensures |r| == |s| && forall i :: 0 <= i < |s| ==> r[i] == s[|s| - 1 - i]
  {
    if s == [] then [] else Reverse(s[1..]) + [s[0]]
  }

  /** Reversing keeps the cars and turns an ascending ranking into a descending one. */
  lemma ReverseRanked(s: seq<ElectricCar>, rank: map<ElectricCar, ChargingPriority>)
    requires forall c :: c in s ==> c in rank
    requires RankedOnce(s, rank, true)
    ensures forall c :: c in Reverse(s) <==> c in s
    ensures RankedOnce(Reverse(s), rank, false)
  {
    var r := Reverse(s);
    forall c | c in s
      ensures c in r
    {
      var k :| 0 <= k < |s| && s[k] == c;
      assert r[|s| - 1 - k] == c;
    }
    forall i, j | 0 <= i < j < |r|
      ensures r[i] != r[j] && Urgency(rank[r[i]]) >= Urgency(rank[r[j]])
    {
      assert r[i] == s[|s| - 1 - i] && r[j] == s[|s| - 1 - j];
    }
  }

  /**
   * The candidate list of manage_cars. On a production deficit the lists of every
   * priority but IMMEDIATELY are appended from URGENT to NONE; otherwise all lists are
   * appended and the result reversed, so it runs from NONE back to IMMEDIATELY. When
   * the lists were filled from the cars `before` records, that is their candidate list.
   */
  method CandidateCars(table: map<ChargingPriority, seq<ElectricCar>>, ghost rank: map<ElectricCar, ChargingPriority>,
                       ghost before: map<ElectricCar, Before>, deficit: bool)
      returns (cars: seq<ElectricCar>)
    requires Ranked({}, table, rank, before)
    ensures Candidates(cars, before, deficit)
  {
    cars := [];
    var i := 0;
    while i < |PRIORITIES|
      invariant 0 <= i <= |PRIORITIES|
      invariant cars == Collect(table, PRIORITIES[..i], deficit)
    {
      var p := PRIORITIES[i];
      assert PRIORITIES[..i + 1][..i] == PRIORITIES[..i];
      if !deficit || p != IMMEDIATELY {
        cars := cars + table[p];
      }
      i := i + 1;
    }
    assert PRIORITIES[..|PRIORITIES|] == PRIORITIES;
    if !deficit {
      cars := Reverse(cars);
    }
    CandidatesOfCollect(table, rank, before, deficit);
  }

  /** The lists appended in the order of CandidateCars, reversed when there is no deficit, are the candidate list. */
  lemma CandidatesOfCollect(table: map<ChargingPriority, seq<ElectricCar>>, rank: map<ElectricCar, ChargingPriority>,
                            before: map<ElectricCar, Before>, deficit: bool)
    requires Ranked({}, table, rank, before)
    ensures Candidates(if deficit then Collect(table, PRIORITIES, true) else Reverse(Collect(table, PRIORITIES, false)), before, deficit)
  {
    var collected := Collect(table, PRIORITIES, deficit);
    CollectOrdered(table, rank, |PRIORITIES|, deficit);
    assert PRIORITIES[..|PRIORITIES|] == PRIORITIES;
    assert forall c :: c in collected <==> c in rank && c in table[rank[c]] && (deficit ==> rank[c] != IMMEDIATELY);
    if deficit {
      CandidatesOfBuckets(table, rank, before, deficit, collected);
    } else {
      ReverseRanked(collected, rank);
      CandidatesOfBuckets(table, rank, before, deficit, Reverse(collected));
    }
  }

  // ---------------------------------------------------------------------------
  // One tick of a car

  /**
   * What manage_cars does to a car in one tick, from the view `before`: a driving car
   * drives one tick (with some towing penalty drawn), a towed car is towed one tick,
   * any other car keeps its charge and state.
   */
  ghost predicate Advanced(car: ElectricCar, before: CarView, tickSpeed: int)
    requires car.Valid()
    reads car
  {
    match before.state.descriptor
    case DRIVING =>
      exists draw :: 0 <= draw < 10 &&
        car.View() == DriveTick(car.capacity, car.energyConsumption, car.speed, before, tickSpeed, draw)
    case BEING_TOWED => car.View() == TowTick(before, tickSpeed)
    case _ => car.View() == before
  }

  /** A Time parsed from "01-00:00", the grid clock's initial value. */
  method DayOne() returns (t: Time)
    ensures fresh(t) && fresh(t.time) && t.Valid() && t.Value() == [1, 0, 0]
  {
    ParseDayOne();
    NormalizeFixes([1, 0, 0]);
    var parsed := Time.Parse("01-00:00");
    t := parsed.value;
  }

  /**
   * The list manage_cars builds from the cars as `before` records them: on a deficit the
   * connected cars that are not IMMEDIATELY, from the most to the least urgent, otherwise
   * all the connected cars from the least to the most urgent; each car once.
   */
  ghost predicate Candidates(cars: seq<ElectricCar>, before: map<ElectricCar, Before>, deficit: bool)
  {
    (forall c :: c in cars ==>
       c in before && IsConnected(before[c].view.state.descriptor) && (deficit ==> before[c].priority != IMMEDIATELY)) &&
    (forall c :: c in before && IsConnected(before[c].view.state.descriptor) && (deficit ==> before[c].priority != IMMEDIATELY) ==>
       c in cars) &&
    Distinct(cars) &&
    forall i, j :: 0 <= i < j < |cars| ==>
      var (earlier, later) := (before[cars[i]].priority, before[cars[j]].priority);
      if deficit then Urgency(earlier) <= Urgency(later) else Urgency(earlier) >= Urgency(later)
  }

  /** The candidate list of the buckets is the candidate list of the cars the buckets were filled from. */
  lemma CandidatesOfBuckets(table: map<ChargingPriority, seq<ElectricCar>>, rank: map<ElectricCar, ChargingPriority>,
                            before: map<ElectricCar, Before>, deficit: bool, cars: seq<ElectricCar>)
    requires Ranked({}, table, rank, before)
    requires forall c :: c in cars <==> c in rank && c in table[rank[c]] && (deficit ==> rank[c] != IMMEDIATELY)
    requires RankedOnce(cars, rank, deficit)
    ensures Candidates(cars, before, deficit)
  {
  }

  /** What the loop in manage_cars reads of a car, and what it must leave alone, as it was when the loop began. */
  datatype Before = Before(view: CarView, speed: real, unit: V2GUnit?, logLevel: LogLevel,
                           profile: ChargingProfile, priority: ChargingPriority)

  ghost function BeforeOf(car: ElectricCar, now: int, tickSpeed: int): Before
    reads car, car.v2gUnit
  {
    Before(car.View(), car.speed, car.v2gUnit, car.logLevel, car.chargingProfile, car.PriorityAt(now, tickSpeed))
  }

  /** The car still has the settings it had before the loop (the fields Kept names). */
  ghost predicate Settled(car: ElectricCar, b: Before)
    reads car
  {
    car.speed == b.speed && car.v2gUnit == b.unit && car.logLevel == b.logLevel && car.chargingProfile == b.profile
  }

  /**
   * The lists of manage_cars with the ids in `remaining` still to visit: the visited
   * connected cars, and only they, sit in the list of the priority they had before the loop.
   */
  ghost predicate Ranked(remaining: set<string>, table: map<ChargingPriority, seq<ElectricCar>>,
                         rank: map<ElectricCar, ChargingPriority>, before: map<ElectricCar, Before>)
  {
    Bucketed(table, rank) &&
    (forall c :: c in rank ==>
       c in before && c.gridId !in remaining && IsConnected(before[c].view.state.descriptor) &&
       c in table[rank[c]] && rank[c] == before[c].priority) &&
    (forall c :: c in before && c.gridId !in remaining && IsConnected(before[c].view.state.descriptor) ==> c in rank)
  }

  /** Visiting a car appends it to the list of its priority exactly when it was connected. */
  lemma RankedVisit(remaining: set<string>, table: map<ChargingPriority, seq<ElectricCar>>,
                    rank: map<ElectricCar, ChargingPriority>, before: map<ElectricCar, Before>,
                    car: ElectricCar, ranked: Option<ChargingPriority>)
    requires Ranked(remaining, table, rank, before)
    requires car in before && car.gridId in remaining
    requires forall c :: c in before && c.gridId == car.gridId ==> c == car
    requires ranked.Some? <==> IsConnected(before[car].view.state.descriptor)
    requires ranked.Some? ==> ranked.value == before[car].priority
    ensures ranked.Some? ==>
      Ranked(remaining - {car.gridId}, table[ranked.value := table[ranked.value] + [car]], rank[car := ranked.value], before)
    ensures ranked.None? ==> Ranked(remaining - {car.gridId}, table, rank, before)
  {
    if ranked.Some? {
      BucketedAdd(table, rank, car, ranked.value);
    }
  }

  /** The number of ticks operate runs for: the fewest whole ticks covering `minutes`. */
  function TicksToCover(minutes: int, tickSpeed: int): (n: nat)
    requires tickSpeed >= 1
  {
    if minutes <= 0 then 0 else (minutes + tickSpeed - 1) / tickSpeed
  }

  /** TicksToCover ticks cover the minutes, and one tick fewer would not. */
  lemma TicksToCoverIsLeast(minutes: int, tickSpeed: int)
    requires tickSpeed >= 1
    ensures tickSpeed * TicksToCover(minutes, tickSpeed) >= minutes
    ensures TicksToCover(minutes, tickSpeed) > 0 ==> tickSpeed * (TicksToCover(minutes, tickSpeed) - 1) < minutes
  {
    var n := TicksToCover(minutes, tickSpeed);
    if minutes > 0 {
      var a := minutes + tickSpeed - 1;
      assert a == tickSpeed * (a / tickSpeed) + a % tickSpeed;
      assert tickSpeed * (n - 1) == tickSpeed * n - tickSpeed;
    }
  }

  /** Any count of ticks that covers the minutes with nothing to spare is TicksToCover. */
  lemma TicksToCoverUnique(minutes: int, tickSpeed: int, count: nat)
    requires tickSpeed >= 1 && tickSpeed * count >= minutes
    requires count > 0 ==> tickSpeed * (count - 1) < minutes
    ensures count == TicksToCover(minutes, tickSpeed)
  {
    if count > 0 {
      assert tickSpeed * (count - 1) == tickSpeed * count - tickSpeed;
      assert minutes > 0 by {
        assert tickSpeed * (count - 1) >= 0;
      }
      DivUnique(minutes + tickSpeed - 1, tickSpeed, count);
    }
  }

  /** Consumption above production at that minute of the day. */
  predicate ProductionDeficit(s: Snapshot, minute: int)
    requires 0 <= minute < |s.production| && minute < |s.consumption|
  {
    s.consumption[minute] > s.production[minute]
  }

  /**
   * Under a five-weight distribution a day drawn by getSnapshot is in deficit at every
   * minute from 07:00 on: production stays at or below 37, while from hour 7 every
   * hourly consumption value is at least 40. So from 07:00 manage_cars always takes the
   * deficit order.
   */
  lemma DaytimeDeficit(d: Distribution, draws: DayDraws, s: Snapshot, minute: int)
    requires IsDistribution(d) && !d.weakDistribution && TotalWeight(d) != 0 && ValidDraws(draws)
    requires |s.production| == |s.consumption| == MINUTES_PER_DAY
    requires forall i :: 0 <= i < MINUTES_PER_DAY ==> s.production[i] == ProductionAt(d, draws, i)
    requires forall i :: 0 <= i < MINUTES_PER_DAY ==> s.consumption[i] == SmoothAt(ConsumptionHours(draws.consumptionJitter), i)
    requires 420 <= minute < MINUTES_PER_DAY
    ensures ProductionDeficit(s, minute)
  {
    ProductionBounds(d, draws, minute);
    var hours := ConsumptionHours(draws.consumptionJitter);
    SmoothBetween(hours, minute);
    assert forall i :: 7 <= i < 25 ==> BASE_CONSUMPTION[i] >= 40;
    assert 7 <= minute / 60 < 24;
  }

  // ---------------------------------------------------------------------------
  // The grid

  class Grid {
    /** The registered cars and units, keyed by their ids. */
    var electricCars: map<string, ElectricCar>
    var v2gUnits: map<string, V2GUnit>
    const time: Time
    var tickSpeed: int
    var energyDistribution: Distribution
    var electricitySnapshot: Option<Snapshot>
    /** The generator behind the snapshots and the towing penalties. */
    var random: Rng.Random

    ghost function Cars(): set<ElectricCar>
      reads this`electricCars
    {
      electricCars.Values
    }

    ghost function Units(): set<V2GUnit>
      reads this`v2gUnits
    {
      v2gUnits.Values
    }

    /**
     * The clock is a normal time not before day 0; ticks are at least a minute; the
     * distribution is one its constructors build; a snapshot covers a whole day; every
     * registered car and unit is stored under its own id; and cars and units connected
     * to each other are both registered and point at each other.
     */
    ghost predicate Valid()
      reads this`electricCars, this`v2gUnits, this`tickSpeed, this`energyDistribution, this`electricitySnapshot, time, time.time, Cars(), Units()
    {
      time.Valid() && IsNormal(time.Value()) && time.time[0] >= 0 &&
      tickSpeed >= 1 && IsDistribution(energyDistribution) &&
      (electricitySnapshot.Some? ==>
         |electricitySnapshot.value.production| == MINUTES_PER_DAY &&
         |electricitySnapshot.value.consumption| == MINUTES_PER_DAY) &&
      (forall id :: id in electricCars ==> electricCars[id].gridId == id) &&
      (forall id :: id in v2gUnits ==> v2gUnits[id].gridId == id) &&
      (forall c :: c in Cars() ==> c.gridId in electricCars && electricCars[c.gridId] == c) &&
      (forall c :: c in Cars() ==> c.Valid() && (c.v2gUnit != null ==> c.v2gUnit in Units()) && c.Linked()) &&
      (forall u :: u in Units() ==> u.Valid() && (u.connectedCar != null ==> u.connectedCar in Cars() && u.connectedCar.v2gUnit == u))
    }

    /** Grid(distribution): empty tables, 01-00:00, one minute per tick, no snapshot yet. */
    constructor (energyDistribution: Distribution, seed: nat)
      requires IsDistribution(energyDistribution)
      ensures Valid() && fresh(time) && fresh(time.time)
      ensures electricCars == map[] && v2gUnits == map[]
      ensures time.Value() == [1, 0, 0] && tickSpeed == 1
      ensures this.energyDistribution == energyDistribution && electricitySnapshot == None
      ensures random == Rng.Random(seed)
    {
      var start := DayOne();
      time := start;
      electricCars := map[];
      v2gUnits := map[];
      tickSpeed := 1;
      this.energyDistribution := energyDistribution;
      electricitySnapshot := None;
      random := Rng.Random(seed);
    }

    /**
     * new Electric_Car(..., grid, log_level): the car registers itself under the first
     * drawn id that is not yet a car id and starts full, idle and unconnected.
     */
    method NewElectricCar(idDraws: seq<string>, capacity: real, energyConsumption: real, maxChargeRate: real, logLevel: LogLevel)
        returns (car: ElectricCar)
      requires Valid() && HasFreeDraw(idDraws, electricCars.Keys)
      requires capacity > 0.0 && maxChargeRate > 0.0 && energyConsumption >= 0.0
      modifies this`electricCars
      ensures Valid() && fresh(car)
      ensures car.gridId == idDraws[FirstFreeIndex(idDraws, old(electricCars.Keys))] && car.gridId !in old(electricCars)
      ensures electricCars == old(electricCars)[car.gridId := car]
      ensures car.capacity == capacity && car.energyConsumption == energyConsumption && car.maxChargeRate == maxChargeRate
      ensures car.logLevel == logLevel && car.chargeStatus == 100.0 && car.speed == 90.0
      ensures car.v2gUnit == null && car.chargingProfile == DEFAULT_PROFILE && car.state == INITIAL_STATE
    {
      var id := idDraws[FirstFreeIndex(idDraws, electricCars.Keys)];
      car := new ElectricCar(id, capacity, energyConsumption, maxChargeRate, logLevel);
      ghost var before := Cars();
      electricCars := electricCars[id := car];
      assert Cars() == before + {car} by {
        assert electricCars[id] == car;
        forall c | c in Cars()
          ensures c in before + {car}
        {
          var k :| k in electricCars && electricCars[k] == c;
          if k != id {
            assert old(electricCars)[k] == c;
          }
        }
        forall c | c in before
          ensures c in Cars()
        {
          var k :| k in old(electricCars) && old(electricCars)[k] == c;
          assert electricCars[k] == c;
        }
      }
    }

    /** new V2G_Unit(charging_rate, grid, log_level): registered under the first free drawn unit id. */
    method NewV2GUnit(idDraws: seq<string>, chargingRate: real, logLevel: LogLevel) returns (unit: V2GUnit)
      requires Valid() && HasFreeDraw(idDraws, v2gUnits.Keys) && chargingRate > 0.0
      modifies this`v2gUnits
      ensures Valid() && fresh(unit)
      ensures unit.gridId == idDraws[FirstFreeIndex(idDraws, old(v2gUnits.Keys))] && unit.gridId !in old(v2gUnits)
      ensures v2gUnits == old(v2gUnits)[unit.gridId := unit]
      ensures unit.chargingRate == chargingRate && unit.logLevel == logLevel && unit.connectedCar == null
    {
      var id := idDraws[FirstFreeIndex(idDraws, v2gUnits.Keys)];
      unit := new V2GUnit(id, chargingRate, logLevel);
      ghost var before := Units();
      v2gUnits := v2gUnits[id := unit];
      assert Units() == before + {unit} by {
        assert v2gUnits[id] == unit;
        forall u | u in Units()
          ensures u in before + {unit}
        {
          var k :| k in v2gUnits && v2gUnits[k] == u;
          if k != id {
            assert old(v2gUnits)[k] == u;
          }
        }
        forall u | u in before
          ensures u in Units()
        {
          var k :| k in old(v2gUnits) && old(v2gUnits)[k] == u;
          assert v2gUnits[k] == u;
        }
      }
    }

    /** setTick_speed: at least one minute per tick, else IllegalArgumentException. */
    method SetTickSpeed(newTickSpeed: int) returns (r: Outcome<GridError>)
      requires Valid()
      modifies this`tickSpeed
      ensures Valid()
      ensures r.Pass? <==> newTickSpeed >= 1
      ensures r.Pass? ==> tickSpeed == newTickSpeed
      ensures r.Fail? ==> r.error == IllegalTickSpeed && tickSpeed == old(tickSpeed)
    {
      if newTickSpeed >= 1 {
        tickSpeed := newTickSpeed;
        return Pass;
      }
      return Fail(IllegalTickSpeed);
    }

    /** getTick_speed. */
    function GetTickSpeed(): (t: int)
      reads this`electricCars, this`v2gUnits, this`tickSpeed, this`energyDistribution, this`electricitySnapshot, time, time.time, Cars(), Units()
      requires Valid()
      ensures t >= 1 && t == tickSpeed
    {
      tickSpeed
    }

    /** The cars as they are now, each with the charging priority it has at the clock's time. */
    ghost function Snapshots(): map<ElectricCar, Before>
      reads this`electricCars, this`v2gUnits, this`tickSpeed, this`energyDistribution, this`electricitySnapshot, time, time.time, Cars(), Units()
      requires Valid()
    {
      map c | c in Cars() :: BeforeOf(c, time.InMinutes(), tickSpeed)
    }

    /**
     * The loop of manage_cars over the registered cars, in the table's unspecified
     * order: drives or tows the moving cars and sorts every connected car into the
     * list of its charging priority. `before` records the cars as the loop found them.
     */
    method TickCars() returns (table: map<ChargingPriority, seq<ElectricCar>>, ghost rank: map<ElectricCar, ChargingPriority>,
                               ghost before: map<ElectricCar, Before>)
      requires Valid()
      modifies this`random, Cars()
      ensures Valid() && before == old(Snapshots())
      ensures forall c :: c in Cars() ==> Settled(c, before[c]) && Advanced(c, before[c].view, tickSpeed)
      ensures Ranked({}, table, rank, before)
    {
      table := map p | p in PRIORITIES :: [];
      forall p: ChargingPriority
        ensures p in table
      {
        assert PRIORITIES[Urgency(p)] in PRIORITIES;
      }
      rank := map[];
      before := Snapshots();
      var remaining := electricCars.Keys;
      while remaining != {}
        invariant Valid() && Swept(remaining, table, rank, before)
        decreases remaining
      {
        var id :| id in remaining;
        table, rank := SweepOne(id, remaining, table, rank, before);
        remaining := remaining - {id};
      }
    }

    /**
     * The state of the loop in manage_cars with the ids in `remaining` still to visit:
     * the cars not yet visited are as they were before the loop, the visited ones have
     * Advanced, none has changed its settings, and the visited connected cars, and only
     * they, sit in the list of the priority they had before the loop.
     */
    ghost predicate Swept(remaining: set<string>, table: map<ChargingPriority, seq<ElectricCar>>,
                          rank: map<ElectricCar, ChargingPriority>, before: map<ElectricCar, Before>)
      reads this`electricCars, this`v2gUnits, this`tickSpeed, this`energyDistribution, this`electricitySnapshot, time, time.time, Cars(), Units()
    {
      time.Valid() && remaining <= electricCars.Keys && before.Keys == Cars() &&
      (forall c :: c in Cars() ==>
         (c.v2gUnit != null ==> c.v2gUnit in Units()) && CarSwept(c, c.gridId in remaining, before[c], time.InMinutes(), tickSpeed)) &&
      Ranked(remaining, table, rank, before)
    }

    /**
     * One car in the loop of manage_cars: it keeps its settings, and it is as it was
     * (with the priority it had) while `pending`, or it has Advanced once visited.
     */
    static ghost predicate CarSwept(c: ElectricCar, pending: bool, b: Before, now: int, tickSpeed: int)
      reads c, c.v2gUnit
    {
      c.Valid() && Settled(c, b) &&
      if pending then c.View() == b.view && c.PriorityAt(now, tickSpeed) == b.priority
      else Advanced(c, b.view, tickSpeed)
    }

    /** One pass of the loop in manage_cars: visits the car registered under `id`. */
    method SweepOne(id: string, remaining: set<string>, table: map<ChargingPriority, seq<ElectricCar>>,
                    ghost rank: map<ElectricCar, ChargingPriority>, ghost before: map<ElectricCar, Before>)
        returns (table': map<ChargingPriority, seq<ElectricCar>>, ghost rank': map<ElectricCar, ChargingPriority>)
      requires Valid() && id in remaining && Swept(remaining, table, rank, before)
      modifies this`random, electricCars[id]
      ensures Valid() && Swept(remaining - {id}, table', rank', before)
    {
      var car := electricCars[id];
      assert CarSwept(car, true, before[car], time.InMinutes(), tickSpeed);
      var ranked := TickCar(car);
      RankedVisit(remaining, table, rank, before, car, ranked);
      table', rank' := table, rank;
      if ranked.Some? {
        table' := table[ranked.value := table[ranked.value] + [car]];
        rank' := rank[car := ranked.value];
      }
      forall c | c in Cars()
        ensures CarSwept(c, c.gridId in remaining - {id}, before[c], time.InMinutes(), tickSpeed)
      {
        if c != car {
          assert old(CarSwept(c, c.gridId in remaining, before[c], time.InMinutes(), tickSpeed));
          assert c.gridId != id;
        }
      }
    }

    /**
     * A change to one registered car that keeps its unit and its link to it, and nothing
     * else that the invariant reads, keeps the grid valid.
     */
    twostate lemma OneCarChanged(car: ElectricCar)
      requires old(Valid()) && car in old(Cars())
      requires electricCars == old(electricCars) && v2gUnits == old(v2gUnits)
      requires tickSpeed == old(tickSpeed) && energyDistribution == old(energyDistribution)
      requires electricitySnapshot == old(electricitySnapshot) && unchanged(time) && unchanged(old(time.time))
      requires forall c :: c in old(Cars()) && c != car ==> unchanged(c)
      requires forall u :: u in old(Units()) ==> unchanged(u)
      requires car.v2gUnit == old(car.v2gUnit) && car.Linked()
      ensures Valid()
    {
      forall c | c in Cars()
        ensures c.Valid() && (c.v2gUnit != null ==> c.v2gUnit in Units()) && c.Linked()
      {
        if c != car {
          assert old(c.Linked());
        }
      }
    }

    /**
     * One car of the loop in manage_cars: a driving car drives a tick, a towed car is
     * towed a tick, a connected car is ranked; an idle car is left alone.
     */
    method TickCar(car: ElectricCar) returns (ranked: Option<ChargingPriority>)
      requires Valid() && car in Cars()
      modifies this`random, car
      ensures Valid()
      ensures Advanced(car, old(car.View()), tickSpeed) && car.Kept()
      ensures ranked.Some? <==> old(IsConnected(car.state.descriptor))
      ensures ranked.Some? ==> unchanged(car) && ranked.value == old(car.PriorityAt(time.InMinutes(), tickSpeed))
    {
      if car.state.descriptor == DRIVING {
        DriveCar(car);
        ranked := None;
      } else if car.state.descriptor == BEING_TOWED {
        TowCar(car);
        ranked := None;
      } else if car.state.descriptor == IDLE {
        ranked := None;
      } else {
        NormalForm(time.Value());
        var p := car.GetChargingPriority(time.InMinutes(), tickSpeed);
        ranked := Some(p);
      }
    }

    /** tick_drive, with the towing penalty drawn from the grid's generator. */
    method DriveCar(car: ElectricCar)
      requires Valid() && car in Cars() && car.state.descriptor == DRIVING
      modifies this`random, car
      ensures Valid()
      ensures Advanced(car, old(car.View()), tickSpeed) && car.Kept()
      ensures !IsConnected(car.state.descriptor)
    {
      var draw, next := Rng.Draw(random, 10);
      random := next;
      var driven := car.TickDrive(tickSpeed, draw);
      OneCarChanged(car);
    }

    /** tick_be_towed. */
    method TowCar(car: ElectricCar)
      requires Valid() && car in Cars() && car.state.descriptor == BEING_TOWED
      modifies car
      ensures Valid()
      ensures Advanced(car, old(car.View()), tickSpeed) && car.Kept()
      ensures !IsConnected(car.state.descriptor)
    {
      var towed := car.TickBeTowed(tickSpeed);
      OneCarChanged(car);
    }

    /**
     * manage_cars: ticks the cars, then on a production deficit lists the connected cars
     * that are not IMMEDIATELY from the most to the least urgent, otherwise all the
     * connected cars from the least to the most urgent. Without a snapshot the deficit
     * cannot be read (a NullPointerException after the cars were ticked). `before`
     * records the cars, and their priorities, as the call found them.
     */
    method ManageCars() returns (r: Result<seq<ElectricCar>, GridError>, ghost before: map<ElectricCar, Before>)
      requires Valid()
      modifies this`random, Cars()
      ensures Valid() && before == old(Snapshots())
      ensures forall c :: c in Cars() ==> Settled(c, before[c]) && Advanced(c, before[c].view, tickSpeed)
      ensures r.Failure? <==> electricitySnapshot.None?
      ensures r.Failure? ==> r.error == NoSnapshot
      ensures r.Success? ==>
                Candidates(r.value, before, ProductionDeficit(electricitySnapshot.value, time.InMinutesWithHoursIsolated()))
    {
      var table;
      ghost var rank;
      table, rank, before := TickCars();
      if electricitySnapshot.None? {
        return Failure(NoSnapshot), before;
      }
      var minute := time.InMinutesWithHoursIsolated();
      var snapshot := electricitySnapshot.value;
      var deficit := snapshot.consumption[minute] > snapshot.production[minute];
      var cars := CandidateCars(table, rank, before, deficit);
      return Success(cars), before;
    }

    /**
     * The first step of tick: at minute 0 of a day, the day's draws are taken from the
     * generator and the snapshot regenerated; a failing snapshot is the exception.
     */
    method RefreshSnapshot() returns (r: Outcome<GridError>, ghost draws: DayDraws)
      requires Valid()
      modifies this`random, this`electricitySnapshot
      ensures Valid()
      ensures old(time.InMinutesWithHoursIsolated()) != 0 ==> r == Pass && electricitySnapshot == old(electricitySnapshot)
      ensures old(time.InMinutesWithHoursIsolated()) == 0 && TotalWeight(energyDistribution) == 0 ==>
                r == Fail(SnapshotFailed(DivisionByZero))
      ensures old(time.InMinutesWithHoursIsolated()) == 0 && TotalWeight(energyDistribution) != 0 ==>
                ValidDraws(draws) && r == Pass && electricitySnapshot.Some? && IsBalanced(electricitySnapshot.value) &&
                electricitySnapshot.value.weather == WeatherOf(draws.cloudiness, draws.windSpeed) &&
                forall i :: 0 <= i < MINUTES_PER_DAY ==> electricitySnapshot.value.production[i] == ProductionAt(energyDistribution, draws, i)
    {
      draws := DayDraws(0, 0, [], [], [], [], [], []);
      if time.InMinutesWithHoursIsolated() == 0 {
        var day, next := DrawDayFrom(random);
        draws := day;
        random := next;
        var snapshot := GetSnapshot(energyDistribution, day);
        if snapshot.Failure? {
          return Fail(SnapshotFailed(snapshot.error)), draws;
        }
        Install(snapshot.value);
      }
      return Pass, draws;
    }

    /** electricity_snapshot = ...: a snapshot covering a whole day keeps the grid valid. */
    method Install(snapshot: Snapshot)
      requires Valid() && |snapshot.production| == MINUTES_PER_DAY && |snapshot.consumption| == MINUTES_PER_DAY
      modifies this`electricitySnapshot
      ensures Valid() && electricitySnapshot == Some(snapshot)
    {
      electricitySnapshot := Some(snapshot);
    }

    /** The last step of tick: the clock moves on by one tick and stays normal. */
    method AdvanceClock()
      requires Valid()
      modifies time.time
      ensures Valid() && time.InMinutes() == old(time.InMinutes()) + tickSpeed
    {
      time.AddMinutes(tickSpeed);
    }

    /** A step that leaves the cars, the units, the tick and the clock alone also leaves Snapshots alone. */
    twostate lemma SnapshotsKept()
      requires old(Valid()) && Valid()
      requires electricCars == old(electricCars) && v2gUnits == old(v2gUnits) && tickSpeed == old(tickSpeed)
      requires unchanged(time) && unchanged(old(time.time))
      requires forall c :: c in old(Cars()) ==> unchanged(c)
      requires forall u :: u in old(Units()) ==> unchanged(u)
      ensures Snapshots() == old(Snapshots())
    {
    }

    /**
     * tick: the snapshot step, then manage_cars, then the clock advances by one tick.
     * An exception stops the tick where it is raised; `before` records the cars as the
     * tick found them.
     */
    method Tick() returns (r: Outcome<GridError>, ghost before: map<ElectricCar, Before>, ghost draws: DayDraws)
      requires Valid()
      modifies this`random, this`electricitySnapshot, time.time, Cars()
      ensures Valid() && before == old(Snapshots())
      ensures old(time.InMinutesWithHoursIsolated()) == 0 && TotalWeight(energyDistribution) == 0 ==>
                r == Fail(SnapshotFailed(DivisionByZero)) && unchanged(Cars())
      ensures old(time.InMinutesWithHoursIsolated()) == 0 && TotalWeight(energyDistribution) != 0 ==>
                ValidDraws(draws) && electricitySnapshot.Some? && IsBalanced(electricitySnapshot.value) &&
                electricitySnapshot.value.weather == WeatherOf(draws.cloudiness, draws.windSpeed) &&
                forall i :: 0 <= i < MINUTES_PER_DAY ==> electricitySnapshot.value.production[i] == ProductionAt(energyDistribution, draws, i)
      ensures old(time.InMinutesWithHoursIsolated()) != 0 ==> electricitySnapshot == old(electricitySnapshot)
      ensures r == Fail(NoSnapshot) <==> old(time.InMinutesWithHoursIsolated()) != 0 && old(electricitySnapshot).None?
      ensures r.Fail? ==> time.InMinutes() == old(time.InMinutes())
      ensures r != Fail(SnapshotFailed(DivisionByZero)) ==>
                forall c :: c in Cars() ==> Settled(c, before[c]) && Advanced(c, before[c].view, tickSpeed)
      ensures r.Pass? ==> time.InMinutes() == old(time.InMinutes()) + tickSpeed
    {
      before := Snapshots();
      label start:
      r, draws := RefreshSnapshot();
      if r.Fail? {
        return;
      }
      SnapshotsKept@start();
      r, before := ManageAndAdvance();
    }

    /** The rest of tick once the snapshot is in place: manage_cars, then the clock moves on. */
    method ManageAndAdvance() returns (r: Outcome<GridError>, ghost before: map<ElectricCar, Before>)
      requires Valid()
      modifies this`random, time.time, Cars()
      ensures Valid() && before == old(Snapshots())
      ensures forall c :: c in Cars() ==> Settled(c, before[c]) && Advanced(c, before[c].view, tickSpeed)
      ensures r.Fail? <==> electricitySnapshot.None?
      ensures r.Fail? ==> r.error == NoSnapshot && time.InMinutes() == old(time.InMinutes())
      ensures r.Pass? ==> time.InMinutes() == old(time.InMinutes()) + tickSpeed
    {
      var managed;
      managed, before := ManageCars();
      if managed.Failure? {
        return Fail(managed.error), before;
      }
      AdvanceClock();
      return Pass, before;
    }

    /**
     * operate(minutes): ticks until the clock has moved on by at least `minutes`, i.e.
     * TicksToCover(minutes, tickSpeed) ticks, stopping at the first exception.
     */
    method Operate(minutes: int) returns (r: Outcome<GridError>)
      requires Valid()
      modifies this`random, this`electricitySnapshot, time.time, Cars()
      ensures Valid()
      ensures r.Pass? ==> time.InMinutes() == old(time.InMinutes()) + tickSpeed * TicksToCover(minutes, tickSpeed)
    {
      var start := time.InMinutes();
      ghost var count: nat := 0;
      while time.InMinutes() < start + minutes
        invariant Valid()
        invariant time.InMinutes() == start + tickSpeed * count
        invariant count > 0 ==> tickSpeed * (count - 1) < minutes
        decreases start + minutes - time.InMinutes()
      {
        ghost var before, draws;
        r, before, draws := Tick();
        if r.Fail? {
          return;
        }
        assert tickSpeed * (count + 1) == tickSpeed * count + tickSpeed;
        count := count + 1;
      }
      TicksToCoverUnique(minutes, tickSpeed, count);
      r := Pass;
    }
  }
}
