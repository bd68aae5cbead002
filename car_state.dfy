/**
 * The value part of an electric car: its state descriptor and route counters, the
 * charging profiles and priorities, and the arithmetic of one tick of driving or of
 * being towed.
 */
module CarState {
  import opened Wrappers
  import opened JavaMath

  // ---------------------------------------------------------------------------
  // the car's state

  datatype Descriptor = CONNECTED_CHARGING | CONNECTED_DISCHARGING | CONNECTED_IDLE | IDLE | DRIVING | BEING_TOWED

  predicate IsConnected(d: Descriptor)
  {
    d == CONNECTED_CHARGING || d == CONNECTED_DISCHARGING || d == CONNECTED_IDLE
  }

  /** The descriptors setDescriptor refuses, because they need more information. */
  predicate NeedsMoreInformation(d: Descriptor)
  {
    d == DRIVING || d == BEING_TOWED
  }

  /** Electric_Car.State: route lengths in km, the towing penalty in minutes; -1 when unused. */
  datatype State = State(descriptor: Descriptor, totalRouteLength: real, remainingRouteLength: real, remainingTimePenalty: int)

  const INITIAL_STATE: State := State(IDLE, -1.0, -1.0, -1)

  /** The IllegalArgumentExceptions of the state's setters. */
  datatype StateError = ImproperSwitch | NotDrivingWhenTowed | NotDrivingWhenRouteSet | RequiresMoreInformation(d: Descriptor)

  /** setDriving_descriptor: only from IDLE; the whole route is left to drive. */
  function SetDrivingDescriptor(s: State, totalRouteLength: real): (r: Result<State, StateError>)
    ensures r.Success? <==> s.descriptor == IDLE
    ensures r.Success? ==> r.value == s.(descriptor := DRIVING, totalRouteLength := totalRouteLength, remainingRouteLength := totalRouteLength)
    ensures r.Failure? ==> r.error == ImproperSwitch
  {
    if s.descriptor != IDLE then Failure(ImproperSwitch)
    else Success(s.(descriptor := DRIVING, totalRouteLength := totalRouteLength, remainingRouteLength := totalRouteLength))
  }

  /** setBeing_towed_descriptor: only while DRIVING; the penalty is 25 plus a draw of nextInt(10). */
  function SetBeingTowedDescriptor(s: State, penaltyDraw: int): (r: Result<State, StateError>)
    requires 0 <= penaltyDraw < 10
    ensures r.Success? <==> s.descriptor == DRIVING
    ensures r.Success? ==> r.value.descriptor == BEING_TOWED && 25 <= r.value.remainingTimePenalty <= 34
    ensures r.Success? ==> r.value.totalRouteLength == s.totalRouteLength && r.value.remainingRouteLength == s.remainingRouteLength
    ensures r.Failure? ==> r.error == NotDrivingWhenTowed
  {
    if s.descriptor != DRIVING then Failure(NotDrivingWhenTowed)
    else Success(s.(descriptor := BEING_TOWED, remainingTimePenalty := 25 + penaltyDraw))
  }

  /** setRemaining_route_length: only while DRIVING. */
  function SetRemainingRouteLength(s: State, remainingRouteLength: real): (r: Result<State, StateError>)
    ensures r.Success? <==> s.descriptor == DRIVING
    ensures r.Success? ==> r.value == s.(remainingRouteLength := remainingRouteLength)
    ensures r.Failure? ==> r.error == NotDrivingWhenRouteSet
  {
    if s.descriptor != DRIVING then Failure(NotDrivingWhenRouteSet)
    else Success(s.(remainingRouteLength := remainingRouteLength))
  }

  /** setDescriptor: any descriptor but DRIVING and BEING_TOWED, the rest of the state kept. */
  function SetDescriptor(s: State, d: Descriptor): (r: Result<State, StateError>)
    ensures r.Success? <==> !NeedsMoreInformation(d)
    ensures r.Success? ==> r.value == s.(descriptor := d)
    ensures r.Failure? ==> r.error == RequiresMoreInformation(d)
  {
    if NeedsMoreInformation(d) then Failure(RequiresMoreInformation(d)) else Success(s.(descriptor := d))
  }

  /** The setters never put a car into DRIVING except from IDLE, nor into BEING_TOWED except from DRIVING. */
  lemma SettersGuardTransitions(s: State, d: Descriptor, length: real, draw: int)
    requires 0 <= draw < 10
    ensures SetDescriptor(s, d).Success? ==> !NeedsMoreInformation(SetDescriptor(s, d).value.descriptor)
    ensures SetDrivingDescriptor(s, length).Success? ==> s.descriptor == IDLE
    ensures SetBeingTowedDescriptor(s, draw).Success? ==> s.descriptor == DRIVING
  {
  }

  // ---------------------------------------------------------------------------
  // charging profiles and priorities

  datatype ChargingProfile = DEFAULT_PROFILE | WORK_PROFILE | SAFE_PROFILE | FULL_PROFILE

  /** The charge status in % the profile keeps at all costs. */
  function MinChargeStatus(p: ChargingProfile): int
  {
    match p
    case DEFAULT_PROFILE => 20
    case WORK_PROFILE => 30
    case SAFE_PROFILE => 70
    case FULL_PROFILE => 100
  }

  /** The hours at which the contracted charge status has to be reached, if any. */
  function ContractedTimes(p: ChargingProfile): Option<seq<int>>
  {
    if p == WORK_PROFILE then Some([8, 17]) else None
  }

  /** The charge status in % due at the contracted times, if any. */
  function ContractedChargeStatus(p: ChargingProfile): Option<int>
  {
    if p == WORK_PROFILE then Some(80) else None
  }

  /** Exactly the profiles with contracted times have a contracted charge status, and it is above their minimum. */
  lemma ProfilesConsistent(p: ChargingProfile)
    ensures ContractedTimes(p).Some? <==> ContractedChargeStatus(p).Some?
    ensures ContractedChargeStatus(p).Some? ==> MinChargeStatus(p) < ContractedChargeStatus(p).value <= 100
    ensures ContractedTimes(p).Some? ==> forall h :: h in ContractedTimes(p).value ==> 0 <= h < 24
    ensures 20 <= MinChargeStatus(p) <= 100
  {
  }

  datatype ChargingPriority = IMMEDIATELY | URGENT | NORMAL | WEAK | NONE

  /** The priorities in declaration order, the order values() lists them. */
  const PRIORITIES: seq<ChargingPriority> := [IMMEDIATELY, URGENT, NORMAL, WEAK, NONE]

  /** The position of the priority in values(), 0 for the most urgent. */
  function Urgency(p: ChargingPriority): (u: nat)
    ensures u < |PRIORITIES| && PRIORITIES[u] == p
  {
    match p
    case IMMEDIATELY => 0
    case URGENT => 1
    case NORMAL => 2
    case WEAK => 3
    case NONE => 4
  }

  /**
   * The priority for a car that needs `chargingTime` minutes of charging and has
   * `untilNext` minutes until its next contracted time: the less buffer, the more urgent.
   */
  function Classify(untilNext: int, chargingTime: int): ChargingPriority
  {
    if untilNext <= chargingTime then IMMEDIATELY
    else if untilNext as real <= chargingTime as real * 1.5 then URGENT
    else if untilNext <= chargingTime * 2 then NORMAL
    else if untilNext <= chargingTime * 3 then WEAK
    else NONE
  }

  /** More time until the contract never makes the priority more urgent. */
  lemma ClassifyMonotone(n1: int, n2: int, chargingTime: int)
    requires n1 <= n2 && chargingTime >= 0
    ensures Urgency(Classify(n1, chargingTime)) <= Urgency(Classify(n2, chargingTime))
  {
  }

  /** IMMEDIATELY exactly when the charging time uses up the time left, NONE exactly when it is under a third of it. */
  lemma ClassifyExtremes(untilNext: int, chargingTime: int)
    requires chargingTime >= 0
    ensures Classify(untilNext, chargingTime) == IMMEDIATELY <==> untilNext <= chargingTime
    ensures Classify(untilNext, chargingTime) == NONE <==> untilNext > chargingTime * 3
  {
  }

  /** The minutes from minute-of-day m0 forward to minute-of-day t, wrapping at midnight. */
  function MinutesTo(m0: int, t: int): (d: int)
    ensures 0 <= d < 1440
  {
    (t - m0) % 1440
  }

  /** The minutes from m0 forward to the nearest of the targets. */
  function MinutesUntilNext(m0: int, targets: seq<int>): (d: int)
    requires |targets| > 0
    ensures 0 <= d < 1440
    ensures exists t :: t in targets && d == MinutesTo(m0, t)
    ensures forall t :: t in targets ==> d <= MinutesTo(m0, t)
  {
    if |targets| == 1 then MinutesTo(m0, targets[0])
    else
      var rest := MinutesUntilNext(m0, targets[1..]);
      assert forall t :: t in targets[1..] ==> t in targets;
      assert forall t :: t in targets ==> t == targets[0] || t in targets[1..];
      MinInt(MinutesTo(m0, targets[0]), rest)
  }

  /** Counting minutes from m0, the first minute whose minute-of-day is a target is MinutesUntilNext. */
  lemma MinutesUntilNextIsFirst(m0: int, targets: seq<int>, k: int)
    requires |targets| > 0 && forall t :: t in targets ==> 0 <= t < 1440
    requires 0 <= m0 < 1440 && 0 <= k
    ensures k == MinutesUntilNext(m0, targets) ==> (m0 + k) % 1440 in targets
    ensures k < MinutesUntilNext(m0, targets) ==> (m0 + k) % 1440 !in targets
  {
    var d := MinutesUntilNext(m0, targets);
    if k == d {
      var t :| t in targets && d == MinutesTo(m0, t);
      ReachesTarget(m0, t);
    } else if k < d {
      var t := (m0 + k) % 1440;
      OffsetOfTarget(m0, k);
      assert t in targets ==> d <= MinutesTo(m0, t);
    }
  }

  /** Going forward MinutesTo(m0, t) minutes from m0 arrives at t. */
  lemma ReachesTarget(m0: int, t: int)
    requires 0 <= m0 < 1440 && 0 <= t < 1440
    ensures (m0 + MinutesTo(m0, t)) % 1440 == t
  {
    if t >= m0 {
      assert MinutesTo(m0, t) == t - m0;
    } else {
      assert MinutesTo(m0, t) == t - m0 + 1440;
    }
  }

  /** The minute of day k minutes after m0 is k minutes away from it, for k under a day. */
  lemma OffsetOfTarget(m0: int, k: int)
    requires 0 <= m0 < 1440 && 0 <= k < 1440
    ensures MinutesTo(m0, (m0 + k) % 1440) == k
  {
    if m0 + k < 1440 {
      assert (m0 + k) % 1440 == m0 + k;
    } else {
      assert (m0 + k) % 1440 == m0 + k - 1440;
      assert (k - 1440) % 1440 == k;
    }
  }

  /** A contracted hour list as minutes of the day, as get_charging_priority multiplies it by 60. */
  function HoursToMinutes(hours: seq<int>): (minutes: seq<int>)
    ensures |minutes| == |hours|
    ensures forall i :: 0 <= i < |hours| ==> minutes[i] == hours[i] * 60
  {
    if hours == [] then [] else [hours[0] * 60] + HoursToMinutes(hours[1..])
  }

  /**
   * get_charging_priority given the minutes until the next contracted time and the
   * charging time to the contracted charge status.
   */
  function PriorityFor(profile: ChargingProfile, chargeStatus: real, untilNext: int, chargingTime: int): ChargingPriority
  {
    if chargeStatus <= MinChargeStatus(profile) as real then IMMEDIATELY
    else if ContractedTimes(profile).Some? then Classify(untilNext, chargingTime)
    else NONE
  }

  /** Below its minimum every car must charge at once; above it only contracted profiles get more than NONE. */
  lemma PriorityForCases(profile: ChargingProfile, chargeStatus: real, untilNext: int, chargingTime: int)
    ensures chargeStatus <= MinChargeStatus(profile) as real ==> PriorityFor(profile, chargeStatus, untilNext, chargingTime) == IMMEDIATELY
    ensures chargeStatus > MinChargeStatus(profile) as real && profile != WORK_PROFILE ==>
              PriorityFor(profile, chargeStatus, untilNext, chargingTime) == NONE
    ensures profile == FULL_PROFILE && chargeStatus <= 100.0 ==> PriorityFor(profile, chargeStatus, untilNext, chargingTime) == IMMEDIATELY
  {
  }

  // ---------------------------------------------------------------------------
  // one tick of driving and of being towed

  /** The part of a car a tick changes. */
  datatype CarView = CarView(chargeStatus: real, state: State)

  /** calculateRouteConsumption: the energy in kWh left after the route; negative when the battery does not last. */
  function RouteConsumption(capacity: real, energyConsumption: real, chargeStatus: real, routeLength: real): real
  {
    capacity * (chargeStatus / 100.0) - routeLength * (energyConsumption / 100.0)
  }

  /** The energy left falls as the route gets longer. */
  lemma RouteConsumptionAntitone(capacity: real, energyConsumption: real, chargeStatus: real, d1: real, d2: real)
    requires energyConsumption >= 0.0 && d1 <= d2
    ensures RouteConsumption(capacity, energyConsumption, chargeStatus, d2) <= RouteConsumption(capacity, energyConsumption, chargeStatus, d1)
  {
    assert d1 * (energyConsumption / 100.0) <= d2 * (energyConsumption / 100.0);
  }

  /**
   * apply_route_consumption: charges the car for the distance if the energy suffices for
   * it or for the rest of the route; otherwise empties it and calls the towing service.
   */
  function ApplyRouteConsumption(capacity: real, energyConsumption: real, v: CarView, routeLength: real, penaltyDraw: int): (res: (bool, CarView))
    requires v.state.descriptor == DRIVING && 0 <= penaltyDraw < 10 && capacity > 0.0
  {
    var remainingCapacity := RouteConsumption(capacity, energyConsumption, v.chargeStatus, routeLength);
    var bigTickSpeedPrevention := RouteConsumption(capacity, energyConsumption, v.chargeStatus, v.state.remainingRouteLength) >= 0.0;
    if remainingCapacity >= 0.0 || bigTickSpeedPrevention then
      (true, v.(chargeStatus := remainingCapacity / capacity * 100.0))
    else
      (false, CarView(0.0, SetBeingTowedDescriptor(v.state, penaltyDraw).value))
  }

  /** tick_drive on a DRIVING car: drives speed / 60 * tick km, finishing the route when no more is left. */
  function DriveTick(capacity: real, energyConsumption: real, speed: real, v: CarView, tickSpeed: int, penaltyDraw: int): CarView
    requires v.state.descriptor == DRIVING && 0 <= penaltyDraw < 10 && capacity > 0.0
  {
    var traveled := speed / 60.0 * tickSpeed as real;
    var (possible, w) := ApplyRouteConsumption(capacity, energyConsumption, v, traveled, penaltyDraw);
    if !possible then w
    else if v.state.remainingRouteLength - traveled > 0.0 then
      w.(state := w.state.(remainingRouteLength := v.state.remainingRouteLength - traveled))
    else
      w.(state := w.state.(remainingRouteLength := -1.0, totalRouteLength := -1.0, descriptor := IDLE))
  }

  lemma ChargeAfter(capacity: real, energyConsumption: real, chargeStatus: real, d: real)
    requires capacity > 0.0
    ensures RouteConsumption(capacity, energyConsumption, chargeStatus, d) / capacity * 100.0
            == chargeStatus - d * energyConsumption / capacity
  {
    var c := capacity;
    calc {
      RouteConsumption(c, energyConsumption, chargeStatus, d) / c * 100.0;
      (c * (chargeStatus / 100.0) - d * (energyConsumption / 100.0)) / c * 100.0;
      (c * chargeStatus - d * energyConsumption) / c;
      chargeStatus - d * energyConsumption / c;
    }
  }

  /**
   * A tick strands the car exactly when the energy lasts neither for the tick's distance
   * nor for the rest of the route; the battery is then empty and the car waits 25 to 34
   * minutes for the towing service with the route unchanged.
   */
  lemma DriveTickStrands(capacity: real, energyConsumption: real, speed: real, v: CarView, tickSpeed: int, penaltyDraw: int)
    requires v.state.descriptor == DRIVING && 0 <= penaltyDraw < 10 && capacity > 0.0
    ensures var w := DriveTick(capacity, energyConsumption, speed, v, tickSpeed, penaltyDraw);
            var traveled := speed / 60.0 * tickSpeed as real;
            (w.state.descriptor == BEING_TOWED <==>
               RouteConsumption(capacity, energyConsumption, v.chargeStatus, traveled) < 0.0 &&
               RouteConsumption(capacity, energyConsumption, v.chargeStatus, v.state.remainingRouteLength) < 0.0) &&
            (w.state.descriptor == BEING_TOWED ==>
               w.chargeStatus == 0.0 && 25 <= w.state.remainingTimePenalty <= 34 &&
               w.state.remainingRouteLength == v.state.remainingRouteLength && w.state.totalRouteLength == v.state.totalRouteLength)
  {
  }

  /**
   * A tick that leaves route to drive takes the traveled distance off the remaining route
   * and charges the car for it, which keeps a non-negative charge.
   */
  lemma DriveTickContinues(capacity: real, energyConsumption: real, speed: real, v: CarView, tickSpeed: int, penaltyDraw: int)
    requires v.state.descriptor == DRIVING && 0 <= penaltyDraw < 10
    requires capacity > 0.0 && energyConsumption >= 0.0
    requires v.state.remainingRouteLength - speed / 60.0 * tickSpeed as real > 0.0
    ensures var w := DriveTick(capacity, energyConsumption, speed, v, tickSpeed, penaltyDraw);
            var traveled := speed / 60.0 * tickSpeed as real;
            w.state.descriptor != BEING_TOWED ==>
              w.state.descriptor == DRIVING &&
              w.state.remainingRouteLength == v.state.remainingRouteLength - traveled &&
              w.state.totalRouteLength == v.state.totalRouteLength &&
              w.chargeStatus == v.chargeStatus - traveled * energyConsumption / capacity &&
              w.chargeStatus >= 0.0
  {
    var traveled := speed / 60.0 * tickSpeed as real;
    var rc := RouteConsumption(capacity, energyConsumption, v.chargeStatus, traveled);
    RouteConsumptionAntitone(capacity, energyConsumption, v.chargeStatus, traveled, v.state.remainingRouteLength);
    ChargeAfter(capacity, energyConsumption, v.chargeStatus, traveled);
    if rc >= 0.0 {
      assert rc / capacity * 100.0 >= 0.0;
    }
  }

  /**
   * The last tick of a route ends it: the car is IDLE with both route lengths -1, charged
   * for the whole tick's distance even where the route had less left.
   */
  lemma DriveTickArrives(capacity: real, energyConsumption: real, speed: real, v: CarView, tickSpeed: int, penaltyDraw: int)
    requires v.state.descriptor == DRIVING && 0 <= penaltyDraw < 10 && capacity > 0.0
    requires v.state.remainingRouteLength - speed / 60.0 * tickSpeed as real <= 0.0
    ensures var w := DriveTick(capacity, energyConsumption, speed, v, tickSpeed, penaltyDraw);
            var traveled := speed / 60.0 * tickSpeed as real;
            w.state.descriptor != BEING_TOWED ==>
              w.state == v.state.(descriptor := IDLE, totalRouteLength := -1.0, remainingRouteLength := -1.0) &&
              w.chargeStatus == v.chargeStatus - traveled * energyConsumption / capacity
  {
    ChargeAfter(capacity, energyConsumption, v.chargeStatus, speed / 60.0 * tickSpeed as real);
  }

  /**
   * Because the last tick is charged for the whole tick's distance, a car with energy for
   * the rest of its route can end the route with a negative charge: 85 kWh at 18.9
   * kWh/100km, 1% charged, 1 km to go, one 60-minute tick at 90 km/h.
   */
  lemma LastTickCanOverdraw()
    ensures var v := CarView(1.0, State(DRIVING, 10.0, 1.0, -1));
            var w := DriveTick(85.0, 18.9, 90.0, v, 60, 0);
            w.state.descriptor == IDLE && w.chargeStatus < 0.0
  {
    var v := CarView(1.0, State(DRIVING, 10.0, 1.0, -1));
    assert RouteConsumption(85.0, 18.9, 1.0, 1.0) >= 0.0;
    assert RouteConsumption(85.0, 18.9, 1.0, 90.0) < 0.0;
  }

  /** tick_be_towed on a BEING_TOWED car: first waits out the penalty, then is towed at 70 km/h. */
  function TowTick(v: CarView, tickSpeed: int): CarView
    requires v.state.descriptor == BEING_TOWED
  {
    var s := v.state;
    if s.remainingTimePenalty > 0 then
      v.(state := s.(remainingTimePenalty := if s.remainingTimePenalty - tickSpeed <= 0 then -1 else s.remainingTimePenalty - tickSpeed))
    else
      var traveled := 70.0 / 60.0 * tickSpeed as real;
      if s.remainingRouteLength - traveled > 0.0 then v.(state := s.(remainingRouteLength := s.remainingRouteLength - traveled))
      else v.(state := s.(remainingRouteLength := -1.0, totalRouteLength := -1.0, descriptor := IDLE))
  }

  /**
   * Towing never changes the charge; while the penalty runs the car does not move and the
   * penalty falls by the tick (to -1 once used up); afterwards the route shrinks by
   * 70 / 60 km per minute until the car arrives IDLE.
   */
  lemma TowTickEffect(v: CarView, tickSpeed: int)
    requires v.state.descriptor == BEING_TOWED && tickSpeed >= 1
    ensures var w := TowTick(v, tickSpeed);
            w.chargeStatus == v.chargeStatus &&
            (v.state.remainingTimePenalty > 0 ==>
               w.state.descriptor == BEING_TOWED && w.state.remainingRouteLength == v.state.remainingRouteLength &&
               w.state.remainingTimePenalty < v.state.remainingTimePenalty &&
               (w.state.remainingTimePenalty > 0 || w.state.remainingTimePenalty == -1)) &&
            (v.state.remainingTimePenalty <= 0 && w.state.descriptor == BEING_TOWED ==>
               w.state.remainingRouteLength == v.state.remainingRouteLength - 70.0 / 60.0 * tickSpeed as real &&
               w.state.remainingRouteLength > 0.0) &&
            (w.state.descriptor == BEING_TOWED || w.state.descriptor == IDLE)
  {
  }

  /** What is left of a tow in ticks of at least a minute: the penalty, then the route at 7/6 km a minute. */
  function TowMeasure(v: CarView): nat
  {
    (if v.state.remainingTimePenalty > 0 then v.state.remainingTimePenalty else 0) +
    (if v.state.remainingRouteLength > 0.0 then (v.state.remainingRouteLength * 6.0 / 7.0).Floor + 1 else 0)
  }

  lemma TowMeasureFalls(v: CarView, tickSpeed: int)
    requires v.state.descriptor == BEING_TOWED && tickSpeed >= 1
    ensures TowTick(v, tickSpeed).state.descriptor == BEING_TOWED ==> TowMeasure(TowTick(v, tickSpeed)) < TowMeasure(v)
  {
    var w := TowTick(v, tickSpeed);
    if w.state.descriptor == BEING_TOWED && v.state.remainingTimePenalty <= 0 {
      var r, r' := v.state.remainingRouteLength, w.state.remainingRouteLength;
      assert r' == r - 70.0 / 60.0 * tickSpeed as real;
      assert r' * 6.0 / 7.0 <= r * 6.0 / 7.0 - 1.0;
      FloorMonotone(r' * 6.0 / 7.0, r * 6.0 / 7.0 - 1.0);
      assert (r * 6.0 / 7.0 - 1.0).Floor == (r * 6.0 / 7.0).Floor - 1;
    }
  }

  lemma FloorMonotone(x: real, y: real)
    requires x <= y
    ensures x.Floor <= y.Floor
  {
  }

  /** The number of ticks a tow takes: towing always ends, after at most TowMeasure ticks. */
  function TowTicksToArrive(v: CarView, tickSpeed: int): (n: nat)
    requires v.state.descriptor == BEING_TOWED && tickSpeed >= 1
    ensures 1 <= n <= TowMeasure(v) + 1
    decreases TowMeasure(v)
  {
    var w := TowTick(v, tickSpeed);
    TowTickEffect(v, tickSpeed);
    TowMeasureFalls(v, tickSpeed);
    if w.state.descriptor == IDLE then 1 else 1 + TowTicksToArrive(w, tickSpeed)
  }

  /** Applying tick_be_towed n times. */
  function TowTicks(v: CarView, tickSpeed: int, n: nat): CarView
    decreases n
  {
    if n == 0 || v.state.descriptor != BEING_TOWED then v else TowTicks(TowTick(v, tickSpeed), tickSpeed, n - 1)
  }

  /** After TowTicksToArrive ticks the car is IDLE at its destination, with the same charge. */
  lemma {:induction false} TowingArrives(v: CarView, tickSpeed: int)
    requires v.state.descriptor == BEING_TOWED && tickSpeed >= 1
    ensures TowTicks(v, tickSpeed, TowTicksToArrive(v, tickSpeed)).state.descriptor == IDLE
    ensures TowTicks(v, tickSpeed, TowTicksToArrive(v, tickSpeed)).chargeStatus == v.chargeStatus
    decreases TowMeasure(v)
  {
    var w := TowTick(v, tickSpeed);
    TowTickEffect(v, tickSpeed);
    TowMeasureFalls(v, tickSpeed);
    if w.state.descriptor != IDLE {
      TowingArrives(w, tickSpeed);
    }
  }
}
