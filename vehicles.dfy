/**
 * The simulation's two kinds of participants: the electric car, which drives, gets
 * towed, connects to a V2G unit and works out its charging priority; and the V2G unit,
 * which charges or discharges the car connected to it.
 */
module Vehicles {
  import opened Wrappers
  import opened JavaMath
  import opened Out
  import opened Clock
  import opened CarState
  import opened ChargeCurve

  /** The IllegalArgumentExceptions of the tick methods. */
  datatype CarError = TickDriveWhileNotDriving | TickTowWhileNotTowed

  class ElectricCar {
    /** The charge status in %. */
    var chargeStatus: real
    /** kWh per 100 km. */
    const energyConsumption: real
    /** kWh. */
    const capacity: real
    /** kW. */
    const maxChargeRate: real
    /** km/h. */
    var speed: real
    const gridId: string
    var v2gUnit: V2GUnit?
    var logLevel: LogLevel
    var chargingProfile: ChargingProfile
    var state: State

    /** What the car models assume of their parameters: a battery, a charge rate, no negative consumption. */
    ghost predicate Valid()
    {
      capacity > 0.0 && maxChargeRate > 0.0 && energyConsumption >= 0.0
    }

    /**
     * The car and its unit point at each other, and the car is in a connected state
     * exactly while it has a unit.
     */
    ghost predicate Linked()
      reads this, v2gUnit
    {
      (v2gUnit != null ==> v2gUnit.connectedCar == this) &&
      (IsConnected(state.descriptor) <==> v2gUnit != null)
    }

    function View(): CarView
      reads this
    {
      CarView(chargeStatus, state)
    }

    /** The fields a tick, a charge or a discharge leave alone. */
    twostate predicate Kept()
      reads this
    {
      speed == old(speed) && v2gUnit == old(v2gUnit) && logLevel == old(logLevel) &&
      chargingProfile == old(chargingProfile)
    }

    /** A new car, full, idle, unconnected, at 90 km/h with the default profile. */
    constructor (gridId: string, capacity: real, energyConsumption: real, maxChargeRate: real, logLevel: LogLevel)
      requires capacity > 0.0 && maxChargeRate > 0.0 && energyConsumption >= 0.0
      ensures Valid() && Linked()
      ensures this.gridId == gridId && this.capacity == capacity && this.energyConsumption == energyConsumption
      ensures this.maxChargeRate == maxChargeRate && this.logLevel == logLevel
      ensures chargeStatus == 100.0 && speed == 90.0 && v2gUnit == null
      ensures chargingProfile == DEFAULT_PROFILE && state == INITIAL_STATE
    {
      this.gridId := gridId;
      this.capacity := capacity;
      this.energyConsumption := energyConsumption;
      this.maxChargeRate := maxChargeRate;
      this.logLevel := logLevel;
      chargeStatus := 100.0;
      speed := 90.0;
      v2gUnit := null;
      chargingProfile := DEFAULT_PROFILE;
      state := INITIAL_STATE;
    }

    /** drive: starts a route of `routeLength` km, only from IDLE. */
    method Drive(routeLength: real) returns (successful: bool)
      modifies this
      ensures successful <==> old(state.descriptor) == IDLE
      ensures successful ==> state == old(state).(descriptor := DRIVING, totalRouteLength := routeLength, remainingRouteLength := routeLength)
      ensures !successful ==> state == old(state)
      ensures chargeStatus == old(chargeStatus) && Kept()
      ensures old(Linked()) ==> Linked()
    {
      if state.descriptor != IDLE {
        successful := false;
      } else {
        var r := SetDrivingDescriptor(state, routeLength);
        state := r.value;
        successful := true;
      }
    }

    /** apply_route_consumption. */
    method ApplyRouteConsumption(routeLength: real, penaltyDraw: int) returns (possible: bool)
      requires Valid() && state.descriptor == DRIVING && 0 <= penaltyDraw < 10
      modifies this
      ensures (possible, View()) == CarState.ApplyRouteConsumption(capacity, energyConsumption, old(View()), routeLength, penaltyDraw)
      ensures Kept()
    {
      var remainingCapacity := RouteConsumption(capacity, energyConsumption, chargeStatus, routeLength);
      var bigTickSpeedPrevention := RouteConsumption(capacity, energyConsumption, chargeStatus, state.remainingRouteLength) >= 0.0;
      if remainingCapacity >= 0.0 || bigTickSpeedPrevention {
        chargeStatus := remainingCapacity / capacity * 100.0;
        possible := true;
      } else {
        chargeStatus := 0.0;
        var r := SetBeingTowedDescriptor(state, penaltyDraw);
        state := r.value;
        possible := false;
      }
    }

    /** tick_drive: one tick of `tickSpeed` minutes on the road; `penaltyDraw` is the towing service's nextInt(10). */
    method TickDrive(tickSpeed: int, penaltyDraw: int) returns (r: Outcome<CarError>)
      requires Valid() && 0 <= penaltyDraw < 10
      modifies this
      ensures r.Fail? <==> old(state.descriptor) != DRIVING
      ensures r.Fail? ==> r.error == TickDriveWhileNotDriving && View() == old(View())
      ensures r.Pass? ==> View() == DriveTick(capacity, energyConsumption, speed, old(View()), tickSpeed, penaltyDraw)
      ensures Kept()
      ensures old(Linked()) ==> Linked()
    {
      if state.descriptor != DRIVING {
        return Fail(TickDriveWhileNotDriving);
      }
      var traveled := speed / 60.0 * tickSpeed as real;
      if state.remainingRouteLength - traveled > 0.0 {
        var possible := ApplyRouteConsumption(traveled, penaltyDraw);
        if !possible {
          return Pass;
        }
        state := state.(remainingRouteLength := state.remainingRouteLength - traveled);
      } else {
        var possible := ApplyRouteConsumption(traveled, penaltyDraw);
        if !possible {
          return Pass;
        }
        state := state.(remainingRouteLength := -1.0, totalRouteLength := -1.0, descriptor := IDLE);
      }
      r := Pass;
    }

    /** tick_be_towed: one tick of `tickSpeed` minutes waiting for or behind the towing service. */
    method TickBeTowed(tickSpeed: int) returns (r: Outcome<CarError>)
      modifies this
      ensures r.Fail? <==> old(state.descriptor) != BEING_TOWED
      ensures r.Fail? ==> r.error == TickTowWhileNotTowed && View() == old(View())
      ensures r.Pass? ==> View() == TowTick(old(View()), tickSpeed)
      ensures Kept()
      ensures old(Linked()) ==> Linked()
    {
      if state.descriptor != BEING_TOWED {
        return Fail(TickTowWhileNotTowed);
      }
      if state.remainingTimePenalty > 0 {
        state := state.(remainingTimePenalty := if state.remainingTimePenalty - tickSpeed <= 0 then -1 else state.remainingTimePenalty - tickSpeed);
      } else {
        var traveled := 70.0 / 60.0 * tickSpeed as real;
        if state.remainingRouteLength - traveled > 0.0 {
          state := state.(remainingRouteLength := state.remainingRouteLength - traveled);
        } else {
          state := state.(remainingRouteLength := -1.0, totalRouteLength := -1.0, descriptor := IDLE);
        }
      }
      r := Pass;
    }

    /** calculateRouteDuration: the minutes the route takes at the nominal 90 km/h, whatever the car's speed. */
    method CalculateRouteDuration(routeLength: real) returns (duration: Time)
      ensures fresh(duration) && fresh(duration.time) && duration.Valid()
      ensures duration.InMinutes() == TruncReal(routeLength / (90.0 / 60.0))
      ensures routeLength >= 0.0 ==> IsNormal(duration.Value())
    {
      duration := new Time();
      var minutes := TruncReal(routeLength / (90.0 / 60.0));
      duration.AddMinutes(minutes);
    }

    /** connectToV2GUnit: an idle car without a unit connects to a free unit and becomes CONNECTED_IDLE. */
    method ConnectToV2GUnit(unit: V2GUnit) returns (successful: bool)
      modifies this, unit
      ensures successful <==> old(v2gUnit) == null && old(state.descriptor) == IDLE && old(unit.connectedCar) == null
      ensures successful ==> v2gUnit == unit && unit.connectedCar == this && state == old(state).(descriptor := CONNECTED_IDLE)
      ensures !successful ==> v2gUnit == old(v2gUnit) && state == old(state) && unit.connectedCar == old(unit.connectedCar)
      ensures chargeStatus == old(chargeStatus) && speed == old(speed) && logLevel == old(logLevel) && chargingProfile == old(chargingProfile)
      ensures unit.logLevel == old(unit.logLevel)
      ensures successful ==> Linked()
      ensures !successful && old(Linked()) ==> Linked()
    {
      if v2gUnit == null && state.descriptor == IDLE {
        successful := unit.ConnectElectricCar(this);
        if successful {
          var r := SetDescriptor(state, CONNECTED_IDLE);
          state := r.value;
        }
      } else {
        successful := false;
      }
    }

    /**
     * disconnectFromV2GUnit: asks the unit to let go of the car and sets the car IDLE,
     * whether or not the unit agreed.
     */
    method DisconnectFromV2GUnit() returns (successful: bool)
      modifies this, v2gUnit
      ensures old(v2gUnit) == null ==> !successful && v2gUnit == null && state == old(state)
      ensures old(v2gUnit) != null ==> successful == (old(v2gUnit.connectedCar) == this) && state == old(state).(descriptor := IDLE)
      ensures old(v2gUnit) != null && successful ==> v2gUnit == null && old(v2gUnit).connectedCar == null
      ensures old(v2gUnit) != null && !successful ==> v2gUnit == old(v2gUnit) && old(v2gUnit).connectedCar == old(v2gUnit.connectedCar)
      ensures chargeStatus == old(chargeStatus) && speed == old(speed) && logLevel == old(logLevel) && chargingProfile == old(chargingProfile)
      ensures old(Linked()) ==> Linked() && successful == (old(v2gUnit) != null)
    {
      if v2gUnit != null {
        successful := v2gUnit.DisconnectElectricCar(this);
        var r := SetDescriptor(state, IDLE);
        state := r.value;
      } else {
        successful := false;
      }
    }

    /** What get_charging_priority needs of the car: a linked unit when the contracted times decide. */
    ghost predicate CanRankPriority()
      reads this, v2gUnit
    {
      Valid() &&
      (chargeStatus > MinChargeStatus(chargingProfile) as real && ContractedTimes(chargingProfile).Some? ==>
         v2gUnit != null && v2gUnit.Valid() && v2gUnit.connectedCar == this)
    }

    /**
     * The charging priority at grid time `now`: PriorityFor with the minutes until the
     * next contracted time and the simulated charging time to the contracted status.
     * Those two only matter above the minimum with a contracted profile, and only there
     * does get_charging_priority ask the unit; where it has no unit to ask (it would
     * raise a NullPointerException) the value is NONE and GetChargingPriority excludes
     * the case.
     */
    ghost function PriorityAt(now: int, tickSpeed: int): ChargingPriority
      reads this, v2gUnit
    {
      if chargeStatus > MinChargeStatus(chargingProfile) as real && ContractedTimes(chargingProfile).Some? then
        if v2gUnit != null && v2gUnit.Valid() && Valid() && tickSpeed >= 1 then
          var untilNext := MinutesUntilNext(now % 1440, HoursToMinutes(ContractedTimes(chargingProfile).value));
          var rate := EffectiveRate(v2gUnit.chargingRate, maxChargeRate);
          var steps := SimulatedSteps(capacity, rate, chargeStatus, ContractedChargeStatus(chargingProfile).value as real, tickSpeed);
          PriorityFor(chargingProfile, chargeStatus, untilNext, tickSpeed * steps.value)
        else ChargingPriority.NONE
      else PriorityFor(chargingProfile, chargeStatus, 0, 0)
    }

    /**
     * get_charging_priority: counts the minutes on a scratch clock until the next
     * contracted time and asks the unit for the charging time to the contracted status.
     */
    method GetChargingPriority(now: int, tickSpeed: int) returns (priority: ChargingPriority)
      requires CanRankPriority() && now >= 0 && tickSpeed >= 1
      modifies this
      ensures unchanged(this)
      ensures priority == PriorityAt(now, tickSpeed)
    {
      var minChargeStatus := MinChargeStatus(chargingProfile);
      if chargeStatus <= minChargeStatus as real {
        return IMMEDIATELY;
      }
      if ContractedTimes(chargingProfile).None? {
        return ChargingPriority.NONE;
      }
      var contractedTimes := HoursToMinutes(ContractedTimes(chargingProfile).value);
      ProfilesConsistent(chargingProfile);
      var timeUntilNextContract := MinutesUntilContract(now, contractedTimes);
      var duration := v2gUnit.CalculateChargingDuration(ContractedChargeStatus(chargingProfile).value as real, tickSpeed);
      var chargingTime := duration.value.InMinutes();
      priority := Classify(timeUntilNextContract, chargingTime);
    }
  }

  /**
   * The loop of get_charging_priority: advances a scratch clock from `now` minute by
   * minute until its time of day is one of the targets.
   */
  method MinutesUntilContract(now: int, targets: seq<int>) returns (minutes: int)
    requires now >= 0 && |targets| > 0 && forall t :: t in targets ==> 0 <= t < 1440
    ensures minutes == MinutesUntilNext(now % 1440, targets)
  {
    var simulatedTime := new Time();
    simulatedTime.AddMinutes(now);
    minutes := 0;
    ghost var target := MinutesUntilNext(now % 1440, targets);
    while simulatedTime.InMinutesWithHoursIsolated() !in targets
      invariant simulatedTime.Valid() && IsNormal(simulatedTime.Value()) && fresh(simulatedTime.time)
      invariant simulatedTime.InMinutes() == now + minutes
      invariant 0 <= minutes <= target
      decreases target - minutes
    {
      ModAdd(now, minutes);
      MinutesUntilNextIsFirst(now % 1440, targets, minutes);
      simulatedTime.AddMinutes(1);
      minutes := minutes + 1;
    }
    ModAdd(now, minutes);
    MinutesUntilNextIsFirst(now % 1440, targets, minutes);
  }

  lemma ModAdd(now: int, k: int)
    requires now >= 0 && k >= 0
    ensures (now % 1440 + k) % 1440 == (now + k) % 1440
  {
    var q := now / 1440;
    assert now == q * 1440 + now % 1440;
    assert now + k == q * 1440 + (now % 1440 + k);
  }

  class V2GUnit {
    /** kW. */
    const chargingRate: real
    const gridId: string
    var logLevel: LogLevel
    var connectedCar: ElectricCar?

    ghost predicate Valid()
    {
      chargingRate > 0.0
    }

    constructor (gridId: string, chargingRate: real, logLevel: LogLevel)
      requires chargingRate > 0.0
      ensures Valid() && connectedCar == null
      ensures this.gridId == gridId && this.chargingRate == chargingRate && this.logLevel == logLevel
    {
      this.gridId := gridId;
      this.chargingRate := chargingRate;
      this.logLevel := logLevel;
      connectedCar := null;
    }

    /** V2G_Unit(charging_rate, grid): the log level defaults to WARN. */
    constructor WarnLevel(gridId: string, chargingRate: real)
      requires chargingRate > 0.0
      ensures Valid() && connectedCar == null
      ensures this.gridId == gridId && this.chargingRate == chargingRate && logLevel == WARN
    {
      this.gridId := gridId;
      this.chargingRate := chargingRate;
      logLevel := WARN;
      connectedCar := null;
    }

    predicate IsConnected()
      reads this
    {
      connectedCar != null
    }

    /**
     * tick_charge(custom_charge_status): one tick along the charging curve. Without a car
     * it charges nothing. With a non-negative custom status it only simulates and returns
     * the status that tick would reach; otherwise it charges the car, sets it
     * CONNECTED_CHARGING (or CONNECTED_IDLE when nothing was charged) and returns the
     * energy in kWh.
     */
    method TickCharge(customChargeStatus: real, tickSpeed: int) returns (r: Result<real, ChargeError>)
      requires Valid() && (connectedCar != null ==> connectedCar.Valid())
      modifies connectedCar
      ensures connectedCar == null ==> r == Success(0.0)
      ensures connectedCar != null ==>
                var car := connectedCar;
                var simulated := customChargeStatus >= 0.0;
                var step := TickChargeStep(car.capacity, EffectiveRate(chargingRate, car.maxChargeRate),
                                           if simulated then customChargeStatus else old(car.chargeStatus), tickSpeed);
                (step.Failure? ==> r == Failure(step.error) && unchanged(car)) &&
                (step.Success? && simulated ==> r == Success(step.value.newStatus) && unchanged(car)) &&
                (step.Success? && !simulated ==>
                   r == Success(step.value.energy) && car.chargeStatus == step.value.newStatus &&
                   car.state == old(car.state).(descriptor := if step.value.energy > 0.0 then CONNECTED_CHARGING else CONNECTED_IDLE) &&
                   car.Kept())
    {
      if connectedCar == null {
        return Success(0.0);
      }
      var isSimulated := customChargeStatus >= 0.0;
      var carChargeStatus := if isSimulated then customChargeStatus else connectedCar.chargeStatus;
      var maxChargeRate := MinReal(chargingRate, connectedCar.maxChargeRate);
      var reducedChargingRate := ReducedRate(maxChargeRate, carChargeStatus);
      if reducedChargingRate.Failure? {
        return Failure(reducedChargingRate.error);
      }
      var charge := ChargeEnergy(reducedChargingRate.value, carChargeStatus, tickSpeed);
      var newChargeStatus := ChargedStatus(connectedCar.capacity, carChargeStatus, charge);
      if !isSimulated {
        connectedCar.chargeStatus := newChargeStatus;
        var s := SetDescriptor(connectedCar.state, if charge > 0.0 then CONNECTED_CHARGING else CONNECTED_IDLE);
        connectedCar.state := s.value;
        return Success(charge);
      }
      return Success(newChargeStatus);
    }

    /**
     * tick_discharge: withdraws 80% of the pair's rate minute by minute for up to a tick,
     * stopping before the car would fall below its profile's minimum or below 0%; returns
     * 90% of the energy withdrawn.
     */
    method TickDischarge(tickSpeed: int) returns (energy: real)
      requires Valid() && connectedCar != null && connectedCar.Valid()
      modifies connectedCar
      ensures var car := connectedCar;
              var discharge := DischargePerMinute(EffectiveRate(chargingRate, car.maxChargeRate));
              var run := Discharge(car.capacity, MinChargeStatus(car.chargingProfile), old(car.chargeStatus), discharge,
                                   if tickSpeed > 0 then tickSpeed else 0);
              car.chargeStatus == run.finalStatus && energy == Withdrawn(run.minutes, discharge) * (1.0 - 0.1) &&
              car.state == (if run.minutes > 0 then old(car.state).(descriptor := CONNECTED_DISCHARGING) else old(car.state)) &&
              car.Kept()
    {
      var car := connectedCar;
      var dischargeRate := MinReal(car.maxChargeRate, chargingRate) * 0.8;
      var discharge := dischargeRate / 60.0 * 1.0;
      var totalDischarge := 0.0;
      var i := 0;
      ghost var minutes: nat := if tickSpeed > 0 then tickSpeed else 0;
      ghost var minStatus := MinChargeStatus(car.chargingProfile);
      ghost var run := Discharge(car.capacity, minStatus, car.chargeStatus, discharge, minutes);
      while i < tickSpeed
        invariant 0 <= i <= minutes
        invariant totalDischarge == Withdrawn(i, discharge)
        invariant var rest := Discharge(car.capacity, minStatus, car.chargeStatus, discharge, minutes - i);
                  run == DischargeRun(i + rest.minutes, rest.finalStatus)
        invariant car.state == if i > 0 then old(car.state).(descriptor := CONNECTED_DISCHARGING) else old(car.state)
        invariant car.Kept()
      {
        var newChargeStatus := DischargedStatus(car.capacity, car.chargeStatus, discharge);
        DischargeStep(car.capacity, minStatus, car.chargeStatus, discharge, minutes - i);
        if newChargeStatus >= MinChargeStatus(car.chargingProfile) as real && newChargeStatus >= 0.0 {
          totalDischarge := totalDischarge + discharge;
          car.chargeStatus := newChargeStatus;
          var s := SetDescriptor(car.state, CONNECTED_DISCHARGING);
          car.state := s.value;
          i := i + 1;
        } else {
          break;
        }
      }
      var energyLoss := 0.1;
      energy := totalDischarge * (1.0 - energyLoss);
    }

    /**
     * calculate_charging_duration(up_to): counts the ticks from the car's status to
     * `upTo`, feeding each tick_charge result back in as the next status. From a
     * negative status the first call charges the car for real and returns kWh, which the
     * loop then takes for a status.
     */
    method CalculateChargingDuration(upTo: real, tickSpeed: int) returns (r: Result<Time, ChargeError>)
      requires Valid() && connectedCar != null && connectedCar.Valid() && upTo <= 100.0 && tickSpeed >= 1
      modifies connectedCar
      ensures r.Success? ==> fresh(r.value) && fresh(r.value.time) && r.value.Valid() && IsNormal(r.value.Value())
      ensures var car := connectedCar;
              var rate := EffectiveRate(chargingRate, car.maxChargeRate);
              var s0 := old(car.chargeStatus);
              (s0 >= 0.0 || s0 >= upTo ==>
                 unchanged(car) && r.Success? &&
                 r.value.InMinutes() == tickSpeed * SimulatedSteps(car.capacity, rate, s0, upTo, tickSpeed).value) &&
              (s0 < 0.0 && s0 < upTo ==>
                 var step := TickChargeStep(car.capacity, rate, s0, tickSpeed);
                 (step.Failure? ==> r == Failure(step.error)) &&
                 (step.Success? ==>
                    car.chargeStatus == step.value.newStatus && car.Kept() && r.Success? &&
                    r.value.InMinutes() == tickSpeed * (1 + SimulatedSteps(car.capacity, rate, step.value.energy, upTo, tickSpeed).value)))
    {
      var car := connectedCar;
      ghost var rate := EffectiveRate(chargingRate, car.maxChargeRate);
      var duration := new Time();
      assert duration.InMinutes() == 0;
      var chargeStatus := car.chargeStatus;
      // Only the loop's first pass can see a negative status, which tick_charge takes
      // for "no custom status": that pass charges the car for real.
      if chargeStatus < 0.0 && chargeStatus < upTo {
        TickChargeProgress(car.capacity, rate, chargeStatus, tickSpeed);
        var step := TickCharge(chargeStatus, tickSpeed);
        if step.Failure? {
          return Failure(step.error);
        }
        chargeStatus := step.value;
        duration.AddMinutes(tickSpeed);
      }
      ghost var elapsed := duration.InMinutes();
      ghost var steps := SimulatedSteps(car.capacity, rate, chargeStatus, upTo, tickSpeed).value;
      SimulatedTicks(duration, chargeStatus, upTo, tickSpeed);
      assert duration.InMinutes() == elapsed + tickSpeed * steps;
      assert tickSpeed * (1 + steps) == tickSpeed + tickSpeed * steps;
      return Success(duration);
    }

    /**
     * The remaining passes of calculate_charging_duration's loop: from a status that is
     * not negative every tick_charge only simulates, and each adds a tick to `duration`.
     */
    method SimulatedTicks(duration: Time, chargeStatus: real, upTo: real, tickSpeed: int)
      requires Valid() && connectedCar != null && connectedCar.Valid() && upTo <= 100.0 && tickSpeed >= 1
      requires duration.Valid() && IsNormal(duration.Value())
      requires chargeStatus >= 0.0 || chargeStatus >= upTo
      modifies connectedCar, duration.time
      ensures unchanged(connectedCar)
      ensures duration.Valid() && IsNormal(duration.Value())
      ensures duration.InMinutes() ==
                old(duration.InMinutes()) + tickSpeed * SimulatedSteps(connectedCar.capacity, EffectiveRate(chargingRate, connectedCar.maxChargeRate), chargeStatus, upTo, tickSpeed).value
    {
      var car := connectedCar;
      ghost var rate := EffectiveRate(chargingRate, car.maxChargeRate);
      ghost var start := duration.InMinutes();
      ghost var goal := SimulatedSteps(car.capacity, rate, chargeStatus, upTo, tickSpeed).value;
      ghost var count: nat := 0;
      var status := chargeStatus;
      while status < upTo
        invariant status >= 0.0 || status >= upTo
        invariant SimulatedSteps(car.capacity, rate, status, upTo, tickSpeed).Success?
        invariant count + SimulatedSteps(car.capacity, rate, status, upTo, tickSpeed).value == goal
        invariant duration.Valid() && IsNormal(duration.Value())
        invariant duration.InMinutes() == start + tickSpeed * count
        invariant unchanged(car)
        decreases StepsBound(car.capacity, rate, status, upTo)
      {
        TickChargeProgress(car.capacity, rate, status, tickSpeed);
        var step := TickCharge(status, tickSpeed);
        ghost var previous := status;
        status := step.value;
        assert SimulatedStep(car.capacity, rate, previous, tickSpeed) == Success(status);
        StepsBoundFalls(car.capacity, rate, previous, status, upTo);
        SimulatedStepsStep(car.capacity, rate, previous, status, upTo, tickSpeed);
        duration.AddMinutes(tickSpeed);
        assert tickSpeed * (count + 1) == tickSpeed * count + tickSpeed;
        count := count + 1;
      }
    }

    /** calculate_charging_duration(): the charging time to 100%. */
    method CalculateFullChargingDuration(tickSpeed: int) returns (r: Result<Time, ChargeError>)
      requires Valid() && connectedCar != null && connectedCar.Valid() && tickSpeed >= 1
      modifies connectedCar
      ensures r.Success? ==> fresh(r.value) && fresh(r.value.time) && r.value.Valid()
      ensures old(connectedCar.chargeStatus) >= 0.0 ==>
                unchanged(connectedCar) && r.Success? &&
                r.value.InMinutes() == tickSpeed * SimulatedSteps(connectedCar.capacity, EffectiveRate(chargingRate, connectedCar.maxChargeRate),
                                                                  old(connectedCar.chargeStatus), 100.0, tickSpeed).value
    {
      r := CalculateChargingDuration(100.0, tickSpeed);
    }

    /** connectElectricCar: a free unit takes the car and points it back at itself. */
    method ConnectElectricCar(car: ElectricCar) returns (successful: bool)
      modifies this, car
      ensures successful <==> old(connectedCar) == null
      ensures successful ==> connectedCar == car && car.v2gUnit == this
      ensures !successful ==> connectedCar == old(connectedCar) && car.v2gUnit == old(car.v2gUnit)
      ensures car.chargeStatus == old(car.chargeStatus) && car.state == old(car.state) && car.speed == old(car.speed)
      ensures car.logLevel == old(car.logLevel) && car.chargingProfile == old(car.chargingProfile) && logLevel == old(logLevel)
    {
      if IsConnected() {
        successful := false;
      } else {
        connectedCar := car;
        connectedCar.v2gUnit := this;
        successful := true;
      }
    }

    /** disconnectElectricCar: lets go of the car if it is the connected one. */
    method DisconnectElectricCar(car: ElectricCar) returns (successful: bool)
      modifies this, car
      ensures successful <==> old(connectedCar) == car
      ensures successful ==> connectedCar == null && car.v2gUnit == null
      ensures !successful ==> connectedCar == old(connectedCar) && car.v2gUnit == old(car.v2gUnit)
      ensures car.chargeStatus == old(car.chargeStatus) && car.state == old(car.state) && car.speed == old(car.speed)
      ensures car.logLevel == old(car.logLevel) && car.chargingProfile == old(car.chargingProfile) && logLevel == old(logLevel)
    {
      if connectedCar == car {
        connectedCar.v2gUnit := null;
        connectedCar := null;
        successful := true;
      } else {
        successful := false;
      }
    }
  }
}
