/**
 * The arithmetic of a V2G unit: one tick of charging along the charging curve, the
 * simulated charging run behind the charging-duration estimate, and the minute-by-minute
 * discharge into the grid.
 */
module ChargeCurve {
  import opened Wrappers
  import opened JavaMath

  /** The charging curve: the share of the charging rate taken in each band of 10%. */
  const TAPER: seq<real> := [0.50, 0.85, 0.90, 0.95, 0.775, 0.60, 0.425, 0.38, 0.36, 0.35, 0.0]

  /** The ArrayIndexOutOfBoundsException of the charging curve. */
  datatype ChargeError = CurveIndexOutOfBounds(index: int)

  /** The rate in kW the pair can charge at: the smaller of the unit's and the car's. */
  function EffectiveRate(unitRate: real, carMaxRate: real): (r: real)
    ensures r <= unitRate && r <= carMaxRate && (r == unitRate || r == carMaxRate)
  {
    MinReal(unitRate, carMaxRate)
  }

  /**
   * The charging rate at charge status `status`: above 10 kW the curve's share for the
   * band (int)(status / 10), below it the full rate.
   */
  function ReducedRate(rate: real, status: real): (r: Result<real, ChargeError>)
    ensures rate <= 10.0 ==> r == Success(rate)
    ensures r.Failure? <==> rate > 10.0 && (status <= -10.0 || status >= 110.0)
    ensures rate > 10.0 && -10.0 < status < 100.0 ==> r.Success? && 0.35 * rate <= r.value <= 0.95 * rate
  {
    if rate > 10.0 then
      var i := TruncReal(status / 10.0);
      if 0 <= i < |TAPER| then Success(TAPER[i] * rate) else Failure(CurveIndexOutOfBounds(i))
    else Success(1.0 * rate)
  }

  /** The energy in kWh a tick of `tickSpeed` minutes charges; nothing at exactly 100%. */
  function ChargeEnergy(reducedRate: real, status: real, tickSpeed: int): real
  {
    if status != 100.0 then reducedRate / 60.0 * tickSpeed as real else 0.0
  }

  /** The charge status after adding `energy` kWh to a battery of `capacity` kWh, capped at 100%. */
  function ChargedStatus(capacity: real, status: real, energy: real): (s: real)
    requires capacity > 0.0
    ensures s == MinReal(status + energy * 100.0 / capacity, 100.0)
  {
    var c := capacity;
    assert (c * (status / 100.0) + energy) / c * 100.0 == status + energy * 100.0 / c;
    MinReal((capacity * (status / 100.0) + energy) / capacity * 100.0, 100.0)
  }

  datatype ChargeStep = ChargeStep(energy: real, newStatus: real)

  /** tick_charge's computation for a car at `status`: the energy charged and the new status. */
  function TickChargeStep(capacity: real, rate: real, status: real, tickSpeed: int): Result<ChargeStep, ChargeError>
    requires capacity > 0.0
  {
    match ReducedRate(rate, status)
    case Failure(e) => Failure(e)
    case Success(reduced) =>
      var energy := ChargeEnergy(reduced, status, tickSpeed);
      Success(ChargeStep(energy, ChargedStatus(capacity, status, energy)))
  }

  /** The least gain in % of one tick below 100%: 35% of the rate for a minute. */
  function MinGain(capacity: real, rate: real): (g: real)
    requires capacity > 0.0 && rate > 0.0
    ensures g > 0.0
  {
    0.35 * rate / 60.0 * 100.0 / capacity
  }

  lemma MulAtLeastOne(x: real, t: int)
    requires x >= 0.0 && t >= 1
    ensures x * t as real >= x
  {
  }

  /**
   * Below 100% a tick charges a positive amount and gains at least MinGain (or reaches
   * 100%), never passing 100%; it fails only on the curve's index below -10%.
   */
  lemma TickChargeProgress(capacity: real, rate: real, status: real, tickSpeed: int)
    requires capacity > 0.0 && rate > 0.0 && tickSpeed >= 1 && status < 100.0
    ensures TickChargeStep(capacity, rate, status, tickSpeed).Failure? <==> rate > 10.0 && status <= -10.0
    ensures TickChargeStep(capacity, rate, status, tickSpeed).Success? ==>
              var step := TickChargeStep(capacity, rate, status, tickSpeed).value;
              step.energy > 0.0 && step.newStatus <= 100.0 &&
              step.newStatus >= MinReal(status + MinGain(capacity, rate), 100.0)
  {
    var r := ReducedRate(rate, status);
    if r.Success? {
      TickGain(capacity, rate, r.value, status, tickSpeed);
    }
  }

  /** A tick at a reduced rate of at least 35% of the rate gains at least MinGain. */
  lemma TickGain(capacity: real, rate: real, reduced: real, status: real, tickSpeed: int)
    requires capacity > 0.0 && rate > 0.0 && tickSpeed >= 1 && status < 100.0
    requires reduced >= 0.35 * rate
    ensures var energy := ChargeEnergy(reduced, status, tickSpeed);
            energy > 0.0 && ChargedStatus(capacity, status, energy) <= 100.0 &&
            ChargedStatus(capacity, status, energy) >= MinReal(status + MinGain(capacity, rate), 100.0)
  {
    var energy := ChargeEnergy(reduced, status, tickSpeed);
    MulAtLeastOne(reduced / 60.0, tickSpeed);
    assert energy >= 0.35 * rate / 60.0;
    ScaledAtLeast(energy, 0.35 * rate / 60.0, capacity);
  }

  lemma ScaledAtLeast(a: real, b: real, c: real)
    requires a >= b && c > 0.0
    ensures a * 100.0 / c >= b * 100.0 / c
  {
  }

  /** tick_charge's result while simulating: the next charge status, or the curve's error. */
  function SimulatedStep(capacity: real, rate: real, status: real, tickSpeed: int): Result<real, ChargeError>
    requires capacity > 0.0
  {
    match TickChargeStep(capacity, rate, status, tickSpeed)
    case Failure(e) => Failure(e)
    case Success(step) => Success(step.newStatus)
  }

  /** An upper bound on the ticks from `status` to `upTo`. */
  function StepsBound(capacity: real, rate: real, status: real, upTo: real): nat
    requires capacity > 0.0 && rate > 0.0
  {
    if status >= upTo then 0 else ((upTo - status) / MinGain(capacity, rate)).Floor + 1
  }

  lemma StepsBoundFalls(capacity: real, rate: real, status: real, next: real, upTo: real)
    requires capacity > 0.0 && rate > 0.0 && status < upTo <= 100.0
    requires next >= MinReal(status + MinGain(capacity, rate), 100.0)
    ensures StepsBound(capacity, rate, next, upTo) < StepsBound(capacity, rate, status, upTo)
  {
    var g := MinGain(capacity, rate);
    if next < upTo {
      assert next >= status + g;
      RatioGap(upTo - status, upTo - next, g);
      assert ((upTo - status) / g - 1.0).Floor == ((upTo - status) / g).Floor - 1;
    }
  }

  lemma RatioGap(a: real, b: real, g: real)
    requires g > 0.0 && a - b >= g
    ensures b / g <= a / g - 1.0
  {
    assert a / g - b / g == (a - b) / g;
    var q := (a - b) / g;
    assert q * g == a - b;
    assert (q - 1.0) * g == q * g - g;
  }

  /**
   * The number of ticks the simulated charging run of calculate_charging_duration takes
   * from `status` to `upTo`: none at or above the target, otherwise at least one and at
   * most StepsBound; it cannot fail from above -10%.
   */
  function SimulatedSteps(capacity: real, rate: real, status: real, upTo: real, tickSpeed: int): (r: Result<nat, ChargeError>)
    requires capacity > 0.0 && rate > 0.0 && upTo <= 100.0 && tickSpeed >= 1
    ensures status >= upTo ==> r == Success(0)
    ensures r.Success? && status < upTo ==> 1 <= r.value <= StepsBound(capacity, rate, status, upTo)
    ensures status > -10.0 ==> r.Success?
    decreases StepsBound(capacity, rate, status, upTo)
  {
    if status >= upTo then Success(0)
    else
      TickChargeProgress(capacity, rate, status, tickSpeed);
      match SimulatedStep(capacity, rate, status, tickSpeed)
      case Failure(e) => Failure(e)
      case Success(next) =>
        StepsBoundFalls(capacity, rate, status, next, upTo);
        match SimulatedSteps(capacity, rate, next, upTo, tickSpeed)
        case Failure(e) => Failure(e)
        case Success(n) => Success(n + 1)
  }

  /** One tick of the simulated run, unfolded. */
  lemma SimulatedStepsStep(capacity: real, rate: real, status: real, next: real, upTo: real, tickSpeed: int)
    requires capacity > 0.0 && rate > 0.0 && upTo <= 100.0 && tickSpeed >= 1 && status < upTo
    requires SimulatedStep(capacity, rate, status, tickSpeed) == Success(next)
    requires SimulatedSteps(capacity, rate, next, upTo, tickSpeed).Success?
    ensures SimulatedSteps(capacity, rate, status, upTo, tickSpeed) == Success(SimulatedSteps(capacity, rate, next, upTo, tickSpeed).value + 1)
  {
  }

  /** A discharge minute, unfolded. */
  lemma DischargeStep(capacity: real, minStatus: int, status: real, discharge: real, minutes: nat)
    requires capacity > 0.0 && minutes > 0
    ensures var next := DischargedStatus(capacity, status, discharge);
            Discharge(capacity, minStatus, status, discharge, minutes) ==
              if next >= minStatus as real && next >= 0.0 then
                var rest := Discharge(capacity, minStatus, next, discharge, minutes - 1);
                DischargeRun(rest.minutes + 1, rest.finalStatus)
              else DischargeRun(0, status)
  {
  }

  /** `n` withdrawals of `discharge` kWh added up. */
  function Withdrawn(n: nat, discharge: real): (total: real)
    ensures total == n as real * discharge
  {
    if n == 0 then 0.0 else Withdrawn(n - 1, discharge) + discharge
  }

  /** The charge status after `n` simulated ticks. */
  function Simulate(capacity: real, rate: real, status: real, tickSpeed: int, n: nat): Result<real, ChargeError>
    requires capacity > 0.0
    decreases n
  {
    if n == 0 then Success(status)
    else
      match SimulatedStep(capacity, rate, status, tickSpeed)
      case Failure(e) => Failure(e)
      case Success(next) => Simulate(capacity, rate, next, tickSpeed, n - 1)
  }

  /** SimulatedSteps is the first number of ticks after which the simulated status reaches `upTo`. */
  lemma {:induction false} SimulatedStepsReach(capacity: real, rate: real, status: real, upTo: real, tickSpeed: int)
    requires capacity > 0.0 && rate > 0.0 && upTo <= 100.0 && tickSpeed >= 1
    requires SimulatedSteps(capacity, rate, status, upTo, tickSpeed).Success?
    ensures var n := SimulatedSteps(capacity, rate, status, upTo, tickSpeed).value;
            Simulate(capacity, rate, status, tickSpeed, n).Success? &&
            Simulate(capacity, rate, status, tickSpeed, n).value >= upTo &&
            forall k :: 0 <= k < n ==> Simulate(capacity, rate, status, tickSpeed, k).Success? &&
                                       Simulate(capacity, rate, status, tickSpeed, k).value < upTo
    decreases StepsBound(capacity, rate, status, upTo)
  {
    if status < upTo {
      TickChargeProgress(capacity, rate, status, tickSpeed);
      var next := SimulatedStep(capacity, rate, status, tickSpeed).value;
      StepsBoundFalls(capacity, rate, status, next, upTo);
      SimulatedStepsReach(capacity, rate, next, upTo, tickSpeed);
      var n := SimulatedSteps(capacity, rate, status, upTo, tickSpeed).value;
      forall k | 0 <= k < n
        ensures Simulate(capacity, rate, status, tickSpeed, k).Success? && Simulate(capacity, rate, status, tickSpeed, k).value < upTo
      {
        if k > 0 {
          assert Simulate(capacity, rate, status, tickSpeed, k) == Simulate(capacity, rate, next, tickSpeed, k - 1);
        }
      }
    }
  }

  /**
   * With a unit or a car whose charge rate is not positive, no simulated tick raises the
   * status: after any number of ticks it is still at most where it began, so the loop
   * `while (status < up_to)` of calculate_charging_duration never ends.
   */
  lemma {:induction false} ChargingNeverEnds(capacity: real, unitRate: real, carMaxRate: real, status: real, tickSpeed: int, n: nat)
    requires capacity > 0.0 && tickSpeed >= 1
    requires unitRate <= 0.0 || carMaxRate <= 0.0
    ensures var r := Simulate(capacity, EffectiveRate(unitRate, carMaxRate), status, tickSpeed, n);
            r.Success? && r.value <= status
    decreases n
  {
    if n > 0 {
      var rate := EffectiveRate(unitRate, carMaxRate);
      var energy := ChargeEnergy(rate, status, tickSpeed);
      assert energy <= 0.0 by {
        if status != 100.0 {
          NonPositiveShare(rate, tickSpeed);
        }
      }
      NoGain(capacity, status, energy);
      var next := ChargedStatus(capacity, status, energy);
      assert SimulatedStep(capacity, rate, status, tickSpeed) == Success(next);
      ChargingNeverEnds(capacity, unitRate, carMaxRate, next, tickSpeed, n - 1);
    }
  }

  lemma NonPositiveShare(rate: real, tickSpeed: int)
    requires rate <= 0.0 && tickSpeed >= 1
    ensures rate / 60.0 * tickSpeed as real <= 0.0
  {
  }

  lemma NoGain(capacity: real, status: real, energy: real)
    requires capacity > 0.0 && energy <= 0.0
    ensures ChargedStatus(capacity, status, energy) <= status || ChargedStatus(capacity, status, energy) == 100.0 < status
  {
    assert energy * 100.0 / capacity <= 0.0;
  }

  // ---------------------------------------------------------------------------
  // discharging

  /** The energy in kWh withdrawn per minute: 80% of the pair's rate for one minute. */
  function DischargePerMinute(rate: real): real
  {
    rate * 0.8 / 60.0 * 1.0
  }

  /** The charge status after withdrawing `discharge` kWh. */
  function DischargedStatus(capacity: real, status: real, discharge: real): (s: real)
    requires capacity > 0.0
    ensures s == status - Percent(capacity, discharge)
  {
    var c := capacity;
    assert (c * (status / 100.0) - discharge) / c * 100.0 == status - discharge * 100.0 / c;
    (capacity * (status / 100.0) - discharge) / capacity * 100.0
  }

  /** `energy` kWh as a share in % of a battery of `capacity` kWh. */
  function Percent(capacity: real, energy: real): real
    requires capacity > 0.0
  {
    energy * 100.0 / capacity
  }

  datatype DischargeRun = DischargeRun(minutes: nat, finalStatus: real)

  /**
   * tick_discharge's loop over up to `minutes` minutes: each minute withdraws `discharge`
   * kWh as long as the status stays at or above the profile's minimum and non-negative.
   */
  function Discharge(capacity: real, minStatus: int, status: real, discharge: real, minutes: nat): DischargeRun
    requires capacity > 0.0
    decreases minutes
  {
    if minutes == 0 then DischargeRun(0, status)
    else
      var next := DischargedStatus(capacity, status, discharge);
      if next >= minStatus as real && next >= 0.0 then
        var rest := Discharge(capacity, minStatus, next, discharge, minutes - 1);
        DischargeRun(rest.minutes + 1, rest.finalStatus)
      else DischargeRun(0, status)
  }

  /**
   * A discharge run withdraws the same amount each minute it runs, never takes the car
   * below the profile's minimum or below 0%, and stops early only where one more minute
   * would have.
   */
  lemma {:induction false} DischargeRunFacts(capacity: real, minStatus: int, status: real, discharge: real, minutes: nat)
    requires capacity > 0.0
    ensures var run := Discharge(capacity, minStatus, status, discharge, minutes);
            run.minutes <= minutes &&
            run.finalStatus == status - run.minutes as real * Percent(capacity, discharge) &&
            (run.minutes > 0 ==> run.finalStatus >= minStatus as real && run.finalStatus >= 0.0) &&
            (run.minutes < minutes ==>
               var next := DischargedStatus(capacity, run.finalStatus, discharge);
               next < minStatus as real || next < 0.0)
    decreases minutes
  {
    if minutes > 0 {
      var next := DischargedStatus(capacity, status, discharge);
      if next >= minStatus as real && next >= 0.0 {
        DischargeRunFacts(capacity, minStatus, next, discharge, minutes - 1);
        var rest := Discharge(capacity, minStatus, next, discharge, minutes - 1);
        OneMoreMinute(status, next, Percent(capacity, discharge), rest.minutes as real, rest.finalStatus);
      }
    }
  }

  lemma OneMoreMinute(status: real, next: real, p: real, m: real, final: real)
    requires next == status - p && final == next - m * p
    ensures final == status - (m + 1.0) * p
  {
    assert (m + 1.0) * p == m * p + p;
  }

  /** The energy returned to the grid: 90% of the energy the run took from the battery. */
  lemma DischargeEnergy(capacity: real, minStatus: int, status: real, discharge: real, minutes: nat)
    requires capacity > 0.0
    ensures var run := Discharge(capacity, minStatus, status, discharge, minutes);
            run.minutes as real * discharge * (1.0 - 0.1) == 0.9 * (status - run.finalStatus) * capacity / 100.0
  {
    DischargeRunFacts(capacity, minStatus, status, discharge, minutes);
    RunEnergy(capacity, status, discharge, Discharge(capacity, minStatus, status, discharge, minutes));
  }

  lemma RunEnergy(capacity: real, status: real, discharge: real, run: DischargeRun)
    requires capacity > 0.0
    requires run.finalStatus == status - run.minutes as real * Percent(capacity, discharge)
    ensures run.minutes as real * discharge * (1.0 - 0.1) == 0.9 * (status - run.finalStatus) * capacity / 100.0
  {
    PercentOfCapacity(capacity, discharge);
    EnergyOfGap(run.minutes as real, Percent(capacity, discharge), capacity, discharge, status - run.finalStatus);
  }

  lemma PercentOfCapacity(capacity: real, energy: real)
    requires capacity > 0.0
    ensures Percent(capacity, energy) * capacity == energy * 100.0
  {
  }

  lemma EnergyOfGap(m: real, p: real, c: real, d: real, gap: real)
    requires p * c == d * 100.0 && gap == m * p
    ensures m * d * (1.0 - 0.1) == 0.9 * gap * c / 100.0
  {
    calc {
      0.9 * gap * c / 100.0;
      0.9 * (m * p) * c / 100.0;
      { assert (m * p) * c == m * (p * c); }
      0.9 * (m * (d * 100.0)) / 100.0;
      m * d * (1.0 - 0.1);
    }
  }
}
