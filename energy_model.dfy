/**
 * A day of electricity: per-minute production of five kinds of power plant mixed by a
 * distribution, a per-minute consumption curve, and their balance.
 * Every percentage is an int; `(int)` casts and `*=` by a double truncate.
 */
module EnergyModel {
  import opened Wrappers
  import opened JavaMath
  import opened Clock
  import Rng


  // ---------------------------------------------------------------------------
  // weather

  datatype Cloudiness = SUNNY | CLEAR | CLOUDY | RAINY
  datatype WindSpeed = MUCH | A_NORMAL_AMOUNT_OF | NO
  datatype Weather = Weather(cloudiness: Cloudiness, windSpeed: WindSpeed)

  /** Weather(): the constants at the drawn positions of `values()`. */
  function WeatherOf(cloudinessDraw: int, windDraw: int): Weather
    requires 0 <= cloudinessDraw < 4 && 0 <= windDraw < 3
  {
    Weather([SUNNY, CLEAR, CLOUDY, RAINY][cloudinessDraw], [MUCH, A_NORMAL_AMOUNT_OF, NO][windDraw])
  }

  function WindMultiplier(w: WindSpeed): real
  {
    match w
    case MUCH => 1.5
    case A_NORMAL_AMOUNT_OF => 1.0
    case NO => 0.2
  }

  function PvMultiplier(c: Cloudiness): real
  {
    match c
    case SUNNY => 1.5
    case CLOUDY => 0.5
    case RAINY => 0.7
    case CLEAR => 1.0
  }

  function WaterMultiplier(c: Cloudiness): real
  {
    match c
    case SUNNY => 0.7
    case CLOUDY => 1.0
    case CLEAR => 1.0
    case RAINY => 1.3
  }

  /** `v *= multiplier` on an int. */
  function Scale(v: int, multiplier: real): int
  {
    TruncReal(v as real * multiplier)
  }

  lemma ScaleMonotone(a: int, b: int, m: real)
    requires a <= b && m >= 0.0
    ensures Scale(a, m) <= Scale(b, m)
  {
    assert a as real * m <= b as real * m;
    TruncRealMonotone(a as real * m, b as real * m);
  }

  // ---------------------------------------------------------------------------
  // smoothing 24 hourly values into 1440 minutes

  /**
   * The value smooth puts at minute k: the hour's value plus the truncated share of the
   * step to the next hour; minutes past the last hour with a successor stay 0.
   */
  function SmoothAt(values: seq<int>, k: int): int
    requires 0 <= k
  {
    if k < 60 * (|values| - 1) then
      var i, j := k / 60, k % 60;
      values[i] + TruncReal(Share(values[i + 1] - values[i], j))
    else 0
  }

  /** `difference / 60.0 * j`: the part of an hour's step reached at minute j, between 0 and the step. */
  function Share(difference: int, j: int): (x: real)
    requires 0 <= j < 60
    ensures difference >= 0 ==> 0.0 <= x <= difference as real
    ensures difference < 0 ==> difference as real <= x <= 0.0
  {
    RealProduct(difference, j);
    var p := difference * j;
    assert difference >= 0 ==> 0 <= p <= 60 * difference by {
      if difference >= 0 { MulLe(difference, 0, j); MulLe(difference, j, 60); }
    }
    assert difference < 0 ==> 60 * difference <= p <= 0 by {
      if difference < 0 { MulLe(-difference, 0, j); MulLe(-difference, j, 60); }
    }
    difference as real / 60.0 * j as real
  }

  lemma RealProduct(d: int, j: int)
    ensures d as real / 60.0 * j as real == (d * j) as real / 60.0
  {
  }

  method Smooth(values: seq<int>) returns (smoothed: array<int>)
    requires |values| <= 25
    ensures fresh(smoothed) && smoothed.Length == MINUTES_PER_DAY
    ensures forall k :: 0 <= k < MINUTES_PER_DAY ==> smoothed[k] == SmoothAt(values, k)
  {
    smoothed := new int[MINUTES_PER_DAY](_ => 0);
    var i := 0;
    while i < |values| - 1
      invariant 0 <= i <= if |values| == 0 then 0 else |values| - 1
      invariant forall k :: 0 <= k < MINUTES_PER_DAY ==> smoothed[k] == if k < 60 * i then SmoothAt(values, k) else 0
    {
      var difference := values[i + 1] - values[i];
      var stepWidth := difference as real / 60.0;
      for j := 0 to 60
        invariant forall k :: 0 <= k < MINUTES_PER_DAY ==> smoothed[k] == if k < 60 * i + j then SmoothAt(values, k) else 0
      {
        SmoothAtMinute(values, i, j);
        assert stepWidth * j as real == Share(difference, j);
        smoothed[60 * i + j] := values[i] + TruncReal(stepWidth * j as real);
      }
      i := i + 1;
    }
  }

  /** Minute j of hour i, for an hour that has a successor. */
  lemma SmoothAtMinute(values: seq<int>, i: int, j: int)
    requires |values| <= 25 && 0 <= i < |values| - 1 && 0 <= j < 60
    ensures 60 * i + j < MINUTES_PER_DAY
    ensures SmoothAt(values, 60 * i + j) == values[i] + TruncReal(Share(values[i + 1] - values[i], j))
  {
    assert (60 * i + j) / 60 == i && (60 * i + j) % 60 == j;
  }

  /** Smoothing keeps the hourly values at the full hours. */
  lemma SmoothAnchors(values: seq<int>, i: int)
    requires 0 <= i < |values| - 1
    ensures SmoothAt(values, 60 * i) == values[i]
  {
    assert (60 * i) / 60 == i && (60 * i) % 60 == 0;
  }

  /** Between two full hours the smoothed value lies between the two hourly values. */
  lemma SmoothBetween(values: seq<int>, k: int)
    requires 0 <= k < 60 * (|values| - 1)
    ensures MinInt(values[k / 60], values[k / 60 + 1]) <= SmoothAt(values, k) <= MaxInt(values[k / 60], values[k / 60 + 1])
  {
    StepBetween(values[k / 60], values[k / 60 + 1], k % 60);
  }

  /** a plus a truncated share of the step from a to b lies between a and b. */
  lemma StepBetween(a: int, b: int, j: int)
    requires 0 <= j < 60
    ensures MinInt(a, b) <= a + TruncReal(Share(b - a, j)) <= MaxInt(a, b)
  {
    var d, x := b - a, Share(b - a, j);
    TruncOfInt(d);
    TruncOfInt(0);
    if d >= 0 {
      TruncRealMonotone(0.0, x);
      TruncRealMonotone(x, d as real);
    } else {
      TruncRealMonotone(d as real, x);
      TruncRealMonotone(x, 0.0);
    }
  }

  /** After the last hour that has a successor, smoothed minutes are 0. */
  lemma SmoothTail(values: seq<int>, k: int)
    requires 0 <= k && 60 * (|values| - 1) <= k
    ensures SmoothAt(values, k) == 0
  {
  }

  /** Smoothed values stay within the bounds of the hourly values, and 0 after the last hour. */
  lemma SmoothBounds(values: seq<int>, lo: int, hi: int, k: int)
    requires forall i :: 0 <= i < |values| ==> lo <= values[i] <= hi
    requires 0 <= k
    ensures k < 60 * (|values| - 1) ==> lo <= SmoothAt(values, k) <= hi
    ensures k >= 60 * (|values| - 1) ==> SmoothAt(values, k) == 0
  {
    if k < 60 * (|values| - 1) {
      SmoothBetween(values, k);
    }
  }

  // ---------------------------------------------------------------------------
  // the power plants; the draws of java.util.Random are parameters

  /** The wind farm's random walk: 45 at minute 0, then a step of 5 - draw clamped to [0, 100]. */
  function WindWalk(steps: seq<int>, i: nat): int
    requires i <= |steps|
  {
    if i == 0 then 45 else MinInt(MaxInt(WindWalk(steps, i - 1) + (5 - steps[i - 1]), 0), 100)
  }

  /** wind_farm's value at minute i: the walk, scaled by the wind multiplier in the first 24 minutes. */
  function WindAt(weather: Weather, steps: seq<int>, i: nat): int
    requires i <= |steps|
  {
    if i < 24 then MinInt(100, Scale(WindWalk(steps, i), WindMultiplier(weather.windSpeed)))
    else WindWalk(steps, i)
  }

  method WindFarm(weather: Weather, steps: seq<int>) returns (values: array<int>)
    requires Rng.Drawn(steps, MINUTES_PER_DAY - 1, 10)
    ensures fresh(values) && values.Length == MINUTES_PER_DAY
    ensures forall i :: 0 <= i < MINUTES_PER_DAY ==> values[i] == WindAt(weather, steps, i)
  {
    values := new int[MINUTES_PER_DAY](_ => 0);
    values[0] := 45;
    for i := 1 to values.Length
      invariant forall k :: 0 <= k < i ==> values[k] == WindWalk(steps, k)
    {
      values[i] := MinInt(MaxInt(values[i - 1] + (5 - steps[i - 1]), 0), 100);
    }
    var multiplier := WindMultiplier(weather.windSpeed);
    for i := 0 to 24
      invariant forall k :: 0 <= k < MINUTES_PER_DAY ==> values[k] == if k < i then WindAt(weather, steps, k) else WindWalk(steps, k)
    {
      values[i] := Scale(values[i], multiplier);
      values[i] := MinInt(100, values[i]);
    }
  }

  /** Each minute the walk moves by at most 5 up and 4 down, and stays within [0, 100]. */
  lemma WindWalkSteps(steps: seq<int>, i: nat)
    requires Rng.Drawn(steps, |steps|, 10) && 0 < i <= |steps|
    ensures 0 <= WindWalk(steps, i) <= 100
    ensures -4 <= WindWalk(steps, i) - WindWalk(steps, i - 1) <= 5
  {
  }

  /** Every wind sample is a percentage in [0, 100]. */
  lemma WindBounds(weather: Weather, steps: seq<int>, i: nat)
    requires Rng.Drawn(steps, |steps|, 10) && i <= |steps|
    ensures 0 <= WindAt(weather, steps, i) <= 100
  {
    assert 0 <= WindWalk(steps, i) <= 100;
    ScaleMonotone(0, WindWalk(steps, i), WindMultiplier(weather.windSpeed));
  }

  function HoursFrom13(i: int): int
  {
    if i > 13 then i - 13 else 13 - i
  }

  /** pv_farm's value at hour i before the weather: 100 less a slope of 14 to 17 per hour away from 13, at least 0. */
  function PvRaw(slopes: seq<int>, i: nat): int
    requires i < |slopes|
  {
    MaxInt(100 - (17 - slopes[i]) * HoursFrom13(i), 0)
  }

  function PvHours(weather: Weather, slopes: seq<int>): (hours: seq<int>)
    requires |slopes| == 24
    ensures |hours| == 24
  {
    seq(24, i requires 0 <= i < 24 => Scale(PvRaw(slopes, i), PvMultiplier(weather.cloudiness)))
  }

  method PvFarm(weather: Weather, slopes: seq<int>) returns (smoothed: array<int>)
    requires Rng.Drawn(slopes, 24, 4)
    ensures fresh(smoothed) && smoothed.Length == MINUTES_PER_DAY
    ensures forall k :: 0 <= k < MINUTES_PER_DAY ==> smoothed[k] == SmoothAt(PvHours(weather, slopes), k)
  {
    var values := new int[24];
    for i := 0 to 24
      invariant forall k :: 0 <= k < i ==> values[k] == PvRaw(slopes, k)
    {
      values[i] := MaxInt(100 - (17 - slopes[i]) * (if i > 13 then i - 13 else 13 - i), 0);
    }
    var multiplier := PvMultiplier(weather.cloudiness);
    for i := 0 to 24
      invariant forall k :: 0 <= k < 24 ==> values[k] == if k < i then Scale(PvRaw(slopes, k), multiplier) else PvRaw(slopes, k)
    {
      values[i] := Scale(values[i], multiplier);
    }
    assert values[..] == PvHours(weather, slopes);
    smoothed := Smooth(values[..]);
  }

  /** Before the weather, hour 13 yields 100 and every hour lies between the steepest and the flattest slope. */
  lemma PvShape(slopes: seq<int>, i: nat)
    requires Rng.Drawn(slopes, 24, 4) && i < 24
    ensures PvRaw(slopes, 13) == 100
    ensures MaxInt(100 - 17 * HoursFrom13(i), 0) <= PvRaw(slopes, i) <= MaxInt(100 - 14 * HoursFrom13(i), 0)
  {
    assert 14 * HoursFrom13(i) <= (17 - slopes[i]) * HoursFrom13(i) <= 17 * HoursFrom13(i);
  }

  /** Photovoltaic output is never negative and at most 150, reached at 13:00 on a sunny day. */
  lemma PvBounds(weather: Weather, slopes: seq<int>, i: nat)
    requires Rng.Drawn(slopes, 24, 4) && i < 24
    ensures 0 <= PvHours(weather, slopes)[i] <= 150
    ensures PvHours(weather, slopes)[13] == Scale(100, PvMultiplier(weather.cloudiness))
  {
    var m := PvMultiplier(weather.cloudiness);
    PvShape(slopes, i);
    ScaleMonotone(0, PvRaw(slopes, i), m);
    ScaleMonotone(PvRaw(slopes, i), 100, m);
    ScaleMonotone(100, 100, 1.5);
    assert Scale(100, m) <= Scale(100, 1.5) by {
      assert 100.0 * m <= 100.0 * 1.5;
      TruncRealMonotone(100.0 * m, 100.0 * 1.5);
    }
  }

  /** water_power_plant's value at minute i: 70 plus a draw in [0, 15), scaled by the weather. */
  function WaterAt(weather: Weather, jitter: seq<int>, i: nat): int
    requires i < |jitter|
  {
    Scale(70 + jitter[i], WaterMultiplier(weather.cloudiness))
  }

  method WaterPowerPlant(weather: Weather, jitter: seq<int>) returns (values: array<int>)
    requires Rng.Drawn(jitter, MINUTES_PER_DAY, 15)
    ensures fresh(values) && values.Length == MINUTES_PER_DAY
    ensures forall i :: 0 <= i < MINUTES_PER_DAY ==> values[i] == WaterAt(weather, jitter, i)
  {
    values := new int[MINUTES_PER_DAY];
    for i := 0 to values.Length
      invariant forall k :: 0 <= k < i ==> values[k] == 70 + jitter[k]
    {
      values[i] := 70 + jitter[i];
    }
    var multiplier := WaterMultiplier(weather.cloudiness);
    for i := 0 to values.Length
      invariant forall k :: 0 <= k < MINUTES_PER_DAY ==> values[k] == if k < i then WaterAt(weather, jitter, k) else 70 + jitter[k]
    {
      values[i] := Scale(values[i], multiplier);
    }
  }

  /** Water output lies between the scaled 70 and the scaled 84 of the day's weather. */
  lemma WaterBounds(weather: Weather, jitter: seq<int>, i: nat)
    requires Rng.Drawn(jitter, |jitter|, 15) && i < |jitter|
    ensures Scale(70, WaterMultiplier(weather.cloudiness)) <= WaterAt(weather, jitter, i) <= Scale(84, WaterMultiplier(weather.cloudiness))
  {
    ScaleMonotone(70, 70 + jitter[i], WaterMultiplier(weather.cloudiness));
    ScaleMonotone(70 + jitter[i], 84, WaterMultiplier(weather.cloudiness));
  }

  function NuclearHours(fixedProduction: int, jitter: seq<int>): (hours: seq<int>)
    requires |jitter| == 24
    ensures |hours| == 24
  {
    seq(24, i requires 0 <= i < 24 => fixedProduction + jitter[i])
  }

  /** nuclear_power_plant(fixed): fixed plus a draw in [0, 6) each hour, smoothed. */
  method NuclearPowerPlant(fixedProduction: int, jitter: seq<int>) returns (smoothed: array<int>)
    requires Rng.Drawn(jitter, 24, 6)
    ensures fresh(smoothed) && smoothed.Length == MINUTES_PER_DAY
    ensures forall k :: 0 <= k < MINUTES_PER_DAY ==> smoothed[k] == SmoothAt(NuclearHours(fixedProduction, jitter), k)
  {
    var values := new int[24];
    for i := 0 to 24
      invariant forall k :: 0 <= k < i ==> values[k] == fixedProduction + jitter[k]
    {
      values[i] := fixedProduction + jitter[i];
    }
    assert values[..] == NuclearHours(fixedProduction, jitter);
    smoothed := Smooth(values[..]);
  }

  const NUCLEAR_PRODUCTION: int := 94
  const COAL_PRODUCTION: int := 80

  /** A plant with a fixed production stays within [fixed, fixed + 5] until 23:00 and yields 0 in the last hour. */
  lemma FixedPlantBounds(fixedProduction: int, jitter: seq<int>, k: int)
    requires Rng.Drawn(jitter, 24, 6) && 0 <= k < MINUTES_PER_DAY
    ensures k < 1380 ==> fixedProduction <= SmoothAt(NuclearHours(fixedProduction, jitter), k) <= fixedProduction + 5
    ensures k >= 1380 ==> SmoothAt(NuclearHours(fixedProduction, jitter), k) == 0
  {
    SmoothBounds(NuclearHours(fixedProduction, jitter), fixedProduction, fixedProduction + 5, k);
  }

  // ---------------------------------------------------------------------------
  // consumption

  const BASE_CONSUMPTION: seq<int> :=
    [35, 32, 30, 30, 30, 32, 36, 50, 57, 54, 48, 48, 51, 57, 50, 45, 40, 50, 65, 80, 82, 65, 53, 45, 40]

  function ConsumptionHours(jitter: seq<int>): (hours: seq<int>)
    requires |jitter| == 25
    ensures |hours| == 25
  {
    seq(25, i requires 0 <= i < 25 => BASE_CONSUMPTION[i] + jitter[i])
  }

  /** generateConsumption: the 25 base values plus a draw in [0, 6) each, smoothed. */
  method GenerateConsumption(jitter: seq<int>) returns (smoothed: array<int>)
    requires Rng.Drawn(jitter, 25, 6)
    ensures fresh(smoothed) && smoothed.Length == MINUTES_PER_DAY
    ensures forall k :: 0 <= k < MINUTES_PER_DAY ==> smoothed[k] == SmoothAt(ConsumptionHours(jitter), k)
  {
    var consumption := new int[25](i requires 0 <= i < 25 => BASE_CONSUMPTION[i]);
    for i := 0 to consumption.Length
      invariant forall k :: 0 <= k < 25 ==> consumption[k] == BASE_CONSUMPTION[k] + (if k < i then jitter[k] else 0)
    {
      consumption[i] := consumption[i] + jitter[i];
    }
    assert consumption[..] == ConsumptionHours(jitter);
    smoothed := Smooth(consumption[..]);
  }

  /** With 25 hourly values every minute of the day is filled: consumption is always between 30 and 87. */
  lemma ConsumptionBounds(jitter: seq<int>, k: int)
    requires Rng.Drawn(jitter, 25, 6) && 0 <= k < MINUTES_PER_DAY
    ensures 30 <= SmoothAt(ConsumptionHours(jitter), k) <= 87
  {
    var hours := ConsumptionHours(jitter);
    assert forall i :: 0 <= i < 25 ==> 30 <= BASE_CONSUMPTION[i] <= 82;
    SmoothBounds(hours, 30, 87, k);
  }

  // ---------------------------------------------------------------------------
  // distributions and the production mix

  /**
   * The share of each plant: either five weights, or (weak) one weight for the
   * renewable and one for the non-renewable plants; the unused ones are -1.
   */
  datatype Distribution = Distribution(
    wind: int, pv: int, water: int, nuclear: int, coal: int,
    renewableEnergy: int, nonrenewableEnergy: int,
    weakDistribution: bool)

  datatype EnergyError = NegativeProportion | DivisionByZero

  /** Distribution(wind, pv, water, nuclear, coal). */
  function NewDistribution(wind: int, pv: int, water: int, nuclear: int, coal: int): (r: Result<Distribution, EnergyError>)
    ensures r.Success? <==> wind >= 0 && pv >= 0 && water >= 0 && nuclear >= 0 && coal >= 0
    ensures r.Success? ==> IsDistribution(r.value) && !r.value.weakDistribution
    ensures r.Failure? ==> r.error == NegativeProportion
  {
    if wind < 0 || pv < 0 || water < 0 || nuclear < 0 || coal < 0 then Failure(NegativeProportion)
    else Success(Distribution(wind, pv, water, nuclear, coal, -1, -1, false))
  }

  /** Distribution(renewable, nonrenewable). */
  function NewWeakDistribution(renewableEnergy: int, nonrenewableEnergy: int): (r: Result<Distribution, EnergyError>)
    ensures r.Success? <==> renewableEnergy >= 0 && nonrenewableEnergy >= 0
    ensures r.Success? ==> IsDistribution(r.value) && r.value.weakDistribution
    ensures r.Failure? ==> r.error == NegativeProportion
  {
    if renewableEnergy < 0 || nonrenewableEnergy < 0 then Failure(NegativeProportion)
    else Success(Distribution(-1, -1, -1, -1, -1, renewableEnergy, nonrenewableEnergy, true))
  }

  /** What the two constructors guarantee: the weights in use are not negative. */
  predicate IsDistribution(d: Distribution)
  {
    if d.weakDistribution then d.renewableEnergy >= 0 && d.nonrenewableEnergy >= 0
    else d.wind >= 0 && d.pv >= 0 && d.water >= 0 && d.nuclear >= 0 && d.coal >= 0
  }

  /** The divisor of the mix. */
  function TotalWeight(d: Distribution): int
  {
    if d.weakDistribution then d.renewableEnergy + d.nonrenewableEnergy
    else d.wind + d.pv + d.water + d.nuclear + d.coal
  }

  /** getSnapshot's production at one minute before the division by 4. */
  function Mix(d: Distribution, wind: int, pv: int, water: int, nuclear: int, coal: int): int
    requires TotalWeight(d) != 0
  {
    if d.weakDistribution then
      TruncDiv((wind + pv + water) * d.renewableEnergy + (nuclear + coal) * d.nonrenewableEnergy, d.renewableEnergy + d.nonrenewableEnergy)
    else
      TruncDiv(wind * d.wind + pv * d.pv + water * d.water + nuclear * d.nuclear + coal * d.coal,
               d.wind + d.pv + d.water + d.nuclear + d.coal)
  }

  lemma MulLe(w: int, a: int, b: int)
    requires w >= 0 && a <= b
    ensures w * a <= w * b
  {
  }

  lemma DivBounds(s: int, w: int, lo: int, hi: int)
    requires w > 0 && w * lo <= s <= w * hi
    ensures lo <= s / w <= hi
  {
    var q, r := s / w, s % w;
    assert s == w * q + r && 0 <= r < w;
    if q > hi {
      MulLe(w, hi + 1, q);
    }
    if q < lo {
      MulLe(w, q + 1, lo);
    }
  }

  /** With five weights the mix is a weighted average: it lies between the smallest and the largest source. */
  lemma MixIsAverage(d: Distribution, wind: int, pv: int, water: int, nuclear: int, coal: int, lo: int, hi: int)
    requires IsDistribution(d) && !d.weakDistribution && TotalWeight(d) != 0
    requires 0 <= lo <= wind <= hi && lo <= pv <= hi && lo <= water <= hi && lo <= nuclear <= hi && lo <= coal <= hi
    ensures lo <= Mix(d, wind, pv, water, nuclear, coal) <= hi
  {
    var w := TotalWeight(d);
    var s := wind * d.wind + pv * d.pv + water * d.water + nuclear * d.nuclear + coal * d.coal;
    WeightedBounds(d.wind, d.pv, d.water, d.nuclear, d.coal, wind, pv, water, nuclear, coal, lo, hi);
    MulLe(w, 0, lo);
    DivBounds(s, w, lo, hi);
    assert Mix(d, wind, pv, water, nuclear, coal) == TruncDiv(s, w);
  }

  /** A sum weighted by non-negative weights lies between the weights' total times either bound. */
  lemma WeightedBounds(a: int, b: int, c: int, e: int, f: int, x: int, y: int, z: int, u: int, v: int, lo: int, hi: int)
    requires a >= 0 && b >= 0 && c >= 0 && e >= 0 && f >= 0
    requires lo <= x <= hi && lo <= y <= hi && lo <= z <= hi && lo <= u <= hi && lo <= v <= hi
    ensures (a + b + c + e + f) * lo <= x * a + y * b + z * c + u * e + v * f <= (a + b + c + e + f) * hi
  {
    MulLe(a, lo, x); MulLe(a, x, hi);
    MulLe(b, lo, y); MulLe(b, y, hi);
    MulLe(c, lo, z); MulLe(c, z, hi);
    MulLe(e, lo, u); MulLe(e, u, hi);
    MulLe(f, lo, v); MulLe(f, v, hi);
    assert (a + b + c + e + f) * lo == a * lo + b * lo + c * lo + e * lo + f * lo;
    assert (a + b + c + e + f) * hi == a * hi + b * hi + c * hi + e * hi + f * hi;
  }

  /** The weak mix adds up the three renewable plants rather than averaging them. */
  lemma WeakMixAddsRenewables(d: Distribution, wind: int, pv: int, water: int, nuclear: int, coal: int)
    requires d.weakDistribution && d.renewableEnergy > 0 && d.nonrenewableEnergy == 0
    requires wind >= 0 && pv >= 0 && water >= 0
    ensures Mix(d, wind, pv, water, nuclear, coal) == wind + pv + water
  {
    DivBounds((wind + pv + water) * d.renewableEnergy, d.renewableEnergy, wind + pv + water, wind + pv + water);
  }

  // ---------------------------------------------------------------------------
  // the snapshot of a day

  datatype Snapshot = Snapshot(totalEnergy: seq<int>, production: seq<int>, consumption: seq<int>, weather: Weather)

  /** What Electricity_Snapshot's constructor establishes: the balance is production less consumption, minute by minute. */
  predicate IsBalanced(s: Snapshot)
  {
    |s.totalEnergy| == |s.production| <= |s.consumption| &&
    forall i :: 0 <= i < |s.production| ==> s.totalEnergy[i] == s.production[i] - s.consumption[i]
  }

  /** Electricity_Snapshot(production, consumption, weather). */
  method NewSnapshot(production: array<int>, consumption: array<int>, weather: Weather) returns (s: Snapshot)
    requires production.Length <= consumption.Length
    ensures s.production == production[..] && s.consumption == consumption[..] && s.weather == weather
    ensures IsBalanced(s)
  {
    var totalEnergy := new int[production.Length];
    for i := 0 to production.Length
      invariant forall k :: 0 <= k < i ==> totalEnergy[k] == production[k] - consumption[k]
    {
      totalEnergy[i] := production[i] - consumption[i];
    }
    s := Snapshot(totalEnergy[..], production[..], consumption[..], weather);
  }

  /** The random draws of one getSnapshot call, in the order the generators take them. */
  datatype DayDraws = DayDraws(
    cloudiness: int, windSpeed: int,
    windSteps: seq<int>, pvSlopes: seq<int>, waterJitter: seq<int>,
    nuclearJitter: seq<int>, coalJitter: seq<int>, consumptionJitter: seq<int>)

  predicate ValidDraws(d: DayDraws)
  {
    0 <= d.cloudiness < 4 && 0 <= d.windSpeed < 3 &&
    Rng.Drawn(d.windSteps, MINUTES_PER_DAY - 1, 10) && Rng.Drawn(d.pvSlopes, 24, 4) &&
    Rng.Drawn(d.waterJitter, MINUTES_PER_DAY, 15) && Rng.Drawn(d.nuclearJitter, 24, 6) &&
    Rng.Drawn(d.coalJitter, 24, 6) && Rng.Drawn(d.consumptionJitter, 25, 6)
  }

  /** A fresh set of draws from the generator. */
  function DrawDay(r: Rng.Random): (res: (DayDraws, Rng.Random))
    ensures ValidDraws(res.0)
  {
    var (c, r1) := Rng.NextInt(r, 4);
    var (w, r2) := Rng.NextInt(r1, 3);
    var (ws, r3) := Rng.NextInts(r2, MINUTES_PER_DAY - 1, 10);
    var (ps, r4) := Rng.NextInts(r3, 24, 4);
    var (hs, r5) := Rng.NextInts(r4, MINUTES_PER_DAY, 15);
    var (ns, r6) := Rng.NextInts(r5, 24, 6);
    var (cs, r7) := Rng.NextInts(r6, 24, 6);
    var (us, r8) := Rng.NextInts(r7, 25, 6);
    (DayDraws(c, w, ws, ps, hs, ns, cs, us), r8)
  }

  /** The day's draws as getSnapshot takes them from the generator. */
  method DrawDayFrom(r: Rng.Random) returns (draws: DayDraws, next: Rng.Random)
    ensures ValidDraws(draws)
  {
    var day := DrawDay(r);
    draws, next := day.0, day.1;
  }

  /** The production at minute i of the day the draws describe. */
  function ProductionAt(d: Distribution, draws: DayDraws, i: int): int
    requires ValidDraws(draws) && TotalWeight(d) != 0 && 0 <= i < MINUTES_PER_DAY
  {
    var weather := WeatherOf(draws.cloudiness, draws.windSpeed);
    TruncDiv(Mix(d,
        WindAt(weather, draws.windSteps, i),
        SmoothAt(PvHours(weather, draws.pvSlopes), i),
        WaterAt(weather, draws.waterJitter, i),
        SmoothAt(NuclearHours(NUCLEAR_PRODUCTION, draws.nuclearJitter), i),
        SmoothAt(NuclearHours(COAL_PRODUCTION, draws.coalJitter), i)), 4)
  }

  /** getSnapshot's two loops over the minutes: the mix, then Java's truncating division by 4. */
  method MixProduction(distribution: Distribution, production: array<int>,
                       wind: array<int>, pv: array<int>, water: array<int>, nuclear: array<int>, coal: array<int>)
    requires TotalWeight(distribution) != 0
    requires production.Length == wind.Length == pv.Length == water.Length == nuclear.Length == coal.Length
    requires production !in {wind, pv, water, nuclear, coal}
    modifies production
    ensures forall k :: 0 <= k < production.Length ==>
              production[k] == TruncDiv(Mix(distribution, wind[k], pv[k], water[k], nuclear[k], coal[k]), 4)
  {
    for i := 0 to production.Length
      invariant forall k :: 0 <= k < i ==> production[k] == Mix(distribution, wind[k], pv[k], water[k], nuclear[k], coal[k])
    {
      production[i] := Mix(distribution, wind[i], pv[i], water[i], nuclear[i], coal[i]);
    }
    for i := 0 to production.Length
      invariant forall k :: 0 <= k < production.Length ==>
                  production[k] == var m := Mix(distribution, wind[k], pv[k], water[k], nuclear[k], coal[k]); if k < i then TruncDiv(m, 4) else m
    {
      production[i] := TruncDiv(production[i], 4);
    }
  }

  /**
   * getSnapshot: generates the day's plant outputs and consumption, mixes the outputs
   * by the distribution and divides by 4; a zero total weight divides by zero.
   */
  method GetSnapshot(distribution: Distribution, draws: DayDraws) returns (r: Result<Snapshot, EnergyError>)
    requires IsDistribution(distribution) && ValidDraws(draws)
    ensures r.Failure? <==> TotalWeight(distribution) == 0
    ensures r.Failure? ==> r.error == DivisionByZero
    ensures r.Success? ==>
              var s := r.value;
              IsBalanced(s) && |s.production| == |s.consumption| == MINUTES_PER_DAY &&
              s.weather == WeatherOf(draws.cloudiness, draws.windSpeed) &&
              (forall i :: 0 <= i < MINUTES_PER_DAY ==> s.production[i] == ProductionAt(distribution, draws, i)) &&
              (forall i :: 0 <= i < MINUTES_PER_DAY ==> s.consumption[i] == SmoothAt(ConsumptionHours(draws.consumptionJitter), i))
  {
    var weather := WeatherOf(draws.cloudiness, draws.windSpeed);
    var production := new int[MINUTES_PER_DAY];
    var wind := WindFarm(weather, draws.windSteps);
    var pv := PvFarm(weather, draws.pvSlopes);
    var water := WaterPowerPlant(weather, draws.waterJitter);
    var nuclear := NuclearPowerPlant(NUCLEAR_PRODUCTION, draws.nuclearJitter);
    var coal := NuclearPowerPlant(COAL_PRODUCTION, draws.coalJitter);
    if TotalWeight(distribution) == 0 {
      return Failure(DivisionByZero);
    }
    MixProduction(distribution, production, wind, pv, water, nuclear, coal);
    assert forall k :: 0 <= k < MINUTES_PER_DAY ==> production[k] == ProductionAt(distribution, draws, k);
    var consumption := GenerateConsumption(draws.consumptionJitter);
    var s := NewSnapshot(production, consumption, weather);
    return Success(s);
  }

  /** Under a five-weight distribution every minute's production is between 0 and 150 / 4, the sunny photovoltaic peak. */
  lemma ProductionBounds(d: Distribution, draws: DayDraws, i: int)
    requires IsDistribution(d) && !d.weakDistribution && TotalWeight(d) != 0
    requires ValidDraws(draws) && 0 <= i < MINUTES_PER_DAY
    ensures 0 <= ProductionAt(d, draws, i) <= 37
  {
    var weather := WeatherOf(draws.cloudiness, draws.windSpeed);
    WindBounds(weather, draws.windSteps, i);
    var pvHours := PvHours(weather, draws.pvSlopes);
    forall h | 0 <= h < 24 ensures 0 <= pvHours[h] <= 150 {
      PvBounds(weather, draws.pvSlopes, h);
    }
    SmoothBounds(pvHours, 0, 150, i);
    WaterBounds(weather, draws.waterJitter, i);
    assert Scale(84, WaterMultiplier(weather.cloudiness)) <= 109;
    assert Scale(70, WaterMultiplier(weather.cloudiness)) >= 0;
    FixedPlantBounds(NUCLEAR_PRODUCTION, draws.nuclearJitter, i);
    FixedPlantBounds(COAL_PRODUCTION, draws.coalJitter, i);
    MixIsAverage(d,
        WindAt(weather, draws.windSteps, i),
        SmoothAt(pvHours, i),
        WaterAt(weather, draws.waterJitter, i),
        SmoothAt(NuclearHours(NUCLEAR_PRODUCTION, draws.nuclearJitter), i),
        SmoothAt(NuclearHours(COAL_PRODUCTION, draws.coalJitter), i),
        0, 150);
  }
}
