/**
 * The simulation clock: a day/hour/minute counter kept in a three-element int array,
 * written and read in the "dd-hh:mm" text form.
 */
module Clock {
  import opened Wrappers
  import opened JavaMath
  import opened JavaText

  /** The two exceptions setTime can raise. */
  datatype TimeError = MalformedParameters | NumberFormat

  const MINUTES_PER_DAY: int := 1440

  // ---------------------------------------------------------------------------
  // the [days, hours, minutes] triple as a value

  /** The value of a [days, hours, minutes] triple in minutes. */
  function TotalMinutes(t: seq<int>): int
    requires |t| == 3
  {
    t[0] * 1440 + t[1] * 60 + t[2]
  }

  /** Hours in [0, 24) and minutes in [0, 60). */
  predicate IsNormal(t: seq<int>)
    requires |t| == 3
  {
    0 <= t[1] < 24 && 0 <= t[2] < 60
  }

  /** How many times updateTime's inner loop takes `unit` away from a field holding `v`. */
  function Carries(v: int, unit: int): int
    requires unit > 0
  {
    if v >= 0 then v / unit else 0
  }

  /** The triple after the minute carry, before the hour carry. */
  function CarryMinutes(t: seq<int>): (c: seq<int>)
    requires |t| == 3
    ensures |c| == 3
  {
    var carry := Carries(t[2], 60);
    [t[0], t[1] + carry, t[2] - 60 * carry]
  }

  /** The triple after the hour carry. */
  function CarryHours(t: seq<int>): (c: seq<int>)
    requires |t| == 3
    ensures |c| == 3
  {
    var carry := Carries(t[1], 24);
    [t[0] + carry, t[1] - 24 * carry, t[2]]
  }

  /** What updateTime makes of a triple: minutes carried into hours, then hours into days. */
  function Normalize(t: seq<int>): (n: seq<int>)
    requires |t| == 3
    ensures |n| == 3
  {
    CarryHours(CarryMinutes(t))
  }

  /** Component-wise sum, as addTime(int[]) adds the delta to the fields. */
  function AddTriple(t: seq<int>, delta: seq<int>): (s: seq<int>)
    requires |t| == 3 && |delta| == 3
    ensures |s| == 3
  {
    [t[0] + delta[0], t[1] + delta[1], t[2] + delta[2]]
  }

  lemma DivUnique(a: int, b: int, q: int)
    requires b > 0 && 0 <= a - b * q < b
    ensures a / b == q
  {
    var r := a - b * q;
    var q0, r0 := a / b, a % b;
    assert a == b * q0 + r0;
    assert b * (q - q0) == r0 - r;
    if q > q0 {
      MulAtLeast(b, q - q0);
    } else if q < q0 {
      MulAtLeast(b, q0 - q);
    }
  }

  lemma MulAtLeast(b: int, k: int)
    requires b > 0 && k >= 1
    ensures b * k >= b
  {
  }

  /** Normalising never changes the total number of minutes. */
  lemma NormalizeKeepsTotal(t: seq<int>)
    requires |t| == 3
    ensures TotalMinutes(Normalize(t)) == TotalMinutes(t)
  {
    var c := CarryMinutes(t);
    assert TotalMinutes(c) == TotalMinutes(t);
    assert TotalMinutes(CarryHours(c)) == TotalMinutes(c);
  }

  /** Fields that are not negative come out normal; negative fields are left as they are. */
  lemma NormalizeBounds(t: seq<int>)
    requires |t| == 3
    ensures t[1] >= 0 && t[2] >= 0 ==> IsNormal(Normalize(t)) && Normalize(t)[0] >= t[0]
    ensures t[2] < 0 ==> Normalize(t)[2] == t[2]
    ensures t[1] + Carries(t[2], 60) < 0 ==> Normalize(t)[1] == t[1] + Carries(t[2], 60) && Normalize(t)[0] == t[0]
  {
  }

  /** A normal triple is its own normal form. */
  lemma NormalizeFixes(t: seq<int>)
    requires |t| == 3 && IsNormal(t)
    ensures Normalize(t) == t
  {
  }

  /** A normal triple is determined by its total: hours and minutes are the remainders. */
  lemma NormalForm(t: seq<int>)
    requires |t| == 3 && IsNormal(t)
    ensures t[2] == TotalMinutes(t) % 60
    ensures t[1] * 60 + t[2] == TotalMinutes(t) % 1440
    ensures t[0] == TotalMinutes(t) / 1440
  {
    var total := TotalMinutes(t);
    DivUnique(total, 1440, t[0]);
    assert total % 1440 == total - 1440 * t[0];
    DivUnique(total, 60, t[0] * 24 + t[1]);
    assert total % 60 == total - 60 * (t[0] * 24 + t[1]);
  }

  /** Adding a delta and normalising adds the delta's minutes to the total. */
  lemma AddKeepsTotals(t: seq<int>, delta: seq<int>)
    requires |t| == 3 && |delta| == 3
    ensures TotalMinutes(Normalize(AddTriple(t, delta))) == TotalMinutes(t) + TotalMinutes(delta)
  {
    NormalizeKeepsTotal(AddTriple(t, delta));
  }

  // ---------------------------------------------------------------------------
  // the text form "dd-hh:mm"

  /** "0" before a one-character field, as asString pads it. */
  function Pad(field: string): string
  {
    if |field| == 1 then "0" + field else field
  }

  /** asString of a triple. */
  function Format(t: seq<int>): string
    requires |t| == 3
  {
    Pad(IntToString(t[0])) + "-" + Pad(IntToString(t[1])) + ":" + Pad(IntToString(t[2]))
  }

  /**
   * setTime's reading of a "dd-hh:mm" string before updateTime: the triple, or the
   * exception it raises (a missing part or a part not two characters long is
   * malformed; two characters that are not a number fail to parse).
   */
  function ParseTime(s: string): (r: Result<seq<int>, TimeError>)
    ensures r.Success? ==> |r.value| == 3 && r.value[0] >= 0 && r.value[1] >= 0 && r.value[2] >= 0
  {
    var parts := Split(s, '-');
    if |parts| < 2 then Failure(MalformedParameters)
    else
      var day := parts[0];
      var hourAndMinute := Split(parts[1], ':');
      if |hourAndMinute| < 2 then Failure(MalformedParameters)
      else
        var hour := hourAndMinute[0];
        var minute := hourAndMinute[1];
        if |day| != 2 || |hour| != 2 || |minute| != 2 || |hourAndMinute| != 2 then Failure(MalformedParameters)
        else
          match (ParseInt(day), ParseInt(hour), ParseInt(minute))
          case (Some(d), Some(h), Some(m)) =>
            SplitAvoids(parts[1], ':', '-');
            Success([d, h, m])
          case _ => Failure(NumberFormat)
  }

  lemma TwoDigitField(v: int)
    requires 0 <= v <= 99
    ensures |Pad(IntToString(v))| == 2
    ensures ParseInt(Pad(IntToString(v))) == Some(v)
    ensures '-' !in Pad(IntToString(v)) && ':' !in Pad(IntToString(v))
  {
    var s := IntToString(v);
    NatToStringNoSign(v);
    ParseIntToString(v);
    if v < 10 {
      var p := "0" + s;
      assert p[1..] == s;
      assert p[..1] == "0";
      assert DigitsValue(p) == DigitsValue(p[..1]) * 10 + DigitValue(p[1]);
      assert DigitsValue(s) == DigitValue(s[0]);
    } else {
      assert |s| == 2 by {
        if v >= 10 {
          assert NatToString(v) == NatToString(v / 10) + [DigitChar(v % 10)];
        }
      }
    }
  }

  /** Reading back the text of a normal time with at most 99 days gives the same triple. */
  lemma ParseFormat(t: seq<int>)
    requires |t| == 3 && IsNormal(t) && 0 <= t[0] <= 99
    ensures ParseTime(Format(t)) == Success(t)
    ensures |Format(t)| == 8
  {
    var d, h, m := Pad(IntToString(t[0])), Pad(IntToString(t[1])), Pad(IntToString(t[2]));
    TwoDigitField(t[0]);
    TwoDigitField(t[1]);
    TwoDigitField(t[2]);
    assert Format(t) == d + ['-'] + (h + [':'] + m);
    assert '-' !in h + [':'] + m;
    SplitTwo(d, '-', h + [':'] + m);
    SplitTwo(h, ':', m);
    assert Split(Format(t), '-') == [d, h + [':'] + m];
    assert Split(h + [':'] + m, ':') == [h, m];
    assert ParseInt(d) == Some(t[0]) && ParseInt(h) == Some(t[1]) && ParseInt(m) == Some(t[2]);
    var parts := Split(Format(t), '-');
    assert parts[0] == d && parts[1] == h + [':'] + m;
    var hm := Split(parts[1], ':');
    assert hm[0] == h && hm[1] == m && |hm| == 2;
    assert (ParseInt(d), ParseInt(h), ParseInt(m)) == (Some(t[0]), Some(t[1]), Some(t[2]));
    assert [t[0], t[1], t[2]] == t;
  }

  /** "00-00:00", the no-argument constructor's time. */
  lemma ParseMidnight()
    ensures ParseTime("00-00:00") == Success([0, 0, 0])
  {
    ParseFormat([0, 0, 0]);
    assert IntToString(0) == "0";
    assert Format([0, 0, 0]) == "00-00:00";
  }

  /** "01-00:00", the grid's starting time. */
  lemma ParseDayOne()
    ensures ParseTime("01-00:00") == Success([1, 0, 0])
  {
    ParseFormat([1, 0, 0]);
    assert IntToString(0) == "0";
    assert IntToString(1) == "1";
    assert Format([1, 0, 0]) == "01-00:00";
  }

  // ---------------------------------------------------------------------------
  // the Time object

  class Time {
    /** {days, hours, minutes} */
    var time: array<int>

    ghost predicate Valid()
      reads this
    {
      time.Length == 3
    }

    function Value(): (t: seq<int>)
      reads this, time
      requires Valid()
      ensures |t| == 3
    {
      time[..]
    }

    /** A Time holding the field initialiser {1, 0, 0}. */
    constructor Initial()
      ensures Valid() && fresh(time) && Value() == [1, 0, 0]
    {
      time := new int[][1, 0, 0];
    }

    /** Time(): the time "00-00:00". */
    constructor ()
      ensures Valid() && fresh(time) && Value() == [0, 0, 0]
    {
      time := new int[][0, 0, 0];
    }

    /**
     * Time(String): a malformed string is reported and leaves the initial {1, 0, 0};
     * a NumberFormatException escapes the constructor.
     */
    static method Parse(initialTime: string) returns (r: Result<Time, TimeError>)
      ensures r.Failure? <==> ParseTime(initialTime) == Failure(NumberFormat)
      ensures r.Failure? ==> r.error == NumberFormat
      ensures r.Success? ==> fresh(r.value) && fresh(r.value.time) && r.value.Valid()
      ensures r.Success? && ParseTime(initialTime).Success? ==>
                r.value.Value() == Normalize(ParseTime(initialTime).value) && IsNormal(r.value.Value())
      ensures r.Success? && ParseTime(initialTime).Failure? ==> r.value.Value() == [1, 0, 0]
    {
      var t := new Time.Initial();
      var outcome := t.SetTime(initialTime);
      if outcome.Fail? && outcome.error == NumberFormat {
        return Failure(NumberFormat);
      }
      return Success(t);
    }

    /** setTime: parses "dd-hh:mm" and normalises; on an exception the time is untouched. */
    method SetTime(s: string) returns (r: Outcome<TimeError>)
      requires Valid()
      modifies this
      ensures Valid()
      ensures ParseTime(s).Failure? ==> r == Fail(ParseTime(s).error) && time == old(time)
      ensures ParseTime(s).Success? ==> r == Pass && fresh(time)
      ensures ParseTime(s).Success? ==> Value() == Normalize(ParseTime(s).value) && IsNormal(Value())
    {
      var parsed := ParseTime(s);
      if parsed.Failure? {
        return Fail(parsed.error);
      }
      var t := parsed.value;
      time := new int[][t[0], t[1], t[2]];
      UpdateTime();
      NormalizeBounds(t);
      return Pass;
    }

    /** asString: each field as a decimal numeral, padded to two characters when it has one. */
    method AsString() returns (s: string)
      requires Valid()
      ensures s == Format(Value())
    {
      var fields := new string[][IntToString(time[0]), IntToString(time[1]), IntToString(time[2])];
      for i := 0 to 3
        invariant forall k :: 0 <= k < 3 ==> fields[k] == (if k < i then Pad(IntToString(time[k])) else IntToString(time[k]))
      {
        if |fields[i]| == 1 {
          fields[i] := "0" + fields[i];
        }
      }
      s := fields[0] + "-" + fields[1] + ":" + fields[2];
    }

    function AsIntArr(): (t: seq<int>)
      reads this, time
      requires Valid()
      ensures t == Value()
    {
      time[..]
    }

    function InMinutes(): int
      reads this, time
      requires Valid()
    {
      time[0] * 1440 + time[1] * 60 + time[2]
    }

    function InMinutesIsolated(): int
      reads this, time
      requires Valid()
    {
      time[2]
    }

    /** The time in hours, the minutes as a fraction. */
    function InHours(): (h: real)
      reads this, time
      requires Valid()
      ensures h == InMinutes() as real / 60.0
    {
      (time[0] * 24 + time[1]) as real + time[2] as real / 60.0
    }

    function InHoursIsolated(): int
      reads this, time
      requires Valid()
    {
      time[1]
    }

    /** Minutes since the start of the current day. */
    function InMinutesWithHoursIsolated(): (m: int)
      reads this, time
      requires Valid()
      ensures IsNormal(Value()) ==> 0 <= m < 1440 && m == InMinutes() % 1440
    {
      if IsNormal(Value()) then NormalForm(Value()); time[1] * 60 + time[2]
      else time[1] * 60 + time[2]
    }

    /** The time in days, hours and minutes as fractions. */
    function InDays(): (d: real)
      reads this, time
      requires Valid()
      ensures d == InMinutes() as real / 1440.0
    {
      time[0] as real + time[1] as real / 24.0 + time[2] as real / 60.0 / 24.0
    }

    /** inDaysIsolated, which returns the minute field. */
    function InDaysIsolated(): (d: int)
      reads this, time
      requires Valid()
      ensures d == InMinutesIsolated()
    {
      time[2]
    }

    /** addTime(int[]): adds {days, hours, minutes} and normalises; any other length is malformed. */
    method AddDelta(delta: seq<int>) returns (r: Outcome<TimeError>)
      requires Valid()
      modifies time
      ensures Valid()
      ensures |delta| != 3 ==> r == Fail(MalformedParameters) && Value() == old(Value())
      ensures |delta| == 3 ==> r == Pass && Value() == Normalize(AddTriple(old(Value()), delta))
      ensures |delta| == 3 ==> InMinutes() == old(InMinutes()) + TotalMinutes(delta)
    {
      if |delta| != 3 {
        return Fail(MalformedParameters);
      }
      ghost var before := Value();
      time[2] := time[2] + delta[2];
      time[1] := time[1] + delta[1];
      time[0] := time[0] + delta[0];
      assert Value() == AddTriple(before, delta);
      UpdateTime();
      AddKeepsTotals(before, delta);
      return Pass;
    }

    /** addTime(int): adds minutes; the time stays normal while minutes and hours are not negative. */
    method AddMinutes(minutes: int)
      requires Valid()
      modifies time
      ensures Valid()
      ensures Value() == Normalize(AddTriple(old(Value()), [0, 0, minutes]))
      ensures InMinutes() == old(InMinutes()) + minutes
      ensures old(IsNormal(Value())) && old(time[2]) + minutes >= 0 ==> IsNormal(Value()) && time[0] >= old(time[0])
    {
      ghost var before := Value();
      var r := AddDelta([0, 0, minutes]);
      NormalizeBounds(AddTriple(before, [0, 0, minutes]));
    }

    /** updateTime: carries 60 minutes into an hour and 24 hours into a day, as often as they fit. */
    method UpdateTime()
      requires Valid()
      modifies time
      ensures Valid()
      ensures Value() == Normalize(old(Value()))
    {
      var counters := new int[][0, 0];
      var i := 60;
      while i > 0
        invariant i == 60 || i == 24 || i == -12
        invariant counters.Length == 2
        invariant i == 60 ==> time[..] == old(time[..]) && counters[1] == 0 && counters[0] == 0
        invariant i == 24 ==> time[..] == CarryMinutes(old(time[..])) && counters[0] == 0
        invariant i == -12 ==> time[..] == Normalize(old(time[..]))
        decreases i
      {
        ghost var before := time[..];
        var temp := time[i / 24];
        ghost var start := temp;
        while temp >= i
          invariant counters[i / 24 - 1] >= 0
          invariant temp == start - i * counters[i / 24 - 1]
          invariant start >= 0 ==> temp >= 0
          invariant start < 0 ==> counters[i / 24 - 1] == 0
          invariant i == 60 ==> counters[0] == 0
          invariant time[..] == before
        {
          temp := temp - i;
          counters[i / 24 - 1] := counters[i / 24 - 1] + 1;
        }
        CarryCount(start, i, counters[i / 24 - 1]);
        time[i / 24 - 1] := time[i / 24 - 1] + counters[i / 24 - 1];
        time[i / 24] := time[i / 24] - i * counters[i / 24 - 1];
        i := i - 36;
      }
    }
  }

  lemma CarryCount(start: int, unit: int, count: int)
    requires unit > 0 && count >= 0
    requires start >= 0 ==> 0 <= start - unit * count < unit
    requires start < 0 ==> count == 0
    ensures count == Carries(start, unit)
  {
    if start >= 0 {
      DivUnique(start, unit, count);
    }
  }
}
