/**
 * The colour providers of the image library (Bitmap.ColorProvider): a Color, or a
 * Pattern mixing two providers. Modelled as tree values: the fast-pattern syntax
 * that sets a pattern's fields from its name, the validation of a pattern, and the
 * auto mode that fits a pattern's range to the area it fills.
 */
module Patterns {
  import opened Wrappers
  import opened JavaText
  import opened Pixels

  /** The settable fields of a Pattern; `vertical` is always the negation of `horizontal`. */
  datatype Settings = Settings(horizontal: bool, shift: bool, from: int, to: int, auto: bool, opacity: real)

  datatype Provider =
    | Color(rgb: Rgb)
    | Pattern(slot1: Provider, slot2: Provider, name: string, settings: Settings)

  /** The names validatePattern knows. */
  const PATTERN_NAMES: set<string> := {"grid", "checkerboard", "stripes", "gradient", "wave", "cells", "bigcells",
    "dotgrid", "biggrid", "hugegrid", "superhugegrid", "flowergrid", "space", "dotlines", "custom", "opacity",
    "normal", "smoothed_function"}

  // ---------------------------------------------------------------------------
  // validatePattern

  /** validatePattern: the name is checked first, then from <= to, then from >= 0, then the opacity. */
  function ValidatePattern(name: string, s: Settings): (r: Outcome<BitmapError>)
    ensures r.Pass? <==> name in PATTERN_NAMES && 0 <= s.from <= s.to && s.opacity >= 0.0
    ensures name !in PATTERN_NAMES ==> r == Fail(UnknownPattern)
    ensures name in PATTERN_NAMES && s.from > s.to ==> r == Fail(FromAfterTo)
    ensures name in PATTERN_NAMES && s.from <= s.to && s.from < 0 ==> r == Fail(NegativeFrom)
    ensures name in PATTERN_NAMES && 0 <= s.from <= s.to && s.opacity < 0.0 ==> r == Fail(NegativeOpacity)
  {
    if name !in PATTERN_NAMES then Fail(UnknownPattern)
    else if s.from > s.to then Fail(FromAfterTo)
    else if s.from < 0 then Fail(NegativeFrom)
    else if s.opacity < 0.0 then Fail(NegativeOpacity)
    else Pass
  }

  // ---------------------------------------------------------------------------
  // evaluateFastPattern

  /** The characters that end the name in a fast pattern. */
  predicate IsMarker(c: char)
  {
    c == 'H' || c == 'V' || c == '>' || c == '='
  }

  /** The index of the first marker, or |s| when there is none. */
  function FirstMarker(s: string): (n: nat)
    ensures n <= |s|
    ensures forall i :: 0 <= i < n ==> !IsMarker(s[i])
    ensures n < |s| ==> IsMarker(s[n])
  {
    if s == [] || IsMarker(s[0]) then 0 else 1 + FirstMarker(s[1..])
  }

  /** No opacity after '=': the opacity is parsed from the whole text after it, or the value is refused. */
  function OpacityValue(value: string, s: Settings): Result<Settings, BitmapError>
  {
    match ParseDecimal(value)
    case Some(v) => Success(s.(opacity := v))
    case None => Failure(BadFastPatternValue)
  }

  /**
   * The text after an '=': "auto" turns auto mode on; otherwise it is split at '-' and
   * from and to are parsed from the first two parts; if either parse fails (a from
   * already parsed stays set) the whole text is parsed as the opacity.
   */
  function AssignedValue(value: string, s: Settings): Result<Settings, BitmapError>
  {
    if value == "auto" then Success(s.(auto := true))
    else
      var parts := Split(value, '-');
      if |parts| >= 1 && ParseInt(parts[0]).Some? then
        var withFrom := s.(from := ParseInt(parts[0]).value);
        if |parts| >= 2 && ParseInt(parts[1]).Some? then Success(withFrom.(to := ParseInt(parts[1]).value))
        else OpacityValue(value, withFrom)
      else OpacityValue(value, s)
  }

  /** The effect of the character at index c of the fast pattern. */
  function FastStep(p: string, c: nat, s: Settings): Result<Settings, BitmapError>
    requires c < |p|
  {
    if p[c] == 'H' || p[c] == 'V' then Success(s.(horizontal := p[c] == 'H'))
    else if p[c] == '>' then Success(s.(shift := true))
    else if p[c] == '=' then AssignedValue(p[c + 1..], s)
    else Success(s)
  }

  /** The fields after the first n characters of the fast pattern have been scanned. */
  function FastFold(p: string, n: nat, s: Settings): Result<Settings, BitmapError>
    requires n <= |p|
  {
    if n == 0 then Success(s)
    else
      match FastFold(p, n - 1, s)
      case Success(t) => FastStep(p, n - 1, t)
      case Failure(e) => Failure(e)
  }

  /** A pattern name together with the fields a fast pattern set. */
  datatype Evaluated = Evaluated(name: string, settings: Settings)

  /** evaluateFastPattern: the name before the first marker and the fields every character set. */
  function FastPatternOf(p: string, s: Settings): Result<Evaluated, BitmapError>
  {
    match FastFold(p, |p|, s)
    case Success(t) => Success(Evaluated(p[..FirstMarker(p)], t))
    case Failure(e) => Failure(e)
  }

  /**
   * evaluateFastPattern: scans every character, recording the position of the first
   * marker, letting H/V set the orientation, '>' the shift and '=' the value after it.
   */
  method EvaluateFastPattern(p: string, s: Settings) returns (r: Result<Evaluated, BitmapError>)
    ensures r == FastPatternOf(p, s)
  {
    var patternLength := -1;
    var current := s;
    for c := 0 to |p|
      invariant FastFold(p, c, s) == Success(current)
      invariant patternLength == (if FirstMarker(p) < c then FirstMarker(p) else -1)
    {
      FastFoldNext(p, c, s);
      if p[c] == 'H' || p[c] == 'V' {
        if patternLength == -1 { patternLength := c; }
        current := current.(horizontal := p[c] == 'H');
      } else if p[c] == '>' {
        if patternLength == -1 { patternLength := c; }
        current := current.(shift := true);
      } else if p[c] == '=' {
        if patternLength == -1 { patternLength := c; }
        var next := AssignedValue(p[c + 1..], current);
        if next.Failure? {
          FastFoldFailureSticks(p, c + 1, |p|, s);
          return Failure(next.error);
        }
        current := next.value;
      }
    }
    if patternLength == -1 {
      assert p[..|p|] == p;
      return Success(Evaluated(p, current));
    }
    return Success(Evaluated(p[..patternLength], current));
  }

  /** One more character scanned is one more step. */
  lemma FastFoldNext(p: string, c: nat, s: Settings)
    requires c < |p| && FastFold(p, c, s).Success?
    ensures FastFold(p, c + 1, s) == FastStep(p, c, FastFold(p, c, s).value)
  {
  }

  /** A failure at one character is the failure of the whole scan. */
  lemma {:induction false} FastFoldFailureSticks(p: string, n: nat, m: nat, s: Settings)
    requires n <= m <= |p| && FastFold(p, n, s).Failure?
    ensures FastFold(p, m, s) == FastFold(p, n, s)
    decreases m - n
  {
    if m > n {
      FastFoldFailureSticks(p, n, m - 1, s);
    }
  }

  /** After a successful scan, shift is set iff it was set before or the scanned text holds a '>'. */
  lemma {:induction false} FastFoldShift(p: string, n: nat, s: Settings)
    requires n <= |p| && FastFold(p, n, s).Success?
    ensures FastFold(p, n, s).value.shift <==> s.shift || '>' in p[..n]
  {
    if n > 0 {
      assert FastFold(p, n - 1, s).Success?;
      FastFoldShift(p, n - 1, s);
      assert p[..n] == p[..n - 1] + [p[n - 1]];
    }
  }

  /** After a successful scan the orientation is that of the last 'H' or 'V', if there is one. */
  lemma {:induction false} FastFoldOrientation(p: string, n: nat, s: Settings)
    requires n <= |p| && FastFold(p, n, s).Success?
    ensures (forall i :: 0 <= i < n ==> p[i] != 'H' && p[i] != 'V') ==> FastFold(p, n, s).value.horizontal == s.horizontal
    ensures forall i :: 0 <= i < n && (p[i] == 'H' || p[i] == 'V') && (forall j :: i < j < n ==> p[j] != 'H' && p[j] != 'V') ==>
              FastFold(p, n, s).value.horizontal == (p[i] == 'H')
  {
    if n > 0 {
      assert FastFold(p, n - 1, s).Success?;
      FastFoldOrientation(p, n - 1, s);
    }
  }

  /** Characters that are not markers change nothing. */
  lemma {:induction false} FastFoldPlain(p: string, n: nat, s: Settings)
    requires n <= |p| && forall i :: 0 <= i < n ==> !IsMarker(p[i])
    ensures FastFold(p, n, s) == Success(s)
  {
    if n > 0 {
      FastFoldPlain(p, n - 1, s);
    }
  }

  /** A plain pattern name passes through unchanged. */
  lemma FastPatternPlain(name: string, s: Settings)
    requires forall i :: 0 <= i < |name| ==> !IsMarker(name[i])
    ensures FastPatternOf(name, s) == Success(Evaluated(name, s))
  {
    FastFoldPlain(name, |name|, s);
    assert name[..|name|] == name;
  }

  /** The characters after the '=' are scanned too; when none of them is a marker they change nothing. */
  lemma {:induction false} FastFoldTail(p: string, k: nat, n: nat, s: Settings)
    requires k <= n <= |p| && FastFold(p, k, s).Success?
    requires forall i :: k <= i < n ==> !IsMarker(p[i])
    ensures FastFold(p, n, s) == FastFold(p, k, s)
    decreases n - k
  {
    if n > k {
      FastFoldTail(p, k, n - 1, s);
    }
  }

  /** A name followed by "=" and a value without markers: the name, with the fields the value assigns. */
  lemma FastPatternAssigned(name: string, value: string, s: Settings)
    requires forall i :: 0 <= i < |name| ==> !IsMarker(name[i])
    requires forall i :: 0 <= i < |value| ==> !IsMarker(value[i])
    ensures var p := name + "=" + value;
      FastPatternOf(p, s) == match AssignedValue(value, s)
                             case Success(t) => Success(Evaluated(name, t))
                             case Failure(e) => Failure(e)
  {
    var p := name + "=" + value;
    var k := |name| + 1;
    forall i | 0 <= i < |name|
      ensures p[i] == name[i] && !IsMarker(p[i])
    {
      assert p[i] == name[i];
    }
    assert p[|name|] == '=';
    assert p[..|name|] == name;
    FastFoldPlain(p, |name|, s);
    assert p[k..] == value;
    FastFoldNext(p, |name|, s);
    assert FastFold(p, k, s) == AssignedValue(value, s);
    assert FirstMarker(p) == |name|;
    if AssignedValue(value, s).Success? {
      forall i | k <= i < |p|
        ensures !IsMarker(p[i])
      {
        assert p[i] == value[i - k];
      }
      FastFoldTail(p, k, |p|, s);
    } else {
      FastFoldFailureSticks(p, k, |p|, s);
    }
  }

  /** "name=auto" turns auto mode on and changes nothing else. */
  lemma FastPatternAuto(name: string, s: Settings)
    requires forall i :: 0 <= i < |name| ==> !IsMarker(name[i])
    ensures FastPatternOf(name + "=auto", s) == Success(Evaluated(name, s.(auto := true)))
  {
    assert forall i :: 0 <= i < |"auto"| ==> !IsMarker("auto"[i]);
    assert name + "=" + "auto" == name + "=auto";
    FastPatternAssigned(name, "auto", s);
  }

  lemma NumeralHasNoMarker(n: nat)
    ensures forall i :: 0 <= i < |NatToString(n)| ==> !IsMarker(NatToString(n)[i]) && NatToString(n)[i] != '-'
  {
    var d := NatToString(n);
    assert forall i :: 0 <= i < |d| ==> IsDigit(d[i]);
  }

  /** The value "a-b" for 32-bit naturals a and b assigns from and to and nothing else. */
  lemma AssignedRange(a: nat, b: nat, s: Settings)
    requires a <= 0x7fff_ffff && b <= 0x7fff_ffff
    ensures forall i :: 0 <= i < |NatToString(a) + "-" + NatToString(b)| ==> !IsMarker((NatToString(a) + "-" + NatToString(b))[i])
    ensures AssignedValue(NatToString(a) + "-" + NatToString(b), s) == Success(s.(from := a, to := b))
  {
    var da, db := NatToString(a), NatToString(b);
    var value := da + "-" + db;
    NumeralHasNoMarker(a);
    NumeralHasNoMarker(b);
    assert forall i :: 0 <= i < |value| ==> !IsMarker(value[i]) by {
      assert forall i :: 0 <= i < |da| ==> value[i] == da[i];
      assert forall i :: |da| < i < |value| ==> value[i] == db[i - |da| - 1];
    }
    assert '-' !in da && '-' !in db by {
      assert forall i :: 0 <= i < |da| ==> da[i] != '-';
      assert forall i :: 0 <= i < |db| ==> db[i] != '-';
    }
    SplitTwo(da, '-', db);
    assert value != "auto" by { assert value[0] == da[0] && IsDigit(da[0]); }
    ParseIntToString(a);
    ParseIntToString(b);
  }

  /** "name=a-b" for 32-bit naturals a and b sets from to a and to to b. */
  lemma FastPatternRange(name: string, a: nat, b: nat, s: Settings)
    requires forall i :: 0 <= i < |name| ==> !IsMarker(name[i])
    requires a <= 0x7fff_ffff && b <= 0x7fff_ffff
    ensures FastPatternOf(name + "=" + (NatToString(a) + "-" + NatToString(b)), s) ==
            Success(Evaluated(name, s.(from := a, to := b)))
  {
    AssignedRange(a, b, s);
    FastPatternAssigned(name, NatToString(a) + "-" + NatToString(b), s);
  }

  // ---------------------------------------------------------------------------
  // the Pattern constructor

  /**
   * The Pattern constructor with a Color or Pattern in each slot: the fast-pattern
   * syntax is evaluated when asked for, then the resulting name and fields are
   * validated.
   */
  method NewPattern(slot1: Provider, slot2: Provider, pattern: string, s: Settings, fastPattern: bool) returns (r: Result<Provider, BitmapError>)
    ensures fastPattern && FastPatternOf(pattern, s).Failure? ==> r == Failure(FastPatternOf(pattern, s).error)
    ensures var e := if fastPattern then FastPatternOf(pattern, s) else Success(Evaluated(pattern, s));
      e.Success? ==>
        r == match ValidatePattern(e.value.name, e.value.settings)
             case Pass => Success(Pattern(slot1, slot2, e.value.name, e.value.settings))
             case Fail(err) => Failure(err)
  {
    var evaluated := Evaluated(pattern, s);
    if fastPattern {
      var fast := EvaluateFastPattern(pattern, s);
      if fast.Failure? {
        return Failure(fast.error);
      }
      evaluated := fast.value;
    }
    var valid := ValidatePattern(evaluated.name, evaluated.settings);
    if valid.Fail? {
      return Failure(valid.error);
    }
    return Success(Pattern(slot1, slot2, evaluated.name, evaluated.settings));
  }

  // ---------------------------------------------------------------------------
  // setAutoPattern and unlockAutoPattern

  /** Which slot of a Pattern a step of a path follows. */
  datatype Slot = First | Second

  /** The position of a Pattern inside a provider tree, from the root. */
  type Path = seq<Slot>

  /** Each path with `slot` put in front. */
  function Under(slot: Slot, paths: seq<Path>): (r: seq<Path>)
    ensures |r| == |paths| && forall i :: 0 <= i < |paths| ==> r[i] == [slot] + paths[i]
  {
    if paths == [] then [] else [[slot] + paths[0]] + Under(slot, paths[1..])
  }

  /** The Pattern's range fitted to the area: rows when horizontal, columns otherwise. */
  function Fitted(s: Settings, fromX: int, toX: int, fromY: int, toY: int): Settings
  {
    s.(from := if s.horizontal then fromY else fromX, to := if s.horizontal then toY else toX)
  }

  /**
   * setAutoPattern: the slots are visited first, then every Pattern in auto mode gets
   * its range fitted; with lockIn it also leaves auto mode and its path is recorded,
   * the slots' locked patterns coming before its own.
   */
  function SetAutoPattern(fromX: int, toX: int, fromY: int, toY: int, p: Provider, lockIn: bool): (r: (Provider, seq<Path>))
    ensures !lockIn ==> r.1 == []
  {
    match p
    case Color(_) => (p, [])
    case Pattern(slot1, slot2, name, s) =>
      var first := SetAutoPattern(fromX, toX, fromY, toY, slot1, lockIn);
      var second := SetAutoPattern(fromX, toX, fromY, toY, slot2, lockIn);
      var locked := Under(First, first.1) + Under(Second, second.1);
      if s.auto then
        var fitted := Fitted(s, fromX, toX, fromY, toY);
        if lockIn then (Pattern(first.0, second.0, name, fitted.(auto := false)), locked + [[]])
        else (Pattern(first.0, second.0, name, fitted), locked)
      else (Pattern(first.0, second.0, name, s), locked)
  }

  /** The provider at a path, if the path leads through Patterns. */
  function At(p: Provider, path: Path): Option<Provider>
  {
    if path == [] then Some(p)
    else match p
      case Color(_) => None
      case Pattern(slot1, slot2, _, _) => At(if path[0] == First then slot1 else slot2, path[1..])
  }

  /** `pattern.auto = true` for the Pattern at the path. */
  function Unlocked(p: Provider, path: Path): (q: Provider)
    ensures q.Color? <==> p.Color?
  {
    match p
    case Color(_) => p
    case Pattern(slot1, slot2, name, s) =>
      if path == [] then Pattern(slot1, slot2, name, s.(auto := true))
      else if path[0] == First then Pattern(Unlocked(slot1, path[1..]), slot2, name, s)
      else Pattern(slot1, Unlocked(slot2, path[1..]), name, s)
  }

  /** The tree after the first n paths have been unlocked, in order. */
  function UnlockedAll(p: Provider, paths: seq<Path>, n: nat): Provider
    requires n <= |paths|
  {
    if n == 0 then p else Unlocked(UnlockedAll(p, paths, n - 1), paths[n - 1])
  }

  /** unlockAutoPattern: sets auto mode again on every pattern in the list. */
  method UnlockAutoPattern(p: Provider, paths: seq<Path>) returns (q: Provider)
    ensures q == UnlockedAll(p, paths, |paths|)
  {
    q := p;
    for i := 0 to |paths|
      invariant q == UnlockedAll(p, paths, i)
    {
      q := Unlocked(q, paths[i]);
    }
  }

  /** Every recorded path leads to a Pattern that was in auto mode and is locked now. */
  lemma {:induction false} LockedAreAuto(fromX: int, toX: int, fromY: int, toY: int, p: Provider, i: nat)
    requires i < |SetAutoPattern(fromX, toX, fromY, toY, p, true).1|
    ensures var (q, locked) := SetAutoPattern(fromX, toX, fromY, toY, p, true);
      At(p, locked[i]).Some? && At(p, locked[i]).value.Pattern? && At(p, locked[i]).value.settings.auto &&
      At(q, locked[i]).Some? && At(q, locked[i]).value.Pattern? && !At(q, locked[i]).value.settings.auto
  {
    match p
    case Pattern(slot1, slot2, name, s) =>
      var (q1, locked1) := SetAutoPattern(fromX, toX, fromY, toY, slot1, true);
      var (q2, locked2) := SetAutoPattern(fromX, toX, fromY, toY, slot2, true);
      var locked := SetAutoPattern(fromX, toX, fromY, toY, p, true).1;
      if i < |locked1| {
        LockedAreAuto(fromX, toX, fromY, toY, slot1, i);
        assert locked[i] == [First] + locked1[i];
        assert locked[i][1..] == locked1[i];
      } else if i < |locked1| + |locked2| {
        LockedAreAuto(fromX, toX, fromY, toY, slot2, i - |locked1|);
        assert locked[i] == [Second] + locked2[i - |locked1|];
        assert locked[i][1..] == locked2[i - |locked1|];
      }
  }

  /** Unlocking paths under one slot unlocks them inside that slot and leaves the rest alone. */
  lemma {:induction false} UnlockedUnder(slot1: Provider, slot2: Provider, name: string, s: Settings, slot: Slot, paths: seq<Path>, n: nat)
    requires n <= |paths|
    ensures UnlockedAll(Pattern(slot1, slot2, name, s), Under(slot, paths), n) ==
            if slot == First then Pattern(UnlockedAll(slot1, paths, n), slot2, name, s)
            else Pattern(slot1, UnlockedAll(slot2, paths, n), name, s)
  {
    if n > 0 {
      UnlockedUnder(slot1, slot2, name, s, slot, paths, n - 1);
      var path := Under(slot, paths)[n - 1];
      assert path[0] == slot && path[1..] == paths[n - 1];
    }
  }

  /** Unlocking a concatenation is unlocking one part after the other. */
  lemma {:induction false} UnlockedAppend(p: Provider, a: seq<Path>, b: seq<Path>, n: nat)
    requires n <= |b|
    ensures UnlockedAll(p, a + b, |a| + n) == UnlockedAll(UnlockedAll(p, a, |a|), b, n)
  {
    if n == 0 {
      UnlockedPrefix(p, a, a + b, |a|);
    } else {
      UnlockedAppend(p, a, b, n - 1);
      assert (a + b)[|a| + n - 1] == b[n - 1];
    }
  }

  /** Unlocking the first n paths only depends on those paths. */
  lemma {:induction false} UnlockedPrefix(p: Provider, a: seq<Path>, b: seq<Path>, n: nat)
    requires n <= |a| && n <= |b| && a[..n] == b[..n]
    ensures UnlockedAll(p, a, n) == UnlockedAll(p, b, n)
  {
    if n > 0 {
      assert a[..n - 1] == b[..n - 1] by {
        assert a[..n - 1] == a[..n][..n - 1] && b[..n - 1] == b[..n][..n - 1];
      }
      assert a[n - 1] == a[..n][n - 1] == b[..n][n - 1] == b[n - 1];
      UnlockedPrefix(p, a, b, n - 1);
    }
  }

  /** Unlocking the paths of both slots, the first slot's first, unlocks inside each slot. */
  lemma {:induction false} UnlockedBoth(q1: Provider, q2: Provider, name: string, s: Settings, paths1: seq<Path>, paths2: seq<Path>)
    ensures var paths := Under(First, paths1) + Under(Second, paths2);
      UnlockedAll(Pattern(q1, q2, name, s), paths, |paths|) ==
      Pattern(UnlockedAll(q1, paths1, |paths1|), UnlockedAll(q2, paths2, |paths2|), name, s)
  {
    var u1, u2 := Under(First, paths1), Under(Second, paths2);
    var q := Pattern(q1, q2, name, s);
    var r1 := UnlockedAll(q1, paths1, |paths1|);
    assert |u1| == |paths1| && |u2| == |paths2| && |u1 + u2| == |u1| + |u2|;
    UnlockedAppend(q, u1, u2, |u2|);
    UnlockedUnder(q1, q2, name, s, First, paths1, |paths1|);
    assert UnlockedAll(q, u1, |u1|) == Pattern(r1, q2, name, s);
    UnlockedUnder(r1, q2, name, s, Second, paths2, |paths2|);
    assert UnlockedAll(q, u1 + u2, |u1 + u2|) == UnlockedAll(Pattern(r1, q2, name, s), u2, |paths2|);
  }

  /**
   * border locks the patterns it fits and unlocks them afterwards: the net effect is
   * that of fitting without locking, every auto-mode pattern keeping auto mode.
   */
  lemma {:induction false} LockThenUnlock(fromX: int, toX: int, fromY: int, toY: int, p: Provider)
    ensures var locking := SetAutoPattern(fromX, toX, fromY, toY, p, true);
      UnlockedAll(locking.0, locking.1, |locking.1|) == SetAutoPattern(fromX, toX, fromY, toY, p, false).0
  {
    match p
    case Color(_) =>
      assert SetAutoPattern(fromX, toX, fromY, toY, p, true) == (p, []);
    case Pattern(slot1, slot2, name, s) =>
      LockThenUnlock(fromX, toX, fromY, toY, slot1);
      LockThenUnlock(fromX, toX, fromY, toY, slot2);
      LockThenUnlockNode(fromX, toX, fromY, toY, slot1, slot2, name, s);
  }

  /** The step of LockThenUnlock at one Pattern, given the slots' results. */
  lemma LockThenUnlockNode(fromX: int, toX: int, fromY: int, toY: int, slot1: Provider, slot2: Provider, name: string, s: Settings)
    requires var l1 := SetAutoPattern(fromX, toX, fromY, toY, slot1, true);
      UnlockedAll(l1.0, l1.1, |l1.1|) == SetAutoPattern(fromX, toX, fromY, toY, slot1, false).0
    requires var l2 := SetAutoPattern(fromX, toX, fromY, toY, slot2, true);
      UnlockedAll(l2.0, l2.1, |l2.1|) == SetAutoPattern(fromX, toX, fromY, toY, slot2, false).0
    ensures var locking := SetAutoPattern(fromX, toX, fromY, toY, Pattern(slot1, slot2, name, s), true);
      UnlockedAll(locking.0, locking.1, |locking.1|) == SetAutoPattern(fromX, toX, fromY, toY, Pattern(slot1, slot2, name, s), false).0
  {
    var l1 := SetAutoPattern(fromX, toX, fromY, toY, slot1, true);
    var l2 := SetAutoPattern(fromX, toX, fromY, toY, slot2, true);
    var r1 := SetAutoPattern(fromX, toX, fromY, toY, slot1, false).0;
    var r2 := SetAutoPattern(fromX, toX, fromY, toY, slot2, false).0;
    if s.auto {
      var fitted := Fitted(s, fromX, toX, fromY, toY);
      UnlockedLocked(l1.0, l2.0, r1, r2, name, fitted, l1.1, l2.1);
    } else {
      UnlockedBoth(l1.0, l2.0, name, s, l1.1, l2.1);
    }
  }

  /** Unlocking a locked Pattern after its slots restores its auto mode. */
  lemma UnlockedLocked(q1: Provider, q2: Provider, r1: Provider, r2: Provider, name: string, s: Settings, paths1: seq<Path>, paths2: seq<Path>)
    requires UnlockedAll(q1, paths1, |paths1|) == r1 && UnlockedAll(q2, paths2, |paths2|) == r2 && s.auto
    ensures var locked := Under(First, paths1) + Under(Second, paths2) + [[]];
      UnlockedAll(Pattern(q1, q2, name, s.(auto := false)), locked, |locked|) == Pattern(r1, r2, name, s)
  {
    var q := Pattern(q1, q2, name, s.(auto := false));
    var both := Under(First, paths1) + Under(Second, paths2);
    UnlockedBoth(q1, q2, name, s.(auto := false), paths1, paths2);
    UnlockedAppend(q, both, [[]], 1);
    assert s.(auto := false).(auto := true) == s;
  }
}
