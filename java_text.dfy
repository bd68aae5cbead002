/**
 * The java.lang.String and java.lang.Integer operations the simulation relies on:
 * `split` with a one-character pattern, `Integer.parseInt`, `String.valueOf(int)`,
 * `toUpperCase`, `trim`, `split(" +")`, `String.join`, and the line structure a
 * `Scanner` reads with `nextLine`.
 */
module JavaText {
  import opened Wrappers
  import opened JavaMath

  // ---------------------------------------------------------------------------
  // split with a single literal separator character

  /** Every piece between occurrences of `sep`, empty pieces included. */
  function Pieces(s: string, sep: char): (parts: seq<string>)
    ensures |parts| >= 1
    ensures forall i :: 0 <= i < |parts| ==> sep !in parts[i]
  {
    if |s| == 0 then [""]
    else if s[0] == sep then [""] + Pieces(s[1..], sep)
    else
      var rest := Pieces(s[1..], sep);
      [[s[0]] + rest[0]] + rest[1..]
  }

  /** Removes the empty strings at the end, as `split` with limit zero does. */
  function DropTrailingEmpty(parts: seq<string>): (r: seq<string>)
    ensures |r| <= |parts| && r == parts[..|r|]
    ensures |r| > 0 ==> r[|r| - 1] != ""
    ensures forall i :: |r| <= i < |parts| ==> parts[i] == ""
  {
    if |parts| == 0 then []
    else if parts[|parts| - 1] == "" then DropTrailingEmpty(parts[..|parts| - 1])
    else parts
  }

  /** `s.split(sep)` for a pattern that matches exactly the character `sep`. */
  function Split(s: string, sep: char): (parts: seq<string>)
    ensures sep !in s ==> parts == [s]
    ensures forall i :: 0 <= i < |parts| ==> sep !in parts[i]
  {
    if sep !in s then [s] else DropTrailingEmpty(Pieces(s, sep))
  }

  lemma {:induction false} PiecesAvoid(s: string, sep: char, c: char)
    requires c !in s
    ensures forall i :: 0 <= i < |Pieces(s, sep)| ==> c !in Pieces(s, sep)[i]
    decreases |s|
  {
    if |s| > 0 {
      assert c !in s[1..] by { assert forall k :: 0 <= k < |s| - 1 ==> s[1..][k] == s[k + 1]; }
      PiecesAvoid(s[1..], sep, c);
      var rest := Pieces(s[1..], sep);
      if s[0] != sep {
        assert c !in [s[0]] + rest[0];
      }
    }
  }

  /** The parts of a split only hold characters of the string split. */
  lemma SplitAvoids(s: string, sep: char, c: char)
    requires c !in s
    ensures forall i :: 0 <= i < |Split(s, sep)| ==> c !in Split(s, sep)[i]
  {
    PiecesAvoid(s, sep, c);
  }

  lemma {:induction false} PiecesAppend(a: string, sep: char, b: string)
    requires sep !in a
    ensures Pieces(a + [sep] + b, sep) == [a] + Pieces(b, sep)
    decreases |a|
  {
    if |a| == 0 {
      assert a + [sep] + b == [sep] + b;
      assert ([sep] + b)[1..] == b;
    } else {
      assert (a + [sep] + b)[1..] == a[1..] + [sep] + b;
      PiecesAppend(a[1..], sep, b);
      assert [a[0]] + a[1..] == a;
    }
  }

  lemma {:induction false} PiecesOfPlain(a: string, sep: char)
    requires sep !in a
    ensures Pieces(a, sep) == [a]
    decreases |a|
  {
    if |a| > 0 {
      PiecesOfPlain(a[1..], sep);
      assert [a[0]] + a[1..] == a;
    }
  }

  /** Splitting `a` + sep + `b` at sep, with neither part holding sep and `b` non-empty, gives back both parts. */
  lemma SplitTwo(a: string, sep: char, b: string)
    requires sep !in a && sep !in b && b != ""
    ensures Split(a + [sep] + b, sep) == [a, b]
  {
    assert (a + [sep] + b)[|a|] == sep;
    PiecesAppend(a, sep, b);
    PiecesOfPlain(b, sep);
  }

  // ---------------------------------------------------------------------------
  // lines as read by Scanner.nextLine, and the text that writes them

  /** The lines of `text` split at '\n'; a final '\n' does not start another line. */
  function Lines(text: string): (lines: seq<string>)
    ensures forall i :: 0 <= i < |lines| ==> '\n' !in lines[i]
  {
    var p := Pieces(text, '\n');
    if p[|p| - 1] == "" then p[..|p| - 1] else p
  }

  /** Each line followed by '\n'. */
  function JoinLines(lines: seq<string>): string
  {
    if lines == [] then "" else lines[0] + "\n" + JoinLines(lines[1..])
  }

  lemma {:induction false} PiecesOfJoinLines(lines: seq<string>)
    requires forall i :: 0 <= i < |lines| ==> '\n' !in lines[i]
    ensures Pieces(JoinLines(lines), '\n') == lines + [""]
    decreases |lines|
  {
    if lines != [] {
      PiecesOfJoinLines(lines[1..]);
      PiecesAppend(lines[0], '\n', JoinLines(lines[1..]));
      assert lines[0] + "\n" + JoinLines(lines[1..]) == lines[0] + ['\n'] + JoinLines(lines[1..]);
      assert [lines[0]] + lines[1..] == lines;
    }
  }

  /** Reading back the lines of written text gives the same lines. */
  lemma LinesOfJoinLines(lines: seq<string>)
    requires forall i :: 0 <= i < |lines| ==> '\n' !in lines[i]
    ensures Lines(JoinLines(lines)) == lines
  {
    PiecesOfJoinLines(lines);
    assert (lines + [""])[..|lines|] == lines;
  }

  lemma {:induction false} JoinLinesAppend(a: seq<string>, b: seq<string>)
    ensures JoinLines(a + b) == JoinLines(a) + JoinLines(b)
    decreases |a|
  {
    if a != [] {
      assert (a + b)[1..] == a[1..] + b;
      JoinLinesAppend(a[1..], b);
    } else {
      assert a + b == b;
    }
  }

  /** `String.join(sep, parts)`. */
  function Join(parts: seq<string>, sep: string): string
  {
    if parts == [] then "" else if |parts| == 1 then parts[0] else parts[0] + sep + Join(parts[1..], sep)
  }

  // ---------------------------------------------------------------------------
  // decimal numerals

  predicate IsDigit(c: char) { '0' <= c <= '9' }

  predicate AllDigits(s: string) { forall i :: 0 <= i < |s| ==> IsDigit(s[i]) }

  function DigitValue(c: char): nat requires IsDigit(c) { (c as int - '0' as int) as nat }

  function DigitChar(d: nat): (c: char)
    requires d < 10
    ensures IsDigit(c) && DigitValue(c) == d
  {
    ('0' as int + d) as char
  }

  /** The value of a string of decimal digits, most significant first. */
  function DigitsValue(s: string): nat
    requires AllDigits(s)
  {
    if s == [] then 0 else DigitsValue(s[..|s| - 1]) * 10 + DigitValue(s[|s| - 1])
  }

  /** Decimal digits of a natural number, without leading zeros. */
  function NatToString(n: nat): (s: string)
    ensures |s| >= 1 && AllDigits(s)
    ensures (|s| == 1) == (n < 10)
  {
    if n < 10 then [DigitChar(n)] else NatToString(n / 10) + [DigitChar(n % 10)]
  }

  /** `String.valueOf(int)`. */
  function IntToString(n: int): (s: string)
    ensures |s| >= 1
    ensures n >= 0 ==> AllDigits(s)
    ensures (|s| == 1) == (0 <= n < 10)
  {
    if n < 0 then "-" + NatToString(-n) else NatToString(n)
  }

  /**
   * `Integer.parseInt(s)` (and `Integer.valueOf(s)`): an optional '+' or '-' followed by
   * at least one ASCII digit, denoting a value in the 32-bit range; None stands for
   * the NumberFormatException.
   */
  function ParseInt(s: string): (r: Option<int>)
    ensures r.Some? ==> InInt32(r.value)
  {
    if |s| == 0 then None
    else if s[0] == '-' || s[0] == '+' then SignedValue(s[0] == '-', s[1..])
    else SignedValue(false, s)
  }

  /** The value of a non-empty string of digits, negated when `negative`, if it is a 32-bit int. */
  function SignedValue(negative: bool, digits: string): (r: Option<int>)
    ensures r.Some? ==> InInt32(r.value)
  {
    if |digits| == 0 || !AllDigits(digits) then None
    else
      var v: int := if negative then 0 - DigitsValue(digits) as int else DigitsValue(digits);
      if InInt32(v) then Some(v) else None
  }

  lemma {:induction false} NatToStringValue(n: nat)
    ensures DigitsValue(NatToString(n)) == n
  {
    if n >= 10 {
      var s := NatToString(n);
      NatToStringValue(n / 10);
      assert s[..|s| - 1] == NatToString(n / 10);
    }
  }

  /** `Integer.parseInt(String.valueOf(n)) == n` for every 32-bit n. */
  lemma ParseIntToString(n: int)
    requires InInt32(n)
    ensures ParseInt(IntToString(n)) == Some(n)
  {
    if n < 0 {
      ParseIntToStringNegative(n);
    } else {
      NatToStringValue(n);
      assert IsDigit(NatToString(n)[0]);
    }
  }

  lemma ParseIntToStringNegative(n: int)
    requires INT_MIN <= n < 0
    ensures ParseInt(IntToString(n)) == Some(n)
  {
    var d := NatToString(-n);
    NatToStringValue(-n);
    var s := "-" + d;
    assert IntToString(n) == s;
    assert s[0] == '-' && s[1..] == d;
    assert SignedValue(true, d) == Some(n);
    assert ParseInt(s) == SignedValue(true, s[1..]);
  }

  lemma NatToStringNoSign(n: nat)
    ensures ' ' !in NatToString(n) && '-' !in NatToString(n) && ':' !in NatToString(n) && '\n' !in NatToString(n)
  {
    var s := NatToString(n);
    assert forall i :: 0 <= i < |s| ==> IsDigit(s[i]);
  }

  /** A numeral never contains a space or a line break, so it stays one token. */
  lemma IntToStringPlain(n: int)
    ensures ' ' !in IntToString(n) && '\n' !in IntToString(n)
  {
    var s := IntToString(n);
    if n < 0 {
      NatToStringNoSign(-n);
      assert s == "-" + NatToString(-n);
      assert forall i :: 1 <= i < |s| ==> s[i] == NatToString(-n)[i - 1];
    } else {
      NatToStringNoSign(n);
    }
  }

  /** 10 to the power n. */
  function Pow10(n: nat): (p: nat)
    ensures p >= 1
  {
    if n == 0 then 1 else 10 * Pow10(n - 1)
  }

  /** The index of the first `c` in `s`, or |s| when there is none. */
  function IndexOf(s: string, c: char): (i: nat)
    ensures i <= |s| && c !in s[..i]
    ensures i < |s| ==> s[i] == c
  {
    if s == [] || s[0] == c then 0
    else
      var i := 1 + IndexOf(s[1..], c);
      assert s[..i] == [s[0]] + s[1..][..i - 1];
      i
  }

  /** Digits, optionally split by one '.', with at least one digit in all. */
  function UnsignedDecimal(s: string): (r: Option<real>)
    ensures r.Some? ==> r.value >= 0.0
    ensures |s| > 0 && AllDigits(s) ==> r == Some(DigitsValue(s) as real)
  {
    var i := IndexOf(s, '.');
    if i == |s| then
      if |s| > 0 && AllDigits(s) then Some(DigitsValue(s) as real) else None
    else
      var whole, fraction := s[..i], s[i + 1..];
      if |whole| + |fraction| > 0 && AllDigits(whole) && AllDigits(fraction) then
        Some(DigitsValue(whole) as real + DigitsValue(fraction) as real / Pow10(|fraction|) as real)
      else None
  }

  /**
   * `Double.parseDouble(s)` on plain decimal numerals: an optional sign, then digits
   * with at most one '.'; None stands for the NumberFormatException.
   */
  function ParseDecimal(s: string): (r: Option<real>)
    ensures |s| > 0 && AllDigits(s) ==> r == Some(DigitsValue(s) as real)
    ensures |s| > 0 && s[0] == '-' && r.Some? ==> r.value <= 0.0
  {
    if |s| > 0 && (s[0] == '-' || s[0] == '+') then
      match UnsignedDecimal(s[1..])
      case Some(v) => Some(if s[0] == '-' then -v else v)
      case None => None
    else UnsignedDecimal(s)
  }

  // ---------------------------------------------------------------------------
  // other String methods

  /** `toUpperCase()` restricted to ASCII letters. */
  function UpperCase(s: string): (u: string)
    ensures |u| == |s|
    ensures forall i :: 0 <= i < |s| ==> u[i] == UpperChar(s[i])
  {
    if s == [] then [] else [UpperChar(s[0])] + UpperCase(s[1..])
  }

  function UpperChar(c: char): char
  {
    if 'a' <= c <= 'z' then (c as int - 'a' as int + 'A' as int) as char else c
  }

  /** `trim()`: drops the characters up to and including ' ' at both ends. */
  function Trim(s: string): string
  {
    TrimEnd(TrimStart(s))
  }

  function TrimStart(s: string): (t: string)
    ensures |t| <= |s| && t == s[|s| - |t|..]
    ensures t == [] || t[0] > ' '
  {
    if s != [] && s[0] <= ' ' then TrimStart(s[1..]) else s
  }

  function TrimEnd(s: string): (t: string)
    ensures |t| <= |s| && t == s[..|t|]
    ensures t == [] || t[|t| - 1] > ' '
  {
    if s != [] && s[|s| - 1] <= ' ' then TrimEnd(s[..|s| - 1]) else s
  }

  /**
   * The maximal runs of characters other than ' ' in `s`; on a string whose first
   * and last characters are not spaces this is `split(" +")`.
   */
  function Words(s: string): seq<string>
  {
    WordsFrom(s, "")
  }

  /** The words of `s`, the first of them continuing the word `cur` already begun. */
  function WordsFrom(s: string, cur: string): seq<string>
  {
    if s == [] then (if cur == "" then [] else [cur])
    else if s[0] == ' ' then (if cur == "" then [] else [cur]) + WordsFrom(s[1..], "")
    else WordsFrom(s[1..], cur + [s[0]])
  }

  /** `s.trim().split(" +")`: an empty trimmed string gives the single empty token. */
  function SplitSpaces(s: string): seq<string>
  {
    var t := Trim(s);
    if t == "" then [""] else Words(t)
  }

  lemma {:induction false} WordsFromSpace(a: string, cur: string, b: string)
    ensures WordsFrom(a + " " + b, cur) == WordsFrom(a, cur) + WordsFrom(b, "")
    decreases |a|
  {
    if a == [] {
      assert a + " " + b == " " + b;
      assert (" " + b)[1..] == b;
    } else {
      assert (a + " " + b)[1..] == a[1..] + " " + b;
      assert (a + " " + b)[0] == a[0];
      if a[0] == ' ' {
        WordsFromSpace(a[1..], "", b);
      } else {
        WordsFromSpace(a[1..], cur + [a[0]], b);
      }
    }
  }

  /** A space separates the words on its two sides. */
  lemma WordsSpace(a: string, b: string)
    ensures Words(a + " " + b) == Words(a) + Words(b)
  {
    WordsFromSpace(a, "", b);
  }

  lemma {:induction false} WordsFromPlain(a: string, cur: string)
    requires ' ' !in a
    ensures WordsFrom(a, cur) == if cur + a == "" then [] else [cur + a]
    decreases |a|
  {
    if a == [] {
      assert cur + a == cur;
    } else {
      assert a[0] != ' ' by { assert a[0] in a; }
      WordsFromPlain(a[1..], cur + [a[0]]);
      assert cur + [a[0]] + a[1..] == cur + a;
    }
  }

  /** A non-empty string without spaces is one word. */
  lemma WordsOfWord(a: string)
    requires ' ' !in a && a != ""
    ensures Words(a) == [a]
  {
    WordsFromPlain(a, "");
    assert "" + a == a;
  }

  /** Trimming away spaces at the ends does not change the words. */
  lemma {:induction false} WordsTrimStart(s: string)
    requires forall i :: 0 <= i < |s| ==> s[i] == ' ' || s[i] > ' '
    ensures Words(TrimStart(s)) == Words(s)
    decreases |s|
  {
    if s != [] && s[0] <= ' ' {
      WordsTrimStart(s[1..]);
    }
  }

  lemma {:induction false} WordsTrimEnd(s: string)
    requires forall i :: 0 <= i < |s| ==> s[i] == ' ' || s[i] > ' '
    ensures Words(TrimEnd(s)) == Words(s)
    decreases |s|
  {
    if s != [] && s[|s| - 1] <= ' ' {
      var p := s[..|s| - 1];
      WordsTrimEnd(p);
      assert s == p + " " + "";
      WordsSpace(p, "");
    }
  }

  /** Without control characters, `trim().split(" +")` of a string with a word in it is its words. */
  lemma SplitSpacesIsWords(s: string)
    requires forall i :: 0 <= i < |s| ==> s[i] == ' ' || s[i] > ' '
    requires Words(s) != []
    ensures SplitSpaces(s) == Words(s)
  {
    var t := TrimStart(s);
    WordsTrimStart(s);
    assert forall i :: 0 <= i < |t| ==> t[i] == s[|s| - |t| + i];
    WordsTrimEnd(t);
  }
}
