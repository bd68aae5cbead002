/**
 * Writing a canvas with Bitmap.render in the ppm format and reading the file back
 * with Bitmap.readFromFile: the reader recovers the size, the comments, the max
 * value 255 and every pixel. The int array readFromFile builds for the canvas is only
 * right when its columns are the width; as written they are `pixels / width`, which
 * is the height of the image, so a tall image throws and a wide one is cut short.
 */
module NetpbmRoundTrip {
  import opened Wrappers
  import opened JavaMath
  import opened JavaText
  import opened Pixels
  import opened Netpbm
  import opened NetpbmRead

  // ---------------------------------------------------------------------------
  // what can be written and read back

  /** A window of `height` rows of `width` pixels, each three 32-bit components. */
  predicate IsWindow(window: seq<seq<Rgb>>, width: int, height: int)
  {
    && |window| == height
    && (forall i :: 0 <= i < height ==> |window[i]| == width)
    && (forall i, j :: 0 <= i < height && 0 <= j < |window[i]| ==> |window[i][j]| == 3)
    && (forall i, j, k :: 0 <= i < height && 0 <= j < |window[i]| && 0 <= k < |window[i][j]| ==> InInt32(window[i][j][k]))
  }

  /** Comments as the Bitmap keeps them: the first begins with '#', and none holds a line break. */
  predicate Writable(comments: seq<string>)
  {
    |comments| >= 1 && IsComment(comments[0]) && forall i :: 0 <= i < |comments| ==> '\n' !in comments[i]
  }

  /** The comments the reader collects from them: the first loses its '#', the rest were written with one. */
  function CommentsRead(comments: seq<string>): seq<string>
    requires |comments| >= 1 && IsComment(comments[0])
  {
    [comments[0][1..]] + comments[1..]
  }

  /** Every pixel present. */
  function Wrapped(window: seq<seq<Rgb>>): seq<seq<Option<Rgb>>>
  {
    seq(|window|, i requires 0 <= i < |window| => seq(|window[i]|, k requires 0 <= k < |window[i]| => Some(window[i][k])))
  }

  /** The image readFromFile should return for the file render wrote. */
  function Expected(comments: seq<string>, width: int, height: int, window: seq<seq<Rgb>>): PpmImage
    requires |comments| >= 1 && IsComment(comments[0])
  {
    PpmImage(width, height, Some(255), CommentsRead(comments), Wrapped(window), window)
  }

  // ---------------------------------------------------------------------------
  // numerals separated by spaces

  /** Only digits, minus signs and spaces. */
  predicate NumeralText(s: string)
  {
    forall i :: 0 <= i < |s| ==> s[i] == ' ' || s[i] == '-' || IsDigit(s[i])
  }

  lemma NumeralTextAppend(a: string, b: string)
    requires NumeralText(a) && NumeralText(b)
    ensures NumeralText(a + b)
  {
    assert forall i :: |a| <= i < |a + b| ==> (a + b)[i] == b[i - |a|];
  }

  lemma IntToStringNumeral(n: int)
    ensures NumeralText(IntToString(n)) && ' ' !in IntToString(n) && IntToString(n) != ""
  {
    IntToStringPlain(n);
    if n < 0 {
      var d := NatToString(-n);
      assert IntToString(n) == "-" + d;
      assert forall i :: 1 <= i < |d| + 1 ==> ("-" + d)[i] == d[i - 1];
    }
  }

  /** The numerals of the values, in order. */
  function Numerals(values: seq<int>): (tokens: seq<string>)
    ensures |tokens| == |values|
    ensures forall i :: 0 <= i < |values| ==> tokens[i] == IntToString(values[i])
  {
    seq(|values|, i requires 0 <= i < |values| => IntToString(values[i]))
  }

  /** Each token followed by a space. */
  function Spaced(tokens: seq<string>): string
  {
    if tokens == [] then "" else Spaced(tokens[..|tokens| - 1]) + tokens[|tokens| - 1] + " "
  }

  lemma {:induction false} SpacedAppend(a: seq<string>, b: seq<string>)
    ensures Spaced(a + b) == Spaced(a) + Spaced(b)
    decreases |b|
  {
    if b == [] {
      assert a + b == a;
    } else {
      var n := |b| - 1;
      assert (a + b)[..|a + b| - 1] == a + b[..n];
      SpacedAppend(a, b[..n]);
    }
  }

  /** A token with no space in it. */
  predicate IsWord(t: string)
  {
    t != "" && ' ' !in t
  }

  /** Spaced words followed by one more word split back into those words. */
  lemma {:induction false} WordsSpacedThen(tokens: seq<string>, t: string)
    requires forall i :: 0 <= i < |tokens| ==> IsWord(tokens[i])
    requires IsWord(t)
    ensures Words(Spaced(tokens) + t) == tokens + [t]
    decreases |tokens|
  {
    if tokens == [] {
      assert Spaced(tokens) + t == t;
      WordsOfWord(t);
    } else {
      var n := |tokens| - 1;
      var init, last := tokens[..n], tokens[n];
      WordsSpacedThen(init, last);
      var a := Spaced(init) + last;
      assert Spaced(tokens) + t == a + " " + t;
      WordsSpace(a, t);
      WordsOfWord(t);
      assert init + [last] == tokens;
    }
  }

  /** Spaced words split back into those words. */
  lemma {:induction false} WordsOfSpaced(tokens: seq<string>)
    requires forall i :: 0 <= i < |tokens| ==> IsWord(tokens[i])
    ensures Words(Spaced(tokens)) == tokens
  {
    if tokens != [] {
      var n := |tokens| - 1;
      var init, last := tokens[..n], tokens[n];
      var a := Spaced(init) + last;
      assert Words(a) == tokens by {
        WordsSpacedThen(init, last);
        assert init + [last] == tokens;
      }
      assert Spaced(tokens) == a + " ";
      TrailingSpace(a);
    }
  }

  lemma {:induction false} TrailingSpace(a: string)
    ensures Words(a + " ") == Words(a)
  {
    WordsSpace(a, "");
    assert a + " " + "" == a + " ";
    assert Words("") == [];
  }

  /** The words of the spaced numerals are the numerals. */
  lemma {:induction false} WordsSpaced(values: seq<int>)
    ensures Words(Spaced(Numerals(values))) == Numerals(values)
  {
    var tokens := Numerals(values);
    forall i | 0 <= i < |tokens|
      ensures IsWord(tokens[i])
    {
      IntToStringNumeral(values[i]);
    }
    WordsOfSpaced(tokens);
  }

  lemma {:induction false} SpacedNumeralText(values: seq<int>)
    ensures NumeralText(Spaced(Numerals(values)))
  {
    if values != [] {
      var n := |values| - 1;
      assert Numerals(values)[..n] == Numerals(values[..n]);
      SpacedNumeralText(values[..n]);
      IntToStringNumeral(values[n]);
      NumeralTextAppend(Spaced(Numerals(values[..n])), IntToString(values[n]));
      NumeralTextAppend(Spaced(Numerals(values[..n])) + IntToString(values[n]), " ");
    }
  }

  /** A ppm pixel is its numerals, each with a space. */
  lemma {:induction false} ComponentsSpaced(pixel: Rgb)
    ensures Components(pixel) == Spaced(Numerals(pixel))
  {
    if pixel != [] {
      var n := |pixel| - 1;
      ComponentsSpaced(pixel[..n]);
      assert Numerals(pixel)[..n] == Numerals(pixel[..n]);
    }
  }

  lemma {:induction false} NumeralsAppend(a: seq<int>, b: seq<int>)
    ensures Numerals(a + b) == Numerals(a) + Numerals(b)
  {
    var joined, appended := Numerals(a + b), Numerals(a) + Numerals(b);
    assert |joined| == |appended|;
    forall i | 0 <= i < |joined|
      ensures joined[i] == appended[i]
    {
      if i < |a| {
        assert (a + b)[i] == a[i];
      } else {
        assert (a + b)[i] == b[i - |a|];
      }
    }
    assert joined == appended;
  }

  /** A ppm row is the numerals of its pixels' components, each with a space. */
  lemma {:induction false} RowTextSpaced(row: seq<Rgb>)
    ensures RowText(PixMap, row) == Spaced(Numerals(Concat(row)))
  {
    if row != [] {
      var n := |row| - 1;
      var init, last := row[..n], row[n];
      RowTextSpaced(init);
      ComponentsSpaced(last);
      assert RowText(PixMap, row) == RowText(PixMap, init) + Components(last);
      assert Concat(row) == Concat(init) + last;
      NumeralsAppend(Concat(init), last);
      SpacedAppend(Numerals(Concat(init)), Numerals(last));
    }
  }

  lemma {:induction false} JoinSnoc(parts: seq<string>, last: string, sep: string)
    requires parts != []
    ensures Join(parts + [last], sep) == Join(parts, sep) + sep + last
    decreases |parts|
  {
    assert (parts + [last])[1..] == parts[1..] + [last];
    if |parts| > 1 {
      JoinSnoc(parts[1..], last, sep);
    }
  }

  /** The content lines of a written window, joined with spaces, are its component values, in order. */
  lemma {:induction false} WordsOfContent(window: seq<seq<Rgb>>)
    ensures Words(Join(RowTexts(PixMap, window), " ")) == Numerals(Concat(Concat(window)))
    ensures NumeralText(Join(RowTexts(PixMap, window), " "))
  {
    if window != [] {
      var n := |window| - 1;
      var init, last := window[..n], window[n];
      RowTextSpaced(last);
      WordsSpaced(Concat(last));
      SpacedNumeralText(Concat(last));
      assert Concat(window) == Concat(init) + last;
      ConcatAppend(Concat(init), last);
      NumeralsAppend(Concat(Concat(init)), Concat(last));
      if n == 0 {
        assert Concat(init) == [];
        assert RowTexts(PixMap, window) == [RowText(PixMap, last)];
      } else {
        WordsOfContent(init);
        WordsOfContentStep(init, last);
      }
    } else {
      assert Numerals(Concat(Concat(window))) == [];
    }
  }

  lemma WordsOfContentStep(init: seq<seq<Rgb>>, last: seq<Rgb>)
    requires init != []
    requires Words(Join(RowTexts(PixMap, init), " ")) == Numerals(Concat(Concat(init)))
    requires NumeralText(Join(RowTexts(PixMap, init), " "))
    requires Words(RowText(PixMap, last)) == Numerals(Concat(last))
    requires NumeralText(RowText(PixMap, last))
    ensures Words(Join(RowTexts(PixMap, init + [last]), " ")) == Numerals(Concat(Concat(init))) + Numerals(Concat(last))
    ensures NumeralText(Join(RowTexts(PixMap, init + [last]), " "))
  {
    var r := RowText(PixMap, last);
    var j := Join(RowTexts(PixMap, init), " ");
    assert (init + [last])[..|init|] == init;
    assert RowTexts(PixMap, init + [last]) == RowTexts(PixMap, init) + [r];
    JoinSnoc(RowTexts(PixMap, init), r, " ");
    WordsSpace(j, r);
    NumeralTextAppend(j, " ");
    NumeralTextAppend(j + " ", r);
  }

  /** Numerals read back with Integer.valueOf give the values. */
  lemma ValuesOfNumerals(values: seq<int>)
    requires forall i :: 0 <= i < |values| ==> InInt32(values[i])
    ensures Values(Numerals(values)) == Some(values)
  {
    var tokens := Numerals(values);
    forall i | 0 <= i < |tokens|
      ensures ParseInt(tokens[i]) == Some(values[i])
    {
      ParseIntToString(values[i]);
    }
    var r := Values(tokens);
    assert r.Some?;
    assert r.value == values;
  }

  // ---------------------------------------------------------------------------
  // the lines of the file

  /** The comment lines after the first, as `String.join("\n#", comments)` starts them. */
  function Hashed(comments: seq<string>): (lines: seq<string>)
    ensures |lines| == |comments|
    ensures forall i :: 0 <= i < |comments| ==> lines[i] == "#" + comments[i]
  {
    seq(|comments|, i requires 0 <= i < |comments| => "#" + comments[i])
  }

  lemma {:induction false} JoinHashed(comments: seq<string>)
    requires comments != []
    ensures "#" + Join(comments, "\n#") + "\n" == JoinLines(Hashed(comments))
    decreases |comments|
  {
    var c := comments[0];
    assert Hashed(comments)[1..] == Hashed(comments[1..]);
    if |comments| > 1 {
      JoinHashed(comments[1..]);
      var j := Join(comments[1..], "\n#");
      assert "#" + Join(comments, "\n#") + "\n" == "#" + c + "\n" + ("#" + j + "\n");
    } else {
      assert JoinLines(Hashed(comments)[1..]) == "";
    }
  }

  /** The line of the size, `width + " " + height`. */
  function SizeLine(width: int, height: int): string
  {
    IntToString(width) + " " + IntToString(height)
  }

  /** The lines of the file render writes in the ppm format. */
  function FileLines(comments: seq<string>, width: int, height: int, window: seq<seq<Rgb>>): seq<string>
    requires comments != []
  {
    ["P3"] + CommentLines(comments) + [SizeLine(width, height), "255"] + RowTexts(PixMap, window)
  }

  predicate SingleLines(lines: seq<string>)
  {
    forall i :: 0 <= i < |lines| ==> '\n' !in lines[i]
  }

  lemma SingleLinesAppend(a: seq<string>, b: seq<string>)
    requires SingleLines(a) && SingleLines(b)
    ensures SingleLines(a + b)
  {
    assert forall i :: |a| <= i < |a + b| ==> (a + b)[i] == b[i - |a|];
  }

  lemma {:induction false} NumeralTextSingle(s: string)
    requires NumeralText(s)
    ensures '\n' !in s && !IsComment(s)
    ensures forall i :: 0 <= i < |s| ==> s[i] == ' ' || s[i] > ' '
  {
    assert forall i :: 0 <= i < |s| ==> s[i] != '\n';
  }

  /** The comment lines, the first as kept and the others after a '#'. */
  function CommentLines(comments: seq<string>): (lines: seq<string>)
    requires comments != []
    ensures |lines| == |comments|
  {
    [comments[0]] + Hashed(comments[1..])
  }

  lemma JoinComments(comments: seq<string>)
    requires comments != []
    ensures JoinLines(CommentLines(comments)) == Join(comments, "\n#") + "\n"
  {
    var c := CommentLines(comments);
    assert c[1..] == Hashed(comments[1..]);
    if |comments| > 1 {
      JoinHashed(comments[1..]);
    } else {
      assert JoinLines(c[1..]) == "";
    }
  }

  /** The ppm header is its four kinds of lines, each ended by a line break. */
  lemma {:induction false} HeaderLines(comments: seq<string>, width: int, height: int)
    requires comments != []
    ensures HeaderText(PixMap, "", comments, width, height) == JoinLines(["P3"] + CommentLines(comments) + [SizeLine(width, height), "255"])
  {
    var c, size := CommentLines(comments), SizeLine(width, height);
    var j := Join(comments, "\n#");
    var first, middle, last := JoinLines(["P3"]), JoinLines(c), JoinLines([size, "255"]);
    assert first == "P3\n" by {
      assert ["P3"][1..] == [];
    }
    assert middle == j + "\n" by {
      JoinComments(comments);
    }
    assert last == size + "\n" + "255\n" by {
      assert JoinLines(["255"]) == "255\n" by {
        assert ["255"][1..] == [];
        assert "255" + "\n" + "" == "255\n";
      }
      assert [size, "255"][1..] == ["255"];
    }
    assert JoinLines(["P3"] + c + [size, "255"]) == first + middle + last by {
      JoinLinesAppend(["P3"], c);
      JoinLinesAppend(["P3"] + c, [size, "255"]);
    }
    assert HeaderText(PixMap, "", comments, width, height) == "P3\n" + j + "\n" + (size + "\n") + "255\n";
    Regroup("P3\n", j, "\n", size + "\n", "255\n");
  }

  lemma Regroup<T>(a: seq<T>, b: seq<T>, c: seq<T>, d: seq<T>, e: seq<T>)
    ensures a + b + c + d + e == a + (b + c) + (d + e)
  {
  }

  /** The ppm text is the ppm lines, each ended by a line break. */
  lemma RenderedJoin(filename: string, comments: seq<string>, width: int, height: int, window: seq<seq<Rgb>>)
    requires FormatName(filename) == Success("ppm") && comments != []
    ensures RenderText(filename, comments, width, height, window) == Success(JoinLines(FileLines(comments, width, height, window)))
  {
    var header := ["P3"] + CommentLines(comments) + [SizeLine(width, height), "255"];
    assert RenderText(filename, comments, width, height, window) ==
      Success(HeaderText(PixMap, "", comments, width, height) + BodyText(PixMap, window));
    HeaderLines(comments, width, height);
    BodyJoin(PixMap, window);
    JoinLinesAppend(header, RowTexts(PixMap, window));
  }

  lemma FileSingleLines(comments: seq<string>, width: int, height: int, window: seq<seq<Rgb>>)
    requires Writable(comments)
    ensures SingleLines(FileLines(comments, width, height, window))
  {
    var c := CommentLines(comments);
    forall i | 0 <= i < |c|
      ensures '\n' !in c[i]
    {
      if i > 0 {
        assert comments[1..][i - 1] == comments[i];
        assert c[i] == "#" + comments[i];
        assert '\n' !in comments[i];
      }
    }
    IntToStringPlain(width);
    IntToStringPlain(height);
    var rows := RowTexts(PixMap, window);
    forall i | 0 <= i < |rows|
      ensures '\n' !in rows[i]
    {
      RowTextSpaced(window[i]);
      SpacedNumeralText(Concat(window[i]));
      NumeralTextSingle(rows[i]);
    }
    SingleLinesAppend(["P3"], c);
    SingleLinesAppend(["P3"] + c, [SizeLine(width, height), "255"]);
    SingleLinesAppend(["P3"] + c + [SizeLine(width, height), "255"], rows);
  }

  // ---------------------------------------------------------------------------
  // the header loop over those lines

  lemma {:induction false} ReadLinesAppend(h: Header, a: seq<string>, b: seq<string>)
    requires ReadLines(h, a).Success?
    ensures ReadLines(h, a + b) == ReadLines(ReadLines(h, a).value, b)
    decreases |b|
  {
    if b == [] {
      assert a + b == a;
    } else {
      var n := |b| - 1;
      assert (a + b)[..|a + b| - 1] == a + b[..n];
      ReadLinesAppend(h, a, b[..n]);
    }
  }

  /** A comment line without its '#'. */
  function Uncommented(line: string): string
  {
    if line == [] then line else line[1..]
  }

  /** Comment lines only add to the comments, without their '#'. */
  lemma {:induction false} ReadComments(h: Header, lines: seq<string>)
    requires forall i :: 0 <= i < |lines| ==> IsComment(lines[i])
    ensures ReadLines(h, lines) == Success(h.(comments := h.comments + seq(|lines|, i requires 0 <= i < |lines| => Uncommented(lines[i]))))
  {
    if lines == [] {
      assert h.comments + [] == h.comments;
    } else {
      var n := |lines| - 1;
      ReadComments(h, lines[..n]);
      var stripped := seq(n, i requires 0 <= i < n => Uncommented(lines[..n][i]));
      assert seq(|lines|, i requires 0 <= i < |lines| => Uncommented(lines[i])) == stripped + [Uncommented(lines[n])];
      assert IsComment(lines[n]) && Uncommented(lines[n]) == lines[n][1..];
      assert h.comments + stripped + [lines[n][1..]] == h.comments + (stripped + [Uncommented(lines[n])]);
    }
  }

  /** After the max value, lines that are not comments only add to the content. */
  lemma {:induction false} ReadContent(h: Header, lines: seq<string>)
    requires h.contentReached
    requires forall i :: 0 <= i < |lines| ==> !IsComment(lines[i])
    ensures ReadLines(h, lines) == Success(h.(content := h.content + lines))
  {
    if lines == [] {
      assert h.content + lines == h.content;
    } else {
      var n := |lines| - 1;
      ReadContent(h, lines[..n]);
      assert h.content + lines[..n] + [lines[n]] == h.content + lines;
    }
  }

  lemma NumeralOf255()
    ensures IntToString(255) == "255"
  {
    assert NatToString(2) == "2";
    assert NatToString(25) == NatToString(2) + [DigitChar(5)] == "25";
    assert NatToString(255) == NatToString(25) + [DigitChar(5)] == "255";
  }

  lemma ReadSizeLine(h: Header, width: int, height: int)
    requires h.width.None? && h.height.None? && !h.contentReached
    requires 0 <= width <= INT_MAX && InInt32(height)
    ensures ReadLine(h, SizeLine(width, height)) == Success(h.(width := Some(width), height := Some(height)))
  {
    var a, b := IntToString(width), IntToString(height);
    IntToStringPlain(width);
    IntToStringPlain(height);
    SplitTwo(a, ' ', b);
    assert SizeLine(width, height) == a + [' '] + b;
    assert !IsComment(SizeLine(width, height)) by {
      assert SizeLine(width, height)[0] == a[0] && IsDigit(a[0]);
    }
    ParseIntToString(width);
    ParseIntToString(height);
  }

  lemma ReadMaxLine(h: Header)
    requires !h.contentReached
    ensures ReadLine(h, "255") == Success(h.(maxVal := Some(255), contentReached := true))
  {
    NumeralOf255();
    ParseIntToString(255);
    assert Split("255", ' ') == ["255"];
  }

  /** The size line sets width and height, the "255" line the max value. */
  lemma ReadSizeAndMax(h: Header, width: int, height: int)
    requires h.width.None? && h.height.None? && !h.contentReached
    requires 0 <= width <= INT_MAX && InInt32(height)
    ensures ReadLines(h, [SizeLine(width, height), "255"]) ==
      Success(h.(width := Some(width), height := Some(height), maxVal := Some(255), contentReached := true))
  {
    var lines := [SizeLine(width, height), "255"];
    ReadSizeLine(h, width, height);
    var g := h.(width := Some(width), height := Some(height));
    ReadMaxLine(g);
    assert lines[..1] == [SizeLine(width, height)] && lines[..1][..0] == [];
    assert ReadLines(h, lines[..1]) == Success(g);
  }

  /** The header the reader collects from the rendered lines. */
  function HeaderRead(comments: seq<string>, width: int, height: int, window: seq<seq<Rgb>>): Header
    requires |comments| >= 1 && IsComment(comments[0])
  {
    Header(CommentsRead(comments), Some(width), Some(height), Some(255), true, RowTexts(PixMap, window))
  }

  lemma ReadCommentLines(comments: seq<string>)
    requires Writable(comments)
    ensures ReadLines(EMPTY_HEADER, CommentLines(comments)) == Success(EMPTY_HEADER.(comments := CommentsRead(comments)))
  {
    var c := CommentLines(comments);
    forall i | 0 <= i < |c|
      ensures IsComment(c[i]) && Uncommented(c[i]) == CommentsRead(comments)[i]
    {
      if i > 0 {
        assert c[i] == "#" + comments[1..][i - 1];
      }
    }
    ReadComments(EMPTY_HEADER, c);
    assert seq(|c|, i requires 0 <= i < |c| => Uncommented(c[i])) == CommentsRead(comments);
    assert EMPTY_HEADER.comments + CommentsRead(comments) == CommentsRead(comments);
  }

  lemma RowTextsPlain(window: seq<seq<Rgb>>)
    ensures forall i :: 0 <= i < |window| ==> !IsComment(RowTexts(PixMap, window)[i])
  {
    var rows := RowTexts(PixMap, window);
    forall i | 0 <= i < |rows|
      ensures !IsComment(rows[i])
    {
      RowTextSpaced(window[i]);
      SpacedNumeralText(Concat(window[i]));
      NumeralTextSingle(rows[i]);
    }
  }

  lemma FileLinesTail(comments: seq<string>, width: int, height: int, window: seq<seq<Rgb>>)
    requires comments != []
    ensures FileLines(comments, width, height, window)[1..] ==
      CommentLines(comments) + [SizeLine(width, height), "255"] + RowTexts(PixMap, window)
  {
    DropHead("P3", CommentLines(comments), [SizeLine(width, height), "255"], RowTexts(PixMap, window));
  }

  lemma DropHead<T>(x: T, a: seq<T>, b: seq<T>, c: seq<T>)
    ensures ([x] + a + b + c)[1..] == a + b + c
  {
    assert [x] + a + b + c == [x] + (a + b + c);
  }

  lemma ReadLinesThree(h: Header, a: seq<string>, b: seq<string>, c: seq<string>, g1: Header, g2: Header, g3: Header)
    requires ReadLines(h, a) == Success(g1) && ReadLines(g1, b) == Success(g2) && ReadLines(g2, c) == Success(g3)
    ensures ReadLines(h, a + b + c) == Success(g3)
  {
    ReadLinesAppend(h, a, b);
    ReadLinesAppend(h, a + b, c);
  }

  lemma RenderedHeader(comments: seq<string>, width: int, height: int, window: seq<seq<Rgb>>)
    requires Writable(comments) && 0 <= width <= INT_MAX && InInt32(height)
    ensures HeaderOf(FileLines(comments, width, height, window)) == Success(HeaderRead(comments, width, height, window))
  {
    var c := CommentLines(comments);
    var tail := [SizeLine(width, height), "255"];
    var rows := RowTexts(PixMap, window);
    FileLinesTail(comments, width, height, window);
    var read := CommentsRead(comments);
    ReadCommentLines(comments);
    var g1 := Header(read, None, None, None, false, []);
    ReadSizeAndMax(g1, width, height);
    var g2 := Header(read, Some(width), Some(height), Some(255), true, []);
    RowTextsPlain(window);
    ReadContent(g2, rows);
    assert [] + rows == rows;
    ReadLinesThree(EMPTY_HEADER, c, tail, rows, g1, g2, HeaderRead(comments, width, height, window));
  }

  // ---------------------------------------------------------------------------
  // the pixels

  lemma {:induction false} ConcatPixels(window: seq<seq<Rgb>>)
    requires forall i, j :: 0 <= i < |window| && 0 <= j < |window[i]| ==> |window[i][j]| == 3
    ensures forall k :: 0 <= k < |Concat(window)| ==> |Concat(window)[k]| == 3
  {
    if window != [] {
      var n := |window| - 1;
      ConcatPixels(window[..n]);
      assert Concat(window) == Concat(window[..n]) + window[n];
    }
  }

  lemma {:induction false} ConcatComponents(pixels: seq<Rgb>)
    requires forall i, k :: 0 <= i < |pixels| && 0 <= k < |pixels[i]| ==> InInt32(pixels[i][k])
    ensures forall k :: 0 <= k < |Concat(pixels)| ==> InInt32(Concat(pixels)[k])
  {
    if pixels != [] {
      var n := |pixels| - 1;
      ConcatComponents(pixels[..n]);
      assert Concat(pixels) == Concat(pixels[..n]) + pixels[n];
    }
  }

  lemma {:induction false} ConcatWindowComponents(window: seq<seq<Rgb>>)
    requires forall i, j, k :: 0 <= i < |window| && 0 <= j < |window[i]| && 0 <= k < |window[i][j]| ==> InInt32(window[i][j][k])
    ensures forall i, k :: 0 <= i < |Concat(window)| && 0 <= k < |Concat(window)[i]| ==> InInt32(Concat(window)[i][k])
  {
    if window != [] {
      var n := |window| - 1;
      ConcatWindowComponents(window[..n]);
      assert Concat(window) == Concat(window[..n]) + window[n];
    }
  }

  lemma MulDiv(a: int, b: int)
    requires a >= 0 && b > 0
    ensures TruncDiv(a * b, b) == a
  {
    var q, r := (a * b) / b, (a * b) % b;
    assert a * b == q * b + r;
    assert (a - q) * b == r;
    NoSmallMultiple(a - q, b, r);
  }

  lemma NoSmallMultiple(d: int, b: int, r: int)
    requires b > 0 && 0 <= r < b && d * b == r
    ensures d == 0
  {
    assert d * b >= 0 ==> d >= 0;
    assert d >= 1 ==> d * b >= b;
  }

  /** Every row the reader cuts out of the pixels of a written window is that row of the window. */
  lemma RowsOfWindow(window: seq<seq<Rgb>>, width: int, height: int)
    requires IsWindow(window, width, height) && width >= 0
    ensures RowsOf(Concat(window), width, height) == Success(Wrapped(window))
  {
    var pixels := Concat(window);
    ConcatLength(window, width);
    RowsSucceed(pixels, width, height);
    var rows := RowsOf(pixels, width, height).value;
    forall i | 0 <= i < height
      ensures rows[i] == Wrapped(window)[i]
    {
      ConcatSlice(window, width, i);
      forall k | 0 <= k < width
        ensures rows[i][k] == Some(window[i][k])
      {
        assert pixels[i * width + k] == pixels[i * width .. i * width + width][k];
      }
    }
    assert rows == Wrapped(window);
  }

  lemma {:induction false} RowsSucceed(pixels: seq<Rgb>, width: int, n: nat)
    requires width >= 0 && n * width <= |pixels|
    ensures RowsOf(pixels, width, n).Success?
  {
    if n > 0 {
      assert (n - 1) * width + width == n * width;
      RowsSucceed(pixels, width, n - 1);
    }
  }

  /** The part both versions of the reader share, on the file render wrote. */
  lemma ScannedRendered(path: string, text: string, comments: seq<string>, width: int, height: int, window: seq<seq<Rgb>>)
    requires PathCheck(path).Pass? && Writable(comments)
    requires 1 <= width <= INT_MAX && 0 <= height <= INT_MAX && width * height >= 1
    requires IsWindow(window, width, height)
    requires text == JoinLines(FileLines(comments, width, height, window))
    ensures ScannedFile(path, Some(text)) == Success(Scanned(HeaderRead(comments, width, height, window), Dimensions(height, width, height), Wrapped(window)))
  {
    var lines := FileLines(comments, width, height, window);
    FileSingleLines(comments, width, height, window);
    LinesOfJoinLines(lines);
    RenderedHeader(comments, width, height, window);
    var h := HeaderRead(comments, width, height, window);
    var pixels := Concat(window);
    var values := Concat(pixels);
    ConcatLength(window, width);
    ConcatPixels(window);
    ConcatLength(pixels, 3);
    ContentTokens(window, width, height);
    ConcatWindowComponents(window);
    ConcatComponents(pixels);
    ValuesOfNumerals(values);
    TriplesOfConcat(pixels);
    MulDiv(height, width);
    assert Allocation(h, |pixels|) == Success(Dimensions(height, width, height));
    RowsOfWindow(window, width, height);
  }

  /** `trim().split(" +")` of the content lines gives the numerals of every component. */
  lemma ContentTokens(window: seq<seq<Rgb>>, width: int, height: int)
    requires IsWindow(window, width, height) && width >= 1 && height >= 1
    ensures Tokens(RowTexts(PixMap, window)) == Numerals(Concat(Concat(window)))
  {
    var text := Join(RowTexts(PixMap, window), " ");
    WordsOfContent(window);
    NumeralTextSingle(text);
    ConcatLength(window, width);
    ConcatPixels(window);
    ConcatLength(Concat(window), 3);
    assert |Concat(Concat(window))| == |Concat(window)| * 3 >= 1 by {
      assert |Concat(window)| == height * width >= 1;
    }
    SplitSpacesIsWords(text);
  }

  // ---------------------------------------------------------------------------
  // the round trip, and what the reader as written does instead

  /** The first `columns` pixels of every row. */
  function Cropped(window: seq<seq<Rgb>>, columns: nat): (cropped: seq<seq<Rgb>>)
    requires forall i :: 0 <= i < |window| ==> columns <= |window[i]|
    ensures |cropped| == |window|
    ensures forall i :: 0 <= i < |window| ==> cropped[i] == window[i][..columns]
  {
    seq(|window|, i requires 0 <= i < |window| => window[i][..columns])
  }

  lemma CroppedToWidth(window: seq<seq<Rgb>>, width: nat)
    requires forall i :: 0 <= i < |window| ==> |window[i]| == width
    ensures Cropped(window, width) == window
  {
    var cropped := Cropped(window, width);
    forall i | 0 <= i < |window|
      ensures cropped[i] == window[i]
    {
      assert window[i][..width] == window[i];
    }
  }

  /** Reading, from a window with every pixel present, the first `columns` pixels of every row. */
  lemma ContentOfWrapped(window: seq<seq<Rgb>>, width: int, height: int, columns: nat)
    requires IsWindow(window, width, height) && columns <= width
    ensures ContentRows(Wrapped(window), columns, height) == Success(Cropped(window, columns))
  {
    var rows := Wrapped(window);
    assert forall i, p :: 0 <= i < height && 0 <= p < columns ==> Readable(rows[i], p);
    var content := ContentRows(rows, columns, height).value;
    var cropped := Cropped(window, columns);
    forall i | 0 <= i < height
      ensures content[i] == cropped[i]
    {
      assert |content[i]| == columns == |cropped[i]|;
      forall p | 0 <= p < columns
        ensures content[i][p] == cropped[i][p]
      {
        assert content[i][p] == rows[i][p].value;
      }
    }
    assert content == cropped;
  }

  lemma DecodedOf(path: string, text: string, s: Scanned, content: seq<seq<Rgb>>)
    requires ScannedFile(path, Some(text)) == Success(s) && s.dimensions.width >= 0
    requires ContentRows(s.rows, s.dimensions.width, |s.rows|) == Success(content)
    ensures Decoded(path, Some(text)) == Success(ImageOf(s, content))
  {
  }

  lemma DecodedAsWrittenOf(path: string, text: string, s: Scanned, content: Result<seq<seq<Rgb>>, BitmapError>)
    requires ScannedFile(path, Some(text)) == Success(s)
    requires ContentRows(s.rows, s.dimensions.columns, |s.rows|) == content
    ensures DecodedAsWritten(path, Some(text)) == if content.Success? then Success(ImageOf(s, content.value)) else Failure(content.error)
  {
  }

  /**
   * Rendering a window in the ppm format and reading the file back gives its size,
   * the comments, the max value 255, every pixel in `content_as_rows`, and the window
   * itself as the int array for the canvas.
   */
  lemma {:induction false} RoundTrip(filename: string, path: string, comments: seq<string>, width: int, height: int, window: seq<seq<Rgb>>)
    requires FormatName(filename) == Success("ppm") && PathCheck(path).Pass?
    requires Writable(comments)
    requires 1 <= width <= INT_MAX && 1 <= height <= INT_MAX
    requires IsWindow(window, width, height)
    ensures RenderText(filename, comments, width, height, window).Success?
    ensures Decoded(path, Some(RenderText(filename, comments, width, height, window).value)) == Success(Expected(comments, width, height, window))
  {
    RenderedScan(filename, path, comments, width, height, window);
    var text := RenderText(filename, comments, width, height, window).value;
    var s := Scanned(HeaderRead(comments, width, height, window), Dimensions(height, width, height), Wrapped(window));
    ContentOfWrapped(window, width, height, width);
    CroppedToWidth(window, width);
    DecodedOf(path, text, s, window);
  }

  /** What readFromFile's scan finds in the file render wrote: the header, the size, and every pixel present. */
  lemma {:induction false} RenderedScan(filename: string, path: string, comments: seq<string>, width: int, height: int, window: seq<seq<Rgb>>)
    requires FormatName(filename) == Success("ppm") && PathCheck(path).Pass?
    requires Writable(comments)
    requires 1 <= width <= INT_MAX && 1 <= height <= INT_MAX
    requires IsWindow(window, width, height)
    ensures RenderText(filename, comments, width, height, window).Success?
    ensures ScannedFile(path, Some(RenderText(filename, comments, width, height, window).value)) ==
      Success(Scanned(HeaderRead(comments, width, height, window), Dimensions(height, width, height), Wrapped(window)))
  {
    RenderedJoin(filename, comments, width, height, window);
    PositiveProduct(width, height);
    ScannedRendered(path, JoinLines(FileLines(comments, width, height, window)), comments, width, height, window);
  }

  lemma PositiveProduct(a: int, b: int)
    requires a >= 1 && b >= 1
    ensures a * b >= 1
  {
    assert a * b >= 1 * b;
  }

  /**
   * readFromFile as written, on the same file: the int array has `height` columns, so
   * an image taller than it is wide ends in an ArrayIndexOutOfBoundsException and a
   * wider one keeps only the first `height` pixels of each row.
   */
  lemma {:induction false} AsWrittenContent(filename: string, path: string, comments: seq<string>, width: int, height: int, window: seq<seq<Rgb>>)
    requires FormatName(filename) == Success("ppm") && PathCheck(path).Pass?
    requires Writable(comments)
    requires 1 <= width <= INT_MAX && 1 <= height <= INT_MAX
    requires IsWindow(window, width, height)
    ensures RenderText(filename, comments, width, height, window).Success?
    ensures DecodedAsWritten(path, Some(RenderText(filename, comments, width, height, window).value)) ==
      if height > width then Failure(IndexOutOfBounds)
      else Success(Expected(comments, width, height, window).(content := Cropped(window, height)))
  {
    RenderedScan(filename, path, comments, width, height, window);
    var text := RenderText(filename, comments, width, height, window).value;
    var s := Scanned(HeaderRead(comments, width, height, window), Dimensions(height, width, height), Wrapped(window));
    ContentAsWritten(window, width, height);
    DecodedAsWrittenOf(path, text, s, if height > width then Failure(IndexOutOfBounds) else Success(Cropped(window, height)));
  }

  /** The rows read `height` columns wide: past the end of a narrower row, the first `height` pixels of a wider one. */
  lemma {:induction false} ContentAsWritten(window: seq<seq<Rgb>>, width: int, height: int)
    requires 1 <= width && 1 <= height
    requires IsWindow(window, width, height)
    ensures ContentRows(Wrapped(window), height, height) ==
      if height > width then Failure(IndexOutOfBounds) else Success(Cropped(window, height))
  {
    if height > width {
      ContentRowsPastEnd(Wrapped(window), height, width);
    } else {
      ContentOfWrapped(window, width, height, height);
    }
  }

  /** Reading more columns than the rows hold fails on the first row, past its end. */
  lemma ContentRowsPastEnd(rows: seq<seq<Option<Rgb>>>, columns: nat, width: nat)
    requires |rows| >= 1 && columns > width
    requires forall i :: 0 <= i < |rows| ==> |rows[i]| == width
    requires forall i, p :: 0 <= i < |rows| && 0 <= p < width ==> rows[i][p].Some?
    ensures ContentRows(rows, columns, |rows|) == Failure(IndexOutOfBounds)
  {
    var row := rows[0];
    assert ContentRow(row, width).Success?;
    assert ContentRow(row, width + 1) == Failure(IndexOutOfBounds);
    RowFailureSticks(row, width + 1, columns);
    assert ContentRows(rows, columns, 0) == Success([]);
    assert ContentRows(rows, columns, 1) == Failure(IndexOutOfBounds);
    RowsContentFailureSticks(rows, columns, 1, |rows|);
  }

  /** The smallest such image: one pixel wide and two tall, rendered as "x.ppm". */
  lemma TallImageAsWritten()
    ensures var text := RenderText("x.ppm", ["#x"], 1, 2, [[BLACK], [BLACK]]);
      && text.Success?
      && DecodedAsWritten("x.ppm", Some(text.value)) == Failure(IndexOutOfBounds)
      && Decoded("x.ppm", Some(text.value)) == Success(Expected(["#x"], 1, 2, [[BLACK], [BLACK]]))
  {
    TallImageFits();
    RoundTrip("x.ppm", "x.ppm", ["#x"], 1, 2, [[BLACK], [BLACK]]);
    AsWrittenContent("x.ppm", "x.ppm", ["#x"], 1, 2, [[BLACK], [BLACK]]);
  }

  lemma TallImageFits()
    ensures FormatName("x.ppm") == Success("ppm") && PathCheck("x.ppm").Pass?
    ensures Writable(["#x"]) && IsWindow([[BLACK], [BLACK]], 1, 2)
  {
    FormatNameOfExtension("x", "ppm");
    PathCheckOfExtension("x", "ppm");
    assert "x" + "." + "ppm" == "x.ppm";
    OneComment("#x");
    ColumnOfTwo(BLACK);
  }

  lemma OneComment(comment: string)
    requires |comment| == 2 && comment[0] == '#' && comment[1] != '\n'
    ensures Writable([comment])
  {
  }

  lemma ColumnOfTwo(pixel: Rgb)
    requires |pixel| == 3 && forall k :: 0 <= k < 3 ==> InInt32(pixel[k])
    ensures IsWindow([[pixel], [pixel]], 1, 2)
  {
  }
}
