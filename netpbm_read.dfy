/**
 * Bitmap.readFromFile: reading a plain PPM file back. The header lines are folded
 * into a `Header`, the remaining lines are split into numerals, grouped into colour
 * triples, cut into rows of `width` pixels (`content_as_rows`, padded with null as
 * `Arrays.copyOfRange` pads), and copied into the int array meant for the canvas.
 */
module NetpbmRead {
  import opened Wrappers
  import opened JavaMath
  import opened JavaText
  import opened Pixels

  // ---------------------------------------------------------------------------
  // sequences of sequences

  /** The elements of all the parts, in order. */
  function Concat<T>(parts: seq<seq<T>>): seq<T>
  {
    if parts == [] then [] else Concat(parts[..|parts| - 1]) + parts[|parts| - 1]
  }

  lemma {:induction false} ConcatAppend<T>(a: seq<seq<T>>, b: seq<seq<T>>)
    ensures Concat(a + b) == Concat(a) + Concat(b)
    decreases |b|
  {
    if b == [] {
      assert a + b == a;
    } else {
      var n := |b| - 1;
      assert (a + b)[..|a + b| - 1] == a + b[..n];
      ConcatAppend(a, b[..n]);
    }
  }

  lemma MulStep(i: int, n: int, w: int)
    requires 0 <= i < n && w >= 0
    ensures i * w + w <= n * w
  {
    assert (i + 1) * w <= n * w by {
      if w > 0 {
        assert i + 1 <= n;
      }
    }
  }

  lemma SliceLeft<T>(a: seq<T>, b: seq<T>, x: int, y: int)
    requires 0 <= x <= y <= |a|
    ensures (a + b)[x..y] == a[x..y]
  {
  }

  /** Parts of equal length `w` lie side by side: part i is the slice from i * w. */
  lemma {:induction false} ConcatSlice<T>(parts: seq<seq<T>>, w: nat, i: nat)
    requires forall k :: 0 <= k < |parts| ==> |parts[k]| == w
    requires i < |parts|
    ensures |Concat(parts)| == |parts| * w
    ensures i * w + w <= |Concat(parts)| && Concat(parts)[i * w .. i * w + w] == parts[i]
  {
    var n := |parts| - 1;
    var init := parts[..n];
    ConcatLength(parts, w);
    ConcatLength(init, w);
    assert Concat(parts) == Concat(init) + parts[n];
    if i < n {
      ConcatSlice(init, w, i);
      MulStep(i, n, w);
      SliceLeft(Concat(init), parts[n], i * w, i * w + w);
    } else {
      SliceRight(Concat(init), parts[n]);
    }
  }

  lemma SliceRight<T>(a: seq<T>, b: seq<T>)
    ensures (a + b)[|a|..|a| + |b|] == b
  {
  }

  lemma {:induction false} ConcatLength<T>(parts: seq<seq<T>>, w: nat)
    requires forall k :: 0 <= k < |parts| ==> |parts[k]| == w
    ensures |Concat(parts)| == |parts| * w
  {
    if parts != [] {
      ConcatLength(parts[..|parts| - 1], w);
      assert |parts| * w == (|parts| - 1) * w + w;
    }
  }

  // ---------------------------------------------------------------------------
  // the path and the header

  /**
   * The format test of readFromFile: the path must contain a '.', and its second
   * '.'-separated part must be "ppm"; a path whose parts after the split are fewer
   * than two ends in an ArrayIndexOutOfBoundsException.
   */
  function PathCheck(path: string): (r: Outcome<BitmapError>)
    ensures r.Pass? <==> '.' in path && |Split(path, '.')| >= 2 && Split(path, '.')[1] == "ppm"
    ensures r.Fail? ==> r.error == NotPpm || r.error == IndexOutOfBounds
    ensures '.' !in path ==> r == Fail(NotPpm)
  {
    if '.' !in path then Fail(NotPpm)
    else
      var parts := Split(path, '.');
      if |parts| < 2 then Fail(IndexOutOfBounds)
      else if parts[1] != "ppm" then Fail(NotPpm)
      else Pass
  }

  lemma PathCheckOfExtension(base: string, extension: string)
    requires '.' !in base && '.' !in extension && extension != ""
    ensures PathCheck(base + "." + extension).Pass? <==> extension == "ppm"
  {
    SplitTwo(base, '.', extension);
    assert base + "." + extension == base + ['.'] + extension;
    assert '.' in base + "." + extension by {
      assert (base + "." + extension)[|base|] == '.';
    }
  }

  /** The local variables of the header loop: what has been read so far. */
  datatype Header = Header(
    comments: seq<string>,
    width: Option<int>,
    height: Option<int>,
    maxVal: Option<int>,
    contentReached: bool,
    content: seq<string>)

  const EMPTY_HEADER: Header := Header([], None, None, None, false, [])

  /** Width and height are read together, the max value ends the header, content comes after it. */
  predicate Consistent(h: Header)
  {
    && (h.width.Some? <==> h.height.Some?)
    && (h.maxVal.Some? <==> h.contentReached)
    && (h.content != [] ==> h.contentReached)
  }

  predicate IsComment(line: string)
  {
    |line| > 0 && line[0] == '#'
  }

  /**
   * One pass of the header loop: a line starting with '#' is a comment at any point;
   * before the max value a line of several space-separated fields is the width and
   * height (refused when they were already read, or when the fields are not two), and
   * a line of one field is the max value; every other line after it is content.
   */
  function ReadLine(h: Header, line: string): (r: Result<Header, BitmapError>)
    ensures r.Success? ==> h.comments <= r.value.comments && h.content <= r.value.content
    ensures r.Success? && h.contentReached ==>
      r.value.contentReached && r.value.width == h.width && r.value.height == h.height && r.value.maxVal == h.maxVal
    ensures r.Failure? ==> !IsComment(line) && !h.contentReached
    ensures r.Success? && Consistent(h) ==> Consistent(r.value)
  {
    if IsComment(line) then Success(h.(comments := h.comments + [line[1..]]))
    else if h.contentReached then Success(h.(content := h.content + [line]))
    else
      var fields := Split(line, ' ');
      if |fields| > 1 then
        if h.width.Some? || h.height.Some? then Failure(NoMaxValue)
        else if |fields| != 2 then Failure(NoDimensions)
        else if ParseInt(fields[0]).None? || ParseInt(fields[1]).None? then Failure(BadNumber)
        else Success(h.(width := ParseInt(fields[0]), height := ParseInt(fields[1])))
      else if ParseInt(line).None? then Failure(BadMaxValue)
      else Success(h.(maxVal := ParseInt(line), contentReached := true))
  }

  /** The header loop over `lines`, starting from `h`; the first failing line ends it. */
  function ReadLines(h: Header, lines: seq<string>): Result<Header, BitmapError>
  {
    if lines == [] then Success(h)
    else
      match ReadLines(h, lines[..|lines| - 1])
      case Failure(e) => Failure(e)
      case Success(g) => ReadLine(g, lines[|lines| - 1])
  }

  /** The loop starts at index 1: the first line, the magic number, is never looked at. */
  function HeaderOf(lines: seq<string>): Result<Header, BitmapError>
  {
    if |lines| == 0 then Success(EMPTY_HEADER) else ReadLines(EMPTY_HEADER, lines[1..])
  }

  lemma {:induction false} ReadLinesFailureSticks(h: Header, lines: seq<string>, m: nat)
    requires m <= |lines| && ReadLines(h, lines[..m]).Failure?
    ensures ReadLines(h, lines) == ReadLines(h, lines[..m])
    decreases |lines| - m
  {
    if m < |lines| {
      assert lines[..m + 1][..m] == lines[..m];
      ReadLinesFailureSticks(h, lines, m + 1);
    } else {
      assert lines[..m] == lines;
    }
  }

  /** Every header the loop reaches keeps `Consistent`, and comments and content only grow. */
  lemma {:induction false} ReadLinesConsistent(h: Header, lines: seq<string>)
    requires Consistent(h)
    ensures ReadLines(h, lines).Success? ==>
      Consistent(ReadLines(h, lines).value) &&
      h.comments <= ReadLines(h, lines).value.comments && h.content <= ReadLines(h, lines).value.content
  {
    if lines != [] {
      ReadLinesConsistent(h, lines[..|lines| - 1]);
    }
  }

  /** The header loop of readFromFile. */
  method ReadHeader(lines: seq<string>) returns (r: Result<Header, BitmapError>)
    ensures r == HeaderOf(lines)
  {
    if |lines| == 0 {
      return Success(EMPTY_HEADER);
    }
    var comments: seq<string> := [];
    var width: Option<int> := None;
    var height: Option<int> := None;
    var maxVal: Option<int> := None;
    var contentReached := false;
    var content: seq<string> := [];
    ghost var rest := lines[1..];
    for index := 1 to |lines|
      invariant ReadLines(EMPTY_HEADER, rest[..index - 1]) == Success(Header(comments, width, height, maxVal, contentReached, content))
    {
      var line := lines[index];
      var error: Option<BitmapError> := None;
      if |line| > 0 && line[0] == '#' {
        comments := comments + [line[1..]];
      } else if !contentReached {
        var fields := Split(line, ' ');
        if |fields| > 1 {
          if width.None? && height.None? {
            if |fields| != 2 {
              error := Some(NoDimensions);
            } else {
              var w := ParseInt(fields[0]);
              var ht := ParseInt(fields[1]);
              if w.None? || ht.None? {
                error := Some(BadNumber);
              } else {
                width, height := w, ht;
              }
            }
          } else {
            error := Some(NoMaxValue);
          }
        } else {
          var m := ParseInt(line);
          if m.None? {
            error := Some(BadMaxValue);
          } else {
            maxVal, contentReached := m, true;
          }
        }
      } else {
        content := content + [line];
      }
      assert rest[..index][..index - 1] == rest[..index - 1] && rest[index - 1] == line;
      if error.Some? {
        ReadLinesFailureSticks(EMPTY_HEADER, rest, index);
        assert rest[..|rest|] == rest;
        return Failure(error.value);
      }
    }
    assert rest[..|lines| - 1] == rest;
    return Success(Header(comments, width, height, maxVal, contentReached, content));
  }

  // ---------------------------------------------------------------------------
  // the colour information

  /** The content lines joined with spaces, trimmed and split at runs of spaces. */
  function Tokens(content: seq<string>): seq<string>
  {
    SplitSpaces(Join(content, " "))
  }

  /** `Integer.valueOf` of every token; None for the NumberFormatException of the first bad one. */
  function Values(tokens: seq<string>): (r: Option<seq<int>>)
    ensures r.Some? <==> forall i :: 0 <= i < |tokens| ==> ParseInt(tokens[i]).Some?
    ensures r.Some? ==> |r.value| == |tokens| && forall i :: 0 <= i < |tokens| ==> ParseInt(tokens[i]) == Some(r.value[i])
  {
    if tokens == [] then Some([])
    else
      var n := |tokens| - 1;
      match Values(tokens[..n])
      case None => None
      case Some(vs) =>
        match ParseInt(tokens[n])
        case None => None
        case Some(v) => Some(vs + [v])
  }

  /** `content_as_pixels`: consecutive triples of values; one or two values left over are dropped. */
  function Triples(values: seq<int>): (pixels: seq<Rgb>)
  {
    seq(|values| / 3, i requires 0 <= i < |values| / 3 => values[3 * i .. 3 * i + 3])
  }

  /** Grouping the values of a sequence of triples gives the triples back. */
  lemma TriplesOfConcat(pixels: seq<Rgb>)
    requires forall k :: 0 <= k < |pixels| ==> |pixels[k]| == 3
    ensures Triples(Concat(pixels)) == pixels
  {
    ConcatLength(pixels, 3);
    var t := Triples(Concat(pixels));
    assert |t| == |pixels|;
    forall i | 0 <= i < |pixels|
      ensures t[i] == pixels[i]
    {
      ConcatSlice(pixels, 3, i);
    }
  }

  /** The loop filling `content_as_pixels`. */
  method Group(values: seq<int>) returns (pixels: seq<Rgb>)
    ensures pixels == Triples(values)
  {
    pixels := [];
    for i := 0 to |values| / 3
      invariant pixels == Triples(values)[..i]
    {
      pixels := pixels + [values[3 * i .. 3 * i + 3]];
    }
  }

  /** The sizes of `new Integer[height][pixels / width][3]`. */
  datatype Dimensions = Dimensions(height: int, width: int, columns: int)

  /**
   * Allocating `content_as_rows`: unboxing a missing height or width throws a
   * NullPointerException, dividing by a zero width an ArithmeticException, and a
   * negative dimension a NegativeArraySizeException.
   */
  function Allocation(h: Header, count: nat): (r: Result<Dimensions, BitmapError>)
    ensures r.Success? <==>
      h.height.Some? && h.width.Some? && h.width.value != 0 && h.height.value >= 0 && TruncDiv(count, h.width.value) >= 0
    ensures r.Success? ==> r.value == Dimensions(h.height.value, h.width.value, TruncDiv(count, h.width.value))
    ensures r.Failure? && (h.height.None? || h.width.None?) ==> r.error == MissingValue
  {
    if h.height.None? || h.width.None? then Failure(MissingValue)
    else if h.width.value == 0 then Failure(ZeroWidth)
    else
      var columns := TruncDiv(count, h.width.value);
      if h.height.value < 0 || columns < 0 then Failure(NegativeSize)
      else Success(Dimensions(h.height.value, h.width.value, columns))
  }

  /** `Arrays.copyOfRange`: refused when from > to or from lies outside, padded with null past the end. */
  function CopyRange(pixels: seq<Rgb>, from: int, to: int): (r: Result<seq<Option<Rgb>>, BitmapError>)
    ensures r.Success? <==> from <= to && 0 <= from <= |pixels|
    ensures r.Failure? ==> r.error == (if from > to then NegativeRange else IndexOutOfBounds)
  {
    if from > to then Failure(NegativeRange)
    else if from < 0 || from > |pixels| then Failure(IndexOutOfBounds)
    else Success(seq(to - from, k requires 0 <= k < to - from => if from + k < |pixels| then Some(pixels[from + k]) else None))
  }

  /** `content_as_rows`: row i holds pixels i * width up to i * width + width, null past the last pixel. */
  function RowsOf(pixels: seq<Rgb>, width: int, n: nat): (r: Result<seq<seq<Option<Rgb>>>, BitmapError>)
    ensures r.Success? ==> |r.value| == n && (n > 0 ==> width >= 0)
    ensures r.Success? ==> forall i, k :: 0 <= i < n && 0 <= k < |r.value[i]| ==>
      r.value[i][k] == if i * width + k < |pixels| then Some(pixels[i * width + k]) else None
    ensures r.Success? ==> forall i :: 0 <= i < n ==> |r.value[i]| == width
    ensures r.Failure? ==> r.error == NegativeRange || r.error == IndexOutOfBounds
  {
    if n == 0 then Success([])
    else
      match RowsOf(pixels, width, n - 1)
      case Failure(e) => Failure(e)
      case Success(rows) =>
        var from := (n - 1) * width;
        match CopyRange(pixels, from, from + width)
        case Failure(e) => Failure(e)
        case Success(row) => Success(rows + [row])
  }

  /** The loop filling `content_as_rows`. */
  method ToRows(pixels: seq<Rgb>, width: int, height: nat) returns (r: Result<seq<seq<Option<Rgb>>>, BitmapError>)
    ensures r == RowsOf(pixels, width, height)
  {
    var rows: seq<seq<Option<Rgb>>> := [];
    for i := 0 to height
      invariant RowsOf(pixels, width, i) == Success(rows)
    {
      var row := CopyRange(pixels, i * width, i * width + width);
      if row.Failure? {
        RowsFailureSticks(pixels, width, i + 1, height);
        return Failure(row.error);
      }
      rows := rows + [row.value];
    }
    return Success(rows);
  }

  lemma {:induction false} RowsFailureSticks(pixels: seq<Rgb>, width: int, m: nat, n: nat)
    requires m <= n && RowsOf(pixels, width, m).Failure?
    ensures RowsOf(pixels, width, n) == RowsOf(pixels, width, m)
    decreases n - m
  {
    if m < n {
      RowsFailureSticks(pixels, width, m + 1, n);
    }
  }

  // ---------------------------------------------------------------------------
  // the int array for the canvas

  /** A cell the copy can read: inside its row and not null. */
  predicate Readable(row: seq<Option<Rgb>>, p: int)
  {
    0 <= p < |row| && row[p].Some?
  }

  /**
   * The first `m` pixels of one row of the int array: a pixel index past the end of
   * the row throws an ArrayIndexOutOfBoundsException, a null pixel a
   * NullPointerException.
   */
  function ContentRow(row: seq<Option<Rgb>>, m: nat): (r: Result<seq<Rgb>, BitmapError>)
    ensures r.Success? <==> forall p :: 0 <= p < m ==> Readable(row, p)
    ensures r.Success? ==> |r.value| == m && forall p :: 0 <= p < m ==> Readable(row, p) && r.value[p] == row[p].value
    ensures r.Failure? ==> r.error == IndexOutOfBounds || r.error == MissingValue
  {
    if m == 0 then Success([])
    else
      match ContentRow(row, m - 1)
      case Failure(e) => Failure(e)
      case Success(cells) =>
        if m - 1 >= |row| || row[m - 1].None? then
          assert !Readable(row, m - 1);
          Failure(if m - 1 >= |row| then IndexOutOfBounds else MissingValue)
        else Success(cells + [row[m - 1].value])
  }

  /** The first `n` rows of the int array, `columns` pixels each, in row-major order. */
  function ContentRows(rows: seq<seq<Option<Rgb>>>, columns: nat, n: nat): (r: Result<seq<seq<Rgb>>, BitmapError>)
    requires n <= |rows|
    ensures r.Success? <==> forall i, p :: 0 <= i < n && 0 <= p < columns ==> Readable(rows[i], p)
    ensures r.Success? ==> |r.value| == n && forall i :: 0 <= i < n ==> |r.value[i]| == columns
    ensures r.Success? ==> forall i, p :: 0 <= i < n && 0 <= p < columns ==> Readable(rows[i], p) && r.value[i][p] == rows[i][p].value
    ensures r.Failure? ==> r.error == IndexOutOfBounds || r.error == MissingValue
  {
    if n == 0 then Success([])
    else
      match ContentRows(rows, columns, n - 1)
      case Failure(e) => Failure(e)
      case Success(done) =>
        match ContentRow(rows[n - 1], columns)
        case Failure(e) => Failure(e)
        case Success(cells) => Success(done + [cells])
  }

  predicate TripleCells(rows: seq<seq<Option<Rgb>>>)
  {
    forall i, p :: 0 <= i < |rows| && 0 <= p < |rows[i]| && rows[i][p].Some? ==> |rows[i][p].value| == 3
  }

  /** The three nested loops copying `content_as_rows` into the int array, component by component. */
  method ToContent(rows: seq<seq<Option<Rgb>>>, columns: nat) returns (r: Result<seq<seq<Rgb>>, BitmapError>)
    requires TripleCells(rows)
    ensures r == ContentRows(rows, columns, |rows|)
  {
    var content: seq<seq<Rgb>> := [];
    for row := 0 to |rows|
      invariant ContentRows(rows, columns, row) == Success(content)
    {
      var cells: seq<Rgb> := [];
      for pixel := 0 to columns
        invariant ContentRow(rows[row], pixel) == Success(cells)
      {
        if pixel >= |rows[row]| || rows[row][pixel].None? {
          var e := if pixel >= |rows[row]| then IndexOutOfBounds else MissingValue;
          RowFailureSticks(rows[row], pixel + 1, columns);
          RowsContentFailureSticks(rows, columns, row + 1, |rows|);
          return Failure(e);
        }
        var source := rows[row][pixel].value;
        var cell: Rgb := [0, 0, 0];
        for c := 0 to 3
          invariant |cell| == 3 && cell[..c] == source[..c]
        {
          cell := cell[c := source[c]];
        }
        assert cell == source[..3] == source;
        cells := cells + [cell];
      }
      content := content + [cells];
    }
    return Success(content);
  }

  lemma {:induction false} RowFailureSticks(row: seq<Option<Rgb>>, m: nat, n: nat)
    requires m <= n && ContentRow(row, m).Failure?
    ensures ContentRow(row, n) == ContentRow(row, m)
    decreases n - m
  {
    if m < n {
      RowFailureSticks(row, m + 1, n);
    }
  }

  lemma {:induction false} RowsContentFailureSticks(rows: seq<seq<Option<Rgb>>>, columns: nat, m: nat, n: nat)
    requires m <= n <= |rows| && ContentRows(rows, columns, m).Failure?
    ensures ContentRows(rows, columns, n) == ContentRows(rows, columns, m)
    decreases n - m
  {
    if m < n {
      RowsContentFailureSticks(rows, columns, m + 1, n);
    }
  }

  // ---------------------------------------------------------------------------
  // readFromFile

  /** What the loops have read before the int array is allocated. */
  datatype Scanned = Scanned(header: Header, dimensions: Dimensions, rows: seq<seq<Option<Rgb>>>)

  /**
   * The part of readFromFile both versions of the int array share: the path test,
   * opening the file (None when it does not exist), the header loop, the numerals,
   * the triples, the allocation of `content_as_rows` and its rows.
   */
  function ScannedFile(path: string, file: Option<string>): (r: Result<Scanned, BitmapError>)
    ensures r.Success? ==> PathCheck(path).Pass? && file.Some?
    ensures r.Success? ==> |r.value.rows| == r.value.dimensions.height && TripleCells(r.value.rows)
    ensures r.Success? ==> r.value.header.width == Some(r.value.dimensions.width) && r.value.header.height == Some(r.value.dimensions.height)
  {
    match PathCheck(path)
    case Fail(e) => Failure(e)
    case Pass =>
      match file
      case None => Failure(NoSuchFile)
      case Some(text) =>
        match HeaderOf(Lines(text))
        case Failure(e) => Failure(e)
        case Success(h) =>
          match Values(Tokens(h.content))
          case None => Failure(BadNumber)
          case Some(values) =>
            var pixels := Triples(values);
            match Allocation(h, |pixels|)
            case Failure(e) => Failure(e)
            case Success(d) =>
              match RowsOf(pixels, d.width, d.height)
              case Failure(e) => Failure(e)
              case Success(rows) =>
                RowsOfTriples(pixels, d.width, d.height);
                Success(Scanned(h, d, rows))
  }

  lemma RowsOfTriples(pixels: seq<Rgb>, width: int, n: nat)
    requires forall k :: 0 <= k < |pixels| ==> |pixels[k]| == 3
    ensures RowsOf(pixels, width, n).Success? ==> TripleCells(RowsOf(pixels, width, n).value)
  {
    if RowsOf(pixels, width, n).Success? {
      var rows: seq<seq<Option<Rgb>>> := RowsOf(pixels, width, n).value;
      forall i, p | 0 <= i < |rows| && 0 <= p < |rows[i]| && rows[i][p].Some?
        ensures |rows[i][p].value| == 3
      {
        assert i * width + p < |pixels| && rows[i][p].value == pixels[i * width + p];
      }
    }
  }

  /** The result of readFromFile: {width, height, maxVal, comments}, `content_as_rows`, and the int array for the canvas. */
  datatype PpmImage = PpmImage(
    width: int,
    height: int,
    maxVal: Option<int>,
    comments: seq<string>,
    rows: seq<seq<Option<Rgb>>>,
    content: seq<seq<Rgb>>)

  function ImageOf(s: Scanned, content: seq<seq<Rgb>>): PpmImage
  {
    PpmImage(s.dimensions.width, s.dimensions.height, s.header.maxVal, s.header.comments, s.rows, content)
  }

  /** readFromFile as written: the int array has `pixels / width` columns. */
  function DecodedAsWritten(path: string, file: Option<string>): (r: Result<PpmImage, BitmapError>)
    ensures r.Success? ==> |r.value.content| == r.value.height
  {
    match ScannedFile(path, file)
    case Failure(e) => Failure(e)
    case Success(s) =>
      match ContentRows(s.rows, s.dimensions.columns, |s.rows|)
      case Failure(e) => Failure(e)
      case Success(content) => Success(ImageOf(s, content))
  }

  /**
   * readFromFile with the int array allocated `width` columns wide: the canvas gets
   * every pixel of every row, and a file with too few pixels is refused.
   */
  function Decoded(path: string, file: Option<string>): (r: Result<PpmImage, BitmapError>)
    ensures r.Success? ==> |r.value.content| == r.value.height == |r.value.rows|
    ensures r.Success? ==> forall i :: 0 <= i < r.value.height ==> |r.value.content[i]| == r.value.width == |r.value.rows[i]|
    ensures r.Success? ==> forall i, p :: 0 <= i < r.value.height && 0 <= p < r.value.width ==>
      r.value.rows[i][p] == Some(r.value.content[i][p])
  {
    match ScannedFile(path, file)
    case Failure(e) => Failure(e)
    case Success(s) =>
      if s.dimensions.width < 0 then Failure(NegativeSize)
      else
        match ContentRows(s.rows, s.dimensions.width, |s.rows|)
        case Failure(e) => Failure(e)
        case Success(content) => Success(ImageOf(s, content))
  }

  /** The loops of readFromFile up to `content_as_rows`. */
  method ScanFile(path: string, file: Option<string>) returns (r: Result<Scanned, BitmapError>)
    ensures r == ScannedFile(path, file)
  {
    var check := PathCheck(path);
    if check.Fail? {
      return Failure(check.error);
    }
    if file.None? {
      return Failure(NoSuchFile);
    }
    var header := ReadHeader(Lines(file.value));
    if header.Failure? {
      return Failure(header.error);
    }
    var h := header.value;
    var values := Values(Tokens(h.content));
    if values.None? {
      return Failure(BadNumber);
    }
    var pixels := Group(values.value);
    var d := Allocation(h, |pixels|);
    if d.Failure? {
      return Failure(d.error);
    }
    var rows := ToRows(pixels, d.value.width, d.value.height);
    if rows.Failure? {
      return Failure(rows.error);
    }
    return Success(Scanned(h, d.value, rows.value));
  }

  /** readFromFile as written. */
  method ReadFromFileAsWritten(path: string, file: Option<string>) returns (r: Result<PpmImage, BitmapError>)
    ensures r == DecodedAsWritten(path, file)
  {
    var scanned := ScanFile(path, file);
    if scanned.Failure? {
      return Failure(scanned.error);
    }
    var s := scanned.value;
    var content := ToContent(s.rows, s.dimensions.columns);
    if content.Failure? {
      return Failure(content.error);
    }
    return Success(ImageOf(s, content.value));
  }

  /** readFromFile with the int array `width` columns wide. */
  method ReadFromFile(path: string, file: Option<string>) returns (r: Result<PpmImage, BitmapError>)
    ensures r == Decoded(path, file)
  {
    var scanned := ScanFile(path, file);
    if scanned.Failure? {
      return Failure(scanned.error);
    }
    var s := scanned.value;
    if s.dimensions.width < 0 {
      return Failure(NegativeSize);
    }
    var content := ToContent(s.rows, s.dimensions.width);
    if content.Failure? {
      return Failure(content.error);
    }
    return Success(ImageOf(s, content.value));
  }
}
