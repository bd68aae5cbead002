/**
 * The text Bitmap.render writes: a plain (ASCII) Netpbm image, PPM (P3), PBM (P1) or
 * PGM (P2), chosen by the extension of the file name, built in a StringBuilder row by
 * row and pixel by pixel.
 */
module Netpbm {
  import opened Wrappers
  import opened JavaMath
  import opened JavaText
  import opened Pixels

  datatype Format = PixMap | BitMap | GrayMap

  /**
   * The format name render reads off the file name: the second '.'-separated part, or
   * "ppm" when there is none; a name shorter than two characters fails first (the
   * drive-letter test takes its first two characters).
   */
  function FormatName(filename: string): (r: Result<string, BitmapError>)
    ensures r.Failure? <==> |filename| < 2
    ensures r.Failure? ==> r.error == FilenameTooShort
    ensures r.Success? && '.' !in filename ==> r.value == "ppm"
  {
    if |filename| < 2 then Failure(FilenameTooShort)
    else
      var parts := Split(filename, '.');
      Success(if |parts| >= 2 then parts[1] else "ppm")
  }

  /** The name of a file with one extension selects that extension. */
  lemma FormatNameOfExtension(base: string, extension: string)
    requires '.' !in base && '.' !in extension && extension != ""
    ensures FormatName(base + "." + extension) == Success(extension)
  {
    SplitTwo(base, '.', extension);
    assert base + "." + extension == base + ['.'] + extension;
  }

  /** The switch of render: the three supported names, anything else refused. */
  function FormatOf(name: string): (r: Result<Format, BitmapError>)
    ensures r.Success? <==> name == "ppm" || name == "pbm" || name == "pgm"
    ensures r.Failure? ==> r.error == UnsupportedFormat(name)
  {
    if name == "ppm" then Success(PixMap)
    else if name == "pbm" then Success(BitMap)
    else if name == "pgm" then Success(GrayMap)
    else Failure(UnsupportedFormat(name))
  }

  /** The sum of the components of a pixel, as the pbm and pgm loops add them. */
  function Sum(pixel: Rgb): int
  {
    if pixel == [] then 0 else Sum(pixel[..|pixel| - 1]) + pixel[|pixel| - 1]
  }

  /** The threshold of the pbm writer: 255 * 3 / 2 in int arithmetic. */
  const BRIGHT: int := 255 * 3 / 2

  /** Each component followed by a space. */
  function Components(pixel: Rgb): string
  {
    if pixel == [] then "" else Components(pixel[..|pixel| - 1]) + IntToString(pixel[|pixel| - 1]) + " "
  }

  /** What render writes for one pixel. */
  function PixelText(format: Format, pixel: Rgb): string
  {
    match format
    case PixMap => Components(pixel)
    case BitMap => IntToString(if Sum(pixel) > BRIGHT then 0 else 1) + " "
    case GrayMap => IntToString(TruncDiv(Sum(pixel), 3)) + " "
  }

  /** The pixels of one row, without the line break. */
  function RowText(format: Format, row: seq<Rgb>): string
  {
    if row == [] then "" else RowText(format, row[..|row| - 1]) + PixelText(format, row[|row| - 1])
  }

  /** Each row on a line of its own. */
  function BodyText(format: Format, window: seq<seq<Rgb>>): string
  {
    if window == [] then "" else BodyText(format, window[..|window| - 1]) + RowText(format, window[|window| - 1]) + "\n"
  }

  /** The header: the magic number, the comments (ppm) or the file name (pbm, pgm), the size, and the max value. */
  function HeaderText(format: Format, filename: string, comments: seq<string>, width: int, height: int): string
  {
    var size := IntToString(width) + " " + IntToString(height) + "\n";
    match format
    case PixMap => "P3\n" + Join(comments, "\n#") + "\n" + size + "255\n"
    case BitMap => "P1\n#" + filename + "\n" + size
    case GrayMap => "P2\n#" + filename + "\n" + size + "256\n"
  }

  /** The text render writes for a window of pixel rows, or the exception it throws. */
  function RenderText(filename: string, comments: seq<string>, width: int, height: int, window: seq<seq<Rgb>>): Result<string, BitmapError>
  {
    match FormatName(filename)
    case Failure(e) => Failure(e)
    case Success(name) =>
      match FormatOf(name)
      case Failure(e) => Failure(e)
      case Success(format) => Success(HeaderText(format, filename, comments, width, height) + BodyText(format, window))
  }

  /** The text of each row, in order. */
  function RowTexts(format: Format, window: seq<seq<Rgb>>): (texts: seq<string>)
    ensures |texts| == |window|
    ensures forall i :: 0 <= i < |window| ==> texts[i] == RowText(format, window[i])
  {
    if window == [] then [] else RowTexts(format, window[..|window| - 1]) + [RowText(format, window[|window| - 1])]
  }

  /** The body has exactly one line per row, each holding that row's text. */
  lemma BodyLines(format: Format, window: seq<seq<Rgb>>)
    requires forall i :: 0 <= i < |window| ==> '\n' !in RowText(format, window[i])
    ensures BodyText(format, window) == JoinLines(RowTexts(format, window))
    ensures Lines(BodyText(format, window)) == RowTexts(format, window)
  {
    BodyJoin(format, window);
    LinesOfJoinLines(RowTexts(format, window));
  }

  lemma {:induction false} BodyJoin(format: Format, window: seq<seq<Rgb>>)
    ensures BodyText(format, window) == JoinLines(RowTexts(format, window))
  {
    if window != [] {
      var n := |window| - 1;
      var init, last := RowTexts(format, window[..n]), RowText(format, window[n]);
      BodyJoin(format, window[..n]);
      assert RowTexts(format, window) == init + [last];
      JoinLinesAppend(init, [last]);
      assert JoinLines([last]) == last + "\n" by {
        assert [last][1..] == [];
      }
    }
  }

  /** A pbm pixel is 0 (white) exactly when its components add up to more than 382. */
  lemma BitMapPixel(pixel: Rgb)
    ensures PixelText(BitMap, pixel) == (if Sum(pixel) > 382 then "0 " else "1 ")
  {
  }

  lemma {:induction false} SumBounds(pixel: Rgb)
    requires forall i :: 0 <= i < |pixel| ==> 0 <= pixel[i] <= 255
    ensures 0 <= Sum(pixel) <= 255 * |pixel|
  {
    if pixel != [] {
      SumBounds(pixel[..|pixel| - 1]);
    }
  }

  /** The grey level of a valid colour is the truncated mean of its components, within the header's range. */
  lemma GrayLevelRange(pixel: Rgb)
    requires ValidColor(pixel)
    ensures TruncDiv(Sum(pixel), 3) == (pixel[0] + pixel[1] + pixel[2]) / 3
    ensures 0 <= TruncDiv(Sum(pixel), 3) <= 255
  {
    SumBounds(pixel);
    assert pixel[..3] == pixel && pixel[..3][..2] == pixel[..2];
    assert pixel[..2][..1] == pixel[..1] && pixel[..1][..0] == [];
    assert Sum(pixel) == pixel[0] + pixel[1] + pixel[2] by {
      assert Sum(pixel[..1]) == pixel[0];
      assert Sum(pixel[..2]) == pixel[0] + pixel[1];
    }
  }

  /** The text of one pixel, built as render's innermost loops build it. */
  method WritePixel(format: Format, pixel: Rgb) returns (text: string)
    ensures text == PixelText(format, pixel)
  {
    if format == PixMap {
      text := "";
      for k := 0 to |pixel|
        invariant text == Components(pixel[..k])
      {
        text := text + IntToString(pixel[k]) + " ";
        assert pixel[..k + 1][..k] == pixel[..k];
      }
      assert pixel[..|pixel|] == pixel;
    } else {
      var sum := 0;
      for k := 0 to |pixel|
        invariant sum == Sum(pixel[..k])
      {
        sum := sum + pixel[k];
        assert pixel[..k + 1][..k] == pixel[..k];
      }
      assert pixel[..|pixel|] == pixel;
      if format == BitMap {
        text := IntToString(if sum > 255 * 3 / 2 then 0 else 1) + " ";
      } else {
        text := IntToString(TruncDiv(sum, 3)) + " ";
      }
    }
  }

  /** The text of one row, pixel by pixel. */
  method WriteRow(format: Format, row: seq<Rgb>) returns (text: string)
    ensures text == RowText(format, row)
  {
    text := "";
    for j := 0 to |row|
      invariant text == RowText(format, row[..j])
    {
      var pixel := WritePixel(format, row[j]);
      text := text + pixel;
      assert row[..j + 1][..j] == row[..j];
    }
    assert row[..|row|] == row;
  }

  /** The rows, each followed by a line break. */
  method WriteBody(format: Format, window: seq<seq<Rgb>>) returns (text: string)
    ensures text == BodyText(format, window)
  {
    text := "";
    for i := 0 to |window|
      invariant text == BodyText(format, window[..i])
    {
      var row := WriteRow(format, window[i]);
      text := text + row + "\n";
      assert window[..i + 1][..i] == window[..i];
    }
    assert window[..|window|] == window;
  }

  /**
   * render: the header, then for every row and every pixel its text (each ppm
   * component, or the pbm/pgm value computed from the summed components) with a
   * space after it, then a line break per row.
   */
  method Render(filename: string, comments: seq<string>, width: int, height: int, window: seq<seq<Rgb>>) returns (r: Result<string, BitmapError>)
    ensures r == RenderText(filename, comments, width, height, window)
  {
    var name := FormatName(filename);
    if name.Failure? {
      return Failure(name.error);
    }
    var format := FormatOf(name.value);
    if format.Failure? {
      return Failure(format.error);
    }
    var header := HeaderText(format.value, filename, comments, width, height);
    var body := WriteBody(format.value, window);
    return Success(header + body);
  }
}
