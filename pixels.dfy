/**
 * The colours of the image library bundled with the simulation (Bitmap.Color): an
 * int[] of red, green and blue, checked by validateColor, and the exceptions the
 * library raises, one constructor per distinct cause.
 */
module Pixels {
  import opened Wrappers

  /** A colour as Bitmap.Color holds it: the components of its int[]. */
  type Rgb = seq<int>

  const BLACK: Rgb := [0, 0, 0]
  const WHITE: Rgb := [255, 255, 255]

  datatype BitmapError =
    | WrongColorLength        // IllegalArgumentException "color has the wrong length"
    | ColorOutOfRange         // IllegalArgumentException "at least one rgb value is too big"
    | XOutOfBounds            // PixelOutOfBoundsException "x is out of bounds"
    | YOutOfBounds            // PixelOutOfBoundsException "y is out of bounds"
    | UnknownPattern          // validatePattern: not one of the pattern names
    | FromAfterTo             // validatePattern: from > to
    | NegativeFrom            // validatePattern: from < 0
    | NegativeOpacity         // validatePattern: opacity < 0
    | BadFastPatternValue     // evaluateFastPattern: neither "auto", "from-to" nor an opacity after '='
    | FilenameTooShort        // render: filename.substring(0, 2) on a shorter name
    | UnsupportedFormat(format: string)
    | NotPpm                  // readFromFile: the path has no ".ppm" part
    | NoSuchFile              // readFromFile: the file cannot be opened
    | NoDimensions            // readFromFile: a header line of more than two fields
    | NoMaxValue              // readFromFile: a second width-and-height line
    | BadMaxValue             // readFromFile: the max value line is not an int
    | BadNumber               // NumberFormatException from Integer.parseInt / valueOf
    | MissingValue            // NullPointerException: width or height never read, or a padded row
    | IndexOutOfBounds        // ArrayIndexOutOfBoundsException
    | ZeroWidth               // ArithmeticException: division by a zero width
    | NegativeSize            // NegativeArraySizeException
    | NegativeRange           // IllegalArgumentException from Arrays.copyOfRange with from > to

  /** Three components, each in [0, 255]. */
  predicate ValidColor(color: Rgb)
  {
    |color| == 3 && forall i :: 0 <= i < |color| ==> 0 <= color[i] <= 255
  }

  /**
   * validateColor: a colour of the wrong length is refused first, then one with a
   * component outside [0, 255].
   */
  method ValidateColor(color: Rgb) returns (r: Outcome<BitmapError>)
    ensures r.Pass? <==> ValidColor(color)
    ensures |color| != 3 ==> r == Fail(WrongColorLength)
    ensures |color| == 3 && r.Fail? ==> r == Fail(ColorOutOfRange)
  {
    if |color| != 3 {
      return Fail(WrongColorLength);
    }
    for i := 0 to |color|
      invariant forall k :: 0 <= k < i ==> 0 <= color[k] <= 255
    {
      if color[i] < 0 || color[i] > 255 {
        return Fail(ColorOutOfRange);
      }
    }
    return Pass;
  }
}
