/**
 * The raster of the bundled image library (Services/Bitmap): a canvas of
 * canvas_height rows of canvas_width pixels, addressed by 1-based (x, y) with y
 * counted from the bottom row, and the operations that paint it with a colour.
 */
module Canvas {
  import opened Wrappers
  import opened JavaMath
  import opened Pixels
  import Netpbm

  // ---------------------------------------------------------------------------
  // Coordinates and the scan of fillArea

  /** The rectangle fillArea scans: Math.min and Math.max of each pair of coordinates. */
  datatype Rect = Rect(minX: int, maxX: int, minY: int, maxY: int)

  function Spanned(x1: int, y1: int, x2: int, y2: int): (r: Rect)
    ensures r.minX <= r.maxX && r.minY <= r.maxY
    ensures {r.minX, r.maxX} == {x1, x2} && {r.minY, r.maxY} == {y1, y2}
  {
    Rect(MinInt(x1, x2), MaxInt(x1, x2), MinInt(y1, y2), MaxInt(y1, y2))
  }

  predicate InRect(r: Rect, x: int, y: int)
  {
    r.minX <= x <= r.maxX && r.minY <= y <= r.maxY
  }

  predicate InCanvas(x: int, y: int, width: int, height: int)
  {
    1 <= x <= width && 1 <= y <= height
  }

  /** The whole rectangle lies on the canvas. */
  predicate Fits(r: Rect, width: int, height: int)
  {
    1 <= r.minX && r.maxX <= width && 1 <= r.minY && r.maxY <= height
  }

  /** fillArea visits (x, y) before (x', y'): rows from y = min_y upwards, each from x = min_x rightwards. */
  predicate ScannedBefore(x: int, y: int, x': int, y': int)
  {
    y < y' || (y == y' && x < x')
  }

  /** The exception changePixel raises at (x, y), the x coordinate checked first. */
  function PixelCheck(x: int, y: int, width: int, height: int): (r: Outcome<BitmapError>)
    ensures r.Pass? <==> InCanvas(x, y, width, height)
  {
    if x < 1 || x > width then Fail(XOutOfBounds)
    else if y < 1 || y > height then Fail(YOutOfBounds)
    else Pass
  }

  /** Every pixel of the rectangle scanned before (x, y) is on the canvas, so a clipping scan gets that far. */
  ghost predicate Reached(r: Rect, x: int, y: int, width: int, height: int)
  {
    forall px, py :: InRect(r, px, py) && ScannedBefore(px, py, x, y) ==> InCanvas(px, py, width, height)
  }

  /**
   * The pixels fillArea writes when borderclip is set: those of the rectangle that are
   * on the canvas, provided its left edge and bottom row are, and above the bottom
   * row only while its right edge is too.
   */
  predicate PaintedClipped(r: Rect, x: int, y: int, width: int, height: int)
  {
    InRect(r, x, y) && InCanvas(x, y, width, height) && 1 <= r.minX && 1 <= r.minY && (y == r.minY || r.maxX <= width)
  }

  /** The pixels fillArea writes: with borderclip those a clipping scan reaches, else every one of the rectangle on the canvas. */
  predicate Painted(r: Rect, x: int, y: int, width: int, height: int, borderclip: bool)
  {
    if borderclip then PaintedClipped(r, x, y, width, height) else InRect(r, x, y) && InCanvas(x, y, width, height)
  }

  /** The closed form is the scan: a pixel of the rectangle on the canvas is painted iff the scan reaches it. */
  lemma PaintedClippedIsReached(r: Rect, x: int, y: int, width: int, height: int)
    requires InRect(r, x, y) && InCanvas(x, y, width, height)
    ensures PaintedClipped(r, x, y, width, height) <==> Reached(r, x, y, width, height)
  {
    if !PaintedClipped(r, x, y, width, height) {
      if r.minX < 1 {
        assert InRect(r, r.minX, y) && ScannedBefore(r.minX, y, x, y);
      } else if r.minY < 1 {
        assert InRect(r, x, r.minY) && ScannedBefore(x, r.minY, x, y);
      } else {
        assert InRect(r, r.maxX, r.minY) && ScannedBefore(r.maxX, r.minY, x, y);
      }
    }
  }

  /** The pixel at which a clipping fillArea throws: the first of the scan that is off the canvas. */
  function FirstOutside(r: Rect, width: int, height: int): (p: (int, int))
    requires !Fits(r, width, height) && r.minX <= r.maxX && r.minY <= r.maxY
  {
    if r.minX < 1 || r.minX > width || r.minY < 1 || r.minY > height then (r.minX, r.minY)
    else if r.maxX > width then (width + 1, r.minY)
    else (r.minX, height + 1)
  }

  /** FirstOutside is off the canvas and every pixel scanned before it is on it. */
  lemma FirstOutsideIsFirst(r: Rect, width: int, height: int)
    requires !Fits(r, width, height) && r.minX <= r.maxX && r.minY <= r.maxY
    ensures var (x, y) := FirstOutside(r, width, height);
      InRect(r, x, y) && !InCanvas(x, y, width, height) && Reached(r, x, y, width, height)
  {
  }

  /** What a clipping scan of the rectangle does: pass, or throw at FirstOutside. */
  function ScanOutcome(r: Rect, width: int, height: int): (o: Outcome<BitmapError>)
    requires r.minX <= r.maxX && r.minY <= r.maxY
    ensures o.Pass? <==> Fits(r, width, height)
  {
    if Fits(r, width, height) then Pass
    else
      FirstOutsideIsFirst(r, width, height);
      PixelCheck(FirstOutside(r, width, height).0, FirstOutside(r, width, height).1, width, height)
  }

  /** Only one pixel of the rectangle is off the canvas with every pixel scanned before it on it. */
  lemma FirstOutsideUnique(r: Rect, width: int, height: int, x: int, y: int)
    requires r.minX <= r.maxX && r.minY <= r.maxY
    requires InRect(r, x, y) && !InCanvas(x, y, width, height) && Reached(r, x, y, width, height)
    ensures !Fits(r, width, height) && FirstOutside(r, width, height) == (x, y)
  {
    FirstOutsideIsFirst(r, width, height);
    var (fx, fy) := FirstOutside(r, width, height);
    if ScannedBefore(fx, fy, x, y) || ScannedBefore(x, y, fx, fy) {
      assert false;
    }
  }

  /**
   * When a clipping scan stops at (x, y), the pixels it has written are those
   * PaintedClipped names, and (x, y) is FirstOutside.
   */
  lemma StoppedAt(r: Rect, width: int, height: int, x: int, y: int)
    requires r.minX <= r.maxX && r.minY <= r.maxY
    requires InRect(r, x, y) && !InCanvas(x, y, width, height) && Reached(r, x, y, width, height)
    ensures !Fits(r, width, height) && FirstOutside(r, width, height) == (x, y)
    ensures forall px, py :: InCanvas(px, py, width, height) ==>
              (InRect(r, px, py) && ScannedBefore(px, py, x, y) <==> PaintedClipped(r, px, py, width, height))
  {
    FirstOutsideUnique(r, width, height, x, y);
    forall px, py | InCanvas(px, py, width, height)
      ensures InRect(r, px, py) && ScannedBefore(px, py, x, y) <==> PaintedClipped(r, px, py, width, height)
    {
      if InRect(r, px, py) {
        PaintedClippedIsReached(r, px, py, width, height);
        if !ScannedBefore(px, py, x, y) && Reached(r, px, py, width, height) {
          assert ScannedBefore(x, y, px, py);
        }
      }
    }
  }

  /** A scan that got past every pixel of the rectangle found them all on the canvas. */
  lemma ScannedAll(r: Rect, width: int, height: int)
    requires r.minX <= r.maxX && r.minY <= r.maxY
    requires forall px, py :: InRect(r, px, py) && py < r.maxY + 1 ==> InCanvas(px, py, width, height)
    ensures Fits(r, width, height)
  {
    assert InRect(r, r.minX, r.minY) && InRect(r, r.maxX, r.maxY);
  }

  /** The rectangle lineH fills: from x_from to x_to, `thickness` rows upwards from y_pos. */
  function HorizontalBand(xFrom: int, xTo: int, yPos: int, thickness: int): Rect
  {
    Spanned(xFrom, yPos, xTo, yPos + thickness - 1)
  }

  /** The rectangle lineV fills: from y_from to y_to, `thickness` columns rightwards from x_pos. */
  function VerticalBand(yFrom: int, yTo: int, xPos: int, thickness: int): Rect
  {
    Spanned(xPos, yFrom, xPos + thickness - 1, yTo)
  }

  /**
   * The rows of a horizontal line: `thickness` rows from y_pos upwards; a thickness
   * below one spans from y_pos + thickness - 1 up to y_pos instead, so 0 gives two rows.
   */
  lemma HorizontalBandRows(xFrom: int, xTo: int, yPos: int, thickness: int, x: int, y: int)
    ensures InRect(HorizontalBand(xFrom, xTo, yPos, thickness), x, y) <==>
      MinInt(xFrom, xTo) <= x <= MaxInt(xFrom, xTo) &&
      if thickness >= 1 then yPos <= y < yPos + thickness else yPos + thickness - 1 <= y <= yPos
  {
  }

  /** The columns of a vertical line, in the same way. */
  lemma VerticalBandColumns(yFrom: int, yTo: int, xPos: int, thickness: int, x: int, y: int)
    ensures InRect(VerticalBand(yFrom, yTo, xPos, thickness), x, y) <==>
      MinInt(yFrom, yTo) <= y <= MaxInt(yFrom, yTo) &&
      if thickness >= 1 then xPos <= x < xPos + thickness else xPos + thickness - 1 <= x <= xPos
  {
  }

  // ---------------------------------------------------------------------------
  // Borders and outlines

  /** Outline(active, thickness, color_provider), with a Color as its provider. */
  datatype Outline = Outline(active: bool, thickness: int, color: Rgb)

  predicate Ordered(r: Rect)
  {
    r.minX <= r.maxX && r.minY <= r.maxY
  }

  /** The four fillArea calls of border, in order: bottom, top, left, right. */
  function BorderRects(r: Rect, thickness: int): (rects: seq<Rect>)
    ensures |rects| == 4 && forall i :: 0 <= i < |rects| ==> Ordered(rects[i])
  {
    [Spanned(r.minX - thickness, r.minY, r.maxX + thickness, r.minY - thickness),
     Spanned(r.minX - thickness, r.maxY, r.maxX + thickness, r.maxY + thickness),
     Spanned(r.minX, r.minY, r.minX - thickness, r.maxY),
     Spanned(r.maxX, r.minY, r.maxX + thickness, r.maxY)]
  }

  /** The rectangle grown by `thickness` on every side. */
  function Grown(r: Rect, thickness: int): Rect
  {
    Rect(r.minX - thickness, r.maxX + thickness, r.minY - thickness, r.maxY + thickness)
  }

  /** The index of the first rectangle that does not fit on the canvas, or |rects| if they all do. */
  function FirstUnfit(rects: seq<Rect>, width: int, height: int): (k: nat)
    ensures k <= |rects|
    ensures forall i :: 0 <= i < k ==> Fits(rects[i], width, height)
    ensures k < |rects| ==> !Fits(rects[k], width, height)
  {
    if |rects| == 0 || !Fits(rects[0], width, height) then 0
    else 1 + FirstUnfit(rects[1..], width, height)
  }

  /** What the clipping fills of rects do, one after another: the outcome of the first that does not fit. */
  function BorderOutcome(rects: seq<Rect>, width: int, height: int): (o: Outcome<BitmapError>)
    requires forall i :: 0 <= i < |rects| ==> Ordered(rects[i])
    ensures o.Pass? <==> forall i :: 0 <= i < |rects| ==> Fits(rects[i], width, height)
  {
    var k := FirstUnfit(rects, width, height);
    if k == |rects| then Pass else assert Ordered(rects[k]); ScanOutcome(rects[k], width, height)
  }

  /** The pixel (x, y) is written by one of the first n clipping fills of rects. */
  predicate PaintedBefore(rects: seq<Rect>, n: int, x: int, y: int, width: int, height: int)
  {
    exists i :: 0 <= i < n && i < |rects| && PaintedClipped(rects[i], x, y, width, height)
  }

  /**
   * With a non-negative thickness the four border rectangles cover exactly the ring
   * between the rectangle's interior and the rectangle grown by the thickness; the
   * rectangle's own edge rows and columns belong to the ring.
   */
  lemma BorderIsRing(r: Rect, thickness: int, x: int, y: int)
    requires Ordered(r) && thickness >= 0
    ensures (exists i :: 0 <= i < 4 && InRect(BorderRects(r, thickness)[i], x, y)) <==>
      InRect(Grown(r, thickness), x, y) && !(r.minX < x < r.maxX && r.minY < y < r.maxY)
  {
    var rects := BorderRects(r, thickness);
    if InRect(Grown(r, thickness), x, y) && !(r.minX < x < r.maxX && r.minY < y < r.maxY) {
      if y <= r.minY {
        assert InRect(rects[0], x, y);
      } else if y >= r.maxY {
        assert InRect(rects[1], x, y);
      } else if x <= r.minX {
        assert InRect(rects[2], x, y);
      } else {
        assert InRect(rects[3], x, y);
      }
    }
  }

  /** With a non-negative thickness the border throws iff the grown rectangle leaves the canvas. */
  lemma BorderFits(r: Rect, thickness: int, width: int, height: int)
    requires Ordered(r) && thickness >= 0
    ensures FirstUnfit(BorderRects(r, thickness), width, height) == 4 <==> Fits(Grown(r, thickness), width, height)
  {
    var rects := BorderRects(r, thickness);
    if Fits(Grown(r, thickness), width, height) {
      assert Fits(rects[0], width, height) && Fits(rects[1], width, height) && Fits(rects[2], width, height) && Fits(rects[3], width, height);
      assert rects[1..][1..][1..][1..] == [];
    }
  }

  /** A black canvas of the size, as rows of pixels. */
  function BlackWindow(width: int, height: int): (w: seq<seq<Rgb>>)
    requires width >= 0 && height >= 0
    ensures |w| == height && forall i :: 0 <= i < height ==> |w[i]| == width && forall j :: 0 <= j < width ==> w[i][j] == BLACK
  {
    seq(height, _ => seq(width, _ => BLACK))
  }

  // ---------------------------------------------------------------------------
  // The canvas

  class Bitmap {
    var canvasWidth: int
    var canvasHeight: int
    var comments: seq<string>
    var filename: string
    /** canvas[i, j] is the pixel at x = j + 1, y = canvas_height - i. */
    var canvas: array2<Rgb>

    ghost predicate Valid()
      reads this
    {
      canvas.Length0 == canvasHeight && canvas.Length1 == canvasWidth
    }

    /** Bitmap(width, height, filename): a black canvas whose comment list holds "#" + filename. */
    constructor (canvasWidth: int, canvasHeight: int, filename: string)
      requires canvasWidth >= 0 && canvasHeight >= 0
      ensures Valid() && fresh(canvas)
      ensures this.canvasWidth == canvasWidth && this.canvasHeight == canvasHeight
      ensures this.filename == filename && comments == ["#" + filename]
      ensures forall i, j :: 0 <= i < canvasHeight && 0 <= j < canvasWidth ==> canvas[i, j] == BLACK
    {
      this.canvasWidth := canvasWidth;
      this.canvasHeight := canvasHeight;
      canvas := new Rgb[canvasHeight, canvasWidth]((i, j) => BLACK);
      this.filename := filename;
      comments := ["#" + filename];
    }

    /** The canvas as render reads it: one sequence of pixels per row, top row first. */
    function Window(): (w: seq<seq<Rgb>>)
      reads this, canvas
      requires Valid()
      ensures |w| == canvasHeight
      ensures forall i :: 0 <= i < canvasHeight ==> |w[i]| == canvasWidth && forall j :: 0 <= j < canvasWidth ==> w[i][j] == canvas[i, j]
    {
      seq(canvasHeight, i reads this, canvas requires 0 <= i < canvasHeight && Valid() =>
        seq(canvasWidth, j reads this, canvas requires 0 <= i < canvasHeight && 0 <= j < canvasWidth && Valid() => canvas[i, j]))
    }

    /**
     * Bitmap(width, height, filename, render_on_init): with render_on_init the fresh
     * black canvas is rendered at once, so a name render refuses (shorter than two
     * characters, or an extension other than ppm, pbm and pgm) makes the construction
     * throw; otherwise `written` is the text render writes, or None without rendering.
     */
    static method Create(canvasWidth: int, canvasHeight: int, filename: string, renderOnInit: bool)
      returns (r: Result<Bitmap, BitmapError>, written: Option<string>)
      requires canvasWidth >= 0 && canvasHeight >= 0
      ensures r.Failure? <==> renderOnInit && (|filename| < 2 || Netpbm.FormatOf(Netpbm.FormatName(filename).value).Failure?)
      ensures var rendered := Netpbm.RenderText(filename, ["#" + filename], canvasWidth, canvasHeight, BlackWindow(canvasWidth, canvasHeight));
              (r.Failure? ==> r.error == rendered.error && written == None) &&
              (r.Success? ==> written == if renderOnInit then Some(rendered.value) else None)
      ensures r.Success? ==>
                var b := r.value;
                fresh(b) && fresh(b.canvas) && b.Valid() &&
                b.canvasWidth == canvasWidth && b.canvasHeight == canvasHeight &&
                b.filename == filename && b.comments == ["#" + filename] &&
                forall i, j :: 0 <= i < canvasHeight && 0 <= j < canvasWidth ==> b.canvas[i, j] == BLACK
    {
      var b := new Bitmap(canvasWidth, canvasHeight, filename);
      written := None;
      if renderOnInit {
        assert b.Window() == BlackWindow(canvasWidth, canvasHeight) by {
          forall i | 0 <= i < canvasHeight
            ensures b.Window()[i] == BlackWindow(canvasWidth, canvasHeight)[i]
          {
          }
        }
        var rendered := Netpbm.Render(filename, b.comments, canvasWidth, canvasHeight, b.Window());
        if rendered.Failure? {
          return Failure(rendered.error), None;
        }
        written := Some(rendered.value);
      }
      r := Success(b);
    }

    /** changePixel with a Color: writes the one pixel at (x, y), or throws when it is off the canvas. */
    method ChangePixel(x: int, y: int, color: Rgb) returns (r: Outcome<BitmapError>)
      requires Valid()
      modifies canvas
      ensures r == PixelCheck(x, y, canvasWidth, canvasHeight)
      ensures forall i, j :: 0 <= i < canvasHeight && 0 <= j < canvasWidth ==>
                canvas[i, j] == if r.Pass? && i == canvasHeight - y && j == x - 1 then color else old(canvas[i, j])
    {
      r := PixelCheck(x, y, canvasWidth, canvasHeight);
      if r.Pass? {
        canvas[canvasHeight - y, x - 1] := color;
      }
    }

    /**
     * fillArea with a Color and no outline: changePixel for every pixel of the rectangle
     * the two corners span, row by row from the bottom; with borderclip the first pixel
     * off the canvas throws and the pixels before it stay written.
     */
    method FillArea(x1: int, y1: int, x2: int, y2: int, color: Rgb, borderclip: bool) returns (r: Outcome<BitmapError>)
      requires Valid()
      modifies canvas
      ensures r == if borderclip then ScanOutcome(Spanned(x1, y1, x2, y2), canvasWidth, canvasHeight) else Pass
      ensures forall i, j :: 0 <= i < canvasHeight && 0 <= j < canvasWidth ==>
                canvas[i, j] == if Painted(Spanned(x1, y1, x2, y2), j + 1, canvasHeight - i, canvasWidth, canvasHeight, borderclip)
                                then color else old(canvas[i, j])
    {
      var rect := Spanned(x1, y1, x2, y2);
      var y := rect.minY;
      while y <= rect.maxY
        invariant rect.minY <= y <= rect.maxY + 1
        invariant borderclip ==> forall px, py :: InRect(rect, px, py) && py < y ==> InCanvas(px, py, canvasWidth, canvasHeight)
        invariant forall i, j :: 0 <= i < canvasHeight && 0 <= j < canvasWidth ==>
                    canvas[i, j] == if InRect(rect, j + 1, canvasHeight - i) && canvasHeight - i < y then color else old(canvas[i, j])
        decreases rect.maxY + 1 - y
      {
        var x := rect.minX;
        while x <= rect.maxX
          invariant rect.minX <= x <= rect.maxX + 1
          invariant borderclip ==> Reached(rect, x, y, canvasWidth, canvasHeight)
          invariant forall i, j :: 0 <= i < canvasHeight && 0 <= j < canvasWidth ==>
                      canvas[i, j] == if InRect(rect, j + 1, canvasHeight - i) && ScannedBefore(j + 1, canvasHeight - i, x, y)
                                      then color else old(canvas[i, j])
          decreases rect.maxX + 1 - x
        {
          var p := ChangePixel(x, y, color);
          if p.Fail? && borderclip {
            StoppedAt(rect, canvasWidth, canvasHeight, x, y);
            return p;
          }
          x := x + 1;
        }
        y := y + 1;
      }
      if borderclip {
        ScannedAll(rect, canvasWidth, canvasHeight);
      }
      r := Pass;
    }

    /** The clipping fillArea calls of border, one after another, stopping at the first that throws. */
    method FillRects(rects: seq<Rect>, color: Rgb) returns (r: Outcome<BitmapError>)
      requires Valid() && forall i :: 0 <= i < |rects| ==> Ordered(rects[i])
      modifies canvas
      ensures r == BorderOutcome(rects, canvasWidth, canvasHeight)
      ensures forall i, j :: 0 <= i < canvasHeight && 0 <= j < canvasWidth ==>
                canvas[i, j] == if PaintedBefore(rects, FirstUnfit(rects, canvasWidth, canvasHeight) + 1, j + 1, canvasHeight - i, canvasWidth, canvasHeight)
                                then color else old(canvas[i, j])
    {
      ghost var k := FirstUnfit(rects, canvasWidth, canvasHeight);
      var n := 0;
      while n < |rects|
        invariant 0 <= n <= k
        invariant forall i, j :: 0 <= i < canvasHeight && 0 <= j < canvasWidth ==>
                    canvas[i, j] == if PaintedBefore(rects, n, j + 1, canvasHeight - i, canvasWidth, canvasHeight) then color else old(canvas[i, j])
      {
        var rect := rects[n];
        r := FillArea(rect.minX, rect.minY, rect.maxX, rect.maxY, color, true);
        if r.Fail? {
          return;
        }
        n := n + 1;
      }
      r := Pass;
    }

    /** border with a Color: the four fills of BorderRects around the rectangle the corners span. */
    method Border(x1: int, y1: int, x2: int, y2: int, thickness: int, color: Rgb) returns (r: Outcome<BitmapError>)
      requires Valid()
      modifies canvas
      ensures r == BorderOutcome(BorderRects(Spanned(x1, y1, x2, y2), thickness), canvasWidth, canvasHeight)
      ensures var rects := BorderRects(Spanned(x1, y1, x2, y2), thickness);
        forall i, j :: 0 <= i < canvasHeight && 0 <= j < canvasWidth ==>
          canvas[i, j] == if PaintedBefore(rects, FirstUnfit(rects, canvasWidth, canvasHeight) + 1, j + 1, canvasHeight - i, canvasWidth, canvasHeight)
                          then color else old(canvas[i, j])
    {
      r := FillRects(BorderRects(Spanned(x1, y1, x2, y2), thickness), color);
    }

    /**
     * fillArea with a Color provider and an outline: an active outline first draws the
     * border around the rectangle (and a throw there ends the call), then the
     * rectangle is filled.
     */
    method FillAreaOutlined(x1: int, y1: int, x2: int, y2: int, color: Rgb, outline: Outline, borderclip: bool) returns (r: Outcome<BitmapError>)
      requires Valid()
      modifies canvas
      ensures var rect := Spanned(x1, y1, x2, y2); var outlined := BorderOutcome(BorderRects(rect, outline.thickness), canvasWidth, canvasHeight);
        r == if outline.active && outlined.Fail? then outlined else if borderclip then ScanOutcome(rect, canvasWidth, canvasHeight) else Pass
      ensures var rect := Spanned(x1, y1, x2, y2); var rects := BorderRects(rect, outline.thickness);
        var k := FirstUnfit(rects, canvasWidth, canvasHeight); var outlineFailed := outline.active && k < 4;
        forall i, j :: 0 <= i < canvasHeight && 0 <= j < canvasWidth ==>
          canvas[i, j] == if !outlineFailed && Painted(rect, j + 1, canvasHeight - i, canvasWidth, canvasHeight, borderclip) then color
                          else if outline.active && PaintedBefore(rects, k + 1, j + 1, canvasHeight - i, canvasWidth, canvasHeight) then outline.color
                          else old(canvas[i, j])
    {
      // border is handed min/max of the corners, which span the same rectangle
      if outline.active {
        r := Border(x1, y1, x2, y2, outline.thickness, outline.color);
        if r.Fail? {
          return;
        }
        ghost var rects := BorderRects(Spanned(x1, y1, x2, y2), outline.thickness);
        assert FirstUnfit(rects, canvasWidth, canvasHeight) == 4;
        label bordered:
        r := FillArea(x1, y1, x2, y2, color, borderclip);
        forall i, j | 0 <= i < canvasHeight && 0 <= j < canvasWidth
          ensures canvas[i, j] == if Painted(Spanned(x1, y1, x2, y2), j + 1, canvasHeight - i, canvasWidth, canvasHeight, borderclip) then color
                                  else if PaintedBefore(rects, 5, j + 1, canvasHeight - i, canvasWidth, canvasHeight) then outline.color
                                  else old(canvas[i, j])
        {
          assert old@bordered(canvas[i, j]) == if PaintedBefore(rects, FirstUnfit(rects, canvasWidth, canvasHeight) + 1, j + 1, canvasHeight - i, canvasWidth, canvasHeight)
                                               then outline.color else old(canvas[i, j]);
        }
      } else {
        r := FillArea(x1, y1, x2, y2, color, borderclip);
      }
    }

    /** lineH: fillArea(x_from, y_pos, x_to, y_pos + thickness - 1), clipping at the border. */
    method LineH(xFrom: int, xTo: int, yPos: int, color: Rgb, thickness: int) returns (r: Outcome<BitmapError>)
      requires Valid()
      modifies canvas
      ensures r.Pass? <==> Fits(HorizontalBand(xFrom, xTo, yPos, thickness), canvasWidth, canvasHeight)
      ensures forall i, j :: 0 <= i < canvasHeight && 0 <= j < canvasWidth ==>
                canvas[i, j] == if PaintedClipped(HorizontalBand(xFrom, xTo, yPos, thickness), j + 1, canvasHeight - i, canvasWidth, canvasHeight)
                                then color else old(canvas[i, j])
    {
      r := FillArea(xFrom, yPos, xTo, yPos + thickness - 1, color, true);
    }

    /** lineV: fillArea(x_pos, y_from, x_pos + thickness - 1, y_to), clipping at the border. */
    method LineV(yFrom: int, yTo: int, xPos: int, color: Rgb, thickness: int) returns (r: Outcome<BitmapError>)
      requires Valid()
      modifies canvas
      ensures r.Pass? <==> Fits(VerticalBand(yFrom, yTo, xPos, thickness), canvasWidth, canvasHeight)
      ensures forall i, j :: 0 <= i < canvasHeight && 0 <= j < canvasWidth ==>
                canvas[i, j] == if PaintedClipped(VerticalBand(yFrom, yTo, xPos, thickness), j + 1, canvasHeight - i, canvasWidth, canvasHeight)
                                then color else old(canvas[i, j])
    {
      r := FillArea(xPos, yFrom, xPos + thickness - 1, yTo, color, true);
    }

    /** fillWin with a Color: the colour is validated, then every pixel of every row is set to it. */
    method FillWin(color: Rgb) returns (r: Outcome<BitmapError>)
      requires Valid()
      modifies canvas
      ensures r.Pass? <==> ValidColor(color)
      ensures r.Fail? ==> r == Fail(if |color| != 3 then WrongColorLength else ColorOutOfRange) && unchanged(canvas)
      ensures r.Pass? ==> forall i, j :: 0 <= i < canvasHeight && 0 <= j < canvasWidth ==> canvas[i, j] == color
    {
      r := ValidateColor(color);
      if r.Fail? {
        return;
      }
      for i := 0 to canvasHeight
        invariant forall k, j :: 0 <= k < i && 0 <= j < canvasWidth ==> canvas[k, j] == color
      {
        for j := 0 to canvasWidth
          invariant forall k, l :: 0 <= k < i && 0 <= l < canvasWidth ==> canvas[k, l] == color
          invariant forall l :: 0 <= l < j ==> canvas[i, l] == color
        {
          canvas[i, j] := color;
        }
      }
    }

    /** clear: fillWin with black. */
    method Clear()
      requires Valid()
      modifies canvas
      ensures forall i, j :: 0 <= i < canvasHeight && 0 <= j < canvasWidth ==> canvas[i, j] == BLACK
    {
      var r := FillWin(BLACK);
    }
  }
}
