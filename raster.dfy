/** The decoded raster both fingerprint pipelines read, as the canvas 2D
    context exposes it: `width`, `height` and the RGBA bytes in row-major
    order, four per pixel.  Also the 8x8 grid geometry and the per-cell
    "brightest star" scan shared by the two constellation extractors. */
module Raster {

  /** An RGBA raster: pixel (x, y) occupies bytes 4(y*width + x) .. +3. */
  datatype Image = Image(width: nat, height: nat, data: seq<int>)

  /** What `getImageData(...).data` guarantees: the right length and every
      byte in 0..255 (a Uint8ClampedArray). */
  predicate Valid(img: Image) {
    |img.data| == 4 * img.width * img.height &&
    forall i :: 0 <= i < |img.data| ==> 0 <= img.data[i] <= 255
  }

  /** The error `getImageData` raises for a zero-width or zero-height
      rectangle (IndexSizeError). */
  datatype CanvasError = IndexSizeError

  /** Every pixel's four bytes lie inside a raster of the given size. */
  lemma {:induction false} PixelOffsetInBounds(w: nat, h: nat, x: nat, y: nat)
    requires x < w && y < h
    ensures 0 <= (y * w + x) * 4 && (y * w + x) * 4 + 3 < 4 * w * h
  {
    assert y * w + x < y * w + w == (y + 1) * w;
    assert (y + 1) * w <= h * w by {
      assert y + 1 <= h;
    }
  }

  /** Channel `c` (0 = R, 1 = G, 2 = B, 3 = A) of pixel (x, y). */
  function Channel(img: Image, x: nat, y: nat, c: nat): (v: int)
    requires Valid(img) && x < img.width && y < img.height && c < 4
    ensures 0 <= v <= 255
  {
    PixelOffsetInBounds(img.width, img.height, x, y);
    img.data[(y * img.width + x) * 4 + c]
  }

  /** How a pixel's brightness is computed: the weighted luma
      0.299R + 0.587G + 0.114B, or the plain mean (R + G + B) / 3. */
  datatype Weighting = Luma601 | Mean

  function Brightness(wt: Weighting, r: int, g: int, b: int): real {
    match wt
    case Luma601 => 0.299 * r as real + 0.587 * g as real + 0.114 * b as real
    case Mean => (r + g + b) as real / 3.0
  }

  /** Brightness of pixel (x, y) of the raster. */
  function BrightnessAt(img: Image, wt: Weighting, x: nat, y: nat): (v: real)
    requires Valid(img) && x < img.width && y < img.height
    ensures 0.0 <= v <= 255.0
  {
    Brightness(wt, Channel(img, x, y, 0), Channel(img, x, y, 1), Channel(img, x, y, 2))
  }

  /** Comparing brightness values is comparing integers: 299R + 587G + 114B
      for the weighted luma, R + G + B for the mean. */
  lemma BrightnessOrder(r1: int, g1: int, b1: int, r2: int, g2: int, b2: int)
    ensures Brightness(Luma601, r1, g1, b1) < Brightness(Luma601, r2, g2, b2)
            <==> 299 * r1 + 587 * g1 + 114 * b1 < 299 * r2 + 587 * g2 + 114 * b2
    ensures Brightness(Mean, r1, g1, b1) < Brightness(Mean, r2, g2, b2)
            <==> r1 + g1 + b1 < r2 + g2 + b2
  {
  }

  // ---------------------------------------------------------------------
  // Grid geometry

  /** The grid is 8 by 8 cells. */
  const GridSize: nat := 8

  /** `Math.floor(index * (extent / 8))`.  Dividing by 8 is exact in binary
      floating point, so this is the integer quotient. */
  function CellStart(index: nat, extent: nat): nat {
    index * extent / GridSize
  }

  /** `Math.floor(extent / 8)`, the width (or height) of every cell. */
  function CellExtent(extent: nat): nat {
    extent / GridSize
  }

  /** A cell never reaches past the raster: floor(i*E/8) + floor(E/8) <= E
      for every grid index i < 8. */
  lemma {:induction false} CellFits(index: nat, extent: nat)
    requires index < GridSize
    ensures CellStart(index, extent) + CellExtent(extent) <= extent
  {
    var a := index * extent;
    assert a <= 7 * extent by {
      assert index <= 7;
    }
    assert a / 8 + extent / 8 <= (a + extent) / 8;
    assert (a + extent) / 8 <= 8 * extent / 8;
  }

  /** A rectangle of the raster: origin (sx, sy), w columns, h rows. */
  datatype Cell = Cell(sx: nat, sy: nat, w: nat, h: nat)

  predicate Inside(img: Image, c: Cell) {
    c.sx + c.w <= img.width && c.sy + c.h <= img.height
  }

  /** Brightness of the pixel at local coordinates (x, y) of cell `c`; this
      is byte (y*w + x)*4 of `getImageData(sx, sy, w, h).data`. */
  function CellBrightness(img: Image, c: Cell, wt: Weighting, x: nat, y: nat): (v: real)
    requires Valid(img) && Inside(img, c) && x < c.w && y < c.h
    ensures 0.0 <= v <= 255.0
  {
    BrightnessAt(img, wt, c.sx + x, c.sy + y)
  }

  // ---------------------------------------------------------------------
  // The brightest-star scan

  /** The scan state: the brightest value so far and where it was seen. */
  datatype Best = Best(maxVal: real, mx: nat, my: nat)

  /** Row-major order inside a cell: (x1, y1) is visited before (x2, y2). */
  predicate Precedes(x1: nat, y1: nat, x2: nat, y2: nat) {
    y1 < y2 || (y1 == y2 && x1 < x2)
  }

  /** The scan state after visiting rows 0 .. y-1 of the cell completely and
      the first x pixels of row y.  It starts at maxVal = -1 and replaces the
      best pixel only on a strictly greater brightness. */
  function ScanTo(img: Image, c: Cell, wt: Weighting, y: nat, x: nat): Best
    requires Valid(img) && Inside(img, c)
    requires (y < c.h && x <= c.w) || (y == c.h && x == 0)
    decreases y, x
  {
    if x == 0 then
      if y == 0 then Best(-1.0, 0, 0) else ScanTo(img, c, wt, y - 1, c.w)
    else
      var prev := ScanTo(img, c, wt, y, x - 1);
      var v := CellBrightness(img, c, wt, x - 1, y);
      if v > prev.maxVal then Best(v, x - 1, y) else prev
  }

  /** The scan result for a whole cell. */
  function CellBest(img: Image, c: Cell, wt: Weighting): Best
    requires Valid(img) && Inside(img, c)
  {
    ScanTo(img, c, wt, c.h, 0)
  }

  /** Pixel (px, py) of the cell has been visited once the scan reached (x, y). */
  predicate Visited(c: Cell, y: nat, x: nat, px: nat, py: nat) {
    px < c.w && py < c.h && Precedes(px, py, x, y)
  }

  /** (mx, my) is the first pixel, in row-major order, whose brightness no
      other pixel of the cell exceeds. */
  ghost predicate IsFirstBrightest(img: Image, c: Cell, wt: Weighting, mx: nat, my: nat)
    requires Valid(img) && Inside(img, c)
  {
    mx < c.w && my < c.h &&
    (forall px: nat, py: nat :: px < c.w && py < c.h ==>
       CellBrightness(img, c, wt, px, py) <= CellBrightness(img, c, wt, mx, my)) &&
    (forall px: nat, py: nat :: px < c.w && py < c.h && Precedes(px, py, mx, my) ==>
       CellBrightness(img, c, wt, px, py) < CellBrightness(img, c, wt, mx, my))
  }

  /** `b` holds the first brightest pixel among those visited once the scan
      reached (x, y), and that pixel's brightness. */
  ghost predicate HoldsFirstBrightest(img: Image, c: Cell, wt: Weighting, y: nat, x: nat, b: Best)
    requires Valid(img) && Inside(img, c)
  {
    && Visited(c, y, x, b.mx, b.my)
    && b.maxVal == CellBrightness(img, c, wt, b.mx, b.my)
    && (forall px: nat, py: nat :: Visited(c, y, x, px, py) ==> CellBrightness(img, c, wt, px, py) <= b.maxVal)
    && (forall px: nat, py: nat :: Visited(c, y, x, px, py) && Precedes(px, py, b.mx, b.my) ==>
          CellBrightness(img, c, wt, px, py) < b.maxVal)
  }

  /** What the scan state means: once something has been visited, it holds
      the first brightest visited pixel and that pixel's brightness. */
  lemma {:induction false} ScanToFindsFirstBrightest(img: Image, c: Cell, wt: Weighting, y: nat, x: nat)
    requires Valid(img) && Inside(img, c)
    requires (y < c.h && x <= c.w) || (y == c.h && x == 0)
    requires c.w > 0 && (y > 0 || x > 0)
    ensures HoldsFirstBrightest(img, c, wt, y, x, ScanTo(img, c, wt, y, x))
    decreases y, x
  {
    if x == 0 {
      ScanToFindsFirstBrightest(img, c, wt, y - 1, c.w);
      assert forall px: nat, py: nat :: Visited(c, y, 0, px, py) <==> Visited(c, y - 1, c.w, px, py);
    } else if y == 0 && x == 1 {
      assert forall px: nat, py: nat :: Visited(c, 0, 1, px, py) ==> px == 0 && py == 0;
    } else {
      ScanToFindsFirstBrightest(img, c, wt, y, x - 1);
      ScanStep(img, c, wt, y, x, ScanTo(img, c, wt, y, x - 1));
    }
  }

  /** Visiting pixel (x - 1, y) keeps the scan state meaningful: a strictly
      brighter pixel replaces the one held, any other leaves it. */
  lemma ScanStep(img: Image, c: Cell, wt: Weighting, y: nat, x: nat, prev: Best)
    requires Valid(img) && Inside(img, c) && 0 < x <= c.w && y < c.h
    requires HoldsFirstBrightest(img, c, wt, y, x - 1, prev)
    ensures var v := CellBrightness(img, c, wt, x - 1, y);
      HoldsFirstBrightest(img, c, wt, y, x, if v > prev.maxVal then Best(v, x - 1, y) else prev)
  {
    assert forall px: nat, py: nat :: Visited(c, y, x, px, py) ==>
      Visited(c, y, x - 1, px, py) || (px == x - 1 && py == y);
  }

  /** The scan of a non-empty cell ends on its first brightest pixel. */
  lemma {:induction false} CellBestIsFirstBrightest(img: Image, c: Cell, wt: Weighting)
    requires Valid(img) && Inside(img, c) && c.w > 0 && c.h > 0
    ensures var b := CellBest(img, c, wt);
      IsFirstBrightest(img, c, wt, b.mx, b.my) && b.maxVal == CellBrightness(img, c, wt, b.mx, b.my)
  {
    ScanToFindsFirstBrightest(img, c, wt, c.h, 0);
    assert forall px: nat, py: nat :: px < c.w && py < c.h ==> Visited(c, c.h, 0, px, py);
  }

  /** At most one pixel of a cell is its first brightest one. */
  lemma {:induction false} FirstBrightestIsUnique(img: Image, c: Cell, wt: Weighting, x1: nat, y1: nat, x2: nat, y2: nat)
    requires Valid(img) && Inside(img, c)
    requires IsFirstBrightest(img, c, wt, x1, y1) && IsFirstBrightest(img, c, wt, x2, y2)
    ensures x1 == x2 && y1 == y2
  {
    if Precedes(x1, y1, x2, y2) || Precedes(x2, y2, x1, y1) {
      assert false;
    }
  }

  /** The nested scan of one cell (the inner two loops of both extractors):
      keeps the first pixel of strictly greatest brightness. */
  method BrightestInCell(img: Image, c: Cell, wt: Weighting) returns (maxVal: real, maxX: nat, maxY: nat)
    requires Valid(img) && Inside(img, c)
    ensures Best(maxVal, maxX, maxY) == CellBest(img, c, wt)
    ensures c.w > 0 && c.h > 0 ==>
      IsFirstBrightest(img, c, wt, maxX, maxY) && maxVal == CellBrightness(img, c, wt, maxX, maxY)
    ensures c.w == 0 || c.h == 0 ==> maxVal == -1.0 && maxX == 0 && maxY == 0
  {
    maxVal, maxX, maxY := -1.0, 0, 0;
    var y := 0;
    while y < c.h
      invariant y <= c.h
      invariant Best(maxVal, maxX, maxY) == ScanTo(img, c, wt, y, 0)
    {
      var x := 0;
      while x < c.w
        invariant x <= c.w
        invariant Best(maxVal, maxX, maxY) == ScanTo(img, c, wt, y, x)
      {
        var b := CellBrightness(img, c, wt, x, y);
        if b > maxVal {
          maxVal, maxX, maxY := b, x, y;
        }
        x := x + 1;
      }
      y := y + 1;
    }
    if c.w > 0 && c.h > 0 {
      CellBestIsFirstBrightest(img, c, wt);
    } else if c.w == 0 && c.h > 0 {
      EmptyRowsKeepStart(img, c, wt, c.h);
    }
  }

  /** Scanning rows of zero width changes nothing. */
  lemma {:induction false} EmptyRowsKeepStart(img: Image, c: Cell, wt: Weighting, y: nat)
    requires Valid(img) && Inside(img, c) && c.w == 0 && y <= c.h
    ensures ScanTo(img, c, wt, y, 0) == Best(-1.0, 0, 0)
  {
    if y > 0 {
      EmptyRowsKeepStart(img, c, wt, y - 1);
    }
  }
}
