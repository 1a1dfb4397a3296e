/** The strict (strand) pipeline of script.js, extraction side:
    `extractStrandsFromImage` samples three vertical pixel columns of fixed
    geometry, reading pixels with `getPixelAt` and labelling them with
    `rgbToHex`.  The strand and pixel records are shared with the
    reference-file parser and the comparator. */
module Strands {
  import opened Wrappers
  import opened Raster
  import opened Hex

  /** One sampled pixel: `{ x, y, r, g, b, hex }`. */
  datatype Pixel = Pixel(x: nat, y: nat, r: nat, g: nat, b: nat, hex: string)

  /** One strand: `{ id, name, xPosition, startX, startY, pixels }`; the
      parser may leave the three positions unset. */
  datatype Strand = Strand(id: nat, name: string, xPosition: Option<nat>, startX: Option<nat>,
                           startY: Option<nat>, pixels: seq<Pixel>)

  /** `{ r, g, b, a }` as `getPixelAt` returns it. */
  datatype Rgba = Rgba(r: nat, g: nat, b: nat, a: nat)

  /** `getPixelAt(imageData, x, y)`: the four bytes at offset
      (y * width + x) * 4 of the whole-canvas image data. */
  function GetPixelAt(img: Image, x: nat, y: nat): (p: Rgba)
    requires Valid(img) && x < img.width && y < img.height
    ensures p.r < 256 && p.g < 256 && p.b < 256 && p.a < 256
  {
    Rgba(Channel(img, x, y, 0), Channel(img, x, y, 1), Channel(img, x, y, 2), Channel(img, x, y, 3))
  }

  /** One entry of the `positions` table. */
  datatype Position = Position(id: nat, x: nat, yStart: nat, name: string)

  /** `Math.floor(height / 3)`. */
  function StrandHeight(height: nat): nat {
    height / 3
  }

  /** `Math.floor(width * percent / 100)`, a column strictly inside a
      non-empty raster. */
  function ColumnAt(width: nat, percent: nat): (x: nat)
    requires percent < 100
    ensures width > 0 ==> x < width
    ensures x * 100 <= width * percent < (x + 1) * 100
  {
    width * percent / 100
  }

  /** The three strand positions: columns at 15%, 50% and 80% of the width
      (`Math.floor(width * 0.15)` etc., as integer arithmetic), the bottom
      strand ending on the last row, the middle one centred and the top one
      starting on the first row. */
  function Positions(width: nat, height: nat): (ps: seq<Position>)
    ensures |ps| == 3
    ensures ps[0].id == 1 && ps[1].id == 2 && ps[2].id == 3
    ensures ps[0].name == "Bottom" && ps[1].name == "Middle" && ps[2].name == "Top"
    ensures width > 0 ==> forall i :: 0 <= i < 3 ==> ps[i].x < width
    ensures forall i :: 0 <= i < 3 ==> ps[i].yStart + StrandHeight(height) <= height
    ensures ps[0].yStart + StrandHeight(height) == height && ps[2].yStart == 0
    ensures var gapBelow := height - StrandHeight(height) - ps[1].yStart;
      ps[1].yStart <= gapBelow <= ps[1].yStart + 1
  {
    var sh := StrandHeight(height);
    [Position(1, ColumnAt(width, 15), height - sh, "Bottom"),
     Position(2, ColumnAt(width, 50), (height - sh) / 2, "Middle"),
     Position(3, ColumnAt(width, 80), 0, "Top")]
  }

  /** A sampled pixel, labelled with its hex code. */
  function SampledPixel(img: Image, x: nat, y: nat): Pixel
    requires Valid(img) && x < img.width && y < img.height
  {
    var p := GetPixelAt(img, x, y);
    Pixel(x, y, p.r, p.g, p.b, RgbToHex(p.r, p.g, p.b))
  }

  /** The strand sampled at a position: `floor(height / 3)` pixels of column
      x, from row yStart downwards. */
  function ExtractedStrand(img: Image, p: Position): Strand
    requires Valid(img) && p.x < img.width && p.yStart + StrandHeight(img.height) <= img.height
  {
    Strand(p.id, p.name, Some(p.x), Some(p.x), Some(p.yStart),
           seq(StrandHeight(img.height), k requires 0 <= k < StrandHeight(img.height) =>
             SampledPixel(img, p.x, p.yStart + k)))
  }

  /** One pass of the outer loop of `extractStrandsFromImage`: the strand
      object for a position, filled by the inner loop over rows `yStart` up
      to (excluding) `yStart + strandHeight` and the raster's height. */
  method SampleStrand(img: Image, pos: Position) returns (strand: Strand)
    requires Valid(img) && pos.x < img.width && pos.yStart + StrandHeight(img.height) <= img.height
    ensures strand == ExtractedStrand(img, pos)
  {
    var strandHeight := StrandHeight(img.height);
    var pixels: seq<Pixel> := [];
    var y := pos.yStart;
    while y < pos.yStart + strandHeight && y < img.height
      invariant pos.yStart <= y <= pos.yStart + strandHeight
      invariant |pixels| == y - pos.yStart
      invariant forall k :: 0 <= k < |pixels| ==> pixels[k].y == pos.yStart + k
      invariant forall k :: 0 <= k < |pixels| ==> pixels[k] == SampledPixel(img, pos.x, pixels[k].y)
    {
      var pixel := GetPixelAt(img, pos.x, y);
      pixels := pixels + [Pixel(pos.x, y, pixel.r, pixel.g, pixel.b, RgbToHex(pixel.r, pixel.g, pixel.b))];
      y := y + 1;
    }
    strand := Strand(pos.id, pos.name, Some(pos.x), Some(pos.x), Some(pos.yStart), pixels);
    SampledRowsAreExtracted(img, pos, pixels);
  }

  /** Pixels sampled on consecutive rows from yStart, one per row of the
      strand, are the extracted strand's pixels. */
  lemma SampledRowsAreExtracted(img: Image, pos: Position, pixels: seq<Pixel>)
    requires Valid(img) && pos.x < img.width && pos.yStart + StrandHeight(img.height) <= img.height
    requires |pixels| == StrandHeight(img.height)
    requires forall k :: 0 <= k < |pixels| ==> pixels[k].y == pos.yStart + k
    requires forall k :: 0 <= k < |pixels| ==> pixels[k] == SampledPixel(img, pos.x, pixels[k].y)
    ensures pixels == ExtractedStrand(img, pos).pixels
  {
    var expected := ExtractedStrand(img, pos).pixels;
    forall k | 0 <= k < |pixels| ensures pixels[k] == expected[k] {
      assert pixels[k].y == pos.yStart + k;
    }
  }

  /** `extractStrandsFromImage`.  Reading the whole canvas with
      `getImageData` throws for an empty raster. */
  method ExtractStrands(img: Image) returns (r: Result<seq<Strand>, CanvasError>)
    requires Valid(img)
    ensures r.Failure? <==> img.width == 0 || img.height == 0
    ensures r.Success? ==>
      && |r.value| == 3
      && forall i :: 0 <= i < 3 ==> r.value[i] == ExtractedStrand(img, Positions(img.width, img.height)[i])
  {
    if img.width == 0 || img.height == 0 {
      return Failure(IndexSizeError);
    }
    var positions := Positions(img.width, img.height);
    var strands: seq<Strand> := [];
    var i := 0;
    while i < |positions|
      invariant i <= |positions| && |strands| == i
      invariant forall j :: 0 <= j < i ==> strands[j] == ExtractedStrand(img, positions[j])
    {
      var pos := positions[i];
      var strand := SampleStrand(img, pos);
      strands := strands + [strand];
      i := i + 1;
    }
    return Success(strands);
  }

  /** A pixel of the raster carries its channels there and a hex code of
      the parser's shape that reads back as those channels. */
  predicate ReadsBack(img: Image, px: Pixel)
    requires Valid(img)
  {
    && px.x < img.width && px.y < img.height
    && px.r == Channel(img, px.x, px.y, 0) && px.g == Channel(img, px.x, px.y, 1) && px.b == Channel(img, px.x, px.y, 2)
    && |px.hex| == 7 && HexColorAt(px.hex, 0)
    && PairValue(px.hex, 1) == px.r && PairValue(px.hex, 3) == px.g && PairValue(px.hex, 5) == px.b
  }

  /** A sampled pixel carries its coordinates, the raster's channels there
      and a hex code of the parser's shape that reads back as those
      channels. */
  lemma SampledPixelReadsBack(img: Image, x: nat, y: nat)
    requires Valid(img) && x < img.width && y < img.height
    ensures SampledPixel(img, x, y).x == x && SampledPixel(img, x, y).y == y
    ensures ReadsBack(img, SampledPixel(img, x, y))
  {
    var c := GetPixelAt(img, x, y);
    RgbToHexRoundTrip(c.r, c.g, c.b);
  }

  /** A sampled pixel's hex code has the parser's shape. */
  lemma SampledPixelHex(img: Image, x: nat, y: nat)
    requires Valid(img) && x < img.width && y < img.height
    ensures |SampledPixel(img, x, y).hex| == 7 && HexColorAt(SampledPixel(img, x, y).hex, 0)
  {
    SampledPixelReadsBack(img, x, y);
  }

  /** Every extracted strand is a run of consecutive rows of one column,
      starting at its recorded startY: its pixel k is the pixel sampled at
      row startY + k, which reads back as `SampledPixelReadsBack` states. */
  lemma ExtractedStrandIsWellFormed(img: Image, p: Position, k: nat)
    requires Valid(img) && p.x < img.width && p.yStart + StrandHeight(img.height) <= img.height
    requires k < StrandHeight(img.height)
    ensures |ExtractedStrand(img, p).pixels| == img.height / 3
    ensures ExtractedStrand(img, p).xPosition == ExtractedStrand(img, p).startX == Some(p.x)
    ensures ExtractedStrand(img, p).startY == Some(p.yStart)
    ensures ExtractedStrand(img, p).pixels[k] == SampledPixel(img, p.x, p.yStart + k)
  {
  }
}
