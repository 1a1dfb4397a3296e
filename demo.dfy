/** The stand-alone constellation demo, constellation_demo/script.js:
    the same 8x8 grid as the web verifier but with the unweighted mean
    brightness, no extent clamp and a relative brightness `b` per star, and
    a comparator that pairs stars by position in the array. */
module DemoConstellation {
  import opened Wrappers
  import opened Raster
  import opened Keypoints

  /** The rectangle read for cell (row, col): origin floor(col*W/8),
      floor(row*H/8), extent floor(W/8) x floor(H/8).  Nothing clamps it,
      yet it never leaves the raster. */
  function DemoCell(img: Image, row: nat, col: nat): (c: Cell)
    requires row < GridSize && col < GridSize
    ensures Inside(img, c)
    ensures c.sx + c.w <= img.width && c.sy + c.h <= img.height
  {
    CellFits(col, img.width);
    CellFits(row, img.height);
    Cell(CellStart(col, img.width), CellStart(row, img.height), CellExtent(img.width), CellExtent(img.height))
  }

  /** The star of cell (row, col): the first pixel of strictly greatest
      (R+G+B)/3, at relative coordinates, with `b = maxVal / 255`. */
  function DemoKeypointAt(img: Image, row: nat, col: nat): Keypoint
    requires Valid(img) && row < GridSize && col < GridSize && img.width > 0 && img.height > 0
  {
    var c := DemoCell(img, row, col);
    var best := CellBest(img, c, Mean);
    Keypoint(row, col, (c.sx + best.mx) as real / img.width as real,
             (c.sy + best.my) as real / img.height as real, Some(best.maxVal / 255.0))
  }

  /** The 64 stars in the order the grid loops push them. */
  function DemoSignature(img: Image): seq<Keypoint>
    requires Valid(img) && img.width >= GridSize && img.height >= GridSize
  {
    seq(64, k requires 0 <= k < 64 => DemoKeypointAt(img, k / 8, k % 8))
  }

  /** `extractConstellation` of the demo.  A raster narrower or lower than 8
      pixels asks `getImageData` for an empty rectangle, which throws. */
  method ExtractConstellation(img: Image) returns (r: Result<seq<Keypoint>, CanvasError>)
    requires Valid(img)
    ensures r.Failure? <==> img.width < GridSize || img.height < GridSize
    ensures r.Success? ==> r.value == DemoSignature(img) && RowMajorGrid(r.value)
  {
    var cellW := CellExtent(img.width);
    var cellH := CellExtent(img.height);
    if cellW == 0 || cellH == 0 {
      return Failure(IndexSizeError);
    }
    var stars: seq<Keypoint> := [];
    var row := 0;
    while row < GridSize
      invariant row <= GridSize
      invariant stars == DemoSignature(img)[..row * 8]
    {
      var col := 0;
      while col < GridSize
        invariant col <= GridSize
        invariant stars == DemoSignature(img)[..row * 8 + col]
      {
        var startX := CellStart(col, img.width);
        var startY := CellStart(row, img.height);
        CellFits(col, img.width);
        CellFits(row, img.height);
        ghost var c := DemoCell(img, row, col);
        assert c == Cell(startX, startY, cellW, cellH);
        var maxVal, maxX, maxY := BrightestInCell(img, Cell(startX, startY, cellW, cellH), Mean);
        var star := Keypoint(row, col, (startX + maxX) as real / img.width as real,
                             (startY + maxY) as real / img.height as real, Some(maxVal / 255.0));
        assert star == DemoKeypointAt(img, row, col);
        DemoPrefixGrows(img, row, col);
        stars := stars + [star];
        col := col + 1;
      }
      assert row * 8 + GridSize == (row + 1) * 8;
      row := row + 1;
    }
    DemoSignatureIsRowMajor(img);
    return Success(stars);
  }

  /** The demo signature's prefix up to cell (row, col), extended by that
      cell's star. */
  lemma DemoPrefixGrows(img: Image, row: nat, col: nat)
    requires Valid(img) && img.width >= GridSize && img.height >= GridSize
    requires row < GridSize && col < GridSize
    ensures DemoSignature(img)[..row * 8 + col + 1] == DemoSignature(img)[..row * 8 + col] + [DemoKeypointAt(img, row, col)]
  {
    var k := row * 8 + col;
    assert k / 8 == row && k % 8 == col;
    assert DemoSignature(img)[k] == DemoKeypointAt(img, row, col);
  }

  /** One star per cell, in row-major order, rows and columns in 0..7. */
  lemma DemoSignatureIsRowMajor(img: Image)
    requires Valid(img) && img.width >= GridSize && img.height >= GridSize
    ensures RowMajorGrid(DemoSignature(img))
  {
  }

  /** Every star of the demo is the first brightest pixel of its cell by
      mean brightness, and its relative brightness lies in [0, 1]. */
  lemma {:induction false} DemoStarIsFirstBrightest(img: Image, k: nat)
    requires Valid(img) && img.width >= GridSize && img.height >= GridSize && k < 64
    ensures var s := DemoSignature(img)[k];
      var c := DemoCell(img, k / 8, k % 8);
      && s.b.Some? && 0.0 <= s.b.value <= 1.0
      && exists mx: nat, my: nat :: IsFirstBrightest(img, c, Mean, mx, my)
           && s.x == (c.sx + mx) as real / img.width as real
           && s.y == (c.sy + my) as real / img.height as real
           && s.b.value * 255.0 == CellBrightness(img, c, Mean, mx, my)
  {
    var c := DemoCell(img, k / 8, k % 8);
    CellBestIsFirstBrightest(img, c, Mean);
  }

  // ---------------------------------------------------------------------
  // compare

  /** Sum of the distances between the stars at equal positions of the two
      arrays, over the first `|current|` positions. */
  function IndexTotal(current: seq<Keypoint>, original: seq<Keypoint>, norm: (real, real) -> real): real
    requires |current| <= |original|
    decreases |current|
  {
    if |current| == 0 then 0.0
    else
      var i := |current| - 1;
      IndexTotal(current[..i], original, norm) + Distance(norm, current[i], original[i])
  }

  lemma {:induction false} IndexTotalNonNegative(current: seq<Keypoint>, original: seq<Keypoint>, norm: (real, real) -> real)
    requires |current| <= |original| && IsEuclidean(norm)
    ensures IndexTotal(current, original, norm) >= 0.0
    decreases |current|
  {
    if |current| > 0 {
      var i := |current| - 1;
      IndexTotalNonNegative(current[..i], original, norm);
      DistanceIsMetric(norm, current[i], original[i]);
    }
  }

  /** Reading `original[i].x` past the end of `original` throws a TypeError. */
  datatype CompareError = UndefinedStar(index: nat)

  /** What `compare(current, original)` returns: the index-aligned distance
      sum divided by the constant 64, scored, and passed above 75; or the
      throw at the first index `original` lacks. */
  function CompareResult(current: seq<Keypoint>, original: seq<Keypoint>, norm: (real, real) -> real)
    : Result<Report, CompareError>
  {
    if |original| < |current| then Failure(UndefinedStar(|original|))
    else
      var avgDist := IndexTotal(current, original, norm) / 64.0;
      var score := HeuristicScore(avgDist);
      Success(Report(score, avgDist, score > 75.0))
  }

  /** `compare(current, original)`: index-aligned distance sum divided by the
      constant 64.  It throws at the first index `original` lacks. */
  method Compare(current: seq<Keypoint>, original: seq<Keypoint>, norm: (real, real) -> real)
    returns (r: Result<Report, CompareError>)
    requires IsEuclidean(norm)
    ensures r == CompareResult(current, original, norm)
    ensures r.Failure? <==> |original| < |current|
    ensures r.Failure? ==> r.error == UndefinedStar(|original|)
    ensures r.Success? ==>
      && r.value.avgDist == IndexTotal(current, original, norm) / 64.0
      && r.value.score == HeuristicScore(r.value.avgDist)
      && 0.0 <= r.value.score <= 100.0
      && (r.value.passed <==> r.value.score > 75.0)
  {
    var totalDist := 0.0;
    var i := 0;
    while i < |current|
      invariant i <= |current| && i <= |original|
      invariant totalDist == IndexTotal(current[..i], original, norm)
    {
      if i >= |original| {
        return Failure(UndefinedStar(i));
      }
      var dist := Distance(norm, current[i], original[i]);
      totalDist := totalDist + dist;
      assert current[..i + 1][..i] == current[..i];
      i := i + 1;
    }
    assert current[..i] == current;
    IndexTotalNonNegative(current, original, norm);
    var avgDist := totalDist / 64.0;
    var score := HeuristicScore(avgDist);
    return Success(Report(score, avgDist, score > 75.0));
  }

  /** Comparing a signature with a copy of itself (or with any array that
      starts with it) gives distance 0 and score 100. */
  lemma {:induction false} SelfCompareScoresFull(current: seq<Keypoint>, original: seq<Keypoint>, norm: (real, real) -> real)
    requires IsEuclidean(norm) && |current| <= |original| && current == original[..|current|]
    ensures IndexTotal(current, original, norm) == 0.0
    ensures HeuristicScore(IndexTotal(current, original, norm) / 64.0) == 100.0
    decreases |current|
  {
    if |current| > 0 {
      var i := |current| - 1;
      SelfCompareScoresFull(current[..i], original, norm);
      DistanceIsMetric(norm, current[i], original[i]);
    }
  }

  /** The label and colour the demo page shows: `score > 80`. */
  predicate UiPassed(score: real) {
    score > 80.0
  }

  /** For every report `compare` returns, `passed` means an average
      deviation under 0.05 and the page's PASSED label one under 0.04: the
      label is stricter than `passed`, and a score in (75, 80] is passed
      yet labelled FAILED. */
  lemma ShownVerdicts(current: seq<Keypoint>, original: seq<Keypoint>, norm: (real, real) -> real)
    requires IsEuclidean(norm) && CompareResult(current, original, norm).Success?
    ensures var rep := CompareResult(current, original, norm).value;
      && (rep.passed <==> rep.avgDist < 0.05)
      && (UiPassed(rep.score) <==> rep.avgDist < 0.04)
      && (UiPassed(rep.score) ==> rep.passed)
      && (75.0 < rep.score <= 80.0 ==> rep.passed && !UiPassed(rep.score))
  {
    IndexTotalNonNegative(current, original, norm);
  }

  /** Three stars in the first three cells of the top row, all at the
      same position. */
  function TopRow(x: real, y: real): seq<Keypoint> {
    [Keypoint(0, 0, x, y, None), Keypoint(0, 1, x, y, None), Keypoint(0, 2, x, y, None)]
  }

  /** The gap is reached: three stars each moved by 0.96 of the width give
      an average deviation of 2.88 / 64 = 0.045 and the score 77.5, which
      `compare` reports as passed and the page labels FAILED. */
  lemma PassedButShownFailed(norm: (real, real) -> real)
    requires IsEuclidean(norm)
    ensures CompareResult(TopRow(0.0, 0.5), TopRow(0.96, 0.5), norm) == Success(Report(77.5, 0.045, true))
    ensures !UiPassed(77.5)
  {
    var current, original := TopRow(0.0, 0.5), TopRow(0.96, 0.5);
    var d := norm(0.0 - 0.96, 0.0);
    assert d >= 0.0 && d * d == 0.9216;
    SquaresDetermineRoot(d, 0.96);
    forall k | 0 <= k < 3
      ensures Distance(norm, current[k], original[k]) == 0.96
    {
    }
    assert current[..2][..1] == current[..1];
    assert current[..2][..0] == current[..1][..0];
    assert IndexTotal(current[..1], original, norm) == 0.96;
    assert IndexTotal(current[..2], original, norm) == 1.92;
    assert IndexTotal(current, original, norm) == 2.88;
  }
}
