/** The resilient (constellation) pipeline of the web verifier, script.js:
    `extractConstellation` splits the raster into an 8x8 grid and keeps, per
    cell, the first pixel of strictly greatest weighted luma as a star;
    `verifyConstellation` scores a fresh extraction against a reference
    signature matched cell by cell. */
module Constellation {
  import opened Wrappers
  import opened Raster
  import opened Keypoints

  /** `(start + extent > total) ? total - start : extent`. */
  function Clamp(start: nat, extent: nat, total: nat): nat
    requires start <= total
  {
    if start + extent > total then total - start else extent
  }

  /** The rectangle read for cell (row, col): origin floor(col*W/8),
      floor(row*H/8), extent floor(W/8) x floor(H/8), each extent clamped so
      that the rectangle ends inside the raster. */
  function GridCell(img: Image, row: nat, col: nat): (c: Cell)
    requires row < GridSize && col < GridSize
    ensures Inside(img, c)
  {
    CellFits(col, img.width);
    CellFits(row, img.height);
    var sx := CellStart(col, img.width);
    var sy := CellStart(row, img.height);
    Cell(sx, sy, Clamp(sx, CellExtent(img.width), img.width), Clamp(sy, CellExtent(img.height), img.height))
  }

  /** The clamp never changes an extent: every cell is exactly
      floor(W/8) x floor(H/8) pixels. */
  lemma ClampNeverBinds(img: Image, row: nat, col: nat)
    requires row < GridSize && col < GridSize
    ensures GridCell(img, row, col) ==
      Cell(CellStart(col, img.width), CellStart(row, img.height), CellExtent(img.width), CellExtent(img.height))
  {
    CellFits(col, img.width);
    CellFits(row, img.height);
  }

  /** The star of cell (row, col): the cell's first brightest pixel by
      weighted luma, in coordinates relative to the raster size. */
  function KeypointAt(img: Image, row: nat, col: nat): Keypoint
    requires Valid(img) && row < GridSize && col < GridSize && img.width > 0 && img.height > 0
  {
    var c := GridCell(img, row, col);
    var b := CellBest(img, c, Luma601);
    Keypoint(row, col, (c.sx + b.mx) as real / img.width as real, (c.sy + b.my) as real / img.height as real, None)
  }

  /** The 64 stars in the order the two grid loops push them. */
  function Signature(img: Image): seq<Keypoint>
    requires Valid(img) && img.width >= GridSize && img.height >= GridSize
  {
    seq(64, k requires 0 <= k < 64 => KeypointAt(img, k / 8, k % 8))
  }

  /** `extractConstellation`.  `getImageData` throws IndexSizeError for a
      zero-sized rectangle; every cell is floor(W/8) x floor(H/8), so a raster
      narrower or lower than 8 pixels fails at the first cell. */
  method ExtractConstellation(img: Image) returns (r: Result<seq<Keypoint>, CanvasError>)
    requires Valid(img)
    ensures r.Failure? <==> img.width < GridSize || img.height < GridSize
    ensures r.Success? ==> r.value == Signature(img) && RowMajorGrid(r.value)
  {
    ClampNeverBinds(img, 0, 0);
    if CellExtent(img.width) == 0 || CellExtent(img.height) == 0 {
      return Failure(IndexSizeError);
    }
    var stars: seq<Keypoint> := [];
    var row := 0;
    while row < GridSize
      invariant row <= GridSize
      invariant stars == Signature(img)[..row * 8]
    {
      var col := 0;
      while col < GridSize
        invariant col <= GridSize
        invariant stars == Signature(img)[..row * 8 + col]
      {
        var startX := CellStart(col, img.width);
        var startY := CellStart(row, img.height);
        var w := CellExtent(img.width);
        var h := CellExtent(img.height);
        CellFits(col, img.width);
        CellFits(row, img.height);
        var safeW := Clamp(startX, w, img.width);
        var safeH := Clamp(startY, h, img.height);
        var maxVal, maxX, maxY := BrightestInCell(img, Cell(startX, startY, safeW, safeH), Luma601);
        var star := Keypoint(row, col, (startX + maxX) as real / img.width as real,
                             (startY + maxY) as real / img.height as real, None);
        assert star == KeypointAt(img, row, col);
        SignaturePrefixGrows(img, row, col);
        stars := stars + [star];
        col := col + 1;
      }
      assert row * 8 + GridSize == (row + 1) * 8;
      row := row + 1;
    }
    SignatureIsRowMajor(img);
    return Success(stars);
  }

  /** The signature's prefix up to cell (row, col), extended by that cell's
      star. */
  lemma SignaturePrefixGrows(img: Image, row: nat, col: nat)
    requires Valid(img) && img.width >= GridSize && img.height >= GridSize
    requires row < GridSize && col < GridSize
    ensures Signature(img)[..row * 8 + col + 1] == Signature(img)[..row * 8 + col] + [KeypointAt(img, row, col)]
  {
    var k := row * 8 + col;
    assert k / 8 == row && k % 8 == col;
    assert Signature(img)[k] == KeypointAt(img, row, col);
  }

  /** One star per cell, in row-major order. */
  lemma SignatureIsRowMajor(img: Image)
    requires Valid(img) && img.width >= GridSize && img.height >= GridSize
    ensures RowMajorGrid(Signature(img))
  {
  }

  /** n / d lies in [0, 1) when n < d. */
  lemma RatioInUnitInterval(n: nat, d: nat)
    requires n < d
    ensures 0.0 <= n as real / d as real < 1.0
  {
    var q := n as real / d as real;
    assert q * d as real == n as real;
    if q >= 1.0 {
      ScaleUp(q, d as real);
      assert false;
    }
    if q < 0.0 {
      ScaleNegative(q, d as real);
      assert false;
    }
  }

  lemma ScaleUp(q: real, d: real)
    requires q >= 1.0 && d >= 0.0
    ensures q * d >= d
  {
  }

  lemma ScaleNegative(q: real, d: real)
    requires q < 0.0 && d > 0.0
    ensures q * d < 0.0
  {
  }

  /** Every star is the first brightest pixel (by weighted luma) of its own
      cell, and its coordinates lie in [0, 1). */
  lemma {:induction false} StarIsFirstBrightest(img: Image, k: nat)
    requires Valid(img) && img.width >= GridSize && img.height >= GridSize && k < 64
    ensures var s := Signature(img)[k];
      var c := GridCell(img, k / 8, k % 8);
      && 0.0 <= s.x < 1.0 && 0.0 <= s.y < 1.0
      && exists mx: nat, my: nat :: IsFirstBrightest(img, c, Luma601, mx, my)
           && s.x == (c.sx + mx) as real / img.width as real
           && s.y == (c.sy + my) as real / img.height as real
  {
    var c := GridCell(img, k / 8, k % 8);
    ClampNeverBinds(img, k / 8, k % 8);
    var b := CellBest(img, c, Luma601);
    CellBestIsFirstBrightest(img, c, Luma601);
    RatioInUnitInterval(c.sx + b.mx, img.width);
    RatioInUnitInterval(c.sy + b.my, img.height);
  }

  // ---------------------------------------------------------------------
  // verifyConstellation

  /** What one extracted star adds to `totalDist`: the distance to the first
      reference star of the same cell, or nothing when the reference has no
      star there. */
  function StarCost(u: Keypoint, original: seq<Keypoint>, norm: (real, real) -> real): real {
    match FindCell(original, u.row, u.col)
    case Some(j) => Distance(norm, u, original[j])
    case None => 0.0
  }

  /** `totalDist` after the loop over `stars`. */
  function TotalDistance(stars: seq<Keypoint>, original: seq<Keypoint>, norm: (real, real) -> real): real
    decreases |stars|
  {
    if |stars| == 0 then 0.0
    else TotalDistance(stars[..|stars| - 1], original, norm) + StarCost(stars[|stars| - 1], original, norm)
  }

  lemma {:induction false} TotalDistanceNonNegative(stars: seq<Keypoint>, original: seq<Keypoint>, norm: (real, real) -> real)
    requires IsEuclidean(norm)
    ensures TotalDistance(stars, original, norm) >= 0.0
    decreases |stars|
  {
    if |stars| > 0 {
      TotalDistanceNonNegative(stars[..|stars| - 1], original, norm);
      var u := stars[|stars| - 1];
      match FindCell(original, u.row, u.col)
      case Some(j) => DistanceIsMetric(norm, u, original[j]);
      case None =>
    }
  }

  /** `verifyConstellation`: extract, add up the per-cell distances, divide
      by the constant 16 and score. */
  method VerifyConstellation(img: Image, originalStars: seq<Keypoint>, norm: (real, real) -> real)
    returns (r: Result<Report, CanvasError>)
    requires Valid(img) && IsEuclidean(norm)
    ensures r.Failure? <==> img.width < GridSize || img.height < GridSize
    ensures r.Success? ==>
      && r.value.avgDist == TotalDistance(Signature(img), originalStars, norm) / 16.0
      && r.value.score == HeuristicScore(r.value.avgDist)
      && 0.0 <= r.value.score <= 100.0
      && (r.value.passed <==> r.value.score > 75.0)
  {
    var extracted := ExtractConstellation(img);
    if extracted.Failure? {
      return Failure(extracted.error);
    }
    var uploadedStars := extracted.value;
    var totalDist := 0.0;
    var i := 0;
    while i < |uploadedStars|
      invariant i <= |uploadedStars|
      invariant totalDist == TotalDistance(uploadedStars[..i], originalStars, norm)
    {
      var u := uploadedStars[i];
      var o := FindCell(originalStars, u.row, u.col);
      if o.Some? {
        var dist := Distance(norm, u, originalStars[o.value]);
        totalDist := totalDist + dist;
      }
      assert uploadedStars[..i + 1][..i] == uploadedStars[..i];
      i := i + 1;
    }
    assert uploadedStars[..i] == uploadedStars;
    TotalDistanceNonNegative(uploadedStars, originalStars, norm);
    var avgDist := totalDist / 16.0;
    var score := HeuristicScore(avgDist);
    return Success(Report(score, avgDist, score > 75.0));
  }

  /** Verifying an image against its own signature scores 100. */
  lemma {:induction false} SelfVerificationScoresFull(img: Image, norm: (real, real) -> real)
    requires Valid(img) && img.width >= GridSize && img.height >= GridSize && IsEuclidean(norm)
    ensures TotalDistance(Signature(img), Signature(img), norm) == 0.0
    ensures HeuristicScore(TotalDistance(Signature(img), Signature(img), norm) / 16.0) == 100.0
  {
    var s := Signature(img);
    SignatureIsRowMajor(img);
    RowMajorGridIsDistinct(s);
    SelfTotalIsZero(s, s, norm);
  }

  /** Every star of a prefix of a signature without repeated cells finds
      itself, at distance 0. */
  lemma {:induction false} SelfTotalIsZero(prefix: seq<Keypoint>, stars: seq<Keypoint>, norm: (real, real) -> real)
    requires IsEuclidean(norm) && DistinctCells(stars) && |prefix| <= |stars| && prefix == stars[..|prefix|]
    ensures TotalDistance(prefix, stars, norm) == 0.0
    decreases |prefix|
  {
    if |prefix| > 0 {
      var k := |prefix| - 1;
      SelfTotalIsZero(prefix[..k], stars, norm);
      FindCellOfDistinct(stars, k);
      DistanceIsMetric(norm, stars[k], stars[k]);
    }
  }

  /** Reference stars are looked up by cell, and a cell the reference lacks
      costs nothing: against an empty reference every image scores 100 and
      passes. */
  lemma {:induction false} EmptyReferencePasses(stars: seq<Keypoint>, norm: (real, real) -> real)
    ensures TotalDistance(stars, [], norm) == 0.0
    ensures HeuristicScore(TotalDistance(stars, [], norm) / 16.0) == 100.0
    decreases |stars|
  {
    if |stars| > 0 {
      EmptyReferencePasses(stars[..|stars| - 1], norm);
    }
  }
}
