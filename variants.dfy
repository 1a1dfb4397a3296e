/** How the three constellation scorers relate.  The web verifier
    (script.js), the demo (constellation_demo/script.js) and the back end
    (server/server.js) all score `max(0, 100 - 500 * avgDist)` but differ in
    how they pair stars, what a missing cell costs and what they divide by. */
module ScoringVariants {
  import opened Wrappers
  import opened Raster
  import opened Keypoints
  import Constellation
  import DemoConstellation
  import Server

  /** Every query star has a reference star in its cell. */
  predicate AllCellsFound(query: seq<Keypoint>, reference: seq<Keypoint>) {
    forall k :: 0 <= k < |query| ==> FindCell(reference, query[k].row, query[k].col).Some?
  }

  /** When every cell is found, the web verifier and the back end add up the
      same distances; they differ only where a cell is missing (0 against
      0.5). */
  lemma {:induction false} KeyedTotalsAgree(query: seq<Keypoint>, reference: seq<Keypoint>, norm: (real, real) -> real)
    requires AllCellsFound(query, reference)
    ensures Constellation.TotalDistance(query, reference, norm) == Server.ServerTotal(query, reference, norm)
    decreases |query|
  {
    if |query| > 0 {
      var n := |query| - 1;
      assert AllCellsFound(query[..n], reference) by {
        forall k | 0 <= k < n ensures FindCell(reference, query[..n][k].row, query[..n][k].col).Some? {
          assert query[..n][k] == query[k];
        }
      }
      KeyedTotalsAgree(query[..n], reference, norm);
    }
  }

  /** For a full 64-star query whose cells are all found, the web verifier's
      average (total / 16) is four times the back end's (total / 64), so its
      score is never higher: the client is the stricter judge. */
  lemma ClientAverageIsFourfold(query: seq<Keypoint>, reference: seq<Keypoint>, norm: (real, real) -> real)
    requires IsEuclidean(norm) && |query| == 64 && AllCellsFound(query, reference)
    ensures var total := Constellation.TotalDistance(query, reference, norm);
      && total / 16.0 == 4.0 * (Server.ServerTotal(query, reference, norm) / 64.0)
      && Server.ServerScore(query, reference, norm).Num?
      && HeuristicScore(total / 16.0) <= Server.ServerScore(query, reference, norm).v
  {
    KeyedTotalsAgree(query, reference, norm);
    Constellation.TotalDistanceNonNegative(query, reference, norm);
    var total := Constellation.TotalDistance(query, reference, norm);
    HeuristicScoreDecreasing(total / 64.0, total / 16.0);
  }

  /** In a row-major grid, the star of cell (k / 8, k % 8) is star k. */
  lemma FindInRowMajorGrid(stars: seq<Keypoint>, k: nat)
    requires RowMajorGrid(stars) && k < 64
    ensures FindCell(stars, k / 8, k % 8) == Some(k)
  {
    RowMajorGridIsDistinct(stars);
    FindCellOfDistinct(stars, k);
  }

  /** Between two row-major grids, pairing by index (demo) and pairing by
      cell (back end) pair the same stars, so the totals agree. */
  lemma {:induction false} IndexedTotalIsKeyedTotal(prefix: seq<Keypoint>, current: seq<Keypoint>, original: seq<Keypoint>, norm: (real, real) -> real)
    requires RowMajorGrid(current) && RowMajorGrid(original)
    requires |prefix| <= 64 && prefix == current[..|prefix|]
    ensures DemoConstellation.IndexTotal(prefix, original, norm) == Server.ServerTotal(prefix, original, norm)
    decreases |prefix|
  {
    if |prefix| > 0 {
      var k := |prefix| - 1;
      IndexedTotalIsKeyedTotal(prefix[..k], current, original, norm);
      FindInRowMajorGrid(original, k);
    }
  }

  /** Consequently the demo and the back end give the same score for two
      extractor outputs: both divide the same total by 64. */
  lemma DemoAgreesWithServer(current: seq<Keypoint>, original: seq<Keypoint>, norm: (real, real) -> real)
    requires IsEuclidean(norm) && RowMajorGrid(current) && RowMajorGrid(original)
    ensures Server.ServerScore(current, original, norm)
         == Num(HeuristicScore(DemoConstellation.IndexTotal(current, original, norm) / 64.0))
  {
    IndexedTotalIsKeyedTotal(current, current, original, norm);
  }

  /** Both extractors read the same 64 rectangles: the web verifier's clamp
      never changes an extent. */
  lemma ExtractorsReadSameCells(img: Image, row: nat, col: nat)
    requires row < GridSize && col < GridSize
    ensures Constellation.GridCell(img, row, col) == DemoConstellation.DemoCell(img, row, col)
  {
    Constellation.ClampNeverBinds(img, row, col);
  }

  /** Every star of a row-major grid finds its own cell in any other
      row-major grid. */
  lemma RowMajorGridsFindAllCells(query: seq<Keypoint>, reference: seq<Keypoint>)
    requires RowMajorGrid(query) && RowMajorGrid(reference)
    ensures AllCellsFound(query, reference)
  {
    forall k | 0 <= k < |query| ensures FindCell(reference, query[k].row, query[k].col).Some? {
      FindInRowMajorGrid(reference, k);
    }
  }
}
