/** Keypoints ("stars") of a constellation signature, the Euclidean distance
    the three scorers use, and the `Array.prototype.find` lookup by grid cell
    shared by the cell-keyed scorers. */
module Keypoints {
  import opened Wrappers

  /** One star: its grid cell, its position relative to the image size, and
      the optional brightness `b` that only the demo extractor writes.  The
      brightness never takes part in scoring. */
  datatype Keypoint = Keypoint(row: int, col: int, x: real, y: real, b: Option<real>)

  /** `Math.sqrt(dx*dx + dy*dy)`.  Dafny has no square root, so every scorer
      receives the Euclidean norm as a parameter constrained by this
      predicate: non-negative and squaring to dx*dx + dy*dy. */
  ghost predicate IsEuclidean(norm: (real, real) -> real) {
    forall dx: real, dy: real :: norm(dx, dy) >= 0.0 && norm(dx, dy) * norm(dx, dy) == dx * dx + dy * dy
  }

  /** The distance between two stars' relative positions. */
  function Distance(norm: (real, real) -> real, p: Keypoint, q: Keypoint): real {
    norm(p.x - q.x, p.y - q.y)
  }

  /** The distance is a metric's: non-negative, zero exactly between equal
      positions, and symmetric. */
  lemma {:induction false} DistanceIsMetric(norm: (real, real) -> real, p: Keypoint, q: Keypoint)
    requires IsEuclidean(norm)
    ensures Distance(norm, p, q) >= 0.0
    ensures Distance(norm, p, q) == 0.0 <==> p.x == q.x && p.y == q.y
    ensures Distance(norm, p, q) == Distance(norm, q, p)
  {
    var dx, dy := p.x - q.x, p.y - q.y;
    var d, e := norm(dx, dy), norm(-dx, -dy);
    assert d * d == dx * dx + dy * dy;
    assert e * e == (-dx) * (-dx) + (-dy) * (-dy) == dx * dx + dy * dy;
    if d == 0.0 {
      assert dx * dx + dy * dy == 0.0;
      SquareNonNegative(dx);
      SquareNonNegative(dy);
      SquareZero(dx);
      SquareZero(dy);
    }
    if dx == 0.0 && dy == 0.0 {
      SquareZero(d);
    }
    SquaresDetermineRoot(d, e);
  }

  lemma SquareNonNegative(a: real)
    ensures a * a >= 0.0
  {
  }

  /** Squaring is strictly increasing on the non-negative reals. */
  lemma SquareIncreasing(d: real, e: real)
    requires 0.0 <= d < e
    ensures d * d < e * e
  {
    calc {
      d * d;
    <= { ScaleNonDecreasing(d, d, e); }
      d * e;
    < { ScaleIncreasing(e, d, e); }
      e * e;
    }
  }

  lemma ScaleNonDecreasing(k: real, a: real, b: real)
    requires 0.0 <= k && a <= b
    ensures k * a <= k * b
  {
  }

  lemma ScaleIncreasing(k: real, a: real, b: real)
    requires 0.0 < k && a < b
    ensures a * k < b * k
  {
  }

  /** Only zero squares to zero. */
  lemma SquareZero(a: real)
    requires a * a == 0.0
    ensures a == 0.0
  {
    if a > 0.0 {
      SquareIncreasing(0.0, a);
      assert false;
    } else if a < 0.0 {
      SquareIncreasing(0.0, -a);
      assert false;
    }
  }

  /** Two non-negative reals with the same square are equal. */
  lemma SquaresDetermineRoot(d: real, e: real)
    requires d >= 0.0 && e >= 0.0 && d * d == e * e
    ensures d == e
  {
    if d < e {
      SquareIncreasing(d, e);
      assert false;
    } else if e < d {
      SquareIncreasing(e, d);
      assert false;
    }
  }

  /** `s.row === row && s.col === col`. */
  predicate InCell(s: Keypoint, row: int, col: int) {
    s.row == row && s.col == col
  }

  /** `stars.find(s => s.row === row && s.col === col)`, as the index of the
      star found: the first star of that cell, or none. */
  function FindCell(stars: seq<Keypoint>, row: int, col: int): (r: Option<nat>)
    ensures r.Some? ==> r.value < |stars| && InCell(stars[r.value], row, col)
    ensures r.Some? ==> forall j :: 0 <= j < r.value ==> !InCell(stars[j], row, col)
    ensures r.None? <==> forall j :: 0 <= j < |stars| ==> !InCell(stars[j], row, col)
  {
    if |stars| == 0 then None
    else if InCell(stars[0], row, col) then Some(0)
    else
      match FindCell(stars[1..], row, col)
      case None => None
      case Some(j) => Some(j + 1)
  }

  /** No two stars share a grid cell. */
  predicate DistinctCells(stars: seq<Keypoint>) {
    forall i, j :: 0 <= i < j < |stars| ==> !InCell(stars[j], stars[i].row, stars[i].col)
  }

  /** In a signature without repeated cells, every star is the one `find`
      returns for its own cell. */
  lemma {:induction false} FindCellOfDistinct(stars: seq<Keypoint>, k: nat)
    requires DistinctCells(stars) && k < |stars|
    ensures FindCell(stars, stars[k].row, stars[k].col) == Some(k)
  {
    var r := FindCell(stars, stars[k].row, stars[k].col);
    assert r.Some?;
    if r.value < k {
      assert false;
    }
  }

  /** The shape every extractor produces: 64 stars in row-major grid order,
      star k in cell (k / 8, k % 8). */
  predicate RowMajorGrid(stars: seq<Keypoint>) {
    |stars| == 64 && forall k :: 0 <= k < 64 ==> stars[k].row == k / 8 && stars[k].col == k % 8
  }

  /** A row-major grid has exactly one star per cell. */
  lemma {:induction false} RowMajorGridIsDistinct(stars: seq<Keypoint>)
    requires RowMajorGrid(stars)
    ensures DistinctCells(stars)
  {
    forall i, j | 0 <= i < j < |stars|
      ensures !InCell(stars[j], stars[i].row, stars[i].col)
    {
      assert i == (i / 8) * 8 + i % 8;
      assert j == (j / 8) * 8 + j % 8;
    }
  }

  /** `Math.max(0, 100 - avgDist * 500)`, the score all three scorers derive
      from an average distance: 100 for no drift, falling linearly to 0 at an
      average drift of 0.2. */
  function HeuristicScore(avgDist: real): (score: real)
    ensures avgDist >= 0.0 ==> 0.0 <= score <= 100.0
    ensures avgDist >= 0.0 ==> (score == 100.0 <==> avgDist == 0.0)
    ensures score == 0.0 <==> avgDist >= 0.2
  {
    Max0(100.0 - avgDist * 500.0)
  }

  /** The `{ score, avgDist, passed }` object the client-side scorers return. */
  datatype Report = Report(score: real, avgDist: real, passed: bool)

  /** A larger average distance never scores higher, and scores strictly
      lower while the score is still above 0. */
  lemma HeuristicScoreDecreasing(a1: real, a2: real)
    requires a1 <= a2
    ensures HeuristicScore(a2) <= HeuristicScore(a1)
    ensures a1 < a2 && HeuristicScore(a1) > 0.0 ==> HeuristicScore(a2) < HeuristicScore(a1)
  {
  }
}
