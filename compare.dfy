/** The strict pipeline's comparator, `compareStrands` of script.js: strands
    paired by position, pixels paired by position within a strand, a pair
    matching when every colour channel differs by at most 5; and the
    three-way verdict the result page derives from the overall percentage. */
module StrandCompare {
  import opened Wrappers
  import opened Text
  import opened Strands

  /** The per-channel tolerance for JPEG artefacts. */
  const Tolerance: nat := 5

  function Abs(d: int): nat {
    if d < 0 then -d else d
  }

  /** Every channel of the pair differs by at most the tolerance. */
  predicate PixelMatches(o: Pixel, e: Pixel) {
    Abs(o.r - e.r) <= Tolerance && Abs(o.g - e.g) <= Tolerance && Abs(o.b - e.b) <= Tolerance
  }

  /** The tolerance is inclusive: a difference of 5 in every channel still
      matches, a difference of 6 in any one channel does not. */
  lemma ToleranceIsInclusive(o: Pixel, e: Pixel)
    ensures Abs(o.r - e.r) == 5 && Abs(o.g - e.g) == 5 && Abs(o.b - e.b) == 5 ==> PixelMatches(o, e)
    ensures Abs(o.r - e.r) == 6 || Abs(o.g - e.g) == 6 || Abs(o.b - e.b) == 6 ==> !PixelMatches(o, e)
  {
  }

  /** Number of matching pairs among the first n. */
  function MatchCount(o: seq<Pixel>, e: seq<Pixel>, n: nat): (c: nat)
    requires n <= |o| && n <= |e|
    ensures c <= n
    decreases n
  {
    if n == 0 then 0
    else MatchCount(o, e, n - 1) + (if PixelMatches(o[n - 1], e[n - 1]) then 1 else 0)
  }

  /** The positions of the mismatching pairs among the first n, in scan
      order; there are n minus the matching ones. */
  function Mismatches(o: seq<Pixel>, e: seq<Pixel>, n: nat): (ms: seq<nat>)
    requires n <= |o| && n <= |e|
    ensures |ms| == n - MatchCount(o, e, n)
    ensures forall i :: 0 <= i < |ms| ==> ms[i] < n
    decreases n
  {
    if n == 0 then []
    else
      var prev := Mismatches(o, e, n - 1);
      if PixelMatches(o[n - 1], e[n - 1]) then prev else prev + [n - 1]
  }

  /** `Mismatches` lists exactly the mismatching positions, each once, in
      strictly increasing order. */
  lemma MismatchesAreSortedMismatchPositions(o: seq<Pixel>, e: seq<Pixel>, n: nat)
    requires n <= |o| && n <= |e|
    ensures var ms := Mismatches(o, e, n);
      && (forall i :: 0 <= i < |ms| ==> ms[i] < n && !PixelMatches(o[ms[i]], e[ms[i]]))
      && (forall i, j :: 0 <= i < j < |ms| ==> ms[i] < ms[j])
      && (forall j :: 0 <= j < n && !PixelMatches(o[j], e[j]) ==> j in ms)
  {
    MismatchesAreMismatchPositions(o, e, n);
    MismatchesAreSorted(o, e, n);
  }

  /** Every listed position is a mismatch and every mismatch is listed. */
  lemma MismatchesAreMismatchPositions(o: seq<Pixel>, e: seq<Pixel>, n: nat)
    requires n <= |o| && n <= |e|
    ensures var ms := Mismatches(o, e, n);
      && (forall i :: 0 <= i < |ms| ==> !PixelMatches(o[ms[i]], e[ms[i]]))
      && (forall j :: 0 <= j < n && !PixelMatches(o[j], e[j]) ==> j in ms)
  {
    MismatchesAreMismatches(o, e, n);
    MismatchesAreComplete(o, e, n);
  }

  /** Every listed position is a mismatch. */
  lemma {:induction false} MismatchesAreMismatches(o: seq<Pixel>, e: seq<Pixel>, n: nat)
    requires n <= |o| && n <= |e|
    ensures forall i :: 0 <= i < |Mismatches(o, e, n)| ==>
      !PixelMatches(o[Mismatches(o, e, n)[i]], e[Mismatches(o, e, n)[i]])
    decreases n
  {
    if n > 0 {
      MismatchesAreMismatches(o, e, n - 1);
      var prev := Mismatches(o, e, n - 1);
      var ms := Mismatches(o, e, n);
      forall i | 0 <= i < |ms| ensures !PixelMatches(o[ms[i]], e[ms[i]]) {
        if PixelMatches(o[n - 1], e[n - 1]) {
          assert ms == prev;
          assert !PixelMatches(o[prev[i]], e[prev[i]]);
        } else if i < |prev| {
          assert ms == prev + [n - 1];
          assert ms[i] == prev[i];
          assert !PixelMatches(o[prev[i]], e[prev[i]]);
        } else {
          assert ms == prev + [n - 1];
          assert ms[i] == n - 1;
        }
      }
    }
  }

  /** Every mismatching position is listed. */
  lemma {:induction false} MismatchesAreComplete(o: seq<Pixel>, e: seq<Pixel>, n: nat)
    requires n <= |o| && n <= |e|
    ensures forall j :: 0 <= j < n && !PixelMatches(o[j], e[j]) ==> j in Mismatches(o, e, n)
    decreases n
  {
    if n > 0 {
      MismatchesAreComplete(o, e, n - 1);
      var prev := Mismatches(o, e, n - 1);
      var ms := Mismatches(o, e, n);
      forall j | 0 <= j < n && !PixelMatches(o[j], e[j]) ensures j in ms {
        if j < n - 1 {
          assert j in prev;
          if !PixelMatches(o[n - 1], e[n - 1]) {
            assert ms == prev + [n - 1];
          }
        } else {
          assert ms == prev + [n - 1];
          assert ms[|prev|] == j;
        }
      }
    }
  }

  /** The listed positions increase strictly. */
  lemma {:induction false} MismatchesAreSorted(o: seq<Pixel>, e: seq<Pixel>, n: nat)
    requires n <= |o| && n <= |e|
    ensures forall i, j :: 0 <= i < j < |Mismatches(o, e, n)| ==>
      Mismatches(o, e, n)[i] < Mismatches(o, e, n)[j]
    decreases n
  {
    if n > 0 {
      MismatchesAreSorted(o, e, n - 1);
      var prev := Mismatches(o, e, n - 1);
      var ms := Mismatches(o, e, n);
      forall i, j | 0 <= i < j < |ms| ensures ms[i] < ms[j] {
        if PixelMatches(o[n - 1], e[n - 1]) {
          assert ms == prev;
        } else {
          assert ms == prev + [n - 1];
          assert ms[i] == prev[i];
          if j < |prev| {
            assert ms[j] == prev[j];
          } else {
            assert ms[j] == n - 1;
          }
        }
      }
    }
  }

  /** `{ r: rDiff, g: gDiff, b: bDiff }`. */
  datatype Diff = Diff(r: nat, g: nat, b: nat)

  /** One logged mismatch: `{ position, y, original, extracted, diff }`. */
  datatype Mismatch = Mismatch(position: nat, y: nat, original: Pixel, extracted: Pixel, diff: Diff)

  function MismatchAt(o: seq<Pixel>, e: seq<Pixel>, j: nat): Mismatch
    requires j < |o| && j < |e|
  {
    Mismatch(j, e[j].y, o[j], e[j], Diff(Abs(o[j].r - e[j].r), Abs(o[j].g - e[j].g), Abs(o[j].b - e[j].b)))
  }

  const SampleLimit: nat := 5

  /** The mismatch log after n pairs: a mismatch is logged while fewer
      than `SampleLimit` are logged. */
  function Samples(o: seq<Pixel>, e: seq<Pixel>, n: nat): (s: seq<Mismatch>)
    requires n <= |o| && n <= |e|
    ensures |s| <= SampleLimit
    decreases n
  {
    if n == 0 then []
    else
      var prev := Samples(o, e, n - 1);
      if !PixelMatches(o[n - 1], e[n - 1]) && |prev| < SampleLimit then prev + [MismatchAt(o, e, n - 1)] else prev
  }

  /** The log is the records of the first `SampleLimit` entries of the
      mismatch positions. */
  lemma {:induction false} SamplesArePrefixOfMismatches(o: seq<Pixel>, e: seq<Pixel>, n: nat)
    requires n <= |o| && n <= |e|
    ensures var s, ms := Samples(o, e, n), Mismatches(o, e, n);
      && |s| == (if |ms| < SampleLimit then |ms| else SampleLimit)
      && forall i :: 0 <= i < |s| ==> s[i] == MismatchAt(o, e, ms[i])
    decreases n
  {
    if n > 0 {
      SamplesArePrefixOfMismatches(o, e, n - 1);
      var prev, pms := Samples(o, e, n - 1), Mismatches(o, e, n - 1);
      var s, ms := Samples(o, e, n), Mismatches(o, e, n);
      if !PixelMatches(o[n - 1], e[n - 1]) {
        assert ms == pms + [n - 1];
        if |prev| < SampleLimit {
          assert s == prev + [MismatchAt(o, e, n - 1)];
          assert s[|prev|] == MismatchAt(o, e, ms[|pms|]);
        } else {
          assert forall i :: 0 <= i < |s| ==> ms[i] == pms[i];
        }
      }
    }
  }

  /** The log holds at most five entries, in increasing position, each a
      genuine mismatch recording the two pixels, the extracted pixel's row
      and the three channel differences; it is short only when there are
      fewer than five mismatches. */
  lemma SamplesAreMismatches(o: seq<Pixel>, e: seq<Pixel>, n: nat)
    requires n <= |o| && n <= |e|
    ensures var s := Samples(o, e, n);
      && |s| == (if n - MatchCount(o, e, n) < SampleLimit then n - MatchCount(o, e, n) else SampleLimit)
      && (forall i :: 0 <= i < |s| ==> s[i].position < n && !PixelMatches(o[s[i].position], e[s[i].position])
                                       && s[i] == MismatchAt(o, e, s[i].position))
      && (forall i, j :: 0 <= i < j < |s| ==> s[i].position < s[j].position)
  {
    MismatchesAreSortedMismatchPositions(o, e, n);
    SamplesArePrefixOfMismatches(o, e, n);
  }

  /** No mismatch is skipped: every mismatch before the last logged one is
      logged, and when fewer than five are logged, all of them are. */
  lemma SamplesAreEarliest(o: seq<Pixel>, e: seq<Pixel>, n: nat, j: nat)
    requires n <= |o| && n <= |e| && j < n && !PixelMatches(o[j], e[j])
    ensures var s := Samples(o, e, n);
      (|s| < SampleLimit || j <= s[|s| - 1].position) ==> exists i :: 0 <= i < |s| && s[i].position == j
  {
    var s := Samples(o, e, n);
    var ms := Mismatches(o, e, n);
    MismatchesAreSortedMismatchPositions(o, e, n);
    SamplesArePrefixOfMismatches(o, e, n);
    var k :| 0 <= k < |ms| && ms[k] == j;
    if k < |s| {
      assert s[k].position == j;
    } else if |s| == SampleLimit {
      assert ms[|s| - 1] < ms[k];
    }
  }

  /** A strand's entry of `strandResults`. */
  datatype StrandResult = StrandResult(id: nat, name: string, totalPixels: nat, matchingPixels: nat,
                                       mismatchingPixels: nat, matchPercentage: JsNumber, isMatch: bool,
                                       sampleMismatches: seq<Mismatch>)

  function Min(a: nat, b: nat): nat {
    if a < b then a else b
  }

  /** `matching / total * 100`; `0 / 0` is NaN. */
  function Percentage(matching: nat, total: nat): (p: JsNumber)
    ensures p.NaN? <==> total == 0
    ensures p.Num? && matching <= total ==> 0.0 <= p.v <= 100.0
    ensures p.Num? ==> (p.v == 100.0 <==> matching == total)
  {
    if total == 0 then NaN else Num(matching as real / total as real * 100.0)
  }

  /** `extracted.name || 'Strand ' + original.id`. */
  function ResultName(original: Strand, extracted: Strand): string {
    if |extracted.name| > 0 then extracted.name else "Strand " + NatToString(original.id)
  }

  /** What `compareStrands` records for one pair of strands. */
  function StrandOutcome(original: Strand, extracted: Strand): (res: StrandResult)
    ensures res.matchingPixels <= Min(|original.pixels|, |extracted.pixels|)
  {
    var o, e := original.pixels, extracted.pixels;
    var m := Min(|o|, |e|);
    var matching := MatchCount(o, e, m);
    var pct := Percentage(matching, |o|);
    StrandResult(original.id, ResultName(original, extracted), |o|, matching, m - matching,
                 pct, pct.Above(90.0), Samples(o, e, m))
  }

  /** The counts of a strand's entry: `totalPixels` is the original strand's
      length, matching plus mismatching pairs are the shorter length, and a
      strand counts as a match exactly when it is non-empty and more than
      90% of its original pixels matched. */
  lemma StrandOutcomeCounts(original: Strand, extracted: Strand)
    ensures var res := StrandOutcome(original, extracted);
      && res.totalPixels == |original.pixels|
      && res.matchingPixels + res.mismatchingPixels == Min(|original.pixels|, |extracted.pixels|)
      && res.matchingPixels <= res.totalPixels
      && (res.isMatch <==> res.totalPixels > 0 && res.matchingPixels * 10 > res.totalPixels * 9)
  {
    var res := StrandOutcome(original, extracted);
    if res.totalPixels > 0 {
      AboveNinetyPercent(res.matchingPixels, res.totalPixels);
    }
  }

  /** More than 90% of a non-zero `total`, in integer terms. */
  lemma AboveNinetyPercent(matching: nat, total: nat)
    requires total > 0
    ensures matching as real / total as real * 100.0 > 90.0 <==> matching * 10 > total * 9
  {
    var q := matching as real / total as real;
    assert q * total as real == matching as real;
    if q > 0.9 {
      calc {
        (total * 9) as real;
      ==
        10.0 * (0.9 * total as real);
      < { StrictScale(0.9, q, total as real); }
        10.0 * (q * total as real);
      ==
        (matching * 10) as real;
      }
    } else {
      WeakScale(q, 0.9, total as real);
      assert (matching * 10) as real <= (total * 9) as real;
    }
  }

  lemma WeakScale(a: real, b: real, k: real)
    requires a <= b && k >= 0.0
    ensures a * k <= b * k
  {
  }

  lemma StrictScale(a: real, b: real, k: real)
    requires a < b && k > 0.0
    ensures a * k < b * k
  {
  }

  /** The per-strand body of `compareStrands`: the pixel loop, counting and
      logging the first five mismatches. */
  method CompareStrand(original: Strand, extracted: Strand) returns (res: StrandResult)
    ensures res == StrandOutcome(original, extracted)
  {
    var o, e := original.pixels, extracted.pixels;
    var minLength := Min(|o|, |e|);
    var matching := 0;
    var mismatching := 0;
    var samples: seq<Mismatch> := [];
    var j := 0;
    while j < minLength
      invariant j <= minLength
      invariant matching == MatchCount(o, e, j) && mismatching == j - matching
      invariant samples == Samples(o, e, j)
    {
      var origPixel, extrPixel := o[j], e[j];
      var rDiff, gDiff, bDiff := Abs(origPixel.r - extrPixel.r), Abs(origPixel.g - extrPixel.g), Abs(origPixel.b - extrPixel.b);
      assert PixelMatches(origPixel, extrPixel) <==> rDiff <= Tolerance && gDiff <= Tolerance && bDiff <= Tolerance;
      if rDiff <= Tolerance && gDiff <= Tolerance && bDiff <= Tolerance {
        matching := matching + 1;
      } else {
        mismatching := mismatching + 1;
        if |samples| < SampleLimit {
          samples := samples + [Mismatch(j, extrPixel.y, origPixel, extrPixel, Diff(rDiff, gDiff, bDiff))];
        }
      }
      j := j + 1;
    }
    var pct := Percentage(matching, |o|);
    res := StrandResult(original.id, ResultName(original, extracted), |o|, matching, mismatching,
                        pct, pct.Above(90.0), samples);
  }

  /** Comparing a strand with itself matches every pixel, logs nothing and
      reports 100% (a match, unless the strand is empty). */
  lemma {:induction false} SelfComparisonMatches(s: Strand, n: nat)
    requires n <= |s.pixels|
    ensures MatchCount(s.pixels, s.pixels, n) == n && Samples(s.pixels, s.pixels, n) == []
    ensures n == |s.pixels| ==> StrandOutcome(s, s).sampleMismatches == []
    ensures n == |s.pixels| && n > 0 ==> StrandOutcome(s, s).matchPercentage == Num(100.0) && StrandOutcome(s, s).isMatch
  {
    if n > 0 {
      SelfComparisonMatches(s, n - 1);
    }
  }

  // ---------------------------------------------------------------------
  // compareStrands

  /** `{ overallMatch, matchPercentage, strandResults, dimensionMatch }`. */
  datatype Comparison = Comparison(overallMatch: bool, matchPercentage: real,
                                   strandResults: seq<StrandResult>, dimensionMatch: bool)

  /** The pixel counts of a pair of strands differ by more than 10. */
  predicate DimensionsDiffer(o: Strand, e: Strand) {
    Abs(|o.pixels| - |e.pixels|) > 10
  }

  /** The loop state of `compareStrands`: the two flags, the strand results
      pushed so far and the two global pixel counters. */
  datatype Tally = Tally(overallMatch: bool, dimensionMatch: bool, results: seq<StrandResult>,
                         totalPixels: nat, matchingPixels: nat)

  /** The loop state after the first n strand pairs. */
  function TallyAfter(os: seq<Strand>, es: seq<Strand>, n: nat): (t: Tally)
    requires n <= |os| && n <= |es|
    decreases n
  {
    if n == 0 then Tally(true, true, [], 0, 0)
    else
      var t := TallyAfter(os, es, n - 1);
      var o, e := os[n - 1], es[n - 1];
      var r := StrandOutcome(o, e);
      Tally(t.overallMatch && r.isMatch, t.dimensionMatch && !DimensionsDiffer(o, e), t.results + [r],
            t.totalPixels + Min(|o.pixels|, |e.pixels|), t.matchingPixels + r.matchingPixels)
  }

  /** What the loop state means: one result per pair, in order; each flag
      is false exactly when some pair tripped it; and the matching pixels
      never outnumber the compared ones, which are the sum of the shorter
      lengths. */
  lemma TallyMeaning(os: seq<Strand>, es: seq<Strand>, n: nat)
    requires n <= |os| && n <= |es|
    ensures var t := TallyAfter(os, es, n);
      && |t.results| == n
      && (forall k :: 0 <= k < n ==> t.results[k] == StrandOutcome(os[k], es[k]))
      && (t.dimensionMatch <==> forall k :: 0 <= k < n ==> !DimensionsDiffer(os[k], es[k]))
      && (t.overallMatch <==> forall k :: 0 <= k < n ==> t.results[k].isMatch)
      && t.matchingPixels <= t.totalPixels
      && t.totalPixels == ComparedPixels(os, es, n)
      && t.matchingPixels == MatchedPixels(t.results)
      && (t.totalPixels == 0 <==> forall k :: 0 <= k < n ==> |os[k].pixels| == 0 || |es[k].pixels| == 0)
  {
    TallyResults(os, es, n);
    TallyFlags(os, es, n);
    TallyPixels(os, es, n);
  }

  /** One result per pair, in order. */
  lemma {:induction false} TallyResults(os: seq<Strand>, es: seq<Strand>, n: nat)
    requires n <= |os| && n <= |es|
    ensures |TallyAfter(os, es, n).results| == n
    ensures forall k :: 0 <= k < n ==> TallyAfter(os, es, n).results[k] == StrandOutcome(os[k], es[k])
    decreases n
  {
    if n > 0 {
      TallyResults(os, es, n - 1);
      var prev := TallyAfter(os, es, n - 1).results;
      var rs := TallyAfter(os, es, n).results;
      assert rs == prev + [StrandOutcome(os[n - 1], es[n - 1])];
      forall k | 0 <= k < n ensures rs[k] == StrandOutcome(os[k], es[k]) {
        if k < n - 1 {
          assert rs[k] == prev[k];
        }
      }
    }
  }

  /** Each flag is false exactly when some pair tripped it. */
  lemma {:induction false} TallyFlags(os: seq<Strand>, es: seq<Strand>, n: nat)
    requires n <= |os| && n <= |es|
    ensures TallyAfter(os, es, n).dimensionMatch <==> forall k :: 0 <= k < n ==> !DimensionsDiffer(os[k], es[k])
    ensures TallyAfter(os, es, n).overallMatch <==> forall k :: 0 <= k < n ==> StrandOutcome(os[k], es[k]).isMatch
    decreases n
  {
    if n > 0 {
      TallyFlags(os, es, n - 1);
    }
  }

  /** The pixels compared in the first n pairs: the sum of the shorter lengths. */
  function ComparedPixels(os: seq<Strand>, es: seq<Strand>, n: nat): nat
    requires n <= |os| && n <= |es|
    decreases n
  {
    if n == 0 then 0 else ComparedPixels(os, es, n - 1) + Min(|os[n - 1].pixels|, |es[n - 1].pixels|)
  }

  /** The sum of the strand results' matching pixels. */
  function MatchedPixels(rs: seq<StrandResult>): nat
    decreases |rs|
  {
    if rs == [] then 0 else MatchedPixels(rs[..|rs| - 1]) + rs[|rs| - 1].matchingPixels
  }

  /** The pixel counters are the sums of the compared and of the matching
      pixels; the matching ones never outnumber the compared ones, and none
      were compared exactly when every pair has an empty side. */
  lemma {:induction false} TallyPixels(os: seq<Strand>, es: seq<Strand>, n: nat)
    requires n <= |os| && n <= |es|
    ensures TallyAfter(os, es, n).totalPixels == ComparedPixels(os, es, n)
    ensures TallyAfter(os, es, n).matchingPixels == MatchedPixels(TallyAfter(os, es, n).results)
    ensures TallyAfter(os, es, n).matchingPixels <= TallyAfter(os, es, n).totalPixels
    ensures TallyAfter(os, es, n).totalPixels == 0 <==> forall k :: 0 <= k < n ==> |os[k].pixels| == 0 || |es[k].pixels| == 0
    decreases n
  {
    if n > 0 {
      TallyPixels(os, es, n - 1);
      var prev := TallyAfter(os, es, n - 1).results;
      var rs := TallyAfter(os, es, n).results;
      assert rs[..|rs| - 1] == prev;
    }
  }

  /** The object `compareStrands` returns: the overall percentage is over
      all compared pixels, and 0 when none were compared. */
  function CompareOutcome(os: seq<Strand>, es: seq<Strand>): Comparison {
    var t := TallyAfter(os, es, Min(|os|, |es|));
    var pct := if t.totalPixels > 0 then t.matchingPixels as real / t.totalPixels as real * 100.0 else 0.0;
    Comparison(t.overallMatch, pct, t.results, t.dimensionMatch)
  }

  /** `compareStrands(originalStrands, extractedStrands)`. */
  method CompareStrands(os: seq<Strand>, es: seq<Strand>) returns (res: Comparison)
    ensures res == CompareOutcome(os, es)
  {
    var overallMatch := true;
    var dimensionMatch := true;
    var results: seq<StrandResult> := [];
    var totalPixels: nat := 0;
    var matchingPixels: nat := 0;
    var n := Min(|os|, |es|);
    var i := 0;
    while i < n
      invariant i <= n
      invariant Tally(overallMatch, dimensionMatch, results, totalPixels, matchingPixels) == TallyAfter(os, es, i)
    {
      var original, extracted := os[i], es[i];
      if Abs(|original.pixels| - |extracted.pixels|) > 10 {
        dimensionMatch := false;
      }
      var strandResult := CompareStrand(original, extracted);
      matchingPixels := matchingPixels + strandResult.matchingPixels;
      totalPixels := totalPixels + Min(|original.pixels|, |extracted.pixels|);
      if !strandResult.isMatch {
        overallMatch := false;
      }
      results := results + [strandResult];
      i := i + 1;
    }
    var pct := if totalPixels > 0 then matchingPixels as real / totalPixels as real * 100.0 else 0.0;
    res := Comparison(overallMatch, pct, results, dimensionMatch);
  }

  /** The properties of `compareStrands`: one result per strand pair up to
      the shorter list, each the pair's own outcome; `dimensionMatch` false
      exactly when some pair's lengths differ by more than 10;
      `overallMatch` false exactly when some strand is not a match; and an
      overall percentage in [0, 100] that is 100 times the summed matching
      pixels over the summed compared pixels, and 0 when nothing was
      compared. */
  lemma CompareOutcomeProperties(os: seq<Strand>, es: seq<Strand>)
    ensures var res := CompareOutcome(os, es);
      && |res.strandResults| == Min(|os|, |es|)
      && (forall i :: 0 <= i < |res.strandResults| ==> res.strandResults[i] == StrandOutcome(os[i], es[i]))
      && (res.dimensionMatch <==> forall i :: 0 <= i < Min(|os|, |es|) ==> !DimensionsDiffer(os[i], es[i]))
      && (res.overallMatch <==> forall i :: 0 <= i < |res.strandResults| ==> res.strandResults[i].isMatch)
      && 0.0 <= res.matchPercentage <= 100.0
      && (ComparedPixels(os, es, Min(|os|, |es|)) > 0 ==>
            res.matchPercentage == MatchedPixels(res.strandResults) as real
                                   / ComparedPixels(os, es, Min(|os|, |es|)) as real * 100.0)
      && ((forall i :: 0 <= i < Min(|os|, |es|) ==> |os[i].pixels| == 0 || |es[i].pixels| == 0) ==> res.matchPercentage == 0.0)
  {
    var t := TallyAfter(os, es, Min(|os|, |es|));
    TallyMeaning(os, es, Min(|os|, |es|));
    PercentageBounds(t.matchingPixels, t.totalPixels);
  }

  /** Comparing strands with themselves: the overall verdict is a match
      exactly when no strand is empty (an empty strand's `0 / 0` is NaN,
      and NaN is never above 90), and the overall percentage is 100 as
      soon as one strand has pixels, else 0. */
  lemma SelfOverall(ss: seq<Strand>)
    ensures CompareOutcome(ss, ss).overallMatch <==> forall i :: 0 <= i < |ss| ==> |ss[i].pixels| > 0
    ensures CompareOutcome(ss, ss).matchPercentage
              == if exists i :: 0 <= i < |ss| && |ss[i].pixels| > 0 then 100.0 else 0.0
  {
    var t := TallyAfter(ss, ss, |ss|);
    SelfTally(ss, |ss|);
    if t.totalPixels > 0 {
      WholeIsHundredPercent(t.matchingPixels, t.totalPixels);
    }
  }

  lemma WholeIsHundredPercent(matching: nat, total: nat)
    requires 0 < total && matching == total
    ensures matching as real / total as real * 100.0 == 100.0
  {
  }

  /** The loop state of a self-comparison: every compared pixel matches, and
      the verdict so far holds exactly when no strand so far is empty. */
  lemma {:induction false} SelfTally(ss: seq<Strand>, n: nat)
    requires n <= |ss|
    ensures TallyAfter(ss, ss, n).matchingPixels == TallyAfter(ss, ss, n).totalPixels
    ensures TallyAfter(ss, ss, n).overallMatch <==> forall k :: 0 <= k < n ==> |ss[k].pixels| > 0
    ensures TallyAfter(ss, ss, n).totalPixels > 0 <==> exists k :: 0 <= k < n && |ss[k].pixels| > 0
    decreases n
  {
    if n > 0 {
      SelfTally(ss, n - 1);
      SelfComparisonMatches(ss[n - 1], |ss[n - 1].pixels|);
      if |ss[n - 1].pixels| > 0 {
        assert 0 <= n - 1 < n && |ss[n - 1].pixels| > 0;
      }
    }
  }

  /** A single strand without pixels, compared with itself, is not a match
      and gives an overall percentage of 0. */
  lemma EmptyStrandFailsSelfComparison(s: Strand)
    requires |s.pixels| == 0
    ensures !CompareOutcome([s], [s]).overallMatch
    ensures CompareOutcome([s], [s]).matchPercentage == 0.0
  {
    SelfOverall([s]);
  }

  lemma PercentageBounds(matching: nat, total: nat)
    requires matching <= total
    ensures total > 0 ==> 0.0 <= matching as real / total as real * 100.0 <= 100.0
  {
    if total > 0 {
      assert matching as real / total as real <= 1.0;
    }
  }

  // ---------------------------------------------------------------------
  // The verdict of the result page

  datatype Verdict = Authentic | Modified | Forged

  /** `>= 95` authentic, `>= 80` modified (minor changes), otherwise the
      verification failed. */
  function Classify(matchPercentage: real): (v: Verdict)
    ensures v == Authentic <==> matchPercentage >= 95.0
    ensures v == Modified <==> 80.0 <= matchPercentage < 95.0
    ensures v == Forged <==> matchPercentage < 80.0
  {
    if matchPercentage >= 95.0 then Authentic
    else if matchPercentage >= 80.0 then Modified
    else Forged
  }

  function Rank(v: Verdict): nat {
    match v
    case Forged => 0
    case Modified => 1
    case Authentic => 2
  }

  /** A higher percentage never earns a worse verdict. */
  lemma ClassifyMonotone(p: real, q: real)
    requires p <= q
    ensures Rank(Classify(p)) <= Rank(Classify(q))
  {
  }

  /** When no pixels are compared (no strand pairs, or only empty ones) the
      overall percentage is 0 and the image is reported forged. */
  lemma NothingComparedIsForged()
    ensures Classify(0.0) == Forged
  {
  }
}
