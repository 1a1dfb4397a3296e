/** The verification back end, server/server.js: `calculateMatchScore`, the
    best-of-all-records search and 75% threshold of `POST /verify`, and the
    request validation of `POST /register` and `POST /verify`.  The
    signature store (server/database.js) is a sequence of records handed in
    by the caller. */
module Server {
  import opened Wrappers
  import opened Keypoints

  // ---------------------------------------------------------------------
  // calculateMatchScore

  /** What one query star adds to `totalDist`: the distance to the first
      stored star of the same cell, or the fixed penalty 0.5 when the stored
      signature has no star there. */
  function ServerStarCost(u: Keypoint, dbStars: seq<Keypoint>, norm: (real, real) -> real): real {
    match FindCell(dbStars, u.row, u.col)
    case Some(j) => Distance(norm, u, dbStars[j])
    case None => 0.5
  }

  /** `totalDist` after the loop over the query stars. */
  function ServerTotal(query: seq<Keypoint>, dbStars: seq<Keypoint>, norm: (real, real) -> real): real
    decreases |query|
  {
    if |query| == 0 then 0.0
    else ServerTotal(query[..|query| - 1], dbStars, norm) + ServerStarCost(query[|query| - 1], dbStars, norm)
  }

  lemma {:induction false} ServerTotalNonNegative(query: seq<Keypoint>, dbStars: seq<Keypoint>, norm: (real, real) -> real)
    requires IsEuclidean(norm)
    ensures ServerTotal(query, dbStars, norm) >= 0.0
    decreases |query|
  {
    if |query| > 0 {
      ServerTotalNonNegative(query[..|query| - 1], dbStars, norm);
      var u := query[|query| - 1];
      match FindCell(dbStars, u.row, u.col)
      case Some(j) => DistanceIsMetric(norm, u, dbStars[j]);
      case None =>
    }
  }

  /** The number `calculateMatchScore` returns: the heuristic score of the
      average cost per query star.  An empty query computes `0 / 0`, and
      `Math.max(0, NaN)` is NaN. */
  function ServerScore(query: seq<Keypoint>, dbStars: seq<Keypoint>, norm: (real, real) -> real): (score: JsNumber)
    requires IsEuclidean(norm)
    ensures score.NaN? <==> |query| == 0
    ensures score.Num? ==> 0.0 <= score.v <= 100.0
  {
    if |query| == 0 then NaN
    else
      ServerTotalNonNegative(query, dbStars, norm);
      Num(HeuristicScore(ServerTotal(query, dbStars, norm) / |query| as real))
  }

  /** `calculateMatchScore(uploadedStars, dbStars)`. */
  method CalculateMatchScore(uploadedStars: seq<Keypoint>, dbStars: seq<Keypoint>, norm: (real, real) -> real)
    returns (score: JsNumber)
    requires IsEuclidean(norm)
    ensures score == ServerScore(uploadedStars, dbStars, norm)
    ensures |uploadedStars| > 0 ==> score.Num? && 0.0 <= score.v <= 100.0
  {
    var totalDist := 0.0;
    var gridPoints := |uploadedStars|;
    var i := 0;
    while i < gridPoints
      invariant i <= gridPoints
      invariant totalDist == ServerTotal(uploadedStars[..i], dbStars, norm)
    {
      var u := uploadedStars[i];
      var o := FindCell(dbStars, u.row, u.col);
      if o.Some? {
        var dist := Distance(norm, u, dbStars[o.value]);
        totalDist := totalDist + dist;
      } else {
        totalDist := totalDist + 0.5;
      }
      assert uploadedStars[..i + 1][..i] == uploadedStars[..i];
      i := i + 1;
    }
    assert uploadedStars[..i] == uploadedStars;
    if gridPoints == 0 {
      score := NaN;
    } else {
      var avgDist := totalDist / gridPoints as real;
      score := Num(HeuristicScore(avgDist));
    }
  }

  /** A query without repeated cells finds each of its own stars. */
  lemma {:induction false} SelfTotalIsZero(prefix: seq<Keypoint>, stars: seq<Keypoint>, norm: (real, real) -> real)
    requires IsEuclidean(norm) && DistinctCells(stars) && |prefix| <= |stars| && prefix == stars[..|prefix|]
    ensures ServerTotal(prefix, stars, norm) == 0.0
    decreases |prefix|
  {
    if |prefix| > 0 {
      var k := |prefix| - 1;
      SelfTotalIsZero(prefix[..k], stars, norm);
      FindCellOfDistinct(stars, k);
      DistanceIsMetric(norm, stars[k], stars[k]);
    }
  }

  /** Scoring a non-empty signature without repeated cells (in particular
      any extractor's 64-star grid) against itself gives 100. */
  lemma SelfScoreIsFull(stars: seq<Keypoint>, norm: (real, real) -> real)
    requires IsEuclidean(norm) && DistinctCells(stars) && |stars| > 0
    ensures ServerScore(stars, stars, norm) == Num(100.0)
  {
    SelfTotalIsZero(stars, stars, norm);
  }

  /** Every query star whose cell the stored signature lacks costs exactly
      0.5: against an empty stored signature every non-empty query has
      average cost 0.5 and scores 0. */
  lemma {:induction false} MissingCellsCostHalf(query: seq<Keypoint>, norm: (real, real) -> real)
    requires IsEuclidean(norm)
    ensures ServerTotal(query, [], norm) == 0.5 * |query| as real
    ensures |query| > 0 ==> ServerScore(query, [], norm) == Num(0.0)
    decreases |query|
  {
    if |query| > 0 {
      MissingCellsCostHalf(query[..|query| - 1], norm);
    }
  }

  // ---------------------------------------------------------------------
  // The best-match search of POST /verify

  /** `bestMatch` (as a row index, or null) and `highestScore`. */
  datatype Leader = Leader(best: Option<nat>, highest: real)

  /** The `rows.forEach` reduction over the rows' scores: start from
      (null, 0) and take a row whenever its score is strictly greater than
      the current highest.  NaN is never greater than anything. */
  function Leading(scores: seq<JsNumber>): (l: Leader)
    ensures l.highest >= 0.0
    ensures forall i :: 0 <= i < |scores| && scores[i].Num? ==> scores[i].v <= l.highest
    ensures l.best.Some? ==> l.best.value < |scores| && scores[l.best.value] == Num(l.highest) && l.highest > 0.0
    ensures l.best.Some? ==> forall i :: 0 <= i < l.best.value ==> scores[i] != Num(l.highest)
    ensures l.best.None? <==> forall i :: 0 <= i < |scores| ==> !scores[i].Above(0.0)
    ensures l.best.None? ==> l.highest == 0.0
    decreases |scores|
  {
    if |scores| == 0 then Leader(None, 0.0)
    else
      var n := |scores| - 1;
      var prev := Leading(scores[..n]);
      assert forall i :: 0 <= i < n ==> scores[..n][i] == scores[i];
      if scores[n].Above(prev.highest) then Leader(Some(n), scores[n].v) else prev
  }

  /** The score of every stored record against the query, in store order. */
  function RowScores(query: seq<Keypoint>, store: seq<Record>, norm: (real, real) -> real): (scores: seq<JsNumber>)
    requires IsEuclidean(norm)
    ensures |scores| == |store|
  {
    seq(|store|, i requires 0 <= i < |store| => ServerScore(query, store[i].stars, norm))
  }

  /** A row of the `signatures` table, with its constellation already parsed. */
  datatype Record = Record(imageId: string, author: string, deviceModel: string, timestamp: string,
                           createdAt: string, stars: seq<Keypoint>)

  /** The `metadata` object of a positive answer. */
  datatype Metadata = Metadata(author: string, device: string, originalTimestamp: string,
                               imageId: string, registeredAt: string)

  function MetadataOf(r: Record): Metadata {
    Metadata(r.author, r.deviceModel, r.timestamp, r.imageId, r.createdAt)
  }

  /** A JSON value as found in a request body field; `Missing` is a field
      the body does not have. */
  datatype JsonValue = Missing | Null | Bool(b: bool) | Number(n: real) | Str(s: string)
                     | Arr(items: seq<Keypoint>) | Obj

  /** JavaScript truthiness. */
  predicate Truthy(v: JsonValue) {
    match v
    case Missing => false
    case Null => false
    case Bool(b) => b
    case Number(n) => n != 0.0
    case Str(s) => |s| > 0
    case Arr(_) => true
    case Obj => true
  }

  /** `!x || !Array.isArray(x)`: exactly the values that are not arrays (the
      truthiness test adds nothing). */
  predicate InvalidArrayField(v: JsonValue)
    ensures InvalidArrayField(v) <==> !v.Arr?
  {
    !Truthy(v) || !v.Arr?
  }

  /** The JSON answer of `POST /verify`. */
  datatype VerifyResponse =
    | VerifyRejected(status: nat, error: string)
    | Matched(score: real, metadata: Metadata)
    | NotMatched(score: real, message: string)

  /** `POST /verify` with the body's `signature` field and the rows the
      store returns. */
  method Verify(signature: JsonValue, rows: seq<Record>, norm: (real, real) -> real) returns (resp: VerifyResponse)
    requires IsEuclidean(norm)
    ensures !signature.Arr? ==> resp == VerifyRejected(400, "Invalid query signature")
    ensures signature.Arr? ==>
      var l := Leading(RowScores(signature.items, rows, norm));
      && !resp.VerifyRejected?
      && resp.score == l.highest
      && (resp.Matched? <==> l.highest > 75.0)
      && (resp.Matched? ==> l.best.Some? && l.best.value < |rows| && resp.metadata == MetadataOf(rows[l.best.value]))
      && (resp.NotMatched? ==> resp.message == "No authentic record found for this image.")
  {
    if InvalidArrayField(signature) {
      return VerifyRejected(400, "Invalid query signature");
    }
    var query := signature.items;
    ghost var scores := RowScores(query, rows, norm);
    var bestMatch: Option<nat> := None;
    var highestScore := 0.0;
    var i := 0;
    while i < |rows|
      invariant i <= |rows|
      invariant Leader(bestMatch, highestScore) == Leading(scores[..i])
    {
      var score := CalculateMatchScore(query, rows[i].stars, norm);
      assert scores[..i + 1][..i] == scores[..i];
      if score.Above(highestScore) {
        highestScore := score.v;
        bestMatch := Some(i);
      }
      i := i + 1;
    }
    assert scores[..i] == scores;
    if highestScore > 75.0 && bestMatch.Some? {
      resp := Matched(highestScore, MetadataOf(rows[bestMatch.value]));
    } else {
      resp := NotMatched(highestScore, "No authentic record found for this image.");
    }
  }

  /** An empty query scores NaN against every record, so nothing is ever
      selected and the answer is a non-match with score 0. */
  lemma EmptyQueryNeverMatches(rows: seq<Record>, norm: (real, real) -> real)
    requires IsEuclidean(norm)
    ensures Leading(RowScores([], rows, norm)) == Leader(None, 0.0)
  {
    var scores := RowScores([], rows, norm);
    assert forall i :: 0 <= i < |scores| ==> scores[i].NaN?;
  }

  // ---------------------------------------------------------------------
  // POST /register

  datatype RegisterRequest = RegisterRequest(imageId: string, author: string, deviceModel: string,
                                             timestamp: string, constellation: JsonValue)

  datatype RegisterResponse = RegisterRejected(status: nat, error: string) | Registered(message: string)

  /** `POST /register`: validate the constellation and, if it is an array,
      append the record to the store; `createdAt` is the store's clock. */
  function Register(req: RegisterRequest, store: seq<Record>, createdAt: string): (out: (RegisterResponse, seq<Record>))
    ensures out.0.RegisterRejected? <==> !req.constellation.Arr?
    ensures out.0.RegisterRejected? ==> out.0.status == 400 && out.1 == store
    ensures out.0.Registered? ==> |out.1| == |store| + 1 && out.1[..|store|] == store
    ensures out.0.Registered? ==> out.1[|store|].stars == req.constellation.items && out.1[|store|].imageId == req.imageId
    ensures out.0.Registered? ==>
      MetadataOf(out.1[|store|]) == Metadata(req.author, req.deviceModel, req.timestamp, req.imageId, createdAt)
  {
    if InvalidArrayField(req.constellation) then (RegisterRejected(400, "Invalid constellation data"), store)
    else
      var rec := Record(req.imageId, req.author, req.deviceModel, req.timestamp, createdAt, req.constellation.items);
      (Registered("Signature registered successfully"), store + [rec])
  }

  /** A registered non-empty signature without repeated cells is found
      again: verifying the same signature afterwards reaches the top score
      100 and therefore matches (possibly an earlier record that also scores
      100, since ties keep the first row). */
  lemma RegisteredSignatureMatches(req: RegisterRequest, store: seq<Record>, createdAt: string, norm: (real, real) -> real)
    requires IsEuclidean(norm) && req.constellation.Arr?
    requires DistinctCells(req.constellation.items) && |req.constellation.items| > 0
    ensures var rows := Register(req, store, createdAt).1;
      var l := Leading(RowScores(req.constellation.items, rows, norm));
      l.highest == 100.0 && l.best.Some?
  {
    var sig := req.constellation.items;
    var rows := Register(req, store, createdAt).1;
    var scores := RowScores(sig, rows, norm);
    SelfScoreIsFull(sig, norm);
    assert scores[|store|] == Num(100.0);
  }
}
