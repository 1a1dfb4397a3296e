# NETRA image fingerprints, modelled in Dafny

NETRA checks whether a photo is the one a capture app photographed. The
capture app records two fingerprints of each photo, and a web verifier and
a small back end check an uploaded image against them.

- **Strict pipeline (strands).** The capture app samples three vertical
  columns of pixels, at 15%, 50% and 80% of the width and each a third of
  the height tall. It writes them to a text reference file.
  `extractStrandsFromImage` in `script.js` samples the same columns from
  the uploaded image, `parsePixelDataFile` reads the reference file, and
  `compareStrands` pairs the pixels with a tolerance of 5 per channel. The
  overall percentage is then classed as authentic, modified or failed.
  Before verifying, the page compares the photo's size with the size the
  file recorded.
- **Resilient pipeline (constellation).** The image is cut into an 8x8
  grid, and the brightest pixel of each cell becomes a "star" at relative
  coordinates. Signatures are compared by the average distance between
  paired stars, scored `max(0, 100 - 500 * avgDist)`, and pass above 75.
  Three variants exist:
  - the web verifier (`script.js`, weighted luma, stars paired by cell,
    divided by 16);
  - the stand-alone demo (`constellation_demo/script.js`, mean brightness,
    stars paired by index, divided by 64);
  - the back end (`server/server.js`, paired by cell, a 0.5 penalty for a
    missing cell, divided by the number of query stars, best record over
    the whole store).

The model is organised in modules:

| Module | File | What it models |
|---|---|---|
| `Raster` | `raster.dfy` | RGBA image data, the 8x8 grid geometry and the per-cell brightest-pixel scan both extractors share |
| `Keypoints` | `keypoints.dfy` | stars, the Euclidean distance (the square root is a parameter constrained to be one), `find` by cell, the heuristic score |
| `Hex` | `hex.dfy` | `rgbToHex` and the `#[0-9A-F]{6}` shape |
| `Constellation` | `constellation.dfy` | `extractConstellation` and `verifyConstellation` of the web verifier |
| `DemoConstellation` | `demo.dfy` | the demo's `extractConstellation` and `compare` |
| `Server` | `server.dfy` | `calculateMatchScore`, the best-match reduction and 75 threshold of `POST /verify`, the validation of both routes |
| `ScoringVariants` | `variants.dfy` | how the three scorers relate to each other |
| `Strands` | `strands.dfy` | `extractStrandsFromImage`, `getPixelAt` |
| `StrandCompare` | `compare.dfy` | `compareStrands` and the result classification |
| `Text` | `text.dfy` | the JavaScript string operations the parser uses |
| `Patterns` | `patterns.dfy` | the parser's regular expressions, as token patterns |
| `PixelDataParser` | `parser.dfy` | `parsePixelDataFile` |
| `ReferenceFile` | `reffile.dfy` | the line formats the capture app writes, and the proof that the parser reads them back |
| `DimensionCheck` | `checks.dfy` | the photo-size check before verification |

Operations that loop in the source are methods proved against a
specification function:
- `ParsePixelDataFile` and its per-line branches;
- `ExtractStrands` and `SampleStrand`;
- `CompareStrands` and `CompareStrand`;
- both `ExtractConstellation`s and `BrightestInCell`;
- `VerifyConstellation` and the demo's `Compare`;
- `CalculateMatchScore` and `Verify`.

The properties are proved about those specification functions.

## Model

| member | source | states |
|---|---|---|
| Raster.Channel | script.js:691-699 | every channel byte of a valid raster lies in 0..255 |
| Raster.CellFits | script.js:479-485 | a grid cell of width floor(E/8) starting at floor(i*E/8) never reaches past the raster |
| Raster.BrightnessOrder | script.js:495 | comparing weighted luma (or the mean) is comparing the integer sums 299R+587G+114B (or R+G+B) |
| Raster.ScanToFindsFirstBrightest | script.js:488-498 | after any prefix of the row-major scan, the held pixel is the first brightest pixel visited so far, and maxVal is its brightness |
| Raster.ScanStep | script.js:496 | one visited pixel keeps that meaning: a strictly brighter pixel replaces the held one, any other leaves it |
| Raster.CellBestIsFirstBrightest | script.js:488-498 | the scan of a non-empty cell ends on the cell's first brightest pixel |
| Raster.FirstBrightestIsUnique | script.js:496 | a cell has only one first brightest pixel, so the star is determined |
| Raster.BrightestInCell | script.js:488-498 | the nested loops return the first brightest pixel of a non-empty cell, and -1 at (0, 0) for an empty one |
| Raster.EmptyRowsKeepStart | script.js:492-498 | scanning rows of width 0 leaves the initial state |
| Keypoints.DistanceIsMetric | script.js:459 | the star distance is non-negative, zero exactly for equal positions, and symmetric |
| Keypoints.FindCell | script.js:456 | `find` returns the first star of the cell, or none exactly when no star is in that cell |
| Keypoints.FindCellOfDistinct | server/server.js:108 | without repeated cells every star is the one `find` returns for its own cell |
| Keypoints.RowMajorGridIsDistinct | script.js:477-505 | a 64-star row-major grid has exactly one star per cell |
| Keypoints.HeuristicScore | script.js:466 | the score is in [0, 100] for a non-negative average, 100 exactly at distance 0, and 0 exactly from 0.2 on |
| Keypoints.HeuristicScoreDecreasing | script.js:466 | a larger average distance never scores higher, and scores strictly lower while the score is positive |
| Hex.ToHex | script.js:704 | `toString(16)` gives lower-case digits that read back as the number, one digit exactly below 16, at most two below 256 |
| Hex.ChannelCodeOfByte | script.js:703-705 | a channel in 0..255 has a two-digit code that reads back as the channel |
| Hex.UpperDigit | script.js:706 | upper-casing a hexadecimal digit keeps its value and makes it match `[0-9A-F]` |
| Hex.RgbToHexRoundTrip | script.js:702-707 | `rgbToHex` of three bytes is '#' and six upper-case digits, matching `#[0-9A-F]{6}`, and each pair reads back as its channel |
| Constellation.GridCell | script.js:479-485 | the clamped cell rectangle lies inside the raster |
| Constellation.ClampNeverBinds | script.js:484-485 | the clamp never changes an extent: every cell is floor(W/8) x floor(H/8) |
| Constellation.ExtractConstellation | script.js:471-508 | extraction fails (an empty `getImageData` rectangle) exactly when the raster is under 8 pixels in either direction; otherwise it returns the 64-star row-major signature |
| Constellation.SignatureIsRowMajor | script.js:477-505 | star k belongs to cell (k / 8, k % 8) |
| Constellation.StarIsFirstBrightest | script.js:487-504 | every star is its cell's first brightest pixel by weighted luma, with coordinates in [0, 1) |
| Constellation.TotalDistanceNonNegative | script.js:450-463 | the summed distance is never negative |
| Constellation.VerifyConstellation | script.js:447-469 | average = total distance / 16, score in [0, 100], passed exactly when the score exceeds 75; fails like the extraction |
| Constellation.SelfTotalIsZero | script.js:453-463 | every star of a signature without repeated cells finds itself at distance 0 |
| Constellation.SelfVerificationScoresFull | script.js:447-469 | verifying an image against its own signature scores 100 |
| Constellation.EmptyReferencePasses | script.js:456-462 | a cell missing from the reference costs nothing, so an empty reference scores 100 and passes |
| DemoConstellation.DemoCell | constellation_demo/script.js:17-22 | the unclamped cell rectangle still lies inside the raster |
| DemoConstellation.ExtractConstellation | constellation_demo/script.js:5-57 | fails exactly for a raster under 8 pixels in either direction; otherwise the 64-star row-major demo signature |
| DemoConstellation.DemoSignatureIsRowMajor | constellation_demo/script.js:13-55 | star k belongs to cell (k / 8, k % 8) |
| DemoConstellation.DemoStarIsFirstBrightest | constellation_demo/script.js:26-53 | every star is its cell's first brightest pixel by mean brightness, and b * 255 is that brightness, in [0, 1] |
| DemoConstellation.IndexTotalNonNegative | constellation_demo/script.js:214-228 | the index-paired distance sum is never negative |
| DemoConstellation.Compare | constellation_demo/script.js:213-241 | throws exactly when `original` is shorter than `current`, at the first missing index; otherwise average = total / 64, score in [0, 100], passed exactly above 75 |
| DemoConstellation.SelfCompareScoresFull | constellation_demo/script.js:213-241 | comparing a signature with a copy of itself gives distance 0 and score 100 |
| DemoConstellation.ShownVerdicts | constellation_demo/script.js:117-130 | for every report `compare` returns, `passed` holds exactly for an average deviation under 0.05 and the PASSED label exactly under 0.04; the label implies `passed`, and a score in (75, 80] is passed yet labelled FAILED |
| DemoConstellation.PassedButShownFailed | constellation_demo/script.js:117-130 | three stars each moved by 0.96 give `compare`'s report (77.5, 0.045, passed), which the page labels FAILED |
| Server.ServerTotalNonNegative | server/server.js:100-121 | `totalDist` is never negative |
| Server.ServerScore | server/server.js:98-128 | the score is NaN exactly for an empty query (0 / 0), and otherwise in [0, 100] |
| Server.CalculateMatchScore | server/server.js:98-128 | the loop computes that score; a non-empty query gives a number in [0, 100] |
| Server.SelfTotalIsZero | server/server.js:104-121 | every star of a signature without repeated cells finds itself at distance 0 |
| Server.SelfScoreIsFull | server/server.js:98-128 | a non-empty signature without repeated cells scores 100 against itself |
| Server.MissingCellsCostHalf | server/server.js:117-120 | every missing cell costs 0.5, so against an empty record a non-empty query scores 0 |
| Server.Leading | server/server.js:53-65 | the highest score bounds every numeric row score; the best row is the first to reach it and above 0; there is no best row exactly when no row scores above 0, and then the highest is 0 |
| Server.InvalidArrayField | server/server.js:45-47 | `!x \|\| !Array.isArray(x)` rejects exactly the values that are not arrays |
| Server.Verify | server/server.js:42-86 | a non-array signature gets 400 "Invalid query signature"; otherwise the answer carries the highest score, matches exactly above 75, and names the best record's metadata |
| Server.EmptyQueryNeverMatches | server/server.js:53-65 | an empty query scores NaN everywhere, so no record is selected and the score stays 0 |
| Server.Register | server/server.js:24-38 | rejected with 400 exactly when the constellation is not an array, leaving the store; otherwise exactly one record is appended, holding the signature, the image id, author, device, timestamp and the store's time that `/verify` later returns as metadata |
| Server.RegisteredSignatureMatches | server/server.js:42-86 | after registering a non-empty signature without repeated cells, verifying it reaches the top score 100 with a best record |
| ScoringVariants.KeyedTotalsAgree | server/server.js:104-121 | when every cell is found, the web verifier and the back end sum the same distances |
| ScoringVariants.ClientAverageIsFourfold | script.js:465-466 | for a 64-star query whose cells are all found, the web verifier's average is four times the back end's, so its score is never higher |
| ScoringVariants.FindInRowMajorGrid | server/server.js:108 | in a row-major grid, `find` for cell (k / 8, k % 8) returns star k |
| ScoringVariants.IndexedTotalIsKeyedTotal | constellation_demo/script.js:217-228 | between two row-major grids, index pairing and cell pairing give the same total |
| ScoringVariants.DemoAgreesWithServer | constellation_demo/script.js:213-241 | the demo and the back end give the same score for two extractor outputs |
| ScoringVariants.ExtractorsReadSameCells | script.js:479-485 | the web verifier and the demo read the same 64 rectangles |
| ScoringVariants.RowMajorGridsFindAllCells | script.js:456 | every star of a row-major grid finds its cell in any other row-major grid |
| Strands.GetPixelAt | script.js:691-699 | the four channels read at (y * width + x) * 4 are bytes |
| Strands.ColumnAt | script.js:643-645 | the column floor(W * p / 100) lies inside a non-empty raster and is the integer part of W * p / 100 |
| Strands.Positions | script.js:640-656 | three positions (1 Bottom, 2 Middle, 3 Top) inside the raster: the bottom strand ends on the last row, the top starts on the first, the middle is centred to within a row |
| Strands.SampleStrand | script.js:661-684 | the inner loop produces the strand sampled at that position |
| Strands.ExtractStrands | script.js:630-688 | fails exactly for an empty raster; otherwise three strands, each sampled at its position |
| Strands.SampledPixelReadsBack | script.js:672-680 | a sampled pixel carries its coordinates, the raster's channels there, and a hex code that reads back as them |
| Strands.ExtractedStrandIsWellFormed | script.js:662-681 | a strand has floor(height / 3) pixels of its column, pixel k taken at row startY + k |
| StrandCompare.ToleranceIsInclusive | script.js:756-761 | a difference of 5 in every channel still matches; a difference of 6 in any channel does not |
| StrandCompare.MismatchesAreSortedMismatchPositions | script.js:751-777 | the mismatch positions are listed exactly, each once, in increasing order |
| StrandCompare.SamplesArePrefixOfMismatches | script.js:767-776 | the mismatch log is the first five mismatch positions' records |
| StrandCompare.SamplesAreMismatches | script.js:764-776 | at most five logged entries, in increasing position, each a genuine mismatch with its pixels, row and channel differences; fewer only when there are fewer mismatches |
| StrandCompare.SamplesAreEarliest | script.js:767-776 | no mismatch before the last logged one is skipped |
| StrandCompare.Percentage | script.js:782 | NaN exactly for an empty original strand, otherwise in [0, 100], and 100 exactly when all pixels matched |
| StrandCompare.StrandOutcomeCounts | script.js:733-783 | totalPixels is the original length; matching plus mismatching is the shorter length; a strand is a match exactly when it is non-empty and more than 90% of its original pixels matched |
| StrandCompare.CompareStrand | script.js:733-791 | the per-strand loop computes that strand's outcome |
| StrandCompare.SelfComparisonMatches | script.js:751-783 | a strand compared with itself matches every pixel, logs nothing and reports 100% |
| StrandCompare.TallyMeaning | script.js:725-792 | after n pairs there is one result per pair; each flag is false exactly when a pair tripped it; the two counters are the sum of the pairs' shorter lengths and the sum of the results' matching pixels; matching never exceeds compared, and compared is 0 exactly when every pair has an empty side |
| StrandCompare.CompareStrands | script.js:710-798 | the strand loop computes the comparison |
| StrandCompare.CompareOutcomeProperties | script.js:710-798 | one result per pair up to the shorter list; dimensionMatch exactly when no pair differs by more than 10 pixels; overallMatch exactly when every strand matches; percentage in [0, 100], equal to 100 times the summed matching pixels over the summed compared pixels, and 0 when nothing was compared |
| StrandCompare.SelfOverall | script.js:709-798 | comparing strands with themselves: overallMatch exactly when no strand is empty, and an overall percentage of 100 as soon as one strand has pixels (0 otherwise) |
| StrandCompare.EmptyStrandFailsSelfComparison | script.js:779-783 | one strand without pixels compared with itself is not a match (its `0 / 0` is NaN, never above 90) and the overall percentage is 0 |
| StrandCompare.Classify | script.js:810-819 | authentic exactly from 95, modified exactly in [80, 95), failed exactly below 80 |
| StrandCompare.ClassifyMonotone | script.js:810-819 | a higher percentage never earns a worse verdict |
| StrandCompare.NothingComparedIsForged | script.js:794-819 | when nothing is compared, the percentage 0 is classed as failed |
| Text.IndexOf | script.js:167-181 | `indexOf` finds the first occurrence at or after the start, or none exactly when there is no occurrence |
| Text.Split | script.js:154 | `split` gives at least one piece, exactly one when the separator does not occur |
| Text.SplitPiecesAvoidSeparator | script.js:168 | no piece of a split contains the separator |
| Text.SplitAtFirst | script.js:168 | the first piece ends at the first occurrence, and the second starts right after it |
| Text.SplitJoinLines | script.js:154 | splitting newline-terminated lines on '\n' gives the lines back, then an empty piece |
| Text.TrimIsSlice | script.js:164 | `trim` keeps a slice of the line whose ends are not white space |
| Text.TrimDropsSpaces | script.js:164 | `trim` removes only white space, at both ends |
| Text.DigitRun | script.js:172 | a greedy `\d+` consumes the maximal run of digits |
| Text.NatToString | script.js:735 | the decimal digits of a number read back as that number |
| Patterns.FirstMatch | script.js:189 | a regular-expression match is the leftmost index where the pattern matches |
| Patterns.ExecOfRendering | script.js:219 | a line written from a pattern's groups is matched from its start, with those groups |
| Patterns.ExecAfterLead | script.js:189-209 | when the rendering of a pattern stands in a line and its lead character does not occur earlier, the match is that rendering |
| PixelDataParser.ReadHeader | script.js:184-205 | the `--- STRAND` branch computes the header step |
| PixelDataParser.ReadStart | script.js:208-215 | the `Start:` branch computes the start step |
| PixelDataParser.ReadPixel | script.js:218-230 | the pixel branch computes the pixel step |
| PixelDataParser.ReadLine | script.js:164-235 | the loop body computes one line's step: metadata, then the header, start, pixel and summary branches |
| PixelDataParser.FailureIsFinal | script.js:189-221 | a throw on any line is the result of the whole parse |
| PixelDataParser.ParsePixelDataFile | script.js:153-244 | the loop over the trimmed lines computes the parse, stopping at the first throw |
| PixelDataParser.HeaderStep | script.js:184-205 | a header throws exactly when it has no `STRAND <digits>`; otherwise it pushes the open strand, opens a new empty strand with the header's number and name, and stops pixel lines |
| PixelDataParser.StartStep | script.js:208-215 | a `Start:` line never throws, sets the open strand's start when it has coordinates, and starts pixel lines |
| PixelDataParser.PixelStep | script.js:217-230 | a pixel line is ignored unless pixel lines are accepted and it fits the full pattern; then it is appended to the open strand, or throws with no strand open |
| PixelDataParser.SummaryStep | script.js:232-235 | a `===` line stops pixel lines only once the open strand has pixels |
| PixelDataParser.OtherStep | script.js:166-181 | any other line only updates the metadata |
| PixelDataParser.AcceptsPixelsOnlyAfterStart | script.js:204-218 | pixel lines are accepted only after a `Start:` line that no header has followed since |
| PixelDataParser.PixelLineIsHexShaped | script.js:219-228 | every pixel read from a line has a `#[0-9A-F]{6}` colour code |
| PixelDataParser.RunKeepsHexShaped | script.js:163-236 | any number of lines keeps every stored colour code well-shaped |
| PixelDataParser.ParsedHexCodesAreWellShaped | script.js:153-244 | every pixel the parser returns has a colour code of `rgbToHex`'s shape |
| PixelDataParser.ImageIdStopsAtColon | script.js:167-168 | `Image ID:` keeps only the text up to the next colon, trimmed |
| PixelDataParser.FileNameStopsAtColon | script.js:169-170 | `File Name:` is cut at the next colon in the same way |
| PixelDataParser.CapturedAtKeepsColons | script.js:177-178 | `Captured At:` keeps the whole value, colons included |
| ReferenceFile.PixelTextRoundTrip | script.js:218-228 | a written pixel line reads back as the same pixel |
| ReferenceFile.HeaderTextStep | script.js:184-205 | a written header pushes the open strand and opens the written strand's number, name and column |
| ReferenceFile.StartTextStep | script.js:208-215 | a written `Start:` line records the strand's start and starts pixel lines |
| ReferenceFile.BlockRoundTrip | script.js:184-230 | the lines written for one strand leave exactly that strand open, with its pixels in order |
| ReferenceFile.StrandBlockRoundTrip | script.js:184-230 | the block written for a strand leaves that very strand open |
| ReferenceFile.PreambleIsPlain | script.js:166-181 | no preamble line touches the strands |
| ReferenceFile.FooterIsPlain | script.js:232-235 | no summary line touches the strands |
| ReferenceFile.RunBack | script.js:163-236 | plain lines around three strand blocks push the first two strands and leave the third open |
| ReferenceFile.ReadBack | script.js:153-244 | parsing such a text gives the three strands in order, the last one only if it has pixels |
| ReferenceFile.WrittenFileRoundTrip | script.js:153-244 | the written reference file parses back to its three strands, dropping a third strand without pixels |
| ReferenceFile.ExtractedStrands | script.js:630-688 | the three sampled strands are writable, the third with floor(height / 3) pixels |
| ReferenceFile.WrittenFileMatchesExtraction | script.js:153-244 | the file written for a raster parses back to exactly the strands `extractStrandsFromImage` samples from it (the top one dropped under three rows) |
| DimensionCheck.ClassifyAsWritten | script.js:111-134 | as written: mismatch exactly when neither reading holds; rotated exactly when the swapped reading holds, even if the exact one also does |
| DimensionCheck.BothReadingsMeanSquare | script.js:113-114 | both readings hold exactly for a square photo of the recorded square size |
| DimensionCheck.SquareMatchReportedRotated | script.js:108-134 | with a reference file loaded, a square photo of exactly the recorded size gets the rotated notice |
| DimensionCheck.Classify | script.js:111-134 | corrected: match exactly when the sizes are equal, rotated exactly when only the swapped reading holds, mismatch otherwise |
| DimensionCheck.ClassifyDiffersOnlyOnSquares | script.js:111-134 | the two orders differ exactly on a square photo of the recorded size, where the corrected check reports a match |
| DimensionCheck.DimensionNotice | script.js:108-134 | as written: no notice exactly without a reference file; otherwise rotated exactly when the swapped reading holds, match exactly when only the exact one does, mismatch exactly when neither does |
| DimensionCheck.CorrectedNotice | script.js:108-134 | corrected: no notice exactly without a reference file; otherwise match exactly when the sizes are equal, rotated exactly when only the swapped reading holds |
| DimensionCheck.NoticesDifferOnlyOnSquares | script.js:108-134 | the page's notice and the corrected one differ exactly for a square photo of the recorded size, which the page calls rotated and the corrected notice a match |

## Left out

- Browser and server plumbing is not modelled. This covers the DOM and
  result rendering, canvas drawing, file reading, `console` output, alerts,
  Express routing, the 500 answers and `server/database.js`. The store is
  a sequence of records handed to `Server.Verify` and returned by
  `Server.Register`.
- Floating point is modelled as exact real arithmetic. `Math.sqrt` is a
  parameter constrained to be the Euclidean norm. Cell origins and strand
  columns are integer quotients, which agree with `Math.floor` of the
  float products for the sizes involved.
- StrandCompare.StrandOutcome: `toFixed(2)` is not modelled. The per-strand
  and overall percentages are exact, and `isMatch` compares the exact
  percentage with 90, so a percentage just above 90 that rounds to 90.00
  is a match in the model but not in the source.
- Comparing strands with themselves gives 100% on every strand and a
  match overall only when no strand is empty. An empty strand's percentage
  is `0 / 0`, which is NaN and never above 90, so it is not a match and the
  overall verdict fails (`StrandCompare.SelfOverall`,
  `StrandCompare.EmptyStrandFailsSelfComparison`). The model follows the
  code here.
- StrandCompare.Classify: the overall percentage reaches the
  classification as a `toFixed(2)` string. Rounding can lift a value such
  as 94.996 to "95.00" (authentic); the model classifies the exact value.
- DemoConstellation.DemoStarIsFirstBrightest: `b` is modelled as the exact
  `maxVal / 255`, not as its value rounded to two decimals.
- The `matchedStars` counters of `verifyConstellation` and
  `calculateMatchScore` are never read, so they are not modelled.
- `parseInt` is modelled on unbounded integers. The precision lost on
  numbers beyond 2^53 is not modelled.
- Regular expressions are modelled as token patterns (literal text,
  `(\d+)`, `(#[0-9A-F]{6})`), not as a general engine. Every pattern the
  parser uses has that form. In each, a digit run is followed by a
  non-digit or by the end of the pattern, so greedy matching is the only
  match.
- `toUpperCase` is modelled for ASCII letters only, which covers every
  character `toString(16)` produces.
- Metadata the file does not record is `None`, standing for `undefined`. A
  JSON request field that is absent is `Missing`.
- The reference file's writer is the capture app's Java code (`main
  act.java`), not the JavaScript core. Only the line formats it writes
  (header, `Start:`, pixel lines, preamble and summary) are modelled, so
  that the parser can be proved to read them back.
- Only the strands are proved to round-trip through the reference file.
  The metadata values are not, because `split(':')` cuts an image id or
  file name at its first colon (see `PixelDataParser.ImageIdStopsAtColon`).
- Strands.ExtractedStrandIsWellFormed states that each pixel equals the
  sampled pixel at its row. Its agreement with the raster's channels and
  its hex code is stated once, in `Strands.SampledPixelReadsBack`, not
  repeated per strand.
- The constellation the server stores is already parsed (`JSON.parse` of
  `constellation_data` is not modelled), and request bodies are
  pre-decoded into `JsonValue`.

## Findings

| source | as written | input that shows it | evidently intended | confidence | as-written member | corrected member |
|---|---|---|---|---|---|---|
| script.js:111-134 | the rotated reading is tested before the exact one (also at script.js:269-279), so when both hold the photo is reported as rotated | a 100 x 100 photo whose reference file records `100 x 100` | a photo of exactly the recorded size is a match; "rotated" only when just the swapped size fits | high (not executed) | DimensionCheck.DimensionNotice (DimensionCheck.SquareMatchReportedRotated) | DimensionCheck.CorrectedNotice (DimensionCheck.NoticesDifferOnlyOnSquares) |
