/** `parsePixelDataFile` of script.js: the reader of the reference file the
    capture app writes next to a photo.  The file is split into lines, each
    line is trimmed, and a small state machine (the strand being filled and
    whether pixel lines are currently accepted) collects a metadata block
    and the pixel strands. */
module PixelDataParser {
  import opened Wrappers
  import opened Text
  import opened Hex
  import opened Strands
  import opened Patterns

  /** `/(\d+) x (\d+)/` */
  const DimensionsPattern: seq<Token> := [Digits, Lit(" x "), Digits]
  /** `/STRAND (\d+)/` */
  const StrandNumberPattern: seq<Token> := [Lit("STRAND "), Digits]
  /** `/X=(\d+)/` */
  const ColumnPattern: seq<Token> := [Lit("X="), Digits]
  /** `/\((\d+),(\d+)\)/` */
  const StartPattern: seq<Token> := [Lit("("), Digits, Lit(","), Digits, Lit(")")]
  /** `/^X=\d+,Y=\d+/`, used anchored at the start of the line. */
  const PixelPrefixPattern: seq<Token> := [Lit("X="), Digits, Lit(",Y="), Digits]
  /** `/X=(\d+),Y=(\d+),RGB\((\d+),(\d+),(\d+)\),(#[0-9A-F]{6})/` */
  const PixelPattern: seq<Token> :=
    [Lit("X="), Digits, Lit(",Y="), Digits, Lit(",RGB("), Digits, Lit(","), Digits, Lit(","), Digits,
     Lit("),"), HexCode]

  /** `data.metadata`: each field is absent until a line sets it. */
  datatype Metadata = Metadata(imageId: Option<string>, fileName: Option<string>, width: Option<nat>,
                               height: Option<nat>, capturedAt: Option<string>, capturedBy: Option<string>)

  const NoMetadata := Metadata(None, None, None, None, None, None)

  /** `{ metadata, strands }`. */
  datatype PixelData = PixelData(metadata: Metadata, strands: seq<Strand>)

  /** The two ways the parser throws: reading group 1 of a failed
      `STRAND (\d+)` match, and pushing a pixel while no strand is open. */
  datatype ParseError = MissingStrandNumber | PixelWithoutStrand

  /** The parser's state between lines: the data so far, `currentStrand`
      and `inStrandData`. */
  datatype ParseState = ParseState(data: PixelData, current: Option<Strand>, inStrandData: bool)

  const Initial := ParseState(PixelData(NoMetadata, []), None, false)

  /** The value of group `k + 1` of a match, as `parseInt` reads it. */
  function NumberAt(m: Match, k: nat): nat {
    if k < |m.groups| then NumberOf(m.groups[k]) else 0
  }

  /** The text of group `k + 1` of a match. */
  function TextAt(m: Match, k: nat): string {
    if k < |m.groups| then TextOf(m.groups[k]) else ""
  }

  /** A key that ends with a colon is included only where a colon is. */
  lemma KeyColon(line: string, key: string)
    requires |key| > 0 && key[|key| - 1] == ':' && Includes(line, key)
    ensures Includes(line, ":")
  {
    var j := IndexOf(line, key, 0).value;
    assert line[j + |key| - 1..j + |key|] == [line[j + |key| - 1]];
    assert line[j + |key| - 1] == line[j..j + |key|][|key| - 1];
    OccurrenceIsIncluded(line, ":", j + |key| - 1);
  }

  /** `line.split(sep)[1].trim()` for a line that contains `sep`. */
  function ValueAfter(line: string, sep: string): string
    requires |sep| > 0 && Includes(line, sep)
  {
    Trim(Split(line, sep)[1])
  }

  /** The metadata branch: the first of the five keys the line contains
      decides which field it sets. */
  function UpdateMetadata(md: Metadata, line: string): Metadata {
    if Includes(line, "Image ID:") then
      assert Includes(line, ":") by { KeyColon(line, "Image ID:"); }
      md.(imageId := Some(ValueAfter(line, ":")))
    else if Includes(line, "File Name:") then
      assert Includes(line, ":") by { KeyColon(line, "File Name:"); }
      md.(fileName := Some(ValueAfter(line, ":")))
    else if Includes(line, "Image Dimensions:") then
      match Exec(line, DimensionsPattern)
      case None => md
      case Some(m) => md.(width := Some(NumberAt(m, 0)), height := Some(NumberAt(m, 1)))
    else if Includes(line, "Captured At:") then
      md.(capturedAt := Some(ValueAfter(line, "Captured At:")))
    else if Includes(line, "Captured By:") then
      md.(capturedBy := Some(ValueAfter(line, "Captured By:")))
    else md
  }

  /** The strand name from the header's position word. */
  function StrandName(line: string): string {
    if Includes(line, "BOTTOM") then "Bottom"
    else if Includes(line, "MIDDLE") then "Middle"
    else if Includes(line, "TOP") then "Top"
    else "Unknown"
  }

  /** The strand a `--- STRAND` header opens: its number, its name, its
      column when the header gives one, no start and no pixels. */
  function OpenedStrand(line: string): Result<Strand, ParseError> {
    match Exec(line, StrandNumberPattern)
    case None => Failure(MissingStrandNumber)
    case Some(m) =>
      var column := match Exec(line, ColumnPattern) case None => None case Some(x) => Some(NumberAt(x, 0));
      Success(Strand(NumberAt(m, 0), StrandName(line), column, None, None, []))
  }

  /** The pixel of a full pixel-line match. */
  function PixelOf(m: Match): Pixel {
    Pixel(NumberAt(m, 0), NumberAt(m, 1), NumberAt(m, 2), NumberAt(m, 3), NumberAt(m, 4), TextAt(m, 5))
  }

  /** What a line offers as a pixel: it must start with `X=<digits>,Y=<digits>`
      and contain the full pixel pattern. */
  function PixelLine(line: string): Option<Pixel> {
    if MatchAt(line, 0, PixelPrefixPattern).None? then None
    else match Exec(line, PixelPattern)
      case None => None
      case Some(m) => Some(PixelOf(m))
  }

  /** A `--- STRAND` header pushes the open strand, whatever it holds, and
      opens a new one; pixel lines wait for a `Start:` line. */
  function OnHeader(st: ParseState, line: string): Result<ParseState, ParseError> {
    if StartsWith(line, "--- STRAND") then
      var strands := if st.current.Some? then st.data.strands + [st.current.value] else st.data.strands;
      match OpenedStrand(line)
      case Failure(e) => Failure(e)
      case Success(s) => Success(ParseState(st.data.(strands := strands), Some(s), false))
    else Success(st)
  }

  /** A `Start:` line records the start coordinates on the open strand and
      starts accepting pixel lines, with or without an open strand. */
  function OnStart(st: ParseState, line: string): ParseState {
    if StartsWith(line, "Start:") then
      var coords := Exec(line, StartPattern);
      var current :=
        if coords.Some? && st.current.Some? then
          Some(st.current.value.(startX := Some(NumberAt(coords.value, 0)), startY := Some(NumberAt(coords.value, 1))))
        else st.current;
      ParseState(st.data, current, true)
    else st
  }

  /** While pixel lines are accepted, a pixel line appends its pixel to the
      open strand; with no strand open, the push throws. */
  function OnPixel(st: ParseState, line: string): Result<ParseState, ParseError> {
    if st.inStrandData then
      match PixelLine(line)
      case None => Success(st)
      case Some(p) =>
        if st.current.None? then Failure(PixelWithoutStrand)
        else Success(st.(current := Some(st.current.value.(pixels := st.current.value.pixels + [p]))))
    else Success(st)
  }

  /** A `===` line ends the pixel data of a strand that has pixels. */
  function OnSummary(st: ParseState, line: string): ParseState {
    if StartsWith(line, "===") && st.current.Some? && |st.current.value.pixels| > 0 then st.(inStrandData := false)
    else st
  }

  /** One pass of the loop, on a trimmed line. */
  function Step(st: ParseState, line: string): Result<ParseState, ParseError> {
    var st0 := st.(data := st.data.(metadata := UpdateMetadata(st.data.metadata, line)));
    match OnHeader(st0, line)
    case Failure(e) => Failure(e)
    case Success(st1) =>
      match OnPixel(OnStart(st1, line), line)
      case Failure(e) => Failure(e)
      case Success(st2) => Success(OnSummary(st2, line))
  }

  /** The state after the given lines, each trimmed, starting from `st`;
      the first error ends the parse. */
  function Run(st: ParseState, lines: seq<string>): Result<ParseState, ParseError>
    decreases |lines|
  {
    if |lines| == 0 then Success(st)
    else
      match Run(st, lines[..|lines| - 1])
      case Failure(e) => Failure(e)
      case Success(s) => Step(s, Trim(lines[|lines| - 1]))
  }

  /** After the last line, the open strand is kept only if it has pixels. */
  function Finish(st: ParseState): PixelData {
    if st.current.Some? && |st.current.value.pixels| > 0 then st.data.(strands := st.data.strands + [st.current.value])
    else st.data
  }

  /** `parsePixelDataFile(content)`. */
  function Parse(content: string): Result<PixelData, ParseError> {
    match Run(Initial, Split(content, "\n"))
    case Failure(e) => Failure(e)
    case Success(st) => Success(Finish(st))
  }

  /** Parsing a list of lines in two parts: the second part starts from
      the state the first leaves, and an error in the first is final. */
  lemma {:induction false} RunAppend(st: ParseState, a: seq<string>, b: seq<string>)
    ensures Run(st, a + b) == match Run(st, a) case Failure(e) => Failure(e) case Success(s) => Run(s, b)
    decreases |b|
  {
    if |b| == 0 {
      assert a + b == a;
    } else {
      var front := b[..|b| - 1];
      RunAppend(st, a, front);
      assert (a + b)[..|a + b| - 1] == a + front;
      assert (a + b)[|a + b| - 1] == b[|b| - 1];
    }
  }

  /** One more line is one more step, unless the parse has already failed. */
  lemma RunOneMore(st: ParseState, lines: seq<string>, i: nat)
    requires i < |lines|
    ensures Run(st, lines[..i + 1]) ==
      match Run(st, lines[..i]) case Failure(e) => Failure(e) case Success(s) => Step(s, Trim(lines[i]))
  {
    assert lines[..i + 1][..i] == lines[..i];
  }

  /** A step is its header, start, pixel and summary phases in turn. */
  lemma StepByPhases(st: ParseState, line: string, header: ParseState, pixel: ParseState)
    requires OnHeader(st.(data := st.data.(metadata := UpdateMetadata(st.data.metadata, line))), line) == Success(header)
    requires OnPixel(OnStart(header, line), line) == Success(pixel)
    ensures Step(st, line) == Success(OnSummary(pixel, line))
  {
  }

  /** The `--- STRAND` branch of the loop body. */
  method ReadHeader(st: ParseState, line: string) returns (r: Result<ParseState, ParseError>)
    ensures r == OnHeader(st, line)
  {
    if !StartsWith(line, "--- STRAND") {
      return Success(st);
    }
    var strands := st.data.strands;
    if st.current.Some? {
      strands := strands + [st.current.value];
    }
    var strandNum := Exec(line, StrandNumberPattern);
    if strandNum.None? {
      return Failure(MissingStrandNumber);
    }
    var xMatch := Exec(line, ColumnPattern);
    var column := if xMatch.Some? then Some(NumberAt(xMatch.value, 0)) else None;
    var current := Strand(NumberAt(strandNum.value, 0), StrandName(line), column, None, None, []);
    return Success(ParseState(st.data.(strands := strands), Some(current), false));
  }

  /** The `Start:` branch of the loop body. */
  method ReadStart(st: ParseState, line: string) returns (r: ParseState)
    ensures r == OnStart(st, line)
  {
    r := st;
    if StartsWith(line, "Start:") {
      var coords := Exec(line, StartPattern);
      if coords.Some? && r.current.Some? {
        var startX := NumberAt(coords.value, 0);
        var startY := NumberAt(coords.value, 1);
        r := r.(current := Some(r.current.value.(startX := Some(startX), startY := Some(startY))));
      }
      r := r.(inStrandData := true);
    }
  }

  /** The pixel-line branch of the loop body. */
  method ReadPixel(st: ParseState, line: string) returns (r: Result<ParseState, ParseError>)
    ensures r == OnPixel(st, line)
  {
    if !st.inStrandData || MatchAt(line, 0, PixelPrefixPattern).None? {
      return Success(st);
    }
    var matches := Exec(line, PixelPattern);
    if matches.None? {
      return Success(st);
    }
    if st.current.None? {
      return Failure(PixelWithoutStrand);
    }
    var strand := st.current.value;
    return Success(st.(current := Some(strand.(pixels := strand.pixels + [PixelOf(matches.value)]))));
  }

  /** The body of the loop for one trimmed line: the metadata chain, then
      the header, start, pixel and summary branches in turn. */
  method ReadLine(st: ParseState, line: string) returns (r: Result<ParseState, ParseError>)
    ensures r == Step(st, line)
  {
    var st0 := st.(data := st.data.(metadata := UpdateMetadata(st.data.metadata, line)));
    var header := ReadHeader(st0, line);
    if header.Failure? {
      return Failure(header.error);
    }
    var st1 := ReadStart(header.value, line);
    var pixel := ReadPixel(st1, line);
    if pixel.Failure? {
      return Failure(pixel.error);
    }
    StepByPhases(st, line, header.value, pixel.value);
    var st2 := pixel.value;
    if StartsWith(line, "===") && st2.current.Some? && |st2.current.value.pixels| > 0 {
      st2 := st2.(inStrandData := false);
    }
    return Success(st2);
  }

  /** A parse that fails on some line fails as a whole, with that error. */
  lemma FailureIsFinal(content: string, n: nat, e: ParseError)
    requires n <= |Split(content, "\n")| && Run(Initial, Split(content, "\n")[..n]) == Failure(e)
    ensures Parse(content) == Failure(e)
  {
    var lines := Split(content, "\n");
    RunAppend(Initial, lines[..n], lines[n..]);
    assert lines[..n] + lines[n..] == lines;
  }

  /** `parsePixelDataFile`: the loop over the trimmed lines, carrying the
      data read so far, the open strand and the pixel-acceptance flag from
      line to line; the first error is thrown out of the loop. */
  method ParsePixelDataFile(content: string) returns (r: Result<PixelData, ParseError>)
    ensures r == Parse(content)
  {
    var lines := Split(content, "\n");
    var st := Initial;
    var i := 0;
    while i < |lines|
      invariant i <= |lines|
      invariant Run(Initial, lines[..i]) == Success(st)
    {
      RunOneMore(Initial, lines, i);
      var next := ReadLine(st, Trim(lines[i]));
      if next.Failure? {
        FailureIsFinal(content, i + 1, next.error);
        return Failure(next.error);
      }
      st := next.value;
      i := i + 1;
    }
    assert lines[..i] == lines;
    return Success(Finish(st));
  }

  /** The four kinds of line are told apart by their first character. */
  lemma LeadingCharacter(line: string)
    ensures StartsWith(line, "--- STRAND") ==> |line| > 0 && line[0] == '-'
    ensures StartsWith(line, "Start:") ==> |line| > 0 && line[0] == 'S'
    ensures StartsWith(line, "===") ==> |line| > 0 && line[0] == '='
  {
    if StartsWith(line, "--- STRAND") {
      assert line[0] == line[..10][0];
    }
    if StartsWith(line, "Start:") {
      assert line[0] == line[..6][0];
    }
    if StartsWith(line, "===") {
      assert line[0] == line[..3][0];
    }
  }

  /** A line that does not start with `X` is not a pixel line. */
  lemma NotPixelPrefix(line: string)
    requires |line| == 0 || line[0] != 'X'
    ensures MatchAt(line, 0, PixelPrefixPattern).None?
  {
    assert PixelPrefixPattern[0] == Lit("X=");
    if |line| >= 2 {
      assert line[..2][0] == line[0];
    }
  }

  /** `^X=\d+,Y=\d+` can only match a line that starts with `X=`. */
  lemma PixelPrefixLeads(line: string)
    requires MatchAt(line, 0, PixelPrefixPattern).Some?
    ensures StartsWith(line, "X=") && line[0] == 'X'
  {
    assert PixelPrefixPattern[0] == Lit("X=");
    assert line[0] == line[..2][0];
  }

  /** The state with only the metadata chain applied. */
  function WithMetadata(st: ParseState, line: string): ParseState {
    st.(data := st.data.(metadata := UpdateMetadata(st.data.metadata, line)))
  }

  /** A `--- STRAND` header throws exactly when it has no `STRAND <digits>`;
      otherwise it pushes the open strand, even an empty one, opens a new
      strand numbered after the header with no start and no pixels, and
      stops accepting pixel lines. */
  lemma HeaderStep(st: ParseState, line: string)
    requires StartsWith(line, "--- STRAND")
    ensures Step(st, line).Failure? <==> Exec(line, StrandNumberPattern).None?
    ensures Step(st, line).Failure? ==> Step(st, line).error == MissingStrandNumber
    ensures Step(st, line).Success? ==>
      var next := Step(st, line).value;
      && next.data.metadata == UpdateMetadata(st.data.metadata, line)
      && next.data.strands == st.data.strands + (if st.current.Some? then [st.current.value] else [])
      && next.current.Some?
      && next.current.value.id == NumberAt(Exec(line, StrandNumberPattern).value, 0)
      && next.current.value.name == StrandName(line)
      && next.current.value.startX.None? && next.current.value.startY.None?
      && next.current.value.pixels == []
      && !next.inStrandData
  {
    LeadingCharacter(line);
    NotPixelPrefix(line);
  }

  /** A `Start:` line never fails, keeps the strands, sets the open
      strand's start when the line has `(<digits>,<digits>)`, and starts
      accepting pixel lines, whether or not a strand is open. */
  lemma StartStep(st: ParseState, line: string)
    requires StartsWith(line, "Start:")
    ensures Step(st, line).Success?
    ensures var next := Step(st, line).value;
      var coords := Exec(line, StartPattern);
      && next.data == WithMetadata(st, line).data
      && next.inStrandData
      && (coords.None? || st.current.None? ==> next.current == st.current)
      && (coords.Some? && st.current.Some? ==>
            next.current == Some(st.current.value.(startX := Some(NumberAt(coords.value, 0)),
                                                   startY := Some(NumberAt(coords.value, 1)))))
  {
    LeadingCharacter(line);
    NotPixelPrefix(line);
  }

  /** On a pixel line only the metadata chain and the pixel branch act. */
  lemma PixelLineStep(st: ParseState, line: string)
    requires MatchAt(line, 0, PixelPrefixPattern).Some?
    ensures Step(st, line) == OnPixel(WithMetadata(st, line), line)
  {
    LeadingCharacter(line);
    PixelPrefixLeads(line);
    var st0 := WithMetadata(st, line);
    assert OnHeader(st0, line) == Success(st0);
    assert OnStart(st0, line) == st0;
    forall st2: ParseState ensures OnSummary(st2, line) == st2 {
    }
  }

  /** A line that starts like a pixel line is ignored while pixel lines are
      not accepted and when it lacks the full pixel pattern; otherwise its
      pixel is appended to the open strand, and with no strand open the
      parse throws. */
  lemma PixelStep(st: ParseState, line: string)
    requires MatchAt(line, 0, PixelPrefixPattern).Some?
    ensures !st.inStrandData || Exec(line, PixelPattern).None? ==> Step(st, line) == Success(WithMetadata(st, line))
    ensures st.inStrandData && Exec(line, PixelPattern).Some? && st.current.None? ==>
      Step(st, line) == Failure(PixelWithoutStrand)
    ensures st.inStrandData && Exec(line, PixelPattern).Some? && st.current.Some? ==>
      var strand := st.current.value;
      Step(st, line) == Success(WithMetadata(st, line).(current :=
        Some(strand.(pixels := strand.pixels + [PixelOf(Exec(line, PixelPattern).value)]))))
  {
    PixelLineStep(st, line);
  }

  /** A `===` line stops the pixel data only once the open strand has
      pixels, and changes nothing else. */
  lemma SummaryStep(st: ParseState, line: string)
    requires StartsWith(line, "===")
    ensures Step(st, line) == Success(WithMetadata(st, line).(inStrandData :=
      st.inStrandData && !(st.current.Some? && |st.current.value.pixels| > 0)))
  {
    LeadingCharacter(line);
    NotPixelPrefix(line);
  }

  /** Any other line only feeds the metadata chain. */
  lemma OtherStep(st: ParseState, line: string)
    requires !StartsWith(line, "--- STRAND") && !StartsWith(line, "Start:") && !StartsWith(line, "===")
    requires MatchAt(line, 0, PixelPrefixPattern).None?
    ensures Step(st, line) == Success(WithMetadata(st, line))
  {
  }

  /** The index of the last line that, trimmed, starts with `prefix`. */
  function LastLineStarting(lines: seq<string>, prefix: string): (r: Option<nat>)
    ensures r.Some? ==> r.value < |lines| && StartsWith(Trim(lines[r.value]), prefix)
    decreases |lines|
  {
    if |lines| == 0 then None
    else if StartsWith(Trim(lines[|lines| - 1]), prefix) then Some(|lines| - 1)
    else LastLineStarting(lines[..|lines| - 1], prefix)
  }

  /** Some line was a `Start:` line and no `--- STRAND` header came after
      it. */
  predicate StartedSinceHeader(lines: seq<string>) {
    var start := LastLineStarting(lines, "Start:");
    var header := LastLineStarting(lines, "--- STRAND");
    start.Some? && (header.None? || header.value < start.value)
  }

  /** After one line pixel lines are accepted only if that line was a
      `Start:` line, or they already were and it was not a header. */
  lemma InStrandDataStep(st: ParseState, line: string)
    requires Step(st, line).Success? && Step(st, line).value.inStrandData
    ensures StartsWith(line, "Start:") || (st.inStrandData && !StartsWith(line, "--- STRAND"))
  {
    LeadingCharacter(line);
    if StartsWith(line, "--- STRAND") {
      HeaderStep(st, line);
    } else if StartsWith(line, "===") {
      SummaryStep(st, line);
    } else if MatchAt(line, 0, PixelPrefixPattern).Some? {
      PixelStep(st, line);
    } else if !StartsWith(line, "Start:") {
      OtherStep(st, line);
    }
  }

  /** Pixel lines are accepted only after a `Start:` line that no header
      has followed since. */
  lemma {:induction false} AcceptsPixelsOnlyAfterStart(lines: seq<string>)
    requires Run(Initial, lines).Success? && Run(Initial, lines).value.inStrandData
    ensures StartedSinceHeader(lines)
    decreases |lines|
  {
    var n := |lines|;
    var front := lines[..n - 1];
    var line := Trim(lines[n - 1]);
    InStrandDataStep(Run(Initial, front).value, line);
    LeadingCharacter(line);
    if !StartsWith(line, "Start:") {
      AcceptsPixelsOnlyAfterStart(front);
    }
  }

  /** A pixel whose colour code has the `#[0-9A-F]{6}` shape. */
  predicate HexShaped(p: Pixel) {
    |p.hex| == 7 && HexColorAt(p.hex, 0)
  }

  /** Every pixel of every strand has a well-shaped colour code. */
  predicate AllHexShaped(strands: seq<Strand>) {
    forall i, k :: 0 <= i < |strands| && 0 <= k < |strands[i].pixels| ==> HexShaped(strands[i].pixels[k])
  }

  predicate StateHexShaped(st: ParseState) {
    AllHexShaped(st.data.strands) && (st.current.Some? ==> AllHexShaped([st.current.value]))
  }

  /** A full pixel-line match has five numbers and then the colour code. */
  lemma PixelGroups(caps: seq<Capture>)
    requires Fits(PixelPattern, caps)
    ensures |caps| == 6 && caps[5].Code? && |caps[5].text| == 7 && HexColorAt(caps[5].text, 0)
  {
    var p := PixelPattern;
    assert Fits(p[1..], caps);
    assert Fits(p[2..], caps[1..]);
    assert Fits(p[4..], caps[2..]);
    assert Fits(p[6..], caps[3..]);
    assert Fits(p[8..], caps[4..]);
    assert Fits(p[10..], caps[5..]);
    assert Fits(p[11..], caps[5..]);
    assert p[11..] == [HexCode];
    assert Fits(p[12..], caps[6..]);
  }

  /** The pixel read from any line has a well-shaped colour code. */
  lemma PixelLineIsHexShaped(line: string)
    requires PixelLine(line).Some?
    ensures HexShaped(PixelLine(line).value)
  {
    PixelGroups(Exec(line, PixelPattern).value.groups);
  }

  /** A header keeps the stored colour codes well-shaped. */
  lemma HeaderKeepsHexShaped(st: ParseState, line: string)
    requires StartsWith(line, "--- STRAND")
    requires StateHexShaped(st) && Step(st, line).Success?
    ensures StateHexShaped(Step(st, line).value)
  {
    HeaderStep(st, line);
    var next := Step(st, line).value;
    assert forall i :: 0 <= i < |next.data.strands| ==>
      next.data.strands[i] == if i < |st.data.strands| then st.data.strands[i] else st.current.value;
  }

  /** A pixel line keeps the stored colour codes well-shaped. */
  lemma PixelKeepsHexShaped(st: ParseState, line: string)
    requires MatchAt(line, 0, PixelPrefixPattern).Some?
    requires StateHexShaped(st) && Step(st, line).Success?
    ensures StateHexShaped(Step(st, line).value)
  {
    PixelStep(st, line);
    if st.inStrandData && Exec(line, PixelPattern).Some? && st.current.Some? {
      var pixel := PixelOf(Exec(line, PixelPattern).value);
      PixelGroups(Exec(line, PixelPattern).value.groups);
      AppendKeepsHexShaped(st.current.value, pixel);
    }
  }

  lemma AppendKeepsHexShaped(s: Strand, p: Pixel)
    requires AllHexShaped([s]) && HexShaped(p)
    ensures AllHexShaped([s.(pixels := s.pixels + [p])])
  {
    var t := s.(pixels := s.pixels + [p]);
    forall k | 0 <= k < |t.pixels| ensures HexShaped([t][0].pixels[k]) {
      if k < |s.pixels| {
        assert [s][0].pixels[k] == t.pixels[k];
      }
    }
  }

  /** One line keeps every stored pixel's colour code well-shaped. */
  lemma StepKeepsHexShaped(st: ParseState, line: string)
    requires StateHexShaped(st) && Step(st, line).Success?
    ensures StateHexShaped(Step(st, line).value)
  {
    LeadingCharacter(line);
    if StartsWith(line, "--- STRAND") {
      HeaderKeepsHexShaped(st, line);
    } else if MatchAt(line, 0, PixelPrefixPattern).Some? {
      PixelKeepsHexShaped(st, line);
    } else {
      if StartsWith(line, "Start:") {
        StartStep(st, line);
      } else if StartsWith(line, "===") {
        SummaryStep(st, line);
      } else {
        OtherStep(st, line);
      }
      SamePixelsKeepHexShaped(st, Step(st, line).value);
    }
  }

  lemma SamePixelsKeepHexShaped(st: ParseState, next: ParseState)
    requires StateHexShaped(st) && next.data.strands == st.data.strands
    requires next.current.Some? ==> st.current.Some? && next.current.value.pixels == st.current.value.pixels
    ensures StateHexShaped(next)
  {
    if next.current.Some? {
      assert [next.current.value][0].pixels == [st.current.value][0].pixels;
    }
  }

  /** Any number of lines keeps every stored colour code well-shaped. */
  lemma {:induction false} RunKeepsHexShaped(st: ParseState, lines: seq<string>)
    requires StateHexShaped(st) && Run(st, lines).Success?
    ensures StateHexShaped(Run(st, lines).value)
    decreases |lines|
  {
    if |lines| > 0 {
      var front := lines[..|lines| - 1];
      RunKeepsHexShaped(st, front);
      StepKeepsHexShaped(Run(st, front).value, Trim(lines[|lines| - 1]));
    }
  }

  /** Every pixel the parser returns carries a colour code of the shape
      `rgbToHex` produces: '#' and six upper-case hexadecimal digits. */
  lemma ParsedHexCodesAreWellShaped(content: string)
    requires Parse(content).Success?
    ensures AllHexShaped(Parse(content).value.strands)
  {
    var lines := Split(content, "\n");
    RunKeepsHexShaped(Initial, lines);
    var st := Run(Initial, lines).value;
    var data := Finish(st);
    assert forall i :: 0 <= i < |data.strands| ==>
      data.strands[i] == if i < |st.data.strands| then st.data.strands[i] else st.current.value;
  }

  /** `Image ID:` keeps only the text up to the next colon of the value
      (`split(':')[1]`), trimmed. */
  lemma ImageIdStopsAtColon(md: Metadata, v: string, k: nat)
    requires k <= |v| && (k == |v| || v[k] == ':')
    requires forall j :: 0 <= j < k ==> v[j] != ':'
    ensures UpdateMetadata(md, "Image ID:" + v) == md.(imageId := Some(Trim(v[..k])))
  {
    var line := "Image ID:" + v;
    assert OccursAt(line, "Image ID:", 0);
    OccurrenceIsIncluded(line, "Image ID:", 0);
    assert line == "Image ID" + [':'] + v;
    SplitSecondPieceAtChar("Image ID", ':', v, k);
  }

  /** `File Name:` is cut the same way, on a line without `Image ID:`. */
  lemma FileNameStopsAtColon(md: Metadata, v: string, k: nat)
    requires !Includes("File Name:" + v, "Image ID:")
    requires k <= |v| && (k == |v| || v[k] == ':')
    requires forall j :: 0 <= j < k ==> v[j] != ':'
    ensures UpdateMetadata(md, "File Name:" + v) == md.(fileName := Some(Trim(v[..k])))
  {
    var line := "File Name:" + v;
    assert OccursAt(line, "File Name:", 0);
    OccurrenceIsIncluded(line, "File Name:", 0);
    assert line == "File Name" + [':'] + v;
    SplitSecondPieceAtChar("File Name", ':', v, k);
  }

  /** `Captured At:` is split on the whole key, so the value keeps its own
      colons (a time of day), on a line none of the earlier keys claims. */
  lemma CapturedAtKeepsColons(md: Metadata, v: string)
    requires var line := "Captured At:" + v;
      !Includes(line, "Image ID:") && !Includes(line, "File Name:") && !Includes(line, "Image Dimensions:")
    requires !Includes(v, "Captured At:")
    ensures UpdateMetadata(md, "Captured At:" + v) == md.(capturedAt := Some(Trim(v)))
  {
    var line := "Captured At:" + v;
    assert OccursAt(line, "Captured At:", 0);
    OccurrenceIsIncluded(line, "Captured At:", 0);
    SplitAtFirst(line, "Captured At:", 0);
    assert line[12..] == v;
    assert Split(v, "Captured At:") == [v];
  }
}
