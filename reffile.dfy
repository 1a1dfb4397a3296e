/** The reference file the capture app writes next to each photo, as
    `parsePixelDataFile` expects it: a strand header, a `Start:` line, a
    blank line, one line per sampled pixel and a blank line, for each of the
    three strands.  The line formats are the parser's inverse: each line
    reads back as the values written into it. */
module ReferenceFile {
  import opened Wrappers
  import opened Text
  import opened Hex
  import opened Raster
  import opened Strands
  import opened Patterns
  import opened PixelDataParser

  /** The decimal text of a signed integer: a `Start:` line's end row is
      `-1` for a strand of no rows at the top of the image. */
  function IntText(i: int): (s: string)
    ensures i >= 0 ==> s == NatToString(i)
  {
    if i < 0 then "-" + NatToString(-i) else NatToString(i)
  }

  /** `X=%d,Y=%d,RGB(%d,%d,%d),%s` of one pixel. */
  function PixelText(p: Pixel): string {
    "X=" + NatToString(p.x) + ",Y=" + NatToString(p.y) + ",RGB(" + NatToString(p.r) + "," +
    NatToString(p.g) + "," + NatToString(p.b) + ")," + p.hex
  }

  /** The groups `X=(\d+),Y=(\d+),RGB\((\d+),(\d+),(\d+)\),(#[0-9A-F]{6})`
      captures from a pixel's line. */
  function PixelCaptures(p: Pixel): seq<Capture> {
    [Number(p.x), Number(p.y), Number(p.r), Number(p.g), Number(p.b), Code(p.hex)]
  }

  /** None of the letters that tell the five metadata keys apart (`g` of
      `Image`, `i` of `File`, `p` of `Captured`), and no line break. */
  predicate KeyFree(s: string) {
    Avoids(s, 'g') && Avoids(s, 'i') && Avoids(s, 'p') && Avoids(s, '\n')
  }

  /** A line without those letters feeds no metadata field. */
  lemma KeyFreeKeepsMetadata(md: Metadata, line: string)
    requires KeyFree(line)
    ensures UpdateMetadata(md, line) == md
  {
    AvoidedCharNotIncluded(line, "Image ID:", 'g', 3);
    AvoidedCharNotIncluded(line, "File Name:", 'i', 1);
    AvoidedCharNotIncluded(line, "Image Dimensions:", 'g', 3);
    AvoidedCharNotIncluded(line, "Captured At:", 'p', 2);
    AvoidedCharNotIncluded(line, "Captured By:", 'p', 2);
  }

  lemma DigitsAreKeyFree(s: string)
    requires AllDigits(s)
    ensures KeyFree(s)
  {
  }

  /** The last tokens of the pixel pattern: `(\d+),(\d+),(\d+)\),(#[0-9A-F]{6})`. */
  const ChannelTokens: seq<Token> := [Digits, Lit(","), Digits, Lit(","), Digits, Lit("),"), HexCode]

  lemma PixelPatternPieces()
    ensures PixelPattern == [Lit("X=")] + ([Digits] + ([Lit(",Y=")] + ([Digits] + ([Lit(",RGB(")] + ChannelTokens))))
  {
  }

  /** The channels and code of a pixel line, `<r>,<g>,<b>),<hex>`, are
      the rendering of the last tokens of the pixel pattern. */
  lemma ChannelsRendered(p: Pixel)
    requires HexShaped(p)
    ensures var c := [Number(p.r), Number(p.g), Number(p.b), Code(p.hex)];
      Fits(ChannelTokens, c) &&
      Render(ChannelTokens, c) == NatToString(p.r) + "," + NatToString(p.g) + "," + NatToString(p.b) + ")," + p.hex
  {
    var tail := [Digits, Lit("),"), HexCode];
    var caps := [Number(p.b), Code(p.hex)];
    var bs := NatToString(p.b) + ")," + p.hex;
    ChannelsTail(p.b, p.hex);
    RenderLit(",", tail, caps);
    var P4 := [Lit(",")] + tail;
    RenderDigits(p.g, P4, caps);
    var P5, C5 := [Digits] + P4, [Number(p.g)] + caps;
    RenderLit(",", P5, C5);
    var P6 := [Lit(",")] + P5;
    RenderDigits(p.r, P6, C5);
    assert [Digits] + P6 == ChannelTokens;
    assert [Number(p.r)] + C5 == [Number(p.r), Number(p.g), Number(p.b), Code(p.hex)];
    Regroup5(NatToString(p.r), ",", NatToString(p.g), ",", bs);
    Regroup3(NatToString(p.b), "),", p.hex);
  }

  /** The last three channel tokens render the blue channel and the code. */
  lemma ChannelsTail(b: nat, h: string)
    requires |h| == 7 && HexColorAt(h, 0)
    ensures Fits([Digits, Lit("),"), HexCode], [Number(b), Code(h)])
    ensures Render([Digits, Lit("),"), HexCode], [Number(b), Code(h)]) == NatToString(b) + ")," + h
  {
    var P0: seq<Token>, C0: seq<Capture> := [], [];
    RenderCode(h, P0, C0);
    var P1, C1 := [HexCode] + P0, [Code(h)] + C0;
    RenderLit("),", P1, C1);
    var P2 := [Lit("),")] + P1;
    RenderDigits(b, P2, C1);
    assert [Digits] + P2 == [Digits, Lit("),"), HexCode];
    assert [Number(b)] + C1 == [Number(b), Code(h)];
    assert h + "" == h;
  }

  lemma Regroup3(a: string, b: string, c: string)
    ensures a + (b + c) == a + b + c
  {
  }

  lemma Regroup5(a: string, b: string, c: string, d: string, e: string)
    ensures a + (b + (c + (d + e))) == a + b + c + d + e
  {
  }

  /** A pixel line as its position part followed by its channels part. */
  lemma PixelTextPieces(p: Pixel)
    ensures PixelText(p) == "X=" + (NatToString(p.x) + (",Y=" + (NatToString(p.y) + (",RGB(" +
      (NatToString(p.r) + "," + NatToString(p.g) + "," + NatToString(p.b) + ")," + p.hex)))))
  {
  }

  /** A pixel line is the rendering of the pixel pattern with the pixel's
      values as its groups. */
  lemma PixelTextRendered(p: Pixel)
    requires HexShaped(p)
    ensures Fits(PixelPattern, PixelCaptures(p)) && Render(PixelPattern, PixelCaptures(p)) == PixelText(p)
  {
    ChannelsRendered(p);
    PixelTextPieces(p);
    PixelPatternPieces();
    var C7 := [Number(p.r), Number(p.g), Number(p.b), Code(p.hex)];
    RenderLit(",RGB(", ChannelTokens, C7);
    var P8 := [Lit(",RGB(")] + ChannelTokens;
    RenderDigits(p.y, P8, C7);
    var P9, C9 := [Digits] + P8, [Number(p.y)] + C7;
    RenderLit(",Y=", P9, C9);
    var P10 := [Lit(",Y=")] + P9;
    RenderDigits(p.x, P10, C9);
    var P11, C11 := [Digits] + P10, [Number(p.x)] + C9;
    RenderLit("X=", P11, C11);
    PixelCapturesPieces(p);
  }

  lemma PixelCapturesPieces(p: Pixel)
    ensures PixelCaptures(p) ==
      [Number(p.x)] + ([Number(p.y)] + [Number(p.r), Number(p.g), Number(p.b), Code(p.hex)])
  {
  }

  /** The prefix `X=<x>,Y=<y>` is the rendering of the anchored pattern. */
  lemma PixelPrefixRendered(p: Pixel)
    ensures var c := [Number(p.x), Number(p.y)];
      Fits(PixelPrefixPattern, c) &&
      Render(PixelPrefixPattern, c) == "X=" + NatToString(p.x) + ",Y=" + NatToString(p.y)
  {
    var P0: seq<Token>, C0: seq<Capture> := [], [];
    RenderDigits(p.y, P0, C0);
    var P1, C1 := [Digits] + P0, [Number(p.y)] + C0;
    RenderLit(",Y=", P1, C1);
    var P2 := [Lit(",Y=")] + P1;
    RenderDigits(p.x, P2, C1);
    var P3, C3 := [Digits] + P2, [Number(p.x)] + C1;
    RenderLit("X=", P3, C3);
    assert [Lit("X=")] + P3 == PixelPrefixPattern;
    assert C3 == [Number(p.x), Number(p.y)];
  }

  /** A pixel line starts with `X=<digits>,Y=<digits>`. */
  lemma PixelTextHasPrefix(p: Pixel)
    ensures MatchAt(PixelText(p), 0, PixelPrefixPattern).Some?
  {
    var t := PixelText(p);
    var c := [Number(p.x), Number(p.y)];
    PixelPrefixRendered(p);
    var head := "X=" + NatToString(p.x) + ",Y=" + NatToString(p.y);
    var rest := ",RGB(" + NatToString(p.r) + "," + NatToString(p.g) + "," + NatToString(p.b) + ")," + p.hex;
    assert t == head + rest;
    assert t[0..|head|] == head;
    assert t[|head|] == ',';
    RenderMatches(t, 0, PixelPrefixPattern, c);
  }

  /** A pixel line has no white space at either end. */
  lemma PixelTextIsTrimmed(p: Pixel)
    requires HexShaped(p)
    ensures Trim(PixelText(p)) == PixelText(p)
  {
    var t := PixelText(p);
    assert t[0] == 'X';
    assert t[|t| - 1] == p.hex[6];
    TrimUnpadded(t);
  }

  /** A pixel line holds none of the metadata keys' letters. */
  lemma PixelTextIsKeyFree(p: Pixel)
    requires HexShaped(p)
    ensures KeyFree(PixelText(p))
  {
    DigitsAreKeyFree(NatToString(p.x));
    DigitsAreKeyFree(NatToString(p.y));
    DigitsAreKeyFree(NatToString(p.r));
    DigitsAreKeyFree(NatToString(p.g));
    DigitsAreKeyFree(NatToString(p.b));
    assert KeyFree(p.hex);
  }

  /** Reading a written pixel line gives back the pixel: coordinates,
      channels and colour code. */
  lemma PixelTextRoundTrip(p: Pixel)
    requires HexShaped(p)
    ensures Trim(PixelText(p)) == PixelText(p)
    ensures PixelLine(PixelText(p)) == Some(p)
  {
    PixelTextIsTrimmed(p);
    PixelTextHasPrefix(p);
    PixelTextMatches(p);
  }

  /** Every digit run of the pixel pattern is followed by a non-digit. */
  lemma PixelPatternIsWellFormed()
    ensures WellFormed(PixelPattern)
  {
    var P := PixelPattern;
    assert WellFormed(P[10..]);
    assert WellFormed(P[8..]);
    assert WellFormed(P[6..]);
    assert WellFormed(P[4..]);
    assert WellFormed(P[2..]);
  }

  /** The full pixel pattern first matches a pixel line at its start and
      captures the pixel's values. */
  lemma PixelTextMatches(p: Pixel)
    requires HexShaped(p)
    ensures Exec(PixelText(p), PixelPattern).Some?
    ensures Exec(PixelText(p), PixelPattern).value.groups == PixelCaptures(p)
  {
    PixelPatternIsWellFormed();
    PixelTextRendered(p);
    ExecOfRendering(PixelText(p), PixelPattern, PixelCaptures(p));
  }

  /** The position words of the three strand headers, bottom to top. */
  const Words: seq<string> := ["BOTTOM", "MIDDLE", "TOP"]
  /** The column of each strand, in percent of the width. */
  const Percents: seq<nat> := [15, 50, 80]

  /** The strand names the parser gives the three position words. */
  const Names: seq<string> := ["Bottom", "Middle", "Top"]

  /** `--- STRAND <id>: <WORD> (X=<x>, <percent>% from left) ---` */
  function HeaderText(id: nat, word: string, x: nat, percent: nat): string {
    HeaderOf(NatToString(id), word, NatToString(x), NatToString(percent))
  }

  /** A header with its parts as plain strings. */
  function HeaderOf(n: string, word: string, xs: string, ps: string): string {
    "--- STRAND " + n + ": " + word + " (X=" + xs + ", " + ps + "% from left) ---"
  }

  /** `Start: (<x>,<y0>) | End: (<x>,<yEnd>)` */
  function StartText(x: nat, y0: nat, yEnd: int): string {
    StartOf(NatToString(x), NatToString(y0), IntText(yEnd))
  }

  /** A `Start:` line with its parts as plain strings. */
  function StartOf(xs: string, ys: string, es: string): string {
    "Start: (" + xs + "," + ys + ") | End: (" + xs + "," + es + ")"
  }

  lemma DigitsAvoid(s: string, c: char)
    requires AllDigits(s) && !IsDigit(c)
    ensures Avoids(s, c)
  {
  }

  /** A header around its `STRAND <id>` part. */
  lemma HeaderAroundNumber(n: string, word: string, xs: string, ps: string)
    ensures HeaderOf(n, word, xs, ps) == "--- " + ("STRAND " + n) + (": " + word + " (X=" + xs + ", " + ps + "% from left) ---")
    ensures Avoids("--- ", 'S')
  {
  }

  /** A header around its `X=<x>` part. */
  lemma HeaderAroundColumn(n: string, word: string, xs: string, ps: string)
    requires Avoids(n, 'X') && Avoids(word, 'X')
    ensures HeaderOf(n, word, xs, ps) == ("--- STRAND " + n + ": " + word + " (") + ("X=" + xs) + (", " + ps + "% from left) ---")
    ensures Avoids("--- STRAND " + n + ": " + word + " (", 'X')
  {
  }

  /** The strand number of a header: `STRAND <id>` is first found right
      after the leading `--- `. */
  lemma HeaderNumber(id: nat, word: string, x: nat, percent: nat)
    ensures Exec(HeaderText(id, word, x, percent), StrandNumberPattern).Some?
    ensures Exec(HeaderText(id, word, x, percent), StrandNumberPattern).value.groups == [Number(id)]
  {
    var caps := [Number(id)];
    RenderDigits(id, [], []);
    RenderLit("STRAND ", [Digits], caps);
    assert [Lit("STRAND ")] + [Digits] == StrandNumberPattern;
    HeaderAroundNumber(NatToString(id), word, NatToString(x), NatToString(percent));
    ExecOfPiece(HeaderText(id, word, x, percent), "--- ", "STRAND " + NatToString(id),
                ": " + word + " (X=" + NatToString(x) + ", " + NatToString(percent) + "% from left) ---",
                StrandNumberPattern, caps);
  }

  /** The column of a header: `X=<x>` is first found inside the
      parentheses, as long as the position word has no `X`. */
  lemma HeaderColumn(id: nat, word: string, x: nat, percent: nat)
    requires Avoids(word, 'X')
    ensures Exec(HeaderText(id, word, x, percent), ColumnPattern).Some?
    ensures Exec(HeaderText(id, word, x, percent), ColumnPattern).value.groups == [Number(x)]
  {
    var caps := [Number(x)];
    RenderDigits(x, [], []);
    RenderLit("X=", [Digits], caps);
    assert [Lit("X=")] + [Digits] == ColumnPattern;
    DigitsAvoid(NatToString(id), 'X');
    HeaderAroundColumn(NatToString(id), word, NatToString(x), NatToString(percent));
    ExecOfPiece(HeaderText(id, word, x, percent), "--- STRAND " + NatToString(id) + ": " + word + " (", "X=" + NatToString(x),
                ", " + NatToString(percent) + "% from left) ---", ColumnPattern, caps);
  }

  /** A character missing from every part of a header and from its fixed
      text is missing from the header. */
  lemma HeaderAvoids(n: string, word: string, xs: string, ps: string, c: char)
    requires Avoids(n, c) && Avoids(word, c) && Avoids(xs, c) && Avoids(ps, c)
    requires Avoids("--- STRAND ", c) && Avoids(": ", c) && Avoids(" (X=", c) && Avoids(", ", c)
    requires Avoids("% from left) ---", c)
    ensures Avoids(HeaderOf(n, word, xs, ps), c)
  {
    AvoidsConcat("--- STRAND ", n, c);
    AvoidsConcat("--- STRAND " + n, ": ", c);
    AvoidsConcat("--- STRAND " + n + ": ", word, c);
    AvoidsConcat("--- STRAND " + n + ": " + word, " (X=", c);
    AvoidsConcat("--- STRAND " + n + ": " + word + " (X=", xs, c);
    AvoidsConcat("--- STRAND " + n + ": " + word + " (X=" + xs, ", ", c);
    AvoidsConcat("--- STRAND " + n + ": " + word + " (X=" + xs + ", ", ps, c);
    AvoidsConcat("--- STRAND " + n + ": " + word + " (X=" + xs + ", " + ps, "% from left) ---", c);
  }

  /** A header around its position word. */
  lemma HeaderAroundWord(n: string, word: string, xs: string, ps: string)
    ensures HeaderOf(n, word, xs, ps) ==
      ("--- STRAND " + n + ": ") + word + (" (X=" + xs + ", " + ps + "% from left) ---")
  {
  }

  /** The parser names a written strand after its header's position word. */
  lemma HeaderName(i: nat, id: nat, x: nat, percent: nat)
    requires i < 3
    ensures StrandName(HeaderText(id, Words[i], x, percent)) == Names[i]
  {
    var n, word, xs, ps := NatToString(id), Words[i], NatToString(x), NatToString(percent);
    var h := HeaderOf(n, word, xs, ps);
    HeaderAroundWord(n, word, xs, ps);
    var pre := "--- STRAND " + n + ": ";
    assert h[|pre|..|pre| + |word|] == word;
    OccurrenceIsIncluded(h, word, |pre|);
    if i > 0 {
      DigitsAvoid(n, 'B');
      DigitsAvoid(xs, 'B');
      DigitsAvoid(ps, 'B');
      HeaderAvoids(n, word, xs, ps, 'B');
      AvoidedCharNotIncluded(h, "BOTTOM", 'B', 0);
    }
    if i > 1 {
      DigitsAvoid(n, 'M');
      DigitsAvoid(xs, 'M');
      DigitsAvoid(ps, 'M');
      HeaderAvoids(n, word, xs, ps, 'M');
      AvoidedCharNotIncluded(h, "MIDDLE", 'M', 0);
    }
  }

  /** A header holds none of the metadata keys' letters. */
  lemma HeaderIsKeyFree(i: nat, id: nat, x: nat, percent: nat)
    requires i < 3
    ensures KeyFree(HeaderText(id, Words[i], x, percent))
  {
    var n, word, xs, ps := NatToString(id), Words[i], NatToString(x), NatToString(percent);
    DigitsAreKeyFree(n);
    DigitsAreKeyFree(xs);
    DigitsAreKeyFree(ps);
    HeaderAvoids(n, word, xs, ps, 'g');
    HeaderAvoids(n, word, xs, ps, 'i');
    HeaderAvoids(n, word, xs, ps, 'p');
    HeaderAvoids(n, word, xs, ps, '\n');
  }

  /** A header starts with `--- STRAND` and has a dash at each end. */
  lemma HeaderEnds(n: string, word: string, xs: string, ps: string)
    ensures var h := HeaderOf(n, word, xs, ps);
      StartsWith(h, "--- STRAND") && h[0] == '-' && h[|h| - 1] == '-'
  {
    var h := HeaderOf(n, word, xs, ps);
    assert h == "--- STRAND" + (" " + n + ": " + word + " (X=" + xs + ", " + ps + "% from left) ---");
  }

  lemma WordHasNoX(i: nat)
    requires i < 3
    ensures Avoids(Words[i], 'X')
  {
    if i == 0 {
      assert Words[0] == "BOTTOM";
    } else if i == 1 {
      assert Words[1] == "MIDDLE";
    } else {
      assert Words[2] == "TOP";
    }
  }

  /** The strand a written header opens: numbered and named as written,
      its column recorded, no start yet and no pixels. */
  lemma HeaderOpens(i: nat, id: nat, x: nat, percent: nat)
    requires i < 3
    ensures OpenedStrand(HeaderText(id, Words[i], x, percent)) == Success(Strand(id, Names[i], Some(x), None, None, []))
  {
    HeaderNumber(id, Words[i], x, percent);
    WordHasNoX(i);
    HeaderColumn(id, Words[i], x, percent);
    HeaderName(i, id, x, percent);
  }

  /** The strand open before a line, as a list of zero or one. */
  function Pending(st: ParseState): seq<Strand> {
    if st.current.Some? then [st.current.value] else []
  }

  /** A header line that opens strand `s` and feeds no metadata field
      pushes the open strand and opens `s`. */
  lemma HeaderLineStep(st: ParseState, line: string, s: Strand)
    requires StartsWith(line, "--- STRAND") && OpenedStrand(line) == Success(s)
    requires UpdateMetadata(st.data.metadata, line) == st.data.metadata
    ensures Step(st, line) == Success(ParseState(st.data.(strands := st.data.strands + Pending(st)), Some(s), false))
  {
    var strands := if st.current.Some? then st.data.strands + [st.current.value] else st.data.strands;
    if st.current.None? {
      assert st.data.strands + [] == st.data.strands;
    }
    assert strands == st.data.strands + Pending(st);
    var header := ParseState(st.data.(strands := strands), Some(s), false);
    assert WithMetadata(st, line) == st;
    assert OnHeader(st, line) == Success(header);
    LeadingCharacter(line);
    assert OnStart(header, line) == header;
    assert OnPixel(header, line) == Success(header);
    StepByPhases(st, line, header, header);
  }

  /** Reading a written header pushes the open strand, opens the written
      strand and stops accepting pixel lines; the metadata is untouched. */
  lemma HeaderTextStep(st: ParseState, i: nat, id: nat, x: nat, percent: nat)
    requires i < 3
    ensures var h := HeaderText(id, Words[i], x, percent);
      Step(st, Trim(h)) ==
        Success(ParseState(st.data.(strands := st.data.strands + Pending(st)),
                           Some(Strand(id, Names[i], Some(x), None, None, [])), false))
  {
    var h := HeaderText(id, Words[i], x, percent);
    HeaderEnds(NatToString(id), Words[i], NatToString(x), NatToString(percent));
    TrimUnpadded(h);
    HeaderIsKeyFree(i, id, x, percent);
    KeyFreeKeepsMetadata(st.data.metadata, h);
    HeaderOpens(i, id, x, percent);
    HeaderLineStep(st, h, Strand(id, Names[i], Some(x), None, None, []));
  }

  /** A `Start:` line around its first coordinate pair. */
  lemma StartAround(xs: string, ys: string, es: string)
    ensures StartOf(xs, ys, es) == "Start: " + ("(" + xs + "," + ys + ")") + (" | End: (" + xs + "," + es + ")")
    ensures StartsWith(StartOf(xs, ys, es), "Start:") && Avoids("Start: ", '(')
    ensures StartOf(xs, ys, es)[0] == 'S' && StartOf(xs, ys, es)[|StartOf(xs, ys, es)| - 1] == ')'
  {
    StartRegrouped(xs, ys, es);
    StartLead(xs, ys, es);
    StartEnds(xs, ys, es);
  }

  lemma StartRegrouped(xs: string, ys: string, es: string)
    ensures StartOf(xs, ys, es) == "Start: " + ("(" + xs + "," + ys + ")") + (" | End: (" + xs + "," + es + ")")
  {
    assert "Start: (" == "Start: " + "(";
    assert ") | End: (" == ")" + " | End: (";
    Regroup("Start: ", "(", xs, ",", ys, ")", " | End: (", es);
  }

  /** Concatenation regrouped around the first of two bracketed pairs. */
  lemma Regroup(p: string, q: string, xs: string, c: string, ys: string, r: string, t: string, es: string)
    ensures (p + q) + xs + c + ys + (r + t) + xs + c + es + r == p + (q + xs + c + ys + r) + (t + xs + c + es + r)
  {
  }

  lemma StartLead(xs: string, ys: string, es: string)
    ensures StartsWith(StartOf(xs, ys, es), "Start:") && Avoids("Start: ", '(')
  {
    var t := StartOf(xs, ys, es);
    assert t == "Start:" + (" (" + xs + "," + ys + ") | End: (" + xs + "," + es + ")");
  }

  lemma StartEnds(xs: string, ys: string, es: string)
    ensures StartOf(xs, ys, es)[0] == 'S' && StartOf(xs, ys, es)[|StartOf(xs, ys, es)| - 1] == ')'
  {
  }

  /** A character missing from every part of a `Start:` line and from its
      fixed text is missing from the line. */
  lemma StartAvoids(xs: string, ys: string, es: string, c: char)
    requires Avoids(xs, c) && Avoids(ys, c) && Avoids(es, c)
    requires Avoids("Start: (", c) && Avoids(",", c) && Avoids(") | End: (", c) && Avoids(")", c)
    ensures Avoids(StartOf(xs, ys, es), c)
  {
    AvoidsConcat("Start: (", xs, c);
    AvoidsConcat("Start: (" + xs, ",", c);
    AvoidsConcat("Start: (" + xs + ",", ys, c);
    AvoidsConcat("Start: (" + xs + "," + ys, ") | End: (", c);
    AvoidsConcat("Start: (" + xs + "," + ys + ") | End: (", xs, c);
    AvoidsConcat("Start: (" + xs + "," + ys + ") | End: (" + xs, ",", c);
    AvoidsConcat("Start: (" + xs + "," + ys + ") | End: (" + xs + ",", es, c);
    AvoidsConcat("Start: (" + xs + "," + ys + ") | End: (" + xs + "," + es, ")", c);
  }

  /** A signed decimal has only digits and a minus sign. */
  lemma IntTextAvoids(i: int, c: char)
    requires !IsDigit(c) && c != '-'
    ensures Avoids(IntText(i), c)
  {
    if i < 0 {
      DigitsAvoid(NatToString(-i), c);
      AvoidsConcat("-", NatToString(-i), c);
    } else {
      DigitsAvoid(NatToString(i), c);
    }
  }

  /** A `Start:` line holds none of the metadata keys' letters. */
  lemma StartIsKeyFree(x: nat, y0: nat, yEnd: int)
    ensures KeyFree(StartText(x, y0, yEnd))
  {
    var xs, ys, es := NatToString(x), NatToString(y0), IntText(yEnd);
    DigitsAreKeyFree(xs);
    DigitsAreKeyFree(ys);
    IntTextAvoids(yEnd, 'g');
    IntTextAvoids(yEnd, 'i');
    IntTextAvoids(yEnd, 'p');
    IntTextAvoids(yEnd, '\n');
    StartAvoids(xs, ys, es, 'g');
    StartAvoids(xs, ys, es, 'i');
    StartAvoids(xs, ys, es, 'p');
    StartAvoids(xs, ys, es, '\n');
  }

  /** The coordinates of a `Start:` line: `(<x>,<y0>)` is the first
      parenthesised pair. */
  lemma StartCoordinates(x: nat, y0: nat, yEnd: int)
    ensures Exec(StartText(x, y0, yEnd), StartPattern).Some?
    ensures Exec(StartText(x, y0, yEnd), StartPattern).value.groups == [Number(x), Number(y0)]
  {
    var xs, ys, es := NatToString(x), NatToString(y0), IntText(yEnd);
    var none: seq<Capture> := [];
    RenderLit(")", [], none);
    RenderDigits(y0, [Lit(")")], none);
    RenderLit(",", [Digits, Lit(")")], [Number(y0)]);
    RenderDigits(x, [Lit(","), Digits, Lit(")")], [Number(y0)]);
    RenderLit("(", [Digits, Lit(","), Digits, Lit(")")], [Number(x), Number(y0)]);
    assert [Lit("(")] + [Digits, Lit(","), Digits, Lit(")")] == StartPattern;
    StartAround(xs, ys, es);
    ExecOfPiece(StartText(x, y0, yEnd), "Start: ", "(" + xs + "," + ys + ")", " | End: (" + xs + "," + es + ")",
                StartPattern, [Number(x), Number(y0)]);
  }

  /** A `Start:` line with coordinates `(x,y)` that feeds no metadata
      field records them on the open strand and starts accepting pixel
      lines. */
  lemma StartLineStep(st: ParseState, line: string, x: nat, y: nat)
    requires StartsWith(line, "Start:")
    requires Exec(line, StartPattern).Some? && Exec(line, StartPattern).value.groups == [Number(x), Number(y)]
    requires UpdateMetadata(st.data.metadata, line) == st.data.metadata
    ensures Step(st, line) == Success(ParseState(st.data, Started(st.current, x, y), true))
  {
    StartStep(st, line);
  }

  /** The open strand with its start recorded. */
  function Started(current: Option<Strand>, x: nat, y: nat): Option<Strand> {
    if current.Some? then Some(current.value.(startX := Some(x), startY := Some(y))) else None
  }

  /** Reading a written `Start:` line records the strand's start. */
  lemma StartTextStep(st: ParseState, x: nat, y0: nat, yEnd: int)
    ensures Step(st, Trim(StartText(x, y0, yEnd))) == Success(ParseState(st.data, Started(st.current, x, y0), true))
  {
    var t := StartText(x, y0, yEnd);
    StartAround(NatToString(x), NatToString(y0), IntText(yEnd));
    TrimUnpadded(t);
    StartIsKeyFree(x, y0, yEnd);
    KeyFreeKeepsMetadata(st.data.metadata, t);
    StartCoordinates(x, y0, yEnd);
    StartLineStep(st, t, x, y0);
  }

  /** A blank line changes nothing. */
  lemma BlankStep(st: ParseState)
    ensures Step(st, Trim("")) == Success(st)
  {
    assert Trim("") == "";
    NotPixelPrefix("");
    KeyFreeKeepsMetadata(st.data.metadata, "");
    OtherStep(st, "");
  }

  /** A pixel line whose pixel is `p`, and that feeds no metadata field,
      appends `p` to the open strand while pixel lines are accepted. */
  lemma PixelLineAppends(st: ParseState, line: string, p: Pixel)
    requires MatchAt(line, 0, PixelPrefixPattern).Some? && PixelLine(line) == Some(p)
    requires UpdateMetadata(st.data.metadata, line) == st.data.metadata
    requires st.inStrandData && st.current.Some?
    ensures Step(st, line) == Success(st.(current := Some(st.current.value.(pixels := st.current.value.pixels + [p]))))
  {
    PixelStep(st, line);
    assert WithMetadata(st, line) == st;
  }

  /** Reading a written pixel line appends the pixel to the open strand. */
  lemma PixelTextStep(st: ParseState, p: Pixel)
    requires HexShaped(p) && st.inStrandData && st.current.Some?
    ensures Step(st, Trim(PixelText(p))) ==
      Success(st.(current := Some(st.current.value.(pixels := st.current.value.pixels + [p]))))
  {
    PixelTextRoundTrip(p);
    PixelTextHasPrefix(p);
    PixelTextIsKeyFree(p);
    KeyFreeKeepsMetadata(st.data.metadata, PixelText(p));
    PixelLineAppends(st, PixelText(p), p);
  }

  /** The pixel lines of a strand, in row order. */
  function PixelTexts(pixels: seq<Pixel>): (lines: seq<string>)
    ensures |lines| == |pixels|
  {
    seq(|pixels|, k requires 0 <= k < |pixels| => PixelText(pixels[k]))
  }

  /** The lines written for strand `i` (0 for the bottom one): its header,
      its `Start:` line, a blank line, its pixel lines and a blank line. */
  function BlockLines(i: nat, x: nat, y0: nat, yEnd: int, pixels: seq<Pixel>): seq<string>
    requires i < 3
  {
    [HeaderText(i + 1, Words[i], x, Percents[i]), StartText(x, y0, yEnd), ""] + PixelTexts(pixels) + [""]
  }

  lemma RunOne(st: ParseState, line: string)
    ensures Run(st, [line]) == Step(st, Trim(line))
  {
    assert [line][..0] == [];
  }

  /** Reading written pixel lines, while pixel lines are accepted, appends
      their pixels to the open strand in order. */
  lemma {:induction false} RunPixelTexts(st: ParseState, pixels: seq<Pixel>)
    requires st.inStrandData && st.current.Some?
    requires forall k :: 0 <= k < |pixels| ==> HexShaped(pixels[k])
    ensures Run(st, PixelTexts(pixels)) ==
      Success(st.(current := Some(st.current.value.(pixels := st.current.value.pixels + pixels))))
    decreases |pixels|
  {
    if |pixels| == 0 {
      assert st.current.value.pixels + pixels == st.current.value.pixels;
    } else {
      RunPixelTexts(st, pixels[..|pixels| - 1]);
      RunPixelTextsStep(st, pixels);
    }
  }

  /** One more pixel line appends one more pixel. */
  lemma RunPixelTextsStep(st: ParseState, pixels: seq<Pixel>)
    requires st.inStrandData && st.current.Some? && |pixels| > 0 && HexShaped(pixels[|pixels| - 1])
    requires var front := pixels[..|pixels| - 1];
      Run(st, PixelTexts(front)) ==
        Success(st.(current := Some(st.current.value.(pixels := st.current.value.pixels + front))))
    ensures Run(st, PixelTexts(pixels)) ==
      Success(st.(current := Some(st.current.value.(pixels := st.current.value.pixels + pixels))))
  {
    var n := |pixels|;
    var front := pixels[..n - 1];
    PixelTextsPrefix(pixels, n - 1);
    var mid := st.(current := Some(st.current.value.(pixels := st.current.value.pixels + front)));
    PixelTextStep(mid, pixels[n - 1]);
    AppendLast(st.current.value.pixels, pixels);
    RunSnoc(st, PixelTexts(pixels), mid,
            Success(st.(current := Some(st.current.value.(pixels := st.current.value.pixels + pixels)))));
  }

  /** A run over non-empty lines is the run over all but the last,
      followed by one step. */
  lemma RunSnoc(st: ParseState, lines: seq<string>, mid: ParseState, next: Result<ParseState, ParseError>)
    requires |lines| > 0 && Run(st, lines[..|lines| - 1]) == Success(mid)
    requires Step(mid, Trim(lines[|lines| - 1])) == next
    ensures Run(st, lines) == next
  {
  }

  lemma PixelTextsPrefix(pixels: seq<Pixel>, n: nat)
    requires n <= |pixels|
    ensures PixelTexts(pixels)[..n] == PixelTexts(pixels[..n])
  {
  }

  lemma AppendLast<T>(a: seq<T>, s: seq<T>)
    requires |s| > 0
    ensures a + s[..|s| - 1] + [s[|s| - 1]] == a + s
  {
    assert s[..|s| - 1] + [s[|s| - 1]] == s;
  }

  /** Reading the lines written for one strand pushes the strand open
      before them and leaves open exactly the written strand: its number,
      name and column from the header, its start from the `Start:` line and
      its pixels in order; pixel lines are still accepted. */
  lemma BlockRoundTrip(st: ParseState, i: nat, x: nat, y0: nat, yEnd: int, pixels: seq<Pixel>)
    requires i < 3 && forall k :: 0 <= k < |pixels| ==> HexShaped(pixels[k])
    ensures Run(st, BlockLines(i, x, y0, yEnd, pixels)) ==
      Success(ParseState(st.data.(strands := st.data.strands + Pending(st)),
                         Some(Strand(i + 1, Names[i], Some(x), Some(x), Some(y0), pixels)), true))
  {
    var head := [HeaderText(i + 1, Words[i], x, Percents[i]), StartText(x, y0, yEnd), ""];
    var s2 := ParseState(st.data.(strands := st.data.strands + Pending(st)),
                         Some(Strand(i + 1, Names[i], Some(x), Some(x), Some(y0), [])), true);
    BlockHeadRun(st, i, x, y0, yEnd);
    BlockTailRun(s2, pixels);
    RunAppend(st, head, PixelTexts(pixels) + [""]);
    BlockLinesSplit(i, x, y0, yEnd, pixels);
    EmptyAppend(pixels);
  }

  lemma EmptyAppend<T>(s: seq<T>)
    ensures [] + s == s
  {
  }

  lemma BlockLinesSplit(i: nat, x: nat, y0: nat, yEnd: int, pixels: seq<Pixel>)
    requires i < 3
    ensures BlockLines(i, x, y0, yEnd, pixels) ==
      [HeaderText(i + 1, Words[i], x, Percents[i]), StartText(x, y0, yEnd), ""] + (PixelTexts(pixels) + [""])
  {
    AppendAssociates([HeaderText(i + 1, Words[i], x, Percents[i]), StartText(x, y0, yEnd), ""], PixelTexts(pixels), [""]);
  }

  /** The header, the `Start:` line and the blank line after it open the
      strand with its start recorded and no pixels yet. */
  lemma BlockHeadRun(st: ParseState, i: nat, x: nat, y0: nat, yEnd: int)
    requires i < 3
    ensures Run(st, [HeaderText(i + 1, Words[i], x, Percents[i]), StartText(x, y0, yEnd), ""]) ==
      Success(ParseState(st.data.(strands := st.data.strands + Pending(st)),
                         Some(Strand(i + 1, Names[i], Some(x), Some(x), Some(y0), [])), true))
  {
    var h, t := HeaderText(i + 1, Words[i], x, Percents[i]), StartText(x, y0, yEnd);
    var s1 := ParseState(st.data.(strands := st.data.strands + Pending(st)),
                         Some(Strand(i + 1, Names[i], Some(x), None, None, [])), false);
    var s2 := ParseState(s1.data, Some(Strand(i + 1, Names[i], Some(x), Some(x), Some(y0), [])), true);
    HeaderTextStep(st, i, i + 1, x, Percents[i]);
    RunOne(st, h);
    StartTextStep(s1, x, y0, yEnd);
    RunOne(s1, t);
    BlankStep(s2);
    RunOne(s2, "");
    RunThree(st, h, t, "", s1, s2, s2);
  }

  /** Three lines, read one after another. */
  lemma RunThree(st: ParseState, a: string, b: string, c: string, s1: ParseState, s2: ParseState, s3: ParseState)
    requires Run(st, [a]) == Success(s1) && Run(s1, [b]) == Success(s2) && Run(s2, [c]) == Success(s3)
    ensures Run(st, [a, b, c]) == Success(s3)
  {
    Display3(a, b, c);
    RunAppend(st, [a], [b]);
    RunAppend(st, [a, b], [c]);
  }

  lemma Display3<T>(a: T, b: T, c: T)
    ensures [a] + [b] == [a, b] && [a, b] + [c] == [a, b, c]
  {
  }

  /** Pixel lines and a blank line append the pixels to the open strand. */
  lemma BlockTailRun(st: ParseState, pixels: seq<Pixel>)
    requires st.inStrandData && st.current.Some?
    requires forall k :: 0 <= k < |pixels| ==> HexShaped(pixels[k])
    ensures Run(st, PixelTexts(pixels) + [""]) ==
      Success(st.(current := Some(st.current.value.(pixels := st.current.value.pixels + pixels))))
  {
    var s3 := st.(current := Some(st.current.value.(pixels := st.current.value.pixels + pixels)));
    RunPixelTexts(st, pixels);
    BlankStep(s3);
    RunSnoc(st, PixelTexts(pixels) + [""], s3, Success(s3));
  }

  /** A strand the capture app writes as strand `i` (0 for the bottom
      one): numbered `i + 1`, named after its position, with its column as
      both position and start column, a start row, and well-shaped colour
      codes. */
  predicate Writable(i: nat, e: Strand) {
    && i < 3 && e.id == i + 1 && e.name == Names[i]
    && e.xPosition.Some? && e.startX == e.xPosition && e.startY.Some?
    && forall k :: 0 <= k < |e.pixels| ==> HexShaped(e.pixels[k])
  }

  /** The lines written for a strand whose rows span `strandHeight`: the
      `End:` row is the start row plus `strandHeight - 1`. */
  function StrandBlock(i: nat, e: Strand, strandHeight: nat): seq<string>
    requires Writable(i, e)
  {
    BlockLines(i, e.xPosition.value, e.startY.value, e.startY.value + strandHeight - 1, e.pixels)
  }

  /** Reading the block written for a strand pushes the strand open before
      it and leaves that very strand open. */
  lemma StrandBlockRoundTrip(st: ParseState, i: nat, e: Strand, strandHeight: nat)
    requires Writable(i, e)
    ensures Run(st, StrandBlock(i, e, strandHeight)) ==
      Success(ParseState(st.data.(strands := st.data.strands + Pending(st)), Some(e), true))
  {
    WritableParts(i, e);
    BlockRoundTrip(st, i, e.xPosition.value, e.startY.value, e.startY.value + strandHeight - 1, e.pixels);
  }

  /** A writable strand is the strand its block describes. */
  lemma WritableParts(i: nat, e: Strand)
    requires Writable(i, e)
    ensures i < 3 && e.xPosition.Some? && e.startY.Some?
    ensures forall k :: 0 <= k < |e.pixels| ==> HexShaped(e.pixels[k])
    ensures e == Strand(i + 1, Names[i], e.xPosition, e.xPosition, e.startY, e.pixels)
  {
  }

  /** The strands `extractStrandsFromImage` samples are written as they
      are. */
  lemma ExtractedIsWritable(img: Image, i: nat)
    requires Valid(img) && img.width > 0 && i < 3
    ensures Writable(i, ExtractedStrand(img, Positions(img.width, img.height)[i]))
  {
    var pos := Positions(img.width, img.height)[i];
    var strand := ExtractedStrand(img, pos);
    forall k | 0 <= k < |strand.pixels|
      ensures HexShaped(strand.pixels[k])
    {
      ExtractedPixelIsHexShaped(img, pos, k);
    }
  }

  lemma ExtractedPixelIsHexShaped(img: Image, p: Position, k: nat)
    requires Valid(img) && p.x < img.width && p.yStart + StrandHeight(img.height) <= img.height
    requires k < StrandHeight(img.height)
    ensures HexShaped(ExtractedStrand(img, p).pixels[k])
  {
    var y := p.yStart + k;
    assert y < img.height;
    ExtractedStrandIsWellFormed(img, p, k);
    SampledPixelHex(img, p.x, y);
  }

  /** A trimmed line that none of the strand branches acts on: empty, or
      starting with neither `-` nor `X`, and not with `Star`. */
  predicate Quiet(t: string) {
    |t| == 0 || (t[0] != '-' && t[0] != 'X' && (t[0] == 'S' ==> |t| > 3 && t[3] != 'r'))
  }

  /** A quiet line never fails and keeps the strands and the open strand. */
  lemma QuietStep(st: ParseState, t: string)
    requires Quiet(t)
    ensures Step(st, t).Success?
    ensures Step(st, t).value.data.strands == st.data.strands && Step(st, t).value.current == st.current
  {
    LeadingCharacter(t);
    NotPixelPrefix(t);
    if StartsWith(t, "===") {
      SummaryStep(st, t);
    } else {
      OtherStep(st, t);
    }
  }

  predicate QuietLines(lines: seq<string>) {
    forall k :: 0 <= k < |lines| ==> Quiet(Trim(lines[k]))
  }

  /** Lines that contain no line break. */
  predicate SingleLines(lines: seq<string>) {
    forall k :: 0 <= k < |lines| ==> Avoids(lines[k], '\n')
  }

  /** Quiet lines keep the strands and the open strand. */
  lemma {:induction false} RunQuiet(st: ParseState, lines: seq<string>)
    requires QuietLines(lines)
    ensures Run(st, lines).Success?
    ensures Run(st, lines).value.data.strands == st.data.strands && Run(st, lines).value.current == st.current
    decreases |lines|
  {
    if |lines| > 0 {
      var front := lines[..|lines| - 1];
      RunQuiet(st, front);
      QuietStep(Run(st, front).value, Trim(lines[|lines| - 1]));
    }
  }

  /** A line that opens with a fixed label is quiet whatever follows. */
  lemma QuietLead(lit: string, rest: string)
    requires |lit| > 3 && !IsJsSpace(lit[0]) && !IsJsSpace(lit[3])
    requires lit[0] != '-' && lit[0] != 'X' && lit[3] != 'r'
    ensures Quiet(Trim(lit + rest))
  {
    var s := lit + rest;
    TrimKeepsHead(s, 3);
    assert Trim(s)[0] == Trim(s)[..4][0] == s[0];
    assert Trim(s)[3] == Trim(s)[..4][3] == s[3];
  }

  /** The rule line of the reference file: 46 `=` signs. */
  function Rule(): (s: string)
    ensures |s| == 46 && forall k :: 0 <= k < |s| ==> s[k] == '='
  {
    seq(46, _ => '=')
  }

  /** The free-text fields of the preamble: the image id, the display
      name, the formatted file size, the URI, the capture time and the
      capturing user. */
  datatype CaptureInfo = CaptureInfo(imageId: string, displayName: string, fileSize: string, uri: string,
                                     capturedAt: string, capturedBy: string)

  /** The preamble of the reference file, one entry per line: the title,
      the capture details, the strand layout and a closing rule, in groups
      of four lines. */
  function PreambleLines(info: CaptureInfo, width: nat, height: nat): seq<string> {
    [Rule(), "3 VERTICAL PIXEL STRANDS", Rule(), ""] +
    ["Image ID: " + info.imageId, "File Name: " + info.displayName,
     "Image Dimensions: " + (NatToString(width) + " x " + NatToString(height) + " pixels"),
     "File Size: " + info.fileSize] +
    ["URI: " + info.uri, "Captured At: " + info.capturedAt, "Captured By: " + info.capturedBy,
     "Total Strands: 3 (Vertical)"] +
    ["Strand Height: " + (NatToString(height / 3) + " pixels each"), "Format: X,Y,RGB,HEX", "", Rule()] +
    [""]
  }

  /** The extraction summary that closes the reference file. */
  function FooterLines(count1: nat, count2: nat, count3: nat): seq<string> {
    [Rule(), "EXTRACTION SUMMARY", Rule(), "Strand 1 pixels: " + NatToString(count1)] +
    ["Strand 2 pixels: " + NatToString(count2), "Strand 3 pixels: " + NatToString(count3),
     "Total pixels extracted: " + NatToString(count1 + count2 + count3), Rule()]
  }

  /** A fixed label a quiet line can open with: it does not start with
      `-`, `X` or `Star`, and has no white space at its first and fourth
      characters and no line break. */
  predicate Label(lit: string) {
    && |lit| > 3 && !IsJsSpace(lit[0]) && !IsJsSpace(lit[3])
    && lit[0] != '-' && lit[0] != 'X' && lit[3] != 'r'
    && Avoids(lit, '\n')
  }

  /** A line of the preamble or the summary: quiet, and no line break. */
  predicate PlainLine(s: string) {
    Quiet(Trim(s)) && Avoids(s, '\n')
  }

  lemma LabelledLine(lit: string, rest: string)
    requires Label(lit) && Avoids(rest, '\n')
    ensures PlainLine(lit + rest)
  {
    QuietLead(lit, rest);
    AvoidsConcat(lit, rest, '\n');
  }

  /** A fixed line that is a label on its own. */
  lemma FixedLine(lit: string)
    requires Label(lit)
    ensures PlainLine(lit)
  {
    LabelledLine(lit, "");
    assert lit + "" == lit;
  }

  /** The free-text fields hold no line break. */
  predicate SingleLineInfo(info: CaptureInfo) {
    && Avoids(info.imageId, '\n') && Avoids(info.displayName, '\n') && Avoids(info.fileSize, '\n')
    && Avoids(info.uri, '\n') && Avoids(info.capturedAt, '\n') && Avoids(info.capturedBy, '\n')
  }

  lemma PreambleLabels()
    ensures Label("3 VERTICAL PIXEL STRANDS") && Label("Image ID: ") && Label("File Name: ")
    ensures Label("Image Dimensions: ") && Label("File Size: ") && Label("URI: ") && Label("Captured At: ")
    ensures Label("Captured By: ") && Label("Total Strands: 3 (Vertical)") && Label("Strand Height: ")
    ensures Label("Format: X,Y,RGB,HEX")
  {
    DetailLabels();
    LayoutLabels();
  }

  lemma DetailLabels()
    ensures Label("Image ID: ") && Label("File Name: ") && Label("Image Dimensions: ") && Label("File Size: ")
    ensures Label("URI: ") && Label("Captured At: ") && Label("Captured By: ")
  {
  }

  lemma LayoutLabels()
    ensures Label("3 VERTICAL PIXEL STRANDS") && Label("Total Strands: 3 (Vertical)") && Label("Strand Height: ")
    ensures Label("Format: X,Y,RGB,HEX")
  {
  }

  lemma RuleIsPlain()
    ensures PlainLine(Rule()) && PlainLine("")
  {
    RuleLineIsPlain();
    EmptyLineIsPlain();
  }

  lemma RuleLineIsPlain()
    ensures PlainLine(Rule())
  {
    EqualsRunIsPlain(Rule());
  }

  /** A run of at least four `=` signs is a plain line. */
  lemma EqualsRunIsPlain(s: string)
    requires |s| > 3 && forall k :: 0 <= k < |s| ==> s[k] == '='
    ensures PlainLine(s)
  {
    assert s[0] == '=' && s[|s| - 1] == '=';
    TrimUnpadded(s);
  }

  lemma EmptyLineIsPlain()
    ensures PlainLine("")
  {
  }

  lemma PreambleValuesAvoid(width: nat, height: nat)
    ensures Avoids(NatToString(width) + " x " + NatToString(height) + " pixels", '\n')
    ensures Avoids(NatToString(height / 3) + " pixels each", '\n')
  {
    var ws, hs, ss := NatToString(width), NatToString(height), NatToString(height / 3);
    DigitsAvoid(ws, '\n');
    DigitsAvoid(hs, '\n');
    DigitsAvoid(ss, '\n');
    AvoidsConcat(ws, " x ", '\n');
    AvoidsConcat(ws + " x ", hs, '\n');
    AvoidsConcat(ws + " x " + hs, " pixels", '\n');
    AvoidsConcat(ss, " pixels each", '\n');
  }

  predicate PlainLines(lines: seq<string>) {
    forall k :: 0 <= k < |lines| ==> PlainLine(lines[k])
  }

  lemma PlainLinesConcat(a: seq<string>, b: seq<string>)
    requires PlainLines(a) && PlainLines(b)
    ensures PlainLines(a + b)
  {
    forall k | 0 <= k < |a + b| ensures PlainLine((a + b)[k]) {
      if k >= |a| {
        assert (a + b)[k] == b[k - |a|];
      }
    }
  }

  lemma PlainFour(a: string, b: string, c: string, d: string)
    requires PlainLine(a) && PlainLine(b) && PlainLine(c) && PlainLine(d)
    ensures PlainLines([a, b, c, d])
  {
  }

  lemma TitleIsPlain()
    ensures PlainLines([Rule(), "3 VERTICAL PIXEL STRANDS", Rule(), ""])
  {
    PreambleLabels();
    RuleIsPlain();
    FixedLine("3 VERTICAL PIXEL STRANDS");
    PlainFour(Rule(), "3 VERTICAL PIXEL STRANDS", Rule(), "");
  }

  lemma DetailsArePlain(info: CaptureInfo, dims: string)
    requires SingleLineInfo(info) && Avoids(dims, '\n')
    ensures PlainLines(["Image ID: " + info.imageId, "File Name: " + info.displayName, "Image Dimensions: " + dims,
                        "File Size: " + info.fileSize])
    ensures PlainLines(["URI: " + info.uri, "Captured At: " + info.capturedAt, "Captured By: " + info.capturedBy,
                        "Total Strands: 3 (Vertical)"])
  {
    PreambleLabels();
    LabelledLine("Image ID: ", info.imageId);
    LabelledLine("File Name: ", info.displayName);
    LabelledLine("Image Dimensions: ", dims);
    LabelledLine("File Size: ", info.fileSize);
    PlainFour("Image ID: " + info.imageId, "File Name: " + info.displayName, "Image Dimensions: " + dims,
              "File Size: " + info.fileSize);
    LabelledLine("URI: ", info.uri);
    LabelledLine("Captured At: ", info.capturedAt);
    LabelledLine("Captured By: ", info.capturedBy);
    FixedLine("Total Strands: 3 (Vertical)");
    PlainFour("URI: " + info.uri, "Captured At: " + info.capturedAt, "Captured By: " + info.capturedBy,
              "Total Strands: 3 (Vertical)");
  }

  lemma LayoutIsPlain(each: string)
    requires Avoids(each, '\n')
    ensures PlainLines(["Strand Height: " + each, "Format: X,Y,RGB,HEX", "", Rule()])
  {
    PreambleLabels();
    RuleIsPlain();
    LabelledLine("Strand Height: ", each);
    FixedLine("Format: X,Y,RGB,HEX");
    PlainFour("Strand Height: " + each, "Format: X,Y,RGB,HEX", "", Rule());
  }

  /** No preamble line touches the strands or holds a line break. */
  lemma PreambleIsPlain(info: CaptureInfo, width: nat, height: nat)
    requires SingleLineInfo(info)
    ensures PlainLines(PreambleLines(info, width, height))
  {
    var dims := NatToString(width) + " x " + NatToString(height) + " pixels";
    var each := NatToString(height / 3) + " pixels each";
    PreambleValuesAvoid(width, height);
    var g1 := [Rule(), "3 VERTICAL PIXEL STRANDS", Rule(), ""];
    var g2 := ["Image ID: " + info.imageId, "File Name: " + info.displayName, "Image Dimensions: " + dims,
               "File Size: " + info.fileSize];
    var g3 := ["URI: " + info.uri, "Captured At: " + info.capturedAt, "Captured By: " + info.capturedBy,
               "Total Strands: 3 (Vertical)"];
    var g4 := ["Strand Height: " + each, "Format: X,Y,RGB,HEX", "", Rule()];
    TitleIsPlain();
    DetailsArePlain(info, dims);
    LayoutIsPlain(each);
    RuleIsPlain();
    PlainLinesConcat(g1, g2);
    PlainLinesConcat(g1 + g2, g3);
    PlainLinesConcat(g1 + g2 + g3, g4);
    PlainLinesConcat(g1 + g2 + g3 + g4, [""]);
  }

  lemma FooterLabels()
    ensures Label("EXTRACTION SUMMARY") && Label("Strand 1 pixels: ") && Label("Strand 2 pixels: ")
    ensures Label("Strand 3 pixels: ") && Label("Total pixels extracted: ")
  {
  }

  /** No summary line touches the strands or holds a line break. */
  lemma FooterIsPlain(count1: nat, count2: nat, count3: nat)
    ensures PlainLines(FooterLines(count1, count2, count3))
  {
    var c1, c2, c3, t := NatToString(count1), NatToString(count2), NatToString(count3),
                         NatToString(count1 + count2 + count3);
    DigitsAvoid(c1, '\n');
    DigitsAvoid(c2, '\n');
    DigitsAvoid(c3, '\n');
    DigitsAvoid(t, '\n');
    FooterLabels();
    RuleIsPlain();
    FixedLine("EXTRACTION SUMMARY");
    LabelledLine("Strand 1 pixels: ", c1);
    PlainFour(Rule(), "EXTRACTION SUMMARY", Rule(), "Strand 1 pixels: " + c1);
    LabelledLine("Strand 2 pixels: ", c2);
    LabelledLine("Strand 3 pixels: ", c3);
    LabelledLine("Total pixels extracted: ", t);
    PlainFour("Strand 2 pixels: " + c2, "Strand 3 pixels: " + c3, "Total pixels extracted: " + t, Rule());
  }

  lemma PlainLinesAreQuiet(lines: seq<string>)
    requires PlainLines(lines)
    ensures QuietLines(lines) && SingleLines(lines)
  {
  }

  lemma SingleLinesConcat(a: seq<string>, b: seq<string>)
    requires SingleLines(a) && SingleLines(b)
    ensures SingleLines(a + b)
  {
    forall k | 0 <= k < |a + b| ensures Avoids((a + b)[k], '\n') {
      if k >= |a| {
        assert (a + b)[k] == b[k - |a|];
      }
    }
  }

  /** The lines of a strand block hold no line break. */
  lemma BlockIsSingleLines(i: nat, x: nat, y0: nat, yEnd: int, pixels: seq<Pixel>)
    requires i < 3 && forall k :: 0 <= k < |pixels| ==> HexShaped(pixels[k])
    ensures SingleLines(BlockLines(i, x, y0, yEnd, pixels))
  {
    HeaderIsKeyFree(i, i + 1, x, Percents[i]);
    StartIsKeyFree(x, y0, yEnd);
    var texts := PixelTexts(pixels);
    forall k | 0 <= k < |texts| ensures Avoids(texts[k], '\n') {
      PixelTextIsKeyFree(pixels[k]);
    }
    var head := [HeaderText(i + 1, Words[i], x, Percents[i]), StartText(x, y0, yEnd), ""];
    assert SingleLines(head);
    SingleLinesConcat(head, texts);
    SingleLinesConcat(head + texts, [""]);
  }

  lemma StrandBlockIsSingleLines(i: nat, e: Strand, strandHeight: nat)
    requires Writable(i, e)
    ensures SingleLines(StrandBlock(i, e, strandHeight))
  {
    BlockIsSingleLines(i, e.xPosition.value, e.startY.value, e.startY.value + strandHeight - 1, e.pixels);
  }

  /** The three strands are written in order. */
  predicate WritableStrands(strands: seq<Strand>) {
    |strands| == 3 && Writable(0, strands[0]) && Writable(1, strands[1]) && Writable(2, strands[2])
  }

  /** Every line of the reference file the capture app writes for the
      three strands of a `width` by `height` raster: the preamble, the three
      strand blocks and the summary with each strand's pixel count. */
  function WrittenLines(info: CaptureInfo, width: nat, height: nat, strands: seq<Strand>): seq<string>
    requires WritableStrands(strands)
  {
    var sh := StrandHeight(height);
    PreambleLines(info, width, height) + StrandBlock(0, strands[0], sh) + StrandBlock(1, strands[1], sh) +
    StrandBlock(2, strands[2], sh) + FooterLines(|strands[0].pixels|, |strands[1].pixels|, |strands[2].pixels|)
  }

  /** Lines that, read from any state, push the strand open before them
      and leave exactly `e` open, accepting pixel lines. */
  ghost predicate Opens(block: seq<string>, e: Strand) {
    forall s: ParseState {:trigger Run(s, block)} ::
      Run(s, block) == Success(ParseState(s.data.(strands := s.data.strands + Pending(s)), Some(e), true))
  }

  lemma StrandBlockOpens(i: nat, e: Strand, strandHeight: nat)
    requires Writable(i, e)
    ensures Opens(StrandBlock(i, e, strandHeight), e)
  {
    forall s: ParseState
      ensures Run(s, StrandBlock(i, e, strandHeight)) ==
        Success(ParseState(s.data.(strands := s.data.strands + Pending(s)), Some(e), true))
    {
      StrandBlockRoundTrip(s, i, e, strandHeight);
    }
  }

  lemma AppendAssociates(a: seq<string>, b: seq<string>, c: seq<string>)
    ensures a + b + c == a + (b + c)
  {
  }

  /** Reading three blocks that each open one strand, from a state with
      no strand open: the first two are pushed and the third is left
      open. */
  lemma RunOpeningBlocks(s0: ParseState, b0: seq<string>, b1: seq<string>, b2: seq<string>,
                         e0: Strand, e1: Strand, e2: Strand)
    requires s0.current.None? && Opens(b0, e0) && Opens(b1, e1) && Opens(b2, e2)
    ensures Run(s0, b0 + b1 + b2) ==
      Success(ParseState(s0.data.(strands := s0.data.strands + [e0, e1]), Some(e2), true))
  {
    var s1 := ParseState(s0.data, Some(e0), true);
    var s2 := ParseState(s0.data.(strands := s0.data.strands + [e0]), Some(e1), true);
    assert Run(s0, b0) == Success(s1) by {
      assert s0.data.(strands := s0.data.strands + Pending(s0)) == s0.data;
    }
    assert Run(s1, b1) == Success(s2) by {
      assert Pending(s1) == [e0];
    }
    assert Pending(s2) == [e1];
    assert s0.data.strands + [e0] + [e1] == s0.data.strands + [e0, e1];
    RunAppend(s0, b0, b1);
    RunAppend(s0, b0 + b1, b2);
  }

  /** Reading quiet lines, three blocks that each open one strand, quiet
      lines again and the empty piece after the last line break: the first
      two strands are pushed and the third is left open. */
  lemma RunBack(pre: seq<string>, b0: seq<string>, b1: seq<string>, b2: seq<string>, post: seq<string>,
                e0: Strand, e1: Strand, e2: Strand)
    requires PlainLines(pre) && PlainLines(post)
    requires Opens(b0, e0) && Opens(b1, e1) && Opens(b2, e2)
    ensures Run(Initial, pre + b0 + b1 + b2 + post + [""]).Success?
    ensures Run(Initial, pre + b0 + b1 + b2 + post + [""]).value.data.strands == [e0, e1]
    ensures Run(Initial, pre + b0 + b1 + b2 + post + [""]).value.current == Some(e2)
  {
    var front := pre + (b0 + b1 + b2);
    RunFront(pre, b0, b1, b2, e0, e1, e2);
    RunTail(Run(Initial, front).value, post);
    RunAppend(Initial, front, post + [""]);
    FiveParts(pre, b0, b1, b2, post);
  }

  /** Quiet lines and then three opening blocks, from the initial state. */
  lemma RunFront(pre: seq<string>, b0: seq<string>, b1: seq<string>, b2: seq<string>,
                 e0: Strand, e1: Strand, e2: Strand)
    requires PlainLines(pre)
    requires Opens(b0, e0) && Opens(b1, e1) && Opens(b2, e2)
    ensures Run(Initial, pre + (b0 + b1 + b2)).Success?
    ensures Run(Initial, pre + (b0 + b1 + b2)).value.data.strands == [e0, e1]
    ensures Run(Initial, pre + (b0 + b1 + b2)).value.current == Some(e2)
  {
    PlainLinesAreQuiet(pre);
    RunQuiet(Initial, pre);
    RunOpeningBlocks(Run(Initial, pre).value, b0, b1, b2, e0, e1, e2);
    RunAppend(Initial, pre, b0 + b1 + b2);
  }

  /** Quiet lines and the empty piece after the last line break keep the
      strands and the open strand. */
  lemma RunTail(st: ParseState, post: seq<string>)
    requires PlainLines(post)
    ensures Run(st, post + [""]).Success?
    ensures Run(st, post + [""]).value.data.strands == st.data.strands
    ensures Run(st, post + [""]).value.current == st.current
  {
    EmptyLineIsPlain();
    OnePlainLine("");
    PlainLinesConcat(post, [""]);
    PlainLinesAreQuiet(post + [""]);
    RunQuiet(st, post + [""]);
  }

  lemma OnePlainLine(line: string)
    requires PlainLine(line)
    ensures PlainLines([line])
  {
  }

  /** The file's lines, grouped as preamble, blocks and the rest. */
  lemma FiveParts(pre: seq<string>, b0: seq<string>, b1: seq<string>, b2: seq<string>, post: seq<string>)
    ensures pre + b0 + b1 + b2 + post + [""] == pre + (b0 + b1 + b2) + (post + [""])
  {
    AppendAssociates(pre + b0 + b1 + b2, post, [""]);
    AppendAssociates(pre + b0, b1, b2);
    AppendAssociates(pre, b0, b1 + b2);
    AppendAssociates(b0, b1, b2);
  }

  /** Parsing the text of lines whose run leaves two strands pushed and a
      third open: the third is kept only if it has pixels. */
  lemma ParseOfLines(lines: seq<string>, e0: Strand, e1: Strand, e2: Strand)
    requires SingleLines(lines)
    requires var r := Run(Initial, lines + [""]);
      r.Success? && r.value.data.strands == [e0, e1] && r.value.current == Some(e2)
    ensures Parse(JoinLines(lines)).Success?
    ensures Parse(JoinLines(lines)).value.strands == if |e2.pixels| > 0 then [e0, e1, e2] else [e0, e1]
  {
    SplitJoinLines(lines);
  }

  /** Parsing the text of quiet lines, three blocks that each open one
      strand, and quiet lines again: the three strands in order, the last
      one only if it has pixels. */
  lemma ReadBack(pre: seq<string>, b0: seq<string>, b1: seq<string>, b2: seq<string>, post: seq<string>,
                 e0: Strand, e1: Strand, e2: Strand)
    requires PlainLines(pre) && PlainLines(post) && SingleLines(b0) && SingleLines(b1) && SingleLines(b2)
    requires Opens(b0, e0) && Opens(b1, e1) && Opens(b2, e2)
    ensures var r := Parse(JoinLines(pre + b0 + b1 + b2 + post));
      r.Success? && r.value.strands == if |e2.pixels| > 0 then [e0, e1, e2] else [e0, e1]
  {
    PlainLinesAreQuiet(pre);
    PlainLinesAreQuiet(post);
    SingleLinesConcat(pre, b0);
    SingleLinesConcat(pre + b0, b1);
    SingleLinesConcat(pre + b0 + b1, b2);
    SingleLinesConcat(pre + b0 + b1 + b2, post);
    RunBack(pre, b0, b1, b2, post, e0, e1, e2);
    ParseOfLines(pre + b0 + b1 + b2 + post, e0, e1, e2);
  }

  /** A sequence of three strands, displayed. */
  lemma ThreeStrands(strands: seq<Strand>)
    requires |strands| == 3
    ensures strands == [strands[0], strands[1], strands[2]] && strands[..2] == [strands[0], strands[1]]
  {
  }

  /** What the written file's parts offer: a plain preamble and summary,
      and blocks without line breaks that each open their strand. */
  lemma WrittenParts(info: CaptureInfo, width: nat, height: nat, strands: seq<Strand>)
    requires WritableStrands(strands) && SingleLineInfo(info)
    ensures var sh := StrandHeight(height);
      && PlainLines(PreambleLines(info, width, height))
      && PlainLines(FooterLines(|strands[0].pixels|, |strands[1].pixels|, |strands[2].pixels|))
      && SingleLines(StrandBlock(0, strands[0], sh)) && Opens(StrandBlock(0, strands[0], sh), strands[0])
      && SingleLines(StrandBlock(1, strands[1], sh)) && Opens(StrandBlock(1, strands[1], sh), strands[1])
      && SingleLines(StrandBlock(2, strands[2], sh)) && Opens(StrandBlock(2, strands[2], sh), strands[2])
  {
    var sh := StrandHeight(height);
    PreambleIsPlain(info, width, height);
    FooterIsPlain(|strands[0].pixels|, |strands[1].pixels|, |strands[2].pixels|);
    StrandBlockIsSingleLines(0, strands[0], sh);
    StrandBlockIsSingleLines(1, strands[1], sh);
    StrandBlockIsSingleLines(2, strands[2], sh);
    StrandBlockOpens(0, strands[0], sh);
    StrandBlockOpens(1, strands[1], sh);
    StrandBlockOpens(2, strands[2], sh);
  }

  /** The reference file the capture app writes for three strands reads
      back, through `parsePixelDataFile`, as those strands in order; a third
      strand without pixels is dropped, while empty first and second
      strands are kept. */
  lemma WrittenFileRoundTrip(info: CaptureInfo, width: nat, height: nat, strands: seq<Strand>)
    requires WritableStrands(strands) && SingleLineInfo(info)
    ensures var r := Parse(JoinLines(WrittenLines(info, width, height, strands)));
      && r.Success?
      && r.value.strands == if |strands[2].pixels| > 0 then strands else strands[..2]
  {
    var sh := StrandHeight(height);
    WrittenParts(info, width, height, strands);
    ReadBack(PreambleLines(info, width, height), StrandBlock(0, strands[0], sh), StrandBlock(1, strands[1], sh),
             StrandBlock(2, strands[2], sh),
             FooterLines(|strands[0].pixels|, |strands[1].pixels|, |strands[2].pixels|),
             strands[0], strands[1], strands[2]);
    ThreeStrands(strands);
  }

  /** The three strands `extractStrandsFromImage` samples from a raster. */
  function ExtractedStrands(img: Image): (strands: seq<Strand>)
    requires Valid(img) && img.width > 0
    ensures WritableStrands(strands) && |strands[2].pixels| == img.height / 3
  {
    ExtractedIsWritable(img, 0);
    ExtractedIsWritable(img, 1);
    ExtractedIsWritable(img, 2);
    var ps := Positions(img.width, img.height);
    [ExtractedStrand(img, ps[0]), ExtractedStrand(img, ps[1]), ExtractedStrand(img, ps[2])]
  }

  /** The reference file the capture app writes for a raster. */
  function WrittenFile(info: CaptureInfo, img: Image): string
    requires Valid(img) && img.width > 0
  {
    JoinLines(WrittenLines(info, img.width, img.height, ExtractedStrands(img)))
  }

  /** The reference file the capture app writes for a raster reads back as
      the strands `extractStrandsFromImage` samples from it; on a raster
      under three rows every strand is empty and the top one is dropped. */
  lemma WrittenFileMatchesExtraction(info: CaptureInfo, img: Image)
    requires Valid(img) && img.width > 0 && SingleLineInfo(info)
    ensures var r := Parse(WrittenFile(info, img));
      r.Success? && r.value.strands == if img.height >= 3 then ExtractedStrands(img) else ExtractedStrands(img)[..2]
  {
    WrittenFileRoundTrip(info, img.width, img.height, ExtractedStrands(img));
  }
}
