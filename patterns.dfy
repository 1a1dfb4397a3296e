/** The regular expressions of the reference-file parser, as sequences of
    tokens: literal text, a captured `(\d+)` and a captured
    `(#[0-9A-F]{6})`.  In every pattern the parser uses, a `\d+` is followed
    by literal text that starts with a non-digit, by a `#`, or by the end of
    the pattern, so the greedy run of digits is the only one a backtracking
    matcher can accept there; matching is then deterministic. */
module Patterns {
  import opened Wrappers
  import opened Text
  import opened Hex

  datatype Token = Lit(text: string) | Digits | HexCode

  /** A captured group: `parseInt` of a digit run, or the text of a colour
      code. */
  datatype Capture = Number(value: nat) | Code(text: string)

  /** A successful match: where it ends and its groups, left to right. */
  datatype Match = Match(end: nat, groups: seq<Capture>)

  function GroupCount(pat: seq<Token>): nat
    decreases |pat|
  {
    if |pat| == 0 then 0 else (if pat[0].Lit? then 0 else 1) + GroupCount(pat[1..])
  }

  /** The groups fit the pattern: one per non-literal token, of its kind;
      a code is '#' and six upper-case hexadecimal digits. */
  predicate Fits(pat: seq<Token>, caps: seq<Capture>)
    decreases |pat|
  {
    if |pat| == 0 then |caps| == 0
    else match pat[0]
      case Lit(_) => Fits(pat[1..], caps)
      case Digits => |caps| > 0 && caps[0].Number? && Fits(pat[1..], caps[1..])
      case HexCode => |caps| > 0 && caps[0].Code? && |caps[0].text| == 7 && HexColorAt(caps[0].text, 0)
                      && Fits(pat[1..], caps[1..])
  }

  /** A digit run is always followed by a non-digit: by literal text that
      starts with one, or by a colour code. */
  predicate WellFormed(pat: seq<Token>)
    decreases |pat|
  {
    |pat| <= 1 ||
    ((pat[0].Digits? ==> pat[1].HexCode? || (pat[1].Lit? && |pat[1].text| > 0 && !IsDigit(pat[1].text[0])))
     && WellFormed(pat[1..]))
  }

  /** The pattern matched at index `i` of `s`, anchored there. */
  function MatchAt(s: string, i: nat, pat: seq<Token>): (r: Option<Match>)
    requires i <= |s|
    ensures r.Some? ==> i <= r.value.end <= |s| && Fits(pat, r.value.groups)
    decreases |pat|
  {
    if |pat| == 0 then Some(Match(i, []))
    else match pat[0]
      case Lit(t) =>
        if OccursAt(s, t, i) then MatchAt(s, i + |t|, pat[1..]) else None
      case Digits =>
        var n := DigitRun(s, i);
        if n == 0 then None
        else
          assert AllDigits(s[i..i + n]);
          (match MatchAt(s, i + n, pat[1..])
           case None => None
           case Some(m) => Some(Match(m.end, [Number(DigitsValue(s[i..i + n]))] + m.groups)))
      case HexCode =>
        if HexColorAt(s, i) then
          (match MatchAt(s, i + 7, pat[1..])
           case None => None
           case Some(m) => Some(Match(m.end, [Code(s[i..i + 7])] + m.groups)))
        else None
  }

  /** The leftmost index at or after `from` where the pattern matches. */
  function FirstMatch(s: string, pat: seq<Token>, from: nat): (r: Option<nat>)
    requires from <= |s|
    ensures r.Some? ==> from <= r.value <= |s| && MatchAt(s, r.value, pat).Some?
    ensures r.Some? ==> forall j :: from <= j < r.value ==> MatchAt(s, j, pat).None?
    ensures r.None? ==> forall j :: from <= j <= |s| ==> MatchAt(s, j, pat).None?
    decreases |s| - from
  {
    if MatchAt(s, from, pat).Some? then Some(from)
    else if from == |s| then None
    else FirstMatch(s, pat, from + 1)
  }

  /** `s.match(re)` for a regular expression without flags: the leftmost
      match, or null. */
  function Exec(s: string, pat: seq<Token>): (r: Option<Match>)
    ensures r.Some? ==> Fits(pat, r.value.groups)
  {
    match FirstMatch(s, pat, 0)
    case None => None
    case Some(i) => MatchAt(s, i, pat)
  }

  /** A string that is the rendering of a pattern (one that does not end
      in a digit run) is matched from its start, with the rendered groups. */
  lemma ExecOfRendering(s: string, pat: seq<Token>, caps: seq<Capture>)
    requires WellFormed(pat) && Fits(pat, caps) && Render(pat, caps) == s
    requires |pat| > 0 && !pat[|pat| - 1].Digits?
    ensures Exec(s, pat) == Some(Match(|s|, caps))
  {
    RenderMatches(s, 0, pat, caps);
    assert FirstMatch(s, pat, 0) == Some(0);
  }

  /** A pattern that starts with literal text cannot match where the
      text's first character is not. */
  lemma NoMatchBeforeLead(s: string, pat: seq<Token>, k: nat)
    requires |pat| > 0 && pat[0].Lit? && |pat[0].text| > 0 && k <= |s|
    requires forall j :: 0 <= j < k ==> s[j] != pat[0].text[0]
    ensures forall j :: 0 <= j < k ==> MatchAt(s, j, pat).None?
  {
    forall j | 0 <= j < k ensures MatchAt(s, j, pat).None? {
      var t := pat[0].text;
      assert !OccursAt(s, t, j) by {
        if j + |t| <= |s| {
          assert s[j..j + |t|][0] == s[j];
        }
      }
    }
  }

  /** Where the rendering of a pattern that starts with literal text stands
      at index `k`, and the text's first character does not occur before
      `k`, the leftmost match is that rendering. */
  lemma ExecAfterLead(s: string, pat: seq<Token>, caps: seq<Capture>, k: nat)
    requires WellFormed(pat) && Fits(pat, caps)
    requires |pat| > 0 && pat[0].Lit? && |pat[0].text| > 0
    requires k + |Render(pat, caps)| <= |s| && s[k..k + |Render(pat, caps)|] == Render(pat, caps)
    requires pat[|pat| - 1].Digits? ==> k + |Render(pat, caps)| == |s| || !IsDigit(s[k + |Render(pat, caps)|])
    requires forall j :: 0 <= j < k ==> s[j] != pat[0].text[0]
    ensures Exec(s, pat) == Some(Match(k + |Render(pat, caps)|, caps))
  {
    RenderMatches(s, k, pat, caps);
    NoMatchBeforeLead(s, pat, k);
    var f := FirstMatch(s, pat, 0);
    assert f == Some(k);
  }

  /** The same, for a string given as the text before the rendering, the
      rendering and the text after it. */
  lemma ExecOfPiece(s: string, a: string, b: string, c: string, pat: seq<Token>, caps: seq<Capture>)
    requires s == a + b + c
    requires WellFormed(pat) && Fits(pat, caps) && Render(pat, caps) == b
    requires |pat| > 0 && pat[0].Lit? && |pat[0].text| > 0 && Avoids(a, pat[0].text[0])
    requires pat[|pat| - 1].Digits? ==> |c| > 0 && !IsDigit(c[0])
    ensures Exec(s, pat) == Some(Match(|a| + |b|, caps))
  {
    assert s[|a|..|a| + |b|] == b;
    if |c| > 0 {
      assert s[|a| + |b|] == c[0];
    }
    ExecAfterLead(s, pat, caps, |a|);
  }

  /** The value of a `(\d+)` group. */
  function NumberOf(c: Capture): nat {
    if c.Number? then c.value else 0
  }

  /** The text of a `(#[0-9A-F]{6})` group. */
  function TextOf(c: Capture): string {
    if c.Code? then c.text else ""
  }

  /** The text a pattern matches with the given groups: literals as they
      are, numbers in decimal without leading zeros, codes as they are. */
  function Render(pat: seq<Token>, caps: seq<Capture>): string
    requires Fits(pat, caps)
    decreases |pat|
  {
    if |pat| == 0 then ""
    else match pat[0]
      case Lit(t) => t + Render(pat[1..], caps)
      case Digits => NatToString(caps[0].value) + Render(pat[1..], caps[1..])
      case HexCode => caps[0].text + Render(pat[1..], caps[1..])
  }

  /** Rendering a pattern that starts with literal text. */
  lemma RenderLit(t: string, pat: seq<Token>, caps: seq<Capture>)
    requires Fits(pat, caps)
    ensures Fits([Lit(t)] + pat, caps) && Render([Lit(t)] + pat, caps) == t + Render(pat, caps)
  {
    assert ([Lit(t)] + pat)[1..] == pat;
  }

  /** Rendering a pattern that starts with a digit run. */
  lemma RenderDigits(v: nat, pat: seq<Token>, caps: seq<Capture>)
    requires Fits(pat, caps)
    ensures Fits([Digits] + pat, [Number(v)] + caps)
    ensures Render([Digits] + pat, [Number(v)] + caps) == NatToString(v) + Render(pat, caps)
  {
    assert ([Digits] + pat)[1..] == pat;
    assert ([Number(v)] + caps)[1..] == caps;
  }

  /** Rendering a pattern that starts with a colour code. */
  lemma RenderCode(h: string, pat: seq<Token>, caps: seq<Capture>)
    requires |h| == 7 && HexColorAt(h, 0) && Fits(pat, caps)
    ensures Fits([HexCode] + pat, [Code(h)] + caps)
    ensures Render([HexCode] + pat, [Code(h)] + caps) == h + Render(pat, caps)
  {
    assert ([HexCode] + pat)[1..] == pat;
    assert ([Code(h)] + caps)[1..] == caps;
  }

  /** The greedy digit run over a block of digits that ends the string or
      is followed by a non-digit is exactly that block. */
  lemma {:induction false} DigitRunOfBlock(s: string, i: nat, n: nat)
    requires i + n <= |s|
    requires forall k :: i <= k < i + n ==> IsDigit(s[k])
    requires i + n == |s| || !IsDigit(s[i + n])
    ensures DigitRun(s, i) == n
    decreases n
  {
    if n > 0 {
      DigitRunOfBlock(s, i + 1, n - 1);
    }
  }

  /** A piece of a text found in `s` is found in `s` at the shifted
      place. */
  lemma SliceOfSlice(s: string, i: nat, w: string, a: nat, b: nat)
    requires i + |w| <= |s| && s[i..i + |w|] == w && a <= b <= |w|
    ensures s[i + a..i + b] == w[a..b]
  {
    forall k | 0 <= k < b - a
      ensures s[i + a..i + b][k] == w[a..b][k]
    {
      assert s[i + a..i + b][k] == s[i..i + |w|][a + k];
    }
  }

  /** Where a concatenation stands in `s`, so do its two parts. */
  lemma SliceOfConcat(s: string, i: nat, a: string, b: string, w: string)
    requires w == a + b && i + |w| <= |s| && s[i..i + |w|] == w
    ensures s[i..i + |a|] == a && s[i + |a|..i + |a| + |b|] == b
  {
    SliceOfSlice(s, i, a + b, 0, |a|);
    SliceOfSlice(s, i, a + b, |a|, |a + b|);
    assert (a + b)[..|a|] == a && (a + b)[|a|..] == b;
  }

  /** Matching is the inverse of rendering: where the rendering of some
      groups stands in `s` (and, if the pattern ends in a digit run, is not
      followed by a digit), the pattern matches there, ends right after it
      and returns exactly those groups. */
  lemma {:induction false} RenderMatches(s: string, i: nat, pat: seq<Token>, caps: seq<Capture>)
    requires WellFormed(pat) && Fits(pat, caps)
    requires i + |Render(pat, caps)| <= |s| && s[i..i + |Render(pat, caps)|] == Render(pat, caps)
    requires |pat| > 0 && pat[|pat| - 1].Digits? ==>
      i + |Render(pat, caps)| == |s| || !IsDigit(s[i + |Render(pat, caps)|])
    ensures MatchAt(s, i, pat) == Some(Match(i + |Render(pat, caps)|, caps))
    decreases |pat|, 1
  {
    if |pat| > 0 {
      match pat[0]
      case Lit(t) => RenderMatchesLit(s, i, pat, caps);
      case Digits => RenderMatchesDigits(s, i, pat, caps);
      case HexCode => RenderMatchesCode(s, i, pat, caps);
    }
  }

  lemma {:induction false} RenderMatchesLit(s: string, i: nat, pat: seq<Token>, caps: seq<Capture>)
    requires |pat| > 0 && pat[0].Lit? && WellFormed(pat[1..]) && Fits(pat, caps)
    requires i + |Render(pat, caps)| <= |s| && s[i..i + |Render(pat, caps)|] == Render(pat, caps)
    requires pat[|pat| - 1].Digits? ==> i + |Render(pat, caps)| == |s| || !IsDigit(s[i + |Render(pat, caps)|])
    ensures MatchAt(s, i, pat) == Some(Match(i + |Render(pat, caps)|, caps))
    decreases |pat|, 0
  {
    var whole, t, rest := Render(pat, caps), pat[0].text, pat[1..];
    var tail := Render(rest, caps);
    assert whole == t + tail;
    SliceOfConcat(s, i, t, tail, whole);
    RenderMatches(s, i + |t|, rest, caps);
  }

  lemma {:induction false} RenderMatchesDigits(s: string, i: nat, pat: seq<Token>, caps: seq<Capture>)
    requires |pat| > 0 && pat[0].Digits? && WellFormed(pat) && WellFormed(pat[1..]) && Fits(pat, caps)
    requires i + |Render(pat, caps)| <= |s| && s[i..i + |Render(pat, caps)|] == Render(pat, caps)
    requires pat[|pat| - 1].Digits? ==> i + |Render(pat, caps)| == |s| || !IsDigit(s[i + |Render(pat, caps)|])
    ensures MatchAt(s, i, pat) == Some(Match(i + |Render(pat, caps)|, caps))
    decreases |pat|, 0
  {
    var j := DigitsFacts(s, i, pat, caps);
    var tail := Render(pat[1..], caps[1..]);
    RenderMatches(s, j, pat[1..], caps[1..]);
    DigitsStep(s, i, j, pat, caps, j + |tail|);
  }

  /** Where a rendering that starts with a number stands in `s`, the
      greedy digit run reads that number, and the rendering of the rest of
      the pattern follows it. */
  lemma DigitsFacts(s: string, i: nat, pat: seq<Token>, caps: seq<Capture>) returns (j: nat)
    requires |pat| > 0 && pat[0].Digits? && WellFormed(pat) && Fits(pat, caps)
    requires i + |Render(pat, caps)| <= |s| && s[i..i + |Render(pat, caps)|] == Render(pat, caps)
    requires pat[|pat| - 1].Digits? ==> i + |Render(pat, caps)| == |s| || !IsDigit(s[i + |Render(pat, caps)|])
    ensures i < j <= |s| && DigitRun(s, i) == j - i && AllDigits(s[i..j]) && DigitsValue(s[i..j]) == caps[0].value
    ensures Fits(pat[1..], caps[1..])
    ensures var rest, tail := pat[1..], Render(pat[1..], caps[1..]);
      && j + |tail| == i + |Render(pat, caps)| && s[j..j + |tail|] == tail
      && (|rest| > 0 && rest[|rest| - 1].Digits? ==> j + |tail| == |s| || !IsDigit(s[j + |tail|]))
  {
    j := DigitsRead(s, i, pat, caps);
    RestFollows(s, i, j, pat, caps);
  }

  /** The number at the head of such a rendering is read by the greedy
      digit run. */
  lemma DigitsRead(s: string, i: nat, pat: seq<Token>, caps: seq<Capture>) returns (j: nat)
    requires |pat| > 0 && pat[0].Digits? && WellFormed(pat) && Fits(pat, caps)
    requires i + |Render(pat, caps)| <= |s| && s[i..i + |Render(pat, caps)|] == Render(pat, caps)
    requires pat[|pat| - 1].Digits? ==> i + |Render(pat, caps)| == |s| || !IsDigit(s[i + |Render(pat, caps)|])
    ensures j == i + |NatToString(caps[0].value)|
    ensures i < j <= |s| && DigitRun(s, i) == j - i && AllDigits(s[i..j]) && DigitsValue(s[i..j]) == caps[0].value
  {
    NumberHead(s, i, pat, caps);
    j := i + |NatToString(caps[0].value)|;
    RenderedNumber(s, i, caps[0].value);
  }

  /** The number stands first and is not followed by a digit. */
  lemma NumberHead(s: string, i: nat, pat: seq<Token>, caps: seq<Capture>)
    requires |pat| > 0 && pat[0].Digits? && WellFormed(pat) && Fits(pat, caps)
    requires i + |Render(pat, caps)| <= |s| && s[i..i + |Render(pat, caps)|] == Render(pat, caps)
    requires pat[|pat| - 1].Digits? ==> i + |Render(pat, caps)| == |s| || !IsDigit(s[i + |Render(pat, caps)|])
    ensures var d := NatToString(caps[0].value);
      i + |d| <= |s| && s[i..i + |d|] == d && (i + |d| == |s| || !IsDigit(s[i + |d|]))
  {
    DigitsSlices(s, i, pat, caps);
    NonDigitAfterRun(s, i, pat, caps);
  }

  /** The rendering of the rest of the pattern follows the number. */
  lemma RestFollows(s: string, i: nat, j: nat, pat: seq<Token>, caps: seq<Capture>)
    requires |pat| > 0 && pat[0].Digits? && WellFormed(pat) && Fits(pat, caps)
    requires i + |Render(pat, caps)| <= |s| && s[i..i + |Render(pat, caps)|] == Render(pat, caps)
    requires pat[|pat| - 1].Digits? ==> i + |Render(pat, caps)| == |s| || !IsDigit(s[i + |Render(pat, caps)|])
    requires j == i + |NatToString(caps[0].value)|
    ensures Fits(pat[1..], caps[1..])
    ensures var rest, tail := pat[1..], Render(pat[1..], caps[1..]);
      && j + |tail| == i + |Render(pat, caps)| && s[j..j + |tail|] == tail
      && (|rest| > 0 && rest[|rest| - 1].Digits? ==> j + |tail| == |s| || !IsDigit(s[j + |tail|]))
  {
    DigitsSlices(s, i, pat, caps);
    if |pat| > 1 {
      assert pat[1..][|pat| - 2] == pat[|pat| - 1];
    }
  }

  lemma DigitsSlices(s: string, i: nat, pat: seq<Token>, caps: seq<Capture>)
    requires |pat| > 0 && pat[0].Digits? && Fits(pat, caps)
    requires i + |Render(pat, caps)| <= |s| && s[i..i + |Render(pat, caps)|] == Render(pat, caps)
    ensures Fits(pat[1..], caps[1..])
    ensures var d, tail := NatToString(caps[0].value), Render(pat[1..], caps[1..]);
      && |Render(pat, caps)| == |d| + |tail|
      && s[i..i + |d|] == d && s[i + |d|..i + |d| + |tail|] == tail
  {
    RenderOfDigits(pat, caps);
    SliceOfConcat(s, i, NatToString(caps[0].value), Render(pat[1..], caps[1..]), Render(pat, caps));
  }

  /** Rendering a pattern that starts with a digit run, taken apart. */
  lemma RenderOfDigits(pat: seq<Token>, caps: seq<Capture>)
    requires |pat| > 0 && pat[0].Digits? && Fits(pat, caps)
    ensures Fits(pat[1..], caps[1..])
    ensures Render(pat, caps) == NatToString(caps[0].value) + Render(pat[1..], caps[1..])
  {
  }

  /** One step of `MatchAt` over a digit run that ends at `j`. */
  lemma DigitsStep(s: string, i: nat, j: nat, pat: seq<Token>, caps: seq<Capture>, end: nat)
    requires |pat| > 0 && pat[0].Digits? && i < j <= |s| && |caps| > 0 && caps[0].Number?
    requires DigitRun(s, i) == j - i && AllDigits(s[i..j]) && DigitsValue(s[i..j]) == caps[0].value
    requires MatchAt(s, j, pat[1..]) == Some(Match(end, caps[1..]))
    ensures MatchAt(s, i, pat) == Some(Match(end, caps))
  {
    assert [Number(DigitsValue(s[i..j]))] + caps[1..] == caps;
  }

  /** A number rendered in decimal, not followed by a digit, is read back
      by the greedy digit run. */
  lemma RenderedNumber(s: string, i: nat, v: nat)
    requires var d := NatToString(v);
      i + |d| <= |s| && s[i..i + |d|] == d && (i + |d| == |s| || !IsDigit(s[i + |d|]))
    ensures var d := NatToString(v);
      DigitRun(s, i) == |d| && AllDigits(s[i..i + |d|]) && DigitsValue(s[i..i + |d|]) == v
  {
    var d := NatToString(v);
    forall k | i <= k < i + |d| ensures IsDigit(s[k]) {
      assert s[k] == d[k - i];
    }
    DigitRunOfBlock(s, i, |d|);
  }

  /** What follows a rendered number is not a digit. */
  lemma NonDigitAfterRun(s: string, i: nat, pat: seq<Token>, caps: seq<Capture>)
    requires |pat| > 0 && pat[0].Digits? && WellFormed(pat) && Fits(pat, caps)
    requires i + |Render(pat, caps)| <= |s| && s[i..i + |Render(pat, caps)|] == Render(pat, caps)
    requires pat[|pat| - 1].Digits? ==> i + |Render(pat, caps)| == |s| || !IsDigit(s[i + |Render(pat, caps)|])
    ensures var n := |NatToString(caps[0].value)|; i + n == |s| || !IsDigit(s[i + n])
  {
    var whole, rest := Render(pat, caps), pat[1..];
    assert Fits(rest, caps[1..]);
    var d := NatToString(caps[0].value);
    var tail := Render(rest, caps[1..]);
    assert whole == d + tail;
    if |rest| > 0 {
      assert pat[1] == rest[0];
      if rest[0].Lit? {
        assert tail == rest[0].text + Render(rest[1..], caps[1..]);
      } else {
        assert tail == caps[1].text + Render(rest[1..], caps[2..]);
        assert tail[0] == '#';
      }
      assert s[i + |d|] == whole[|d|] == tail[0];
    }
  }

  lemma {:induction false} RenderMatchesCode(s: string, i: nat, pat: seq<Token>, caps: seq<Capture>)
    requires |pat| > 0 && pat[0].HexCode? && WellFormed(pat[1..]) && Fits(pat, caps)
    requires i + |Render(pat, caps)| <= |s| && s[i..i + |Render(pat, caps)|] == Render(pat, caps)
    requires pat[|pat| - 1].Digits? ==> i + |Render(pat, caps)| == |s| || !IsDigit(s[i + |Render(pat, caps)|])
    ensures MatchAt(s, i, pat) == Some(Match(i + |Render(pat, caps)|, caps))
    decreases |pat|, 0
  {
    var whole, rest := Render(pat, caps), pat[1..];
    var c := caps[0].text;
    var tail := Render(rest, caps[1..]);
    assert whole == c + tail;
    SliceOfConcat(s, i, c, tail, whole);
    assert HexColorAt(s, i) by {
      forall k | i + 1 <= k < i + 7 ensures IsUpperHexDigit(s[k]) {
        assert s[k] == c[k - i];
      }
    }
    RenderMatches(s, i + 7, rest, caps[1..]);
    assert caps == [Code(s[i..i + 7])] + caps[1..];
  }
}
