/** The JavaScript string operations the reference-file parser and the
    report builders use: `startsWith`, `includes`/`indexOf`, `split` with a
    string separator, `trim`, `parseInt` of a run of decimal digits, and
    decimal printing of a non-negative integer.  Strings are `seq<char>`. */
module Text {
  import opened Wrappers

  /** `s.startsWith(p)`. */
  predicate StartsWith(s: string, p: string) {
    |p| <= |s| && s[..|p|] == p
  }

  /** `p` occurs in `s` at index `i`. */
  predicate OccursAt(s: string, p: string, i: nat) {
    i + |p| <= |s| && s[i..i + |p|] == p
  }

  /** `s.indexOf(p, from)`: the first occurrence of `p` at or after `from`. */
  function IndexOf(s: string, p: string, from: nat): (r: Option<nat>)
    requires from <= |s|
    ensures r.Some? ==> from <= r.value <= |s| && OccursAt(s, p, r.value)
    ensures r.Some? ==> forall j :: from <= j < r.value ==> !OccursAt(s, p, j)
    ensures r.None? ==> forall j :: from <= j <= |s| ==> !OccursAt(s, p, j)
    decreases |s| - from
  {
    if OccursAt(s, p, from) then Some(from)
    else if from == |s| then None
    else IndexOf(s, p, from + 1)
  }

  /** `s.includes(p)`. */
  predicate Includes(s: string, p: string) {
    IndexOf(s, p, 0).Some?
  }

  /** `s.split(sep)` for a non-empty string separator: the pieces between
      successive non-overlapping occurrences, left to right. */
  function Split(s: string, sep: string): (parts: seq<string>)
    requires |sep| > 0
    ensures |parts| >= 1
    ensures |parts| == 1 <==> !Includes(s, sep)
    ensures forall k :: 0 <= k < |parts| ==> |parts[k]| <= |s|
    decreases |s|
  {
    match IndexOf(s, sep, 0)
    case None => [s]
    case Some(i) => [s[..i]] + Split(s[i + |sep|..], sep)
  }

  /** A prefix that ends before the first occurrence of `sep` does not
      contain `sep`. */
  lemma {:induction false} PrefixBeforeFirstOccurrence(s: string, sep: string, i: nat)
    requires |sep| > 0 && i <= |s|
    requires forall j :: 0 <= j < i ==> !OccursAt(s, sep, j)
    ensures !Includes(s[..i], sep)
  {
    var piece := s[..i];
    var r := IndexOf(piece, sep, 0);
    if r.Some? {
      var j := r.value;
      assert OccursAt(piece, sep, j);
      assert piece[j..j + |sep|] == s[j..j + |sep|];
      assert OccursAt(s, sep, j);
      assert false;
    }
  }

  /** No piece produced by `split` contains the separator. */
  lemma {:induction false} SplitPiecesAvoidSeparator(s: string, sep: string, k: nat)
    requires |sep| > 0 && k < |Split(s, sep)|
    ensures !Includes(Split(s, sep)[k], sep)
    decreases |s|
  {
    var r := IndexOf(s, sep, 0);
    if r.Some? {
      var i := r.value;
      var rest := s[i + |sep|..];
      if k == 0 {
        assert Split(s, sep)[0] == s[..i];
        PrefixBeforeFirstOccurrence(s, sep, i);
      } else {
        assert Split(s, sep)[k] == Split(rest, sep)[k - 1];
        SplitPiecesAvoidSeparator(rest, sep, k - 1);
      }
    }
  }

  /** Splitting at the first occurrence, at index `i`: the first piece is
      everything before it and the second starts right after it. */
  lemma {:induction false} SplitAtFirst(s: string, sep: string, i: nat)
    requires |sep| > 0 && OccursAt(s, sep, i)
    requires forall j :: 0 <= j < i ==> !OccursAt(s, sep, j)
    ensures |Split(s, sep)| >= 2
    ensures Split(s, sep)[0] == s[..i]
    ensures Split(s, sep)[1] == Split(s[i + |sep|..], sep)[0]
  {
    var r := IndexOf(s, sep, 0);
    assert r.Some?;
    assert r.value == i;
    assert Split(s, sep) == [s[..i]] + Split(s[i + |sep|..], sep);
  }

  /** An occurrence anywhere makes `includes` true. */
  lemma OccurrenceIsIncluded(s: string, p: string, i: nat)
    requires OccursAt(s, p, i)
    ensures Includes(s, p)
  {
  }

  /** A string that does not include the one-character string `[c]` has no
      `c` anywhere. */
  lemma NotIncludedChar(s: string, c: char)
    requires !Includes(s, [c])
    ensures forall k :: 0 <= k < |s| ==> s[k] != c
  {
    forall k | 0 <= k < |s| ensures s[k] != c {
      if s[k] == c {
        assert s[k..k + 1] == [c];
        OccurrenceIsIncluded(s, [c], k);
      }
    }
  }

  /** A one-character separator occurs exactly where that character is. */
  lemma OneCharOccurrence(s: string, c: char, j: nat)
    ensures OccursAt(s, [c], j) <==> j < |s| && s[j] == c
  {
    if j < |s| {
      assert s[j..j + 1] == [s[j]];
    }
  }

  /** The first piece of a split at a one-character separator runs up to
      the first occurrence of that character, or is the whole string. */
  lemma SplitFirstPieceAtChar(s: string, c: char, k: nat)
    requires k <= |s| && (k == |s| || s[k] == c)
    requires forall j :: 0 <= j < k ==> s[j] != c
    ensures Split(s, [c])[0] == s[..k]
  {
    forall j | 0 <= j <= |s| ensures OccursAt(s, [c], j) <==> j < |s| && s[j] == c {
      OneCharOccurrence(s, c, j);
    }
    if k < |s| {
      SplitAtFirst(s, [c], k);
    } else {
      assert IndexOf(s, [c], 0).None?;
      assert s[..k] == s;
    }
  }

  /** `(pre + c + v).split(c)[1]` where `pre` has no `c`: the part of `v`
      up to its first `c`. */
  lemma SplitSecondPieceAtChar(pre: string, c: char, v: string, k: nat)
    requires forall j :: 0 <= j < |pre| ==> pre[j] != c
    requires k <= |v| && (k == |v| || v[k] == c)
    requires forall j :: 0 <= j < k ==> v[j] != c
    ensures |Split(pre + [c] + v, [c])| >= 2 && Split(pre + [c] + v, [c])[1] == v[..k]
  {
    var s := pre + [c] + v;
    forall j | 0 <= j < |pre| ensures !OccursAt(s, [c], j) {
      OneCharOccurrence(s, c, j);
    }
    OneCharOccurrence(s, c, |pre|);
    SplitAtFirst(s, [c], |pre|);
    assert s[|pre| + 1..] == v;
    SplitFirstPieceAtChar(v, c, k);
  }

  /** No character of `s` is `c`. */
  predicate Avoids(s: string, c: char) {
    forall k :: 0 <= k < |s| ==> s[k] != c
  }

  lemma AvoidsConcat(a: string, b: string, c: char)
    requires Avoids(a, c) && Avoids(b, c)
    ensures Avoids(a + b, c)
  {
    forall k | 0 <= k < |a + b| ensures (a + b)[k] != c {
      if k >= |a| {
        assert (a + b)[k] == b[k - |a|];
      }
    }
  }

  /** A string that lacks one of the characters of `p` does not include `p`. */
  lemma AvoidedCharNotIncluded(s: string, p: string, c: char, k: nat)
    requires k < |p| && p[k] == c && Avoids(s, c)
    ensures !Includes(s, p)
  {
    forall j | 0 <= j <= |s| ensures !OccursAt(s, p, j) {
      if j + |p| <= |s| {
        assert s[j..j + |p|][k] == s[j + k];
      }
    }
  }

  /** Splitting at a character that `pre` lacks: `pre` is the first piece
      and the rest is split on. */
  lemma SplitAtCharHead(pre: string, c: char, rest: string)
    requires Avoids(pre, c)
    ensures Split(pre + [c] + rest, [c]) == [pre] + Split(rest, [c])
  {
    var s := pre + [c] + rest;
    forall j | 0 <= j < |pre| ensures !OccursAt(s, [c], j) {
      OneCharOccurrence(s, c, j);
    }
    OneCharOccurrence(s, c, |pre|);
    assert IndexOf(s, [c], 0) == Some(|pre|);
    assert s[..|pre|] == pre;
    assert s[|pre| + 1..] == rest;
  }

  /** What a writer that ends every line with a newline produces. */
  function JoinLines(lines: seq<string>): string
    decreases |lines|
  {
    if |lines| == 0 then "" else lines[0] + "\n" + JoinLines(lines[1..])
  }

  /** `content.split('\n')` of such a text gives the lines back, and then
      the empty piece after the last newline. */
  lemma {:induction false} SplitJoinLines(lines: seq<string>)
    requires forall i :: 0 <= i < |lines| ==> Avoids(lines[i], '\n')
    ensures Split(JoinLines(lines), "\n") == lines + [""]
    decreases |lines|
  {
    if |lines| == 0 {
      assert !OccursAt("", "\n", 0);
      assert IndexOf("", "\n", 0).None?;
    } else {
      var rest := JoinLines(lines[1..]);
      assert JoinLines(lines) == lines[0] + ['\n'] + rest;
      SplitAtCharHead(lines[0], '\n', rest);
      SplitJoinLines(lines[1..]);
      assert lines == [lines[0]] + lines[1..];
    }
  }

  /** The characters `String.prototype.trim` removes: ECMAScript WhiteSpace
      (including the Unicode space separators) and LineTerminator. */
  predicate IsJsSpace(c: char) {
    c == '\t' || c == '\n' || c == '\U{000B}' || c == '\U{000C}' || c == '\r' ||
    c == ' ' || c == '\U{00A0}' || c == '\U{1680}' || ('\U{2000}' <= c <= '\U{200A}') ||
    c == '\U{2028}' || c == '\U{2029}' || c == '\U{202F}' || c == '\U{205F}' ||
    c == '\U{3000}' || c == '\U{FEFF}'
  }

  /** Removes leading white space; the result is a suffix of `s`. */
  function TrimStart(s: string): (r: string)
    ensures |r| <= |s| && r == s[|s| - |r|..]
    ensures forall i :: 0 <= i < |s| - |r| ==> IsJsSpace(s[i])
    ensures |r| > 0 ==> !IsJsSpace(r[0])
    decreases |s|
  {
    if |s| > 0 && IsJsSpace(s[0]) then TrimStart(s[1..]) else s
  }

  /** Removes trailing white space; the result is a prefix of `s`. */
  function TrimEnd(s: string): (r: string)
    ensures |r| <= |s| && r == s[..|r|]
    ensures forall i :: |r| <= i < |s| ==> IsJsSpace(s[i])
    ensures |r| > 0 ==> !IsJsSpace(r[|r| - 1])
    decreases |s|
  {
    if |s| > 0 && IsJsSpace(s[|s| - 1]) then TrimEnd(s[..|s| - 1]) else s
  }

  /** Number of leading white-space characters `trim` removes. */
  function TrimOffset(s: string): (n: nat)
    ensures n <= |s|
  {
    |s| - |TrimStart(s)|
  }

  /** `s.trim()`. */
  function Trim(s: string): string {
    TrimEnd(TrimStart(s))
  }

  /** `trim` keeps a slice of `s` and neither end of it is white space. */
  lemma TrimIsSlice(s: string)
    ensures var r := Trim(s);
      && (|r| > 0 ==> !IsJsSpace(r[0]) && !IsJsSpace(r[|r| - 1]))
      && TrimOffset(s) + |r| <= |s| && r == s[TrimOffset(s)..TrimOffset(s) + |r|]
  {
    var t := TrimStart(s);
    var r := TrimEnd(t);
    var off := |s| - |t|;
    assert t == s[off..];
    assert r == t[..|r|];
    if |r| > 0 {
      assert r[0] == t[0];
    }
  }

  /** `trim` removes only white space, at both ends. */
  lemma TrimDropsSpaces(s: string)
    ensures var r := Trim(s);
      && (forall i :: 0 <= i < TrimOffset(s) ==> IsJsSpace(s[i]))
      && (forall i :: TrimOffset(s) + |r| <= i < |s| ==> IsJsSpace(s[i]))
  {
    var t := TrimStart(s);
    var r := TrimEnd(t);
    var off := |s| - |t|;
    assert t == s[off..];
    forall i | off + |r| <= i < |s| ensures IsJsSpace(s[i]) {
      assert s[i] == t[i - off];
    }
  }

  /** Trimming keeps a first character that is not white space. */
  lemma TrimKeepsFirst(s: string)
    requires |s| > 0 && !IsJsSpace(s[0])
    ensures |Trim(s)| > 0 && Trim(s)[0] == s[0]
  {
    assert TrimStart(s) == s;
    var r := TrimEnd(s);
    assert !IsJsSpace(s[0]);
    assert |r| > 0;
  }

  /** Trimming keeps the first `n + 1` characters when the first and the
      `n`-th are not white space. */
  lemma TrimKeepsHead(s: string, n: nat)
    requires n < |s| && !IsJsSpace(s[0]) && !IsJsSpace(s[n])
    ensures |Trim(s)| > n && Trim(s)[..n + 1] == s[..n + 1]
  {
    assert TrimStart(s) == s;
    TrimIsSlice(s);
    TrimDropsSpaces(s);
  }

  /** A string with no white space at either end is its own trim. */
  lemma TrimUnpadded(s: string)
    requires |s| > 0 && !IsJsSpace(s[0]) && !IsJsSpace(s[|s| - 1])
    ensures Trim(s) == s
  {
  }

  predicate IsDigit(c: char) {
    '0' <= c <= '9'
  }

  predicate AllDigits(d: string) {
    forall k :: 0 <= k < |d| ==> IsDigit(d[k])
  }

  /** Length of the maximal run of decimal digits starting at `i`
      (what a greedy `\d+` consumes). */
  function DigitRun(s: string, i: nat): (n: nat)
    requires i <= |s|
    ensures i + n <= |s|
    ensures forall k :: i <= k < i + n ==> IsDigit(s[k])
    ensures i + n < |s| ==> !IsDigit(s[i + n])
    decreases |s| - i
  {
    if i < |s| && IsDigit(s[i]) then 1 + DigitRun(s, i + 1) else 0
  }

  /** `parseInt(d)` for a non-empty string of decimal digits. */
  function DigitsValue(d: string): nat
    requires AllDigits(d)
  {
    if |d| == 0 then 0
    else 10 * DigitsValue(d[..|d| - 1]) + (d[|d| - 1] as int - '0' as int)
  }

  /** Decimal digits of `n`, most significant first, without leading zeros
      (`String(n)` for a non-negative integer). */
  function NatToString(n: nat): (s: string)
    ensures |s| >= 1 && AllDigits(s)
    ensures DigitsValue(s) == n
    decreases n
  {
    var last := ['0' + (n % 10) as char];
    if n < 10 then last
    else
      var prefix := NatToString(n / 10);
      assert (prefix + last)[..|prefix + last| - 1] == prefix;
      prefix + last
  }
}
