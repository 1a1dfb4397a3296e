/** Hexadecimal colour codes: `rgbToHex` of script.js (`toString(16)`,
    zero-padding to two digits, `toUpperCase`) and the `#[0-9A-F]{6}` shape
    the reference-file parser accepts. */
module Hex {

  predicate IsLowerHexDigit(c: char) {
    ('0' <= c <= '9') || ('a' <= c <= 'f')
  }

  /** `[0-9A-F]`. */
  predicate IsUpperHexDigit(c: char) {
    ('0' <= c <= '9') || ('A' <= c <= 'F')
  }

  /** The value of one hexadecimal digit of either case. */
  function DigitValue(c: char): (v: nat)
    ensures v < 16
  {
    if '0' <= c <= '9' then c as int - '0' as int
    else if 'a' <= c <= 'f' then c as int - 'a' as int + 10
    else if 'A' <= c <= 'F' then c as int - 'A' as int + 10
    else 0
  }

  /** The value of a string of hexadecimal digits, most significant first. */
  function HexValue(s: string): nat
    decreases |s|
  {
    if |s| == 0 then 0 else 16 * HexValue(s[..|s| - 1]) + DigitValue(s[|s| - 1])
  }

  /** The lower-case hexadecimal digit of a value below 16. */
  function LowerDigit(d: nat): (c: char)
    requires d < 16
    ensures IsLowerHexDigit(c) && DigitValue(c) == d
  {
    if d < 10 then ('0' as int + d) as char else ('a' as int + d - 10) as char
  }

  /** `n.toString(16)`: lower-case digits without leading zeros. */
  function ToHex(n: nat): (s: string)
    ensures |s| >= 1 && forall k :: 0 <= k < |s| ==> IsLowerHexDigit(s[k])
    ensures HexValue(s) == n
    ensures |s| == 1 <==> n < 16
    ensures n < 256 ==> |s| <= 2
    decreases n
  {
    var last := [LowerDigit(n % 16)];
    if n < 16 then last
    else
      var prefix := ToHex(n / 16);
      assert (prefix + last)[..|prefix + last| - 1] == prefix;
      prefix + last
  }

  /** `hex.length === 1 ? '0' + hex : hex`. */
  function Pad2(h: string): (p: string)
    ensures |h| == 1 ==> |p| == 2 && p[0] == '0' && p[1] == h[0]
    ensures |h| != 1 ==> p == h
  {
    if |h| == 1 then "0" + h else h
  }

  /** `toUpperCase` on one character, for the ASCII letters. */
  function UpperChar(c: char): (u: char)
    ensures 'a' <= c <= 'z' ==> u as int == c as int - 32
    ensures !('a' <= c <= 'z') ==> u == c
  {
    if 'a' <= c <= 'z' then (c as int - 32) as char else c
  }

  /** `s.toUpperCase()`, character by character. */
  function ToUpper(s: string): (u: string)
    ensures |u| == |s| && forall k :: 0 <= k < |s| ==> u[k] == UpperChar(s[k])
  {
    seq(|s|, k requires 0 <= k < |s| => UpperChar(s[k]))
  }

  /** The two-digit code of one channel, before upper-casing. */
  function ChannelCode(x: nat): string {
    Pad2(ToHex(x))
  }

  /** `rgbToHex(r, g, b)`. */
  function RgbToHex(r: nat, g: nat, b: nat): (hex: string)
    ensures |hex| >= 7 && hex[0] == '#'
  {
    "#" + ToUpper(ChannelCode(r) + ChannelCode(g) + ChannelCode(b))
  }

  /** `#[0-9A-F]{6}` matches at index `i` of `s`. */
  predicate HexColorAt(s: string, i: nat) {
    i + 7 <= |s| && s[i] == '#' && forall k :: i + 1 <= k < i + 7 ==> IsUpperHexDigit(s[k])
  }

  /** The value of the two-digit code at `s[i..i+2]`. */
  function PairValue(s: string, i: nat): nat
    requires i + 2 <= |s|
  {
    16 * DigitValue(s[i]) + DigitValue(s[i + 1])
  }

  /** A channel in 0..255 has a two-digit lower-case code that reads back as
      the channel. */
  lemma ChannelCodeOfByte(x: nat)
    requires x < 256
    ensures var c := ChannelCode(x);
      |c| == 2 && IsLowerHexDigit(c[0]) && IsLowerHexDigit(c[1]) && PairValue(c, 0) == x
  {
    var h := ToHex(x);
    if |h| == 2 {
      assert h[..1] == [h[0]];
      assert HexValue(h[..1]) == 16 * HexValue([]) + DigitValue(h[0]);
    } else {
      assert HexValue(h) == 16 * HexValue(h[..0]) + DigitValue(h[0]);
    }
  }

  /** Upper-casing a hexadecimal digit keeps its value and makes it match
      `[0-9A-F]`. */
  lemma UpperDigit(c: char)
    requires IsLowerHexDigit(c)
    ensures IsUpperHexDigit(UpperChar(c)) && DigitValue(UpperChar(c)) == DigitValue(c)
  {
  }

  /** For channels in 0..255, `rgbToHex` yields '#' and exactly six
      upper-case hexadecimal digits, the three channels' codes in R, G, B
      order: it matches the parser's `#[0-9A-F]{6}`, and each pair reads back
      as its channel. */
  lemma RgbToHexRoundTrip(r: nat, g: nat, b: nat)
    requires r < 256 && g < 256 && b < 256
    ensures var hex := RgbToHex(r, g, b);
      && |hex| == 7 && HexColorAt(hex, 0)
      && PairValue(hex, 1) == r && PairValue(hex, 3) == g && PairValue(hex, 5) == b
  {
    ChannelCodeOfByte(r);
    ChannelCodeOfByte(g);
    ChannelCodeOfByte(b);
    var body := ChannelCode(r) + ChannelCode(g) + ChannelCode(b);
    assert |body| == 6;
    assert forall k :: 0 <= k < 6 ==> IsLowerHexDigit(body[k]);
    var hex := RgbToHex(r, g, b);
    forall k | 1 <= k < 7
      ensures IsUpperHexDigit(hex[k]) && DigitValue(hex[k]) == DigitValue(body[k - 1])
    {
      UpperDigit(body[k - 1]);
    }
  }
}
