/**
 * Colour strings of the map display (src/scene.js): parsing `#rrggbb` into three
 * channels with `parseInt(..., 16)`, and the linear blend `getColor` that writes a
 * colour back as `#` followed by two hex digits per channel.
 */
module Colour {
  import opened Common
  import opened JsNumber

  predicate IsHexDigit(ch: char) {
    '0' <= ch <= '9' || 'a' <= ch <= 'f' || 'A' <= ch <= 'F'
  }

  predicate AllHex(s: string) {
    forall k | 0 <= k < |s| :: IsHexDigit(s[k])
  }

  function DigitValue(ch: char): (v: nat)
    requires IsHexDigit(ch)
    ensures v < 16
  {
    if '0' <= ch <= '9' then ch as int - '0' as int
    else if 'a' <= ch <= 'f' then ch as int - 'a' as int + 10
    else ch as int - 'A' as int + 10
  }

  /** The lower-case digit `toString(16)` writes for `d`. */
  function DigitChar(d: nat): (ch: char)
    requires d < 16
    ensures IsHexDigit(ch) && DigitValue(ch) == d
  {
    if d < 10 then ('0' as int + d) as char else ('a' as int + d - 10) as char
  }

  /** The value of a string of hex digits, most significant first. */
  function DigitsValue(s: string): nat
    requires AllHex(s)
  {
    if s == [] then 0 else DigitsValue(s[..|s| - 1]) * 16 + DigitValue(s[|s| - 1])
  }

  /** Length of the longest prefix of `s` made of hex digits. */
  function HexRun(s: string): (n: nat)
    ensures n <= |s| && AllHex(s[..n])
    ensures n < |s| ==> !IsHexDigit(s[n])
  {
    if s != [] && IsHexDigit(s[0]) then
      var n := 1 + HexRun(s[1..]);
      assert s[..n] == [s[0]] + s[1..][..n - 1];
      n
    else 0
  }

  /**
   * `parseInt(s, 16)`: an optional sign, an optional `0x`/`0X` prefix, then the
   * longest run of hex digits; no digit at all gives NaN, here `None`.
   */
  function ParseInt16(s: string): (r: Option<int>)
    ensures s != [] && AllHex(s) ==> r == Some(DigitsValue(s))
    ensures s == [] ==> r == None
  {
    var negative := s != [] && s[0] == '-';
    var unsigned := if s != [] && (s[0] == '-' || s[0] == '+') then s[1..] else s;
    var body :=
      if |unsigned| >= 2 && unsigned[0] == '0' && (unsigned[1] == 'x' || unsigned[1] == 'X')
      then unsigned[2..] else unsigned;
    var n := HexRun(body);
    if n == 0 then None
    else
      assert AllHex(s) ==> body == s && body[..n] == s;
      var magnitude: int := DigitsValue(body[..n]);
      Some(if negative then -magnitude else magnitude)
  }

  /** `String.prototype.substring(start, end)` for `start <= end`: both ends are clamped to the length. */
  function Substring(s: string, start: nat, end: nat): (r: string)
    requires start <= end
    ensures end <= |s| ==> r == s[start..end]
    ensures |s| <= start ==> r == []
  {
    if |s| <= start then [] else if |s| <= end then s[start..] else s[start..end]
  }

  /** `colourStringToRGB`: characters 1-2, 3-4 and 5-6 parsed as hex numbers. */
  function ColourStringToRGB(colour: string): (rgb: seq<Option<int>>)
    ensures |rgb| == 3
    ensures |colour| <= 1 ==> rgb == [None, None, None]
  {
    [ParseInt16(Substring(colour, 1, 3)),
     ParseInt16(Substring(colour, 3, 5)),
     ParseInt16(Substring(colour, 5, 7))]
  }

  /** Hex digits of a non-negative integer, as `toString(16)` writes them (no leading zeros). */
  function ToHex(n: nat): (s: string)
    ensures 1 <= |s| && AllHex(s) && DigitsValue(s) == n
    ensures n < 16 <==> |s| == 1
    ensures 16 <= n < 256 ==> |s| == 2
    ensures 256 <= n ==> 3 <= |s|
  {
    if n < 16 then [DigitChar(n)]
    else
      var s := ToHex(n / 16) + [DigitChar(n % 16)];
      assert s[..|s| - 1] == ToHex(n / 16);
      s
  }

  /** `x.toString(16)` for an integer `x`, negative numbers with a leading minus. */
  function NumberToHex(x: int): string {
    if x < 0 then "-" + ToHex(-x) else ToHex(x)
  }

  /** The `hex` helper of `getColor`: pads a one-character result with a leading `0`. */
  function Hex(x: int): (s: string)
    ensures 2 <= |s|
    ensures 0 <= x < 256 ==> |s| == 2 && AllHex(s) && DigitsValue(s) == x
    ensures 256 <= x ==> 3 <= |s|
    ensures x < 0 ==> s[0] == '-'
  {
    var s := NumberToHex(x);
    if |s| == 1 then
      assert 0 <= x < 16;
      assert ("0" + s)[..1] == "0" && ("0" + s)[1..] == s;
      "0" + s
    else s
  }

  /** A colour string whose three two-character channels are all hex digits. */
  predicate WellFormed(colour: string) {
    |colour| >= 7 && AllHex(colour[1..7])
  }

  /** The three channels of a well-formed colour string. */
  function Channels(colour: string): (c: seq<int>)
    requires WellFormed(colour)
    ensures |c| == 3 && forall k | 0 <= k < 3 :: 0 <= c[k] < 256
    ensures ColourStringToRGB(colour) == [Some(c[0]), Some(c[1]), Some(c[2])]
  {
    HexChannel(colour, 1);
    HexChannel(colour, 3);
    HexChannel(colour, 5);
    [DigitsValue(colour[1..3]), DigitsValue(colour[3..5]), DigitsValue(colour[5..7])]
  }

  /** Each two-character channel of a well-formed colour is hex and below 256. */
  lemma HexChannel(colour: string, i: nat)
    requires WellFormed(colour) && 1 <= i <= 5
    ensures AllHex(colour[i..i + 2]) && DigitsValue(colour[i..i + 2]) < 256
  {
    assert colour[i..i + 2] == [colour[1..7][i - 1], colour[1..7][i]];
    TwoDigitsBound(colour[i..i + 2]);
  }

  lemma TwoDigitsBound(s: string)
    requires |s| == 2 && AllHex(s)
    ensures DigitsValue(s) < 256
  {
    var first := s[..1];
    assert first[..0] == [];
    assert DigitsValue(first) == DigitValue(s[0]);
    assert DigitsValue(s) == DigitValue(s[0]) * 16 + DigitValue(s[1]);
  }

  /** One channel of `getColor`: `ceil(high * prob + low * (1 - prob))`. */
  function Channel(prob: real, low: int, high: int): int {
    Ceil(high as real * prob + low as real * (1.0 - prob))
  }

  /**
   * `getColor(prob, low, high)`: blends the two colours channel by channel and
   * writes the result as `#` and two hex digits per channel (more when a
   * channel leaves 0..255, which `prob` outside [0, 1] can cause).
   */
  function GetColor(prob: real, low: string, high: string): (colour: string)
    requires WellFormed(low) && WellFormed(high)
    ensures |colour| >= 7 && colour[0] == '#'
  {
    var c := Blend(prob, low, high);
    "#" + Hex(c[0]) + Hex(c[1]) + Hex(c[2])
  }

  /** The three blended channels of `getColor`, before they are written in hex. */
  function Blend(prob: real, low: string, high: string): (c: seq<int>)
    requires WellFormed(low) && WellFormed(high)
    ensures |c| == 3
  {
    var lo := Channels(low);
    var hi := Channels(high);
    [Channel(prob, lo[0], hi[0]), Channel(prob, lo[1], hi[1]), Channel(prob, lo[2], hi[2])]
  }

  /** `c` lies between `a` and `b`, whichever is larger. */
  predicate Between(c: int, a: int, b: int) {
    (a <= c <= b) || (b <= c <= a)
  }

  /** `colourStringToRGB` reads back every colour written with two hex digits per channel. */
  lemma RgbRoundTrip(r: int, g: int, b: int)
    requires 0 <= r < 256 && 0 <= g < 256 && 0 <= b < 256
    ensures ColourStringToRGB("#" + Hex(r) + Hex(g) + Hex(b)) == [Some(r), Some(g), Some(b)]
  {
    ChannelSlices(Hex(r), Hex(g), Hex(b));
  }

  /** The three two-character pieces written after `#` are read back from positions 1, 3 and 5. */
  lemma ChannelSlices(a: string, b: string, c: string)
    requires |a| == 2 && |b| == 2 && |c| == 2
    ensures var s := "#" + a + b + c; s[1..3] == a && s[3..5] == b && s[5..7] == c
  {
    var s := "#" + a + b + c;
    assert s == ['#', a[0], a[1], b[0], b[1], c[0], c[1]];
  }

  /**
   * For a probability in [0, 1] the blended channel lies between the low and the
   * high component, and the two ends of the range give exactly those components.
   */
  lemma ChannelBetween(prob: real, low: int, high: int)
    requires 0.0 <= prob <= 1.0
    ensures Between(Channel(prob, low, high), low, high)
    ensures prob == 0.0 ==> Channel(prob, low, high) == low
    ensures prob == 1.0 ==> Channel(prob, low, high) == high
  {
    var d := (high - low) as real;
    var v := high as real * prob + low as real * (1.0 - prob);
    calc {
      v;
      low as real + d * prob;
    }
    ShareOf(d, prob);
    var c := Channel(prob, low, high);
    assert v <= c as real < v + 1.0;
    if low <= high {
      assert low as real <= v <= high as real;
    } else {
      assert high as real <= v <= low as real;
    }
  }

  /** A share `p` in [0, 1] of `d` lies between 0 and `d`. */
  lemma ShareOf(d: real, p: real)
    requires 0.0 <= p <= 1.0
    ensures 0.0 <= d ==> 0.0 <= d * p <= d
    ensures d < 0.0 ==> d <= d * p <= 0.0
    ensures p == 0.0 ==> d * p == 0.0
    ensures p == 1.0 ==> d * p == d
  {
  }

  /**
   * `getColor` writes its blended channels so that `colourStringToRGB` reads
   * them back, and with a probability in [0, 1] each of them lies between the
   * low and the high colour's.
   */
  lemma GetColorBetween(prob: real, low: string, high: string)
    requires WellFormed(low) && WellFormed(high) && 0.0 <= prob <= 1.0
    ensures var c := Blend(prob, low, high);
      ColourStringToRGB(GetColor(prob, low, high)) == [Some(c[0]), Some(c[1]), Some(c[2])]
    ensures forall k | 0 <= k < 3 :: Between(Blend(prob, low, high)[k], Channels(low)[k], Channels(high)[k])
  {
    var lo, hi := Channels(low), Channels(high);
    var c := Blend(prob, low, high);
    forall k | 0 <= k < 3
      ensures Between(c[k], lo[k], hi[k]) && 0 <= c[k] < 256
    {
      ChannelBetween(prob, lo[k], hi[k]);
    }
    RgbRoundTrip(c[0], c[1], c[2]);
  }

  /** Probability 0 gives the low colour and probability 1 the high colour. */
  lemma GetColorEnds(low: string, high: string)
    requires WellFormed(low) && WellFormed(high)
    ensures ColourStringToRGB(GetColor(0.0, low, high)) == ColourStringToRGB(low)
    ensures ColourStringToRGB(GetColor(1.0, low, high)) == ColourStringToRGB(high)
  {
    var lo, hi := Channels(low), Channels(high);
    ChannelBetween(0.0, lo[0], hi[0]);
    ChannelBetween(0.0, lo[1], hi[1]);
    ChannelBetween(0.0, lo[2], hi[2]);
    ChannelBetween(1.0, lo[0], hi[0]);
    ChannelBetween(1.0, lo[1], hi[1]);
    ChannelBetween(1.0, lo[2], hi[2]);
    assert Blend(0.0, low, high) == lo;
    assert Blend(1.0, low, high) == hi;
    RgbRoundTrip(lo[0], lo[1], lo[2]);
    RgbRoundTrip(hi[0], hi[1], hi[2]);
  }
}
