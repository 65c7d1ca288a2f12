/**
 * The two helpers of utils.ts: the unclamped affine range remap and the
 * colour-literal parser (`#RGB`, `#RRGGBB`, `#RRGGBBAA`, `rgb(…)`, `rgba(…)`),
 * whose malformed inputs degrade to defaults, NaN or `undefined` instead of
 * failing.
 */
module Utils {
  import opened Js

  // ---------------------------------------------------------------------
  // mapRange

  /**
   * Maps `value` affinely from `[fromLow, fromHigh]` onto `[toLow, toHigh]`,
   * without clamping. The source does not guard the zero divisor; here a
   * degenerate source range is excluded.
   */
  function MapRange(value: real, fromLow: real, fromHigh: real, toLow: real, toHigh: real): (r: real)
    requires fromHigh != fromLow
    ensures value == fromLow ==> r == toLow
    ensures value == fromHigh ==> r == toHigh
  {
    var percentage := (value - fromLow) / (fromHigh - fromLow);
    toLow + percentage * (toHigh - toLow)
  }

  /** With the same range on both sides the remap is the identity. */
  lemma MapRangeIdentity(value: real, low: real, high: real)
    requires high != low
    ensures MapRange(value, low, high, low, high) == value
  {
    var d := high - low;
    assert (value - low) / d * d == value - low;
  }

  /**
   * The remap is affine everywhere, inside the range or not: a difference of
   * results times the source width is the difference of values times the
   * target width.
   */
  lemma MapRangeAffine(v: real, w: real, fromLow: real, fromHigh: real, toLow: real, toHigh: real)
    requires fromHigh != fromLow
    ensures (MapRange(v, fromLow, fromHigh, toLow, toHigh) - MapRange(w, fromLow, fromHigh, toLow, toHigh)) * (fromHigh - fromLow)
         == (v - w) * (toHigh - toLow)
  {
    var d, k := fromHigh - fromLow, toHigh - toLow;
    var p, q := (v - fromLow) / d, (w - fromLow) / d;
    assert p * d == v - fromLow && q * d == w - fromLow;
    assert MapRange(v, fromLow, fromHigh, toLow, toHigh) - MapRange(w, fromLow, fromHigh, toLow, toHigh) == (p - q) * k;
    assert (p - q) * k * d == (p * d - q * d) * k;
  }

  /** With both ranges increasing, the remap is strictly increasing. */
  lemma MapRangeIncreasing(v: real, w: real, fromLow: real, fromHigh: real, toLow: real, toHigh: real)
    requires fromHigh > fromLow && toHigh > toLow
    requires v < w
    ensures MapRange(v, fromLow, fromHigh, toLow, toHigh) < MapRange(w, fromLow, fromHigh, toLow, toHigh)
  {
    MapRangeAffine(w, v, fromLow, fromHigh, toLow, toHigh);
    PositiveFactor(MapRange(w, fromLow, fromHigh, toLow, toHigh) - MapRange(v, fromLow, fromHigh, toLow, toHigh),
                   fromHigh - fromLow, w - v, toHigh - toLow);
  }

  /** Nothing is clamped: a value past either end of the source range lands past that end of the target range. */
  lemma MapRangeUnclamped(v: real, fromLow: real, fromHigh: real, toLow: real, toHigh: real)
    requires fromHigh > fromLow && toHigh > toLow
    ensures v > fromHigh ==> MapRange(v, fromLow, fromHigh, toLow, toHigh) > toHigh
    ensures v < fromLow ==> MapRange(v, fromLow, fromHigh, toLow, toHigh) < toLow
  {
    if v > fromHigh {
      MapRangeIncreasing(fromHigh, v, fromLow, fromHigh, toLow, toHigh);
    }
    if v < fromLow {
      MapRangeIncreasing(v, fromLow, fromLow, fromHigh, toLow, toHigh);
    }
  }

  /** A number that, times a positive number, equals a product of positive numbers is itself positive. */
  lemma PositiveFactor(x: real, d: real, a: real, b: real)
    requires d > 0.0 && a > 0.0 && b > 0.0
    requires x * d == a * b
    ensures x > 0.0
  {
    assert a * b > 0.0;
  }

  // ---------------------------------------------------------------------
  // colorToRGBA

  /** The four channels a colour literal is parsed into. */
  datatype Rgba = Rgba(r: Num, g: Num, b: Num, a: Num)

  /** Opaque white: the initial value of every channel and the answer for unrecognised input. */
  const White := Rgba(Val(1.0), Val(1.0), Val(1.0), Val(1.0))

  /** One decimal channel of `rgb(…)`/`rgba(…)`: `parseInt(part) / 255`. */
  function DecimalChannel(part: string): (r: Num)
    ensures ParseInt(part, 0).Val? ==> r == Val(ParseInt(part, 0).v / 255.0)
    ensures ParseInt(part, 0) == NaN ==> r == NaN
  {
    DivBy(ParseInt(part, 0), 255.0)
  }

  /** One hexadecimal channel: `parseInt(digits, 16) / 255`. */
  function HexChannel(digits: string): (r: Num)
    ensures ParseInt(digits, 16).Val? ==> r == Val(ParseInt(digits, 16).v / 255.0)
    ensures ParseInt(digits, 16) == NaN ==> r == NaN
  {
    DivBy(ParseInt(digits, 16), 255.0)
  }

  /** `parts.map(n => parseInt(n) / 255)`. */
  function DecimalChannels(parts: seq<string>): seq<Num> {
    seq(|parts|, i requires 0 <= i < |parts| => DecimalChannel(parts[i]))
  }

  /** Element `i` of an array on the right of a destructuring assignment: `undefined` past its end. */
  function Nth(xs: seq<Num>, i: nat): Num {
    if i < |xs| then xs[i] else Undef
  }

  /**
   * `colorToRGBA(color)`. Every channel starts at 1; the first matching
   * prefix of `rgba`, `rgb`, `#` overwrites some of them. `rgba` and `rgb`
   * drop their prefix and the last character; `#` drops only itself.
   */
  function ColorToRGBA(color: Option<string>): (c: Rgba)
    ensures color.None? || color == Some("") ==> c == White
    ensures color.Some? && !StartsWith(color.value, "rgb") && !StartsWith(color.value, "#") ==> c == White
    ensures c.r != Undef && c.a != Undef
    ensures color.Some? && !StartsWith(color.value, "rgba") ==> c.a == Val(1.0) || |color.value| == 9
  {
    if color.None? || color.value == "" then White
    else
      var s := color.value;
      RgbaStartsRgb(s);
      if StartsWith(s, "rgba") then FromRgba(Slice(s, 5, -1))
      else if StartsWith(s, "rgb") then FromRgb(Slice(s, 4, -1))
      else if StartsWith(s, "#") then FromHex(SliceFrom(s, 1))
      else White
  }

  /**
   * The `rgba` branch on the text between the parentheses: split on commas,
   * the first three parts read with `parseInt(…) / 255`, the fourth read with
   * `parseFloat` and not divided; a missing fourth part is read as the string
   * "undefined", a missing colour part is `undefined`.
   */
  function FromRgba(body: string): (c: Rgba)
    ensures c.r != Undef && c.a != Undef
  {
    var parts := Split(body, ',');
    var channels := DecimalChannels(parts);
    Rgba(Nth(channels, 0), Nth(channels, 1), Nth(channels, 2),
         ParseFloat(if |parts| > 3 then parts[3] else "undefined"))
  }

  /** The `rgb` branch: as `rgba`, but alpha keeps its initial 1. */
  function FromRgb(body: string): (c: Rgba)
    ensures c.r != Undef && c.a == Val(1.0)
  {
    var channels := DecimalChannels(Split(body, ','));
    Rgba(Nth(channels, 0), Nth(channels, 1), Nth(channels, 2), Val(1.0))
  }

  /** The `#` branch, dispatched on the length of the digits: 3, 6 or 8; anything else keeps white. */
  function FromHex(hex: string): (c: Rgba)
    ensures |hex| != 3 && |hex| != 6 && |hex| != 8 ==> c == White
    ensures |hex| != 8 ==> c.a == Val(1.0)
  {
    if |hex| == 3 then
      Rgba(HexChannel([hex[0], hex[0]]), HexChannel([hex[1], hex[1]]), HexChannel([hex[2], hex[2]]), Val(1.0))
    else if |hex| == 6 then
      Rgba(HexChannel(Slice(hex, 0, 2)), HexChannel(Slice(hex, 2, 4)), HexChannel(Slice(hex, 4, 6)), Val(1.0))
    else if |hex| == 8 then
      Rgba(HexChannel(Slice(hex, 0, 2)), HexChannel(Slice(hex, 2, 4)), HexChannel(Slice(hex, 4, 6)),
           HexChannel(Slice(hex, 6, 8)))
    else White
  }

  /** Whatever starts with `rgba` starts with `rgb`: the branch order decides between them. */
  lemma RgbaStartsRgb(s: string)
    ensures StartsWith(s, "rgba") ==> StartsWith(s, "rgb")
  {
    if StartsWith(s, "rgba") {
      assert s[..3] == s[..4][..3];
      assert "rgba"[..3] == "rgb";
    }
  }

  /** A string whose first character differs from that of `p` does not start with `p`. */
  lemma FirstCharDiffers(s: string, p: string)
    requires |s| > 0 && |p| > 0 && s[0] != p[0]
    ensures !StartsWith(s, p)
  {
    if |p| <= |s| {
      assert s[..|p|][0] == s[0];
    }
  }

  /** A colour starting with `#` is read by the hexadecimal branch. */
  lemma RoutesToHex(hex: string)
    ensures ColorToRGBA(Some("#" + hex)) == FromHex(hex)
  {
    var s := "#" + hex;
    FirstCharDiffers(s, "rgb");
    FirstCharDiffers(s, "rgba");
    assert s[..1] == "#";
    assert SliceFrom(s, 1) == hex;
  }

  /** A colour `rgb(` + body + one last character is read by the `rgb` branch on body. */
  lemma RoutesToRgb(body: string, last: char)
    ensures ColorToRGBA(Some("rgb(" + body + [last])) == FromRgb(body)
  {
    var s := "rgb(" + body + [last];
    assert s[..4] == "rgb(" && s[..3] == "rgb";
    assert !StartsWith(s, "rgba") by { assert s[3] != 'a'; assert s[..4][3] == s[3]; }
    assert Slice(s, 4, -1) == body;
  }

  /** A colour `rgba(` + body + one last character is read by the `rgba` branch on body. */
  lemma RoutesToRgba(body: string, last: char)
    ensures ColorToRGBA(Some("rgba(" + body + [last])) == FromRgba(body)
  {
    var s := "rgba(" + body + [last];
    assert s[..5] == "rgba(" && s[..4] == "rgba";
    assert Slice(s, 5, -1) == body;
  }

  /** `#` followed by a string whose length is not 3, 6 or 8 leaves every channel at 1. */
  lemma HexOtherLengthIsWhite(hex: string)
    requires |hex| != 3 && |hex| != 6 && |hex| != 8
    ensures ColorToRGBA(Some("#" + hex)) == White
  {
    RoutesToHex(hex);
  }

  /** What a hexadecimal digit written twice contributes: `17 * d / 255`, or NaN for anything else. */
  function ShortHexChannel(c: char): Num {
    if IsDigit(c, 16) then Val((17 * DigitVal(c)) as real / 255.0) else NaN
  }

  /** The three-digit branch doubles each digit into a pair. */
  lemma ThreeDigits(c0: char, c1: char, c2: char)
    ensures FromHex([c0, c1, c2]) == Rgba(HexChannel([c0, c0]), HexChannel([c1, c1]), HexChannel([c2, c2]), Val(1.0))
  {
  }

  /** One channel of `#RGB`. */
  lemma DoubledChannel(c: char)
    ensures HexChannel([c, c]) == ShortHexChannel(c)
  {
    ParseHexDoubled(c);
    if IsDigit(c, 16) {
      ParsedHexChannel([c, c], 17 * DigitVal(c));
    }
  }

  /** Three digits: each channel is `17 * d / 255`, an invalid digit gives NaN, and alpha stays 1. */
  lemma FromShortHex(c0: char, c1: char, c2: char)
    ensures FromHex([c0, c1, c2]) == Rgba(ShortHexChannel(c0), ShortHexChannel(c1), ShortHexChannel(c2), Val(1.0))
  {
    ThreeDigits(c0, c1, c2);
    DoubledChannel(c0);
    DoubledChannel(c1);
    DoubledChannel(c2);
  }

  /** `#RGB`: each digit is doubled, so a channel is `17 * d / 255`; an invalid digit gives NaN; alpha stays 1. */
  lemma ShortHex(c0: char, c1: char, c2: char)
    ensures ColorToRGBA(Some("#" + [c0, c1, c2])) == Rgba(ShortHexChannel(c0), ShortHexChannel(c1), ShortHexChannel(c2), Val(1.0))
  {
    RoutesToHex([c0, c1, c2]);
    FromShortHex(c0, c1, c2);
  }

  /** Three copies of the largest hexadecimal digit give opaque white. */
  lemma ShortHexTop(c: char)
    requires DigitVal(c) == 15
    ensures ColorToRGBA(Some("#" + [c, c, c])) == White
  {
    ShortHex(c, c, c);
    TopDigitChannel(c);
  }

  /** The largest hexadecimal digit, doubled, is the full channel 1. */
  lemma TopDigitChannel(c: char)
    requires DigitVal(c) == 15
    ensures ShortHexChannel(c) == Val(1.0)
  {
    assert IsDigit(c, 16);
    assert (17 * DigitVal(c)) as real == 255.0;
  }

  /** `"#fff"` is opaque white. */
  lemma ShortWhite()
    ensures ColorToRGBA(Some("#fff")) == White
  {
    assert "#fff" == "#" + ['f', 'f', 'f'];
    ShortHexTop('f');
  }

  /** A channel whose digits parse to `n` in radix 16 is `n / 255`. */
  lemma ParsedHexChannel(digits: string, n: int)
    requires ParseInt(digits, 16) == Val(n as real)
    ensures HexChannel(digits) == Val(n as real / 255.0)
  {
  }

  /** Two hexadecimal digits. */
  predicate HexPair(p: string) {
    |p| == 2 && IsDigit(p[0], 16) && IsDigit(p[1], 16)
  }

  /** The byte spelled by a pair of hexadecimal digits. */
  function PairByte(p: string): (b: nat)
    requires HexPair(p)
    ensures b <= 255
  {
    16 * DigitVal(p[0]) + DigitVal(p[1])
  }

  /** A pair of hexadecimal digits is read as one byte divided by 255. */
  lemma PairChannel(p: string)
    requires HexPair(p)
    ensures HexChannel(p) == Val(PairByte(p) as real / 255.0)
  {
    ParseHexPair(p);
  }

  /** The six-digit branch reads three consecutive pairs of digits. */
  lemma SixDigits(p0: string, p1: string, p2: string)
    requires |p0| == 2 && |p1| == 2 && |p2| == 2
    ensures FromHex(p0 + p1 + p2) == Rgba(HexChannel(p0), HexChannel(p1), HexChannel(p2), Val(1.0))
  {
    var hex := p0 + p1 + p2;
    assert Slice(hex, 0, 2) == p0;
    assert Slice(hex, 2, 4) == p1;
    assert Slice(hex, 4, 6) == p2;
  }

  /** The eight-digit branch reads four consecutive pairs of digits, the fourth as alpha. */
  lemma EightDigits(p0: string, p1: string, p2: string, p3: string)
    requires |p0| == 2 && |p1| == 2 && |p2| == 2 && |p3| == 2
    ensures FromHex(p0 + p1 + p2 + p3) == Rgba(HexChannel(p0), HexChannel(p1), HexChannel(p2), HexChannel(p3))
  {
    var hex := p0 + p1 + p2 + p3;
    assert Slice(hex, 0, 2) == p0;
    assert Slice(hex, 2, 4) == p1;
    assert Slice(hex, 4, 6) == p2;
    assert Slice(hex, 6, 8) == p3;
  }

  /** Six valid hexadecimal digits: each pair is one byte divided by 255; alpha stays 1. */
  lemma FromSixDigits(p0: string, p1: string, p2: string)
    requires HexPair(p0) && HexPair(p1) && HexPair(p2)
    ensures FromHex(p0 + p1 + p2)
         == Rgba(Val(PairByte(p0) as real / 255.0), Val(PairByte(p1) as real / 255.0), Val(PairByte(p2) as real / 255.0), Val(1.0))
  {
    SixDigits(p0, p1, p2);
    PairChannel(p0);
    PairChannel(p1);
    PairChannel(p2);
  }

  /** Eight valid hexadecimal digits: each pair is one byte divided by 255, the fourth giving alpha. */
  lemma FromEightDigits(p0: string, p1: string, p2: string, p3: string)
    requires HexPair(p0) && HexPair(p1) && HexPair(p2) && HexPair(p3)
    ensures FromHex(p0 + p1 + p2 + p3)
         == Rgba(Val(PairByte(p0) as real / 255.0), Val(PairByte(p1) as real / 255.0), Val(PairByte(p2) as real / 255.0),
                 Val(PairByte(p3) as real / 255.0))
  {
    EightDigits(p0, p1, p2, p3);
    PairChannel(p0);
    PairChannel(p1);
    PairChannel(p2);
    PairChannel(p3);
  }

  /** `#RRGGBB` with valid digits: each pair is one byte divided by 255; alpha stays 1. */
  lemma LongHex6(p0: string, p1: string, p2: string)
    requires HexPair(p0) && HexPair(p1) && HexPair(p2)
    ensures ColorToRGBA(Some("#" + (p0 + p1 + p2)))
         == Rgba(Val(PairByte(p0) as real / 255.0), Val(PairByte(p1) as real / 255.0), Val(PairByte(p2) as real / 255.0), Val(1.0))
  {
    RoutesToHex(p0 + p1 + p2);
    FromSixDigits(p0, p1, p2);
  }

  /** `#RRGGBBAA` with valid digits: each pair is one byte divided by 255, the fourth giving alpha. */
  lemma LongHex8(p0: string, p1: string, p2: string, p3: string)
    requires HexPair(p0) && HexPair(p1) && HexPair(p2) && HexPair(p3)
    ensures ColorToRGBA(Some("#" + (p0 + p1 + p2 + p3)))
         == Rgba(Val(PairByte(p0) as real / 255.0), Val(PairByte(p1) as real / 255.0), Val(PairByte(p2) as real / 255.0),
                 Val(PairByte(p3) as real / 255.0))
  {
    RoutesToHex(p0 + p1 + p2 + p3);
    FromEightDigits(p0, p1, p2, p3);
  }

  /** A channel in `[0, 1]`. */
  predicate Unit(x: Num) {
    x.Val? && 0.0 <= x.v <= 1.0
  }

  /** Valid long hexadecimal colours give every channel in `[0, 1]`. */
  lemma LongHexInUnitRange(p0: string, p1: string, p2: string, p3: string)
    requires HexPair(p0) && HexPair(p1) && HexPair(p2) && HexPair(p3)
    ensures var c := ColorToRGBA(Some("#" + (p0 + p1 + p2))); Unit(c.r) && Unit(c.g) && Unit(c.b) && Unit(c.a)
    ensures var c := ColorToRGBA(Some("#" + (p0 + p1 + p2 + p3))); Unit(c.r) && Unit(c.g) && Unit(c.b) && Unit(c.a)
  {
    LongHex6(p0, p1, p2);
    LongHex8(p0, p1, p2, p3);
  }

  /** The two-digit rendering of a byte is a pair of digits spelling that byte. */
  lemma Hex2Pair(n: nat)
    requires n < 256
    ensures HexPair(Hex2(n)) && PairByte(Hex2(n)) == n
  {
  }

  /** `#RRGGBB` spelled from three bytes reads back those bytes over 255, with alpha 1. */
  lemma Hex6RoundTrip(r: nat, g: nat, b: nat)
    requires r < 256 && g < 256 && b < 256
    ensures ColorToRGBA(Some("#" + (Hex2(r) + Hex2(g) + Hex2(b))))
         == Rgba(Val(r as real / 255.0), Val(g as real / 255.0), Val(b as real / 255.0), Val(1.0))
  {
    Hex2Pair(r);
    Hex2Pair(g);
    Hex2Pair(b);
    LongHex6(Hex2(r), Hex2(g), Hex2(b));
  }

  /** `#RRGGBBAA` spelled from four bytes reads back those bytes over 255, the fourth as alpha. */
  lemma Hex8RoundTrip(r: nat, g: nat, b: nat, a: nat)
    requires r < 256 && g < 256 && b < 256 && a < 256
    ensures ColorToRGBA(Some("#" + (Hex2(r) + Hex2(g) + Hex2(b) + Hex2(a))))
         == Rgba(Val(r as real / 255.0), Val(g as real / 255.0), Val(b as real / 255.0), Val(a as real / 255.0))
  {
    Hex2Pair(r);
    Hex2Pair(g);
    Hex2Pair(b);
    Hex2Pair(a);
    LongHex8(Hex2(r), Hex2(g), Hex2(b), Hex2(a));
  }

  /** A decimal rendering holds no comma, so it is one part of a comma-separated list. */
  lemma DecNoComma(n: nat)
    ensures ',' !in Dec(n)
  {
    assert !IsDigit(',', 10);
  }

  /** A part that parses to `n` in the default radix gives the channel `n / 255`. */
  lemma ParsedDecimalChannel(part: string, n: int)
    requires ParseInt(part, 0) == Val(n as real)
    ensures DecimalChannel(part) == Val(n as real / 255.0)
  {
  }

  /** The decimal rendering of `n` as a part gives the channel `n / 255`. */
  lemma DecChannel(n: nat)
    ensures DecimalChannel(Dec(n)) == Val(n as real / 255.0)
  {
    ParseIntDec(n);
    ParsedDecimalChannel(Dec(n), n);
  }

  /** The `rgb` branch on three comma-free parts: one channel per part, alpha 1. */
  lemma RgbParts(p0: string, p1: string, p2: string)
    requires ',' !in p0 && ',' !in p1 && ',' !in p2
    ensures FromRgb(Join([p0, p1, p2], ',')) == Rgba(DecimalChannel(p0), DecimalChannel(p1), DecimalChannel(p2), Val(1.0))
  {
    SplitJoin([p0, p1, p2], ',');
  }

  /** The `rgba` branch on four comma-free parts: one channel per colour part, alpha is `parseFloat` of the fourth. */
  lemma RgbaParts(p0: string, p1: string, p2: string, p3: string)
    requires ',' !in p0 && ',' !in p1 && ',' !in p2 && ',' !in p3
    ensures FromRgba(Join([p0, p1, p2, p3], ','))
         == Rgba(DecimalChannel(p0), DecimalChannel(p1), DecimalChannel(p2), ParseFloat(p3))
  {
    SplitJoin([p0, p1, p2, p3], ',');
  }

  /**
   * `rgb(r,g,b)` followed by any last character: each channel is the decimal
   * value divided by 255, not clamped, so a part above 255 gives a channel
   * above 1; alpha stays 1. The last character is dropped whatever it is.
   */
  lemma RgbDecimal(r: nat, g: nat, b: nat, last: char)
    ensures ColorToRGBA(Some("rgb(" + Join([Dec(r), Dec(g), Dec(b)], ',') + [last]))
         == Rgba(Val(r as real / 255.0), Val(g as real / 255.0), Val(b as real / 255.0), Val(1.0))
  {
    RoutesToRgb(Join([Dec(r), Dec(g), Dec(b)], ','), last);
    DecNoComma(r);
    DecNoComma(g);
    DecNoComma(b);
    RgbParts(Dec(r), Dec(g), Dec(b));
    DecChannel(r);
    DecChannel(g);
    DecChannel(b);
  }

  /** A part above 255 gives a channel above 1: nothing is clamped. */
  lemma RgbNotClamped(r: nat, last: char)
    requires r > 255
    ensures var c := ColorToRGBA(Some("rgb(" + Join([Dec(r), Dec(0), Dec(0)], ',') + [last])); c.r.Val? && c.r.v > 1.0
  {
    RgbDecimal(r, 0, 0, last);
  }

  /**
   * `rgb(p0)` and `rgb(p0,p1)`: the channels past the parts present become
   * `undefined`, not the default 1; alpha stays 1.
   */
  lemma RgbMissingParts(p0: string, p1: string, last: char)
    requires ',' !in p0 && ',' !in p1
    ensures ColorToRGBA(Some("rgb(" + p0 + [last])) == Rgba(DecimalChannel(p0), Undef, Undef, Val(1.0))
    ensures ColorToRGBA(Some("rgb(" + Join([p0, p1], ',') + [last]))
         == Rgba(DecimalChannel(p0), DecimalChannel(p1), Undef, Val(1.0))
  {
    RoutesToRgb(p0, last);
    SplitNone(p0, ',');
    RoutesToRgb(Join([p0, p1], ','), last);
    SplitJoin([p0, p1], ',');
  }

  /** `rgb(r)` for a decimal `r`: red is `r / 255`, green and blue are `undefined`. */
  lemma RgbOneDecimal(r: nat, last: char)
    ensures ColorToRGBA(Some("rgb(" + Dec(r) + [last])) == Rgba(Val(r as real / 255.0), Undef, Undef, Val(1.0))
  {
    DecNoComma(r);
    RgbMissingParts(Dec(r), Dec(r), last);
    DecChannel(r);
  }

  /**
   * A part that `parseInt` cannot read gives NaN for its channel, whatever
   * the other parts hold: no part is rejected and alpha stays 1.
   */
  lemma RgbUnparsablePart(p0: string, p1: string, p2: string, last: char)
    requires ',' !in p0 && ',' !in p1 && ',' !in p2
    ensures var c := ColorToRGBA(Some("rgb(" + Join([p0, p1, p2], ',') + [last]));
            (ParseInt(p0, 0) == NaN ==> c.r == NaN)
            && (ParseInt(p1, 0) == NaN ==> c.g == NaN)
            && (ParseInt(p2, 0) == NaN ==> c.b == NaN)
            && c.a == Val(1.0)
  {
    RoutesToRgb(Join([p0, p1, p2], ','), last);
    RgbParts(p0, p1, p2);
  }

  /** `rgb(x)`: a single part that is not a number gives a NaN red, and green and blue are `undefined`. */
  lemma RgbLetterPart(last: char)
    ensures ColorToRGBA(Some("rgb(x" + [last])) == Rgba(NaN, Undef, Undef, Val(1.0))
  {
    assert "rgb(x" + [last] == "rgb(" + "x" + [last];
    RoutesToRgb("x", last);
    SplitNone("x", ',');
    assert TrimStart("x") == "x";
    assert DigitRun("x", 10) == 0;
  }

  /**
   * `rgba(r,g,b,alpha)`: the `rgba` prefix wins over `rgb`; the colour
   * channels are divided by 255 and the alpha is `parseFloat` of the fourth
   * part, not divided.
   */
  lemma RgbaDecimal(r: nat, g: nat, b: nat, alpha: string, last: char)
    requires ',' !in alpha
    ensures ColorToRGBA(Some("rgba(" + Join([Dec(r), Dec(g), Dec(b), alpha], ',') + [last]))
         == Rgba(Val(r as real / 255.0), Val(g as real / 255.0), Val(b as real / 255.0), ParseFloat(alpha))
  {
    RoutesToRgba(Join([Dec(r), Dec(g), Dec(b), alpha], ','), last);
    DecNoComma(r);
    DecNoComma(g);
    DecNoComma(b);
    RgbaParts(Dec(r), Dec(g), Dec(b), alpha);
    DecChannel(r);
    DecChannel(g);
    DecChannel(b);
  }

  /** `parseFloat(undefined)` reads the string "undefined", which is NaN. */
  lemma ParseFloatUndefined()
    ensures ParseFloat("undefined") == NaN
  {
    var u := "undefined";
    assert u[0] == 'u';
    ParseFloatLetter(u);
  }

  /** A string led by a lower-case letter does not read as a number: `parseFloat` gives NaN. */
  lemma ParseFloatLetter(u: string)
    requires |u| > 0 && 'a' <= u[0] <= 'z'
    ensures ParseFloat(u) == NaN
  {
    ParseFloatNoNumber(u);
  }

  /** The `rgba` branch on three comma-free parts: alpha is `parseFloat(undefined)`. */
  lemma RgbaThreeParts(p0: string, p1: string, p2: string)
    requires ',' !in p0 && ',' !in p1 && ',' !in p2
    ensures FromRgba(Join([p0, p1, p2], ',')).a == ParseFloat("undefined")
  {
    SplitJoin([p0, p1, p2], ',');
  }

  /** `rgba(r,g,b)` without a fourth part: alpha is `parseFloat(undefined)`, which is NaN. */
  lemma RgbaMissingAlpha(r: nat, g: nat, b: nat, last: char)
    ensures ColorToRGBA(Some("rgba(" + Join([Dec(r), Dec(g), Dec(b)], ',') + [last])).a == NaN
  {
    RoutesToRgba(Join([Dec(r), Dec(g), Dec(b)], ','), last);
    DecNoComma(r);
    DecNoComma(g);
    DecNoComma(b);
    RgbaThreeParts(Dec(r), Dec(g), Dec(b));
    ParseFloatUndefined();
  }

  /** The literal `0.5` reads as one half. */
  lemma PointFive()
    ensures ParseUnsignedDecimal("0.5") == Val(0.5)
  {
    var u := "0.5";
    assert u[1..] == ".5" && u[..1] == "0" && (".5")[1..] == "5";
    assert DigitRun(u, 10) == 1 by { assert !IsDigit('.', 10); }
    assert DigitRun("5", 10) == 1;
    assert ("5")[..1] == "5" && ("5")[1..] == [];
    assert DigitsValue("0", 10) == 0 by { assert ("0")[..0] == []; }
    assert DigitsValue("5", 10) == 5 by { assert ("5")[..0] == []; }
    assert ExponentOf([]) == 0;
    assert Scale10(5.0, -1) == 0.5;
  }

  /** A string led by a digit or a point is read as an unsigned decimal literal. */
  lemma ParseFloatUnsigned(u: string)
    requires |u| > 0 && (IsDigit(u[0], 10) || u[0] == '.')
    ensures ParseFloat(u) == ParseUnsignedDecimal(u)
  {
    assert TrimStart(u) == u by { assert !IsWhiteSpace(u[0]); }
    assert u[0] != '-' && u[0] != '+';
    FirstCharDiffers(u, "Infinity");
    var r := ParseUnsignedDecimal(u);
    assert r.Val? || r == NaN;
  }

  /** `parseFloat("0.5")` is one half. */
  lemma ParseFloatHalf()
    ensures ParseFloat("0.5") == Val(0.5)
  {
    ParseFloatUnsigned("0.5");
    PointFive();
  }

  /** An alpha part of `0.5` gives alpha one half. */
  lemma RgbaHalfAlpha(r: nat, g: nat, b: nat, last: char)
    ensures ColorToRGBA(Some("rgba(" + Join([Dec(r), Dec(g), Dec(b), "0.5"], ',') + [last]))
         == Rgba(Val(r as real / 255.0), Val(g as real / 255.0), Val(b as real / 255.0), Val(0.5))
  {
    RgbaDecimal(r, g, b, "0.5", last);
    ParseFloatHalf();
  }
}
