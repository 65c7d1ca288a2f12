/**
 * The small part of JavaScript's runtime that the colour parser and the
 * uniform handlers rely on: optional values (`undefined` and `??`),
 * numbers that may be NaN, infinite or `undefined`, and the string
 * built-ins `slice`, `startsWith`, `split`, `parseInt` and `parseFloat`.
 * Numbers are exact reals: IEEE-754 rounding is not modelled.
 */
module Js {

  /** An optional value: `None` is JavaScript's `undefined` (or a missing property). */
  datatype Option<+T> = None | Some(value: T) {
    /** The `??` operator: the value if present, the default otherwise. */
    function GetOr(default: T): T {
      match this
      case Some(v) => v
      case None => default
    }
  }

  /**
   * A JavaScript value in a numeric position: a finite number, an infinity,
   * NaN, or `undefined` (what array destructuring yields past the end).
   */
  datatype Num = Val(v: real) | Inf(negative: bool) | NaN | Undef

  /** `x / d` for a positive constant divisor; `undefined / d` is NaN. */
  function DivBy(x: Num, d: real): (r: Num)
    requires d > 0.0
    ensures x.Val? <==> r.Val?
    ensures x.Val? ==> r.v * d == x.v
    ensures x.Inf? ==> r == x
    ensures !x.Val? && !x.Inf? ==> r == NaN
  {
    match x
    case Val(v) => Val(v / d)
    case Inf(neg) => Inf(neg)
    case NaN => NaN
    case Undef => NaN
  }

  /** `a / b` on two finite numbers: a zero divisor gives an infinity or, for `0 / 0`, NaN. */
  function Quotient(a: real, b: real): (r: Num)
    ensures b != 0.0 ==> r.Val? && r.v * b == a
    ensures b == 0.0 && a == 0.0 ==> r == NaN
    ensures b == 0.0 && a != 0.0 ==> r == Inf(a < 0.0)
    ensures r.Inf? ==> b == 0.0 && (r.negative <==> a < 0.0)
  {
    if b != 0.0 then Val(a / b)
    else if a == 0.0 then NaN
    else Inf(a < 0.0)
  }

  /** `c - x` for a finite `c`. */
  function SubFrom(c: real, x: Num): (r: Num)
    ensures x.Val? ==> r == Val(c - x.v)
    ensures x.Inf? ==> r == Inf(!x.negative)
    ensures !x.Val? && !x.Inf? ==> r == NaN
  {
    match x
    case Val(v) => Val(c - v)
    case Inf(neg) => Inf(!neg)
    case _ => NaN
  }

  /** The ordering of the extended reals: is `x` at most `y`? Both must be numbers. */
  predicate AtMost(x: Num, y: Num)
    requires (x.Val? || x.Inf?) && (y.Val? || y.Inf?)
  {
    match (x, y)
    case (Inf(nx), _) => nx || (y.Inf? && !y.negative)
    case (_, Inf(ny)) => !ny
    case (Val(a), Val(b)) => a <= b
  }

  /** `Math.min(x, y)`: NaN if either argument is NaN or `undefined`, else the smaller. */
  function Min(x: Num, y: Num): (r: Num)
    ensures (x.Val? || x.Inf?) && (y.Val? || y.Inf?) ==> (r == x || r == y) && AtMost(r, x) && AtMost(r, y)
    ensures !(x.Val? || x.Inf?) || !(y.Val? || y.Inf?) ==> r == NaN
  {
    if !(x.Val? || x.Inf?) || !(y.Val? || y.Inf?) then NaN
    else if AtMost(x, y) then x
    else y
  }

  // ---------------------------------------------------------------------
  // Strings

  /** `s.startsWith(p)`: `s` is `p` followed by some rest. */
  predicate StartsWith(s: string, p: string): (b: bool)
    ensures b <==> exists rest :: s == p + rest
  {
    if |p| <= |s| && s[..|p|] == p then
      assert s == p + s[|p|..];
      true
    else
      assert forall rest :: s == p + rest ==> s[..|p|] == p;
      false
  }

  /** Resolves a relative index of `slice`: negative counts from the end; the result is clamped to `[0, len]`. */
  function SliceIndex(i: int, len: nat): (k: nat)
    ensures k <= len
    ensures 0 <= i <= len ==> k == i
    ensures i < 0 && len + i >= 0 ==> k == len + i
    ensures i > len ==> k == len
    ensures len + i < 0 ==> k == 0
  {
    if i < 0 then (if len + i < 0 then 0 else len + i)
    else if i > len then len
    else i
  }

  /** `s.slice(start, end)`: empty when the resolved start is not before the resolved end. */
  function Slice(s: string, start: int, end: int): (r: string)
    ensures |r| <= |s|
    ensures 0 <= start <= end <= |s| ==> r == s[start..end]
    ensures 0 <= start <= |s| + end && end < 0 ==> r == s[start..|s| + end]
    ensures start >= |s| || end <= -|s| ==> r == []
    ensures 0 <= start && end < 0 && |s| + end < start ==> r == []
  {
    var from, to := SliceIndex(start, |s|), SliceIndex(end, |s|);
    if from < to then s[from..to] else []
  }

  /** `s.slice(start)`. */
  function SliceFrom(s: string, start: int): (r: string)
    ensures 0 <= start <= |s| ==> r == s[start..]
  {
    Slice(s, start, |s|)
  }

  /** Joins `parts` with `sep` between consecutive parts (the inverse of `Split`). */
  function Join(parts: seq<string>, sep: char): string {
    if |parts| == 0 then []
    else if |parts| == 1 then parts[0]
    else parts[0] + [sep] + Join(parts[1..], sep)
  }

  /** `s.split(sep)` for a one-character separator: every occurrence splits, so `""` gives `[""]`. */
  function Split(s: string, sep: char): (parts: seq<string>)
    ensures |parts| >= 1
    ensures forall i :: 0 <= i < |parts| ==> sep !in parts[i]
  {
    if |s| == 0 then [[]]
    else
      var rest := Split(s[1..], sep);
      if s[0] == sep then [[]] + rest
      else [[s[0]] + rest[0]] + rest[1..]
  }

  /** Splitting and joining again gives back the string. */
  lemma {:induction false} JoinSplit(s: string, sep: char)
    ensures Join(Split(s, sep), sep) == s
  {
    if |s| > 0 {
      var rest := Split(s[1..], sep);
      JoinSplit(s[1..], sep);
      if s[0] == sep {
        assert Split(s, sep) == [[]] + rest;
        assert Join([[]] + rest, sep) == [sep] + Join(rest, sep);
      } else {
        var parts := [[s[0]] + rest[0]] + rest[1..];
        assert Split(s, sep) == parts;
        if |rest| == 1 {
          assert Join(parts, sep) == [s[0]] + rest[0];
        } else {
          assert parts[1..] == rest[1..];
          assert Join(rest, sep) == rest[0] + [sep] + Join(rest[1..], sep);
          assert Join(parts, sep) == [s[0]] + rest[0] + [sep] + Join(rest[1..], sep);
        }
      }
    }
  }

  /** Joining parts free of the separator and splitting again gives back the parts. */
  lemma {:induction false} SplitJoin(parts: seq<string>, sep: char)
    requires |parts| >= 1
    requires forall i :: 0 <= i < |parts| ==> sep !in parts[i]
    ensures Split(Join(parts, sep), sep) == parts
  {
    if |parts| == 1 {
      SplitNone(parts[0], sep);
    } else {
      SplitJoin(parts[1..], sep);
      SplitCons(parts[0], sep, Join(parts[1..], sep));
    }
  }

  /** A part free of the separator is split off whole: `(x + sep + y).split(sep)` is `[x]` then `y.split(sep)`. */
  lemma {:induction false} SplitCons(x: string, sep: char, y: string)
    requires sep !in x
    ensures Split(x + [sep] + y, sep) == [x] + Split(y, sep)
  {
    if |x| == 0 {
      assert (x + [sep] + y)[1..] == y;
    } else {
      assert (x + [sep] + y)[1..] == x[1..] + [sep] + y;
      SplitCons(x[1..], sep, y);
      assert [x[0]] + x[1..] == x;
    }
  }

  /** A string free of the separator is not split at all. */
  lemma {:induction false} SplitNone(x: string, sep: char)
    requires sep !in x
    ensures Split(x, sep) == [x]
  {
    if |x| > 0 {
      SplitNone(x[1..], sep);
      assert [x[0]] + x[1..] == x;
    }
  }

  // ---------------------------------------------------------------------
  // Number parsing

  /** ECMAScript's StrWhiteSpaceChar: white space and line terminators, including every Zs space. */
  predicate IsWhiteSpace(c: char) {
    var n := c as int;
    n == 0x09 || n == 0x0A || n == 0x0B || n == 0x0C || n == 0x0D || n == 0x20
    || n == 0xA0 || n == 0x1680 || (0x2000 <= n <= 0x200A) || n == 0x2028 || n == 0x2029
    || n == 0x202F || n == 0x205F || n == 0x3000 || n == 0xFEFF
  }

  /** Drops the leading white space, as `parseInt` and `parseFloat` do first. */
  function TrimStart(s: string): (r: string)
    ensures |r| <= |s|
    ensures |r| == 0 || !IsWhiteSpace(r[0])
  {
    if |s| > 0 && IsWhiteSpace(s[0]) then TrimStart(s[1..]) else s
  }

  /** What is left is a suffix, and everything dropped before it is white space. */
  lemma {:induction false} TrimStartSuffix(s: string)
    ensures var r := TrimStart(s);
            r == s[|s| - |r|..] && forall i :: 0 <= i < |s| - |r| ==> IsWhiteSpace(s[i])
    decreases |s|
  {
    if |s| > 0 && IsWhiteSpace(s[0]) {
      TrimStartSuffix(s[1..]);
      var r := TrimStart(s);
      assert s[1..][|s| - 1 - |r|..] == s[|s| - |r|..];
    }
  }

  /** The value of a digit in radixes up to 36 (`0-9`, then `a-z` or `A-Z`), or -1. */
  function DigitVal(c: char): (d: int)
    ensures -1 <= d < 36
  {
    if '0' <= c <= '9' then c as int - '0' as int
    else if 'a' <= c <= 'z' then c as int - 'a' as int + 10
    else if 'A' <= c <= 'Z' then c as int - 'A' as int + 10
    else -1
  }

  predicate IsDigit(c: char, radix: nat) {
    0 <= DigitVal(c) < radix
  }

  /** The length of the longest prefix of `s` made of digits of `radix`. */
  function DigitRun(s: string, radix: nat): (n: nat)
    ensures n <= |s|
    ensures n == |s| || !IsDigit(s[n], radix)
  {
    if |s| == 0 || !IsDigit(s[0], radix) then 0 else 1 + DigitRun(s[1..], radix)
  }

  predicate AllDigits(s: string, radix: nat) {
    forall i :: 0 <= i < |s| ==> IsDigit(s[i], radix)
  }

  /**
   * The value of a string of digits, most significant first. Only ever
   * applied to a run of digits, on which it is never negative.
   */
  function DigitsValue(s: string, radix: nat): int {
    if |s| == 0 then 0 else DigitsValue(s[..|s| - 1], radix) * radix + DigitVal(s[|s| - 1])
  }

  /** Is `s` led by the hexadecimal prefix `0x` or `0X`? */
  predicate HasHexPrefix(s: string) {
    |s| >= 2 && s[0] == '0' && (s[1] == 'x' || s[1] == 'X')
  }

  /**
   * `parseInt(input, radix)`, where radix 0 stands for an absent radix:
   * leading white space and one sign are skipped; with radix 0 or 16 a
   * `0x`/`0X` prefix is skipped and selects radix 16; absent radix means 10;
   * the longest run of digits is read and anything after it is ignored; no
   * digit at all, or a radix outside 2..36, gives NaN.
   */
  function ParseInt(input: string, radix: nat): (r: Num)
    ensures r.Val? || r == NaN
    ensures radix == 1 || radix > 36 ==> r == NaN
  {
    ParseTrimmed(TrimStart(input), radix)
  }

  /** `parseInt` once the leading white space is gone. */
  function ParseTrimmed(s: string, radix: nat): (r: Num)
    ensures r.Val? || r == NaN
    ensures radix == 1 || radix > 36 ==> r == NaN
  {
    var negative := |s| > 0 && s[0] == '-';
    var unsigned := if |s| > 0 && (s[0] == '-' || s[0] == '+') then s[1..] else s;
    if radix == 1 || radix > 36 then NaN
    else if (radix == 0 || radix == 16) && HasHexPrefix(unsigned) then ReadDigits(unsigned[2..], 16, negative)
    else if radix == 0 then ReadDigits(unsigned, 10, negative)
    else ReadDigits(unsigned, radix, negative)
  }

  /**
   * The longest run of digits at the head of `digits`, read in `base` and
   * negated when `negative`; NaN when there is no digit. Each branch of
   * `ParseInt` names its base outright, so that a known radix stays a
   * literal in the arithmetic.
   */
  function ReadDigits(digits: string, base: nat, negative: bool): (r: Num)
    ensures r.Val? || r == NaN
    ensures r == NaN <==> DigitRun(digits, base) == 0
  {
    var n := DigitRun(digits, base);
    if n == 0 then NaN
    else
      var m := DigitsValue(digits[..n], base) as real;
      Val(if negative then -m else m)
  }

  /**
   * `m * 10^e`, one power of ten at a time: a step up multiplies by 10 and a
   * step down divides by 10, so that every step is linear in `m`.
   */
  function Scale10(m: real, e: int): (r: real)
    ensures m == 0.0 ==> r == 0.0
    ensures m > 0.0 ==> r > 0.0
    decreases if e < 0 then -e else e
  {
    if e == 0 then m
    else if e > 0 then Scale10(m * 10.0, e - 1)
    else Scale10(m / 10.0, e + 1)
  }

  /** The exponent part `e[+-]digits` at the head of `s`, or 0 when there is none (no digits means no exponent). */
  function ExponentOf(s: string): int {
    if |s| > 0 && (s[0] == 'e' || s[0] == 'E') then
      var t := s[1..];
      var negative := |t| > 0 && t[0] == '-';
      var digits := if |t| > 0 && (t[0] == '-' || t[0] == '+') then t[1..] else t;
      var k := DigitRun(digits, 10);
      var m := DigitsValue(digits[..k], 10);
      if negative then -m else m
    else 0
  }

  /** The value of the decimal `intDigits.fracDigits`. */
  function DecimalValue(intDigits: string, fracDigits: string): real {
    DigitsValue(intDigits, 10) as real + Scale10(DigitsValue(fracDigits, 10) as real, -|fracDigits|)
  }

  /**
   * The unsigned decimal literal at the head of `u`: digits, optionally a
   * point and more digits (at least one digit overall), optionally an
   * exponent. NaN when `u` does not start with one.
   */
  function ParseUnsignedDecimal(u: string): (r: Num)
    ensures r.Val? || r == NaN
    ensures r == NaN <==> DigitRun(u, 10) == 0 && (|u| < 2 || u[0] != '.' || !IsDigit(u[1], 10))
  {
    var n := DigitRun(u, 10);
    var afterInt := u[n..];
    if |afterInt| > 0 && afterInt[0] == '.' then
      var fraction := afterInt[1..];
      var f := DigitRun(fraction, 10);
      if n == 0 && f == 0 then NaN
      else Val(Scale10(DecimalValue(u[..n], fraction[..f]), ExponentOf(fraction[f..])))
    else if n == 0 then NaN
    else Val(Scale10(DigitsValue(u[..n], 10) as real, ExponentOf(afterInt)))
  }

  /**
   * `parseFloat(input)`: after leading white space and one sign, either
   * `Infinity` or the longest prefix that reads as an unsigned decimal
   * literal; no such prefix gives NaN.
   */
  function ParseFloat(input: string): (r: Num)
    ensures r.Val? || r.Inf? || r == NaN
  {
    var s := TrimStart(input);
    var negative := |s| > 0 && s[0] == '-';
    var u := if |s| > 0 && (s[0] == '-' || s[0] == '+') then s[1..] else s;
    if StartsWith(u, "Infinity") then Inf(negative)
    else
      match ParseUnsignedDecimal(u)
      case Val(m) => Val(if negative then -m else m)
      case _ => NaN
  }

  /**
   * A string that starts with none of white space, a sign, `I` (of
   * `Infinity`), a point or a digit does not read as a number.
   */
  lemma ParseFloatNoNumber(u: string)
    requires |u| > 0 && !IsWhiteSpace(u[0]) && u[0] !in "+-I." && !IsDigit(u[0], 10)
    ensures ParseFloat(u) == NaN
  {
    assert TrimStart(u) == u;
    assert !StartsWith(u, "Infinity");
    assert DigitRun(u, 10) == 0;
    assert ParseUnsignedDecimal(u) == NaN;
  }

  // ---------------------------------------------------------------------
  // Renderers: the partners that the parsers invert

  /** The character of a digit value below 16, in lower case. */
  function DigitChar(d: nat): (c: char)
    requires d < 16
    ensures DigitVal(c) == d
  {
    if d < 10 then ('0' as int + d) as char else ('a' as int + d - 10) as char
  }

  /** The decimal rendering of `n`, without leading zeros. */
  function Dec(n: nat): (s: string)
    ensures |s| >= 1 && AllDigits(s, 10)
    ensures |s| > 1 ==> s[0] != '0'
  {
    if n < 10 then [DigitChar(n)] else Dec(n / 10) + [DigitChar(n % 10)]
  }

  /** Two lower-case hexadecimal digits for a byte. */
  function Hex2(n: nat): (s: string)
    requires n < 256
    ensures |s| == 2 && AllDigits(s, 16)
  {
    [DigitChar(n / 16), DigitChar(n % 16)]
  }

  /** Appending one digit multiplies the value by the radix and adds the digit. */
  lemma DigitsValueSnoc(s: string, c: char, radix: nat)
    requires AllDigits(s, radix) && IsDigit(c, radix)
    ensures AllDigits(s + [c], radix)
    ensures DigitsValue(s + [c], radix) == DigitsValue(s, radix) * radix + DigitVal(c)
  {
    assert (s + [c])[..|s|] == s;
  }

  /** Reading back a decimal rendering gives the number. */
  lemma {:induction false} DecValue(n: nat)
    ensures DigitsValue(Dec(n), 10) == n
  {
    if n >= 10 {
      DecValue(n / 10);
      DigitsValueSnoc(Dec(n / 10), DigitChar(n % 10), 10);
    }
  }

  /** A run of digits followed by a non-digit (or by nothing) is read exactly. */
  lemma {:induction false} DigitRunConcat(x: string, y: string, radix: nat)
    requires AllDigits(x, radix)
    requires |y| == 0 || !IsDigit(y[0], radix)
    ensures DigitRun(x + y, radix) == |x|
  {
    if |x| > 0 {
      assert (x + y)[1..] == x[1..] + y;
      DigitRunConcat(x[1..], y, radix);
    }
  }

  /** A string of digits has no leading white space or sign. */
  lemma TrimDigits(s: string, radix: nat)
    requires |s| >= 1 && AllDigits(s, radix) && radix <= 36
    ensures TrimStart(s) == s
  {
    assert !IsWhiteSpace(s[0]);
  }

  /** `parseInt` inverts the decimal rendering. */
  lemma ParseIntDec(n: nat)
    ensures ParseInt(Dec(n), 0) == Val(n as real)
  {
    var s := Dec(n);
    TrimDigits(s, 10);
    assert !HasHexPrefix(s);
    DigitRunConcat(s, [], 10);
    assert s + [] == s;
    assert s[..|s|] == s;
    DecValue(n);
  }

  /** The two digits of a byte's rendering spell that byte. */
  lemma Hex2Digits(n: nat)
    requires n < 256
    ensures 16 * DigitVal(Hex2(n)[0]) + DigitVal(Hex2(n)[1]) == n
  {
  }

  /** `parseInt(…, 16)` inverts the two-digit hexadecimal rendering. */
  lemma ParseIntHex2(n: nat)
    requires n < 256
    ensures ParseInt(Hex2(n), 16) == Val(n as real)
  {
    Hex2Digits(n);
    ParseHexPairValue(Hex2(n), n);
  }

  /** Two hexadecimal digits spelling `n` parse to `n`. */
  lemma ParseHexPairValue(s: string, n: nat)
    requires |s| == 2 && IsDigit(s[0], 16) && IsDigit(s[1], 16)
    requires 16 * DigitVal(s[0]) + DigitVal(s[1]) == n
    ensures ParseInt(s, 16) == Val(n as real)
  {
    ParseHexPair(s);
  }

  /** Two hexadecimal digits parse to the byte they spell, in `[0, 255]`. */
  lemma ParseHexPair(s: string)
    requires |s| == 2 && IsDigit(s[0], 16) && IsDigit(s[1], 16)
    ensures ParseInt(s, 16) == Val((16 * DigitVal(s[0]) + DigitVal(s[1])) as real)
    ensures 0 <= 16 * DigitVal(s[0]) + DigitVal(s[1]) <= 255
  {
    TrimDigits(s, 16);
    assert !HasHexPrefix(s);
    DigitRunConcat(s, [], 16);
    assert s + [] == s;
    assert s[..2] == s;
    assert s[..1] == [s[0]] && [s[0]][..0] == [];
    assert DigitsValue([s[0]], 16) == DigitVal(s[0]);
    assert DigitsValue(s, 16) == DigitsValue([s[0]], 16) * 16 + DigitVal(s[1]);
  }

  /** A doubled character parses in radix 16 to 17 times its digit when it is one, and to NaN otherwise. */
  lemma ParseHexDoubled(c: char)
    ensures IsDigit(c, 16) ==> ParseInt([c, c], 16) == Val((17 * DigitVal(c)) as real)
    ensures !IsDigit(c, 16) ==> ParseInt([c, c], 16) == NaN
  {
    var s := [c, c];
    if IsDigit(c, 16) {
      ParseHexPair(s);
    } else if IsWhiteSpace(c) {
      assert TrimStart(s) == TrimStart([c]);
      assert TrimStart([c]) == [];
    } else {
      assert TrimStart(s) == s;
      if c == '-' || c == '+' {
        assert s[1..] == [c];
      } else {
        assert !HasHexPrefix(s);
      }
    }
  }

  /**
   * `parseInt` without a radix skips leading white space: one more
   * white-space character in front, as after the commas of `rgb(1, 2, 3)`,
   * changes nothing.
   */
  lemma ParseIntSkipsSpace(c: char, s: string)
    requires IsWhiteSpace(c)
    ensures ParseInt([c] + s, 0) == ParseInt(s, 0)
  {
    assert ([c] + s)[1..] == s;
    assert TrimStart([c] + s) == TrimStart(s);
  }

  /**
   * `parseInt(…, 16)` reads a digit and ignores the non-digit after it, as
   * `parseInt("1g", 16)` is 1; only `0x` is read differently, as a prefix.
   */
  lemma ParseIntStopsAtNonDigit(c: char, x: char)
    requires IsDigit(c, 16) && !IsDigit(x, 16)
    requires c != '0' || (x != 'x' && x != 'X')
    ensures ParseInt([c, x], 16) == Val(DigitVal(c) as real)
  {
    var s := [c, x];
    assert TrimStart(s) == s by { assert !IsWhiteSpace(c); }
    assert DigitRun(s, 16) == 1 by { assert s[1..] == [x]; }
    assert DigitsValue(s[..1], 16) == DigitVal(c) by { assert s[..1][..0] == []; }
  }

  /** No digit after the white space and the sign: NaN, as `parseInt("gg", 16)` is. */
  lemma ParseIntNoDigit(s: string, radix: nat)
    requires 2 <= radix <= 36
    requires |s| > 0 && !IsWhiteSpace(s[0]) && s[0] != '-' && s[0] != '+' && !IsDigit(s[0], radix)
    ensures ParseInt(s, radix) == NaN
  {
    assert TrimStart(s) == s;
    assert !HasHexPrefix(s);
  }
}
