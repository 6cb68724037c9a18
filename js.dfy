/**
 * The pieces of JavaScript's built-in behaviour that the manifest code relies on:
 * coercion of `undefined` to text, `parseInt`, `String.prototype.substr`,
 * `String.prototype.indexOf`, the ToInt32 conversion behind the bitwise operators,
 * and `Array.prototype.map` with a callback that may throw.
 * Strings are sequences of characters; the manifest text these functions see is ASCII.
 */
module Js {
  import opened Wrappers

  /** The TypeError JavaScript throws when code reads a property of `undefined`. */
  datatype TypeError = ReadOfUndefined(property: string)

  function Min(a: int, b: int): int { if a <= b then a else b }
  function Max(a: int, b: int): int { if a <= b then b else a }

  /** ToString of a value that is either a string or `undefined`. */
  function ToJsString(v: Option<string>): string {
    match v
    case Some(s) => s
    case None => "undefined"
  }

  predicate StartsWith(s: string, prefix: string) {
    |prefix| <= |s| && s[..|prefix|] == prefix
  }

  /** The "0x" or "0X" that `parseInt` accepts before hexadecimal digits. */
  predicate HasHexPrefix(s: string) {
    |s| >= 2 && s[0] == '0' && (s[1] == 'x' || s[1] == 'X')
  }

  /**
   * The white space and line terminator code points that `parseInt` skips (StrWhiteSpaceChar):
   * tab to carriage return, space, and a handful above U+00A0.
   */
  predicate IsJsWhiteSpace(c: char) {
    ('\t' <= c <= '\r') || c == ' '
    || ('\U{00A0}' <= c
        && (c == '\U{00A0}' || c == '\U{1680}' || ('\U{2000}' <= c <= '\U{200A}')
            || c == '\U{2028}' || c == '\U{2029}' || c == '\U{202F}' || c == '\U{205F}'
            || c == '\U{3000}' || c == '\U{FEFF}'))
  }

  /** `s` without its leading white space. */
  function TrimStart(s: string): (r: string)
    ensures |r| <= |s| && r == s[|s| - |r|..]
    ensures r == [] || !IsJsWhiteSpace(r[0])
    ensures forall i :: 0 <= i < |s| - |r| ==> IsJsWhiteSpace(s[i])
  {
    if |s| > 0 && IsJsWhiteSpace(s[0]) then TrimStart(s[1..]) else s
  }

  /** The two radices the manifest code passes to `parseInt`. */
  type Radix = r: int | r == 10 || r == 16 witness 10

  predicate IsDigit(c: char, radix: Radix) {
    ('0' <= c <= '9') || (radix == 16 && (('a' <= c <= 'f') || ('A' <= c <= 'F')))
  }

  function DigitValue(c: char): (d: nat)
    ensures d < 16
    ensures '0' <= c <= '9' ==> d < 10
  {
    if '0' <= c <= '9' then c as int - '0' as int
    else if 'a' <= c <= 'f' then c as int - 'a' as int + 10
    else if 'A' <= c <= 'F' then c as int - 'A' as int + 10
    else 0
  }

  /** The length of the longest prefix of `s` made of digits of the radix. */
  function DigitRun(s: string, radix: Radix): (n: nat)
    ensures n <= |s|
    ensures forall i :: 0 <= i < n ==> IsDigit(s[i], radix)
    ensures n < |s| ==> !IsDigit(s[n], radix)
  {
    if |s| > 0 && IsDigit(s[0], radix) then 1 + DigitRun(s[1..], radix) else 0
  }

  /**
   * The value of a digit string, most significant digit first. The product with the radix
   * is written out per radix so that it stays linear arithmetic.
   */
  function DigitsValue(z: string, radix: Radix): nat {
    if z == [] then 0
    else
      var high := DigitsValue(z[..|z| - 1], radix);
      (if radix == 10 then 10 * high else 16 * high) + DigitValue(z[|z| - 1])
  }

  /**
   * `parseInt(input, radix)`: skip leading white space, take an optional sign, for radix 16
   * drop a `0x`/`0X` prefix, then read the longest run of digits. With no digit the result
   * is NaN, written None here.
   */
  function ParseInt(input: string, radix: Radix): Option<int> {
    var s := TrimStart(input);
    var negative := |s| > 0 && s[0] == '-';
    var unsigned := if |s| > 0 && (s[0] == '-' || s[0] == '+') then s[1..] else s;
    var body := if radix == 16 && HasHexPrefix(unsigned) then unsigned[2..] else unsigned;
    var z := body[..DigitRun(body, radix)];
    var magnitude: int := DigitsValue(z, radix);
    if z == [] then None
    else if negative then Some(-magnitude)
    else Some(magnitude)
  }

  /** A text that starts with a digit (and, in radix 16, not with `0x`) parses as its leading digit run. */
  lemma ParseIntOfDigitStart(s: string, radix: Radix)
    requires |s| > 0 && IsDigit(s[0], radix)
    requires radix == 16 ==> !HasHexPrefix(s)
    ensures ParseInt(s, radix) == Some(DigitsValue(s[..DigitRun(s, radix)], radix))
  {
    assert TrimStart(s) == s by {
      assert !IsJsWhiteSpace(s[0]);
    }
    assert s[0] != '-' && s[0] != '+';
    var n := DigitRun(s, radix);
    assert n >= 1;
  }

  /** A text no digit can start, sign or white space cannot hide: `parseInt` gives NaN. */
  lemma ParseIntWithoutDigits(input: string, radix: Radix)
    requires |input| > 0
    requires !IsDigit(input[0], radix) && !IsJsWhiteSpace(input[0])
    requires input[0] != '-' && input[0] != '+'
    ensures ParseInt(input, radix) == None
  {
    assert TrimStart(input) == input;
  }

  /** A missing attribute reads as the text "undefined", which `parseInt` turns into NaN. */
  lemma ParseIntOfUndefined(radix: Radix)
    ensures ParseInt(ToJsString(None), radix) == None
  {
    ParseIntWithoutDigits("undefined", radix);
  }

  function DigitChar(d: nat): (c: char)
    requires d < 10
    ensures '0' <= c <= '9' && DigitValue(c) == d
  {
    ('0' as int + d) as char
  }

  /** The decimal text of a non-negative number, as JavaScript's Number-to-String gives it. */
  function NatToString(n: nat): (s: string)
    ensures |s| > 0
    ensures forall i :: 0 <= i < |s| ==> '0' <= s[i] <= '9'
    ensures s[0] == '0' ==> n == 0
    decreases n
  {
    if n < 10 then [DigitChar(n)] else NatToString(n / 10) + [DigitChar(n % 10)]
  }

  lemma {:induction false} DigitsValueOfNatToString(n: nat)
    ensures DigitsValue(NatToString(n), 10) == n
    decreases n
  {
    if n >= 10 {
      var s := NatToString(n);
      assert s[..|s| - 1] == NatToString(n / 10);
      DigitsValueOfNatToString(n / 10);
    }
  }

  /** The digit run of a digit string followed by a non-digit is exactly that digit string. */
  lemma {:induction false} DigitRunOfDigitsThen(digits: string, rest: string, radix: Radix)
    requires forall i :: 0 <= i < |digits| ==> IsDigit(digits[i], radix)
    requires rest == [] || !IsDigit(rest[0], radix)
    ensures DigitRun(digits + rest, radix) == |digits|
  {
    if digits == [] {
      assert digits + rest == rest;
    } else {
      assert (digits + rest)[1..] == digits[1..] + rest;
      DigitRunOfDigitsThen(digits[1..], rest, radix);
    }
  }

  /**
   * `parseInt(text, 10)` reads back the decimal text of any non-negative number and
   * stops at the first character that is not a digit.
   */
  lemma ParseIntOfDecimal(n: nat, rest: string)
    requires rest == [] || !('0' <= rest[0] <= '9')
    ensures ParseInt(NatToString(n) + rest, 10) == Some(n)
  {
    var digits := NatToString(n);
    var s := digits + rest;
    assert ParseInt(s, 10) == Some(DigitsValue(s[..DigitRun(s, 10)], 10)) by {
      assert s[0] == digits[0];
      ParseIntOfDigitStart(s, 10);
    }
    assert DigitRun(s, 10) == |digits| by {
      DigitRunOfDigitsThen(digits, rest, 10);
    }
    assert s[..|digits|] == digits;
    assert DigitsValue(digits, 10) == n by {
      DigitsValueOfNatToString(n);
    }
  }

  /** `parseInt` of two hexadecimal digits in radix 16 is the byte they spell. */
  lemma ParseIntOfHexPair(s: string)
    requires |s| == 2 && IsDigit(s[0], 16) && IsDigit(s[1], 16)
    ensures ParseInt(s, 16) == Some(16 * DigitValue(s[0]) + DigitValue(s[1]))
  {
    var v := 16 * DigitValue(s[0]) + DigitValue(s[1]);
    assert DigitsValue(s, 16) == v by {
      HexPairValue(s);
    }
    assert ParseInt(s, 16) == Some(DigitsValue(s, 16)) by {
      HexPairRun(s);
    }
  }

  /** `parseInt` in radix 16 of the first two characters of a text, when both are hex digits. */
  lemma ParseIntOfHexPrefix(s: string)
    requires |s| >= 2 && IsDigit(s[0], 16) && IsDigit(s[1], 16)
    ensures ParseInt(s[..2], 16) == Some(16 * DigitValue(s[0]) + DigitValue(s[1]))
  {
    var pair := s[..2];
    assert pair[0] == s[0] && pair[1] == s[1];
    ParseIntOfHexPair(pair);
  }

  lemma HexPairRun(s: string)
    requires |s| == 2 && IsDigit(s[0], 16) && IsDigit(s[1], 16)
    ensures ParseInt(s, 16) == Some(DigitsValue(s, 16))
  {
    ParseIntOfDigitStart(s, 16);
    assert DigitRun(s, 16) == 2 by {
      DigitRunOfDigitsThen(s, [], 16);
      assert s + [] == s;
    }
    assert s[..2] == s;
  }

  lemma HexPairValue(s: string)
    requires |s| == 2
    ensures DigitsValue(s, 16) == 16 * DigitValue(s[0]) + DigitValue(s[1])
  {
    assert s[..1] == [s[0]];
    assert DigitsValue([s[0]], 16) == DigitValue(s[0]) by {
      assert [s[0]][..0] == [];
    }
  }

  /**
   * `String.prototype.substr(start, length)`: a negative start counts back from the end,
   * and the start and the end are both clamped to the string.
   */
  function Substr(s: string, start: int, length: int): string {
    var from := if start < 0 then Max(|s| + start, 0) else Min(start, |s|);
    var size := Min(Max(length, 0), |s|);
    s[from..Min(from + size, |s|)]
  }

  /** `substr` from a position inside the string takes up to `length` characters from there. */
  lemma SubstrInside(s: string, start: nat, length: nat)
    requires start <= |s|
    ensures Substr(s, start, length) == s[start..Min(start + length, |s|)]
  {
  }

  /** `substr(0, n)` within the string is the prefix of length `n`. */
  lemma SubstrPrefix(s: string, n: nat)
    requires n <= |s|
    ensures Substr(s, 0, n) == s[..n]
  {
    SubstrInside(s, 0, n);
  }

  predicate OccursAt(s: string, t: string, i: int) {
    0 <= i && i + |t| <= |s| && s[i..i + |t|] == t
  }

  /** The first position at or after `from` where `t` occurs in `s`, or -1. */
  function IndexOfFrom(s: string, t: string, from: nat): (r: int)
    ensures r == -1 || (from <= r && OccursAt(s, t, r))
    ensures r == -1 ==> forall j :: from <= j ==> !OccursAt(s, t, j)
    ensures r != -1 ==> forall j :: from <= j < r ==> !OccursAt(s, t, j)
    decreases |s| - from
  {
    if from + |t| > |s| then -1
    else if s[from..from + |t|] == t then from
    else IndexOfFrom(s, t, from + 1)
  }

  /** `String.prototype.indexOf(t)`. */
  function IndexOf(s: string, t: string): int {
    IndexOfFrom(s, t, 0)
  }

  /** ToUint32: the number modulo 2^32, NaN giving 0. ToInt32 reinterprets the same 32 bits as signed. */
  function ToUint32(v: Option<int>): nat {
    match v
    case None => 0
    case Some(x) => x % 0x1_0000_0000
  }

  lemma ModShift(x: int, u: int, k: int)
    requires x == u + 256 * k
    ensures x % 256 == u % 256
  {
  }

  /** ToUint32 keeps the low byte of the number. */
  lemma ToUint32LowByte(v: Option<int>)
    ensures ToUint32(v) % 256 == v.GetOr(0) % 256
  {
    var x := v.GetOr(0);
    var q := x / 0x1_0000_0000;
    var u := x % 0x1_0000_0000;
    assert x == u + 0x1_0000_0000 * q;
    ModShift(x, u, 0x100_0000 * q);
  }

  /** The bitwise AND of two non-negative integers, taken one bit at a time from the lowest. */
  function BitAnd(a: nat, b: nat): (r: nat)
    ensures r <= b
    decreases a
  {
    if a == 0 || b == 0 then 0
    else 2 * BitAnd(a / 2, b / 2) + (if a % 2 == 1 && b % 2 == 1 then 1 else 0)
  }

  lemma BitAndEven(a: nat, c: nat)
    ensures BitAnd(a, 2 * c) == 2 * BitAnd(a / 2, c)
  {
    if a != 0 && c != 0 {
      assert (2 * c) / 2 == c && (2 * c) % 2 == 0;
    }
  }

  lemma BitAndOdd(a: nat, c: nat)
    ensures BitAnd(a, 2 * c + 1) == 2 * BitAnd(a / 2, c) + a % 2
  {
    if a != 0 {
      assert (2 * c + 1) / 2 == c && (2 * c + 1) % 2 == 1;
    }
  }

  /** Multiplying by a positive number keeps a strict order at least that number apart. */
  lemma MulStep(d: int, a: int, b: int)
    requires d > 0 && a < b
    ensures d * a + d <= d * b
  {
    var k := b - a;
    assert d * b == d * a + d * k;
    assert d * k == d * (k - 1) + d;
    assert d * (k - 1) >= 0;
  }

  /** Division with remainder is unique. */
  lemma ModUnique(w: int, d: int, t: int, e: int)
    requires d > 0 && 0 <= e < d && w == d * t + e
    ensures w % d == e && w / d == t
  {
    var q := w / d;
    if q < t {
      MulStep(d, q, t);
    } else if q > t {
      MulStep(d, t, q);
    }
  }
  /** The remainder modulo `2 * m` splits into the lowest bit and the remainder of the half modulo `m`. */
  lemma HalveMod(w: nat, m: nat)
    requires m > 0
    ensures w % (2 * m) == 2 * ((w / 2) % m) + w % 2
  {
    var q, r := w / 2, w % 2;
    var t, s := q / m, q % m;
    assert q == m * t + s;
    assert w == (2 * m) * t + (2 * s + r);
    ModUnique(w, 2 * m, t, 2 * s + r);
  }

  /** Masking with 0x1F keeps the five lowest bits. */
  lemma BitAndLowFiveBits(w: nat)
    ensures BitAnd(w, 31) == w % 32
  {
    var w1, w2, w3, w4 := w / 2, w / 4, w / 8, w / 16;
    assert w2 == w1 / 2 && w3 == w2 / 2 && w4 == w3 / 2;
    BitAndOdd(w, 15);
    BitAndOdd(w1, 7);
    BitAndOdd(w2, 3);
    BitAndOdd(w3, 1);
    assert BitAnd(w4, 1) == w4 % 2 by {
      BitAndOdd(w4, 0);
    }
    HalveMod(w, 16);
    HalveMod(w1, 8);
    HalveMod(w2, 4);
    HalveMod(w3, 2);
  }

  /** Masking with 0xF8 keeps bits 3 to 7. */
  lemma BitAndF8(u: nat)
    ensures BitAnd(u, 0xF8) == 8 * ((u / 8) % 32)
  {
    BitAndEven(u, 124);
    BitAndEven(u / 2, 62);
    BitAndEven(u / 4, 31);
    assert (u / 2) / 2 == u / 4 && (u / 4) / 2 == u / 8;
    BitAndLowFiveBits(u / 8);
  }

  /**
   * `xs.map(f)` where `f` may throw: every element is mapped in order, and the first
   * exception escapes.
   */
  function MapOrThrow<A, B>(f: A -> Result<B, TypeError>, xs: seq<A>): (r: Result<seq<B>, TypeError>)
    ensures r.Ok? <==> forall i :: 0 <= i < |xs| ==> f(xs[i]).Ok?
    ensures r.Ok? ==> |r.value| == |xs| && forall i :: 0 <= i < |xs| ==> f(xs[i]) == Ok(r.value[i])
    ensures r.Err? ==> exists i :: 0 <= i < |xs| && f(xs[i]) == Err(r.error)
                                && forall j :: 0 <= j < i ==> f(xs[j]).Ok?
  {
    if xs == [] then Ok([])
    else match f(xs[0])
      case Err(e) => Err(e)
      case Ok(y) =>
        match MapOrThrow(f, xs[1..])
        case Err(e) =>
          assert forall i :: 1 <= i < |xs| ==> f(xs[i]) == f(xs[1..][i - 1]);
          Err(e)
        case Ok(ys) => Ok([y] + ys)
  }
}
