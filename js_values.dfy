/** The part of JavaScript's value semantics that the event components rely
    on: identifier values as they arrive from JSON or from `Number`, the
    `String` coercion, `parseInt`, `Number` applied to a string, and the
    relational operators on strings.

    Numbers are modelled as unbounded integers: the components only ever
    handle identifiers, and none of the modelled parts does arithmetic; the
    time shift at src/components/EventEditForm.jsx:138-139 is left to the host. */
module JsValues {

  /** An identifier-like JavaScript value: an (integral) number, a string,
      or NaN, which `Number` and `parseInt` produce on text they cannot read. */
  datatype Value = Num(n: int) | Str(s: string) | NaN

  /** `a === b`: NaN is not strictly equal to anything, itself included. */
  predicate StrictEquals(a: Value, b: Value) {
    a == b && !a.NaN?
  }

  // ---------------------------------------------------------------------
  // Digits

  /** The value of `c` as a digit in base 16 (which covers base 10), or -1. */
  function HexValue(c: char): (d: int)
    ensures -1 <= d < 16
  {
    if '0' <= c <= '9' then c as int - '0' as int
    else if 'a' <= c <= 'f' then c as int - 'a' as int + 10
    else if 'A' <= c <= 'F' then c as int - 'A' as int + 10
    else -1
  }

  predicate IsDigit(c: char, base: nat) {
    0 <= HexValue(c) < base
  }

  predicate AllDigits(s: string, base: nat) {
    forall i :: 0 <= i < |s| ==> IsDigit(s[i], base)
  }

  function DigitChar(d: nat): (c: char)
    requires d < 10
    ensures IsDigit(c, 10) && HexValue(c) == d
  {
    ('0' as int + d) as char
  }

  /** The number a string of digits denotes, most significant digit first. */
  function DigitsValue(s: string, base: nat): nat
    requires AllDigits(s, base)
  {
    if s == [] then 0
    else DigitsValue(s[..|s| - 1], base) * base + HexValue(s[|s| - 1])
  }

  /** The longest prefix of `s` made of digits of `base`: the part of the
      text that `parseInt` reads. */
  function DigitPrefix(s: string, base: nat): (p: string)
    ensures p <= s && AllDigits(p, base)
    ensures |p| < |s| ==> !IsDigit(s[|p|], base)
  {
    if s != [] && IsDigit(s[0], base) then [s[0]] + DigitPrefix(s[1..], base) else []
  }

  /** The decimal numeral of a natural number, without leading zeros. */
  function DecimalString(n: nat): (s: string)
    ensures |s| > 0 && AllDigits(s, 10)
    ensures s[0] != '0' || n == 0
  {
    if n < 10 then [DigitChar(n)] else DecimalString(n / 10) + [DigitChar(n % 10)]
  }

  // ---------------------------------------------------------------------
  // Coercions

  /** `String(v)`, also what a template literal `${v}` produces. */
  function ToJsString(v: Value): string {
    match v
    case Num(n) => if n < 0 then "-" + DecimalString(-n) else DecimalString(n)
    case Str(s) => s
    case NaN => "NaN"
  }

  /** White space and line terminators that `parseInt` skips and `Number`
      trims. */
  predicate IsWhiteSpace(c: char) {
    c in {' ', '\t', '\n', '\r', '\U{000B}', '\U{000C}', '\U{00A0}', '\U{2028}', '\U{2029}', '\U{FEFF}'}
  }

  predicate HasHexPrefix(s: string) {
    |s| >= 2 && s[0] == '0' && (s[1] == 'x' || s[1] == 'X')
  }

  /** `parseInt(s)` with no radix: leading white space is skipped, then
      `ParseSigned` reads the rest. */
  function ParseInt(s: string): (r: Value)
    ensures !r.Str?
  {
    if s != [] && IsWhiteSpace(s[0]) then ParseInt(s[1..]) else ParseSigned(s)
  }

  /** `parseInt` past the white space: an optional sign, then base 16 after
      a `0x`/`0X` prefix and base 10 otherwise, reading digits up to the
      first character that is not one; NaN when no digit was read. */
  function ParseSigned(t: string): Value {
    var negative := t != [] && t[0] == '-';
    var unsigned := if t != [] && (t[0] == '-' || t[0] == '+') then t[1..] else t;
    var base := if HasHexPrefix(unsigned) then 16 else 10;
    var body := if base == 16 then unsigned[2..] else unsigned;
    var digits := DigitPrefix(body, base);
    if digits == [] then NaN
    else var v: int := DigitsValue(digits, base); Num(if negative then -v else v)
  }

  /** `parseInt(v)`: the argument is coerced to a string first. */
  function ParseIntValue(v: Value): Value {
    ParseInt(ToJsString(v))
  }

  /** `Number(s)`: white space is trimmed on both sides, then
      `NumberOfTrimmed` reads the rest. */
  function ToNumber(s: string): (r: Value)
    ensures !r.Str?
  {
    if s != [] && IsWhiteSpace(s[0]) then ToNumber(s[1..])
    else if s != [] && IsWhiteSpace(s[|s| - 1]) then ToNumber(s[..|s| - 1])
    else NumberOfTrimmed(s)
  }

  /** `Number` on trimmed text, for the integer forms: the empty string is
      0, an optionally signed run of decimal digits or an unsigned `0x` run
      of hex digits is that number, anything else is NaN. */
  function NumberOfTrimmed(t: string): Value {
    if t == [] then Num(0)
    else if HasHexPrefix(t) then
      (if |t| > 2 && AllDigits(t[2..], 16) then Num(DigitsValue(t[2..], 16)) else NaN)
    else
      var negative := t[0] == '-';
      var unsigned := if t[0] == '-' || t[0] == '+' then t[1..] else t;
      if unsigned != [] && AllDigits(unsigned, 10) then
        var v: int := DigitsValue(unsigned, 10); Num(if negative then -v else v)
      else NaN
  }

  // ---------------------------------------------------------------------
  // Round trips between numbers and their numerals

  lemma {:induction false} DecimalStringValue(n: nat)
    ensures DigitsValue(DecimalString(n), 10) == n
  {
    var s := DecimalString(n);
    if n >= 10 {
      DecimalStringValue(n / 10);
      assert s[..|s| - 1] == DecimalString(n / 10);
    }
  }

  lemma {:induction false} DigitPrefixOfDigits(s: string, base: nat)
    requires AllDigits(s, base)
    ensures DigitPrefix(s, base) == s
  {
    if s != [] {
      DigitPrefixOfDigits(s[1..], base);
    }
  }

  /** A canonical numeral, possibly behind a minus sign, is read back by
      both `parseInt` and `Number` as the number it denotes. */
  lemma SignedNumeralParses(d: string, negative: bool)
    requires d != [] && AllDigits(d, 10)
    ensures var v: int := DigitsValue(d, 10);
      var t := if negative then "-" + d else d;
      ParseInt(t) == Num(if negative then -v else v) &&
      ToNumber(t) == Num(if negative then -v else v)
  {
    var t := if negative then "-" + d else d;
    assert !IsWhiteSpace(t[0]) && !IsWhiteSpace(t[|t| - 1]) by {
      assert IsDigit(d[0], 10) && IsDigit(d[|d| - 1], 10);
      assert t[|t| - 1] == d[|d| - 1];
    }
    assert !HasHexPrefix(d) by {
      if |d| >= 2 { assert IsDigit(d[1], 10); }
    }
    assert !HasHexPrefix(t);
    var unsigned := if t[0] == '-' || t[0] == '+' then t[1..] else t;
    assert unsigned == d by {
      if negative { assert t[1..] == d; } else { assert IsDigit(d[0], 10); }
    }
    DigitPrefixOfDigits(d, 10);
  }

  /** `parseInt(String(n)) === n` for every integer `n`. */
  lemma ParseIntOfNumeral(n: int)
    ensures ParseIntValue(Num(n)) == Num(n)
  {
    var m := if n < 0 then -n else n;
    var d := DecimalString(m);
    DecimalStringValue(m);
    SignedNumeralParses(d, n < 0);
    var t := ToJsString(Num(n));
    assert t == if n < 0 then "-" + d else d;
    assert ParseInt(t) == Num(n);
  }

  /** `Number(String(n)) === n` for every integer `n`. */
  lemma NumberOfNumeral(n: int)
    ensures ToNumber(ToJsString(Num(n))) == Num(n)
  {
    var m := if n < 0 then -n else n;
    DecimalStringValue(m);
    SignedNumeralParses(DecimalString(m), n < 0);
  }

  /** Distinct numbers have distinct numerals, so `String` coercion loses
      nothing on numbers. */
  lemma NumeralInjective(a: int, b: int)
    requires ToJsString(Num(a)) == ToJsString(Num(b))
    ensures a == b
  {
    ParseIntOfNumeral(a);
    ParseIntOfNumeral(b);
  }

  // ---------------------------------------------------------------------
  // String comparison

  /** `a <= b` on strings: lexicographic comparison of characters. */
  predicate LessEq(a: string, b: string) {
    a == [] || (b != [] && (a[0] < b[0] || (a[0] == b[0] && LessEq(a[1..], b[1..]))))
  }

  /** `a < b` on strings. */
  predicate Less(a: string, b: string) {
    b != [] && (a == [] || a[0] < b[0] || (a[0] == b[0] && Less(a[1..], b[1..])))
  }

  lemma {:induction false} LessEqTotal(a: string, b: string)
    ensures LessEq(a, b) || LessEq(b, a)
  {
    if a != [] && b != [] && a[0] == b[0] {
      LessEqTotal(a[1..], b[1..]);
    }
  }

  lemma {:induction false} LessEqAntisymmetric(a: string, b: string)
    requires LessEq(a, b) && LessEq(b, a)
    ensures a == b
  {
    if a != [] && b != [] {
      LessEqAntisymmetric(a[1..], b[1..]);
      assert a == [a[0]] + a[1..] && b == [b[0]] + b[1..];
    }
  }

  lemma {:induction false} LessEqTransitive(a: string, b: string, c: string)
    requires LessEq(a, b) && LessEq(b, c)
    ensures LessEq(a, c)
  {
    if a != [] && a[0] == b[0] && b[0] == c[0] {
      LessEqTransitive(a[1..], b[1..], c[1..]);
    }
  }

  /** `!(b <= a)` is exactly `a < b`, and `a < b` is `a <= b` without
      equality. */
  lemma {:induction false} NotLessEqIsLess(a: string, b: string)
    ensures !LessEq(b, a) <==> Less(a, b)
    ensures Less(a, b) <==> LessEq(a, b) && a != b
  {
    if a != [] && b != [] && a[0] == b[0] {
      NotLessEqIsLess(a[1..], b[1..]);
      assert a == [a[0]] + a[1..] && b == [b[0]] + b[1..];
    }
  }

  /** Comparing concatenations whose first parts have equal length
      compares the first parts, then the rest. */
  lemma {:induction false} LessConcat(x: string, y: string, x': string, y': string)
    requires |x| == |x'|
    ensures Less(x + y, x' + y') <==> Less(x, x') || (x == x' && Less(y, y'))
  {
    if x != [] {
      LessConcat(x[1..], y, x'[1..], y');
      assert (x + y)[1..] == x[1..] + y && (x' + y')[1..] == x'[1..] + y';
      assert x == [x[0]] + x[1..] && x' == [x'[0]] + x'[1..];
    } else {
      assert x + y == y && x' + y' == y';
    }
  }

  /** `s` without its character at position `k`. */
  function Drop(s: string, k: nat): (r: string)
    requires k < |s|
    ensures |r| == |s| - 1
    ensures forall i :: 0 <= i < k ==> r[i] == s[i]
    ensures forall i :: k <= i < |r| ==> r[i] == s[i + 1]
  {
    s[..k] + s[k + 1..]
  }

  /** A character that two equally long strings share at the same position
      never decides their order. */
  lemma SharedCharacterIrrelevant(a: string, b: string, k: nat)
    requires |a| == |b| && k < |a| && a[k] == b[k]
    ensures Less(a, b) <==> Less(Drop(a, k), Drop(b, k))
  {
    var c := a[k];
    assert a == a[..k] + ([c] + a[k + 1..]);
    assert b == b[..k] + ([c] + b[k + 1..]);
    LessConcat(a[..k], [c] + a[k + 1..], b[..k], [c] + b[k + 1..]);
    LessConcat(a[..k], a[k + 1..], b[..k], b[k + 1..]);
    assert ([c] + a[k + 1..])[1..] == a[k + 1..] && ([c] + b[k + 1..])[1..] == b[k + 1..];
  }

  /** On digit strings of equal length, string order is numeric order. */
  lemma {:induction false} LessOnDigitsIsNumeric(a: string, b: string)
    requires |a| == |b| && AllDigits(a, 10) && AllDigits(b, 10)
    ensures Less(a, b) <==> DigitsValue(a, 10) < DigitsValue(b, 10)
  {
    if a != [] {
      DigitsValueFront(a);
      DigitsValueFront(b);
      DigitsValueBound(a[1..]);
      DigitsValueBound(b[1..]);
      LessOnDigitsIsNumeric(a[1..], b[1..]);
      PositionalLess(HexValue(a[0]), HexValue(b[0]), DigitsValue(a[1..], 10),
                     DigitsValue(b[1..], 10), Pow10(|a| - 1));
      assert HexValue(a[0]) == HexValue(b[0]) ==> a[0] == b[0];
    }
  }

  /** Comparing two numbers written with one leading digit each before a
      tail smaller than `p`. */
  lemma PositionalLess(x: nat, y: nat, ra: nat, rb: nat, p: nat)
    requires ra < p && rb < p
    ensures x * p + ra < y * p + rb <==> x < y || (x == y && ra < rb)
  {
    if x < y {
      assert (x + 1) * p <= y * p;
    } else if y < x {
      assert (y + 1) * p <= x * p;
    }
  }

  function Pow10(k: nat): (p: nat)
    ensures p >= 1
  {
    if k == 0 then 1 else 10 * Pow10(k - 1)
  }

  lemma {:induction false} DigitsValueBound(s: string)
    requires AllDigits(s, 10)
    ensures DigitsValue(s, 10) < Pow10(|s|)
  {
    if s != [] {
      DigitsValueBound(s[..|s| - 1]);
    }
  }

  /** Reading a numeral from its most significant digit. */
  lemma {:induction false} DigitsValueFront(s: string)
    requires s != [] && AllDigits(s, 10)
    ensures DigitsValue(s, 10) == HexValue(s[0]) * Pow10(|s| - 1) + DigitsValue(s[1..], 10)
  {
    if |s| > 1 {
      var init := s[..|s| - 1];
      DigitsValueFront(init);
      assert init[1..] == s[1..][..|s[1..]| - 1];
      assert init[0] == s[0];
    }
  }
}
