/** The Java library conversions the optimizers rely on: `Integer.toString`,
    `Integer.valueOf`, the decimal forms `Double.valueOf` accepts, the narrowing
    `(int)` cast of a double, 32-bit `int` wrap-around and ASCII
    `String.toLowerCase`. Doubles are modelled by their exact `real` value. */
module JavaText {
  import opened Wrappers

  const INT_MIN: int := -0x8000_0000
  const INT_MAX: int := 0x7fff_ffff

  /** Java's `int`. */
  type Int32 = x: int | -0x8000_0000 <= x <= 0x7fff_ffff

  // ---------------------------------------------------------------------------
  // Decimal digits

  predicate IsDigit(c: char) {
    '0' <= c <= '9'
  }

  predicate AllDigits(s: string) {
    forall i :: 0 <= i < |s| ==> IsDigit(s[i])
  }

  function DigitValue(c: char): nat
    requires IsDigit(c)
  {
    c as int - '0' as int
  }

  function DigitChar(d: nat): (c: char)
    requires d < 10
    ensures IsDigit(c) && DigitValue(c) == d
  {
    (d + '0' as int) as char
  }

  /** The number a string of decimal digits denotes (leading zeros allowed). */
  function DigitsValue(s: string): nat
    requires AllDigits(s)
    decreases |s|
  {
    if |s| == 0 then 0 else DigitsValue(s[..|s| - 1]) * 10 + DigitValue(s[|s| - 1])
  }

  function Pow10(n: nat): (p: nat)
    ensures p >= 1
  {
    if n == 0 then 1 else 10 * Pow10(n - 1)
  }

  /** k digits denote a number below 10^k. */
  lemma {:induction false} DigitsValueBelowPow10(s: string)
    requires AllDigits(s)
    ensures DigitsValue(s) < Pow10(|s|)
  {
    if |s| > 0 {
      DigitsValueBelowPow10(s[..|s| - 1]);
    }
  }

  /** Canonical decimal text of a natural number: digits only, no leading zero. */
  function NatToString(n: nat): (s: string)
    ensures |s| >= 1 && AllDigits(s)
    ensures DigitsValue(s) == n
    ensures n > 0 ==> s[0] != '0'
  {
    if n < 10 then [DigitChar(n)]
    else
      var prefix := NatToString(n / 10);
      var s := prefix + [DigitChar(n % 10)];
      assert s[..|s| - 1] == prefix;
      s
  }

  /** `Integer.toString` (and Python's `str` of an int): an optional minus
      sign followed by the canonical digits of the magnitude. */
  function IntToString(n: int): (s: string)
    ensures |s| >= 1
    ensures n >= 0 ==> AllDigits(s) && DigitsValue(s) == n
    ensures n < 0 ==> s[0] == '-' && AllDigits(s[1..]) && DigitsValue(s[1..]) == -n
  {
    if n < 0 then
      var s := "-" + NatToString(-n);
      assert s[1..] == NatToString(-n);
      s
    else NatToString(n)
  }

  /** `Integer.valueOf`/`Integer.parseInt` in radix 10: an optional `-` or `+`,
      then at least one digit, and the value must fit in an `int`; anything
      else is a `NumberFormatException` (None). */
  function ParseInt(s: string): Option<Int32>
  {
    if |s| == 0 then None
    else
      var negative := s[0] == '-';
      var digits := if s[0] == '-' || s[0] == '+' then s[1..] else s;
      if |digits| == 0 || !AllDigits(digits) then None
      else
        var v: int := if negative then -(DigitsValue(digits) as int) else DigitsValue(digits);
        if INT_MIN <= v <= INT_MAX then Some(v) else None
  }

  /** Parsing the text `Integer.toString` prints gives the number back. */
  /** The decimal text of an integer holds only digits and a leading minus. */
  lemma IntToStringChars(n: int, c: char)
    requires c != '-' && !IsDigit(c)
    ensures c !in IntToString(n)
  {
    var s := IntToString(n);
    if n < 0 {
      forall i | 1 <= i < |s|
        ensures s[i] != c
      {
        assert s[i] == s[1..][i - 1];
      }
    }
  }

  lemma ParseIntInvertsIntToString(n: Int32)
    ensures ParseInt(IntToString(n)) == Some(n)
  {
    var s := IntToString(n);
    if n >= 0 {
      assert IsDigit(s[0]);
    }
  }

  /** Distinct integers have distinct decimal texts. */
  lemma IntToStringInjective(a: int, b: int)
    requires IntToString(a) == IntToString(b)
    ensures a == b
  {
    var s := IntToString(a);
    if a >= 0 {
      assert IsDigit(s[0]);
    }
    if b >= 0 {
      assert IsDigit(s[0]);
    }
  }

  // ---------------------------------------------------------------------------
  // Doubles

  /** A decimal literal as `Double.valueOf` reads it: sign, whole digits and
      fraction digits (either part may be empty, not both). */
  datatype Decimal = Decimal(negative: bool, whole: string, fraction: string) {

    predicate Valid() {
      AllDigits(whole) && AllDigits(fraction) && |whole| + |fraction| >= 1
    }

    /** The exact value of the literal. */
    function Value(): real
      requires Valid()
    {
      var magnitude := DigitsValue(whole) as real + DigitsValue(fraction) as real / Pow10(|fraction|) as real;
      if negative then -magnitude else magnitude
    }
  }

  /** Index of the first c in s, or |s| when there is none (`indexOf`). */
  function IndexOf(s: string, c: char): (k: nat)
    ensures k <= |s|
    ensures k < |s| ==> s[k] == c
  {
    if |s| == 0 || s[0] == c then 0 else 1 + IndexOf(s[1..], c)
  }

  /** No c comes before the index found. */
  lemma {:induction false} IndexOfIsFirst(s: string, c: char)
    ensures forall i :: 0 <= i < IndexOf(s, c) ==> s[i] != c
    decreases |s|
  {
    if |s| > 0 && s[0] != c {
      IndexOfIsFirst(s[1..], c);
      assert forall i :: 1 <= i < IndexOf(s, c) ==> s[i] == s[1..][i - 1];
    }
  }

  /** The first c after a c-free prefix is found right after that prefix. */
  lemma {:induction false} IndexOfAfterPrefix(a: string, c: char, b: string)
    requires forall i :: 0 <= i < |a| ==> a[i] != c
    ensures IndexOf(a + [c] + b, c) == |a|
    decreases |a|
  {
    var s := a + [c] + b;
    if |a| > 0 {
      assert s[0] == a[0];
      assert s[1..] == a[1..] + [c] + b;
      assert forall i :: 0 <= i < |a[1..]| ==> a[1..][i] == a[i + 1];
      IndexOfAfterPrefix(a[1..], c, b);
    }
  }

  /** An unsigned literal with a point splits into its whole and fraction digits. */
  lemma ParsePointLiteral(whole: string, fraction: string)
    requires |whole| >= 1 && AllDigits(whole) && AllDigits(fraction)
    ensures ParseDecimal(whole + "." + fraction) == Some(Decimal(false, whole, fraction))
  {
    var s := whole + "." + fraction;
    assert s[0] == whole[0];
    IndexOfAfterPrefix(whole, '.', fraction);
    assert s[..|whole|] == whole;
    assert s[|whole| + 1..] == fraction;
  }

  /** The plain decimal forms `Double.valueOf` accepts: `[+-]digits[.digits]`,
      `[+-].digits`, `[+-]digits.`; None stands for `NumberFormatException`. */
  function ParseDecimal(s: string): (r: Option<Decimal>)
    ensures r.Some? ==> r.value.Valid()
  {
    if |s| == 0 then None
    else
      var negative := s[0] == '-';
      var body := if s[0] == '-' || s[0] == '+' then s[1..] else s;
      var k := IndexOf(body, '.');
      var whole := body[..k];
      var fraction := if k < |body| then body[k + 1..] else "";
      if |whole| + |fraction| == 0 || !AllDigits(whole) || !AllDigits(fraction) then None
      else Some(Decimal(negative, whole, fraction))
  }

  /** Rounding toward zero. */
  function Truncate(x: real): int
  {
    if x >= 0.0 then x.Floor else -((-x).Floor)
  }

  /** Clamping to the `int` range, as Java's narrowing casts do. */
  function Saturate(t: int): Int32
  {
    if t < INT_MIN then INT_MIN else if t > INT_MAX then INT_MAX else t
  }

  /** Java's narrowing `(int)` cast of a double: truncation toward zero,
      saturating at the ends of the `int` range. */
  function DoubleToInt(x: real): (r: Int32)
    ensures x >= 0.0 ==> r >= 0 && r as real <= x && (x < (r + 1) as real || r == INT_MAX)
    ensures x < 0.0 ==> r <= 0 && x <= r as real && ((r - 1) as real < x || r == INT_MIN)
  {
    Saturate(Truncate(x))
  }

  /** Java's 32-bit two's-complement wrap-around of an `int` expression. */
  function Wrap32(i: int): (r: Int32)
    ensures (r - i) % 0x1_0000_0000 == 0
    ensures INT_MIN <= i <= INT_MAX ==> r == i
  {
    (i - INT_MIN) % 0x1_0000_0000 + INT_MIN
  }

  lemma FloorIs(w: int, x: real)
    requires w as real <= x < (w + 1) as real
    ensures x.Floor == w
  {
  }

  lemma QuotientBelowOne(a: real, b: real)
    requires 0.0 <= a < b
    ensures 0.0 <= a / b < 1.0
  {
    var q := a / b;
    assert q * b == a;
  }

  /** The fraction digits contribute a value in [0, 1). */
  lemma FractionBelowOne(fraction: string)
    requires AllDigits(fraction)
    ensures 0.0 <= DigitsValue(fraction) as real / Pow10(|fraction|) as real < 1.0
  {
    DigitsValueBelowPow10(fraction);
    QuotientBelowOne(DigitsValue(fraction) as real, Pow10(|fraction|) as real);
  }

  /** Truncating a decimal literal keeps exactly its whole-number digits (then
      saturates): the fraction digits never change the `(int)` result. */
  lemma TruncationKeepsWholePart(d: Decimal)
    requires d.Valid()
    ensures var w: int := DigitsValue(d.whole);
            DoubleToInt(d.Value()) == Saturate(if d.negative then -w else w)
  {
    var w: int := DigitsValue(d.whole);
    var f := DigitsValue(d.fraction) as real / Pow10(|d.fraction|) as real;
    FractionBelowOne(d.fraction);
    var m := w as real + f;
    FloorIs(w, m);
    assert Truncate(m) == w;
    if d.negative {
      assert d.Value() == -m;
      if m == 0.0 {
        assert w == 0;
      } else {
        assert Truncate(-m) == -w;
      }
    } else {
      assert d.Value() == m;
    }
  }

  // ---------------------------------------------------------------------------
  // Case

  function LowerChar(c: char): char {
    if 'A' <= c <= 'Z' then (c as int + 32) as char else c
  }

  /** `String.toLowerCase` restricted to ASCII letters. */
  function ToLowerCase(s: string): string {
    seq(|s|, i requires 0 <= i < |s| => LowerChar(s[i]))
  }
}
