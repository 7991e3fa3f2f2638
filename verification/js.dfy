/**
  The few pieces of JavaScript value semantics the page relies on: truthiness,
  the `||` fallback, reading an array element by an integer key, the truncating
  remainder operator, and the decimal text of an integer (what `n + ""` and a
  template literal `${n}` produce).
 */
module Js {

  /** A JavaScript value as the page uses it: `undefined` or a string. */
  datatype JsValue = Undefined | Str(text: string)

  /** A value is truthy unless it is `undefined` or the empty string. */
  predicate Truthy(v: JsValue)
  {
    v.Str? && v.text != ""
  }

  /** `a || b`: the left operand when it is truthy, otherwise the right one. */
  function Or(a: JsValue, b: JsValue): (r: JsValue)
    ensures Truthy(r) <==> Truthy(a) || Truthy(b)
    ensures r == a || r == b
  {
    if Truthy(a) then a else b
  }

  /** `xs[k]` for an integer key: the element when `k` is an index, `undefined` otherwise. */
  function At(xs: seq<string>, k: int): (r: JsValue)
    ensures r.Str? <==> 0 <= k < |xs|
    ensures r.Str? ==> r.text == xs[k]
  {
    if 0 <= k < |xs| then Str(xs[k]) else Undefined
  }

  /** The string a value turns into when it is concatenated to another string. */
  function ToText(v: JsValue): string
  {
    match v
    case Undefined => "undefined"
    case Str(t) => t
  }

  /**
    JavaScript's `a % b` on integers and a positive divisor: the remainder of
    division truncated toward zero, so it takes the sign of the dividend and the
    magnitude of `|a| % b` (Dafny's `%` is Euclidean).
   */
  function Rem(a: int, b: int): (r: int)
    requires b > 0
    ensures a >= 0 ==> r == a % b
    ensures a < 0 ==> r <= 0 && -r == (-a) % b
  {
    if a >= 0 then a % b else -((-a) % b)
  }

  /**
    `Rem` is the remainder of a division whose quotient `q` is truncated toward
    zero: `a == b * q + Rem(a, b)`, the remainder is smaller than `b` in
    magnitude, and quotient and remainder both take the sign of the dividend.
   */
  lemma RemTruncates(a: int, b: int) returns (q: int)
    requires b > 0
    ensures a == b * q + Rem(a, b)
    ensures -b < Rem(a, b) < b
    ensures a >= 0 ==> Rem(a, b) >= 0 && q >= 0
    ensures a <= 0 ==> Rem(a, b) <= 0 && q <= 0
  {
    if a >= 0 {
      q := a / b;
    } else {
      q := -((-a) / b);
      assert -a == b * ((-a) / b) + (-a) % b;
    }
  }

  // ---------------------------------------------------------------------------
  // Decimal text of integers
  // ---------------------------------------------------------------------------

  predicate IsDigit(c: char)
  {
    '0' <= c <= '9'
  }

  function DigitChar(d: int): (c: char)
    requires 0 <= d < 10
    ensures IsDigit(c)
  {
    ('0' as int + d) as char
  }

  function DigitValue(c: char): (d: int)
    requires IsDigit(c)
    ensures 0 <= d < 10
  {
    c as int - '0' as int
  }

  /** The shortest decimal digit string of a natural number. */
  function Digits(n: nat): (s: string)
    decreases n
  {
    if n < 10 then [DigitChar(n)] else Digits(n / 10) + [DigitChar(n % 10)]
  }

  /**
    How JavaScript writes an integer-valued number of magnitude at most 2^53 as
    text: a minus sign for negative numbers, then the shortest digit string.
    Above 2^53 JavaScript writes the shortest digits that round back to the
    same double, padded with zeros (2 ** 55 is written "36028797018963970"),
    and from 10^21 on it switches to exponent form ("1e+21"); this function
    produces neither.
   */
  function Decimal(n: int): (s: string)
  {
    if n < 0 then "-" + Digits(-n) else Digits(n)
  }

  /**
    The text of an integer starts with '-' exactly when it is negative, and the
    rest is decimal digits that read back as its magnitude.
   */
  lemma DecimalRoundTrip(n: int)
    ensures |Decimal(n)| >= 1 && (Decimal(n)[0] == '-' <==> n < 0)
    ensures var t := if n < 0 then Decimal(n)[1..] else Decimal(n);
      && (forall k :: 0 <= k < |t| ==> IsDigit(t[k]))
      && DigitsValue(t) == (if n < 0 then -n else n)
  {
    var m := if n < 0 then -n else n;
    DigitsWellFormed(m);
    DigitsRoundTrip(m);
    if n < 0 {
      assert Decimal(n)[1..] == Digits(m);
    }
  }

  /** Reads a string of decimal digits back as a number (the inverse of `Digits`). */
  function DigitsValue(s: string): (n: nat)
    requires forall k :: 0 <= k < |s| ==> IsDigit(s[k])
  {
    if s == [] then 0 else 10 * DigitsValue(s[..|s| - 1]) + DigitValue(s[|s| - 1])
  }

  /** `Digits` writes only digits, at least one, and no leading zero unless the number is zero. */
  lemma {:induction false} DigitsWellFormed(n: nat)
    ensures |Digits(n)| >= 1
    ensures forall k :: 0 <= k < |Digits(n)| ==> IsDigit(Digits(n)[k])
    ensures Digits(n)[0] == '0' <==> n == 0
    decreases n
  {
    if n >= 10 {
      DigitsWellFormed(n / 10);
    }
  }

  /** Reading the digits back yields the number: `Digits` loses no information. */
  lemma {:induction false} DigitsRoundTrip(n: nat)
    ensures forall k :: 0 <= k < |Digits(n)| ==> IsDigit(Digits(n)[k])
    ensures DigitsValue(Digits(n)) == n
    decreases n
  {
    DigitsWellFormed(n);
    if n >= 10 {
      DigitsRoundTrip(n / 10);
      var s := Digits(n);
      assert s[..|s| - 1] == Digits(n / 10);
    } else {
      assert Digits(n)[..0] == [];
    }
  }

  /** Distinct integers are written differently, so ids built from them never collide. */
  lemma DecimalInjective(m: int, n: int)
    requires Decimal(m) == Decimal(n)
    ensures m == n
  {
    DigitsWellFormed(if m < 0 then -m else m);
    DigitsWellFormed(if n < 0 then -n else n);
    if m < 0 && n < 0 {
      assert Digits(-m) == Decimal(m)[1..] == Decimal(n)[1..] == Digits(-n);
      DigitsRoundTrip(-m);
      DigitsRoundTrip(-n);
    } else if m >= 0 && n >= 0 {
      DigitsRoundTrip(m);
      DigitsRoundTrip(n);
    }
  }
}
