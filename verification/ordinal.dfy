/**
  `ordinal(n)` of the practice page: a number followed by its English ordinal
  suffix. The suffix is picked by reading a four-element table with JavaScript
  indexing and `||` fallbacks, so the model spells those semantics out through
  the `Js` module.
 */
module Ordinal {
  import opened Js

  const Suffixes: seq<string> := ["th", "st", "nd", "rd"]

  /** The suffix expression `s[(v - 20) % 10] || s[v] || s[0]` with `v = n % 100`. */
  function SuffixValue(n: int): JsValue
  {
    var v := Rem(n, 100);
    Or(Or(At(Suffixes, Rem(v - 20, 10)), At(Suffixes, v)), At(Suffixes, 0))
  }

  /** `n + suffix`: the number's decimal text followed by the suffix text. */
  function Ordinal(n: int): (r: string)
    ensures r == Decimal(n) + EnglishSuffix(n)
  {
    SuffixAgreesWithEnglish(n);
    Decimal(n) + ToText(SuffixValue(n))
  }

  /**
    The English rule, written independently of the table lookup: 11th, 12th and
    13th (modulo 100) take "th"; otherwise the last digit picks "st", "nd", "rd"
    or "th". The page's expression gives "th" to every negative number.
   */
  function EnglishSuffix(n: int): string
  {
    if n < 0 then "th"
    else if 11 <= n % 100 <= 13 then "th"
    else if n % 10 == 1 then "st"
    else if n % 10 == 2 then "nd"
    else if n % 10 == 3 then "rd"
    else "th"
  }

  /**
    The lookup with its fallbacks, for any pair of keys: the first key when it
    indexes the table, else the second, else "th". No entry of the table is
    the empty string, so a hit is never skipped by `||`.
   */
  lemma TableLookup(v: int, w: int)
    ensures Or(Or(At(Suffixes, w), At(Suffixes, v)), At(Suffixes, 0))
         == Str(if 0 <= w < 4 then Suffixes[w] else if 0 <= v < 4 then Suffixes[v] else "th")
  {
    if 0 <= w < 4 {
      assert Truthy(At(Suffixes, w));
    } else if 0 <= v < 4 {
      assert !Truthy(At(Suffixes, w)) && Truthy(At(Suffixes, v));
    }
  }

  /** The table lookup with its fallbacks computes the English rule on every integer. */
  lemma SuffixAgreesWithEnglish(n: int)
    ensures SuffixValue(n) == Str(EnglishSuffix(n))
  {
    var v := Rem(n, 100);
    var w := Rem(v - 20, 10);
    TableLookup(v, w);
    if n < 0 {
      assert -99 <= v <= 0 && -9 <= w <= 0;
    } else {
      assert v == n % 100;
      LastDigitOfLastTwo(n);
      if v >= 20 {
        assert w == v % 10;
      } else {
        assert -9 <= w <= 0;
        assert w == 0 <==> v == 0 || v == 10;
      }
    }
  }

  /** For n >= 0 the suffix depends on nothing but `n % 100`. */
  lemma SuffixDependsOnLastTwoDigits(m: nat, n: nat)
    requires m % 100 == n % 100
    ensures SuffixValue(m) == SuffixValue(n)
  {
    SuffixAgreesWithEnglish(m);
    SuffixAgreesWithEnglish(n);
    LastDigitOfLastTwo(m);
    LastDigitOfLastTwo(n);
  }

  lemma LastDigitOfLastTwo(n: nat)
    ensures n % 10 == (n % 100) % 10
  {
    var k, r := n / 100, n % 100;
    assert n == 10 * (10 * k + r / 10) + r % 10;
    DivModUnique(n, 10 * k + r / 10, r % 10);
  }

  lemma DivModUnique(x: int, q: int, d: int)
    requires x == 10 * q + d && 0 <= d < 10
    ensures x % 10 == d
  {
  }

  /** The cases the page's comment advertises: 1st, 2nd, 3rd, 4th. */
  lemma FirstOrdinals()
    ensures Ordinal(1) == "1st" && Ordinal(2) == "2nd" && Ordinal(3) == "3rd" && Ordinal(4) == "4th"
  {
  }

  lemma TeenOrdinals()
    ensures Ordinal(11) == "11th" && Ordinal(12) == "12th" && Ordinal(13) == "13th"
  {
  }

  lemma TwentiesOrdinals()
    ensures Ordinal(21) == "21st" && Ordinal(22) == "22nd" && Ordinal(23) == "23rd"
  {
  }
}
