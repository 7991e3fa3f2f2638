/**
  `shuffle(array)` of the practice page: a Fisher-Yates pass over a copy of the
  input. `Math.random()` is replaced by a sequence of draws, each in [0, 1); the
  k-th draw is the one consumed by the k-th iteration.
 */
module Shuffle {

  /** `Math.floor(draw * (i + 1))`: an index in [0, i]. */
  function Pick(draw: real, i: nat): (j: nat)
    requires 0.0 <= draw < 1.0
    ensures j <= i
  {
    ScaledBelow(draw, i);
    (draw * (i + 1) as real).Floor
  }

  lemma ScaledBelow(draw: real, i: nat)
    requires 0.0 <= draw < 1.0
    ensures 0.0 <= draw * (i + 1) as real < (i + 1) as real
  {
    var m := (i + 1) as real;
    assert draw * m <= m - (1.0 - draw) * m;
    assert (1.0 - draw) * m > 0.0;
  }

  predicate ValidDraws(draws: seq<real>)
  {
    forall k :: 0 <= k < |draws| ==> 0.0 <= draws[k] < 1.0
  }

  /** Exchanges the elements at positions i and j (`[arr[i], arr[j]] = [arr[j], arr[i]]`). */
  function Swap<T>(s: seq<T>, i: nat, j: nat): (r: seq<T>)
    requires i < |s| && j < |s|
    ensures |r| == |s| && r[i] == s[j] && r[j] == s[i]
    ensures forall k :: 0 <= k < |s| && k != i && k != j ==> r[k] == s[k]
    ensures multiset(r) == multiset(s)
  {
    s[i := s[j]][j := s[i]]
  }

  /**
    The shuffle proper. The result is a rearrangement of the input: same length,
    same elements with the same multiplicities. The input is a value and is
    therefore left as it was, as the copy `[...array]` guarantees in the page.
   */
  method Shuffle<T>(a: seq<T>, draws: seq<real>) returns (arr: seq<T>)
    requires ValidDraws(draws)
    requires |a| <= |draws| + 1
    ensures |arr| == |a|
    ensures multiset(arr) == multiset(a)
  {
    arr := a;
    var i := |a| - 1;
    while i > 0
      invariant -1 <= i < |a|
      invariant |arr| == |a|
      invariant multiset(arr) == multiset(a)
      decreases i
    {
      var j := Pick(draws[|a| - 1 - i], i);
      arr := Swap(arr, i, j);
      i := i - 1;
    }
  }
}
