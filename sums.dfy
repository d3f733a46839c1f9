/**
 * Finite sums used to state that a tally does not depend on the order in
 * which its items are visited.
 */
module Sums {
  /** The sum of `f` over the items of `xs`, added from the front. */
  function SumOf<T>(xs: seq<T>, f: T -> nat): nat
  {
    if xs == [] then 0 else SumOf(xs[..|xs| - 1], f) + f(xs[|xs| - 1])
  }

  /** A sum over a concatenation is the sum of the two parts. */
  lemma {:induction false} SumOfConcat<T>(xs: seq<T>, ys: seq<T>, f: T -> nat)
    ensures SumOf(xs + ys, f) == SumOf(xs, f) + SumOf(ys, f)
  {
    if ys == [] {
      assert xs + ys == xs;
    } else {
      var last := |ys| - 1;
      SumOfConcat(xs, ys[..last], f);
      assert (xs + ys)[..|xs + ys| - 1] == xs + ys[..last];
    }
  }

  /** Sums over two orderings of the same items are equal. */
  lemma {:induction false} SumOfPermutation<T>(xs: seq<T>, ys: seq<T>, f: T -> nat)
    requires multiset(xs) == multiset(ys)
    ensures SumOf(xs, f) == SumOf(ys, f)
    decreases |xs|
  {
    if xs == [] {
      assert |ys| == |multiset(ys)| == 0;
    } else {
      var last := |xs| - 1;
      var x := xs[last];
      assert xs == xs[..last] + [x];
      assert x in multiset(ys);
      var i :| 0 <= i < |ys| && ys[i] == x;
      assert ys == ys[..i] + [x] + ys[i + 1..];
      var rest := ys[..i] + ys[i + 1..];
      calc {
        multiset(ys);
        multiset(ys[..i] + [x] + ys[i + 1..]);
        multiset(ys[..i]) + multiset{x} + multiset(ys[i + 1..]);
        multiset(rest) + multiset{x};
      }
      assert multiset(xs) == multiset(xs[..last]) + multiset{x};
      assert multiset(rest) == multiset(ys) - multiset{x};
      assert multiset(xs[..last]) == multiset(xs) - multiset{x};
      SumOfPermutation(xs[..last], rest, f);
      SumOfConcat(ys[..i] + [x], ys[i + 1..], f);
      SumOfConcat(ys[..i], [x], f);
      SumOfConcat(ys[..i], ys[i + 1..], f);
      assert SumOf([x], f) == f(x) by {
        assert [x][..0] == [];
      }
    }
  }

  /** Replacing an item by one with the same term leaves the sum unchanged. */
  lemma {:induction false} SumOfUpdate<T>(xs: seq<T>, n: nat, y: T, f: T -> nat)
    requires n < |xs| && f(y) == f(xs[n])
    ensures SumOf(xs[n := y], f) == SumOf(xs, f)
  {
    var last := |xs| - 1;
    var ys := xs[n := y];
    assert ys[..last] == if n == last then xs[..last] else xs[..last][n := y];
    if n < last {
      SumOfUpdate(xs[..last], n, y, f);
    }
  }

  /** The sum of `g(k)` for `0 <= k < n`. */
  function SumBelow(n: nat, g: int -> nat): nat
  {
    if n == 0 then 0 else SumBelow(n - 1, g) + g(n - 1)
  }

  /** A pointwise sum of two terms sums to the sum of the two sums. */
  lemma {:induction false} SumBelowAdd(n: nat, g: int -> nat, h: int -> nat, s: int -> nat)
    requires forall k :: 0 <= k < n ==> s(k) == g(k) + h(k)
    ensures SumBelow(n, s) == SumBelow(n, g) + SumBelow(n, h)
  {
    if n > 0 {
      SumBelowAdd(n - 1, g, h, s);
    }
  }

  /** Summing an indicator of `c` gives 1 exactly when `c` is in range. */
  lemma {:induction false} SumBelowIndicator(n: nat, c: int, g: int -> nat)
    requires forall k :: 0 <= k < n ==> g(k) == if k == c then 1 else 0
    ensures SumBelow(n, g) == if 0 <= c < n then 1 else 0
  {
    if n > 0 {
      SumBelowIndicator(n - 1, c, g);
    }
  }
}
