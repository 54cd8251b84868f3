/** Sums over the threads of a system, and what changing one thread does to them. */
module Totals {

  function Total<T>(xs: seq<T>, f: T -> nat): nat {
    if xs == [] then 0 else Total(xs[..|xs| - 1], f) + f(xs[|xs| - 1])
  }

  lemma {:induction false} TotalUpdate<T>(xs: seq<T>, i: nat, x: T, f: T -> nat)
    requires i < |xs|
    ensures Total(xs[i := x], f) + f(xs[i]) == Total(xs, f) + f(x)
  {
    var n := |xs| - 1;
    var updated := xs[i := x];
    if i == n {
      assert updated[..n] == xs[..n];
    } else {
      TotalUpdate(xs[..n], i, x, f);
      assert updated[..n] == xs[..n][i := x];
    }
  }

  lemma {:induction false} TotalOfOne<T>(xs: seq<T>, i: nat, f: T -> nat)
    requires i < |xs|
    ensures f(xs[i]) <= Total(xs, f)
  {
    if i < |xs| - 1 {
      TotalOfOne(xs[..|xs| - 1], i, f);
    }
  }

  lemma {:induction false} TotalOfTwo<T>(xs: seq<T>, i: nat, j: nat, f: T -> nat)
    requires i < j < |xs|
    ensures f(xs[i]) + f(xs[j]) <= Total(xs, f)
  {
    var n := |xs| - 1;
    if j == n {
      TotalOfOne(xs[..n], i, f);
    } else {
      TotalOfTwo(xs[..n], i, j, f);
    }
  }

  /** Pointwise below means below in total, and equal in total only if equal everywhere. */
  lemma {:induction false} TotalCompare<T>(xs: seq<T>, f: T -> nat, g: T -> nat)
    requires forall i :: 0 <= i < |xs| ==> f(xs[i]) <= g(xs[i])
    ensures Total(xs, f) <= Total(xs, g)
    ensures Total(xs, f) == Total(xs, g) <==>
            forall i :: 0 <= i < |xs| ==> f(xs[i]) == g(xs[i])
  {
    if xs != [] {
      var n := |xs| - 1;
      TotalCompare(xs[..n], f, g);
      assert forall i :: 0 <= i < n ==> xs[..n][i] == xs[i];
    }
  }

  lemma {:induction false} TotalZero<T>(xs: seq<T>, f: T -> nat)
    ensures Total(xs, f) == 0 <==> forall i :: 0 <= i < |xs| ==> f(xs[i]) == 0
  {
    if xs != [] {
      var n := |xs| - 1;
      TotalZero(xs[..n], f);
      assert forall i :: 0 <= i < n ==> xs[..n][i] == xs[i];
    }
  }
}
