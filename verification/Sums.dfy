/** Sums of a natural-valued function over a sequence. */
module Sums {

  function Sum<T>(xs: seq<T>, f: T -> nat): nat {
    if xs == [] then 0 else Sum(xs[..|xs| - 1], f) + f(xs[|xs| - 1])
  }

  lemma {:induction false} SumAppend<T>(xs: seq<T>, ys: seq<T>, f: T -> nat)
    ensures Sum(xs + ys, f) == Sum(xs, f) + Sum(ys, f)
  {
    if ys == [] {
      assert xs + ys == xs;
    } else {
      assert (xs + ys)[..|xs + ys| - 1] == xs + ys[..|ys| - 1];
      SumAppend(xs, ys[..|ys| - 1], f);
    }
  }

  /** Two lists that agree position by position have equal sums. */
  lemma {:induction false} SumsAgree<S, T>(xs: seq<S>, f: S -> nat, ys: seq<T>, g: T -> nat)
    requires |xs| == |ys| && forall i | 0 <= i < |xs| :: f(xs[i]) == g(ys[i])
    ensures Sum(xs, f) == Sum(ys, g)
  {
    if xs != [] {
      SumsAgree(xs[..|xs| - 1], f, ys[..|ys| - 1], g);
    }
  }
}
