/** The arithmetic folds the risk engine is built from: Python's built-in
    `sum`, the module's own `prod` helper (risk_tool.py:145-152) and the
    "at least one independent event happens" combination 1 - prod(1 - p)
    that both the OR gate and the analytic aggregate compute. Probabilities
    and scores are exact reals here. */
module Folds {

  /** `sum(xs)`: the left fold of addition starting from 0. */
  function Sum(xs: seq<real>): real {
    if |xs| == 0 then 0.0 else Sum(xs[..|xs| - 1]) + xs[|xs| - 1]
  }

  /** The left fold of multiplication starting from 1.0, as `prod` computes it. */
  function Product(xs: seq<real>): real {
    if |xs| == 0 then 1.0 else Product(xs[..|xs| - 1]) * xs[|xs| - 1]
  }

  /** The generator `(1.0 - p for p in ps)`. */
  function Complements(ps: seq<real>): seq<real> {
    seq(|ps|, i requires 0 <= i < |ps| => 1.0 - ps[i])
  }

  /** Probability that at least one of several independent events with
      probabilities `ps` happens. */
  function AnyOf(ps: seq<real>): real {
    1.0 - Product(Complements(ps))
  }

  predicate InUnit(x: real) {
    0.0 <= x <= 1.0
  }

  predicate AllInUnit(xs: seq<real>) {
    forall i :: 0 <= i < |xs| ==> InUnit(xs[i])
  }

  /** The loop of `prod`: multiply an accumulator that starts at 1.0 by each
      element in turn. */
  method Prod(xs: seq<real>) returns (result: real)
    ensures result == Product(xs)
  {
    result := 1.0;
    var i := 0;
    while i < |xs|
      invariant 0 <= i <= |xs|
      invariant result == Product(xs[..i])
    {
      assert xs[..i + 1][..i] == xs[..i];
      result := result * xs[i];
      i := i + 1;
    }
    assert xs[..|xs|] == xs;
  }

  lemma {:induction false} SumAppend(xs: seq<real>, ys: seq<real>)
    ensures Sum(xs + ys) == Sum(xs) + Sum(ys)
    decreases |ys|
  {
    if |ys| == 0 {
      assert xs + ys == xs;
    } else {
      var ys' := ys[..|ys| - 1];
      assert (xs + ys)[..|xs + ys| - 1] == xs + ys';
      SumAppend(xs, ys');
    }
  }

  /** A sum of `n` values each in [lo, hi] lies in [n * lo, n * hi]. */
  lemma {:induction false} SumBounds(xs: seq<real>, lo: real, hi: real)
    requires forall i :: 0 <= i < |xs| ==> lo <= xs[i] <= hi
    ensures |xs| as real * lo <= Sum(xs) <= |xs| as real * hi
  {
    if |xs| > 0 {
      SumBounds(xs[..|xs| - 1], lo, hi);
    }
  }

  lemma {:induction false} ProductAppend(xs: seq<real>, ys: seq<real>)
    ensures Product(xs + ys) == Product(xs) * Product(ys)
    decreases |ys|
  {
    if |ys| == 0 {
      assert xs + ys == xs;
    } else {
      var ys' := ys[..|ys| - 1];
      assert (xs + ys)[..|xs + ys| - 1] == xs + ys';
      ProductAppend(xs, ys');
    }
  }

  /** A product of factors in [0, 1] lies in [0, 1]. */
  lemma {:induction false} ProductInUnit(xs: seq<real>)
    requires AllInUnit(xs)
    ensures InUnit(Product(xs))
  {
    if |xs| > 0 {
      var init := xs[..|xs| - 1];
      ProductInUnit(init);
      var p, x := Product(init), xs[|xs| - 1];
      assert 0.0 <= p * x <= p * 1.0;
    }
  }

  /** A product with a zero factor is zero. */
  lemma {:induction false} ProductZero(xs: seq<real>, k: nat)
    requires k < |xs| && xs[k] == 0.0
    ensures Product(xs) == 0.0
  {
    if k < |xs| - 1 {
      ProductZero(xs[..|xs| - 1], k);
    }
  }

  /** A product of ones is one. */
  lemma {:induction false} ProductOfOnes(xs: seq<real>)
    requires forall i :: 0 <= i < |xs| ==> xs[i] == 1.0
    ensures Product(xs) == 1.0
  {
    if |xs| > 0 {
      ProductOfOnes(xs[..|xs| - 1]);
    }
  }

  lemma ComplementsAppend(ps: seq<real>, p: real)
    ensures Complements(ps + [p]) == Complements(ps) + [1.0 - p]
  {
  }

  lemma ComplementsInUnit(ps: seq<real>)
    requires AllInUnit(ps)
    ensures AllInUnit(Complements(ps))
  {
  }

  /** No event at all: the probability that one happens is 0. */
  lemma AnyOfEmpty()
    ensures AnyOf([]) == 0.0
  {
  }

  /** Adding one more independent event E to a group G gives
      P(G or E) = P(G) + P(E) - P(G) * P(E). */
  lemma AnyOfAppend(ps: seq<real>, p: real)
    ensures AnyOf(ps + [p]) == AnyOf(ps) + p - AnyOf(ps) * p
  {
    ComplementsAppend(ps, p);
    ProductAppend(Complements(ps), [1.0 - p]);
  }

  /** Probabilities in [0, 1] combine to a probability in [0, 1]. */
  lemma AnyOfInUnit(ps: seq<real>)
    requires AllInUnit(ps)
    ensures InUnit(AnyOf(ps))
  {
    ComplementsInUnit(ps);
    ProductInUnit(Complements(ps));
  }

  /** One certain event makes the combination certain. */
  lemma AnyOfCertain(ps: seq<real>, k: nat)
    requires k < |ps| && ps[k] == 1.0
    ensures AnyOf(ps) == 1.0
  {
    ProductZero(Complements(ps), k);
  }

  /** Only impossible events make the combination impossible. */
  lemma AnyOfImpossible(ps: seq<real>)
    requires forall i :: 0 <= i < |ps| ==> ps[i] == 0.0
    ensures AnyOf(ps) == 0.0
  {
    ProductOfOnes(Complements(ps));
  }
}
