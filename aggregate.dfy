/** Compromise probability of a flat catalog of independent threats, in
    closed form and by Monte Carlo sampling (risk_tool.py:132-143). */
module Aggregate {
  import opened Folds
  import opened Catalog

  /** The random source: the k-th value `random.random()` returns. */
  type Draws = nat -> real

  /** `random.random()` returns values in [0, 1). */
  ghost predicate DrawsInRange(draws: Draws) {
    forall k: nat :: 0.0 <= draws(k) < 1.0
  }

  /** Every numeric `prob` of the catalog is a probability. */
  predicate ProbsInUnit(threats: seq<Threat>) {
    forall i :: 0 <= i < |threats| && threats[i].prob.Num? ==> InUnit(threats[i].prob.p)
  }

  /** `[float(t.get("prob", 0.0)) for t in threats if t.get("prob") is not None]`:
      the probabilities of the threats whose `prob` is neither missing nor
      `null`, in catalog order. */
  function IncludedProbs(threats: seq<Threat>): (ps: seq<real>)
    ensures |ps| <= |threats|
    ensures forall p :: p in ps <==> exists i :: 0 <= i < |threats| && threats[i].prob == Num(p)
  {
    if |threats| == 0 then []
    else
      var init := threats[..|threats| - 1];
      var last := threats[|threats| - 1];
      assert forall i :: 0 <= i < |init| ==> init[i] == threats[i];
      IncludedProbs(init) + if last.prob.Num? then [last.prob.p] else []
  }

  /** `any(random.random() < p for p in ps)` with the draws taken from
      position `cursor` on: the trial stops drawing at the first threat that
      activates. Returns whether some threat activated and the position of
      the next unused draw. */
  function Trial(ps: seq<real>, draws: Draws, cursor: nat): (t: (bool, nat))
    ensures t.0 ==> cursor < t.1 <= cursor + |ps|
    ensures !t.0 ==> t.1 == cursor + |ps|
    decreases |ps|
  {
    if |ps| == 0 then (false, cursor)
    else if draws(cursor) < ps[0] then (true, cursor + 1)
    else Trial(ps[1..], draws, cursor + 1)
  }

  /** The first `n` trials from the start of the random source: the number
      of compromises and the position of the next unused draw. */
  function Run(ps: seq<real>, draws: Draws, n: nat): (nat, nat) {
    if n == 0 then (0, 0)
    else
      var (successes, cursor) := Run(ps, draws, n - 1);
      var (hit, next) := Trial(ps, draws, cursor);
      (successes + if hit then 1 else 0, next)
  }

  /** The number of trials when the caller gives none. */
  const DefaultIterations: int := 10000

  /** `monte_carlo_compromise_probability`: the analytic probability that at
      least one threat succeeds, and the fraction of `iterations` trials in
      which one did (the analytic value again when `iterations` is not
      positive). */
  method MonteCarloCompromiseProbability(threats: seq<Threat>, draws: Draws, iterations: int := DefaultIterations)
    returns (analytic: real, monteCarlo: real)
    ensures analytic == AnyOf(IncludedProbs(threats))
    ensures iterations > 0 ==>
      monteCarlo == Run(IncludedProbs(threats), draws, iterations).0 as real / iterations as real
    ensures iterations <= 0 ==> monteCarlo == analytic
    ensures iterations > 0 ==> InUnit(monteCarlo)
    ensures ProbsInUnit(threats) ==> InUnit(analytic) && InUnit(monteCarlo)
  {
    var probabilities := IncludedProbs(threats);
    var survival := Prod(Complements(probabilities));
    analytic := 1.0 - survival;
    var successes := 0;
    var cursor := 0;
    var i := 0;
    while i < iterations
      invariant 0 <= i && (iterations > 0 ==> i <= iterations)
      invariant (successes, cursor) == Run(probabilities, draws, i)
    {
      var (hit, next) := Trial(probabilities, draws, cursor);
      if hit {
        successes := successes + 1;
      }
      cursor := next;
      i := i + 1;
    }
    if iterations > 0 {
      RunCountBound(probabilities, draws, iterations);
      FractionInUnit(successes, iterations);
      monteCarlo := successes as real / iterations as real;
    } else {
      monteCarlo := analytic;
    }
    if ProbsInUnit(threats) {
      IncludedProbsInUnit(threats);
      AnyOfInUnit(probabilities);
    }
  }

  /** A fraction of successes out of `n > 0` trials is a probability. */
  lemma FractionInUnit(k: nat, n: nat)
    requires 0 < n && k <= n
    ensures InUnit(k as real / n as real)
  {
    assert k as real / n as real <= n as real / n as real;
  }

  /** One threat contributes its `prob` exactly when it is a number. */
  lemma IncludedProbsSingle(t: Threat)
    ensures IncludedProbs([t]) == if t.prob.Num? then [t.prob.p] else []
  {
    assert [t][..0] == [];
  }

  /** The filter works threat by threat: every numeric `prob` of a catalog
      appears once, in catalog order, however the catalog is split. */
  lemma {:induction false} IncludedProbsAppend(a: seq<Threat>, b: seq<Threat>)
    ensures IncludedProbs(a + b) == IncludedProbs(a) + IncludedProbs(b)
    decreases |b|
  {
    if |b| == 0 {
      assert a + b == a;
    } else {
      var b' := b[..|b| - 1];
      assert (a + b)[..|a + b| - 1] == a + b';
      IncludedProbsAppend(a, b');
    }
  }

  lemma IncludedProbsInUnit(threats: seq<Threat>)
    requires ProbsInUnit(threats)
    ensures AllInUnit(IncludedProbs(threats))
  {
    var ps := IncludedProbs(threats);
    forall j | 0 <= j < |ps| ensures InUnit(ps[j]) {
      assert ps[j] in ps;
    }
  }

  lemma {:induction false} NothingIncluded(threats: seq<Threat>)
    requires forall i :: 0 <= i < |threats| ==> !threats[i].prob.Num?
    ensures IncludedProbs(threats) == []
  {
    if |threats| > 0 {
      NothingIncluded(threats[..|threats| - 1]);
    }
  }

  /** A catalog in which no threat has a numeric `prob` has analytic
      compromise probability 0. */
  lemma AnalyticWithoutProbabilities(threats: seq<Threat>)
    requires forall i :: 0 <= i < |threats| ==> !threats[i].prob.Num?
    ensures AnyOf(IncludedProbs(threats)) == 0.0
  {
    NothingIncluded(threats);
    AnyOfEmpty();
  }

  /** No more compromises than trials. */
  lemma {:induction false} RunCountBound(ps: seq<real>, draws: Draws, n: nat)
    ensures Run(ps, draws, n).0 <= n
  {
    if n > 0 {
      RunCountBound(ps, draws, n - 1);
    }
  }

  /** A trial is a compromise exactly when some threat's draw, counted from
      the trial's first draw, is below that threat's probability. */
  lemma {:induction false} TrialHitIff(ps: seq<real>, draws: Draws, cursor: nat)
    ensures Trial(ps, draws, cursor).0 <==> exists j :: 0 <= j < |ps| && draws(cursor + j) < ps[j]
    decreases |ps|
  {
    if |ps| > 0 && draws(cursor) >= ps[0] {
      TrialHitIff(ps[1..], draws, cursor + 1);
      if exists j :: 0 <= j < |ps| && draws(cursor + j) < ps[j] {
        var j :| 0 <= j < |ps| && draws(cursor + j) < ps[j];
        assert j > 0 && draws(cursor + 1 + (j - 1)) < ps[1..][j - 1];
      }
      if Trial(ps, draws, cursor).0 {
        var j :| 0 <= j < |ps| - 1 && draws(cursor + 1 + j) < ps[1..][j];
        assert draws(cursor + (j + 1)) < ps[j + 1];
      }
    }
  }

  /** With no threat able to succeed, no trial is a compromise. */
  lemma {:induction false} RunNeverHits(ps: seq<real>, draws: Draws, n: nat)
    requires DrawsInRange(draws)
    requires forall j :: 0 <= j < |ps| ==> ps[j] <= 0.0
    ensures Run(ps, draws, n).0 == 0
  {
    if n > 0 {
      RunNeverHits(ps, draws, n - 1);
      var cursor := Run(ps, draws, n - 1).1;
      TrialHitIff(ps, draws, cursor);
    }
  }

  /** With one threat certain to succeed, every trial is a compromise. */
  lemma {:induction false} RunAlwaysHits(ps: seq<real>, draws: Draws, n: nat, k: nat)
    requires DrawsInRange(draws)
    requires k < |ps| && ps[k] >= 1.0
    ensures Run(ps, draws, n).0 == n
  {
    if n > 0 {
      RunAlwaysHits(ps, draws, n - 1, k);
      var cursor := Run(ps, draws, n - 1).1;
      TrialHitIff(ps, draws, cursor);
      assert draws(cursor + k) < ps[k];
    }
  }

  /** When no threat can succeed, the sampled fraction is exactly the
      analytic value 0. */
  lemma MonteCarloExactWhenImpossible(ps: seq<real>, draws: Draws, n: nat)
    requires DrawsInRange(draws) && n > 0
    requires forall j :: 0 <= j < |ps| ==> ps[j] == 0.0
    ensures Run(ps, draws, n).0 as real / n as real == AnyOf(ps) == 0.0
  {
    RunNeverHits(ps, draws, n);
    AnyOfImpossible(ps);
    assert Run(ps, draws, n).0 as real == 0.0;
  }

  /** When some threat is certain to succeed, the sampled fraction is
      exactly the analytic value 1. */
  lemma MonteCarloExactWhenCertain(ps: seq<real>, draws: Draws, n: nat, k: nat)
    requires DrawsInRange(draws) && n > 0
    requires k < |ps| && ps[k] == 1.0
    ensures Run(ps, draws, n).0 as real / n as real == AnyOf(ps) == 1.0
  {
    RunAlwaysHits(ps, draws, n, k);
    AnyOfCertain(ps, k);
    assert Run(ps, draws, n).0 as real == n as real;
  }

  /** Three threats of probability 0.1, 0.2 and 0.3: 1 - 0.9 * 0.8 * 0.7. */
  lemma AnalyticExample()
    ensures AnyOf([0.1, 0.2, 0.3]) == 0.496
  {
    var cs := Complements([0.1, 0.2, 0.3]);
    assert cs == [0.9, 0.8, 0.7];
    assert cs[..2] == [0.9, 0.8] && cs[..2][..1] == [0.9] && cs[..2][..1][..0] == [];
    assert Product(cs[..2][..1]) == 0.9;
    assert Product(cs[..2]) == 0.9 * 0.8;
    assert Product(cs) == 0.9 * 0.8 * 0.7;
  }
}
