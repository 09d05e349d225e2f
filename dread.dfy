/** DREAD scoring and severity classification of risk_tool.py
    (risk_tool.py:22-42). */
module Dread {
  import opened Folds
  import opened Dict

  /** The severity tiers, from least to most severe. */
  datatype Severity = None | Low | Medium | High | Critical {

    /** Position of the tier in the order None < Low < Medium < High < Critical. */
    function Rank(): nat {
      match this
      case None => 0
      case Low => 1
      case Medium => 2
      case High => 3
      case Critical => 4
    }
  }

  /** A threat's `dread` mapping of sub-ratings. */
  type Ratings = Dict<real>

  /** The five named sub-ratings, in the order the program lists them. */
  const NamedKeys: seq<string> :=
    ["damage", "reproducibility", "exploitability", "affected_users", "discoverability"]

  /** `dread.get(k, 0)`: a missing sub-rating counts as 0. */
  function Rating(d: Ratings, k: string): real {
    Get(d, k, 0.0)
  }

  /** The list comprehension `[dread.get(k, 0) for k in keys]`. */
  function RatingsOf(d: Ratings, keys: seq<string>): seq<real> {
    seq(|keys|, i requires 0 <= i < |keys| => Rating(d, keys[i]))
  }

  /** `calculate_dread_score`: the mean of the five named sub-ratings. */
  function DreadScore(d: Ratings): (score: real)
    ensures score == (Rating(d, "damage") + Rating(d, "reproducibility")
                      + Rating(d, "exploitability") + Rating(d, "affected_users")
                      + Rating(d, "discoverability")) / 5.0
  {
    var values := RatingsOf(d, NamedKeys);
    assert Sum(values) == values[0] + values[1] + values[2] + values[3] + values[4] by {
      assert values[..4][..3] == values[..3] && values[..3][..2] == values[..2];
      assert values[..2][..1] == values[..1] && values[..1][..0] == [];
      assert Sum(values[..1]) == values[0];
      assert Sum(values[..2]) == values[0] + values[1];
      assert Sum(values[..3]) == values[0] + values[1] + values[2];
      assert Sum(values[..4]) == values[0] + values[1] + values[2] + values[3];
    }
    if |values| > 0 then Sum(values) / |values| as real else 0.0
  }

  /** `determine_severity`: a step function with inclusive lower bounds
      8, 6.5 and 5, and "Low" for every positive score below 5. */
  function Classify(score: real): (s: Severity)
    ensures s == Critical <==> score >= 8.0
    ensures s == High <==> 6.5 <= score < 8.0
    ensures s == Medium <==> 5.0 <= score < 6.5
    ensures s == Low <==> 0.0 < score < 5.0
    ensures s == None <==> score <= 0.0
  {
    if score >= 8.0 then Critical
    else if score >= 6.5 then High
    else if score >= 5.0 then Medium
    else if score > 0.0 then Low
    else None
  }

  /** Sub-ratings under keys other than the five named ones do not matter. */
  lemma DreadScoreIgnoresOtherKeys(d: Ratings, e: Ratings)
    requires forall i :: 0 <= i < |NamedKeys| ==> Rating(d, NamedKeys[i]) == Rating(e, NamedKeys[i])
    ensures DreadScore(d) == DreadScore(e)
  {
    assert Rating(d, NamedKeys[0]) == Rating(e, NamedKeys[0]);
    assert Rating(d, NamedKeys[1]) == Rating(e, NamedKeys[1]);
    assert Rating(d, NamedKeys[2]) == Rating(e, NamedKeys[2]);
    assert Rating(d, NamedKeys[3]) == Rating(e, NamedKeys[3]);
    assert Rating(d, NamedKeys[4]) == Rating(e, NamedKeys[4]);
  }

  /** Setting a named sub-rating that was missing to `v` raises the score by
      a fifth of `v`. */
  lemma DreadScoreAddNamed(d: Ratings, e: Ratings, k: string, v: real)
    requires k in NamedKeys && Rating(d, k) == 0.0 && Rating(e, k) == v
    requires forall i :: 0 <= i < |NamedKeys| && NamedKeys[i] != k ==> Rating(e, NamedKeys[i]) == Rating(d, NamedKeys[i])
    ensures DreadScore(e) == DreadScore(d) + v / 5.0
  {
    assert NamedKeys[0] != k ==> Rating(e, NamedKeys[0]) == Rating(d, NamedKeys[0]);
    assert NamedKeys[1] != k ==> Rating(e, NamedKeys[1]) == Rating(d, NamedKeys[1]);
    assert NamedKeys[2] != k ==> Rating(e, NamedKeys[2]) == Rating(d, NamedKeys[2]);
    assert NamedKeys[3] != k ==> Rating(e, NamedKeys[3]) == Rating(d, NamedKeys[3]);
    assert NamedKeys[4] != k ==> Rating(e, NamedKeys[4]) == Rating(d, NamedKeys[4]);
  }

  /** Named sub-ratings on the conventional 0-10 scale give a score on that
      scale, whatever the other keys hold. */
  lemma DreadScoreInRange(d: Ratings)
    requires forall i :: 0 <= i < |NamedKeys| ==> 0.0 <= Rating(d, NamedKeys[i]) <= 10.0
    ensures 0.0 <= DreadScore(d) <= 10.0
  {
    assert 0.0 <= Rating(d, NamedKeys[0]) <= 10.0;
    assert 0.0 <= Rating(d, NamedKeys[1]) <= 10.0;
    assert 0.0 <= Rating(d, NamedKeys[2]) <= 10.0;
    assert 0.0 <= Rating(d, NamedKeys[3]) <= 10.0;
    assert 0.0 <= Rating(d, NamedKeys[4]) <= 10.0;
  }

  /** The tier never drops as the score grows. */
  lemma ClassifyMonotonic(a: real, b: real)
    requires a <= b
    ensures Classify(a).Rank() <= Classify(b).Rank()
  {
  }
}
