/** The second, divergent scorer of attack_tree_homesystem.py and its
    id-keyed threat index (attack_tree_homesystem.py:7-21). */
module HomeSystem {
  import opened Wrappers
  import opened Folds
  import opened Dict
  import Dread
  import Catalog

  /** `calculate_dread_score` of this variant: the sum of every value of the
      mapping, named or not, divided by the constant 5. */
  function DreadScore(d: Dread.Ratings): real {
    Sum(Values(d)) / 5.0
  }

  /** `determine_severity` of this variant: thresholds 8, 6 and 4 and no
      "None" tier. */
  function Classify(score: real): (s: Dread.Severity)
    ensures s == Dread.Critical <==> score >= 8.0
    ensures s == Dread.High <==> 6.0 <= score < 8.0
    ensures s == Dread.Medium <==> 4.0 <= score < 6.0
    ensures s == Dread.Low <==> score < 4.0
    ensures s != Dread.Severity.None
  {
    if score >= 8.0 then Dread.Critical
    else if score >= 6.0 then Dread.High
    else if score >= 4.0 then Dread.Medium
    else Dread.Low
  }

  /** Record `i` is the last one of `threats` whose id is `k`. */
  predicate LastWithId(threats: seq<Catalog.Threat>, k: string, i: int) {
    && 0 <= i < |threats| && threats[i].id == Some(k)
    && forall j :: i < j < |threats| ==> threats[j].id != Some(k)
  }

  /** `{t["id"]: t for t in data if "id" in t}`. */
  function BuildThreatIndex(threats: seq<Catalog.Threat>): (index: map<string, Catalog.Threat>)
    ensures forall k :: k in index ==> index[k].id == Some(k)
  {
    if |threats| == 0 then map[]
    else
      var last := threats[|threats| - 1];
      var index := BuildThreatIndex(threats[..|threats| - 1]);
      if last.id.Some? then index[last.id.value := last] else index
  }

  /** The index holds exactly the ids that occur in the catalog, records
      without an id are dropped, and each id maps to the last record that
      carries it. */
  lemma {:induction false} BuildThreatIndexSpec(threats: seq<Catalog.Threat>, k: string)
    ensures k in BuildThreatIndex(threats) <==> exists i :: 0 <= i < |threats| && threats[i].id == Some(k)
    ensures k in BuildThreatIndex(threats) ==>
      exists i :: LastWithId(threats, k, i) && BuildThreatIndex(threats)[k] == threats[i]
  {
    if |threats| > 0 {
      var init, last := threats[..|threats| - 1], threats[|threats| - 1];
      BuildThreatIndexSpec(init, k);
      assert forall i :: 0 <= i < |init| ==> init[i] == threats[i];
      if last.id == Some(k) {
        assert LastWithId(threats, k, |threats| - 1);
      } else if k in BuildThreatIndex(init) {
        var i :| LastWithId(init, k, i) && BuildThreatIndex(init)[k] == init[i];
        assert LastWithId(threats, k, i);
      }
    }
  }

  /** The tier never drops as the score grows. */
  lemma ClassifyMonotonic(a: real, b: real)
    requires a <= b
    ensures Classify(a).Rank() <= Classify(b).Rank()
  {
  }

  /** This variant never rates a score lower than risk_tool.py does, and the
      two disagree exactly on scores up to 0 and on [4, 5) and [6, 6.5). */
  lemma ClassifyAgainstRiskTool(score: real)
    ensures Classify(score).Rank() >= Dread.Classify(score).Rank()
    ensures Classify(score) != Dread.Classify(score) <==>
      score <= 0.0 || 4.0 <= score < 5.0 || 6.0 <= score < 6.5
  {
  }

  /** Adding a dictionary entry at the end: earlier keys keep their value. */
  lemma {:induction false} GetAppend(d: Dread.Ratings, k: string, v: real, n: string)
    ensures Get(d + [(k, v)], n, 0.0) ==
      if n in Keys(d) then Get(d, n, 0.0) else if n == k then v else 0.0
  {
    if |d| > 0 {
      assert (d + [(k, v)])[1..] == d[1..] + [(k, v)];
      assert Keys(d) == {d[0].0} + Keys(d[1..]) by {
        assert forall i :: 1 <= i < |d| ==> d[i] == d[1..][i - 1];
      }
      GetAppend(d[1..], k, v, n);
    }
  }

  /** Every entry counts in this variant: a new entry adds a fifth of its
      value, whatever its key. */
  lemma DreadScoreAppend(d: Dread.Ratings, k: string, v: real)
    ensures DreadScore(d + [(k, v)]) == DreadScore(d) + v / 5.0
  {
    assert Values(d + [(k, v)]) == Values(d) + [v];
    SumAppend(Values(d), [v]);
  }

  /** On a mapping holding only (some of) the five named sub-ratings, the
      two scorers agree. */
  lemma {:induction false} DreadScoreAgreesOnNamedKeys(d: Dread.Ratings)
    requires IsDict(d)
    requires forall i :: 0 <= i < |d| ==> d[i].0 in Dread.NamedKeys
    ensures DreadScore(d) == Dread.DreadScore(d)
  {
    if |d| == 0 {
    } else {
      var init, k, v := d[..|d| - 1], d[|d| - 1].0, d[|d| - 1].1;
      assert d == init + [(k, v)];
      assert k !in Keys(init);
      assert forall i :: 0 <= i < |init| ==> init[i] == d[i];
      DreadScoreAgreesOnNamedKeys(init);
      DreadScoreAppend(init, k, v);
      forall i | 0 <= i < |Dread.NamedKeys| && Dread.NamedKeys[i] != k
        ensures Dread.Rating(d, Dread.NamedKeys[i]) == Dread.Rating(init, Dread.NamedKeys[i])
      {
        GetAppend(init, k, v, Dread.NamedKeys[i]);
        GetSpec(init, Dread.NamedKeys[i], 0.0);
      }
      GetSpec(init, k, 0.0);
      GetAppend(init, k, v, k);
      Dread.DreadScoreAddNamed(init, d, k, v);
    }
  }

  /** Five named sub-ratings of 5 and a sixth, unnamed one of 5. */
  const SixRatings: Dread.Ratings :=
    [("damage", 5.0), ("reproducibility", 5.0), ("exploitability", 5.0),
     ("affected_users", 5.0), ("discoverability", 5.0), ("impact", 5.0)]

  /** risk_tool.py ignores the unnamed sub-rating: score 5, "Medium". */
  lemma ExtraRatingIgnoredByRiskTool()
    ensures Dread.DreadScore(SixRatings) == 5.0 && Dread.Classify(Dread.DreadScore(SixRatings)) == Dread.Medium
  {
    var d := SixRatings;
    assert Dread.Rating(d, "damage") == 5.0;
    assert Dread.Rating(d, "reproducibility") == 5.0;
    assert Dread.Rating(d, "exploitability") == 5.0;
    assert Dread.Rating(d, "affected_users") == 5.0;
    assert Dread.Rating(d, "discoverability") == 5.0;
  }

  /** This variant counts it: score 6, "High". */
  lemma ExtraRatingCountedByHomeSystem()
    ensures DreadScore(SixRatings) == 6.0 && Classify(DreadScore(SixRatings)) == Dread.High
  {
    var d := SixRatings;
    forall i | 0 <= i < |d| ensures d[i].1 == 5.0 { }
    SumBounds(Values(d), 5.0, 5.0);
  }
}
