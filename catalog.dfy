/** The threat record and its in-place enrichment with a DREAD score and a
    severity (risk_tool.py:44-52). */
module Catalog {
  import opened Wrappers
  import Dread

  /** A threat's `prob` entry: missing, present but `null`, or a number. */
  datatype ProbField = Absent | Null | Num(p: real)

  /** One threat record. `score` and `severity` are `None` until the record
      is enriched; the descriptive fields are carried along untouched. */
  datatype Threat = Threat(
    id: Option<string>,
    description: string,
    stride: seq<string>,
    location: string,
    mitigations: seq<string>,
    dread: Option<Dread.Ratings>,
    prob: ProbField,
    score: Option<real>,
    severity: Option<Dread.Severity>)

  /** `threat.get("dread", {})`. */
  function RatingsOf(t: Threat): Dread.Ratings {
    if t.dread.Some? then t.dread.value else []
  }

  /** One pass of the loop body: write `score` and then the severity of
      that score into the record. */
  function Enrich(t: Threat): (e: Threat)
    ensures e.score == Some(Dread.DreadScore(RatingsOf(t)))
    ensures e.severity == Some(Dread.Classify(Dread.DreadScore(RatingsOf(t))))
    ensures e.(score := t.score, severity := t.severity) == t
  {
    var score := Dread.DreadScore(RatingsOf(t));
    t.(score := Some(score), severity := Some(Dread.Classify(score)))
  }

  /** Every record of a catalog enriched, in the same order. */
  function EnrichAll(ts: seq<Threat>): seq<Threat> {
    seq(|ts|, i requires 0 <= i < |ts| => Enrich(ts[i]))
  }

  /** `enrich_threats`: enrich every record in place and return the same list. */
  method EnrichThreats(threats: array<Threat>) returns (r: array<Threat>)
    modifies threats
    ensures r == threats
    ensures threats[..] == EnrichAll(old(threats[..]))
  {
    var i := 0;
    while i < threats.Length
      invariant 0 <= i <= threats.Length
      invariant forall k :: 0 <= k < i ==> threats[k] == Enrich(old(threats[k]))
      invariant forall k :: i <= k < threats.Length ==> threats[k] == old(threats[k])
    {
      var threat := threats[i];
      var dread := RatingsOf(threat);
      threat := threat.(score := Some(Dread.DreadScore(dread)));
      threat := threat.(severity := Some(Dread.Classify(threat.score.value)));
      threats[i] := threat;
      i := i + 1;
    }
    r := threats;
  }

  /** Enriching an enriched record changes nothing: the score depends only on
      `dread`, which enrichment does not touch. */
  lemma EnrichIdempotent(t: Threat)
    ensures Enrich(Enrich(t)) == Enrich(t)
  {
  }

  /** Running the enrichment twice over a catalog gives the same catalog as
      running it once. */
  lemma EnrichAllIdempotent(ts: seq<Threat>)
    ensures EnrichAll(EnrichAll(ts)) == EnrichAll(ts)
  {
    forall i | 0 <= i < |ts| ensures EnrichAll(EnrichAll(ts))[i] == EnrichAll(ts)[i] {
      EnrichIdempotent(ts[i]);
    }
  }

  /** A record without `dread` is scored as if every sub-rating were 0. */
  lemma EnrichWithoutRatings(t: Threat)
    requires t.dread.None?
    ensures Enrich(t).score == Some(0.0) && Enrich(t).severity == Some(Dread.Severity.None)
  {
  }
}
