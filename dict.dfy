/** A string-keyed dictionary as an association list in insertion order,
    the way a parsed JSON object behaves: `Get` is `d.get(k, default)` and
    `Values` is `d.values()`. */
module Dict {

  type Dict<V> = seq<(string, V)>

  /** No key occurs twice, as in every dictionary. */
  predicate IsDict<V>(d: Dict<V>) {
    forall i, j :: 0 <= i < j < |d| ==> d[i].0 != d[j].0
  }

  function Keys<V>(d: Dict<V>): set<string> {
    set i | 0 <= i < |d| :: d[i].0
  }

  /** The values in insertion order. */
  function Values<V>(d: Dict<V>): seq<V> {
    seq(|d|, i requires 0 <= i < |d| => d[i].1)
  }

  /** `d.get(k, default)`: the value stored under `k`, or `default` when `k`
      is no key of `d`. */
  function Get<V>(d: Dict<V>, k: string, default: V): V {
    if |d| == 0 then default
    else if d[0].0 == k then d[0].1
    else Get(d[1..], k, default)
  }

  /** `Get` returns the default exactly for a missing key, and otherwise the
      value of an entry with that key, which in a dictionary is the only one. */
  lemma {:induction false} GetSpec<V>(d: Dict<V>, k: string, default: V)
    ensures k !in Keys(d) ==> Get(d, k, default) == default
    ensures k in Keys(d) ==> exists i :: 0 <= i < |d| && d[i] == (k, Get(d, k, default))
    ensures IsDict(d) ==> forall i :: 0 <= i < |d| && d[i].0 == k ==> Get(d, k, default) == d[i].1
  {
    if |d| > 0 && d[0].0 != k {
      GetSpec(d[1..], k, default);
      assert forall i :: 1 <= i < |d| ==> d[i] == d[1..][i - 1];
      assert Keys(d) == {d[0].0} + Keys(d[1..]);
    }
  }
}
