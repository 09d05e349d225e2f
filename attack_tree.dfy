/** Probability of success of an attack tree (risk_tool.py:107-130): a
    post-order fold over AND/OR gates whose leaves refer to threats of an
    id-keyed threat index. Children are assumed independent. */
module AttackTree {
  import opened Wrappers
  import opened Folds
  import opened Catalog

  /** A tree node: `None`, a node carrying a `ref` key (which wins over any
      other key it has), or a gate with an optional `logic` string and its
      `children` (missing `children` is the empty list). */
  datatype Node =
    | NoNode
    | Ref(ref: string)
    | Gate(logic: Option<string>, children: seq<Node>)

  /** `float(threat.get("prob", 0.0))` raises when the referenced threat's
      `prob` is `null`. */
  datatype EvalError = NullProbability(ref: string)

  type Index = map<string, Threat>

  /** `str.upper()` on ASCII letters; other characters are kept. */
  function Upper(s: string): string {
    seq(|s|, i requires 0 <= i < |s| => if 'a' <= s[i] <= 'z' then (s[i] as int - 32) as char else s[i])
  }

  /** `node.get("logic", "OR").upper() == "AND"`. */
  predicate IsAnd(logic: Option<string>) {
    Upper(if logic.Some? then logic.value else "OR") == "AND"
  }

  /** The branch for a reference node. */
  function EvaluateRef(ref: string, index: Index): Result<real, EvalError> {
    if ref !in index then Ok(0.0)
    else match index[ref].prob
      case Absent => Ok(0.0)
      case Null => Err(NullProbability(ref))
      case Num(p) => Ok(p)
  }

  /** The values of the children, in order, or the error of the first child
      whose evaluation raises. */
  function Collect(rs: seq<Result<real, EvalError>>): (c: Result<seq<real>, EvalError>)
    ensures c.Ok? ==> |c.value| == |rs| && forall i :: 0 <= i < |rs| ==> rs[i] == Ok(c.value[i])
    ensures c.Err? ==> exists i :: 0 <= i < |rs| && rs[i] == Err(c.error) && forall j :: 0 <= j < i ==> rs[j].Ok?
    ensures (forall i :: 0 <= i < |rs| ==> rs[i].Ok?) ==> c.Ok?
  {
    if |rs| == 0 then Ok([])
    else
      var init := Collect(rs[..|rs| - 1]);
      var last := rs[|rs| - 1];
      assert forall j :: 0 <= j < |rs| - 1 ==> rs[..|rs| - 1][j] == rs[j];
      if init.Err? then init
      else if last.Err? then Err(last.error)
      else Ok(init.value + [last.value])
  }

  /** How a gate combines its children's probabilities. */
  function Combine(logic: Option<string>, ps: seq<real>): real {
    if |ps| == 0 then 0.0
    else if IsAnd(logic) then Product(ps)
    else AnyOf(ps)
  }

  /** `evaluate_attack_tree` as a function of the node and the index. */
  function Evaluate(node: Node, index: Index): Result<real, EvalError>
    decreases node
  {
    match node
    case NoNode => Ok(0.0)
    case Ref(ref) => EvaluateRef(ref, index)
    case Gate(logic, children) =>
      var rs := seq(|children|, i requires 0 <= i < |children| => Evaluate(children[i], index));
      var c := Collect(rs);
      if c.Err? then Err(c.error) else Ok(Combine(logic, c.value))
  }

  /** An error in a prefix is the error of the whole list. */
  lemma {:induction false} CollectPrefixError(rs: seq<Result<real, EvalError>>, n: nat)
    requires n <= |rs| && Collect(rs[..n]).Err?
    ensures Collect(rs) == Collect(rs[..n])
    decreases |rs|
  {
    if n < |rs| {
      assert rs[..|rs| - 1][..n] == rs[..n];
      CollectPrefixError(rs[..|rs| - 1], n);
    } else {
      assert rs[..n] == rs;
    }
  }

  /** `evaluate_attack_tree` as the program runs it: evaluate the children
      one after another, then fold their values with an accumulator. */
  method EvaluateAttackTree(node: Node, index: Index) returns (r: Result<real, EvalError>)
    ensures r == Evaluate(node, index)
    decreases node, 1
  {
    match node
    case NoNode =>
      return Ok(0.0);
    case Ref(ref) =>
      if ref !in index {
        return Ok(0.0);
      }
      var threat := index[ref];
      match threat.prob {
        case Absent =>
          return Ok(0.0);
        case Null =>
          return Err(NullProbability(ref));
        case Num(p) =>
          return Ok(p);
      }
    case Gate(logic, children) =>
      var c := EvaluateChildren(children, index);
      if c.Err? {
        return Err(c.error);
      }
      var probabilities := c.value;
      if |probabilities| == 0 {
        return Ok(0.0);
      }
      if IsAnd(logic) {
        // the AND branch's loop is the loop of `prod`
        var result := Prod(probabilities);
        return Ok(result);
      } else {
        var result := FoldOr(probabilities);
        return Ok(1.0 - result);
      }
  }

  /** The list comprehension over the children: the first child that raises
      aborts the whole evaluation. */
  method EvaluateChildren(children: seq<Node>, index: Index) returns (c: Result<seq<real>, EvalError>)
    ensures c == Collect(seq(|children|, i requires 0 <= i < |children| => Evaluate(children[i], index)))
    decreases children, 0
  {
    ghost var rs := seq(|children|, i requires 0 <= i < |children| => Evaluate(children[i], index));
    var probabilities := [];
    var i := 0;
    while i < |children|
      invariant 0 <= i <= |children|
      invariant Collect(rs[..i]) == Ok(probabilities)
    {
      var p := EvaluateAttackTree(children[i], index);
      assert rs[..i + 1][..i] == rs[..i];
      if p.Err? {
        CollectPrefixError(rs, i + 1);
        return Err(p.error);
      }
      probabilities := probabilities + [p.value];
      i := i + 1;
    }
    assert rs[..|children|] == rs;
    return Ok(probabilities);
  }

  /** The OR branch's loop: `result *= (1.0 - p)` for every child value. */
  method FoldOr(probabilities: seq<real>) returns (result: real)
    ensures 1.0 - result == AnyOf(probabilities)
  {
    result := 1.0;
    var j := 0;
    while j < |probabilities|
      invariant 0 <= j <= |probabilities|
      invariant result == Product(Complements(probabilities[..j]))
    {
      assert probabilities[..j + 1] == probabilities[..j] + [probabilities[j]];
      ComplementsAppend(probabilities[..j], probabilities[j]);
      result := result * (1.0 - probabilities[j]);
      j := j + 1;
    }
    assert probabilities[..j] == probabilities;
  }

  /** Every numeric `prob` in the index is a probability. */
  predicate IndexInUnit(index: Index) {
    forall id :: id in index && index[id].prob.Num? ==> InUnit(index[id].prob.p)
  }

  /** Some reference reachable from `node` resolves to a threat whose `prob`
      is `null`. */
  predicate ReachesNullProb(node: Node, index: Index)
    decreases node
  {
    match node
    case NoNode => false
    case Ref(ref) => ref in index && index[ref].prob.Null?
    case Gate(_, children) => exists i :: 0 <= i < |children| && ReachesNullProb(children[i], index)
  }

  /** A reference evaluates to the referenced threat's `prob`, and to 0.0 when
      the id is not in the index or the threat has no `prob`; no node at all
      evaluates to 0.0. */
  lemma EvaluateLeaf(ref: string, index: Index)
    ensures Evaluate(NoNode, index) == Ok(0.0)
    ensures ref in index && index[ref].prob.Num? ==> Evaluate(Ref(ref), index) == Ok(index[ref].prob.p)
    ensures ref !in index || index[ref].prob.Absent? ==> Evaluate(Ref(ref), index) == Ok(0.0)
  {
  }

  /** A gate without children evaluates to 0.0, whatever its logic. */
  lemma EvaluateEmptyGate(logic: Option<string>, index: Index)
    ensures Evaluate(Gate(logic, []), index) == Ok(0.0)
  {
  }

  /** A gate with children of values `ps` evaluates to their product under
      AND and to 1 - prod(1 - p) under any other logic, including a missing
      or unrecognised one. */
  lemma EvaluateGate(logic: Option<string>, children: seq<Node>, index: Index, ps: seq<real>)
    requires |children| == |ps| > 0
    requires forall i :: 0 <= i < |children| ==> Evaluate(children[i], index) == Ok(ps[i])
    ensures IsAnd(logic) ==> Evaluate(Gate(logic, children), index) == Ok(Product(ps))
    ensures !IsAnd(logic) ==> Evaluate(Gate(logic, children), index) == Ok(1.0 - Product(Complements(ps)))
  {
    var rs := seq(|children|, i requires 0 <= i < |children| => Evaluate(children[i], index));
    CollectAllOk(rs, ps);
  }

  /** Children that all evaluate give their values in order. */
  lemma CollectAllOk(rs: seq<Result<real, EvalError>>, ps: seq<real>)
    requires |rs| == |ps|
    requires forall i :: 0 <= i < |rs| ==> rs[i] == Ok(ps[i])
    ensures Collect(rs) == Ok(ps)
  {
    var c := Collect(rs);
    assert c.Ok?;
    assert c.value == ps;
  }

  /** The logic is AND exactly when it is present and spells "and" in any
      mix of letter cases. */
  lemma IsAndIff(logic: Option<string>)
    ensures IsAnd(logic) <==>
      && logic.Some? && |logic.value| == 3
      && (logic.value[0] == 'A' || logic.value[0] == 'a')
      && (logic.value[1] == 'N' || logic.value[1] == 'n')
      && (logic.value[2] == 'D' || logic.value[2] == 'd')
  {
    var s := if logic.Some? then logic.value else "OR";
    if logic.Some? && |s| == 3 && (s[0] == 'A' || s[0] == 'a') && (s[1] == 'N' || s[1] == 'n') && (s[2] == 'D' || s[2] == 'd') {
      assert Upper(s) == "AND";
    }
    if IsAnd(logic) {
      assert Upper(s)[0] == 'A' && Upper(s)[1] == 'N' && Upper(s)[2] == 'D';
      assert s != "OR";
    }
  }

  /** If every threat probability is in [0, 1], so is the value of every tree
      that evaluates without error. */
  lemma {:induction false} EvaluateInUnit(node: Node, index: Index)
    requires IndexInUnit(index)
    ensures Evaluate(node, index).Ok? ==> InUnit(Evaluate(node, index).value)
    decreases node
  {
    match node
    case NoNode =>
    case Ref(ref) =>
    case Gate(logic, children) =>
      var rs := seq(|children|, i requires 0 <= i < |children| => Evaluate(children[i], index));
      var c := Collect(rs);
      if c.Ok? {
        forall i | 0 <= i < |c.value| ensures InUnit(c.value[i]) {
          EvaluateInUnit(children[i], index);
        }
        if |c.value| > 0 {
          if IsAnd(logic) {
            ProductInUnit(c.value);
          } else {
            AnyOfInUnit(c.value);
          }
        }
      }
  }

  /** Evaluation raises exactly when a reachable reference resolves to a
      threat whose `prob` is `null`. */
  lemma {:induction false} EvaluateFailsIff(node: Node, index: Index)
    ensures Evaluate(node, index).Err? <==> ReachesNullProb(node, index)
    decreases node
  {
    match node
    case NoNode =>
    case Ref(ref) =>
    case Gate(logic, children) =>
      var rs := seq(|children|, i requires 0 <= i < |children| => Evaluate(children[i], index));
      forall i | 0 <= i < |children| ensures rs[i].Err? <==> ReachesNullProb(children[i], index) {
        EvaluateFailsIff(children[i], index);
      }
  }

  /** AND and OR over two threats of probability 0.5 and 0.2. */
  lemma TwoThreatExample(index: Index)
    requires "T1" in index && index["T1"].prob == Num(0.5)
    requires "T2" in index && index["T2"].prob == Num(0.2)
    ensures Evaluate(Gate(Some("AND"), [Ref("T1"), Ref("T2")]), index) == Ok(0.1)
    ensures Evaluate(Gate(Some("OR"), [Ref("T1"), Ref("T2")]), index) == Ok(0.6)
  {
    EvaluateGate(Some("AND"), [Ref("T1"), Ref("T2")], index, [0.5, 0.2]);
    EvaluateGate(Some("OR"), [Ref("T1"), Ref("T2")], index, [0.5, 0.2]);
    assert IsAnd(Some("AND"));
    assert Upper("OR") == "OR";
    assert Product([0.5, 0.2]) == 0.1 by {
      assert [0.5, 0.2][..1] == [0.5] && [0.5][..0] == [];
    }
    assert Product(Complements([0.5, 0.2])) == 0.4 by {
      assert Complements([0.5, 0.2]) == [0.5, 0.8];
      assert [0.5, 0.8][..1] == [0.5] && [0.5][..0] == [];
    }
  }
}
