# Threat-model risk engine, modelled in Dafny

This project models the risk-quantification engine of an IoT threat-modelling
tool. The engine has four parts:

- **DREAD scoring.** A threat's score is the mean of its five sub-ratings
  (damage, reproducibility, exploitability, affected users, discoverability).
  A missing sub-rating counts as 0.
- **Severity classification.** The score maps to a tier: None, Low, Medium,
  High or Critical.
- **In-place enrichment.** The catalog's threat records get `score` and
  `severity` written into them.
- **Probability folds.**
  - An attack tree of AND/OR gates over threat references gives a success
    probability.
  - A flat catalog of independent threats gives a compromise probability,
    both in closed form and by Monte Carlo sampling.

The home-system visualiser has a second, divergent scorer. It sums every
sub-rating and divides by 5, and it uses severity thresholds 8/6/4 with no
"None" tier. It also has an id-keyed threat index. Both scorers are modelled
side by side, so the points where they disagree are proved facts.

Modules, one file each:

| file | module | models |
|---|---|---|
| `wrappers.dfy` | `Wrappers` | `Option` and `Result` |
| `dict.dfy` | `Dict` | a JSON object as an insertion-ordered association list; `Get` is `dict.get` |
| `folds.dfy` | `Folds` | `sum`, the `prod` helper, and the complement-product 1 − ∏(1 − pᵢ) |
| `dread.dfy` | `Dread` | `calculate_dread_score`, `determine_severity` of `risk_tool.py` |
| `catalog.dfy` | `Catalog` | the threat record and `enrich_threats` |
| `attack_tree.dfy` | `AttackTree` | `evaluate_attack_tree` |
| `aggregate.dfy` | `Aggregate` | `monte_carlo_compromise_probability` |
| `home_system.dfy` | `HomeSystem` | the variant scorer and `build_threat_index` of `attack_tree_homesystem.py` |

Modelling choices:

- **Numbers.** Probabilities and scores are exact `real`s.
- **The `prob` field.** A threat's `prob` is `Absent`, `Null` or `Num(p)`.
  The two non-numeric cases act differently in the source:
  - the Monte Carlo filter `t.get("prob") is not None` drops both of them;
  - the tree evaluator's `float(threat.get("prob", 0.0))` gives 0.0 for a
    missing `prob` but raises for a `null` one.

  The raise is modelled as `Err(NullProbability(ref))`.
- **Randomness.** `random.random()` is a caller-supplied stream
  `draws: nat -> real`, where `draws(k)` is the k-th value drawn.
- **Short-circuiting.** `any(...)` stops drawing at the first threat that
  activates, and the model consumes the stream the same way (`Aggregate.Trial`).
- **Loops and their specifications.** Each loop of the source is a method
  proved equal to a specification function:
  - `prod`'s accumulator loop is `Folds.Prod`, specified by `Folds.Product`;
  - the OR accumulator is `AttackTree.FoldOr`;
  - the child comprehension is `AttackTree.EvaluateChildren`, and the recursive
    evaluator is `AttackTree.EvaluateAttackTree`, specified by
    `AttackTree.Evaluate`;
  - the trial loop is `Aggregate.MonteCarloCompromiseProbability`, specified
    by `Aggregate.Run`.

  The AND branch's accumulator loop is the same loop as `prod`, so the model
  calls `Folds.Prod` for it.
- **Enrichment.** `enrich_threats` updates an `array<Threat>` slot by slot and
  returns the same array.

Behaviour worth noting; the model follows the code:

- **Zero iterations.** When `iterations` is 0 or negative, the Monte Carlo
  value is the analytic value (risk_tool.py:142).
- **Default iterations.** `iterations` defaults to 10000 (risk_tool.py:132),
  modelled as the parameter default `Aggregate.DefaultIterations`.
- **Bad sub-ratings.** Sub-ratings pass through `float()`, which does not
  reject every malformed value. Sub-ratings are modelled as typed reals (see
  Left out).
- **Unknown logic strings.** An unrecognised `logic` string, and a lower-case
  or mixed-case "and", are not errors. `.upper()` runs first, so any casing of
  "and" is AND and everything else is OR (`AttackTree.IsAndIff`).

## Model

| member | source | states |
|---|---|---|
| `Dict.GetSpec` | risk_tool.py:27 | `dict.get(k, default)` gives the default exactly when `k` is missing, and otherwise the value of the entry under `k`, which is that key's only entry |
| `Dread.DreadScore` | risk_tool.py:22-28 | the score is (damage + reproducibility + exploitability + affected_users + discoverability) / 5, each missing rating read as 0 |
| `Dread.DreadScoreIgnoresOtherKeys` | risk_tool.py:26-27 | two mappings that agree on the five named ratings get the same score, so other keys are ignored |
| `Dread.DreadScoreAddNamed` | risk_tool.py:26-28 | setting a missing named rating to v raises the score by v/5 |
| `Dread.DreadScoreInRange` | risk_tool.py:26-28 | if the five named ratings are in [0, 10], the score is in [0, 10], whatever other keys hold |
| `Dread.Classify` | risk_tool.py:30-42 | Critical iff score ≥ 8; High iff 6.5 ≤ score < 8; Medium iff 5 ≤ score < 6.5; Low iff 0 < score < 5; None iff score ≤ 0 |
| `Dread.ClassifyMonotonic` | risk_tool.py:30-42 | the tier rank never decreases as the score grows |
| `Catalog.Enrich` | risk_tool.py:48-51 | the enriched record has score = DreadScore(dread) and severity = Classify(score), with every other field unchanged |
| `Catalog.EnrichThreats` | risk_tool.py:44-52 | the array is updated in place to EnrichAll of its old contents, and the same array is returned |
| `Catalog.EnrichIdempotent` | risk_tool.py:49-51 | enriching an enriched record changes nothing |
| `Catalog.EnrichAllIdempotent` | risk_tool.py:44-52 | enriching a catalog twice gives the same catalog as enriching it once |
| `Catalog.EnrichWithoutRatings` | risk_tool.py:49 | a record without `dread` gets score 0.0 and severity None |
| `Folds.Prod` | risk_tool.py:145-152 | the loop returns the left fold of multiplication from 1.0, which is 1.0 for an empty input |
| `Folds.ProductAppend` | risk_tool.py:145-152 | the product of a concatenation is the product of the parts' products |
| `Folds.ProductInUnit` | risk_tool.py:145-152 | a product of factors in [0, 1] is in [0, 1] |
| `Folds.ProductZero` | risk_tool.py:121-125 | a zero factor makes the product zero |
| `Folds.ProductOfOnes` | risk_tool.py:145-152 | a product of ones is one |
| `Folds.SumAppend` | attack_tree_homesystem.py:15 | `sum` of a concatenation is the sum of the parts' sums |
| `Folds.SumBounds` | attack_tree_homesystem.py:15 | a sum of n values in [lo, hi] is in [n·lo, n·hi] |
| `Folds.AnyOfEmpty` | risk_tool.py:137 | with no events, 1 − ∏(1 − pᵢ) is 0.0 |
| `Folds.AnyOfAppend` | risk_tool.py:126-130 | adding an independent event E to a group G gives P(G or E) = P(G) + P(E) − P(G)·P(E) |
| `Folds.AnyOfInUnit` | risk_tool.py:126-130 | if every pᵢ is in [0, 1], then 1 − ∏(1 − pᵢ) is in [0, 1] |
| `Folds.AnyOfCertain` | risk_tool.py:126-130 | one pᵢ = 1 makes the combination exactly 1 |
| `Folds.AnyOfImpossible` | risk_tool.py:126-130 | if every pᵢ = 0, the combination is exactly 0 |
| `AttackTree.IsAndIff` | risk_tool.py:116-121 | the gate is AND iff `logic` is present and spells "and" in any letter case; a missing `logic` means OR |
| `AttackTree.Collect` | risk_tool.py:118 | the child values are returned in order when no child raises; otherwise the result is the error of the first child that raises |
| `AttackTree.CollectPrefixError` | risk_tool.py:118 | an error among the first children is the error of the whole comprehension |
| `AttackTree.EvaluateAttackTree` | risk_tool.py:107-130 | the recursive evaluation with accumulator loops returns exactly `Evaluate(node, index)` |
| `AttackTree.EvaluateChildren` | risk_tool.py:118 | evaluating the children one by one gives `Collect` of their `Evaluate` results |
| `AttackTree.FoldOr` | risk_tool.py:126-130 | one minus the OR accumulator is 1 − ∏(1 − pᵢ) |
| `AttackTree.EvaluateLeaf` | risk_tool.py:111-115 | a null node gives 0.0; a reference gives the threat's `prob`, or 0.0 when the id is not indexed or `prob` is missing |
| `AttackTree.EvaluateEmptyGate` | risk_tool.py:116-120 | a gate without children gives 0.0 whatever its logic |
| `AttackTree.EvaluateGate` | risk_tool.py:116-130 | a non-empty AND gate gives the product of its children's values; any other logic gives 1 − ∏(1 − pᵢ) |
| `AttackTree.EvaluateInUnit` | risk_tool.py:107-130 | if every threat `prob` is in [0, 1], every successful evaluation is in [0, 1] |
| `AttackTree.EvaluateFailsIff` | risk_tool.py:113-115 | evaluation raises iff some reachable reference resolves to a threat whose `prob` is `null` |
| `AttackTree.TwoThreatExample` | risk_tool.py:121-130 | over threats with prob 0.5 and 0.2, AND gives 0.1 and OR gives 0.6 |
| `Aggregate.IncludedProbs` | risk_tool.py:136 | a value is among the included probabilities iff some threat's `prob` is that number; missing and `null` ones are dropped |
| `Aggregate.IncludedProbsSingle` | risk_tool.py:136 | one threat contributes `[p]` when its `prob` is the number p, and nothing when it is missing or `null` |
| `Aggregate.IncludedProbsAppend` | risk_tool.py:136 | the filter of a concatenated catalog is the concatenation of the parts' filters, so each numeric `prob` appears exactly once, in catalog order |
| `Aggregate.FractionInUnit` | risk_tool.py:142 | k successes out of n > 0 trials with k ≤ n give a fraction in [0, 1] |
| `Aggregate.IncludedProbsInUnit` | risk_tool.py:136 | the included probabilities are in [0, 1] when the catalog's are |
| `Aggregate.NothingIncluded` | risk_tool.py:136 | a catalog with no numeric `prob` includes nothing |
| `Aggregate.AnalyticWithoutProbabilities` | risk_tool.py:136-137 | with no numeric `prob` the analytic value is 0.0 |
| `Aggregate.Trial` | risk_tool.py:140 | a trial that activates uses at least one draw and at most one per threat; a trial that does not activate uses exactly one draw per threat |
| `Aggregate.TrialHitIff` | risk_tool.py:140 | a trial is a compromise iff some threat's draw, counted from the trial's first draw, is below its probability |
| `Aggregate.MonteCarloCompromiseProbability` | risk_tool.py:132-143 | analytic = 1 − ∏(1 − pᵢ) over the included threats; for iterations > 0 the Monte Carlo value is successes / iterations and lies in [0, 1]; for iterations ≤ 0 it is the analytic value; both lie in [0, 1] when the probabilities do |
| `Aggregate.RunCountBound` | risk_tool.py:138-141 | the success counter never exceeds the number of trials |
| `Aggregate.RunNeverHits` | risk_tool.py:138-141 | if no probability is positive, no trial succeeds |
| `Aggregate.RunAlwaysHits` | risk_tool.py:138-141 | if some probability is at least 1, every trial succeeds |
| `Aggregate.MonteCarloExactWhenImpossible` | risk_tool.py:136-142 | if every probability is 0, the sampled fraction equals the analytic value 0 |
| `Aggregate.MonteCarloExactWhenCertain` | risk_tool.py:136-142 | if some probability is 1, the sampled fraction equals the analytic value 1 |
| `Aggregate.AnalyticExample` | risk_tool.py:137 | probabilities 0.1, 0.2 and 0.3 give the analytic value 0.496 |
| `HomeSystem.Classify` | attack_tree_homesystem.py:17-21 | Critical iff score ≥ 8; High iff 6 ≤ score < 8; Medium iff 4 ≤ score < 6; Low iff score < 4; never None |
| `HomeSystem.ClassifyMonotonic` | attack_tree_homesystem.py:17-21 | the variant's tier never decreases as the score grows |
| `HomeSystem.ClassifyAgainstRiskTool` | attack_tree_homesystem.py:17-21 | the variant's tier is never below risk_tool.py's, and the two differ exactly for scores ≤ 0, in [4, 5) and in [6, 6.5) |
| `HomeSystem.BuildThreatIndex` | attack_tree_homesystem.py:11 | every key maps to a record whose `id` is that key |
| `HomeSystem.BuildThreatIndexSpec` | attack_tree_homesystem.py:11 | the keys are exactly the ids in the catalog, records without an id are dropped, and each id maps to the last record that carries it |
| `HomeSystem.DreadScoreAppend` | attack_tree_homesystem.py:14-15 | every entry counts, whatever its key: a new entry adds a fifth of its value, because the divisor is the constant 5 |
| `HomeSystem.DreadScoreAgreesOnNamedKeys` | attack_tree_homesystem.py:14-15 | on a mapping that holds only named sub-ratings, the variant's score equals risk_tool.py's |
| `HomeSystem.ExtraRatingIgnoredByRiskTool` | risk_tool.py:26-28 | five ratings of 5 plus an unnamed sixth of 5 score 5 ("Medium") in risk_tool.py |
| `HomeSystem.ExtraRatingCountedByHomeSystem` | attack_tree_homesystem.py:14-21 | the same mapping scores 6 ("High") in the variant |

## Left out

- Loading threats and trees from JSON or YAML files (risk_tool.py:7-20, attack_tree_homesystem.py:9-10). This is file I/O and library parsing. The model starts from the parsed records.
- The console report and the CSV and Markdown exports, with their `(-score, id)` ranking (risk_tool.py:54-105). These are output formatting and file writing.
- `main` (risk_tool.py:154-187), including its own index `{t["id"]: t for t in threats}`, and the subprocess launcher in main.py. These are command-line and process plumbing. The evaluator takes the index as a parameter.
- All graph building, layout and drawing (attack_tree.py, attack_tree_homesystem.py:23-109). These are visualisation through foreign libraries.
- `random.random()` itself, and any statement that the Monte Carlo value converges to the analytic value. The draws are a parameter, and only the counting, bounds and extreme-case facts are proved.
- IEEE floating-point rounding. All arithmetic is exact over `real`, so the order of a fold does not change its value here.
- Values of the wrong JSON type, which the program passes through `float()` or `.upper()`. Examples are a numeric string under `prob` or a sub-rating, a `null` sub-rating or `dread` mapping, a non-string `logic`, and a `null` `children` list. The record types admit only reals, strings and lists, so these raising or coercing paths are not modelled.
- `.upper()` on non-ASCII characters. `AttackTree.Upper` maps only ASCII letters and keeps every other character.
- Aliasing of threat records. `enrich_threats` writes into dict objects that other structures (such as a threat index) may share. The model updates each array slot's value, so sharing is not represented.
- JSON objects with duplicate keys. `Dict.Dict` is an unconstrained association list, so a `dread` mapping with a repeated key is accepted, but not with the parser's meaning: `json.loads` keeps the last value of a repeated key, whereas `Dict.Get` (and hence `Dread.DreadScore`) reads the first entry and `HomeSystem.DreadScore` sums every entry. `Dict.GetSpec` states uniqueness only for lists satisfying `Dict.IsDict`.
- A record whose `id` is `null`. `Catalog.Threat.id` is an `Option<string>`, so a missing `id` and `"id": null` are the same value. The source's `"id" in t` test (attack_tree_homesystem.py:11) keeps a `null`-id record under the key `None`, while `HomeSystem.BuildThreatIndex` drops it.
