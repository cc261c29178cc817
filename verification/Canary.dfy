/**
 Staged rollouts: which agents a canary stage selects (internal/federation/canary.go)
 under the stages the configuration admits (internal/config/config.go).
 */
module Canary {
  import opened Wrappers

  datatype Stage = Stage(percentage: int)

  /** What the configuration promises: percentages from 1 to 100, strictly ascending. */
  predicate Admissible(stages: seq<Stage>) {
    && (forall i :: 0 <= i < |stages| ==> 1 <= stages[i].percentage <= 100)
    && (forall i, j :: 0 <= i < j < |stages| ==> stages[i].percentage < stages[j].percentage)
  }

  /** The configuration's check, which looks at neighbours only. */
  method ValidateStages(stages: seq<Stage>) returns (ok: bool)
    ensures ok <==> Admissible(stages)
    ensures ok <==> (forall i :: 0 <= i < |stages| ==> 1 <= stages[i].percentage <= 100) &&
                    (forall i, j :: 0 <= i < j < |stages| ==> stages[i].percentage < stages[j].percentage)
  {
    for i := 0 to |stages|
      invariant Admissible(stages[..i])
    {
      assert stages[i] == stages[..i + 1][i];
      if stages[i].percentage <= 0 || stages[i].percentage > 100 {
        return false;
      }
      if i > 0 && stages[i].percentage <= stages[i - 1].percentage {
        return false;
      }
      assert forall k :: 0 <= k < i ==> stages[..i][k] == stages[k] == stages[..i + 1][k];
    }
    assert stages[..|stages|] == stages;
    return true;
  }

  /** Rounds halves away from zero. */
  function Round(x: real): int {
    if x >= 0.0 then (x + 0.5).Floor else -(0.5 - x).Floor
  }

  function Count(total: nat, percentage: int): int {
    var count := Round(total as real * percentage as real / 100.0);
    var atLeastOne := if count <= 0 then 1 else count;
    if atLeastOne > total then total else atLeastOne
  }

  /** The rounded share in whole-number arithmetic: the nearest count, halves going up. */
  lemma RoundNearest(total: nat, percentage: int)
    requires 0 <= percentage
    ensures var c := Round(total as real * percentage as real / 100.0);
            200 * c <= 2 * (total * percentage) + 100 < 200 * (c + 1)
  {
    var e := total * percentage;
    assert e as real == total as real * percentage as real;
    assert e >= 0;
    var x := e as real / 100.0;
    var c := (x + 0.5).Floor;
    assert c as real <= x + 0.5 < c as real + 1.0;
    assert (200 * c) as real <= (2 * e + 100) as real < (200 * (c + 1)) as real;
  }

  function SelectSubset(stages: seq<Stage>, agents: seq<string>, stageIndex: int): (r: Result<seq<string>, string>)
    ensures r.Ok? <==> 0 <= stageIndex < |stages|
    ensures r.Ok? ==> r.value <= agents && (r.value == [] <==> agents == [])
  {
    if stageIndex < 0 || stageIndex >= |stages| then Err("stage index out of range")
    else if agents == [] then Ok([])
    else
      var count := Count(|agents|, stages[stageIndex].percentage);
      Ok(agents[..count])
  }

  /** The selected number is the percentage to within half an agent, unless it was raised to one. */
  lemma CountIsNearest(total: nat, percentage: int)
    requires total > 0 && 1 <= percentage <= 100
    ensures var c := Count(total, percentage);
            && 1 <= c <= total
            && (2 * (total * percentage) < 100 ==> c == 1)
            && (2 * (total * percentage) >= 100 ==> -100 < 2 * (100 * c - total * percentage) <= 100)
  {
    hide Round;
    RoundNearest(total, percentage);
    ShareBound(total, percentage);
  }

  lemma ShareBound(total: nat, percentage: int)
    requires 0 <= percentage <= 100
    ensures 0 <= total * percentage <= 100 * total
  {}

  /** A stage selects everyone exactly when at most half an agent would be left over. */
  lemma SelectsAllExactly(total: nat, percentage: int)
    requires total > 0 && 1 <= percentage <= 100
    ensures Count(total, percentage) == total <==> total == 1 || 2 * (total * (100 - percentage)) <= 100
    ensures Count(total, 100) == total
  {
    CountIsNearest(total, percentage);
    CountIsNearest(total, 100);
    assert total * (100 - percentage) == 100 * total - total * percentage;
  }

  lemma LargerShare(total: nat, p: int, q: int)
    requires p <= q
    ensures total * p <= total * q
  {}

  lemma CountMonotone(total: nat, p: int, q: int)
    requires total > 0 && 1 <= p <= q <= 100
    ensures Count(total, p) <= Count(total, q)
  {
    hide Count;
    CountIsNearest(total, p);
    CountIsNearest(total, q);
    LargerShare(total, p, q);
  }

  /** A stage selects the nearest number of agents to its percentage, halves going up, and never none. */
  lemma SubsetIsNearest(stages: seq<Stage>, agents: seq<string>, i: nat)
    requires Admissible(stages) && i < |stages| && agents != []
    ensures var subset, share := SelectSubset(stages, agents, i).value, |agents| * stages[i].percentage;
            if 2 * share < 100 then |subset| == 1 else -100 < 2 * (100 * |subset| - share) <= 100
  {
    hide Count;
    CountIsNearest(|agents|, stages[i].percentage);
  }

  /** Each stage extends the earlier ones; a 100% stage reaches every agent. */
  lemma StagesNest(stages: seq<Stage>, agents: seq<string>, i: nat, j: nat)
    requires Admissible(stages) && i <= j < |stages| && agents != []
    ensures var a, b := SelectSubset(stages, agents, i), SelectSubset(stages, agents, j);
            && a.Ok? && b.Ok? && a.value != [] && a.value <= b.value <= agents
            && (stages[j].percentage == 100 ==> b.value == agents)
  {
    hide Count;
    var n := |agents|;
    var p, q := stages[i].percentage, stages[j].percentage;
    CountIsNearest(n, p);
    CountIsNearest(n, q);
    CountMonotone(n, p, q);
    SelectsAllExactly(n, q);
    assert agents[..Count(n, p)] == agents[..Count(n, q)][..Count(n, p)];
  }
}
