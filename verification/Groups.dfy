/**
 Dynamic grouping of leaf agents by label rules (internal/federation/group.go and
 leaf_state.go): an index from group name to members, updated in place, against
 the definition that recomputes every leaf's groups from its labels.
 */
module Groups {
  import opened Names
  import opened ConfigDistributor

  datatype Labels = Labels(pairs: map<string, string>)

  datatype GroupRule = GroupRule(name: string, pattern: Labels)

  /** A missing label reads as the empty string, as a Go map lookup does. */
  function LabelOf(labels: Labels, key: string): string {
    if key in labels.pairs then labels.pairs[key] else ""
  }

  predicate MatchesAll(labels: Labels, pattern: Labels) {
    forall k :: k in pattern.pairs ==> LabelOf(labels, k) == pattern.pairs[k]
  }

  /** Manual labels override automatic ones. */
  function Merged(autoLabels: Labels, labels: Labels): Labels {
    Labels(autoLabels.pairs + labels.pairs)
  }

  /** The label a leaf has under a key: the manual one, else the automatic one, else none, which reads as "". */
  lemma MergedLabel(autoLabels: Labels, labels: Labels, k: string)
    ensures LabelOf(Merged(autoLabels, labels), k) ==
            if k in labels.pairs then labels.pairs[k]
            else if k in autoLabels.pairs then autoLabels.pairs[k]
            else ""
  {}

  /** A pattern is met iff each of its pairs is, and the empty pattern by everybody. */
  lemma PatternLaw(labels: Labels, p: Labels, q: Labels, k: string, v: string)
    requires p.pairs.Keys !! q.pairs.Keys
    ensures MatchesAll(labels, Labels(map[]))
    ensures MatchesAll(labels, Labels(map[k := v])) <==> LabelOf(labels, k) == v
    ensures MatchesAll(labels, Labels(p.pairs + q.pairs)) <==> MatchesAll(labels, p) && MatchesAll(labels, q)
  {
    var one, both := Labels(map[k := v]), Labels(p.pairs + q.pairs);
    assert k in one.pairs && one.pairs[k] == v;
    assert forall j :: j in p.pairs ==> j in both.pairs && both.pairs[j] == p.pairs[j];
    assert forall j :: j in q.pairs ==> j in both.pairs && both.pairs[j] == q.pairs[j];
  }

  /** Some rule named `g` matches the labels. */
  predicate InGroup(rules: seq<GroupRule>, labels: Labels, g: string) {
    exists i :: 0 <= i < |rules| && rules[i].name == g && MatchesAll(labels, rules[i].pattern)
  }

  /** The names of the matching rules, in rule order, repetitions included. */
  function GroupsFor(rules: seq<GroupRule>, labels: Labels): seq<string> {
    if rules == [] then []
    else
      var n := |rules| - 1;
      GroupsFor(rules[..n], labels) + if MatchesAll(labels, rules[n].pattern) then [rules[n].name] else []
  }

  lemma {:induction false} GroupsForMembers(rules: seq<GroupRule>, labels: Labels, g: string)
    ensures g in GroupsFor(rules, labels) <==> InGroup(rules, labels, g)
    decreases |rules|
  {
    if rules != [] {
      var n := |rules| - 1;
      GroupsForMembers(rules[..n], labels, g);
      if InGroup(rules[..n], labels, g) {
        var i :| 0 <= i < n && rules[..n][i].name == g && MatchesAll(labels, rules[..n][i].pattern);
        assert rules[i] == rules[..n][i];
      }
      if InGroup(rules, labels, g) {
        var i :| 0 <= i < |rules| && rules[i].name == g && MatchesAll(labels, rules[i].pattern);
        assert i < n ==> rules[..n][i] == rules[i];
      }
    }
  }

  lemma OneRule(r: GroupRule, labels: Labels)
    ensures GroupsFor([r], labels) == if MatchesAll(labels, r.pattern) then [r.name] else []
  {
    hide MatchesAll;
    assert [r][..0] == [];
  }

  /** Rules are taken in order: the groups of two lists of rules are those of the first, then those of the second. */
  lemma {:induction false} GroupsInRuleOrder(first: seq<GroupRule>, second: seq<GroupRule>, labels: Labels)
    ensures GroupsFor(first + second, labels) == GroupsFor(first, labels) + GroupsFor(second, labels)
    decreases |second|
  {
    hide MatchesAll;
    if second == [] {
      assert first + second == first;
    } else {
      var n := |second| - 1;
      assert (first + second)[..|first| + n] == first + second[..n];
      GroupsInRuleOrder(first, second[..n], labels);
    }
  }

  datatype LeafFields = LeafFields(
    agentID: string, labels: Labels, autoLabels: Labels, groups: seq<string>, version: Version)

  class LeafState {
    const agentID: string
    var labels: Labels
    var autoLabels: Labels
    var groups: seq<string>
    var configVersion: Version

    constructor (agentID: string, labels: Labels, autoLabels: Labels)
      ensures this.agentID == agentID && this.labels == labels && this.autoLabels == autoLabels
      ensures groups == [] && configVersion == Unset
    {
      this.agentID, this.labels, this.autoLabels := agentID, labels, autoLabels;
      groups, configVersion := [], Unset;
    }

    function AllLabels(): Labels
      reads this
    {
      Merged(autoLabels, labels)
    }

    function Fields(): LeafFields
      reads this
    {
      LeafFields(agentID, labels, autoLabels, groups, configVersion)
    }
  }

  /** A rule on one pair goes by the manual label where there is one, whatever the automatic labels are. */
  lemma ManualLabelDecides(leaf: LeafState, g: string, k: string, v: string)
    ensures var rules := [GroupRule(g, Labels(map[k := v]))];
            InGroup(rules, leaf.AllLabels(), g) <==>
            v == if k in leaf.labels.pairs then leaf.labels.pairs[k]
                 else if k in leaf.autoLabels.pairs then leaf.autoLabels.pairs[k]
                 else ""
  {
    MergedLabel(leaf.autoLabels, leaf.labels, k);
    PatternLaw(leaf.AllLabels(), Labels(map[]), Labels(map[]), k, v);
    var rules := [GroupRule(g, Labels(map[k := v]))];
    assert rules[0].name == g;
  }

  type Index = map<string, set<string>>

  predicate Indexed(index: Index, g: string, id: string) {
    g in index && id in index[g]
  }

  predicate NoEmptyGroup(index: Index) {
    forall g :: g in index ==> index[g] != {}
  }

  /** Deletes a member, and the group with its last member. */
  function Without(index: Index, g: string, id: string): (r: Index)
    requires NoEmptyGroup(index)
    ensures NoEmptyGroup(r)
    ensures forall h, x :: Indexed(r, h, x) <==> Indexed(index, h, x) && !(h == g && x == id)
  {
    if g !in index then index
    else
      assert forall x :: x in index[g] ==> x == id || x in index[g] - {id};
      if index[g] - {id} == {} then index - {g} else index[g := index[g] - {id}]
  }

  /** An agent is indexed under exactly the groups whose rules match the labels it was indexed with. */
  ghost predicate IndexAgrees(rules: seq<GroupRule>, index: Index, seen: map<string, Labels>) {
    NoEmptyGroup(index) &&
    forall g, id :: Indexed(index, g, id) <==> id in seen && InGroup(rules, seen[id], g)
  }

  class GroupEngine {
    const rules: seq<GroupRule>
    var leafStates: map<string, LeafState>
    var groupIndex: Index
    /** The merged labels each tracked agent was last indexed with. */
    ghost var seen: map<string, Labels>

    ghost predicate Indexes()
      reads this
    {
      leafStates.Keys == seen.Keys && IndexAgrees(rules, groupIndex, seen)
    }

    /** The leaf object still has the labels it was indexed with, and lists its groups. */
    ghost predicate UpToDate(id: string)
      requires id in leafStates && id in seen
      reads this, leafStates[id]
    {
      var leaf := leafStates[id];
      leaf.agentID == id && leaf.AllLabels() == seen[id] && leaf.groups == GroupsFor(rules, seen[id])
    }

    /**
     An agent is in the index under a group exactly when it is tracked and a rule of
     that name matches its labels; no group is empty; each leaf's own list agrees.
     */
    ghost predicate Valid()
      reads this, leafStates.Values
      ensures Valid() ==> NoEmptyGroup(groupIndex)
      ensures Valid() ==>
                forall g, id :: Indexed(groupIndex, g, id) <==>
                                id in leafStates && InGroup(rules, leafStates[id].AllLabels(), g)
    {
      Indexes() && forall id :: id in leafStates ==> UpToDate(id)
    }

    /** A leaf that is up to date lists every group it is indexed under. */
    lemma ListsItsGroups(id: string)
      requires Indexes() && id in leafStates && UpToDate(id)
      ensures forall g :: Indexed(groupIndex, g, id) ==> g in leafStates[id].groups
    {
      forall g | Indexed(groupIndex, g, id) ensures g in leafStates[id].groups {
        GroupsForMembers(rules, seen[id], g);
      }
    }

    constructor (rules: seq<GroupRule>)
      ensures Valid() && this.rules == rules && leafStates == map[]
    {
      this.rules, leafStates, groupIndex, seen := rules, map[], map[], map[];
    }

    method Evaluate(leaf: LeafState) returns (groups: seq<string>)
      ensures groups == GroupsFor(rules, leaf.AllLabels())
      ensures forall g :: g in groups <==> InGroup(rules, leaf.AllLabels(), g)
      ensures forall k :: LabelOf(leaf.AllLabels(), k) ==
                if k in leaf.labels.pairs then leaf.labels.pairs[k]
                else if k in leaf.autoLabels.pairs then leaf.autoLabels.pairs[k]
                else ""
    {
      groups := [];
      var labels := leaf.AllLabels();
      for i := 0 to |rules|
        invariant groups == GroupsFor(rules[..i], labels)
      {
        assert rules[..i + 1][..i] == rules[..i];
        if MatchesAll(labels, rules[i].pattern) {
          groups := groups + [rules[i].name];
        }
      }
      assert rules[..|rules|] == rules;
      forall g ensures g in groups <==> InGroup(rules, labels, g) {
        GroupsForMembers(rules, labels, g);
      }
    }

    /** The groups the index lists an agent under, in any order. */
    method LeafGroups(agentID: string) returns (groups: seq<string>)
      ensures forall g :: g in groups <==> Indexed(groupIndex, g, agentID)
    {
      groups := [];
      var todo := groupIndex.Keys;
      while todo != {}
        invariant todo <= groupIndex.Keys
        invariant forall g :: g in groups <==> g !in todo && Indexed(groupIndex, g, agentID)
      {
        var g :| g in todo;
        if agentID in groupIndex[g] {
          groups := groups + [g];
        }
        todo := todo - {g};
      }
    }

    /** Re-indexes one leaf, whatever its labels were before. */
    method UpdateLeaf(leaf: LeafState)
      requires Indexes()
      modifies this, leaf`groups
      ensures Indexes()
      ensures leafStates == old(leafStates)[leaf.agentID := leaf]
      ensures seen == old(seen)[leaf.agentID := leaf.AllLabels()]
      ensures leaf.groups == GroupsFor(rules, leaf.AllLabels())
    {
      var id := leaf.agentID;
      var oldGroups := LeafGroups(id);
      var newGroups := Evaluate(leaf);
      Prune(id, oldGroups, newGroups);
      Insert(id, newGroups);
      leaf.groups := newGroups;
      leafStates := leafStates[id := leaf];
      seen := seen[id := leaf.AllLabels()];
    }

    /** Leaves every group no longer matched. */
    method Prune(id: string, oldGroups: seq<string>, newGroups: seq<string>)
      requires NoEmptyGroup(groupIndex)
      modifies this`groupIndex
      ensures NoEmptyGroup(groupIndex)
      ensures forall g, x :: Indexed(groupIndex, g, x) <==>
                old(Indexed(groupIndex, g, x)) && !(x == id && g in oldGroups && g !in newGroups)
    {
      for i := 0 to |oldGroups|
        invariant NoEmptyGroup(groupIndex)
        invariant forall g, x :: Indexed(groupIndex, g, x) <==>
                    old(Indexed(groupIndex, g, x)) && !(x == id && g in oldGroups[..i] && g !in newGroups)
      {
        if oldGroups[i] !in newGroups {
          groupIndex := Without(groupIndex, oldGroups[i], id);
        }
      }
    }

    /** Joins every group now matched. */
    method Insert(id: string, newGroups: seq<string>)
      requires NoEmptyGroup(groupIndex)
      modifies this`groupIndex
      ensures NoEmptyGroup(groupIndex)
      ensures forall g, x :: Indexed(groupIndex, g, x) <==>
                old(Indexed(groupIndex, g, x)) || (x == id && g in newGroups)
    {
      for i := 0 to |newGroups|
        invariant NoEmptyGroup(groupIndex)
        invariant forall g, x :: Indexed(groupIndex, g, x) <==>
                    old(Indexed(groupIndex, g, x)) || (x == id && g in newGroups[..i])
      {
        var g := newGroups[i];
        if g !in groupIndex {
          groupIndex := groupIndex[g := {}];
        }
        groupIndex := groupIndex[g := groupIndex[g] + {id}];
        assert newGroups[..i + 1] == newGroups[..i] + [g];
      }
    }

    /**
     Leaves the groups the leaf itself lists. The index still agrees afterwards exactly
     when that list names every group the agent was indexed under.
     */
    method RemoveLeaf(agentID: string)
      requires Indexes()
      modifies this
      ensures leafStates == old(leafStates) - {agentID} && seen == old(seen) - {agentID}
      ensures NoEmptyGroup(groupIndex)
      ensures forall g, x :: Indexed(groupIndex, g, x) <==>
                old(Indexed(groupIndex, g, x)) &&
                !(x == agentID && agentID in old(leafStates) && g in old(leafStates)[agentID].groups)
      ensures Indexes() <==>
              (agentID in old(leafStates) ==>
                 forall g :: old(Indexed(groupIndex, g, agentID)) ==> g in old(leafStates)[agentID].groups)
    {
      if agentID !in leafStates {
        return;
      }
      Prune(agentID, leafStates[agentID].groups, []);
      leafStates := leafStates - {agentID};
      seen := seen - {agentID};
    }

    /** Exactly the tracked agents that a rule of this name matches, ascending, each once. */
    method GetGroupMembers(name: string) returns (ids: seq<string>)
      requires Valid()
      ensures Sorted(ids)
      ensures forall id :: id in ids <==>
                id in leafStates && InGroup(rules, leafStates[id].AllLabels(), name)
      ensures |ids| == |Members(ids)|
    {
      if name !in groupIndex {
        return [];
      }
      var listed := [];
      var todo := groupIndex[name];
      while todo != {}
        invariant todo <= groupIndex[name]
        invariant Members(listed) == groupIndex[name] - todo
        invariant |listed| == |Members(listed)|
      {
        var id :| id in todo;
        assert Members(listed + [id]) == Members(listed) + {id};
        listed := listed + [id];
        todo := todo - {id};
      }
      ids := SortedCopy(listed);
      assert |ids| == |multiset(ids)| == |multiset(listed)| == |listed|;
      assert forall id :: id in ids <==> id in Members(ids);
      assert forall id :: id in groupIndex[name] <==> Indexed(groupIndex, name, id);
    }
  }
}
