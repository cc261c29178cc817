/**
 Resolution of a leaf's configuration from the four inheritance levels
 (internal/federation/config_distributor.go), on the values of the trees; ConfigHeap
 has the copying and merging of the trees themselves.
 */
module ConfigDistributor {
  import opened ConfigTree
  import opened Names

  datatype ConfigLevels = ConfigLevels(
    global: Config,
    regions: map<string, Config>,
    groups: map<string, Config>,
    agents: map<string, Config>)

  /** The truncated SHA-256 of the resolved config, taken to be collision free. */
  datatype Version = Unset | Hash(cfg: Value)

  // ---- Specification: a fold over the layers that apply, least specific first ----

  function Layer(level: map<string, Config>, key: string): seq<Value> {
    if key in level then [Obj(level[key])] else []
  }

  /** The configs of a set of groups, by ascending group name. */
  ghost function GroupLayers(level: map<string, Config>, groups: set<string>): seq<Value>
    decreases |groups|
  {
    if groups == {} then []
    else
      var m := Greatest(groups);
      GroupLayers(level, groups - {m}) + Layer(level, m)
  }

  function Fold(base: Value, layers: seq<Value>): Value
    decreases |layers|
  {
    if layers == [] then base
    else Overlay(Fold(base, layers[..|layers| - 1]), layers[|layers| - 1])
  }

  ghost function Layers(levels: ConfigLevels, agentID: string, region: string, groups: set<string>): seq<Value> {
    Layer(levels.regions, region) + GroupLayers(levels.groups, groups) + Layer(levels.agents, agentID)
  }

  /** The resolved config. It is a function of the SET of groups, not of their listing. */
  ghost function Resolve(levels: ConfigLevels, agentID: string, region: string, groups: set<string>): Value {
    Fold(Obj(levels.global), Layers(levels, agentID, region, groups))
  }

  // ---- Lemmas about the fold ----

  lemma {:induction false} FoldAppend(base: Value, a: seq<Value>, b: seq<Value>)
    ensures Fold(base, a + b) == Fold(Fold(base, a), b)
    decreases |b|
  {
    if b == [] {
      assert a + b == a;
    } else {
      var n := |b| - 1;
      assert (a + b)[..|a + b| - 1] == a + b[..n];
      FoldAppend(base, a, b[..n]);
    }
  }

  lemma FoldIsMap(base: Value, layers: seq<Value>)
    requires base.Obj? && forall l :: l in layers ==> l.Obj?
    ensures Fold(base, layers).Obj?
  {}

  lemma {:induction false} GroupLayersAreMaps(level: map<string, Config>, groups: set<string>)
    ensures forall l :: l in GroupLayers(level, groups) ==> l.Obj?
    decreases |groups|
  {
    if groups != {} {
      GroupLayersAreMaps(level, groups - {Greatest(groups)});
    }
  }

  /**
   Last layer wins: the highest layer that sets a non-map value at a path decides
   it, provided the layers above it are silent there.
   */
  lemma {:induction false} LastLayerWins(base: Value, layers: seq<Value>, i: nat, path: seq<string>)
    requires base.Obj? && forall l :: l in layers ==> l.Obj?
    requires i < |layers|
    requires Lookup(layers[i], path).Some? && !Lookup(layers[i], path).value.Obj?
    requires forall j :: i < j < |layers| ==> Silent(layers[j], path)
    ensures Lookup(Fold(base, layers), path) == Lookup(layers[i], path)
    decreases |layers|
  {
    var n := |layers| - 1;
    var below := Fold(base, layers[..n]);
    if i == n {
      OverlayWins(below, layers[n], path);
    } else {
      LastLayerWins(base, layers[..n], i, path);
      FoldIsMap(base, layers[..n]);
      OverlaySilent(below, layers[n], path);
    }
  }

  lemma {:induction false} SilentLayersKeepBase(base: Value, layers: seq<Value>, path: seq<string>)
    requires base.Obj? && forall l :: l in layers ==> l.Obj? && Silent(l, path)
    ensures Lookup(Fold(base, layers), path) == Lookup(base, path)
    decreases |layers|
  {
    if layers != [] {
      var n := |layers| - 1;
      SilentLayersKeepBase(base, layers[..n], path);
      FoldIsMap(base, layers[..n]);
      OverlaySilent(Fold(base, layers[..n]), layers[n], path);
    }
  }

  /** Whatever an agent's own config sets is what that agent gets. */
  lemma AgentLevelWins(levels: ConfigLevels, agentID: string, region: string, groups: set<string>, path: seq<string>)
    requires agentID in levels.agents
    requires var v := Lookup(Obj(levels.agents[agentID]), path); v.Some? && !v.value.Obj?
    ensures Lookup(Resolve(levels, agentID, region, groups), path) == Lookup(Obj(levels.agents[agentID]), path)
  {
    var layers := Layers(levels, agentID, region, groups);
    GroupLayersAreMaps(levels.groups, groups);
    assert layers[|layers| - 1] == Obj(levels.agents[agentID]);
    LastLayerWins(Obj(levels.global), layers, |layers| - 1, path);
  }

  /** A path that no applicable region, group or agent config mentions keeps its global value. */
  lemma UntouchedGlobalSurvives(levels: ConfigLevels, agentID: string, region: string, groups: set<string>, path: seq<string>)
    requires region in levels.regions ==> Silent(Obj(levels.regions[region]), path)
    requires forall g :: g in groups && g in levels.groups ==> Silent(Obj(levels.groups[g]), path)
    requires agentID in levels.agents ==> Silent(Obj(levels.agents[agentID]), path)
    ensures Lookup(Resolve(levels, agentID, region, groups), path) == Lookup(Obj(levels.global), path)
  {
    GroupLayersAreMaps(levels.groups, groups);
    GroupLayersSilent(levels.groups, groups, path);
    SilentLayersKeepBase(Obj(levels.global), Layers(levels, agentID, region, groups), path);
  }

  /** A layer at the end, if there is one, changes nothing on a path where it is silent. */
  lemma SilentLayer(base: Value, level: map<string, Config>, key: string, path: seq<string>)
    requires base.Obj? && (key in level ==> Silent(Obj(level[key]), path))
    ensures Fold(base, Layer(level, key)).Obj?
    ensures Lookup(Fold(base, Layer(level, key)), path) == Lookup(base, path)
  {
    if key in level {
      assert Layer(level, key)[..0] == [];
      OverlaySilent(base, Obj(level[key]), path);
    }
  }

  lemma {:induction false} GreatestGroupWins(base: Value, level: map<string, Config>, groups: set<string>, g: string,
                                             path: seq<string>)
    requires base.Obj? && g in groups && g in level
    requires var v := Lookup(Obj(level[g]), path); v.Some? && !v.value.Obj?
    requires forall h :: h in groups && h in level && h != g && AtMost(g, h) ==> Silent(Obj(level[h]), path)
    ensures Lookup(Fold(base, GroupLayers(level, groups)), path) == Lookup(Obj(level[g]), path)
    decreases |groups|
  {
    var m := Greatest(groups);
    var below := Fold(base, GroupLayers(level, groups - {m}));
    FoldAppend(base, GroupLayers(level, groups - {m}), Layer(level, m));
    GroupLayersAreMaps(level, groups - {m});
    FoldIsMap(base, GroupLayers(level, groups - {m}));
    if m == g {
      assert Layer(level, m)[..0] == [];
      OverlayWins(below, Obj(level[g]), path);
    } else {
      GreatestGroupWins(base, level, groups - {m}, g, path);
      SilentLayer(below, level, m, path);
    }
  }

  /** The levels one after the other. */
  lemma ResolveInOrder(levels: ConfigLevels, agentID: string, region: string, groups: set<string>)
    ensures Fold(Obj(levels.global), Layer(levels.regions, region)).Obj?
    ensures var regional := Fold(Obj(levels.global), Layer(levels.regions, region));
            var grouped := Fold(regional, GroupLayers(levels.groups, groups));
            grouped.Obj? && Resolve(levels, agentID, region, groups) == Fold(grouped, Layer(levels.agents, agentID))
  {
    var global, r, g := Obj(levels.global), Layer(levels.regions, region), GroupLayers(levels.groups, groups);
    GroupLayersAreMaps(levels.groups, groups);
    FoldIsMap(global, r);
    FoldIsMap(Fold(global, r), g);
    FoldAppend(global, r, g);
    FoldAppend(global, r + g, Layer(levels.agents, agentID));
  }

  /**
   A group's value stands, whatever the region and the global config say, unless the
   agent's own config or a group of a greater name speaks about the path.
   */
  lemma GroupBeatsRegion(levels: ConfigLevels, agentID: string, region: string, groups: set<string>, g: string,
                         path: seq<string>)
    requires g in groups && g in levels.groups
    requires var v := Lookup(Obj(levels.groups[g]), path); v.Some? && !v.value.Obj?
    requires forall h :: h in groups && h in levels.groups && h != g && AtMost(g, h) ==> Silent(Obj(levels.groups[h]), path)
    requires agentID in levels.agents ==> Silent(Obj(levels.agents[agentID]), path)
    ensures Lookup(Resolve(levels, agentID, region, groups), path) == Lookup(Obj(levels.groups[g]), path)
  {
    ResolveInOrder(levels, agentID, region, groups);
    var regional := Fold(Obj(levels.global), Layer(levels.regions, region));
    GreatestGroupWins(regional, levels.groups, groups, g, path);
    SilentLayer(Fold(regional, GroupLayers(levels.groups, groups)), levels.agents, agentID, path);
  }

  /** A region's value stands, whatever the global config says, where the leaf's groups and the agent are silent. */
  lemma RegionBeatsGlobal(levels: ConfigLevels, agentID: string, region: string, groups: set<string>, path: seq<string>)
    requires region in levels.regions
    requires var v := Lookup(Obj(levels.regions[region]), path); v.Some? && !v.value.Obj?
    requires forall g :: g in groups && g in levels.groups ==> Silent(Obj(levels.groups[g]), path)
    requires agentID in levels.agents ==> Silent(Obj(levels.agents[agentID]), path)
    ensures Lookup(Resolve(levels, agentID, region, groups), path) == Lookup(Obj(levels.regions[region]), path)
  {
    ResolveInOrder(levels, agentID, region, groups);
    assert Layer(levels.regions, region)[..0] == [];
    OverlayWins(Obj(levels.global), Obj(levels.regions[region]), path);
    var regional := Fold(Obj(levels.global), Layer(levels.regions, region));
    GroupLayersAreMaps(levels.groups, groups);
    GroupLayersSilent(levels.groups, groups, path);
    SilentLayersKeepBase(regional, GroupLayers(levels.groups, groups), path);
    SilentLayer(Fold(regional, GroupLayers(levels.groups, groups)), levels.agents, agentID, path);
  }

  lemma {:induction false} GroupLayersSilent(level: map<string, Config>, groups: set<string>, path: seq<string>)
    requires forall g :: g in groups && g in level ==> Silent(Obj(level[g]), path)
    ensures forall l :: l in GroupLayers(level, groups) ==> Silent(l, path)
    decreases |groups|
  {
    if groups != {} {
      GroupLayersSilent(level, groups - {Greatest(groups)}, path);
    }
  }

  // ---- The loop over a sorted listing with duplicates computes the set-based fold ----

  function Listed(level: map<string, Config>, names: seq<string>): seq<Value>
    decreases |names|
  {
    if names == [] then []
    else Listed(level, names[..|names| - 1]) + Layer(level, names[|names| - 1])
  }

  /** Merging one group's config twice in a row is merging it once. */
  lemma LayerTwice(base: Value, level: map<string, Config>, name: string)
    ensures Fold(Fold(base, Layer(level, name)), Layer(level, name)) == Fold(base, Layer(level, name))
  {
    if name in level {
      var l := Obj(level[name]);
      assert Layer(level, name)[..0] == [];
      OverlayIdempotent(base, l);
    }
  }

  /** Any ascending listing, repetitions included, folds to what its set of names folds to. */
  lemma {:induction false} SortedListingFold(base: Value, level: map<string, Config>, names: seq<string>)
    requires Sorted(names)
    ensures Fold(base, Listed(level, names)) == Fold(base, GroupLayers(level, Members(names)))
    decreases |names|
  {
    if names != [] {
      var n := |names| - 1;
      var last, init := names[n], names[..n];
      var all := Members(names);
      SortedListingFold(base, level, init);
      LastIsGreatest(names);
      var rest := GroupLayers(level, all - {last});
      FoldAppend(base, Listed(level, init), Layer(level, last));
      FoldAppend(base, rest, Layer(level, last));
      if last in init {
        assert Members(init) == all;
        LayerTwice(Fold(base, rest), level, last);
      } else {
        assert Members(init) == all - {last};
      }
    } else {
      assert Members(names) == {};
    }
  }

  lemma LastIsGreatest(names: seq<string>)
    requires Sorted(names) && names != []
    ensures names[|names| - 1] in Members(names)
    ensures Greatest(Members(names)) == names[|names| - 1]
  {
    var last := names[|names| - 1];
    assert last in Members(names);
    var m := Greatest(Members(names));
    var i :| 0 <= i < |names| && names[i] == m;
    AtMostTotal(m, m);
    AtMostAntisymmetric(m, last);
  }

  class Distributor {
    var levels: ConfigLevels

    constructor (levels: ConfigLevels)
      ensures this.levels == levels
    {
      this.levels := levels;
    }

    /** Replaces the levels; every later resolution uses the new ones. */
    method UpdateLevels(levels: ConfigLevels)
      modifies this
      ensures this.levels == levels
    {
      this.levels := levels;
    }

    /** Reordering or repeating the listed groups cannot change the result. */
    method ResolveConfig(agentID: string, region: string, groups: seq<string>) returns (result: Config)
      ensures Obj(result) == Resolve(levels, agentID, region, Members(groups))
    {
      ghost var base := Obj(levels.global);
      ghost var regional := Layer(levels.regions, region);
      result := levels.global;
      if region in levels.regions {
        result := Overlay(Obj(result), Obj(levels.regions[region])).entries;
      }
      assert regional == [] || regional[..0] == [];
      assert Obj(result) == Fold(base, regional);
      ghost var start := Obj(result);
      ghost var grouped := GroupLayers(levels.groups, Members(groups));
      if |groups| > 0 {
        result := MergeGroups(result, groups);
      } else {
        assert Members(groups) == {};
      }
      assert Obj(result) == Fold(start, grouped);
      ghost var own := Layer(levels.agents, agentID);
      ghost var before := Obj(result);
      if agentID in levels.agents {
        result := Overlay(Obj(result), Obj(levels.agents[agentID])).entries;
      }
      assert own == [] || own[..0] == [];
      assert Obj(result) == Fold(before, own);
      FoldAppend(base, regional, grouped);
      FoldAppend(base, regional + grouped, own);
    }

    method MergeGroups(start: Config, groups: seq<string>) returns (result: Config)
      ensures Obj(result) == Fold(Obj(start), GroupLayers(levels.groups, Members(groups)))
    {
      var sorted := SortedCopy(groups);
      result := start;
      for i := 0 to |sorted|
        invariant Obj(result) == Fold(Obj(start), Listed(levels.groups, sorted[..i]))
      {
        var g := sorted[i];
        FoldAppend(Obj(start), Listed(levels.groups, sorted[..i]), Layer(levels.groups, g));
        assert sorted[..i + 1][..i] == sorted[..i];
        if g in levels.groups {
          result := Overlay(Obj(result), Obj(levels.groups[g])).entries;
          assert Layer(levels.groups, g)[..0] == [];
        }
      }
      assert sorted[..|sorted|] == sorted;
      SortedListingFold(Obj(start), levels.groups, sorted);
    }

    method GetConfigVersion(agentID: string, region: string, groups: seq<string>) returns (v: Version)
      ensures v == Hash(Resolve(levels, agentID, region, Members(groups)))
    {
      var cfg := ResolveConfig(agentID, region, groups);
      v := Hash(Obj(cfg));
    }
  }
}
