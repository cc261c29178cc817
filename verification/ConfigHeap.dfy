/**
 The copy and the merge of configuration trees on the objects they really work on
 (internal/federation/config_distributor.go): maps and slices are shared references,
 and what comes back must share none of them with what went in.
 */
module ConfigHeap {
  import opened ConfigTree
  import opened ConfigDistributor

  /** A Go `any` of a decoded configuration. */
  datatype Any = Basic(scalar: Scalar) | Slice(items: array<Any>) | Map(node: Node)

  /** A Go `map[string]any`. */
  class Node {
    var entries: map<string, Any>

    constructor ()
      ensures entries == map[]
    {
      entries := map[];
    }
  }

  /** The tree hanging from `a` has the value `v`, and all its maps and slices are in `used`. */
  ghost predicate Shows(a: Any, v: Value, used: set<object>)
    reads used
    decreases v, 1
  {
    match a
    case Basic(s) => v == Leaf(s)
    case Slice(items) =>
      && items in used && v.List? && items.Length == |v.items|
      && forall i :: 0 <= i < items.Length ==> Shows(items[i], v.items[i], used)
    case Map(node) => node in used && v.Obj? && ShowsEntries(node.entries, v.entries, used)
  }

  ghost predicate ShowsEntries(entries: map<string, Any>, m: Config, used: set<object>)
    reads used
    decreases Obj(m), 0
  {
    entries.Keys == m.Keys && forall k :: k in m ==> Shows(entries[k], m[k], used)
  }

  lemma {:induction false} ShowsMore(a: Any, v: Value, used: set<object>, more: set<object>)
    requires Shows(a, v, used) && used <= more
    ensures Shows(a, v, more)
    decreases v
  {
    match a
    case Basic(_) =>
    case Slice(items) =>
      forall i | 0 <= i < items.Length ensures Shows(items[i], v.items[i], more) {
        ShowsMore(items[i], v.items[i], used, more);
      }
    case Map(node) =>
      forall k | k in v.entries ensures Shows(node.entries[k], v.entries[k], more) {
        ShowsMore(node.entries[k], v.entries[k], used, more);
      }
  }

  lemma ShowsMoreEntries(entries: map<string, Any>, m: Config, used: set<object>, more: set<object>)
    requires ShowsEntries(entries, m, used) && used <= more
    ensures ShowsEntries(entries, m, more)
  {
    forall k | k in m ensures Shows(entries[k], m[k], more) {
      ShowsMore(entries[k], m[k], used, more);
    }
  }

  /** The copy has the same value and is made of new maps and slices only. */
  method DeepCopy(a: Any, ghost v: Value, ghost used: set<object>) returns (r: Any, ghost made: set<object>)
    requires Shows(a, v, used)
    ensures Shows(r, v, made) && fresh(made)
    decreases v, 1
  {
    match a
    case Basic(_) =>
      r, made := a, {};
    case Slice(items) =>
      var cp, parts := DeepCopySlice(items, v.items, used);
      r, made := Slice(cp), parts + {cp};
      forall i | 0 <= i < cp.Length ensures Shows(cp[i], v.items[i], made) {
        ShowsMore(cp[i], v.items[i], parts, made);
      }
    case Map(node) =>
      var cp, parts := DeepCopyMap(node, v.entries, used);
      r, made := Map(cp), parts + {cp};
      ShowsMoreEntries(cp.entries, v.entries, parts, made);
  }

  method DeepCopySlice(items: array<Any>, ghost vs: seq<Value>, ghost used: set<object>)
    returns (cp: array<Any>, ghost parts: set<object>)
    requires items in used && items.Length == |vs| && forall i :: 0 <= i < |vs| ==> Shows(items[i], vs[i], used)
    ensures fresh(cp) && fresh(parts) && cp !in parts
    ensures cp.Length == |vs| && forall i :: 0 <= i < |vs| ==> Shows(cp[i], vs[i], parts)
    decreases vs, 0
  {
    cp := new Any[items.Length](_ => Basic(Null));
    parts := {};
    for i := 0 to items.Length
      invariant fresh(parts) && cp !in parts
      invariant forall j :: 0 <= j < i ==> Shows(cp[j], vs[j], parts)
    {
      assert Shows(items[i], vs[i], used);
      var item, made := DeepCopy(items[i], vs[i], used);
      forall j | 0 <= j < i ensures Shows(cp[j], vs[j], parts + made) {
        ShowsMore(cp[j], vs[j], parts, parts + made);
      }
      ShowsMore(item, vs[i], made, parts + made);
      parts := parts + made;
      cp[i] := item;
    }
  }

  method DeepCopyMap(node: Node, ghost m: Config, ghost used: set<object>) returns (cp: Node, ghost parts: set<object>)
    requires node in used && ShowsEntries(node.entries, m, used)
    ensures fresh(cp) && fresh(parts) && cp !in parts && ShowsEntries(cp.entries, m, parts)
    decreases Obj(m), 0
  {
    cp := new Node();
    parts := {};
    var todo := node.entries.Keys;
    while todo != {}
      invariant todo <= node.entries.Keys == m.Keys
      invariant fresh(parts) && cp !in parts
      invariant cp.entries.Keys == m.Keys - todo
      invariant forall k :: k in cp.entries ==> Shows(cp.entries[k], m[k], parts)
      decreases todo
    {
      var k :| k in todo;
      assert Shows(node.entries[k], m[k], used);
      var item, made := DeepCopy(node.entries[k], m[k], used);
      forall j | j in cp.entries ensures Shows(cp.entries[j], m[j], parts + made) {
        ShowsMore(cp.entries[j], m[j], parts, parts + made);
      }
      ShowsMore(item, m[k], made, parts + made);
      parts := parts + made;
      cp.entries := cp.entries[k := item];
      todo := todo - {k};
    }
  }

  /** What a key holds once merged. */
  ghost function Merged(d: Config, s: Config, k: string): Value
    requires k in d || k in s
  {
    if k !in s then d[k] else if k !in d then s[k] else Overlay(d[k], s[k])
  }

  /** The keys in `todo` are still to be merged. */
  ghost predicate Partway(entries: map<string, Any>, d: Config, s: Config, todo: set<string>, used: set<object>)
    reads used
  {
    && entries.Keys == d.Keys + (s.Keys - todo)
    && forall k :: k in entries ==> Shows(entries[k], if k in todo then d[k] else Merged(d, s, k), used)
  }

  lemma PartwayStep(entries: map<string, Any>, d: Config, s: Config, todo: set<string>, used: set<object>,
                    k: string, item: Any, made: set<object>)
    requires Partway(entries, d, s, todo, used) && k in todo && k in s && Shows(item, Merged(d, s, k), made)
    ensures Partway(entries[k := item], d, s, todo - {k}, used + made)
  {
    hide Shows, Merged;
    var next, rest, all := entries[k := item], todo - {k}, used + made;
    forall j | j in next ensures Shows(next[j], if j in rest then d[j] else Merged(d, s, j), all) {
      if j == k {
        ShowsMore(item, Merged(d, s, k), made, all);
      } else {
        ShowsMore(entries[j], if j in todo then d[j] else Merged(d, s, j), used, all);
      }
    }
  }

  lemma PartwayEnds(entries: map<string, Any>, d: Config, s: Config, used: set<object>)
    ensures ShowsEntries(entries, d, used) ==> Partway(entries, d, s, s.Keys, used)
    ensures Partway(entries, d, s, {}, used) ==> ShowsEntries(entries, Overlay(Obj(d), Obj(s)).entries, used)
  {
    hide Shows;
  }

  /** The merge has the merged value and shares no map or slice with either input. */
  method DeepMerge(dst: Node, src: Node, ghost d: Config, ghost s: Config, ghost used: set<object>)
    returns (result: Node, ghost parts: set<object>)
    requires dst in used && src in used && ShowsEntries(dst.entries, d, used) && ShowsEntries(src.entries, s, used)
    ensures fresh(result) && fresh(parts) && result !in parts
    ensures ShowsEntries(result.entries, Overlay(Obj(d), Obj(s)).entries, parts)
    decreases Obj(s)
  {
    hide Shows, Overlay, Partway;
    result, parts := DeepCopyMap(dst, d, used);
    PartwayEnds(result.entries, d, s, parts);
    var todo := src.entries.Keys;
    while todo != {}
      invariant todo <= src.entries.Keys == s.Keys && ShowsEntries(src.entries, s, used)
      invariant fresh(result) && fresh(parts) && result !in parts
      invariant Partway(result.entries, d, s, todo, parts)
      decreases todo
    {
      var k :| k in todo;
      StillThere(result.entries, d, s, todo, parts, k);
      var item, made := MergeKey(result, src, d, s, used, parts, k);
      PartwayStep(result.entries, d, s, todo, parts, k, item, made);
      parts := parts + made;
      result.entries := result.entries[k := item];
      todo := todo - {k};
    }
    PartwayEnds(result.entries, d, s, parts);
  }

  lemma StillThere(entries: map<string, Any>, d: Config, s: Config, todo: set<string>, used: set<object>, k: string)
    requires Partway(entries, d, s, todo, used) && k in todo && k in s
    ensures k in entries <==> k in d
    ensures k in d ==> Shows(entries[k], d[k], used)
  {
    hide Shows;
  }

  /** One key of the source: copied when it is new or not a map on both sides, merged otherwise. */
  method MergeKey(result: Node, src: Node, ghost d: Config, ghost s: Config, ghost used: set<object>,
                  ghost parts: set<object>, k: string)
    returns (item: Any, ghost made: set<object>)
    requires k in s && k in src.entries && Shows(src.entries[k], s[k], used)
    requires k in result.entries <==> k in d
    requires k in d ==> Shows(result.entries[k], d[k], parts)
    ensures fresh(made) && Shows(item, Merged(d, s, k), made)
    decreases Obj(s), 0
  {
    var srcVal := src.entries[k];
    if k in result.entries && srcVal.Map? && result.entries[k].Map? {
      var existing := result.entries[k];
      ghost var all := used + parts;
      ShowsMoreEntries(existing.node.entries, d[k].entries, parts, all);
      ShowsMoreEntries(srcVal.node.entries, s[k].entries, used, all);
      var merged, inner := DeepMerge(existing.node, srcVal.node, d[k].entries, s[k].entries, all);
      item, made := Map(merged), inner + {merged};
      ShowsMoreEntries(merged.entries, Overlay(d[k], s[k]).entries, inner, made);
    } else {
      item, made := DeepCopy(srcVal, s[k], used);
    }
  }

  /**
   The levels of a resolution one over the other: the result has the resolved value, and
   nobody who changes it can change a level, nor the other way round.
   */
  method MergeLayers(global: Node, layers: seq<Node>, ghost g: Config, ghost vs: seq<Config>, ghost used: set<object>)
    returns (result: Node, ghost made: set<object>)
    requires Shows(Map(global), Obj(g), used)
    requires |layers| == |vs| && forall i :: 0 <= i < |vs| ==> Shows(Map(layers[i]), Obj(vs[i]), used)
    ensures fresh(made) && Shows(Map(result), Fold(Obj(g), Trees(vs)), made)
  {
    hide Shows, Fold, Overlay;
    result, made := CopyOfMap(global, g, used);
    ghost var cur := g;
    FoldNext(g, vs, 0);
    for i := 0 to |layers|
      invariant fresh(made) && Obj(cur) == Fold(Obj(g), Trees(vs[..i])) && Shows(Map(result), Obj(cur), made)
      invariant forall j :: 0 <= j < |vs| ==> Shows(Map(layers[j]), Obj(vs[j]), used)
    {
      FoldNext(g, vs, i);
      result, made := MergeOver(result, layers[i], cur, vs[i], made, used);
      cur := Overlay(Obj(cur), Obj(vs[i])).entries;
    }
    assert vs[..|vs|] == vs;
  }

  ghost function Trees(vs: seq<Config>): seq<Value> {
    seq(|vs|, i requires 0 <= i < |vs| => Obj(vs[i]))
  }

  lemma FoldNext(g: Config, vs: seq<Config>, i: nat)
    requires i <= |vs|
    ensures i == 0 ==> Fold(Obj(g), Trees(vs[..i])) == Obj(g)
    ensures i < |vs| ==> Fold(Obj(g), Trees(vs[..i + 1])) == Overlay(Fold(Obj(g), Trees(vs[..i])), Obj(vs[i]))
  {
    hide Overlay;
    if i < |vs| {
      assert Trees(vs[..i + 1])[..i] == Trees(vs[..i]);
    }
  }

  method CopyOfMap(node: Node, ghost m: Config, ghost used: set<object>) returns (cp: Node, ghost made: set<object>)
    requires Shows(Map(node), Obj(m), used)
    ensures fresh(made) && Shows(Map(cp), Obj(m), made)
  {
    ghost var parts;
    cp, parts := DeepCopyMap(node, m, used);
    made := parts + {cp};
    ShowsMoreEntries(cp.entries, m, parts, made);
  }

  method MergeOver(dst: Node, src: Node, ghost d: Config, ghost s: Config, ghost mine: set<object>, ghost used: set<object>)
    returns (result: Node, ghost made: set<object>)
    requires Shows(Map(dst), Obj(d), mine) && Shows(Map(src), Obj(s), used)
    ensures fresh(made) && Shows(Map(result), Overlay(Obj(d), Obj(s)), made)
    ensures Overlay(Obj(d), Obj(s)).Obj?
  {
    ShowsMoreEntries(dst.entries, d, mine, mine + used);
    ShowsMoreEntries(src.entries, s, used, mine + used);
    ghost var parts;
    result, parts := DeepMerge(dst, src, d, s, mine + used);
    made := parts + {result};
    ShowsMoreEntries(result.entries, Overlay(Obj(d), Obj(s)).entries, parts, made);
  }
}
