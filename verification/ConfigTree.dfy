/**
 Configuration trees and the recursive merge of the federation hub
 (internal/federation/config_distributor.go). A Go `map[string]any` is a map of
 `Value`s; a nil map and an empty map are the same value here, exactly as
 `deepCopyMap` makes them.
 */
module ConfigTree {
  import opened Wrappers

  datatype Scalar = Null | Flag(b: bool) | Number(n: real) | Text(s: string)

  datatype Value =
    | Leaf(scalar: Scalar)
    | List(items: seq<Value>)
    | Obj(entries: map<string, Value>)

  type Config = map<string, Value>

  /** The value of merging `src` over `dst`: maps merge key by key, anything else is replaced. */
  function Overlay(dst: Value, src: Value): Value
    decreases src
  {
    match (dst, src)
    case (Obj(d), Obj(s)) =>
      Obj(map k | k in d.Keys + s.Keys ::
            if k !in s then d[k] else if k !in d then s[k] else Overlay(d[k], s[k]))
    case _ => src
  }

  /** The value found by descending through maps along `path`. */
  function Lookup(v: Value, path: seq<string>): Option<Value>
    decreases |path|
  {
    if path == [] then Some(v)
    else if v.Obj? && path[0] in v.entries then Lookup(v.entries[path[0]], path[1..])
    else None
  }

  /** `v` holds something other than a map at `path` or at one of its prefixes. */
  predicate Blocks(v: Value, path: seq<string>)
    decreases |path|
  {
    !v.Obj? || (path != [] && path[0] in v.entries && Blocks(v.entries[path[0]], path[1..]))
  }

  /** `v` says nothing about `path`: no value there and no non-map above it. */
  predicate Silent(v: Value, path: seq<string>) {
    !Blocks(v, path) && Lookup(v, path) == None
  }

  /** What a lookup finds after a merge, for every base, overlay and path. */
  lemma {:induction false} OverlayLookup(dst: Value, src: Value, path: seq<string>)
    ensures Lookup(Overlay(dst, src), path) ==
            if Blocks(src, path) || !dst.Obj? then Lookup(src, path)
            else if Lookup(src, path) == None then Lookup(dst, path)
            else if Lookup(dst, path).Some? && Lookup(dst, path).value.Obj?
              then Some(Overlay(Lookup(dst, path).value, Lookup(src, path).value))
            else Lookup(src, path)
    decreases |path|
  {
    if dst.Obj? && src.Obj? && path != [] {
      var k := path[0];
      if k in dst.entries && k in src.entries {
        OverlayLookup(dst.entries[k], src.entries[k], path[1..]);
      }
    }
  }

  /** A non-map value set by the overlay is what the merge holds there. */
  lemma {:induction false} OverlayWins(dst: Value, src: Value, path: seq<string>)
    requires Lookup(src, path).Some? && !Lookup(src, path).value.Obj?
    ensures Lookup(Overlay(dst, src), path) == Lookup(src, path)
  {
    NonMapBlocks(src, path);
    OverlayLookup(dst, src, path);
  }

  lemma {:induction false} NonMapBlocks(v: Value, path: seq<string>)
    requires Lookup(v, path).Some? && !Lookup(v, path).value.Obj?
    ensures Blocks(v, path)
    decreases |path|
  {
    if path != [] {
      NonMapBlocks(v.entries[path[0]], path[1..]);
    }
  }

  /** Where the overlay is silent the base shows through unchanged. */
  lemma {:induction false} OverlaySilent(dst: Value, src: Value, path: seq<string>)
    requires Silent(src, path) && dst.Obj?
    ensures Lookup(Overlay(dst, src), path) == Lookup(dst, path)
  {
    OverlayLookup(dst, src, path);
  }

  lemma {:induction false} OverlaySelf(v: Value)
    ensures Overlay(v, v) == v
    decreases v
  {
    if v.Obj? {
      forall k | k in v.entries ensures Overlay(v.entries[k], v.entries[k]) == v.entries[k] {
        OverlaySelf(v.entries[k]);
      }
      assert Overlay(v, v).entries == v.entries;
    }
  }

  /** Merging the same tree a second time changes nothing, at any depth. */
  lemma {:induction false} OverlayIdempotent(dst: Value, src: Value)
    ensures Overlay(Overlay(dst, src), src) == Overlay(dst, src)
    decreases src
  {
    if dst.Obj? && src.Obj? {
      var once := Overlay(dst, src);
      forall k | k in src.entries ensures Overlay(once.entries[k], src.entries[k]) == once.entries[k] {
        if k in dst.entries {
          OverlayIdempotent(dst.entries[k], src.entries[k]);
        } else {
          OverlaySelf(src.entries[k]);
        }
      }
      assert Overlay(once, src).entries == once.entries;
    } else {
      OverlaySelf(src);
    }
  }

  /** The overlay has every key the base has, wherever both are maps. */
  predicate Covered(dst: Value, src: Value)
    decreases src
  {
    dst.Obj? && src.Obj? ==> forall k :: k in dst.entries ==> k in src.entries && Covered(dst.entries[k], src.entries[k])
  }

  lemma {:induction false} OverlayCovered(dst: Value, src: Value)
    ensures Overlay(dst, src) == src <==> Covered(dst, src)
    decreases src
  {
    if dst.Obj? && src.Obj? {
      var both := Overlay(dst, src).entries;
      forall k | k in dst.entries && k in src.entries
        ensures both[k] == src.entries[k] <==> Covered(dst.entries[k], src.entries[k])
      {
        OverlayCovered(dst.entries[k], src.entries[k]);
      }
      if Covered(dst, src) {
        assert both == src.entries;
      } else if dst.entries.Keys <= src.entries.Keys {
        var k :| k in dst.entries && !Covered(dst.entries[k], src.entries[k]);
        assert both[k] != src.entries[k];
      } else {
        var k :| k in dst.entries && k !in src.entries;
        assert k in both;
      }
    }
  }

  /** Nowhere does a non-map stand between two maps of which the last would miss a key of the first. */
  predicate Groupable(a: Value, b: Value, c: Value)
    decreases c
  {
    a.Obj? && c.Obj? ==>
      if b.Obj? then
        forall k :: k in a.entries && k in b.entries && k in c.entries ==> Groupable(a.entries[k], b.entries[k], c.entries[k])
      else Covered(a, c)
  }

  /** When merging three trees does not depend on which two are merged first. */
  lemma {:induction false} OverlayAssociativeExactly(a: Value, b: Value, c: Value)
    ensures Overlay(Overlay(a, b), c) == Overlay(a, Overlay(b, c)) <==> Groupable(a, b, c)
    decreases c
  {
    if a.Obj? && c.Obj? {
      if b.Obj? {
        var x, y := Overlay(Overlay(a, b), c).entries, Overlay(a, Overlay(b, c)).entries;
        assert x.Keys == y.Keys;
        forall k | k in x ensures x[k] == y[k] <==> At(a, b, c, k) {
          if k in a.entries && k in b.entries && k in c.entries {
            OverlayAssociativeExactly(a.entries[k], b.entries[k], c.entries[k]);
          }
        }
        assert x == y <==> forall k :: k in x ==> At(a, b, c, k);
        if !Groupable(a, b, c) {
          var k :| k in a.entries && k in b.entries && k in c.entries && !Groupable(a.entries[k], b.entries[k], c.entries[k]);
          assert k in x && !At(a, b, c, k);
        }
      } else {
        OverlayCovered(a, c);
      }
    }
  }

  predicate At(a: Value, b: Value, c: Value, k: string)
    requires a.Obj? && b.Obj? && c.Obj?
  {
    k in a.entries && k in b.entries && k in c.entries ==> Groupable(a.entries[k], b.entries[k], c.entries[k])
  }

  /** Merging is not associative once a map meets a non-map. */
  lemma OverlayNotAssociative(n: Scalar, w: Value)
    ensures var a := Obj(map["k" := w]);
            var b := Leaf(n);
            var c := Obj(map[]);
            Overlay(Overlay(a, b), c) != Overlay(a, Overlay(b, c))
  {
    assert "k" in Overlay(Obj(map["k" := w]), Obj(map[])).entries;
  }
}
