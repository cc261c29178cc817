/**
 The four aggregator plugins (internal/collector/aggregators/minmax, avg, sum and
 percentile): running maps updated by Add, reported by Push, cleared by Reset. Each
 is tied to the samples its fields received since the last reset.
 */
module Aggregators {
  import opened Metrics
  import opened Percentiles
  import opened Aggregation
  import opened PercentileKeys

  datatype Emission<V> = Emission(name: string, tags: map<string, string>, values: map<string, V>)

  function Emit<V>(id: Identity, suffix: string, values: map<string, V>): (r: seq<Emission<V>>)
    ensures r == [] <==> values == map[]
    ensures r != [] ==>
              |r| == 1 && r[0].name == id.name + suffix && r[0].tags == id.tags && r[0].values == values
  {
    if values == map[] then [] else [Emission(id.name + suffix, id.tags, values)]
  }

  /** The samples of a field once the first `i` listed fields of `m` have been added. */
  function Partial(fields: seq<string>, seen: seq<Metric>, m: Metric, i: nat, f: string): seq<Sample>
    requires i <= |fields|
  {
    Samples(fields, seen, f) + FromMetric(fields[..i], m, f)
  }

  predicate Contributes(fields: seq<string>, m: Metric, i: nat)
    requires i < |fields|
  {
    fields[i] in m.fields && Numeric(m.fields[fields[i]])
  }

  lemma PartialNext(fields: seq<string>, seen: seq<Metric>, m: Metric, i: nat, f: string)
    requires i < |fields|
    ensures f == fields[i] && Contributes(fields, m, i) ==>
              Partial(fields, seen, m, i + 1, f) == Partial(fields, seen, m, i, f) + [m.fields[f]]
    ensures !(f == fields[i] && Contributes(fields, m, i)) ==>
              Partial(fields, seen, m, i + 1, f) == Partial(fields, seen, m, i, f)
  {
    FromMetricNext(fields, i, m, f);
  }

  lemma PartialEnds(fields: seq<string>, seen: seq<Metric>, m: Metric, f: string)
    ensures Partial(fields, seen, m, 0, f) == Samples(fields, seen, f)
    ensures Partial(fields, seen, m, |fields|, f) == Samples(fields, seen + [m], f)
  {
    assert fields[..|fields|] == fields && fields[..0] == [];
    assert Samples(fields, seen, f) + [] == Samples(fields, seen, f);
    SamplesNext(fields, seen, m, f);
  }

  lemma ValuesNext(s: seq<Sample>, v: Sample)
    ensures Values(s + [v]) == Values(s) + [Real(v)]
    ensures Values(s + [v])[..|s|] == Values(s)
  {}

  // ---- A table that follows the samples of every field ----

  /** `holds(s, e)`: entry `e` is right for the samples `s`. */
  predicate Tracked<E>(t: map<string, E>, holds: (seq<Sample>, E) -> bool, f: string, s: seq<Sample>) {
    (f in t <==> s != []) && (s != [] ==> holds(s, t[f]))
  }

  ghost predicate Tracks<E>(t: map<string, E>, holds: (seq<Sample>, E) -> bool, fields: seq<string>, seen: seq<Metric>) {
    forall f :: Tracked(t, holds, f, Samples(fields, seen, f))
  }

  ghost predicate TracksPart<E>(t: map<string, E>, holds: (seq<Sample>, E) -> bool,
                                fields: seq<string>, seen: seq<Metric>, m: Metric, i: nat)
    requires i <= |fields|
  {
    forall f :: Tracked(t, holds, f, Partial(fields, seen, m, i, f))
  }

  lemma TracksEmpty<E>(holds: (seq<Sample>, E) -> bool, fields: seq<string>)
    ensures Tracks(map[], holds, fields, [])
  {}

  lemma TracksEnds<E>(t: map<string, E>, holds: (seq<Sample>, E) -> bool, fields: seq<string>, seen: seq<Metric>, m: Metric)
    ensures TracksPart(t, holds, fields, seen, m, 0) <==> Tracks(t, holds, fields, seen)
    ensures TracksPart(t, holds, fields, seen, m, |fields|) <==> Tracks(t, holds, fields, seen + [m])
  {
    hide Tracked, Samples, Partial;
    forall f
      ensures Partial(fields, seen, m, 0, f) == Samples(fields, seen, f)
      ensures Partial(fields, seen, m, |fields|, f) == Samples(fields, seen + [m], f)
    {
      PartialEnds(fields, seen, m, f);
    }
  }

  /** One listed field: its entry takes the new sample, if there is one, and no other entry changes. */
  lemma TracksStep<E>(t: map<string, E>, u: map<string, E>, holds: (seq<Sample>, E) -> bool,
                      fields: seq<string>, seen: seq<Metric>, m: Metric, i: nat)
    requires i < |fields| && TracksPart(t, holds, fields, seen, m, i)
    requires !Contributes(fields, m, i) ==> u == t
    requires Contributes(fields, m, i) ==>
               && fields[i] in u && u == t[fields[i] := u[fields[i]]]
               && holds(Partial(fields, seen, m, i, fields[i]) + [m.fields[fields[i]]], u[fields[i]])
    ensures TracksPart(u, holds, fields, seen, m, i + 1)
  {
    hide Partial;
    var j := i + 1;
    forall f ensures Tracked(u, holds, f, Partial(fields, seen, m, j, f)) {
      assert Tracked(t, holds, f, Partial(fields, seen, m, i, f));
      PartialNext(fields, seen, m, i, f);
    }
  }

  lemma TrackedAt<E>(t: map<string, E>, holds: (seq<Sample>, E) -> bool,
                     fields: seq<string>, seen: seq<Metric>, m: Metric, i: nat, f: string)
    requires i <= |fields| && TracksPart(t, holds, fields, seen, m, i)
    ensures Tracked(t, holds, f, Partial(fields, seen, m, i, f))
  {}

  /** The entries of the listed fields. */
  function Restrict<E>(t: map<string, E>, fields: seq<string>): map<string, E> {
    map f | f in fields && f in t :: t[f]
  }

  lemma RestrictNext<E>(t: map<string, E>, fields: seq<string>, i: nat)
    requires i < |fields|
    ensures Restrict(t, fields[..i + 1]) ==
            if fields[i] in t then Restrict(t, fields[..i])[fields[i] := t[fields[i]]] else Restrict(t, fields[..i])
  {}

  lemma RestrictTracked<E>(t: map<string, E>, holds: (seq<Sample>, E) -> bool, fields: seq<string>, seen: seq<Metric>)
    requires Tracks(t, holds, fields, seen)
    ensures t.Keys == Restrict(t, fields).Keys == Reported(fields, seen)
    ensures forall f :: f in t ==> Restrict(t, fields)[f] == t[f] && holds(Samples(fields, seen, f), t[f])
  {
    hide Samples;
    forall f ensures f in t <==> f in Reported(fields, seen)
             ensures f in t ==> holds(Samples(fields, seen, f), t[f]) {
      assert Tracked(t, holds, f, Samples(fields, seen, f));
      if f !in fields {
        SamplesOfListed(fields, seen, f);
      }
    }
  }

  lemma RestrictNone<E>(t: map<string, E>)
    ensures Restrict(t, []) == map[]
  {}

  // ---- minmax ----

  predicate IsMin(s: seq<Sample>, v: real) { s != [] && v == Min(Values(s)) }

  predicate IsMax(s: seq<Sample>, v: real) { s != [] && v == Max(Values(s)) }

  lemma MinMaxNext(s: seq<Sample>, v: Sample)
    ensures Min(Values(s + [v])) == (if s == [] || Real(v) < Min(Values(s)) then Real(v) else Min(Values(s)))
    ensures Max(Values(s + [v])) == (if s == [] || Real(v) > Max(Values(s)) then Real(v) else Max(Values(s)))
  {
    ValuesNext(s, v);
  }

  class MinMax {
    const fields: seq<string>
    var mins: map<string, real>
    var maxs: map<string, real>
    var identity: Identity
    ghost var seen: seq<Metric>

    ghost predicate Valid()
      reads this
    {
      identity == IdentityOf(fields, seen) && Tracks(mins, IsMin, fields, seen) && Tracks(maxs, IsMax, fields, seen)
    }

    constructor (fields: seq<string>)
      ensures Valid() && this.fields == fields && seen == []
    {
      this.fields := fields;
      mins, maxs, identity, seen := map[], map[], Identity("", map[]), [];
      TracksEmpty<real>(IsMin, fields);
      TracksEmpty<real>(IsMax, fields);
    }

    method Add(m: Metric)
      requires Valid()
      modifies this
      ensures Valid() && seen == old(seen) + [m]
    {
      hide Tracks, TracksPart, Partial;
      TracksEnds(mins, IsMin, fields, seen, m);
      TracksEnds(maxs, IsMax, fields, seen, m);
      for i := 0 to |fields|
        invariant seen == old(seen) && identity == old(identity)
        invariant TracksPart(mins, IsMin, fields, seen, m, i)
        invariant TracksPart(maxs, IsMax, fields, seen, m, i)
      {
        var fname := fields[i];
        ghost var s := Partial(fields, seen, m, i, fname);
        ghost var mins0, maxs0 := mins, maxs;
        TrackedAt(mins, IsMin, fields, seen, m, i, fname);
        TrackedAt(maxs, IsMax, fields, seen, m, i, fname);
        if Contributes(fields, m, i) {
          MinMaxNext(s, m.fields[fname]);
          var fv := Real(m.fields[fname]);
          if fname !in mins {
            mins, maxs := mins[fname := fv], maxs[fname := fv];
          } else {
            if fv < mins[fname] {
              mins := mins[fname := fv];
            }
            if fv > maxs[fname] {
              maxs := maxs[fname := fv];
            }
          }
        }
        TracksStep(mins0, mins, IsMin, fields, seen, m, i);
        TracksStep(maxs0, maxs, IsMax, fields, seen, m, i);
      }
      identity := Capture(fields, identity, m);
      TracksEnds(mins, IsMin, fields, seen, m);
      TracksEnds(maxs, IsMax, fields, seen, m);
      assert (seen + [m])[..|seen|] == seen;
      seen := seen + [m];
    }

    method Push() returns (out: seq<Emission<real>>)
      requires Valid()
      ensures out == Emit(identity, "_min", MinReport(fields, seen)) + Emit(identity, "_max", MaxReport(fields, seen))
    {
      hide Tracks, Restrict, Samples, Min, Max;
      RestrictTracked(mins, IsMin, fields, seen);
      RestrictTracked(maxs, IsMax, fields, seen);
      assert Restrict(mins, fields) == MinReport(fields, seen);
      assert Restrict(maxs, fields) == MaxReport(fields, seen);
      if mins == map[] {
        return [];
      }
      var minFields: map<string, real>, maxFields: map<string, real> := map[], map[];
      RestrictNone(mins);
      RestrictNone(maxs);
      for i := 0 to |fields|
        invariant minFields == Restrict(mins, fields[..i]) && maxFields == Restrict(maxs, fields[..i])
      {
        var fname := fields[i];
        RestrictNext(mins, fields, i);
        RestrictNext(maxs, fields, i);
        if fname in mins {
          minFields := minFields[fname := mins[fname]];
          maxFields := maxFields[fname := maxs[fname]];
        }
      }
      assert fields[..|fields|] == fields;
      return Emit(identity, "_min", minFields) + Emit(identity, "_max", maxFields);
    }

    method Reset()
      modifies this
      ensures Valid() && seen == []
    {
      mins, maxs, identity, seen := map[], map[], Identity("", map[]), [];
      TracksEmpty<real>(IsMin, fields);
      TracksEmpty<real>(IsMax, fields);
    }
  }

  // ---- avg ----

  predicate IsSum(s: seq<Sample>, v: real) { v == Sum(Values(s)) }

  predicate IsCount(s: seq<Sample>, n: int) { n == |s| }

  lemma SumNext(s: seq<Sample>, v: Sample)
    ensures Sum(Values(s + [v])) == Sum(Values(s)) + Real(v)
    ensures s == [] ==> Sum(Values(s)) == 0.0
  {
    ValuesNext(s, v);
  }

  class Avg {
    const fields: seq<string>
    var sums: map<string, real>
    var counts: map<string, int>
    var identity: Identity
    ghost var seen: seq<Metric>

    ghost predicate Valid()
      reads this
    {
      identity == IdentityOf(fields, seen) && Tracks(sums, IsSum, fields, seen) && Tracks(counts, IsCount, fields, seen)
    }

    constructor (fields: seq<string>)
      ensures Valid() && this.fields == fields && seen == []
    {
      this.fields := fields;
      sums, counts, identity, seen := map[], map[], Identity("", map[]), [];
      TracksEmpty<real>(IsSum, fields);
      TracksEmpty<int>(IsCount, fields);
    }

    method Add(m: Metric)
      requires Valid()
      modifies this
      ensures Valid() && seen == old(seen) + [m]
    {
      hide Tracks, TracksPart, Partial;
      TracksEnds(sums, IsSum, fields, seen, m);
      TracksEnds(counts, IsCount, fields, seen, m);
      for i := 0 to |fields|
        invariant seen == old(seen) && identity == old(identity)
        invariant TracksPart(sums, IsSum, fields, seen, m, i)
        invariant TracksPart(counts, IsCount, fields, seen, m, i)
      {
        var fname := fields[i];
        ghost var s := Partial(fields, seen, m, i, fname);
        ghost var sums0, counts0 := sums, counts;
        TrackedAt(sums, IsSum, fields, seen, m, i, fname);
        TrackedAt(counts, IsCount, fields, seen, m, i, fname);
        if Contributes(fields, m, i) {
          SumNext(s, m.fields[fname]);
          sums := sums[fname := (if fname in sums then sums[fname] else 0.0) + Real(m.fields[fname])];
          counts := counts[fname := (if fname in counts then counts[fname] else 0) + 1];
        }
        TracksStep(sums0, sums, IsSum, fields, seen, m, i);
        TracksStep(counts0, counts, IsCount, fields, seen, m, i);
      }
      identity := Capture(fields, identity, m);
      TracksEnds(sums, IsSum, fields, seen, m);
      TracksEnds(counts, IsCount, fields, seen, m);
      assert (seen + [m])[..|seen|] == seen;
      seen := seen + [m];
    }

    method Push() returns (out: seq<Emission<real>>)
      requires Valid()
      ensures out == Emit(identity, "_avg", AvgReport(fields, seen))
    {
      hide Tracks, Restrict, AvgReport;
      AvgOfTables(sums, counts, fields, seen);
      if counts == map[] {
        return [];
      }
      var avgs: map<string, real> := map[];
      RestrictNone(AvgReport(fields, seen));
      for i := 0 to |fields|
        invariant avgs == Restrict(AvgReport(fields, seen), fields[..i])
      {
        var fname := fields[i];
        RestrictNext(AvgReport(fields, seen), fields, i);
        if fname in counts && counts[fname] != 0 {
          avgs := avgs[fname := sums[fname] / counts[fname] as real];
        }
      }
      assert fields[..|fields|] == fields;
      return Emit(identity, "_avg", avgs);
    }

    method Reset()
      modifies this
      ensures Valid() && seen == []
    {
      sums, counts, identity, seen := map[], map[], Identity("", map[]), [];
      TracksEmpty<real>(IsSum, fields);
      TracksEmpty<int>(IsCount, fields);
    }
  }

  lemma AvgOfTables(sums: map<string, real>, counts: map<string, int>, fields: seq<string>, seen: seq<Metric>)
    requires Tracks(sums, IsSum, fields, seen) && Tracks(counts, IsCount, fields, seen)
    ensures sums.Keys == counts.Keys == AvgReport(fields, seen).Keys
    ensures forall f :: f in counts ==> counts[f] != 0 && AvgReport(fields, seen)[f] == sums[f] / counts[f] as real
    ensures Restrict(AvgReport(fields, seen), fields) == AvgReport(fields, seen)
  {
    hide Tracks, Samples, Sum;
    RestrictTracked(sums, IsSum, fields, seen);
    RestrictTracked(counts, IsCount, fields, seen);
  }

  // ---- sum ----

  predicate IsTotal(s: seq<Sample>, t: Total) { t == TotalOf(s) }

  predicate IsKind(s: seq<Sample>, ints: bool) { ints == AllInts(s) }

  function First(v: Sample): Total {
    if v.Int64? then IntTotal(v.i) else FloatTotal(v.r)
  }

  /** A float promotes an integer total; an integer never demotes a float total. */
  function Added(t: Total, v: Sample): Total {
    if t.IntTotal? && v.Int64? then IntTotal(t.i + v.i) else FloatTotal(TotalValue(t) + Real(v))
  }

  lemma TotalFirst(v: Sample)
    ensures TotalOf([v]) == First(v)
  {
    assert [v][0] == v && [v][..0] == [];
    assert IntSum([v]) == if v.Int64? then v.i else 0;
    var r := Values([v]);
    assert r == [Real(v)] && r[..0] == [] && Sum(r) == Real(v);
  }

  lemma TotalNext(s: seq<Sample>, v: Sample)
    requires s != []
    ensures TotalOf(s + [v]) == Added(TotalOf(s), v)
  {
    var t := s + [v];
    assert t[..|s|] == s;
    ValuesNext(s, v);
    TotalIsSum(s);
    if AllInts(t) {
      assert forall i :: 0 <= i < |s| ==> s[i] == t[i];
      assert v == t[|s|];
    }
  }

  class Summer {
    const fields: seq<string>
    var sums: map<string, Total>
    var isInt: map<string, bool>
    var identity: Identity
    ghost var seen: seq<Metric>

    ghost predicate Valid()
      reads this
    {
      identity == IdentityOf(fields, seen) && Tracks(sums, IsTotal, fields, seen) && Tracks(isInt, IsKind, fields, seen)
    }

    constructor (fields: seq<string>)
      ensures Valid() && this.fields == fields && seen == []
    {
      this.fields := fields;
      sums, isInt, identity, seen := map[], map[], Identity("", map[]), [];
      TracksEmpty<Total>(IsTotal, fields);
      TracksEmpty<bool>(IsKind, fields);
    }

    method Add(m: Metric)
      requires Valid()
      modifies this
      ensures Valid() && seen == old(seen) + [m]
    {
      hide Tracks, TracksPart, Partial, TotalOf, AllInts;
      TracksEnds(sums, IsTotal, fields, seen, m);
      TracksEnds(isInt, IsKind, fields, seen, m);
      for i := 0 to |fields|
        invariant seen == old(seen) && identity == old(identity)
        invariant TracksPart(sums, IsTotal, fields, seen, m, i)
        invariant TracksPart(isInt, IsKind, fields, seen, m, i)
      {
        var fname := fields[i];
        ghost var s := Partial(fields, seen, m, i, fname);
        ghost var sums0, isInt0 := sums, isInt;
        TrackedAt(sums, IsTotal, fields, seen, m, i, fname);
        TrackedAt(isInt, IsKind, fields, seen, m, i, fname);
        if Contributes(fields, m, i) {
          TotalStep(s, m.fields[fname]);
          Accumulate(fname, m.fields[fname]);
        }
        TracksStep(sums0, sums, IsTotal, fields, seen, m, i);
        TracksStep(isInt0, isInt, IsKind, fields, seen, m, i);
      }
      identity := Capture(fields, identity, m);
      TracksEnds(sums, IsTotal, fields, seen, m);
      TracksEnds(isInt, IsKind, fields, seen, m);
      assert (seen + [m])[..|seen|] == seen;
      seen := seen + [m];
    }

    method Accumulate(fname: string, sample: Sample)
      requires (fname in sums <==> fname in isInt) && (fname in sums ==> isInt[fname] == sums[fname].IntTotal?)
      modifies this`sums, this`isInt
      ensures fname in sums && sums == old(sums)[fname := sums[fname]]
      ensures isInt == old(isInt)[fname := sums[fname].IntTotal?]
      ensures sums[fname] == if fname in old(sums) then Added(old(sums)[fname], sample) else First(sample)
    {
      match sample {
        case Float64(v) =>
          if fname in sums {
            match sums[fname] {
              case FloatTotal(ev) => sums := sums[fname := FloatTotal(ev + v)];
              case IntTotal(ev) =>
                sums := sums[fname := FloatTotal(ev as real + v)];
                isInt := isInt[fname := false];
            }
          } else {
            sums := sums[fname := FloatTotal(v)];
            isInt := isInt[fname := false];
          }
        case Int64(v) =>
          if fname in sums {
            match sums[fname] {
              case IntTotal(ev) => sums := sums[fname := IntTotal(ev + v)];
              case FloatTotal(ev) =>
                sums := sums[fname := FloatTotal(ev + v as real)];
                isInt := isInt[fname := false];
            }
          } else {
            sums := sums[fname := IntTotal(v)];
            isInt := isInt[fname := true];
          }
      }
    }

    method Push() returns (out: seq<Emission<Total>>)
      requires Valid()
      ensures out == Emit(identity, "_sum", SumReport(fields, seen))
    {
      hide Tracks, Restrict, Samples, TotalOf;
      RestrictTracked(sums, IsTotal, fields, seen);
      assert Restrict(sums, fields) == SumReport(fields, seen);
      if sums == map[] {
        return [];
      }
      var totals: map<string, Total> := map[];
      RestrictNone(sums);
      for i := 0 to |fields|
        invariant totals == Restrict(sums, fields[..i])
      {
        RestrictNext(sums, fields, i);
        if fields[i] in sums {
          totals := totals[fields[i] := sums[fields[i]]];
        }
      }
      assert fields[..|fields|] == fields;
      return Emit(identity, "_sum", totals);
    }

    method Reset()
      modifies this
      ensures Valid() && seen == []
    {
      sums, isInt, identity, seen := map[], map[], Identity("", map[]), [];
      TracksEmpty<Total>(IsTotal, fields);
      TracksEmpty<bool>(IsKind, fields);
    }
  }

  /** Adding a sample to the total of the earlier ones gives the total of all, kind included. */
  lemma TotalStep(s: seq<Sample>, v: Sample)
    ensures TotalOf(s).IntTotal? <==> AllInts(s)
    ensures TotalOf(s + [v]).IntTotal? <==> AllInts(s + [v])
    ensures TotalOf(s + [v]) == if s == [] then First(v) else Added(TotalOf(s), v)
  {
    if s == [] {
      assert s + [v] == [v];
      TotalFirst(v);
    } else {
      TotalNext(s, v);
    }
  }

  // ---- percentile ----

  predicate IsRearranged(s: seq<Sample>, v: seq<real>) { multiset(v) == multiset(Values(s)) }

  /** The percentiles of one field, added one by one. */
  function Row(f: string, sorted: seq<real>, ps: seq<Percent>): map<(string, Percent), real> {
    if ps == [] then map[]
    else var n := |ps| - 1; Row(f, sorted, ps[..n])[(f, ps[n]) := Percentile(sorted, ps[n] as real)]
  }

  /** The rows of the listed fields, one after the other. */
  function Rows(listed: seq<string>, fields: seq<string>, seen: seq<Metric>, ps: seq<Percent>): map<(string, Percent), real> {
    if listed == [] then map[]
    else
      var n := |listed| - 1;
      Rows(listed[..n], fields, seen, ps) + RowOf(listed[n], fields, seen, ps)
  }

  function RowOf(f: string, fields: seq<string>, seen: seq<Metric>, ps: seq<Percent>): map<(string, Percent), real> {
    if f in Reported(fields, seen) then Row(f, Sort(ValuesOf(fields, seen, f)), ps) else map[]
  }

  lemma {:induction false} RowAt(f: string, sorted: seq<real>, ps: seq<Percent>, g: string, p: Percent)
    ensures (g, p) in Row(f, sorted, ps) <==> g == f && p in ps
    ensures g == f && p in ps ==> Row(f, sorted, ps)[(g, p)] == Percentile(sorted, p as real)
    decreases |ps|
  {
    hide Percentile;
    if ps != [] {
      var n := |ps| - 1;
      assert ps == ps[..n] + [ps[n]];
      RowAt(f, sorted, ps[..n], g, p);
    }
  }

  lemma {:induction false} RowsAt(listed: seq<string>, fields: seq<string>, seen: seq<Metric>, ps: seq<Percent>, f: string, p: Percent)
    ensures (f, p) in Rows(listed, fields, seen, ps) <==> f in listed && f in Reported(fields, seen) && p in ps
    ensures (f, p) in Rows(listed, fields, seen, ps) ==>
              Rows(listed, fields, seen, ps)[(f, p)] == Percentile(Sort(ValuesOf(fields, seen, f)), p as real)
    decreases |listed|
  {
    hide Percentile, Reported, ValuesOf, Sort, Row;
    if listed != [] {
      var n := |listed| - 1;
      assert listed == listed[..n] + [listed[n]];
      RowsAt(listed[..n], fields, seen, ps, f, p);
      if listed[n] in Reported(fields, seen) {
        RowAt(listed[n], Sort(ValuesOf(fields, seen, listed[n])), ps, f, p);
      }
    }
  }

  lemma RowsReport(fields: seq<string>, seen: seq<Metric>, ps: seq<Percent>)
    ensures Rows(fields, fields, seen, ps) == PercentileReport(fields, seen, ps)
  {
    hide Percentile, Sort, Samples, ValuesOf, Rows;
    var rows, report := Rows(fields, fields, seen, ps), PercentileReport(fields, seen, ps);
    forall k: (string, Percent)
      ensures k in rows <==> k in report
      ensures k in rows ==> rows[k] == report[k]
    {
      RowsAt(fields, fields, seen, ps, k.0, k.1);
    }
  }

  class PercentileAggregator {
    const fields: seq<string>
    const percentiles: seq<Percent>
    var values: map<string, seq<real>>
    var identity: Identity
    ghost var seen: seq<Metric>

    ghost predicate Valid()
      reads this
    {
      identity == IdentityOf(fields, seen) && Tracks(values, IsRearranged, fields, seen)
    }

    constructor (fields: seq<string>, percentiles: seq<Percent>)
      ensures Valid() && this.fields == fields && seen == [] && this.percentiles == percentiles
    {
      this.fields, this.percentiles := fields, percentiles;
      values, identity, seen := map[], Identity("", map[]), [];
      TracksEmpty<seq<real>>(IsRearranged, fields);
    }

    method Add(m: Metric)
      requires Valid()
      modifies this
      ensures Valid() && seen == old(seen) + [m]
    {
      hide Tracks, TracksPart, Partial;
      TracksEnds(values, IsRearranged, fields, seen, m);
      for i := 0 to |fields|
        invariant seen == old(seen) && identity == old(identity)
        invariant TracksPart(values, IsRearranged, fields, seen, m, i)
      {
        var fname := fields[i];
        ghost var s := Partial(fields, seen, m, i, fname);
        ghost var values0 := values;
        TrackedAt(values, IsRearranged, fields, seen, m, i, fname);
        if Contributes(fields, m, i) {
          ValuesNext(s, m.fields[fname]);
          assert s == [] ==> Values(s) == [];
          values := values[fname := (if fname in values then values[fname] else []) + [Real(m.fields[fname])]];
        }
        TracksStep(values0, values, IsRearranged, fields, seen, m, i);
      }
      identity := Capture(fields, identity, m);
      TracksEnds(values, IsRearranged, fields, seen, m);
      assert (seen + [m])[..|seen|] == seen;
      seen := seen + [m];
    }

    /** Sorts each field's values in place and reports the percentiles under their rendered names. */
    method Push() returns (out: seq<Emission<real>>)
      requires Valid()
      modifies this`values
      ensures Valid()
      ensures out == Emit(identity, "", Rendered(PercentileReport(fields, seen, percentiles)))
    {
      hide Tracks, Samples, Sort, Percentile, Row, Reported, PercentileReport, Rendered;
      var report: map<string, real> := map[];
      RenderedNone();
      for i := 0 to |fields|
        invariant Tracks(values, IsRearranged, fields, seen)
        invariant report == Rendered(Rows(fields[..i], fields, seen, percentiles))
      {
        var fname := fields[i];
        RestrictTracked(values, IsRearranged, fields, seen);
        RearrangedNonEmpty(values, fields, seen);
        ghost var rows := Rows(fields[..i], fields, seen, percentiles);
        assert fields[..i + 1][..i] == fields[..i] && rows + map[] == rows;
        if fname in values && |values[fname]| != 0 {
          SortPermutes(values[fname]);
          SortIgnoresOrder(values[fname], ValuesOf(fields, seen, fname));
          TracksRearranged(values, fname, Sort(values[fname]), fields, seen);
          values := values[fname := Sort(values[fname])];
          report := PutAll(report, fname, values[fname], rows);
        }
      }
      assert fields[..|fields|] == fields;
      RowsReport(fields, seen, percentiles);
      return Emit(identity, "", report);
    }

    /** The inner loop over the percentiles. */
    method PutAll(report: map<string, real>, fname: string, sorted: seq<real>, ghost rows: map<(string, Percent), real>)
      returns (r: map<string, real>)
      requires report == Rendered(rows)
      ensures r == Rendered(rows + Row(fname, sorted, percentiles))
    {
      hide Percentile, Rendered, KeyOf;
      r := report;
      assert rows + Row(fname, sorted, []) == rows;
      for k := 0 to |percentiles|
        invariant r == Rendered(rows + Row(fname, sorted, percentiles[..k]))
      {
        var p := percentiles[k];
        assert percentiles[..k + 1][..k] == percentiles[..k];
        PutLast(rows, Row(fname, sorted, percentiles[..k]), (fname, p), Percentile(sorted, p as real));
        RenderedPut(rows + Row(fname, sorted, percentiles[..k]), (fname, p), Percentile(sorted, p as real));
        r := r[KeyOf((fname, p)) := Percentile(sorted, p as real)];
      }
      assert percentiles[..|percentiles|] == percentiles;
    }

    method Reset()
      modifies this
      ensures Valid() && seen == []
    {
      values, identity, seen := map[], Identity("", map[]), [];
      TracksEmpty<seq<real>>(IsRearranged, fields);
    }
  }

  lemma PutLast<K, V>(a: map<K, V>, b: map<K, V>, k: K, v: V)
    ensures a + b[k := v] == (a + b)[k := v]
  {}

  lemma RearrangedNonEmpty(t: map<string, seq<real>>, fields: seq<string>, seen: seq<Metric>)
    requires Tracks(t, IsRearranged, fields, seen)
    ensures forall f :: f in t ==> |t[f]| != 0
  {
    hide Samples;
    forall f | f in t ensures |t[f]| != 0 {
      assert Tracked(t, IsRearranged, f, Samples(fields, seen, f));
      assert |t[f]| == |multiset(t[f])| == |Samples(fields, seen, f)|;
    }
  }

  lemma TracksRearranged(t: map<string, seq<real>>, f: string, v: seq<real>, fields: seq<string>, seen: seq<Metric>)
    requires Tracks(t, IsRearranged, fields, seen) && f in t && multiset(v) == multiset(t[f])
    ensures Tracks(t[f := v], IsRearranged, fields, seen)
  {}
}
