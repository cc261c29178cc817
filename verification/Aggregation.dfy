/**
 What the aggregators compute, as functions of the metrics seen since the last
 reset, and how the four results relate (internal/collector/aggregators).
 */
module Aggregation {
  import opened Metrics
  import opened Percentiles

  // ---- Samples ----

  predicate Numeric(v: FieldValue) { v.Float64? || v.Int64? }

  function Real(v: FieldValue): real
    requires Numeric(v)
  {
    match v
    case Float64(r) => r
    case Int64(i) => i as real
  }

  type Sample = v: FieldValue | Numeric(v) witness Int64(0)

  /** A metric's contribution to a field: once per listing of that field. */
  function FromMetric(fields: seq<string>, m: Metric, f: string): seq<Sample>
    decreases |fields|
  {
    if fields == [] then []
    else
      var n := |fields| - 1;
      FromMetric(fields[..n], m, f)
      + if fields[n] == f && f in m.fields && Numeric(m.fields[f]) then [m.fields[f]] else []
  }

  /** Everything a field received, in order. */
  function Samples(fields: seq<string>, seen: seq<Metric>, f: string): seq<Sample>
    decreases |seen|
  {
    if seen == [] then []
    else Samples(fields, seen[..|seen| - 1], f) + FromMetric(fields, seen[|seen| - 1], f)
  }

  function Values(s: seq<Sample>): (r: seq<real>)
    ensures |r| == |s| && forall i :: 0 <= i < |s| ==> r[i] == Real(s[i])
  {
    seq(|s|, i requires 0 <= i < |s| => Real(s[i]))
  }

  lemma FromMetricNext(fields: seq<string>, i: nat, m: Metric, f: string)
    requires i < |fields|
    ensures FromMetric(fields[..i + 1], m, f) ==
            FromMetric(fields[..i], m, f)
            + if fields[i] == f && f in m.fields && Numeric(m.fields[f]) then [m.fields[f]] else []
  {
    assert fields[..i + 1][..i] == fields[..i];
  }

  lemma SamplesNext(fields: seq<string>, seen: seq<Metric>, m: Metric, f: string)
    ensures Samples(fields, seen + [m], f) == Samples(fields, seen, f) + FromMetric(fields, m, f)
  {
    assert (seen + [m])[..|seen|] == seen;
  }

  lemma {:induction false} FromListedFields(fields: seq<string>, m: Metric, f: string)
    requires f !in fields
    ensures FromMetric(fields, m, f) == []
    decreases |fields|
  {
    if fields != [] {
      FromListedFields(fields[..|fields| - 1], m, f);
    }
  }

  lemma {:induction false} SamplesOfListed(fields: seq<string>, seen: seq<Metric>, f: string)
    requires f !in fields
    ensures Samples(fields, seen, f) == []
    decreases |seen|
  {
    if seen != [] {
      SamplesOfListed(fields, seen[..|seen| - 1], f);
      FromListedFields(fields, seen[|seen| - 1], f);
    }
  }

  /** A metric adds its value once per listing of the field if it is a float64 or an int64, and otherwise nothing. */
  lemma {:induction false} MetricSamples(fields: seq<string>, m: Metric, f: string)
    ensures var s := FromMetric(fields, m, f);
            && (forall x :: x in s ==> f in m.fields && x == m.fields[f])
            && |s| == if f in m.fields && (m.fields[f].Float64? || m.fields[f].Int64?) then multiset(fields)[f] else 0
    decreases |fields|
  {
    if fields != [] {
      var n := |fields| - 1;
      assert fields == fields[..n] + [fields[n]];
      MetricSamples(fields[..n], m, f);
    }
  }

  /** An integer counts as the real number it is. */
  lemma SampleValues(r: real, i: int)
    ensures Values([Float64(r), Int64(i)]) == [r, i as real]
  {}

  // ---- Name and tags: from the first metric that has one of the fields ----

  datatype Identity = Identity(name: string, tags: map<string, string>)

  predicate HasListed(fields: seq<string>, m: Metric) {
    exists f :: f in fields && f in m.fields
  }

  function Capture(fields: seq<string>, id: Identity, m: Metric): Identity {
    if id.name == "" && HasListed(fields, m) then Identity(m.name, id.tags + m.tags) else id
  }

  function IdentityOf(fields: seq<string>, seen: seq<Metric>): Identity
    decreases |seen|
  {
    if seen == [] then Identity("", map[])
    else Capture(fields, IdentityOf(fields, seen[..|seen| - 1]), seen[|seen| - 1])
  }

  /** A metric that names the aggregate: it has a name and one of the listed fields. */
  predicate Naming(fields: seq<string>, m: Metric) {
    HasListed(fields, m) && m.name != ""
  }

  lemma {:induction false} Unnamed(fields: seq<string>, seen: seq<Metric>)
    requires forall j :: 0 <= j < |seen| ==> !Naming(fields, seen[j])
    ensures IdentityOf(fields, seen).name == ""
    ensures (forall j :: 0 <= j < |seen| ==> !HasListed(fields, seen[j])) ==> IdentityOf(fields, seen).tags == map[]
    decreases |seen|
  {
    hide HasListed;
    if seen != [] {
      Unnamed(fields, seen[..|seen| - 1]);
    }
  }

  /** Name and tags are those of the first metric that has a name and a listed field. */
  lemma {:induction false} IdentityLaw(fields: seq<string>, seen: seq<Metric>, i: nat)
    requires i < |seen| && Naming(fields, seen[i]) && forall j :: 0 <= j < i ==> !Naming(fields, seen[j])
    ensures IdentityOf(fields, seen).name == seen[i].name
    ensures (forall j :: 0 <= j < i ==> !HasListed(fields, seen[j])) ==> IdentityOf(fields, seen).tags == seen[i].tags
    decreases |seen|
  {
    hide HasListed;
    var n := |seen| - 1;
    if i == n {
      Unnamed(fields, seen[..n]);
      assert map[] + seen[i].tags == seen[i].tags;
    } else {
      IdentityLaw(fields, seen[..n], i);
    }
  }

  // ---- Statistics ----

  function Min(s: seq<real>): real
    requires s != []
  {
    if |s| == 1 then s[0] else var m := Min(s[..|s| - 1]); if s[|s| - 1] < m then s[|s| - 1] else m
  }

  function Max(s: seq<real>): real
    requires s != []
  {
    if |s| == 1 then s[0] else var m := Max(s[..|s| - 1]); if s[|s| - 1] > m then s[|s| - 1] else m
  }

  function Sum(s: seq<real>): real {
    if s == [] then 0.0 else Sum(s[..|s| - 1]) + s[|s| - 1]
  }

  function Avg(s: seq<real>): real
    requires s != []
  {
    Sum(s) / |s| as real
  }

  lemma {:induction false} MinMaxBound(s: seq<real>)
    requires s != []
    ensures Min(s) in s && Max(s) in s && forall x :: x in s ==> Min(s) <= x <= Max(s)
    decreases |s|
  {
    var n := |s| - 1;
    assert s == s[..n] + [s[n]];
    if n > 0 {
      MinMaxBound(s[..n]);
    }
  }

  lemma {:induction false} SumBound(s: seq<real>, lo: real, hi: real)
    requires forall i :: 0 <= i < |s| ==> lo <= s[i] <= hi
    ensures lo * |s| as real <= Sum(s) <= hi * |s| as real
    decreases |s|
  {
    if s != [] {
      var n := |s| - 1;
      SumBound(s[..n], lo, hi);
      assert lo * (n as real + 1.0) == lo * n as real + lo && hi * (n as real + 1.0) == hi * n as real + hi;
    }
  }

  lemma {:induction false} SumAppend(a: seq<real>, b: seq<real>)
    ensures Sum(a + b) == Sum(a) + Sum(b)
    ensures forall x :: Sum([x]) == x
    decreases |b|
  {
    assert forall x: real :: [x][..0] == [];
    if b == [] {
      assert a + b == a;
    } else {
      var n := |b| - 1;
      assert (a + b)[..|a| + n] == a + b[..n];
      SumAppend(a, b[..n]);
    }
  }

  lemma AvgBound(s: seq<real>)
    requires s != []
    ensures Min(s) <= Avg(s) <= Max(s)
    ensures Avg(s) * |s| as real == Sum(s)
  {
    hide Min, Max, Sum;
    MinMaxBound(s);
    assert forall i :: 0 <= i < |s| ==> s[i] in s;
    SumBound(s, Min(s), Max(s));
    DivideBack(Sum(s), |s| as real, Min(s), Max(s));
  }

  lemma DivideBack(total: real, n: real, lo: real, hi: real)
    requires n > 0.0 && lo * n <= total <= hi * n
    ensures lo <= total / n <= hi && total / n * n == total
  {
    var q := total / n;
    assert q * n == total;
  }

  /** The extremes of a sorted rearrangement are the minimum and maximum. */
  lemma SortedExtremes(s: seq<real>)
    requires s != []
    ensures var t := Sort(s); t != [] && t[0] == Min(s) && t[|t| - 1] == Max(s)
  {
    SortPermutes(s);
    MinMaxBound(s);
    var t := Sort(s);
    assert |multiset(t)| == |t| && |multiset(s)| == |s|;
    assert Min(s) in multiset(t) && Max(s) in multiset(t);
    assert t[0] in multiset(s) && t[|t| - 1] in multiset(s);
  }

  // ---- Reports ----

  datatype Total = IntTotal(i: int) | FloatTotal(r: real)

  function TotalValue(t: Total): real {
    match t
    case IntTotal(i) => i as real
    case FloatTotal(r) => r
  }

  /** The fields an aggregator reports on: those that received a number. */
  function Reported(fields: seq<string>, seen: seq<Metric>): set<string> {
    set f | f in fields && Samples(fields, seen, f) != []
  }

  function ValuesOf(fields: seq<string>, seen: seq<Metric>, f: string): (r: seq<real>)
    ensures r != [] <==> Samples(fields, seen, f) != []
  {
    Values(Samples(fields, seen, f))
  }

  function MinReport(fields: seq<string>, seen: seq<Metric>): map<string, real> {
    map f | f in Reported(fields, seen) :: Min(ValuesOf(fields, seen, f))
  }

  function MaxReport(fields: seq<string>, seen: seq<Metric>): map<string, real> {
    map f | f in Reported(fields, seen) :: Max(ValuesOf(fields, seen, f))
  }

  function AvgReport(fields: seq<string>, seen: seq<Metric>): map<string, real> {
    map f | f in Reported(fields, seen) :: Avg(ValuesOf(fields, seen, f))
  }

  predicate AllInts(s: seq<Sample>) {
    forall i :: 0 <= i < |s| ==> s[i].Int64?
  }

  function IntSum(s: seq<Sample>): int {
    if s == [] then 0 else IntSum(s[..|s| - 1]) + if s[|s| - 1].Int64? then s[|s| - 1].i else 0
  }

  /** The total stays an integer exactly while only integers have been added. */
  function TotalOf(s: seq<Sample>): Total {
    if AllInts(s) then IntTotal(IntSum(s)) else FloatTotal(Sum(Values(s)))
  }

  function SumReport(fields: seq<string>, seen: seq<Metric>): map<string, Total> {
    map f | f in Reported(fields, seen) :: TotalOf(Samples(fields, seen, f))
  }

  /** What Init accepts as a percentile: a whole number from 0 to 100. */
  type Percent = p: int | 0 <= p <= 100

  /** Keyed by field and percentile, where the source renders "<field>_p<percentile>". */
  function PercentileReport(fields: seq<string>, seen: seq<Metric>, ps: seq<Percent>): map<(string, Percent), real> {
    map f, p | f in Reported(fields, seen) && p in ps ::
      (f, p) := Percentile(Sort(ValuesOf(fields, seen, f)), p as real)
  }

  lemma {:induction false} TotalIsSum(s: seq<Sample>)
    ensures TotalValue(TotalOf(s)) == Sum(Values(s))
    decreases |s|
  {
    if s != [] && AllInts(s) {
      var n := |s| - 1;
      TotalIsSum(s[..n]);
      assert Values(s)[..n] == Values(s[..n]);
    }
  }

  /** The laws between the statistics of one field's samples. */
  lemma StatisticsAgree(s: seq<Sample>, p: real)
    requires s != [] && 0.0 <= p <= 100.0
    ensures var v := Values(s);
            && Min(v) <= Avg(v) <= Max(v)
            && Min(v) <= Percentile(Sort(v), p) <= Max(v)
            && TotalValue(TotalOf(s)) == Avg(v) * |s| as real
  {
    hide Sort, Percentile, Min, Max, Sum, Avg, TotalOf;
    AvgBound(Values(s));
    TotalIsSum(s);
    SortedExtremes(Values(s));
    PercentileBounds(Sort(Values(s)), p);
  }

  /** All reports cover the same fields: those that received a number. */
  lemma SameFieldsReported(fields: seq<string>, seen: seq<Metric>, ps: seq<Percent>, f: string, p: Percent)
    requires p in ps
    ensures f in Reported(fields, seen) <==> Samples(fields, seen, f) != []
    ensures Reported(fields, seen) == MinReport(fields, seen).Keys == MaxReport(fields, seen).Keys
    ensures Reported(fields, seen) == AvgReport(fields, seen).Keys == SumReport(fields, seen).Keys
    ensures f in Reported(fields, seen) <==> (f, p) in PercentileReport(fields, seen, ps)
  {
    hide Sort, Percentile, Min, Max, Sum, Avg, TotalOf, Samples;
    if f !in fields {
      SamplesOfListed(fields, seen, f);
    }
  }

  /**
   After the same additions the four aggregators report on the same fields, and for
   each of them min <= avg <= max, min <= percentile <= max, and sum = avg * count,
   whatever the mix of integers and floats and however often a field is listed.
   */
  lemma AggregatorsAgree(fields: seq<string>, seen: seq<Metric>, ps: seq<Percent>, f: string, p: Percent)
    requires p in ps && Samples(fields, seen, f) != []
    ensures f in MinReport(fields, seen) && f in MaxReport(fields, seen) && f in AvgReport(fields, seen)
    ensures f in SumReport(fields, seen) && (f, p) in PercentileReport(fields, seen, ps)
    ensures var lo, hi, avg := MinReport(fields, seen)[f], MaxReport(fields, seen)[f], AvgReport(fields, seen)[f];
            && lo <= avg <= hi
            && lo <= PercentileReport(fields, seen, ps)[(f, p)] <= hi
            && TotalValue(SumReport(fields, seen)[f]) == avg * |Samples(fields, seen, f)| as real
  {
    hide Sort, Percentile, Min, Max, Sum, Avg, TotalOf, Samples;
    SameFieldsReported(fields, seen, ps, f, p);
    StatisticsAgree(Samples(fields, seen, f), p as real);
    assert PercentileReport(fields, seen, ps)[(f, p)] == Percentile(Sort(ValuesOf(fields, seen, f)), p as real);
  }

  /** Percentiles, like the other reports, do not depend on the order of additions. */
  lemma PercentileIgnoresOrder(a: seq<real>, b: seq<real>, p: real)
    requires multiset(a) == multiset(b) && 0.0 <= p <= 100.0
    ensures Percentile(Sort(a), p) == Percentile(Sort(b), p)
  {
    SortIgnoresOrder(a, b);
  }
}
