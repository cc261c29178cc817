/**
 The interpolated percentile (internal/collector/aggregators/percentile/percentile.go)
 and the order statistics it rests on.
 */
module Percentiles {

  predicate Ascending(s: seq<real>) {
    forall i, j :: 0 <= i < j < |s| ==> s[i] <= s[j]
  }

  // ---- Sorting ----

  /** How many leading values are below `x`. */
  function Place(x: real, s: seq<real>): (k: nat)
    ensures k <= |s| && (forall i :: 0 <= i < k ==> s[i] < x) && (k < |s| ==> x <= s[k])
  {
    if s == [] || x <= s[0] then 0 else 1 + Place(x, s[1..])
  }

  function Insert(x: real, s: seq<real>): (r: seq<real>)
    requires Ascending(s)
    ensures Ascending(r)
  {
    var k := Place(x, s);
    s[..k] + [x] + s[k..]
  }

  lemma InsertAdds(x: real, s: seq<real>)
    requires Ascending(s)
    ensures multiset(Insert(x, s)) == multiset(s + [x])
  {
    hide Ascending;
    var k := Place(x, s);
    assert s == s[..k] + s[k..];
  }

  function Sort(s: seq<real>): (r: seq<real>)
    ensures Ascending(r)
  {
    if s == [] then [] else Insert(s[|s| - 1], Sort(s[..|s| - 1]))
  }

  lemma {:induction false} SortPermutes(s: seq<real>)
    ensures multiset(Sort(s)) == multiset(s)
    decreases |s|
  {
    if s != [] {
      var n := |s| - 1;
      SortPermutes(s[..n]);
      InsertAdds(s[n], Sort(s[..n]));
      assert s == s[..n] + [s[n]];
    }
  }

  lemma {:induction false} AscendingUnique(a: seq<real>, b: seq<real>)
    requires Ascending(a) && Ascending(b) && multiset(a) == multiset(b)
    ensures a == b
    decreases |a|
  {
    assert |a| == |multiset(a)| == |multiset(b)| == |b|;
    if a != [] {
      assert a[0] in multiset(b) && b[0] in multiset(a);
      assert a[0] == b[0];
      assert a == [a[0]] + a[1..] && b == [b[0]] + b[1..];
      assert multiset(a[1..]) == multiset(a) - multiset{a[0]};
      assert multiset(b[1..]) == multiset(b) - multiset{b[0]};
      AscendingUnique(a[1..], b[1..]);
    }
  }

  /** The order in which values were added does not matter. */
  lemma SortIgnoresOrder(a: seq<real>, b: seq<real>)
    requires multiset(a) == multiset(b)
    ensures Sort(a) == Sort(b)
  {
    SortPermutes(a);
    SortPermutes(b);
    AscendingUnique(Sort(a), Sort(b));
  }

  // ---- Interpolation ----

  function Floor(x: real): int { x.Floor }

  function Ceil(x: real): int { if x.Floor as real == x then x.Floor else x.Floor + 1 }

  function Blend(a: real, b: real, t: real): real {
    a + (b - a) * t
  }

  lemma BlendLine(a: real, b: real, t: real)
    ensures Blend(a, b, t) == a * (1.0 - t) + b * t
    ensures Blend(a, b, 0.0) == a && Blend(a, b, 1.0) == b
  {
    assert (b - a) * t == b * t - a * t;
    assert a * (1.0 - t) == a - a * t;
  }

  lemma BlendMonotone(a: real, b: real, t: real, u: real)
    requires a <= b && t <= u
    ensures Blend(a, b, t) <= Blend(a, b, u)
    ensures Blend(a, b, 0.0) == a && Blend(a, b, 1.0) == b
  {
    var gap := b - a;
    assert gap * t <= gap * u;
  }

  /** The value at a fractional index of a sorted slice. */
  function At(sorted: seq<real>, index: real): real
    requires 0.0 <= index <= (|sorted| - 1) as real
  {
    var lower, upper := Floor(index), Ceil(index);
    if lower == upper then sorted[lower]
    else Blend(sorted[lower], sorted[upper], index - lower as real)
  }

  function Index(p: real, n: nat): real {
    p / 100.0 * (n - 1) as real
  }

  lemma IndexInRange(p: real, q: real, n: nat)
    requires 0.0 <= p <= q <= 100.0 && n > 0
    ensures 0.0 <= Index(p, n) <= Index(q, n) <= (n - 1) as real
  {
    var a, b, k := p / 100.0, q / 100.0, (n - 1) as real;
    assert 0.0 <= a <= b <= 1.0;
    assert Index(p, n) == a * k && Index(q, n) == b * k;
    hide Index;
    Scale(0.0, a, k);
    Scale(a, b, k);
    Scale(b, 1.0, k);
  }

  lemma Scale(a: real, b: real, k: real)
    requires a <= b && 0.0 <= k
    ensures a * k <= b * k && 0.0 * k == 0.0 && 1.0 * k == k
  {}

  function Percentile(sorted: seq<real>, p: real): real
    requires 0.0 <= p <= 100.0
  {
    if |sorted| == 0 then 0.0
    else if |sorted| == 1 then sorted[0]
    else
      IndexInRange(p, p, |sorted|);
      At(sorted, Index(p, |sorted|))
  }

  /** At a whole index the value is the order statistic itself; in between it is on the line. */
  lemma AtIsLinear(sorted: seq<real>, k: nat, t: real)
    requires k + 1 < |sorted| && 0.0 <= t <= 1.0
    ensures At(sorted, k as real) == sorted[k]
    ensures At(sorted, k as real + t) == sorted[k] * (1.0 - t) + sorted[k + 1] * t
  {
    hide Blend;
    var x := k as real + t;
    if t == 1.0 {
      assert Floor(x) == k + 1;
    } else {
      assert Floor(x) == k;
    }
    BlendLine(sorted[k], sorted[k + 1], t);
  }

  lemma AtBetweenNeighbours(sorted: seq<real>, x: real)
    requires Ascending(sorted) && 0.0 <= x <= (|sorted| - 1) as real
    ensures sorted[Floor(x)] <= At(sorted, x) <= sorted[Ceil(x)]
  {
    hide Blend;
    var lo, hi := Floor(x), Ceil(x);
    if lo != hi {
      BlendMonotone(sorted[lo], sorted[hi], 0.0, x - lo as real);
      BlendMonotone(sorted[lo], sorted[hi], x - lo as real, 1.0);
    }
  }

  lemma AtMonotone(sorted: seq<real>, x: real, y: real)
    requires Ascending(sorted) && 0.0 <= x <= y <= (|sorted| - 1) as real
    ensures At(sorted, x) <= At(sorted, y)
  {
    hide Blend;
    var lo := Floor(x);
    AtBetweenNeighbours(sorted, x);
    AtBetweenNeighbours(sorted, y);
    if lo == Floor(y) {
      if lo != Ceil(x) {
        assert Ceil(x) == Ceil(y) == lo + 1;
        BlendMonotone(sorted[lo], sorted[lo + 1], x - lo as real, y - lo as real);
      }
    } else {
      assert Ceil(x) <= Floor(y);
    }
  }

  /** Percentiles rise with p, across interpolation segments. */
  lemma PercentileMonotone(sorted: seq<real>, p: real, q: real)
    requires Ascending(sorted) && 0.0 <= p <= q <= 100.0
    ensures Percentile(sorted, p) <= Percentile(sorted, q)
  {
    if |sorted| > 1 {
      IndexInRange(p, q, |sorted|);
      AtMonotone(sorted, Index(p, |sorted|), Index(q, |sorted|));
    }
  }

  lemma IndexAt(k: nat, n: nat)
    requires n > 1 && k < n
    ensures 0.0 <= 100.0 * k as real / (n - 1) as real <= 100.0
    ensures Index(100.0 * k as real / (n - 1) as real, n) == k as real
  {
    var m := (n - 1) as real;
    var q := k as real / m;
    assert q * m == k as real;
    assert 0.0 <= q <= 1.0;
    assert 100.0 * k as real / m == 100.0 * q;
  }

  /** The k-th of n values is the percentile 100 k / (n - 1). */
  lemma OrderStatistic(sorted: seq<real>, k: nat)
    requires |sorted| > 1 && k < |sorted|
    ensures var p := 100.0 * k as real / (|sorted| - 1) as real;
            0.0 <= p <= 100.0 && Percentile(sorted, p) == sorted[k]
  {
    hide Index;
    IndexAt(k, |sorted|);
  }

  /** The 50th percentile is the middle value, or half way between the two middle values. */
  lemma Median(sorted: seq<real>, k: nat)
    ensures |sorted| == 2 * k + 1 ==> Percentile(sorted, 50.0) == sorted[k]
    ensures |sorted| == 2 * k + 2 ==> Percentile(sorted, 50.0) == (sorted[k] + sorted[k + 1]) / 2.0
  {
    if |sorted| == 2 * k + 1 && k > 0 {
      assert Index(50.0, |sorted|) == k as real;
    } else if |sorted| == 2 * k + 2 {
      assert Index(50.0, |sorted|) == k as real + 0.5;
      AtIsLinear(sorted, k, 0.5);
    }
  }

  /** p = 0 is the minimum and p = 100 the maximum; every percentile lies between them. */
  lemma PercentileBounds(sorted: seq<real>, p: real)
    requires Ascending(sorted) && sorted != [] && 0.0 <= p <= 100.0
    ensures Percentile(sorted, 0.0) == sorted[0]
    ensures Percentile(sorted, 100.0) == sorted[|sorted| - 1]
    ensures sorted[0] <= Percentile(sorted, p) <= sorted[|sorted| - 1]
  {
    if |sorted| > 1 {
      assert Index(0.0, |sorted|) == 0.0;
      assert Index(100.0, |sorted|) == (|sorted| - 1) as real;
      PercentileMonotone(sorted, 0.0, p);
      PercentileMonotone(sorted, p, 100.0);
    }
  }
}
