/** Go's ordering on strings, and the sort that ResolveConfig runs on group names. */
module Names {

  /** `a <= b` on strings: code point by code point, a prefix first. */
  predicate AtMost(a: string, b: string)
    decreases |a|
  {
    a == "" || (b != "" && (a[0] < b[0] || (a[0] == b[0] && AtMost(a[1..], b[1..]))))
  }

  predicate Sorted(s: seq<string>) {
    forall i, j :: 0 <= i < j < |s| ==> AtMost(s[i], s[j])
  }

  function Members(s: seq<string>): set<string> {
    set n | n in s
  }

  lemma {:induction false} AtMostTotal(a: string, b: string)
    ensures AtMost(a, b) || AtMost(b, a)
    decreases |a|
  {
    if a != "" && b != "" {
      AtMostTotal(a[1..], b[1..]);
    }
  }

  lemma {:induction false} AtMostAntisymmetric(a: string, b: string)
    requires AtMost(a, b) && AtMost(b, a)
    ensures a == b
    decreases |a|
  {
    if a != "" {
      AtMostAntisymmetric(a[1..], b[1..]);
      assert a == [a[0]] + a[1..] && b == [b[0]] + b[1..];
    }
  }

  lemma {:induction false} AtMostTransitive(a: string, b: string, c: string)
    requires AtMost(a, b) && AtMost(b, c)
    ensures AtMost(a, c)
    decreases |a|
  {
    if a != "" && a[0] == b[0] == c[0] {
      AtMostTransitive(a[1..], b[1..], c[1..]);
    }
  }

  /** At `i` the strings first differ, and `a` has the smaller character. */
  predicate SmallerAt(a: string, b: string, i: nat) {
    i < |a| && i < |b| && a[..i] == b[..i] && a[i] < b[i]
  }

  lemma SmallerInTail(a: string, b: string, i: nat)
    requires a != "" && b != "" && a[0] == b[0]
    ensures SmallerAt(a, b, i + 1) <==> SmallerAt(a[1..], b[1..], i)
  {
    if i + 1 < |a| && i + 1 < |b| {
      assert a[..i + 1] == [a[0]] + a[1..][..i] && b[..i + 1] == [b[0]] + b[1..][..i];
      assert a[..i + 1] == b[..i + 1] ==> a[1..][..i] == a[..i + 1][1..] == b[1..][..i];
    }
  }

  lemma SmallerAtOnce(a: string, b: string, i: nat)
    requires a != "" && b != "" && a[0] != b[0]
    ensures SmallerAt(a, b, i) <==> i == 0 && a[0] < b[0]
  {
    if 0 < i < |a| && i < |b| {
      assert a[..i][0] == a[0] && b[..i][0] == b[0];
    }
  }

  /** Go's comparison: a prefix comes first, otherwise the first different character decides. */
  lemma {:induction false} AtMostExactly(a: string, b: string)
    ensures AtMost(a, b) <==> a <= b || exists i :: SmallerAt(a, b, i)
    decreases |a|
  {
    hide SmallerAt;
    if a == "" || b == "" {
      NothingSmaller(a, b);
    } else if a[0] == b[0] {
      var s, t := a[1..], b[1..];
      AtMostExactly(s, t);
      assert a == [a[0]] + s && b == [b[0]] + t;
      assert a <= b <==> s <= t;
      NotAtStart(a, b);
      if i: nat :| SmallerAt(a, b, i) {
        assert i != 0;
        SmallerInTail(a, b, i - 1);
      }
      if i: nat :| SmallerAt(s, t, i) {
        SmallerInTail(a, b, i);
      }
    } else {
      forall i: nat ensures SmallerAt(a, b, i) <==> i == 0 && a[0] < b[0] {
        SmallerAtOnce(a, b, i);
      }
      assert a[0] < b[0] ==> SmallerAt(a, b, 0);
    }
  }

  lemma NothingSmaller(a: string, b: string)
    requires a == "" || b == ""
    ensures forall i :: !SmallerAt(a, b, i)
  {}

  lemma NotAtStart(a: string, b: string)
    requires a != "" && b != "" && a[0] == b[0]
    ensures !SmallerAt(a, b, 0)
  {}

  lemma {:induction false} GreatestExists(names: set<string>)
    requires names != {}
    ensures exists m :: m in names && forall n :: n in names ==> AtMost(n, m)
    decreases |names|
  {
    hide AtMost;
    var x :| x in names;
    AtMostTotal(x, x);
    if names != {x} {
      GreatestExists(names - {x});
      var m :| m in names - {x} && forall n :: n in names - {x} ==> AtMost(n, m);
      AtMostTotal(x, m);
      if AtMost(x, m) {
        assert forall n :: n in names ==> n == x || n in names - {x};
      } else {
        forall n | n in names ensures AtMost(n, x) {
          if n != x {
            assert n in names - {x};
            AtMostTransitive(n, m, x);
          }
        }
      }
    }
  }

  /** The greatest name of a non-empty set. */
  ghost function Greatest(names: set<string>): (m: string)
    requires names != {}
    ensures m in names && forall n :: n in names ==> AtMost(n, m)
  {
    GreatestExists(names);
    var m :| m in names && forall n :: n in names ==> AtMost(n, m);
    m
  }

  /**
   The nested exchange loops of ResolveConfig, in place: the result is an
   ascending rearrangement of the names that were there.
   */
  method ExchangeSort(a: array<string>)
    modifies a
    ensures Sorted(a[..])
    ensures multiset(a[..]) == multiset(old(a[..]))
  {
    hide AtMost;
    for i := 0 to a.Length
      invariant Settled(a[..], i)
      invariant multiset(a[..]) == multiset(old(a[..]))
    {
      for j := i + 1 to a.Length
        invariant Settled(a[..], i)
        invariant forall k :: i < k < j ==> AtMost(a[i], a[k])
        invariant multiset(a[..]) == multiset(old(a[..]))
      {
        if !AtMost(a[i], a[j]) {
          AtMostTotal(a[i], a[j]);
          forall k | i < k < j ensures AtMost(a[j], a[k]) {
            AtMostTransitive(a[j], a[i], a[k]);
          }
          AtMostTotal(a[j], a[j]);
          a[i], a[j] := a[j], a[i];
        }
      }
    }
  }

  /** The ascending copy that ResolveConfig merges from. */
  method SortedCopy(names: seq<string>) returns (sorted: seq<string>)
    ensures Sorted(sorted)
    ensures multiset(sorted) == multiset(names)
    ensures Members(sorted) == Members(names)
  {
    var a := new string[|names|](i requires 0 <= i < |names| => names[i]);
    assert a[..] == names;
    ExchangeSort(a);
    sorted := a[..];
    assert forall n :: n in sorted <==> n in multiset(sorted);
    assert forall n :: n in names <==> n in multiset(names);
  }

  /** The first `n` places hold their final values: in order, and below everything after them. */
  ghost predicate Settled(s: seq<string>, n: nat) {
    forall i, j :: 0 <= i < n && i < j < |s| ==> AtMost(s[i], s[j])
  }
}
