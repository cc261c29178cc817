/**
 The same delivery code at the granularity its locks really give: SendMetrics,
 replayCache and FlushAndStop run on different goroutines and only the cache's Add
 and Drain and a single stream Send are atomic (internal/grpcclient/client.go).
 Each goroutine holds metrics of its own between those actions.
 */
module Interleaving {
  import opened MetricCache
  import opened Delivery

  datatype World<T> = World(ring: State<T>, held: seq<seq<T>>)

  /** One atomic action; `t` is the goroutine that takes it. */
  datatype Action<T> =
    | Enter(metrics: seq<T>)      // SendMetrics is called
    | DrainRing                   // replayCache or FlushAndStop drains the cache
    | SendFirst(t: nat, k: nat)   // a Send of the first k held metrics succeeds
    | CacheFirst(t: nat)          // the first held metric is added to the cache
    | Discard(t: nat)             // replayCache finds no stream
    | Abandon(t: nat)             // FlushAndStop gives up on what it holds

  predicate Enabled<T>(w: World<T>, a: Action<T>) {
    match a
    case Enter(_) => true
    case DrainRing => true
    case SendFirst(t, k) => t < |w.held| && k <= |w.held[t]|
    case CacheFirst(t) => t < |w.held| && w.held[t] != []
    case Discard(t) => t < |w.held|
    case Abandon(t) => t < |w.held|
  }

  function Act<T>(w: World<T>, a: Action<T>): World<T> {
    var r := w.ring;
    if !Enabled(w, a) then w else
    match a
    case Enter(metrics) => World(r.(submitted := r.submitted + metrics), w.held + [metrics])
    case DrainRing => World(r.(cached := []), w.held + [r.cached])
    case SendFirst(t, k) =>
      World(r.(delivered := r.delivered + w.held[t][..k]), w.held[t := w.held[t][k..]])
    case CacheFirst(t) => World(CacheAll(r, [w.held[t][0]]), w.held[t := w.held[t][1..]])
    case Discard(t) => World(r.(discarded := r.discarded + w.held[t]), w.held[t := []])
    case Abandon(t) => World(r.(leftover := r.leftover + w.held[t]), w.held[t := []])
  }

  function Schedule<T>(w: World<T>, actions: seq<Action<T>>): World<T>
    decreases |actions|
  {
    if actions == [] then w else Act(Schedule(w, actions[..|actions| - 1]), actions[|actions| - 1])
  }

  function HeldCount<T(==)>(held: seq<seq<T>>, x: T): nat {
    if held == [] then 0 else Count(held[0], x) + HeldCount(held[1..], x)
  }

  /** Every submitted metric is in the ledger, in the ring, or held by some goroutine. */
  ghost predicate Accounted<T(!new)>(w: World<T>) {
    forall x :: AccountedFor(w, x)
  }

  predicate AccountedFor<T(==)>(w: World<T>, x: T) {
    var r := w.ring;
    Count(r.submitted, x) ==
    Count(r.delivered, x) + Count(r.cached, x) + Count(r.overwritten, x) + Count(r.discarded, x)
    + Count(r.leftover, x) + HeldCount(w.held, x)
  }

  lemma {:induction false} HeldCountAppend<T>(held: seq<seq<T>>, more: seq<T>, x: T)
    ensures HeldCount(held + [more], x) == HeldCount(held, x) + Count(more, x)
    decreases |held|
  {
    if held == [] {
      assert held + [more] == [more];
      assert [more][1..] == [];
    } else {
      assert (held + [more])[1..] == held[1..] + [more];
      HeldCountAppend(held[1..], more, x);
    }
  }

  lemma {:induction false} HeldCountUpdate<T>(held: seq<seq<T>>, t: nat, next: seq<T>, x: T)
    requires t < |held|
    ensures HeldCount(held[t := next], x) + Count(held[t], x) == HeldCount(held, x) + Count(next, x)
    decreases |held|
  {
    if t == 0 {
      assert held[t := next][1..] == held[1..];
    } else {
      assert held[t := next][1..] == held[1..][t - 1 := next];
      HeldCountUpdate(held[1..], t - 1, next, x);
    }
  }

  lemma ActAccounts<T>(w: World<T>, a: Action<T>, x: T)
    requires AccountedFor(w, x)
    ensures AccountedFor(Act(w, a), x)
  {
    hide HeldCount, LastN, Dropped;
    if Enabled(w, a) {
      match a
      case Enter(metrics) => HeldCountAppend(w.held, metrics, x);
      case DrainRing => HeldCountAppend(w.held, w.ring.cached, x);
      case SendFirst(t, k) =>
        HeldCountUpdate(w.held, t, w.held[t][k..], x);
        CountSplit(w.held[t], k, x);
      case CacheFirst(t) =>
        HeldCountUpdate(w.held, t, w.held[t][1..], x);
        CountSplit(w.held[t], 1, x);
        assert w.held[t][..1] == [w.held[t][0]];
        CacheAllBalances(w.ring, [w.held[t][0]], x);
      case Discard(t) => HeldCountUpdate(w.held, t, [], x);
      case Abandon(t) => HeldCountUpdate(w.held, t, [], x);
    }
  }

  /** Conservation under every interleaving of every number of goroutines. */
  lemma {:induction false} ScheduleAccounts<T(!new)>(cap: nat, actions: seq<Action<T>>)
    ensures Accounted(Schedule(World(Fresh(cap), []), actions))
    decreases |actions|
  {
    if actions != [] {
      var n := |actions| - 1;
      var before := Schedule(World(Fresh<T>(cap), []), actions[..n]);
      ScheduleAccounts(cap, actions[..n]);
      forall x ensures AccountedFor(Act(before, actions[n]), x) {
        assert AccountedFor(before, x);
        ActAccounts(before, actions[n], x);
      }
    }
  }

  function CacheTimes<T>(t: nat, n: nat): seq<Action<T>> {
    if n == 0 then [] else CacheTimes(t, n - 1) + [CacheFirst(t)]
  }

  /** A goroutine that is left alone caches everything it holds, as the atomic model says. */
  lemma {:induction false} UninterruptedCaching<T>(w: World<T>, t: nat, n: nat)
    requires t < |w.held| && n <= |w.held[t]| && |w.ring.cached| <= w.ring.cap
    ensures Schedule(w, CacheTimes(t, n)) ==
            World(CacheAll(w.ring, w.held[t][..n]), w.held[t := w.held[t][n..]])
    decreases n
  {
    hide CacheAll, Act;
    var mine := w.held[t];
    if n == 0 {
      CacheNothing(w.ring);
      assert mine[..0] == [] && w.held[t := mine[0..]] == w.held;
    } else {
      var actions: seq<Action<T>> := CacheTimes(t, n);
      assert actions[..|actions| - 1] == CacheTimes(t, n - 1);
      UninterruptedCaching(w, t, n - 1);
      CacheOne(w, t, n - 1);
    }
  }

  lemma CacheOne<T>(w: World<T>, t: nat, k: nat)
    requires t < |w.held| && k < |w.held[t]|
    ensures Act(World(CacheAll(w.ring, w.held[t][..k]), w.held[t := w.held[t][k..]]), CacheFirst(t)) ==
            World(CacheAll(w.ring, w.held[t][..k + 1]), w.held[t := w.held[t][k + 1..]])
  {
    hide CacheAll;
    var mine := w.held[t];
    CacheAllOneMore(w.ring, mine[..k], mine[k]);
    assert mine[..k + 1] == mine[..k] + [mine[k]] && mine[k..][1..] == mine[k + 1..];
    assert w.held[t := mine[k..]][t := mine[k + 1..]] == w.held[t := mine[k + 1..]];
  }

  lemma CacheNothing<T>(r: State<T>)
    requires |r.cached| <= r.cap
    ensures CacheAll(r, []) == r
  {}

  // ---- When caching overwrites ----

  /** How many metrics a ring without a limit would hold: all cached since it was last drained. */
  function Demand<T>(w: World<T>, actions: seq<Action<T>>): nat
    decreases |actions|
  {
    if actions == [] then |w.ring.cached|
    else
      var n := |actions| - 1;
      match actions[n]
      case DrainRing => 0
      case CacheFirst(t) => Demand(w, actions[..n]) + if Enabled(Schedule(w, actions[..n]), actions[n]) then 1 else 0
      case _ => Demand(w, actions[..n])
  }

  /** Only caching into a full ring overwrites; it adds one metric to the overwritten ones. */
  lemma ActOverwrites<T>(w: World<T>, a: Action<T>)
    requires |w.ring.cached| <= w.ring.cap
    ensures var r := Act(w, a).ring;
            && r.cap == w.ring.cap && |r.cached| <= r.cap
            && |r.overwritten| ==
               |w.ring.overwritten| + (if a.CacheFirst? && Enabled(w, a) && |w.ring.cached| == w.ring.cap then 1 else 0)
            && (|r.overwritten| == |w.ring.overwritten| ==> r.overwritten == w.ring.overwritten)
            && |r.cached| ==
               if a.DrainRing? then 0
               else if a.CacheFirst? && Enabled(w, a) && |w.ring.cached| < w.ring.cap then |w.ring.cached| + 1
               else |w.ring.cached|
  {}

  predicate Fits<T>(w: World<T>, actions: seq<Action<T>>) {
    forall k :: 0 <= k <= |actions| ==> Demand(w, actions[..k]) <= w.ring.cap
  }

  lemma FitsNext<T>(w: World<T>, actions: seq<Action<T>>)
    requires actions != []
    ensures Fits(w, actions) <==> Fits(w, actions[..|actions| - 1]) && Demand(w, actions) <= w.ring.cap
    ensures Fits(w, actions[..|actions| - 1]) ==> Demand(w, actions[..|actions| - 1]) <= w.ring.cap
  {
    hide Demand;
    var n := |actions| - 1;
    assert actions[..n + 1] == actions && actions[..n][..n] == actions[..n];
    assert forall k :: 0 <= k <= n ==> actions[..n][..k] == actions[..k];
  }

  /**
   Under any schedule whatever, nothing is overwritten exactly when at no moment more
   metrics were cached since the last drain than the ring holds.
   */
  lemma {:induction false} LossFreeExactly<T>(w: World<T>, actions: seq<Action<T>>)
    requires |w.ring.cached| <= w.ring.cap
    ensures var r := Schedule(w, actions).ring;
            && r.cap == w.ring.cap && |r.overwritten| >= |w.ring.overwritten|
            && |r.cached| == (if Demand(w, actions) <= w.ring.cap then Demand(w, actions) else w.ring.cap)
            && (|r.overwritten| == |w.ring.overwritten| ==> r.overwritten == w.ring.overwritten)
            && (r.overwritten == w.ring.overwritten <==> Fits(w, actions))
    decreases |actions|
  {
    hide Act, Fits, Enabled;
    if actions == [] {
      FitsAtOnce(w);
    } else {
      var n := |actions| - 1;
      LossFreeExactly(w, actions[..n]);
      ActOverwrites(Schedule(w, actions[..n]), actions[n]);
      FitsNext(w, actions);
    }
  }

  lemma FitsAtOnce<T>(w: World<T>)
    requires |w.ring.cached| <= w.ring.cap
    ensures Fits(w, [])
  {}

  /** How many cachings a schedule really makes. */
  function Cachings<T>(w: World<T>, actions: seq<Action<T>>): nat
    decreases |actions|
  {
    if actions == [] then 0
    else
      var n := |actions| - 1;
      Cachings(w, actions[..n]) + if actions[n].CacheFirst? && Enabled(Schedule(w, actions[..n]), actions[n]) then 1 else 0
  }

  lemma {:induction false} DemandGrows<T>(w: World<T>, actions: seq<Action<T>>, k: nat)
    requires k <= |actions| && forall a :: a in actions ==> !a.DrainRing?
    ensures Demand(w, actions) == |w.ring.cached| + Cachings(w, actions)
    ensures Demand(w, actions[..k]) <= Demand(w, actions)
    decreases |actions|
  {
    hide Enabled, Schedule;
    if actions != [] {
      var n := |actions| - 1;
      if k <= n {
        assert actions[..n][..k] == actions[..k];
      } else {
        assert actions[..k] == actions;
      }
      DemandGrows(w, actions[..n], if k <= n then k else 0);
    }
  }

  /** Between drains: nothing is overwritten exactly when what is cached and the cachings to come fit the ring. */
  lemma LossFreeBetweenDrains<T>(w: World<T>, actions: seq<Action<T>>)
    requires |w.ring.cached| <= w.ring.cap && forall a :: a in actions ==> !a.DrainRing?
    ensures Schedule(w, actions).ring.overwritten == w.ring.overwritten <==>
            |w.ring.cached| + Cachings(w, actions) <= w.ring.cap
  {
    hide Demand, Cachings, Schedule;
    LossFreeExactly(w, actions);
    DemandGrows(w, actions, 0);
    assert actions[..|actions|] == actions;
    forall k | 0 <= k <= |actions| ensures Demand(w, actions[..k]) <= Demand(w, actions) {
      DemandGrows(w, actions, k);
    }
  }

  /**
   A replay: after it drained the ring, its own re-caching and everybody else's caching
   overwrite nothing, until the next drain, exactly when together they fit the ring.
   */
  lemma ReplayLossFree<T>(w: World<T>, actions: seq<Action<T>>)
    requires forall a :: a in actions ==> !a.DrainRing?
    ensures var drained := Act(w, DrainRing);
            Schedule(drained, actions).ring.overwritten == w.ring.overwritten <==>
            Cachings(drained, actions) <= w.ring.cap
  {
    LossFreeBetweenDrains(Act(w, DrainRing), actions);
  }

  /** For instance, with one slot, a metric cached during a replay is overwritten by the older one put back. */
  lemma ReplayRaceOverwrites<T>(old1: T, new1: T)
    ensures var w := Schedule(World(Fresh(1), []),
                              [Enter([old1]), CacheFirst(0), DrainRing, Enter([new1]), CacheFirst(2), CacheFirst(1)]);
            w.ring.cached == [old1] && w.ring.overwritten == [new1]
  {
    var w0 := World(Fresh<T>(1), []);
    assert [old1][1..] == [] && [new1][1..] == [];
    var w1 := Act(Act(w0, Enter([old1])), CacheFirst(0));
    assert w1.ring.cached == [old1] && w1.held == [[]];
    var w2 := Act(Act(w1, DrainRing), Enter([new1]));
    assert w2.held == [[], [old1], [new1]];
    var w3 := Act(w2, CacheFirst(2));
    assert w3.ring.cached == [new1] && w3.held == [[], [old1], []];
    var actions: seq<Action<T>> := [Enter([old1]), CacheFirst(0), DrainRing, Enter([new1]), CacheFirst(2), CacheFirst(1)];
    ScheduleSix(w0, actions);
  }

  lemma ScheduleSix<T>(w: World<T>, a: seq<Action<T>>)
    requires |a| == 6
    ensures Schedule(w, a) == Act(Act(Act(Act(Act(Act(w, a[0]), a[1]), a[2]), a[3]), a[4]), a[5])
  {
    assert a[..5][..4] == a[..4] && a[..4][..3] == a[..3] && a[..3][..2] == a[..2] && a[..2][..1] == a[..1];
    assert a[..1][..0] == [];
    assert Schedule(w, a[..1]) == Act(w, a[0]);
    assert Schedule(w, a[..2]) == Act(Schedule(w, a[..1]), a[1]);
    assert Schedule(w, a[..3]) == Act(Schedule(w, a[..2]), a[2]);
    assert Schedule(w, a[..4]) == Act(Schedule(w, a[..3]), a[3]);
    assert Schedule(w, a[..5]) == Act(Schedule(w, a[..4]), a[4]);
  }
}
