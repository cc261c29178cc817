/**
 Delivery of metrics to the platform (internal/grpcclient/client.go): send, cache,
 replay in batches on reconnect, flush on shutdown, with any Send free to fail.
 */
module Delivery {
  import opened MetricCache

  const BATCH := 100

  /**
   What the client holds, and the ledger of where every submitted metric went:
   delivered, overwritten in the full ring, discarded by a replay without a stream,
   or left over at a flush (to be persisted or dropped).
   */
  datatype State<T> = State(
    cap: nat, cached: seq<T>, connected: bool, stream: bool,
    submitted: seq<T>, delivered: seq<T>, overwritten: seq<T>, discarded: seq<T>, leftover: seq<T>)

  /**
   `go(k)` says whether the k-th batch of a replay gets through; in a flush `done(k)`
   says whether the context has ended before batch k and `ok(k)` whether its Send succeeds.
   */
  datatype Event<T> =
    | Submit(metrics: seq<T>, sent: bool)
    | Connect(go: nat -> bool)
    | MarkDisconnected
    | CloseConn
    | Flush(done: nat -> bool, ok: nat -> bool)

  // ---- Specification ----

  function Dropped<T>(s: seq<T>, n: nat): seq<T> {
    if |s| <= n then [] else s[..|s| - n]
  }

  function CacheAll<T>(s: State<T>, metrics: seq<T>): State<T> {
    var all := s.cached + metrics;
    s.(cached := LastN(all, s.cap), overwritten := s.overwritten + Dropped(all, s.cap))
  }

  /** How many of `n` metrics are sent before batch `k` or a later one fails to go. */
  function Sent(n: nat, k: nat, go: nat -> bool): nat
    decreases n - BATCH * k
  {
    if BATCH * k >= n then n else if go(k) then Sent(n, k + 1, go) else BATCH * k
  }

  function Going(done: nat -> bool, ok: nat -> bool): nat -> bool {
    (k: nat) => !done(k) && ok(k)
  }

  function Submitted<T>(s: State<T>, metrics: seq<T>, sent: bool): State<T> {
    var s' := s.(submitted := s.submitted + metrics);
    if s.connected && s.stream && sent then s'.(delivered := s.delivered + metrics)
    else CacheAll(s', metrics)
  }

  /** The drained metrics split where sending stopped: sent before, cached again after. */
  function Replayed<T>(s: State<T>, go: nat -> bool): State<T> {
    var k := Cut(s, go);
    if !s.stream then s.(cached := [], discarded := s.discarded + s.cached)
    else s.(cached := s.cached[k..], delivered := s.delivered + s.cached[..k])
  }

  function Cut<T>(s: State<T>, go: nat -> bool): (k: nat)
    ensures k <= |s.cached|
  {
    SentBound(|s.cached|, 0, go);
    Sent(|s.cached|, 0, go)
  }

  function Flushed<T>(s: State<T>, go: nat -> bool): State<T> {
    var k := if s.stream then Cut(s, go) else 0;
    s.(cached := [], connected := false, stream := false,
       delivered := s.delivered + s.cached[..k], leftover := s.leftover + s.cached[k..])
  }

  function Step<T>(s: State<T>, e: Event<T>): State<T> {
    match e
    case Submit(metrics, sent) => Submitted(s, metrics, sent)
    case Connect(go) => Replayed(s.(connected := true, stream := true), go)
    case MarkDisconnected => s.(connected := false)
    case CloseConn => s.(connected := false, stream := false)
    case Flush(done, ok) => Flushed(s, Going(done, ok))
  }

  function Run<T>(s: State<T>, events: seq<Event<T>>): State<T>
    decreases |events|
  {
    if events == [] then s else Step(Run(s, events[..|events| - 1]), events[|events| - 1])
  }

  function Fresh<T>(cap: nat): State<T> {
    State(cap, [], false, false, [], [], [], [], [])
  }

  // ---- Conservation ----

  /** Every submitted metric is in exactly one place, with its multiplicity. */
  ghost predicate Conserved<T(!new)>(s: State<T>) {
    |s.cached| <= s.cap && forall x :: Balanced(s, x)
  }

  predicate Balanced<T(==)>(s: State<T>, x: T) {
    Count(s.submitted, x) ==
    Count(s.delivered, x) + Count(s.cached, x) + Count(s.overwritten, x) + Count(s.discarded, x) + Count(s.leftover, x)
  }

  function Count<T(==)>(s: seq<T>, x: T): nat {
    multiset(s)[x]
  }

  lemma CountSplit<T>(s: seq<T>, k: nat, x: T)
    requires k <= |s|
    ensures Count(s, x) == Count(s[..k], x) + Count(s[k..], x)
  {
    assert s == s[..k] + s[k..];
  }

  lemma {:induction false} SentBound(n: nat, k: nat, go: nat -> bool)
    ensures Sent(n, k, go) <= n
    decreases n - BATCH * k
  {
    if BATCH * k < n && go(k) {
      SentBound(n, k + 1, go);
    }
  }

  /** Sending stops at the first batch of 100 that does not go, and not before. */
  lemma {:induction false} SentLaw(n: nat, k: nat, go: nat -> bool)
    ensures var sent := Sent(n, k, go);
            || (sent == n && forall j :: k <= j && 100 * j < n ==> go(j))
            || (exists f :: k <= f && sent == 100 * f < n && !go(f) && forall j :: k <= j < f ==> go(j))
    decreases n - 100 * k
  {
    if 100 * k < n && go(k) {
      SentLaw(n, k + 1, go);
    } else if 100 * k < n {
      assert Sent(n, k, go) == 100 * k;
    }
  }

  /** Everything went, or everything before the first batch of 100 that did not. */
  ghost predicate StopsAtFailure(n: nat, sent: nat, go: nat -> bool) {
    || (sent == n && forall j :: 0 <= j && 100 * j < n ==> go(j))
    || (exists f :: 0 <= f && sent == 100 * f < n && !go(f) && forall j :: 0 <= j < f ==> go(j))
  }

  /** What a submission does, in terms of the connection alone. */
  lemma SubmitLaw<T>(s: State<T>, metrics: seq<T>, sent: bool)
    ensures var t, goes := Step(s, Submit(metrics, sent)), s.connected && s.stream && sent;
            && t.submitted == s.submitted + metrics
            && t.delivered == (if goes then s.delivered + metrics else s.delivered)
            && (goes ==> t.cached == s.cached && t.overwritten == s.overwritten)
            && (!goes ==> s.overwritten <= t.overwritten &&
                          t.overwritten[|s.overwritten|..] + t.cached == s.cached + metrics &&
                          |t.cached| == if |s.cached + metrics| <= s.cap then |s.cached + metrics| else s.cap)
            && t.connected == s.connected && t.stream == s.stream && t.discarded == s.discarded && t.leftover == s.leftover
  {
    var all := s.cached + metrics;
    if !(s.connected && s.stream && sent) {
      var t := Step(s, Submit(metrics, sent));
      assert t.overwritten[|s.overwritten|..] == Dropped(all, s.cap);
      assert Dropped(all, s.cap) + LastN(all, s.cap) == all;
    }
  }

  /** A reconnect delivers the cached metrics up to the first batch of 100 whose Send fails, and keeps the rest cached. */
  lemma ConnectLaw<T>(s: State<T>, go: nat -> bool) returns (sent: nat)
    ensures sent <= |s.cached|
    ensures var t := Step(s, Connect(go));
            && t.delivered == s.delivered + s.cached[..sent] && t.cached == s.cached[sent..]
            && t.connected && t.stream && t.overwritten == s.overwritten && t.submitted == s.submitted
    ensures || (sent == |s.cached| && forall j :: 0 <= j && 100 * j < |s.cached| ==> go(j))
            || (exists f :: 0 <= f && sent == 100 * f < |s.cached| && !go(f) && forall j :: 0 <= j < f ==> go(j))
  {
    sent := Cut(s, go);
    SentLaw(|s.cached|, 0, go);
  }

  /**
   A flush with a stream delivers up to the first batch before which the context ended or
   whose Send fails; the rest, and without a stream everything, is left over.
   */
  lemma FlushLaw<T>(s: State<T>, done: nat -> bool, ok: nat -> bool) returns (sent: nat)
    ensures sent <= |s.cached|
    ensures var t := Step(s, Flush(done, ok));
            && t.delivered == s.delivered + s.cached[..sent] && t.leftover == s.leftover + s.cached[sent..]
            && t.cached == [] && !t.connected && !t.stream && t.overwritten == s.overwritten && t.submitted == s.submitted
    ensures !s.stream ==> sent == 0
    ensures s.stream ==>
              || (sent == |s.cached| && forall j :: 0 <= j && 100 * j < |s.cached| ==> !done(j) && ok(j))
              || (exists f :: 0 <= f && sent == 100 * f < |s.cached| && !(!done(f) && ok(f)) &&
                              forall j :: 0 <= j < f ==> !done(j) && ok(j))
  {
    var go := Going(done, ok);
    sent := if s.stream then Cut(s, go) else 0;
    SentLaw(|s.cached|, 0, go);
    assert forall j: nat :: go(j) <==> !done(j) && ok(j);
  }

  lemma CacheAllBalances<T>(s: State<T>, metrics: seq<T>, x: T)
    ensures var t := CacheAll(s, metrics);
            Count(t.cached, x) + Count(t.overwritten, x) ==
            Count(s.cached, x) + Count(s.overwritten, x) + Count(metrics, x)
  {
    var all := s.cached + metrics;
    CountSplit(all, if |all| <= s.cap then 0 else |all| - s.cap, x);
    assert |all| <= s.cap ==> all[0..] == all;
  }

  lemma StepBalances<T>(s: State<T>, e: Event<T>, x: T)
    requires Balanced(s, x)
    ensures Balanced(Step(s, e), x)
  {
    hide LastN, Dropped, Sent;
    match e
    case Submit(metrics, sent) =>
      CacheAllBalances(s.(submitted := s.submitted + metrics), metrics, x);
    case Connect(go) =>
      CountSplit(s.cached, Cut(s.(connected := true, stream := true), go), x);
    case Flush(done, ok) =>
      CountSplit(s.cached, if s.stream then Cut(s, Going(done, ok)) else 0, x);
    case _ =>
  }

  lemma StepConserves<T(!new)>(s: State<T>, e: Event<T>)
    requires Conserved(s)
    ensures Conserved(Step(s, e))
  {
    forall x ensures Balanced(Step(s, e), x) {
      StepBalances(s, e, x);
    }
    if e.Submit? {
      CacheAllFits(s.(submitted := s.submitted + e.metrics), e.metrics);
    }
  }

  lemma CacheAllFits<T>(s: State<T>, metrics: seq<T>)
    ensures |CacheAll(s, metrics).cached| <= s.cap
  {}

  /** Conservation in every state of every run; a connected replay discards nothing. */
  lemma {:induction false} RunConserves<T(!new)>(cap: nat, events: seq<Event<T>>)
    ensures var s := Run(Fresh(cap), events);
            && Conserved(s) && s.cap == cap && s.discarded == []
            && multiset(s.submitted) ==
               multiset(s.delivered) + multiset(s.cached) + multiset(s.overwritten) + multiset(s.leftover)
    decreases |events|
  {
    if events != [] {
      var n := |events| - 1;
      RunConserves(cap, events[..n]);
      StepConserves(Run(Fresh(cap), events[..n]), events[n]);
    }
    var s := Run(Fresh<T>(cap), events);
    forall x ensures multiset(s.submitted)[x] ==
                     (multiset(s.delivered) + multiset(s.cached) + multiset(s.overwritten) + multiset(s.leftover))[x] {
      assert Balanced(s, x);
    }
  }

  predicate AllDistinct<T(==)>(s: seq<T>) {
    forall i, j :: 0 <= i < j < |s| ==> s[i] != s[j]
  }

  lemma {:induction false} DistinctMultiplicity<T(!new)>(s: seq<T>)
    ensures AllDistinct(s) <==> forall x :: multiset(s)[x] <= 1
    decreases |s|
  {
    if s != [] {
      var n := |s| - 1;
      var init := s[..n];
      assert s == init + [s[n]];
      DistinctMultiplicity(init);
      if AllDistinct(s) {
        assert s[n] !in init;
      } else if AllDistinct(init) {
        var i, j :| 0 <= i < j < |s| && s[i] == s[j];
        assert j == n && init[i] == s[n];
        assert multiset(init)[s[n]] >= 1;
        assert multiset(s)[s[n]] == multiset(init)[s[n]] + 1;
      } else {
        var x :| multiset(init)[x] > 1;
        assert multiset(s)[x] > 1;
      }
    }
  }

  /** If the submitted metrics are distinct, none of them is ever delivered twice. */
  lemma NoDoubleDelivery<T(!new)>(cap: nat, events: seq<Event<T>>)
    requires AllDistinct(Run(Fresh<T>(cap), events).submitted)
    ensures AllDistinct(Run(Fresh<T>(cap), events).delivered)
  {
    var s := Run(Fresh<T>(cap), events);
    RunConserves(cap, events);
    DistinctMultiplicity(s.submitted);
    forall x ensures multiset(s.delivered)[x] <= 1 {
      assert Balanced(s, x) && multiset(s.submitted)[x] <= 1;
    }
    DistinctMultiplicity(s.delivered);
  }

  /** While no more metrics were submitted than the ring holds, none is overwritten. */
  lemma {:induction false} NothingOverwrittenWithinCapacity<T(!new)>(cap: nat, events: seq<Event<T>>)
    requires |Run(Fresh<T>(cap), events).submitted| <= cap
    ensures Run(Fresh<T>(cap), events).overwritten == []
    decreases |events|
  {
    if events != [] {
      var n := |events| - 1;
      var before := Run(Fresh<T>(cap), events[..n]);
      NothingOverwrittenWithinCapacity(cap, events[..n]);
      RunConserves(cap, events[..n]);
      assert |multiset(before.submitted)| == |before.submitted| && |multiset(before.cached)| == |before.cached|;
      assert |before.cached| <= |before.submitted|;
    }
  }

  // ---- The client ----

  class Client<T> {
    const cache: MetricCache<T>
    var connected: bool
    var stream: bool
    ghost var submitted: seq<T>
    ghost var delivered: seq<T>
    ghost var overwritten: seq<T>
    ghost var discarded: seq<T>
    ghost var leftover: seq<T>

    ghost predicate Valid()
      reads this, cache, cache.buf
    {
      cache.Valid()
    }

    ghost function View(): State<T>
      requires Valid()
      reads this, cache, cache.buf
    {
      State(cache.maxSize, cache.Contents(), connected, stream, submitted, delivered, overwritten, discarded, leftover)
    }

    constructor (cacheMaxSize: int)
      ensures Valid() && fresh(cache) && fresh(cache.buf)
      ensures View() == Fresh(if cacheMaxSize <= 0 then 10000 else cacheMaxSize)
    {
      cache := new MetricCache<T>(if cacheMaxSize <= 0 then 10000 else cacheMaxSize);
      connected, stream := false, false;
      submitted, delivered, overwritten, discarded, leftover := [], [], [], [], [];
    }

    /** Adds metrics one by one, each overwriting the oldest when the ring is full. */
    method CacheEach(metrics: seq<T>)
      requires Valid()
      modifies this`overwritten, cache, cache.buf
      ensures Valid() && View() == CacheAll(old(View()), metrics)
    {
      ghost var start := View();
      for i := 0 to |metrics|
        invariant Valid() && View() == CacheAll(start, metrics[..i])
      {
        CacheAllOneMore(start, metrics[..i], metrics[i]);
        overwritten := overwritten + Dropped(cache.Contents() + [metrics[i]], cache.maxSize);
        cache.Add(metrics[i]);
        assert metrics[..i + 1] == metrics[..i] + [metrics[i]];
      }
      assert metrics[..|metrics|] == metrics;
    }

    method SendMetrics(metrics: seq<T>, sent: bool)
      requires Valid()
      modifies this, cache, cache.buf
      ensures Valid() && View() == Step(old(View()), Submit(metrics, sent))
    {
      if |metrics| == 0 {
        assert View() == Step(View(), Submit(metrics, sent));
        return;
      }
      submitted := submitted + metrics;
      if !connected || !stream || !sent {
        CacheEach(metrics);
      } else {
        delivered := delivered + metrics;
      }
    }

    /** The batch loop of replay and flush: sends up to the first batch that does not go. */
    method SendInBatches(metrics: seq<T>, go: nat -> bool) returns (sent: nat)
      modifies this`delivered
      ensures sent == Sent(|metrics|, 0, go) <= |metrics|
      ensures StopsAtFailure(|metrics|, sent, go)
      ensures delivered == old(delivered) + metrics[..sent]
    {
      var k := 0;
      sent := 0;
      SentLaw(|metrics|, 0, go);
      while sent < |metrics|
        invariant sent <= |metrics| && (sent == BATCH * k || sent == |metrics| <= BATCH * k)
        invariant Sent(|metrics|, 0, go) == Sent(|metrics|, k, go)
        invariant delivered == old(delivered) + metrics[..sent]
      {
        var end := if sent + BATCH < |metrics| then sent + BATCH else |metrics|;
        if !go(k) {
          return;
        }
        delivered := delivered + metrics[sent..end];
        assert metrics[..end] == metrics[..sent] + metrics[sent..end];
        sent, k := end, k + 1;
      }
    }

    method ReplayCache(go: nat -> bool)
      requires Valid()
      modifies this, cache, cache.buf
      ensures Valid() && View() == Replayed(old(View()), go)
    {
      hide Sent, StopsAtFailure;
      var metrics := cache.Drain();
      if |metrics| == 0 {
        NoneSent(go);
        return;
      }
      if !stream {
        discarded := discarded + metrics;
        return;
      }
      var sent := SendInBatches(metrics, go);
      if sent < |metrics| {
        CacheEach(metrics[sent..]);
      }
    }

    /** A successful connection: the stream is set, then the cache is replayed on it. */
    method DoConnect(go: nat -> bool)
      requires Valid()
      modifies this, cache, cache.buf
      ensures Valid() && View() == Step(old(View()), Connect(go))
    {
      stream, connected := true, true;
      ReplayCache(go);
    }

    method SetDisconnected()
      requires Valid()
      modifies this`connected
      ensures Valid() && View() == Step(old(View()), MarkDisconnected) && !connected
    {
      connected := false;
    }

    method Close()
      requires Valid()
      modifies this`connected, this`stream
      ensures Valid() && View() == Step(old(View()), CloseConn) && !connected && !stream
    {
      stream, connected := false, false;
    }

    method FlushAndStop(done: nat -> bool, ok: nat -> bool) returns (remaining: seq<T>)
      requires Valid()
      modifies this, cache, cache.buf
      ensures Valid() && View() == Step(old(View()), Flush(done, ok))
      ensures leftover == old(leftover) + remaining
      ensures delivered + remaining == old(delivered + cache.Contents())
    {
      hide Sent, StopsAtFailure, LastN, Ring, Live, Slot;
      var metrics := cache.Drain();
      remaining := metrics;
      if |metrics| > 0 && stream {
        var sent := SendInBatches(metrics, Going(done, ok));
        remaining := metrics[sent..];
      } else {
        NoneSent(Going(done, ok));
      }
      leftover := leftover + remaining;
      Close();
    }
  }

  /** Any sequence of calls drives a new client through the run, so its own ledger balances. */
  method Drive<T(!new)>(cacheMaxSize: int, events: seq<Event<T>>) returns (client: Client<T>)
    ensures fresh(client) && client.Valid()
    ensures client.View() == Run(Fresh(if cacheMaxSize <= 0 then 10000 else cacheMaxSize), events)
    ensures multiset(client.submitted) ==
            multiset(client.delivered) + multiset(client.cache.Contents())
            + multiset(client.overwritten) + multiset(client.leftover)
  {
    hide Step, Ring, Live;
    client := new Client<T>(cacheMaxSize);
    ghost var start := client.View();
    for i := 0 to |events|
      invariant client.Valid() && fresh(client) && fresh(client.cache) && fresh(client.cache.buf)
      invariant client.View() == Run(start, events[..i])
    {
      assert events[..i + 1][..i] == events[..i];
      Call(client, events[i]);
    }
    assert events[..|events|] == events;
    RunConserves(start.cap, events);
  }

  /** One call on a client. */
  method Call<T>(client: Client<T>, e: Event<T>)
    requires client.Valid()
    modifies client, client.cache, client.cache.buf
    ensures client.Valid() && client.View() == Step(old(client.View()), e)
  {
    hide Step, Ring, Live;
    match e {
      case Submit(metrics, sent) => client.SendMetrics(metrics, sent);
      case Connect(go) => client.DoConnect(go);
      case MarkDisconnected => client.SetDisconnected();
      case CloseConn => client.Close();
      case Flush(done, ok) => var _ := client.FlushAndStop(done, ok);
    }
  }

  /**
   A replay keeps order: what was sent, then what is cached again, is what was drained.
   Without a stream all of it is lost.
   */
  lemma ReplayKeepsOrder<T>(s: State<T>, go: nat -> bool)
    ensures var t := Replayed(s, go);
            && t.overwritten == s.overwritten && t.leftover == s.leftover
            && (s.stream ==> t.delivered + t.cached == s.delivered + s.cached && t.discarded == s.discarded)
            && (!s.stream ==> t.cached == [] && t.discarded == s.discarded + s.cached && t.delivered == s.delivered)
  {}

  lemma NoneSent(go: nat -> bool)
    ensures Sent(0, 0, go) == 0
  {}

  lemma CacheAllOneMore<T>(s: State<T>, metrics: seq<T>, m: T)
    ensures CacheAll(CacheAll(s, metrics), [m]) == CacheAll(s, metrics + [m])
  {
    var all := s.cached + metrics;
    assert all + [m] == s.cached + (metrics + [m]);
    LastNAppend(all, [m], s.cap);
    assert Dropped(all, s.cap) + Dropped(LastN(all, s.cap) + [m], s.cap) == Dropped(all + [m], s.cap);
  }
}
