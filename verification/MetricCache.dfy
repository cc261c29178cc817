/**
 The bounded metric stores: the ring buffer behind the gRPC client
 (internal/grpcclient/cache.go) and the collector's batch buffer
 (internal/collector/buffer.go), both refined to "the last n added".
 */
module MetricCache {
  import opened Wrappers

  function LastN<T>(s: seq<T>, n: nat): seq<T> {
    if |s| <= n then s else s[|s| - n..]
  }

  function FirstN<T>(s: seq<T>, n: nat): seq<T> {
    if |s| <= n then s else s[..n]
  }

  /** The last n: a suffix, the whole when it is short enough, and n long otherwise; FirstN is its mirror image. */
  lemma LastNLaw<T>(s: seq<T>, n: nat)
    ensures var k := |s| - |LastN(s, n)|;
            0 <= k && LastN(s, n) == s[k..] && |LastN(s, n)| == if |s| <= n then |s| else n
    ensures FirstN(s, n) <= s && |FirstN(s, n)| == if |s| <= n then |s| else n
  {}

  /** Dropping the oldest one at a time is dropping all the oldest at once. */
  lemma LastNAppend<T>(s: seq<T>, t: seq<T>, n: nat)
    ensures LastN(LastN(s, n) + t, n) == LastN(s + t, n)
  {}

  lemma LastNPush<T>(s: seq<T>, m: T, n: nat)
    requires |s| <= n
    ensures |s| < n ==> LastN(s + [m], n) == s + [m]
    ensures |s| == n > 0 ==> LastN(s + [m], n) == s[1..] + [m]
  {}

  lemma LastNNone<T>(n: nat)
    ensures LastN<T>([], n) == []
  {}

  // ---- The ring ----

  /** The slot `i` places after `tail` in a ring of `n`. */
  function Slot(tail: nat, i: nat, n: nat): nat {
    if tail + i < n then tail + i else tail + i - n
  }

  /** How many places slot `j` is after `tail`. */
  function Age(tail: nat, j: nat, n: nat): int {
    if j >= tail then j - tail else j + n - tail
  }

  lemma Times(n: nat, a: int, b: int)
    ensures a <= b ==> n * a <= n * b
  {}

  lemma WrapOnce(x: nat, n: nat)
    requires n <= x < 2 * n
    ensures x % n == x - n
  {
    var q := x / n;
    assert x == n * q + x % n;
    Times(n, 2, q);
    Times(n, q, 0);
    assert q == 1;
  }

  lemma SlotIsModulo(tail: nat, i: nat, n: nat)
    requires tail < n && i <= n
    ensures (tail + i) % n == Slot(tail, i, n)
  {
    if tail + i >= n {
      WrapOnce(tail + i, n);
    } else {
      NoWrap(tail + i, n);
    }
  }

  lemma NoWrap(x: nat, n: nat)
    requires x < n
    ensures x % n == x
  {}

  /** Advancing either index modulo the size is moving it one slot on. */
  lemma Advance(tail: nat, count: nat, n: nat)
    requires tail < n && count <= n
    ensures Slot(tail, count, n) < n && Slot(tail, 1, n) < n && Slot(tail, n, n) == tail
    ensures (tail + 1) % n == Slot(tail, 1, n)
    ensures count < n ==> (Slot(tail, count, n) + 1) % n == Slot(tail, count + 1, n)
    ensures count == n ==> (Slot(tail, n, n) + 1) % n == Slot(Slot(tail, 1, n), n, n)
  {
    SlotIsModulo(tail, 1, n);
    SlotIsModulo(Slot(tail, count, n), 1, n);
  }

  /** The live slots run from `tail` for `count` places, wrapping; every other slot is nil. */
  predicate Ring<T>(buf: seq<Option<T>>, tail: nat, count: nat) {
    && tail < |buf| && count <= |buf|
    && forall j :: 0 <= j < |buf| ==> (buf[j].Some? <==> Age(tail, j, |buf|) < count)
  }

  /** The live metrics, oldest first. */
  function Live<T>(buf: seq<Option<T>>, tail: nat, count: nat): (s: seq<T>)
    requires Ring(buf, tail, count)
    ensures |s| == count
    ensures forall i :: 0 <= i < count ==> buf[Slot(tail, i, |buf|)] == Some(s[i])
  {
    seq(count, i requires 0 <= i < count => assert Age(tail, Slot(tail, i, |buf|), |buf|) == i;
                                            buf[Slot(tail, i, |buf|)].value)
  }

  lemma AgeOfSlot(tail: nat, i: nat, n: nat)
    requires tail < n && i < n
    ensures Slot(tail, i, n) < n
    ensures forall j :: 0 <= j < n ==> (Age(tail, j, n) == i <==> j == Slot(tail, i, n))
  {}

  lemma RingAdd<T>(buf: seq<Option<T>>, tail: nat, count: nat, m: T)
    requires Ring(buf, tail, count) && count < |buf|
    ensures var next := buf[Slot(tail, count, |buf|) := Some(m)];
            Ring(next, tail, count + 1) && Live(next, tail, count + 1) == Live(buf, tail, count) + [m]
  {}

  lemma RingOverwrite<T>(buf: seq<Option<T>>, tail: nat, m: T)
    requires Ring(buf, tail, |buf|)
    ensures var next, moved := buf[tail := Some(m)], Slot(tail, 1, |buf|);
            Ring(next, moved, |buf|) && Live(next, moved, |buf|) == Live(buf, tail, |buf|)[1..] + [m]
  {
    var n := |buf|;
    var next, moved := buf[tail := Some(m)], Slot(tail, 1, n);
    forall i | 0 <= i < n ensures Live(next, moved, n)[i] == (Live(buf, tail, n)[1..] + [m])[i] {
      if i < n - 1 {
        assert Slot(moved, i, n) == Slot(tail, i + 1, n);
      }
    }
  }

  class MetricCache<T> {
    const maxSize: nat
    const buf: array<Option<T>>
    var head: nat
    var tail: nat
    var count: nat

    ghost predicate Valid()
      reads this, buf
    {
      && 0 < maxSize == buf.Length
      && tail < maxSize && count <= maxSize
      && head == Slot(tail, count, maxSize)
      && Ring(buf[..], tail, count)
    }

    ghost function Contents(): seq<T>
      requires Valid()
      reads this, buf
    {
      Live(buf[..], tail, count)
    }

    lemma HeadIsModulo()
      requires Valid()
      ensures head == (tail + count) % maxSize
      ensures forall j :: 0 <= j < maxSize ==> (buf[j].None? <==> Age(tail, j, maxSize) >= count)
    {
      SlotIsModulo(tail, count, maxSize);
      assert forall j :: 0 <= j < maxSize ==> buf[..][j] == buf[j];
    }

    constructor (size: int)
      ensures Valid() && fresh(buf) && Contents() == []
      ensures maxSize == if size <= 0 then 1 else size
    {
      var n := if size <= 0 then 1 else size;
      maxSize := n;
      buf := new Option<T>[n](_ => None);
      head, tail, count := 0, 0, 0;
    }

    method Add(m: T)
      requires Valid()
      modifies this, buf
      ensures Valid()
      ensures Contents() == LastN(old(Contents()) + [m], maxSize)
    {
      hide Ring, Live, Slot, LastN;
      ghost var before, was := buf[..], Contents();
      LastNPush(was, m, maxSize);
      Advance(tail, count, maxSize);
      buf[head] := Some(m);
      assert buf[..] == before[head := Some(m)];
      head := (head + 1) % maxSize;
      if count == maxSize {
        RingOverwrite(before, tail, m);
        tail := (tail + 1) % maxSize;
        assert Contents() == was[1..] + [m];
      } else {
        RingAdd(before, tail, count, m);
        count := count + 1;
        assert Contents() == was + [m];
      }
    }

    /** Returns what is buffered, oldest first, and leaves an empty ring of nil slots. */
    method Drain() returns (result: seq<T>)
      requires Valid()
      modifies this, buf
      ensures Valid() && Contents() == []
      ensures result == old(Contents())
      ensures forall j :: 0 <= j < maxSize ==> buf[j] == None
    {
      if count == 0 {
        return [];
      }
      ghost var before, live := buf[..], Contents();
      result := [];
      for i := 0 to count
        invariant unchanged(this) && result == live[..i]
        invariant forall j :: 0 <= j < maxSize ==>
                    buf[j] == if Age(tail, j, maxSize) < i then None else before[j]
      {
        hide Ring, Live, Slot, Age;
        SlotIsModulo(tail, i, maxSize);
        AgeOfSlot(tail, i, maxSize);
        var idx := (tail + i) % maxSize;
        result := result + [buf[idx].value];
        buf[idx] := None;
      }
      head, tail, count := 0, 0, 0;
    }

    method Len() returns (n: nat)
      requires Valid()
      ensures n == |Contents()|
    {
      n := count;
    }
  }
  // ---- Histories of Add and Drain ----

  datatype Op<T> = Put(metric: T) | Take

  /** The contents after a history, one operation at a time. */
  function After<T>(cap: nat, ops: seq<Op<T>>): seq<T>
    decreases |ops|
  {
    if ops == [] then []
    else
      var before := After(cap, ops[..|ops| - 1]);
      match ops[|ops| - 1]
      case Put(m) => LastN(before + [m], cap)
      case Take => []
  }

  /** Everything added since the last drain. */
  function AddedSinceDrain<T>(ops: seq<Op<T>>): seq<T>
    decreases |ops|
  {
    if ops == [] || ops[|ops| - 1].Take? then []
    else AddedSinceDrain(ops[..|ops| - 1]) + [ops[|ops| - 1].metric]
  }

  /** After any history the cache holds exactly the last `cap` metrics added since it was drained. */
  lemma {:induction false} HistoryLaw<T>(cap: nat, ops: seq<Op<T>>)
    ensures After(cap, ops) == LastN(AddedSinceDrain(ops), cap)
    decreases |ops|
  {
    if ops != [] && ops[|ops| - 1].Put? {
      var init, m := ops[..|ops| - 1], ops[|ops| - 1].metric;
      HistoryLaw(cap, init);
      LastNAppend(AddedSinceDrain(init), [m], cap);
    }
  }

  /** Running the ring through a history, drain by drain. */
  method Replay<T>(cache: MetricCache<T>, ops: seq<Op<T>>) returns (drained: seq<seq<T>>)
    requires cache.Valid() && cache.Contents() == []
    modifies cache, cache.buf
    ensures cache.Valid() && cache.Contents() == LastN(AddedSinceDrain(ops), cache.maxSize)
    ensures drained == Drains(cache.maxSize, ops)
  {
    drained := [];
    for i := 0 to |ops|
      invariant cache.Valid() && cache.Contents() == After(cache.maxSize, ops[..i])
      invariant drained == Drains(cache.maxSize, ops[..i])
    {
      assert ops[..i + 1][..i] == ops[..i];
      if ops[i].Put? {
        cache.Add(ops[i].metric);
      } else {
        HistoryLaw(cache.maxSize, ops[..i]);
        var batch := cache.Drain();
        drained := drained + [batch];
      }
    }
    assert ops[..|ops|] == ops;
    HistoryLaw(cache.maxSize, ops);
  }

  /** What each drain of a history must return. */
  function Drains<T>(cap: nat, ops: seq<Op<T>>): seq<seq<T>>
    decreases |ops|
  {
    if ops == [] then []
    else
      var init := ops[..|ops| - 1];
      Drains(cap, init) + if ops[|ops| - 1].Take? then [LastN(AddedSinceDrain(init), cap)] else []
  }

  // ---- The batch buffer ----

  datatype DropPolicy = DropNewest | DropOldest

  class Buffer<T> {
    const maxSize: nat
    const batchSize: nat
    const dropPolicy: DropPolicy
    var metrics: seq<T>

    /** A zero-sized drop-oldest buffer would index an empty slice. */
    ghost predicate Valid()
      reads this
    {
      |metrics| <= maxSize && (dropPolicy.DropOldest? ==> maxSize > 0)
    }

    constructor (maxSize: nat, batchSize: nat, policy: DropPolicy)
      requires policy.DropOldest? ==> maxSize > 0
      ensures Valid() && metrics == []
      ensures this.maxSize == maxSize && this.batchSize == batchSize && dropPolicy == policy
    {
      this.maxSize, this.batchSize, dropPolicy, metrics := maxSize, batchSize, policy, [];
    }

    /** Keeps the newest or the oldest metrics, by policy. */
    method Add(m: T)
      requires Valid()
      modifies this
      ensures Valid()
      ensures metrics == match dropPolicy
                         case DropOldest => LastN(old(metrics) + [m], maxSize)
                         case DropNewest => FirstN(old(metrics) + [m], maxSize)
    {
      if |metrics| >= maxSize {
        match dropPolicy
        case DropNewest => return;
        case DropOldest => metrics := metrics[1..];
      }
      metrics := metrics + [m];
    }

    method Batch() returns (batch: seq<T>)
      requires Valid()
      modifies this
      ensures Valid()
      ensures batch + metrics == old(metrics)
      ensures |batch| == if batchSize < old(|metrics|) then batchSize else old(|metrics|)
    {
      var n := if batchSize < |metrics| then batchSize else |metrics|;
      batch := metrics[..n];
      metrics := metrics[n..];
    }
  }

  /**
   On the same additions, draining the ring and emptying a drop-oldest buffer batch
   by batch give the same metrics in the same order.
   */
  method DrainBoth<T>(added: seq<T>, maxSize: nat, batchSize: nat) returns (ring: seq<T>, batched: seq<T>)
    requires maxSize > 0 && batchSize > 0
    ensures ring == batched == LastN(added, maxSize)
  {
    hide Ring, Live, Slot, LastN;
    var cache := new MetricCache<T>(maxSize);
    var buffer := new Buffer<T>(maxSize, batchSize, DropOldest);
    LastNNone<T>(maxSize);
    for i := 0 to |added|
      invariant cache.Valid() && buffer.Valid() && fresh(cache.buf)
      invariant cache.Contents() == buffer.metrics == LastN(added[..i], maxSize)
    {
      LastNAppend(added[..i], [added[i]], maxSize);
      assert added[..i] + [added[i]] == added[..i + 1];
      cache.Add(added[i]);
      buffer.Add(added[i]);
    }
    assert added[..|added|] == added;
    ring := cache.Drain();
    batched := BatchAll(buffer);
  }

  method BatchAll<T>(buffer: Buffer<T>) returns (batched: seq<T>)
    requires buffer.Valid() && buffer.batchSize > 0
    modifies buffer
    ensures batched == old(buffer.metrics) && buffer.metrics == []
  {
    batched := [];
    while |buffer.metrics| > 0
      invariant buffer.Valid() && batched + buffer.metrics == old(buffer.metrics)
      decreases |buffer.metrics|
    {
      var batch := buffer.Batch();
      batched := batched + batch;
    }
  }
}
