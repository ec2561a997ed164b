/**
 The audit pipeline: a ring buffer with masked indices between the request path and a shipper
 that drains it in batches, with payloads for customer sinks and without for the platform.
 */
module Audit {
  import opened Common

  datatype AuditEvent = AuditEvent(
    timestamp: int, requestID: string, routeID: string, phase: string, statusCode: int, payload: seq<bv8>)

  const ZeroEvent := AuditEvent(0, "", "", "", 0, [])

  // ---------------------------------------------------------------- powers of two and masks

  function Pow2(k: nat): (p: nat)
    ensures p > 0
  {
    if k == 0 then 1 else 2 * Pow2(k - 1)
  }

  function BitAnd(a: nat, b: nat): nat {
    if a == 0 || b == 0 then 0
    else (if a % 2 == 1 && b % 2 == 1 then 1 else 0) + 2 * BitAnd(a / 2, b / 2)
  }

  /** Masking with 2^k - 1 keeps a smaller number and sends 2^k to zero. */
  lemma {:induction false} MaskWraps(x: nat, k: nat)
    requires x <= Pow2(k)
    ensures BitAnd(x, Pow2(k) - 1) == if x == Pow2(k) then 0 else x
  {
    if k > 0 {
      MaskWraps(x / 2, k - 1);
      assert (Pow2(k) - 1) / 2 == Pow2(k - 1) - 1;
      assert Pow2(k) - 1 == 2 * (Pow2(k - 1) - 1) + 1;
      assert x == 2 * (x / 2) + x % 2;
    }
  }

  /** The least power of two that is at least 64 and at least minCap. */
  method RoundUp(minCap: int) returns (capacity: nat, ghost k: nat)
    ensures capacity == Pow2(k) && capacity >= 64 && capacity >= minCap
    ensures forall j: nat | Pow2(j) >= 64 && Pow2(j) >= minCap :: capacity <= Pow2(j)
  {
    capacity, k := 64, 6;
    assert Pow2(6) == 64 by { assert Pow2(3) == 8; }
    while capacity < minCap
      invariant capacity == Pow2(k) && capacity >= 64
      invariant k > 6 ==> Pow2(k - 1) < minCap
      invariant k >= 6
    {
      capacity, k := capacity * 2, k + 1;
    }
    forall j: nat | Pow2(j) >= 64 && Pow2(j) >= minCap
      ensures capacity <= Pow2(j)
    {
      if j < k {
        Pow2Monotone(j, k - 1);
      } else {
        Pow2Monotone(k, j);
      }
    }
  }

  lemma {:induction false} Pow2Monotone(a: nat, b: nat)
    requires a <= b
    ensures Pow2(a) <= Pow2(b)
  {
    if a < b {
      Pow2Monotone(a, b - 1);
    }
  }

  // ---------------------------------------------------------------- the ring buffer

  /** Position i of the queue, counted from the tail. */
  function Wrap(tail: nat, i: nat, cap: nat): int {
    if tail + i < cap then tail + i else tail + i - cap
  }

  /** The n elements of a ring from the tail on. */
  ghost function Queue<T>(ring: seq<T>, tail: nat, n: nat): seq<T>
    requires tail < |ring| && n <= |ring|
  {
    seq(n, i requires 0 <= i < n => ring[Wrap(tail, i, |ring|)])
  }

  lemma QueuePush<T>(ring: seq<T>, tail: nat, n: nat, x: T)
    requires tail < |ring| && n < |ring|
    ensures Queue(ring[Wrap(tail, n, |ring|) := x], tail, n + 1) == Queue(ring, tail, n) + [x]
  {
  }

  lemma QueuePop<T>(ring: seq<T>, tail: nat, n: nat, x: T)
    requires tail < |ring| && 0 < n <= |ring|
    ensures Queue(ring[tail := x], Wrap(tail, 1, |ring|), n - 1) == Queue(ring, tail, n)[1..]
    ensures Queue(ring, tail, n)[0] == ring[tail]
  {
  }

  class RingBuffer {
    const buf: array<AuditEvent>
    const mask: nat
    const cap: nat
    ghost const log: nat
    var head: nat
    var tail: nat
    var count: nat
    var dropped: nat
    var enqueued: nat

    ghost predicate Valid()
      reads this, buf
    {
      && cap == Pow2(log) == buf.Length && mask == cap - 1
      && tail < cap && count <= cap && head == Wrap(tail, count, cap)
    }

    /** The buffered events, oldest first. */
    ghost function Contents(): seq<AuditEvent>
      requires Valid()
      reads this, buf
    {
      Queue(buf[..], tail, count)
    }

    constructor (minCap: int)
      ensures Valid() && Contents() == [] && dropped == 0 && enqueued == 0
      ensures cap >= 64 && cap >= minCap && fresh(buf)
      ensures forall j: nat | Pow2(j) >= 64 && Pow2(j) >= minCap :: cap <= Pow2(j)
    {
      var capacity, k := RoundUp(minCap);
      cap, mask, log := capacity, capacity - 1, k;
      buf := new AuditEvent[capacity](_ => ZeroEvent);
      head, tail, count, dropped, enqueued := 0, 0, 0, 0, 0;
    }

    /** Append unless full; a refused event is counted and nothing buffered is lost. */
    method Enqueue(ev: AuditEvent) returns (ok: bool)
      requires Valid()
      modifies this`head, this`count, this`dropped, this`enqueued, buf
      ensures Valid()
      ensures ok == (|old(Contents())| < cap)
      ensures Contents() == if ok then old(Contents()) + [ev] else old(Contents())
      ensures dropped == old(dropped) + (if ok then 0 else 1) && enqueued == old(enqueued) + if ok then 1 else 0
    {
      if count >= cap {
        dropped := dropped + 1;
        return false;
      }
      MaskWraps(head + 1, log);
      QueuePush(buf[..], tail, count, ev);
      ghost var ring := buf[..];
      buf[head] := ev;
      assert buf[..] == ring[head := ev];
      head := BitAnd(head + 1, mask);
      count := count + 1;
      enqueued := enqueued + 1;
      return true;
    }

    /** Remove the oldest event. */
    method Dequeue() returns (ev: Option<AuditEvent>)
      requires Valid()
      modifies this`tail, this`count, buf
      ensures Valid()
      ensures old(Contents()) == [] ==> ev == None && Contents() == []
      ensures old(Contents()) != [] ==> ev == Some(old(Contents())[0]) && Contents() == old(Contents())[1..]
    {
      if count == 0 {
        return None;
      }
      ev := Some(buf[tail]);
      MaskWraps(tail + 1, log);
      QueuePop(buf[..], tail, count, ZeroEvent);
      ghost var ring := buf[..];
      buf[tail] := ZeroEvent;
      assert buf[..] == ring[tail := ZeroEvent];
      tail := BitAnd(tail + 1, mask);
      count := count - 1;
    }
  }

  // ---------------------------------------------------------------- the shipper

  function Strip(ev: AuditEvent): AuditEvent {
    ev.(payload := [])
  }

  function StripAll(batch: seq<AuditEvent>): seq<AuditEvent> {
    seq(|batch|, i requires 0 <= i < |batch| => Strip(batch[i]))
  }

  method MetaOnly(batch: seq<AuditEvent>) returns (metaOnly: seq<AuditEvent>)
    ensures metaOnly == StripAll(batch)
  {
    metaOnly := [];
    for i := 0 to |batch|
      invariant metaOnly == StripAll(batch[..i])
    {
      metaOnly := metaOnly + [Strip(batch[i])];
    }
    assert batch[..|batch|] == batch;
  }

  /** The events of a batch whose write to the spool succeeded. */
  function Written(batch: seq<AuditEvent>, writes: nat -> bool): seq<AuditEvent> {
    if |batch| == 0 then []
    else
      var n := |batch| - 1;
      Written(batch[..n], writes) + if writes(n) then [batch[n]] else []
  }

  class Shipper {
    const ring: RingBuffer
    const batchSize: nat
    const hasPlatform: bool
    const hasSpool: bool
    var platform: seq<seq<AuditEvent>>
    var customers: seq<seq<seq<AuditEvent>>> // what was sent to each customer sink
    var spool: seq<AuditEvent>

    ghost predicate Valid()
      reads this, ring, ring.buf
    {
      ring.Valid() && batchSize > 0
    }

    constructor (ring: RingBuffer, batchSize: int, hasPlatform: bool, sinks: nat, hasSpool: bool)
      requires ring.Valid()
      ensures Valid() && this.ring == ring && this.hasPlatform == hasPlatform && this.hasSpool == hasSpool
      ensures platform == [] && spool == [] && |customers| == sinks && forall i | 0 <= i < sinks :: customers[i] == []
      ensures this.batchSize == if batchSize <= 0 then 128 else batchSize
    {
      this.ring, this.hasPlatform, this.hasSpool := ring, hasPlatform, hasSpool;
      this.batchSize := if batchSize <= 0 then 128 else batchSize;
      platform, spool, customers := [], [], seq(sinks, _ => []);
    }

    /** Take the oldest events, at most one batch. */
    method TakeBatch() returns (batch: seq<AuditEvent>)
      requires Valid()
      modifies ring`tail, ring`count, ring.buf
      ensures Valid()
      ensures var was := old(ring.Contents());
              var n := if |was| < batchSize then |was| else batchSize;
              batch == was[..n] && ring.Contents() == was[n..]
    {
      batch := [];
      ghost var was := ring.Contents();
      while |batch| < batchSize
        invariant Valid()
        invariant |batch| <= batchSize && |batch| <= |was| && batch == was[..|batch|]
        invariant ring.Contents() == was[|batch|..]
        decreases batchSize - |batch|
      {
        var ev := ring.Dequeue();
        if ev.None? {
          break;
        }
        batch := batch + [ev.value];
      }
    }

    /** Write a batch to the spool; events whose write fails are left out. */
    method SpoolBatch(batch: seq<AuditEvent>, writes: nat -> bool)
      modifies this`spool
      ensures spool == old(spool) + Written(batch, writes)
    {
      for i := 0 to |batch|
        invariant spool == old(spool) + Written(batch[..i], writes)
      {
        assert batch[..i + 1][..i] == batch[..i];
        if writes(i) {
          spool := spool + [batch[i]];
        }
      }
      assert batch[..|batch|] == batch;
    }

    /** Send a batch to every customer sink. */
    method SendToCustomers(batch: seq<AuditEvent>)
      modifies this`customers
      ensures |customers| == |old(customers)|
      ensures forall i | 0 <= i < |customers| :: customers[i] == old(customers)[i] + [batch]
    {
      for i := 0 to |customers|
        invariant |customers| == |old(customers)|
        invariant forall j | 0 <= j < |customers| ::
                    customers[j] == if j < i then old(customers)[j] + [batch] else old(customers)[j]
      {
        customers := customers[i := customers[i] + [batch]];
      }
    }

    /** Ship the oldest events, at most one batch: with payloads to every customer sink, without to the
        platform. The spool has the batch meanwhile and is emptied afterwards, whatever the sinks
        answered. An empty ring ships nothing. */
    method Drain(writes: nat -> bool, truncates: bool)
      requires Valid()
      modifies this, ring`tail, ring`count, ring.buf
      ensures Valid()
      ensures var was := old(ring.Contents());
              var n := if |was| < batchSize then |was| else batchSize;
              && ring.Contents() == was[n..]
              && |customers| == |old(customers)|
              && (forall i | 0 <= i < |customers| ::
                    customers[i] == old(customers)[i] + (if n == 0 then [] else [was[..n]]))
              && platform == old(platform) + (if n == 0 || !hasPlatform then [] else [StripAll(was[..n])])
              && spool == if n == 0 || !hasSpool then old(spool)
                          else if truncates then [] else old(spool) + Written(was[..n], writes)
    {
      var batch := TakeBatch();
      if |batch| == 0 {
        return;
      }
      if hasSpool {
        SpoolBatch(batch, writes);
      }
      if hasPlatform {
        var metaOnly := MetaOnly(batch);
        platform := platform + [metaOnly];
      }
      SendToCustomers(batch);
      if hasSpool && truncates {
        spool := [];
      }
    }
  }

  // ---------------------------------------------------------------- capture and drain interleaved

  /** Where the shipper is. Captures may come between any two of its actions. */
  datatype Drain =
    | Resting
    | Collecting(batch: seq<AuditEvent>)
    | Sending(batch: seq<AuditEvent>)  // the batch is full, or a dequeue found the ring empty
    | Halfway(batch: seq<AuditEvent>)  // sent to the platform, not yet to the customer

  /** The pipeline as seen between lock sections and sends. */
  datatype Pipeline = Pipeline(
    ring: seq<AuditEvent>, drain: Drain,
    customer: seq<seq<AuditEvent>>, platform: seq<seq<AuditEvent>>,
    accepted: seq<AuditEvent>, captured: nat, dropped: nat)

  datatype Step = Capture(ev: AuditEvent) | BeginDrain | TakeOne | StopTaking | SendPlatform | SendCustomer

  datatype Limits = Limits(cap: nat, batchSize: nat, hasPlatform: bool)

  ghost predicate Enabled(lim: Limits, p: Pipeline, step: Step) {
    match step
    case Capture(_) => true
    case BeginDrain => p.drain.Resting?
    case TakeOne => p.drain.Collecting? && |p.drain.batch| < lim.batchSize && p.ring != []
    case StopTaking => p.drain.Collecting? && (|p.drain.batch| >= lim.batchSize || p.ring == [])
    case SendPlatform => p.drain.Sending?
    case SendCustomer => p.drain.Halfway?
  }

  ghost function Apply(lim: Limits, p: Pipeline, step: Step): Pipeline
    requires Enabled(lim, p, step)
  {
    match step
    case Capture(ev) =>
      if |p.ring| < lim.cap then p.(ring := p.ring + [ev], accepted := p.accepted + [ev], captured := p.captured + 1)
      else p.(captured := p.captured + 1, dropped := p.dropped + 1)
    case BeginDrain => p.(drain := Collecting([]))
    case TakeOne => p.(drain := Collecting(p.drain.batch + [p.ring[0]]), ring := p.ring[1..])
    case StopTaking => p.(drain := if p.drain.batch == [] then Resting else Sending(p.drain.batch))
    case SendPlatform =>
      p.(drain := Halfway(p.drain.batch),
         platform := p.platform + if lim.hasPlatform then [StripAll(p.drain.batch)] else [])
    case SendCustomer => p.(drain := Resting, customer := p.customer + [p.drain.batch])
  }

  ghost predicate Legal(lim: Limits, p: Pipeline, steps: seq<Step>)
    decreases |steps|
  {
    |steps| == 0 || (Enabled(lim, p, steps[0]) && Legal(lim, Apply(lim, p, steps[0]), steps[1..]))
  }

  ghost function Exec(lim: Limits, p: Pipeline, steps: seq<Step>): Pipeline
    requires Legal(lim, p, steps)
    decreases |steps|
  {
    if |steps| == 0 then p else Exec(lim, Apply(lim, p, steps[0]), steps[1..])
  }

  ghost function Flatten(batches: seq<seq<AuditEvent>>): seq<AuditEvent> {
    if |batches| == 0 then [] else Flatten(batches[..|batches| - 1]) + batches[|batches| - 1]
  }

  ghost function InHand(p: Pipeline): seq<AuditEvent> {
    if p.drain.Resting? then [] else p.drain.batch
  }

  /** The batches sent so far, the last of which may not have reached the customer yet. */
  ghost function Shipped(p: Pipeline): seq<seq<AuditEvent>> {
    p.customer + if p.drain.Halfway? then [p.drain.batch] else []
  }

  /** Delivered events, then the batch in hand, then the ring are the accepted events in order. */
  ghost predicate InOrder(p: Pipeline) {
    Flatten(p.customer) + InHand(p) + p.ring == p.accepted && |p.accepted| + p.dropped == p.captured
  }

  /** The platform gets what the customer gets, without payloads. */
  ghost predicate Mirrored(lim: Limits, p: Pipeline) {
    if !lim.hasPlatform then p.platform == []
    else |p.platform| == |Shipped(p)| && forall i | 0 <= i < |p.platform| :: p.platform[i] == StripAll(Shipped(p)[i])
  }

  ghost predicate Inv(lim: Limits, p: Pipeline) {
    && InOrder(p) && Mirrored(lim, p)
    && |p.ring| <= lim.cap && |InHand(p)| <= lim.batchSize
    && (p.drain.Sending? || p.drain.Halfway? ==> p.drain.batch != [])
    && (forall i | 0 <= i < |p.customer| :: 0 < |p.customer[i]| <= lim.batchSize)
  }

  lemma StepKeepsOrder(lim: Limits, p: Pipeline, step: Step)
    requires InOrder(p) && Enabled(lim, p, step)
    ensures InOrder(Apply(lim, p, step))
  {
    var p' := Apply(lim, p, step);
    match step
    case Capture(ev) =>
      assert Flatten(p.customer) + InHand(p) + (p.ring + [ev]) == (Flatten(p.customer) + InHand(p) + p.ring) + [ev];
    case TakeOne =>
      assert p.ring == [p.ring[0]] + p.ring[1..];
      assert Flatten(p.customer) + (InHand(p) + [p.ring[0]]) + p.ring[1..] == Flatten(p.customer) + InHand(p) + p.ring;
    case SendCustomer =>
      assert p'.customer[..|p.customer|] == p.customer;
      assert Flatten(p'.customer) + [] == Flatten(p.customer) + InHand(p);
    case _ =>
  }

  lemma StepKeepsMirrored(lim: Limits, p: Pipeline, step: Step)
    requires Mirrored(lim, p) && Enabled(lim, p, step)
    ensures Mirrored(lim, Apply(lim, p, step))
  {
    var p' := Apply(lim, p, step);
    if step.SendPlatform? {
      assert Shipped(p') == Shipped(p) + [p.drain.batch];
    } else {
      assert Shipped(p') == Shipped(p);
    }
  }

  lemma StepKeepsInv(lim: Limits, p: Pipeline, step: Step)
    requires Inv(lim, p) && Enabled(lim, p, step)
    ensures Inv(lim, Apply(lim, p, step))
  {
    StepKeepsOrder(lim, p, step);
    StepKeepsMirrored(lim, p, step);
  }

  /** For every interleaving of captures, drains and sends no accepted event is lost, repeated or
      reordered, the platform sees the same batches as the customer, and no payload reaches it. */
  lemma {:induction false} NothingLost(lim: Limits, p: Pipeline, steps: seq<Step>)
    requires Inv(lim, p) && Legal(lim, p, steps)
    ensures var p' := Exec(lim, p, steps);
            && Inv(lim, p')
            && Flatten(p'.customer) + InHand(p') + p'.ring == p'.accepted
            && p.accepted <= p'.accepted
            && forall i, j | 0 <= i < |p'.platform| && 0 <= j < |p'.platform[i]| :: p'.platform[i][j].payload == []
    decreases |steps|
  {
    if |steps| > 0 {
      StepKeepsInv(lim, p, steps[0]);
      NothingLost(lim, Apply(lim, p, steps[0]), steps[1..]);
    }
  }

  lemma EmptyInv(lim: Limits)
    ensures Inv(lim, Pipeline([], Resting, [], [], [], 0, 0))
  {
  }
}
