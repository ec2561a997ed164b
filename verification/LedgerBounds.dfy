/**
 Budgets are kept to: in every run of the ledger in which nobody uses more than reserved, no counter
 exceeds its limit, and N nodes together exceed it by less than N.
 */
module LedgerBounds {
  import opened Common
  import opened LimitKeys
  import opened Ledger
  import opened LedgerRuns
  import Arith

  ghost predicate AsksWithin(cal: int -> int, req: Request, k: Key, limit: int) {
    forall w | Metered(req.limits, w) && KeyOf(cal, req, w) == k :: req.limits[w] <= limit
  }

  /** Requests on the key ask within the limit, nobody uses more than it reserved, and the peer
      count is fixed if one is given. */
  ghost predicate StepWithin(cal: int -> int, s: State, step: Step, k: Key, limit: int, peers: Option<int>) {
    match step
    case Begin(req) => AsksWithin(cal, req, k, limit)
    case Advance(_, p, _) => peers.Some? ==> p == peers.value
    case BeginSettle(i, actual) => i < |s.calls| ==> actual <= s.calls[i].req.amount
    case _ => true
  }

  ghost predicate RunWithin(cal: int -> int, ttl: int, s: State, steps: seq<Step>, k: Key, limit: int,
      peers: Option<int>)
    requires Legal(cal, ttl, s, steps)
    decreases |steps|
  {
    |steps| == 0
    || (&& StepWithin(cal, s, steps[0], k, limit, peers)
        && RunWithin(cal, ttl, Apply(cal, ttl, s, steps[0]), steps[1..], k, limit, peers))
  }

  /** The whole limit when the peer count varies, the node's share of it when it is fixed. */
  ghost function Bound(limit: int, peers: Option<int>): int {
    if peers.Some? then LocalLimit(limit, peers.value) else limit
  }

  lemma ShareWithinBound(asked: nat, limit: nat, peers: Option<int>, p: int)
    requires asked <= limit && (peers.Some? ==> p == peers.value)
    ensures LocalLimit(asked, p) <= Bound(limit, peers) && Bound(limit, peers) >= 0
  {
    ShareWithinLimit(asked, p);
    var n := if p <= 0 then 1 else p;
    Arith.CeilDiv(asked, n);
    Arith.CeilDiv(limit, n);
    assert (LocalLimit(limit, p) + 1) * n == LocalLimit(limit, p) * n + n;
    if LocalLimit(asked, p) > LocalLimit(limit, p) {
      Arith.MulMonotone(LocalLimit(limit, p) + 1, LocalLimit(asked, p), n);
    }
  }

  /** Every counter object of the key, also one no longer in the table, is within the bound. */
  ghost predicate WithinBound(cal: int -> int, s: State, k: Key, limit: int, peers: Option<int>) {
    && (forall id | 0 <= id < |s.cells| && s.cells[id].key == k :: s.cells[id].counter.used <= Bound(limit, peers))
    && forall i | 0 <= i < |s.calls| :: CallWithin(cal, s.calls[i], k, limit)
  }

  /** The table and the calls lead to counters of the right keys. */
  ghost predicate Wired(cal: int -> int, s: State) {
    && (forall k | k in s.table :: s.table[k] < |s.cells| && s.cells[s.table[k]].key == k)
    && forall i | 0 <= i < |s.calls| :: CallWired(cal, s, s.calls[i])
  }

  ghost predicate CallWired(cal: int -> int, s: State, c: Call) {
    Found(c).Some? ==>
      && AtHand(c).Some? && Found(c).value < |s.cells|
      && s.cells[Found(c).value].key == KeyOf(cal, c.req, AtHand(c).value)
  }

  /** Replacing one call and extending or changing counters without changing their keys. */
  lemma StaysWired(cal: int -> int, s: State, s': State, i: nat, c: Call)
    requires Wired(cal, s) && i < |s.calls| && s'.calls == s.calls[i := c] && CallWired(cal, s', c)
    requires |s.cells| <= |s'.cells| && (forall j | 0 <= j < |s.cells| :: s'.cells[j].key == s.cells[j].key)
    requires forall k | k in s'.table :: s'.table[k] < |s'.cells| && s'.cells[s'.table[k]].key == k
    ensures Wired(cal, s')
  {
    forall j | 0 <= j < |s'.calls|
      ensures CallWired(cal, s', s'.calls[j])
    {
      assert j != i ==> CallWired(cal, s, s.calls[j]);
    }
  }

  lemma LookUpKeepsWired(cal: int -> int, s: State, i: nat, c: Call, w: Window, t: int)
    requires Wired(cal, s) && i < |s.calls| && AtHand(c) == Some(w)
    requires Found(c) == Some(LookUp(s, KeyOf(cal, c.req, w), t).1)
    ensures Wired(cal, WithCall(LookUp(s, KeyOf(cal, c.req, w), t).0, i, c))
  {
    StaysWired(cal, s, WithCall(LookUp(s, KeyOf(cal, c.req, w), t).0, i, c), i, c);
  }

  lemma ChargeKeepsWired(cal: int -> int, s: State, i: nat, c: Call, id: nat, counter: Counter, t: int)
    requires Wired(cal, s) && i < |s.calls| && id < |s.cells| && Found(c).None?
    ensures Wired(cal, WithCall(WithCounter(s, id, counter, t), i, c))
  {
    StaysWired(cal, s, WithCall(WithCounter(s, id, counter, t), i, c), i, c);
  }

  lemma ReserveKeepsWired(cal: int -> int, s: State, i: nat, peers: int, t: int)
    requires Wired(cal, s) && i < |s.calls| && s.calls[i].Reserving?
    requires s.calls[i].found.Some? ==> s.calls[i].found.value < |s.cells|
    ensures Wired(cal, ReserveNext(cal, s, i, peers, t))
  {
    var c, s' := s.calls[i], ReserveNext(cal, s, i, peers, t);
    if !AtMetered(c) {
      StaysWired(cal, s, s', i, s'.calls[i]);
    } else {
      var w := WINDOWS[c.next];
      if c.found.None? {
        LookUpKeepsWired(cal, s, i, Reserving(c.req, c.next, c.held, Some(LookUp(s, KeyOf(cal, c.req, w), t).1)), w, t);
      } else {
        var counter := AfterAttempt(s.cells[c.found.value].counter, w, c.req.amount, c.req.limits[w], peers, t);
        AttemptIs(cal, s, i, peers, t);
        ChargeKeepsWired(cal, s, i, s'.calls[i], c.found.value, counter, t);
      }
    }
  }

  lemma CorrectKeepsWired(cal: int -> int, s: State, i: nat, delta: int, looking: Option<nat> -> Call, after: Call,
      t: int)
    requires Wired(cal, s) && i < |s.calls| && (s.calls[i].RollingBack? || s.calls[i].Settling?) && s.calls[i].held != []
    requires s.calls[i].found.Some? ==> s.calls[i].found.value < |s.cells|
    requires forall id ::
               looking(id).req == s.calls[i].req && AtHand(looking(id)) == AtHand(s.calls[i]) && Found(looking(id)) == id
    requires Found(after).None?
    ensures Wired(cal, CorrectNext(cal, s, i, delta, looking, after, t))
  {
    var c := s.calls[i];
    if c.found.None? {
      LookUpKeepsWired(cal, s, i, looking(Some(LookUp(s, KeyOf(cal, c.req, c.held[0]), t).1)), c.held[0], t);
    } else {
      ChargeKeepsWired(cal, s, i, after, c.found.value, Corrected(s.cells[c.found.value].counter, delta), t);
    }
  }

  lemma AdvanceKeepsWired(cal: int -> int, ttl: int, s: State, step: Step)
    requires Wired(cal, s) && Enabled(ttl, s, step) && step.Advance?
    ensures Wired(cal, Apply(cal, ttl, s, step))
  {
    var i, c, t := step.i, s.calls[step.i], step.t;
    if c.Reserving? {
      ReserveKeepsWired(cal, s, i, step.peers, t);
    } else if c.Settling? {
      CorrectKeepsWired(cal, s, i, c.actual - c.req.amount, f => Settling(c.req, c.actual, c.held, c.settled, f),
                        Settling(c.req, c.actual, c.held[1..], c.settled + [c.held[0]], None), t);
    } else if c.held != [] {
      CorrectKeepsWired(cal, s, i, -c.req.amount, f => RollingBack(c.req, c.held, f),
                        RollingBack(c.req, c.held[1..], None), t);
    } else {
      StaysWired(cal, s, Apply(cal, ttl, s, step), i, TurnedAway(c.req));
    }
  }

  lemma StepKeepsWired(cal: int -> int, ttl: int, s: State, step: Step)
    requires Wired(cal, s) && Enabled(ttl, s, step)
    ensures Wired(cal, Apply(cal, ttl, s, step))
  {
    if step.Advance? {
      AdvanceKeepsWired(cal, ttl, s, step);
    }
  }

  ghost predicate CallWithin(cal: int -> int, c: Call, k: Key, limit: int) {
    && c.req.amount > 0 && AsksWithin(cal, c.req, k, limit)
    && (c.Settling? ==> c.actual <= c.req.amount)
  }

  /** Replacing one call, with every counter of the key within the bound. */
  lemma StaysWithin(cal: int -> int, s: State, s': State, i: nat, c: Call, k: Key, limit: int, peers: Option<int>)
    requires WithinBound(cal, s, k, limit, peers) && CallWithin(cal, c, k, limit)
    requires i < |s.calls| && s'.calls == s.calls[i := c]
    requires forall id | 0 <= id < |s'.cells| && s'.cells[id].key == k :: s'.cells[id].counter.used <= Bound(limit, peers)
    ensures WithinBound(cal, s', k, limit, peers)
  {
  }

  /** A reservation attempt leaves the counter of the key within the bound. */
  lemma AttemptWithin(cal: int -> int, c: Call, counter: Counter, peers': int, t: int, k: Key, limit: nat,
      peers: Option<int>)
    requires AtMetered(c) && CallWithin(cal, c, k, limit) && (peers.Some? ==> peers' == peers.value)
    requires KeyOf(cal, c.req, WINDOWS[c.next]) == k && counter.used <= Bound(limit, peers)
    ensures var w := WINDOWS[c.next];
            AfterAttempt(counter, w, c.req.amount, c.req.limits[w], peers', t).used <= Bound(limit, peers)
  {
    ShareWithinBound(c.req.limits[WINDOWS[c.next]], limit, peers, peers');
  }

  lemma ReserveKeepsBound(cal: int -> int, s: State, i: nat, peers': int, t: int, k: Key, limit: nat,
      peers: Option<int>)
    requires Wired(cal, s) && WithinBound(cal, s, k, limit, peers) && (peers.Some? ==> peers' == peers.value)
    requires i < |s.calls| && s.calls[i].Reserving? && (s.calls[i].found.Some? ==> s.calls[i].found.value < |s.cells|)
    ensures WithinBound(cal, ReserveNext(cal, s, i, peers', t), k, limit, peers)
  {
    var c, s' := s.calls[i], ReserveNext(cal, s, i, peers', t);
    assert CallWired(cal, s, c) && CallWithin(cal, c, k, limit);
    ShareWithinBound(0, limit, peers, if peers.Some? then peers.value else 1);
    if AtMetered(c) && c.found.Some? && KeyOf(cal, c.req, WINDOWS[c.next]) == k {
      AttemptWithin(cal, c, s.cells[c.found.value].counter, peers', t, k, limit, peers);
    }
    StaysWithin(cal, s, s', i, s'.calls[i], k, limit, peers);
  }

  lemma CorrectKeepsBound(cal: int -> int, s: State, i: nat, delta: int, looking: Option<nat> -> Call, after: Call,
      t: int,
                          k: Key, limit: nat, peers: Option<int>)
    requires WithinBound(cal, s, k, limit, peers) && i < |s.calls| && delta <= 0
    requires (s.calls[i].RollingBack? || s.calls[i].Settling?) && s.calls[i].held != []
    requires s.calls[i].found.Some? ==> s.calls[i].found.value < |s.cells|
    requires (forall id :: CallWithin(cal, looking(id), k, limit)) && CallWithin(cal, after, k, limit)
    ensures WithinBound(cal, CorrectNext(cal, s, i, delta, looking, after, t), k, limit, peers)
  {
    ShareWithinBound(0, limit, peers, if peers.Some? then peers.value else 1);
    var s' := CorrectNext(cal, s, i, delta, looking, after, t);
    StaysWithin(cal, s, s', i, s'.calls[i], k, limit, peers);
  }

  lemma AdvanceKeepsBound(cal: int -> int, ttl: int, s: State, step: Step, k: Key, limit: nat, peers: Option<int>)
    requires Wired(cal, s) && Enabled(ttl, s, step) && step.Advance?
    requires WithinBound(cal, s, k, limit, peers) && StepWithin(cal, s, step, k, limit, peers)
    ensures WithinBound(cal, Apply(cal, ttl, s, step), k, limit, peers)
  {
    var i, c, t := step.i, s.calls[step.i], step.t;
    assert CallWithin(cal, c, k, limit);
    if c.Reserving? {
      ReserveKeepsBound(cal, s, i, step.peers, t, k, limit, peers);
    } else if c.Settling? {
      CorrectKeepsBound(cal, s, i, c.actual - c.req.amount, f => Settling(c.req, c.actual, c.held, c.settled, f),
                        Settling(c.req, c.actual, c.held[1..], c.settled + [c.held[0]], None), t, k, limit, peers);
    } else if c.held != [] {
      CorrectKeepsBound(cal, s, i, -c.req.amount, f => RollingBack(c.req, c.held, f),
                        RollingBack(c.req, c.held[1..], None), t, k, limit, peers);
    } else {
      StaysWithin(cal, s, Apply(cal, ttl, s, step), i, TurnedAway(c.req), k, limit, peers);
    }
  }

  lemma StepKeepsBound(cal: int -> int, ttl: int, s: State, step: Step, k: Key, limit: nat, peers: Option<int>)
    requires Wired(cal, s) && Enabled(ttl, s, step)
    requires WithinBound(cal, s, k, limit, peers) && StepWithin(cal, s, step, k, limit, peers)
    ensures WithinBound(cal, Apply(cal, ttl, s, step), k, limit, peers)
  {
    if step.Advance? {
      AdvanceKeepsBound(cal, ttl, s, step, k, limit, peers);
    }
  }

  /** No counter ever exceeds the limit, however the peer count changes; with a fixed peer count
      it never exceeds the node's share. */
  lemma {:induction false} UsageWithinLimit(cal: int -> int, ttl: int, s: State, steps: seq<Step>, k: Key, limit: nat,
      peers: Option<int>)
    requires Wired(cal, s) && Legal(cal, ttl, s, steps)
    requires WithinBound(cal, s, k, limit, peers) && RunWithin(cal, ttl, s, steps, k, limit, peers)
    ensures Wired(cal, Exec(cal, ttl, s, steps)) && WithinBound(cal, Exec(cal, ttl, s, steps), k, limit, peers)
    decreases |steps|
  {
    if |steps| > 0 {
      StepKeepsWired(cal, ttl, s, steps[0]);
      StepKeepsBound(cal, ttl, s, steps[0], k, limit, peers);
      UsageWithinLimit(cal, ttl, Apply(cal, ttl, s, steps[0]), steps[1..], k, limit, peers);
    }
  }

  /** N nodes with their own ledgers, each counting N peers, together exceed the limit by less than N. */
  lemma ClusterWithinLimit(cal: int -> int, ttl: int, runs: seq<seq<Step>>, k: Key, limit: nat)
    requires |runs| > 0
    requires forall i | 0 <= i < |runs| ::
               && Legal(cal, ttl, NewLedger, runs[i])
               && RunWithin(cal, ttl, NewLedger, runs[i], k, limit, Some(|runs|))
    ensures Sum(seq(|runs|, i requires 0 <= i < |runs| => Used(Exec(cal, ttl, NewLedger, runs[i]), k)))
            <= limit + |runs| - 1
  {
    var used := seq(|runs|, i requires 0 <= i < |runs| => Used(Exec(cal, ttl, NewLedger, runs[i]), k));
    forall i | 0 <= i < |runs|
      ensures used[i] <= LocalLimit(limit, |runs|)
    {
      ShareWithinBound(0, limit, Some(|runs|), |runs|);
      UsageWithinLimit(cal, ttl, NewLedger, runs[i], k, limit, Some(|runs|));
    }
    SharesTogether(limit, |runs|, used);
  }
}
