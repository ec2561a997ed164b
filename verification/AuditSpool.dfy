/**
 The disk spool of the audit shipper: each batch is written event by event, sent, and then the whole
 spool is truncated, whatever the sink answered. Events are numbered in the order in which they were
 taken from the ring; the sink is any one of the sinks.
 */
module AuditSpool {
  datatype Phase = Resting | Writing(next: nat) | Sending | Clearing

  /** The events lo .. hi - 1 are the batch in hand. */
  datatype State = State(lo: nat, hi: nat, phase: Phase, spool: set<nat>, delivered: set<nat>)

  datatype Step = Begin(size: nat) | Write(ok: bool) | Send(ok: bool) | Truncate(ok: bool)

  const Empty := State(0, 0, Resting, {}, {})

  ghost function Range(lo: nat, hi: nat): (r: set<nat>)
    ensures forall e :: e in r <==> lo <= e < hi
    decreases hi - lo
  {
    if lo >= hi then {} else {lo} + Range(lo + 1, hi)
  }

  ghost predicate Enabled(s: State, step: Step) {
    match step
    case Begin(size) => s.phase.Resting? && size > 0
    case Write(_) => s.phase.Writing? && s.phase.next < s.hi
    case Send(_) => s.phase.Sending?
    case Truncate(_) => s.phase.Clearing?
  }

  ghost function Apply(s: State, step: Step): State
    requires Enabled(s, step)
  {
    match step
    case Begin(size) => s.(hi := s.hi + size, phase := Writing(s.hi))
    case Write(ok) =>
      s.(spool := if ok then s.spool + {s.phase.next} else s.spool,
         phase := if s.phase.next + 1 < s.hi then Writing(s.phase.next + 1) else Sending)
    case Send(ok) => s.(delivered := if ok then s.delivered + Range(s.lo, s.hi) else s.delivered, phase := Clearing)
    case Truncate(ok) => s.(lo := s.hi, spool := if ok then {} else s.spool, phase := Resting)
  }

  ghost predicate Run(steps: seq<Step>, states: seq<State>) {
    && |states| == |steps| + 1 && states[0] == Empty
    && forall k | 0 <= k < |steps| :: Enabled(states[k], steps[k]) && states[k + 1] == Apply(states[k], steps[k])
  }

  /** Neither delivered, nor spooled, nor in hand any more. */
  ghost predicate Lost(s: State, e: nat) {
    e < s.lo && e !in s.delivered && e !in s.spool
  }

  ghost predicate NothingLost(states: seq<State>) {
    forall k, e | 0 <= k < |states| && 0 <= e < states[k].lo :: !Lost(states[k], e)
  }

  /** The spool has the batch in hand. */
  ghost predicate Spooled(s: State) {
    Range(s.lo, s.hi) <= s.spool
  }

  /** Every batch whose send fails was written to the spool, and no truncation after it succeeds. */
  ghost predicate FailuresSpared(steps: seq<Step>, states: seq<State>)
    requires Run(steps, states)
  {
    forall k, m | 0 <= k < m < |steps| && steps[k] == Send(false) && steps[m].Truncate? ::
      Spooled(states[k]) && !steps[m].ok
  }

  ghost predicate Inv(s: State) {
    && s.lo <= s.hi && (s.phase.Resting? <==> s.lo == s.hi)
    && (s.phase.Writing? ==> s.lo <= s.phase.next < s.hi && forall e | e in s.spool :: e < s.phase.next)
    && (forall e | e in s.spool :: e < s.hi)
    && (forall e | e in s.delivered :: e < if s.phase.Clearing? then s.hi else s.lo)
  }

  lemma {:induction false} AlwaysInv(steps: seq<Step>, states: seq<State>, j: nat)
    requires Run(steps, states) && j < |states|
    ensures Inv(states[j])
  {
    if j > 0 {
      AlwaysInv(steps, states, j - 1);
      assert states[j] == Apply(states[j - 1], steps[j - 1]);
    }
  }

  // ---------------------------------------------------------------- what is lost

  /** A batch whose send failed is never delivered, and never written to the spool again. */
  lemma {:induction false} NeverAgain(steps: seq<Step>, states: seq<State>, k: nat, j: nat, e: nat)
    requires Run(steps, states) && k < j < |states| && steps[k] == Send(false) && states[k].lo <= e < states[k].hi
    ensures e !in states[j].delivered && (e in states[j].spool ==> e in states[k].spool)
    ensures if j == k + 1 then states[j].phase.Clearing? && states[j].hi == states[k].hi else e < states[j].lo
    decreases j
  {
    AlwaysInv(steps, states, j - 1);
    assert Enabled(states[j - 1], steps[j - 1]) && states[j] == Apply(states[j - 1], steps[j - 1]);
    if j > k + 1 {
      NeverAgain(steps, states, k, j - 1, e);
    }
  }

  /** So a truncation that succeeds after a failed send, or ends a batch that was not written, loses it. */
  lemma TruncationLoses(steps: seq<Step>, states: seq<State>, k: nat, m: nat) returns (e: nat)
    requires Run(steps, states) && k < m < |steps| && steps[k] == Send(false) && steps[m].Truncate?
    requires steps[m].ok || !Spooled(states[k])
    ensures Lost(states[m + 1], e)
  {
    AlwaysInv(steps, states, k);
    assert Enabled(states[k], steps[k]) && states[m + 1] == Apply(states[m], steps[m]);
    if steps[m].ok {
      e := states[k].lo;
    } else {
      e :| e in Range(states[k].lo, states[k].hi) && e !in states[k].spool;
    }
    NeverAgain(steps, states, k, m + 1, e);
  }

  ghost predicate FailedBefore(steps: seq<Step>, j: nat)
    requires j <= |steps|
  {
    exists k :: 0 <= k < j && steps[k] == Send(false)
  }

  /** Otherwise every event taken is delivered, or is in the spool after a failed send. */
  ghost predicate Accounted(steps: seq<Step>, s: State, j: nat, e: nat)
    requires j <= |steps|
  {
    e in s.delivered || (e in s.spool && FailedBefore(steps, j))
  }

  lemma BatchAccounted(steps: seq<Step>, states: seq<State>, j: nat, e: nat)
    requires Run(steps, states) && FailuresSpared(steps, states) && j < |steps| && steps[j].Truncate?
    requires states[j].lo <= e < states[j].hi
    ensures Accounted(steps, states[j + 1], j + 1, e)
  {
    assert Enabled(states[j], steps[j]) && states[j + 1] == Apply(states[j], steps[j]);
    assert j > 0 && Enabled(states[j - 1], steps[j - 1]) && states[j] == Apply(states[j - 1], steps[j - 1]);
    assert steps[j - 1].Send?;
    if steps[j - 1] == Send(false) {
      assert Spooled(states[j - 1]) && e in Range(states[j - 1].lo, states[j - 1].hi);
    } else {
      assert e in Range(states[j - 1].lo, states[j - 1].hi);
    }
  }

  lemma {:induction false} AllAccounted(steps: seq<Step>, states: seq<State>, j: nat, e: nat)
    requires Run(steps, states) && FailuresSpared(steps, states) && j < |states| && e < states[j].lo
    ensures Accounted(steps, states[j], j, e)
  {
    if j > 0 {
      assert Enabled(states[j - 1], steps[j - 1]) && states[j] == Apply(states[j - 1], steps[j - 1]);
      if e < states[j - 1].lo {
        AllAccounted(steps, states, j - 1, e);
        if e !in states[j - 1].delivered {
          var k :| 0 <= k < j - 1 && steps[k] == Send(false);
          assert FailedBefore(steps, j);
        }
      } else {
        BatchAccounted(steps, states, j - 1, e);
      }
    }
  }

  /** In every run no event is lost exactly when every batch whose send fails was written to the spool
      and no truncation after it succeeds. The shipper truncates after every batch. */
  lemma NothingLostIff(steps: seq<Step>, states: seq<State>)
    requires Run(steps, states)
    ensures NothingLost(states) <==> FailuresSpared(steps, states)
  {
    if FailuresSpared(steps, states) {
      forall k, e | 0 <= k < |states| && 0 <= e < states[k].lo
        ensures !Lost(states[k], e)
      {
        AllAccounted(steps, states, k, e);
      }
    } else {
      var k, m :| 0 <= k < m < |steps| && steps[k] == Send(false) && steps[m].Truncate?
                  && (steps[m].ok || !Spooled(states[k]));
      var e := TruncationLoses(steps, states, k, m);
    }
  }

  /** One event, written, not sent, and truncated. */
  lemma FailedSendLoses() returns (steps: seq<Step>, states: seq<State>)
    ensures Run(steps, states) && steps == [Begin(1), Write(true), Send(false), Truncate(true)] && Lost(states[4], 0)
  {
    var s1 := Apply(Empty, Begin(1));
    var s2 := Apply(s1, Write(true));
    var s3 := Apply(s2, Send(false));
    var s4 := Apply(s3, Truncate(true));
    steps, states := [Begin(1), Write(true), Send(false), Truncate(true)], [Empty, s1, s2, s3, s4];
  }
}
