/**
 The database bulkhead: two bounded channels used as semaphores, one for running queries and one
 for the queue in front of them. Every channel operation is one step of its caller.
 */
module Bulkhead {
  import opened Common

  datatype Caller =
    | Arriving      // in front of the fast path
    | Overflowing   // no free slot, about to ask for a queue place
    | Waiting       // has a queue place, waits for a slot or its deadline
    | LeavingServed // has a slot, still has its queue place
    | LeavingLate   // deadline passed, still has its queue place
    | Running       // has a slot
    | Done(outcome: Outcome)

  datatype Outcome = Released | Exhausted | Expired

  datatype State = State(active: int, queued: int, callers: seq<Caller>)

  datatype Limits = Limits(maxConcurrent: int, maxQueue: int)

  /** NewBulkhead: non-positive sizes fall back to 50 and 100. */
  function Effective(maxConcurrent: int, maxQueue: int): (lim: Limits)
    ensures lim.maxConcurrent > 0 && lim.maxQueue > 0
    ensures maxConcurrent > 0 ==> lim.maxConcurrent == maxConcurrent
    ensures maxQueue > 0 ==> lim.maxQueue == maxQueue
  {
    Limits(if maxConcurrent <= 0 then 50 else maxConcurrent, if maxQueue <= 0 then 100 else maxQueue)
  }

  datatype Step =
    | Arrive
    | Go(i: nat)         // the caller's next channel operation
    | DeadlineHit(i: nat) // a waiting caller sees its context expire

  /** Whether the caller's next operation can run: a waiting caller needs a free slot, and a
      receive needs something to receive. */
  ghost predicate CanGo(lim: Limits, s: State, c: Caller) {
    match c
    case Arriving => true
    case Overflowing => true
    case Waiting => s.active < lim.maxConcurrent
    case LeavingServed => s.queued > 0
    case LeavingLate => s.queued > 0
    case Running => s.active > 0
    case Done(_) => false
  }

  ghost predicate Enabled(lim: Limits, s: State, step: Step) {
    match step
    case Arrive => true
    case Go(i) => i < |s.callers| && CanGo(lim, s, s.callers[i])
    case DeadlineHit(i) => i < |s.callers| && s.callers[i].Waiting?
  }

  ghost function Apply(lim: Limits, s: State, step: Step): State
    requires Enabled(lim, s, step)
  {
    match step
    case Arrive => s.(callers := s.callers + [Arriving])
    case DeadlineHit(i) => s.(callers := s.callers[i := LeavingLate])
    case Go(i) =>
      (match s.callers[i]
       case Arriving =>
         if s.active < lim.maxConcurrent then State(s.active + 1, s.queued, s.callers[i := Running])
         else s.(callers := s.callers[i := Overflowing])
       case Overflowing =>
         if s.queued < lim.maxQueue then State(s.active, s.queued + 1, s.callers[i := Waiting])
         else s.(callers := s.callers[i := Done(Exhausted)])
       case Waiting => State(s.active + 1, s.queued, s.callers[i := LeavingServed])
       case LeavingServed => State(s.active, s.queued - 1, s.callers[i := Running])
       case LeavingLate => State(s.active, s.queued - 1, s.callers[i := Done(Expired)])
       case Running => State(s.active - 1, s.queued, s.callers[i := Done(Released)])
       case Done(_) => s)
  }

  ghost predicate Legal(lim: Limits, s: State, steps: seq<Step>)
    decreases |steps|
  {
    |steps| == 0 || (Enabled(lim, s, steps[0]) && Legal(lim, Apply(lim, s, steps[0]), steps[1..]))
  }

  ghost function Exec(lim: Limits, s: State, steps: seq<Step>): State
    requires Legal(lim, s, steps)
    decreases |steps|
  {
    if |steps| == 0 then s else Exec(lim, Apply(lim, s, steps[0]), steps[1..])
  }

  /** Between acquiring a slot and releasing it. */
  ghost function SlotOf(c: Caller): int {
    if c.Running? || c.LeavingServed? then 1 else 0
  }

  /** Inside the waiting section. */
  ghost function PlaceOf(c: Caller): int {
    if c.Waiting? || c.LeavingServed? || c.LeavingLate? then 1 else 0
  }

  ghost function Slots(callers: seq<Caller>): seq<int> {
    seq(|callers|, i requires 0 <= i < |callers| => SlotOf(callers[i]))
  }

  ghost function Places(callers: seq<Caller>): seq<int> {
    seq(|callers|, i requires 0 <= i < |callers| => PlaceOf(callers[i]))
  }

  ghost predicate Inv(lim: Limits, s: State) {
    && s.active == Sum(Slots(s.callers)) <= lim.maxConcurrent
    && s.queued == Sum(Places(s.callers)) <= lim.maxQueue
  }

  lemma CountsUpdate(callers: seq<Caller>, i: nat, c: Caller)
    requires i < |callers|
    ensures Sum(Slots(callers[i := c])) == Sum(Slots(callers)) - SlotOf(callers[i]) + SlotOf(c)
    ensures Sum(Places(callers[i := c])) == Sum(Places(callers)) - PlaceOf(callers[i]) + PlaceOf(c)
  {
    assert Slots(callers[i := c]) == Slots(callers)[i := SlotOf(c)];
    assert Places(callers[i := c]) == Places(callers)[i := PlaceOf(c)];
    SumUpdate(Slots(callers), i, SlotOf(c));
    SumUpdate(Places(callers), i, PlaceOf(c));
  }

  /** A caller's move takes and returns exactly what the caller then has or no longer has. */
  lemma MoveCounts(lim: Limits, s: State, step: Step)
    requires Enabled(lim, s, step) && !step.Arrive?
    ensures var s', i := Apply(lim, s, step), step.i;
            && |s'.callers| == |s.callers| && s'.callers == s.callers[i := s'.callers[i]]
            && s'.active == s.active - SlotOf(s.callers[i]) + SlotOf(s'.callers[i])
            && s'.queued == s.queued - PlaceOf(s.callers[i]) + PlaceOf(s'.callers[i])
            && (s'.active <= s.active || s'.active <= lim.maxConcurrent)
            && (s'.queued <= s.queued || s'.queued <= lim.maxQueue)
  {
  }

  lemma StepKeepsInv(lim: Limits, s: State, step: Step)
    requires Inv(lim, s) && Enabled(lim, s, step)
    ensures Inv(lim, Apply(lim, s, step))
  {
    var s' := Apply(lim, s, step);
    if step.Arrive? {
      assert Slots(s'.callers) == Slots(s.callers) + [0];
      assert Places(s'.callers) == Places(s.callers) + [0];
      SumAppend(Slots(s.callers), 0);
      SumAppend(Places(s.callers), 0);
    } else {
      MoveCounts(lim, s, step);
      CountsUpdate(s.callers, step.i, s'.callers[step.i]);
    }
  }

  lemma {:induction false} SomeoneHas(flags: seq<int>) returns (i: nat)
    requires Sum(flags) > 0
    ensures i < |flags| && flags[i] > 0
  {
    if flags[|flags| - 1] > 0 {
      i := |flags| - 1;
    } else {
      i := SomeoneHas(flags[..|flags| - 1]);
    }
  }

  /** Who has a slot or a queue place never blocks giving it back. */
  lemma GivingBackNeverBlocks(lim: Limits, s: State, i: nat)
    requires Inv(lim, s) && i < |s.callers|
    requires s.callers[i].Running? || s.callers[i].LeavingServed? || s.callers[i].LeavingLate?
    ensures Enabled(lim, s, Go(i))
  {
    if s.callers[i].Running? {
      SumAtLeast(Slots(s.callers), i);
    } else {
      SumAtLeast(Places(s.callers), i);
    }
  }

  /** In every reachable state the slots and places in use are exactly those of the callers that
      own them, within the limits; and a state with a waiting caller is never stuck: the waiter
      can take a slot, or a slot owner can move on. */
  lemma {:induction false} BulkheadIsSound(lim: Limits, s: State, steps: seq<Step>, waiter: nat)
    requires lim.maxConcurrent > 0 && lim.maxQueue > 0
    requires Inv(lim, s) && Legal(lim, s, steps)
    ensures var s' := Exec(lim, s, steps);
            && Inv(lim, s')
            && (waiter < |s'.callers| && s'.callers[waiter].Waiting? ==>
                  || Enabled(lim, s', Go(waiter))
                  || exists i :: 0 <= i < |s'.callers| && SlotOf(s'.callers[i]) == 1 && Enabled(lim, s', Go(i)))
    decreases |steps|
  {
    if |steps| > 0 {
      StepKeepsInv(lim, s, steps[0]);
      BulkheadIsSound(lim, Apply(lim, s, steps[0]), steps[1..], waiter);
    } else if waiter < |s.callers| && s.callers[waiter].Waiting? && s.active == lim.maxConcurrent {
      var i := SomeoneHas(Slots(s.callers));
      GivingBackNeverBlocks(lim, s, i);
    }
  }

  /** When every caller is done, all slots and places are free again. */
  lemma AllReturned(lim: Limits, s: State)
    requires Inv(lim, s) && forall i | 0 <= i < |s.callers| :: s.callers[i].Done?
    ensures s.active == 0 && s.queued == 0
  {
    SumZero(Slots(s.callers));
    SumZero(Places(s.callers));
  }

  lemma EmptyInv(lim: Limits)
    requires lim.maxConcurrent > 0 && lim.maxQueue > 0
    ensures Inv(lim, State(0, 0, []))
  {
  }
}
