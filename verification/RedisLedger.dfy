/**
 The Redis-backed counter of one key. A reservation increments first and takes the increment
 back in a second command if the result was over the limit, so the stored value may overshoot
 while commands of different nodes interleave. Commands may fail, and the key may expire.
 */
module RedisLedger {
  import opened Common

  datatype Call =
    | Undoing(amount: int)              // incremented past the limit, not yet taken back
    | Granted(amount: int)              // reserved
    | Refused                           // taken back
    | Settled(amount: int, actual: int) // reconciled with the actual usage

  datatype State = State(stored: int, calls: seq<Call>)

  datatype Step =
    | IncrBy(amount: int, limit: int)   // first command of Reserve
    | TakeBack(i: nat)                  // second command of a refused Reserve
    | Reconcile(i: nat, actual: int)    // the single command of Reconcile
    | LoseUndo(i: nat)                  // the second command of a refused Reserve fails
    | LoseReply(amount: int)            // the first one takes effect, but its caller sees an error
    | LoseSettle(i: nat, actual: int)   // the command of Reconcile fails
    | SettleOther(delta: int)           // Reconcile of a reservation that a local store had granted
    | Expire                            // the key is gone

  ghost predicate Enabled(s: State, step: Step) {
    match step
    case IncrBy(amount, _) => amount > 0
    case TakeBack(i) => i < |s.calls| && s.calls[i].Undoing?
    case Reconcile(i, _) => i < |s.calls| && s.calls[i].Granted?
    case LoseUndo(i) => i < |s.calls| && s.calls[i].Undoing?
    case LoseReply(amount) => amount > 0
    case LoseSettle(i, _) => i < |s.calls| && s.calls[i].Granted?
    case _ => true
  }

  ghost function Apply(s: State, step: Step): State
    requires Enabled(s, step)
  {
    match step
    case IncrBy(amount, limit) =>
      var newVal := s.stored + amount;
      State(newVal, s.calls + [if newVal > limit then Undoing(amount) else Granted(amount)])
    case TakeBack(i) => State(s.stored - s.calls[i].amount, s.calls[i := Refused])
    case Reconcile(i, actual) =>
      State(s.stored + (actual - s.calls[i].amount), s.calls[i := Settled(s.calls[i].amount, actual)])
    case LoseUndo(i) => s.(calls := s.calls[i := Refused])
    case LoseReply(amount) => s.(stored := s.stored + amount)
    case LoseSettle(i, actual) => s.(calls := s.calls[i := Settled(s.calls[i].amount, actual)])
    case SettleOther(delta) => s.(stored := s.stored + delta)
    case Expire => s.(stored := 0)
  }

  ghost predicate Faultless(step: Step) {
    step.IncrBy? || step.TakeBack? || step.Reconcile?
  }

  ghost predicate Legal(s: State, steps: seq<Step>)
    decreases |steps|
  {
    |steps| == 0 || (Enabled(s, steps[0]) && Legal(Apply(s, steps[0]), steps[1..]))
  }

  ghost function Exec(s: State, steps: seq<Step>): State
    requires Legal(s, steps)
    decreases |steps|
  {
    if |steps| == 0 then s else Exec(Apply(s, steps[0]), steps[1..])
  }

  /** What a call has really been given: its reservation, or its usage once settled. */
  function GivenTo(c: Call): int {
    match c
    case Granted(amount) => amount
    case Settled(_, actual) => actual
    case _ => 0
  }

  /** What a refused call still has to take back. */
  function PendingOf(c: Call): int {
    if c.Undoing? then c.amount else 0
  }

  ghost function Gifts(calls: seq<Call>): seq<int> {
    seq(|calls|, i requires 0 <= i < |calls| => GivenTo(calls[i]))
  }

  ghost function Debts(calls: seq<Call>): seq<int> {
    seq(|calls|, i requires 0 <= i < |calls| => PendingOf(calls[i]))
  }

  ghost function Given(calls: seq<Call>): int {
    Sum(Gifts(calls))
  }

  ghost function Pending(calls: seq<Call>): int {
    Sum(Debts(calls))
  }

  lemma Appended(calls: seq<Call>, c: Call)
    ensures Given(calls + [c]) == Given(calls) + GivenTo(c) && Pending(calls + [c]) == Pending(calls) + PendingOf(c)
  {
    assert Gifts(calls + [c]) == Gifts(calls) + [GivenTo(c)];
    assert Debts(calls + [c]) == Debts(calls) + [PendingOf(c)];
    SumAppend(Gifts(calls), GivenTo(c));
    SumAppend(Debts(calls), PendingOf(c));
  }

  lemma Replaced(calls: seq<Call>, i: nat, c: Call)
    requires i < |calls|
    ensures Given(calls[i := c]) == Given(calls) - GivenTo(calls[i]) + GivenTo(c)
    ensures Pending(calls[i := c]) == Pending(calls) - PendingOf(calls[i]) + PendingOf(c)
  {
    assert Gifts(calls[i := c]) == Gifts(calls)[i := GivenTo(c)];
    assert Debts(calls[i := c]) == Debts(calls)[i := PendingOf(c)];
    SumUpdate(Gifts(calls), i, GivenTo(c));
    SumUpdate(Debts(calls), i, PendingOf(c));
  }

  /** What is stored beyond what was given and what is still to be taken back. */
  ghost function Skew(s: State): int {
    s.stored - Given(s.calls) - Pending(s.calls)
  }

  ghost predicate Sane(s: State) {
    forall i | 0 <= i < |s.calls| :: PendingOf(s.calls[i]) >= 0
  }

  lemma PendingNonNegative(s: State)
    requires Sane(s)
    ensures Pending(s.calls) >= 0
  {
    var zeros := seq(|s.calls|, i => 0);
    SumZero(zeros);
    SumMonotone(zeros, Debts(s.calls));
  }

  /** What a step adds to the skew: nothing, unless a command fails or goes astray or the key expires. */
  ghost function Fault(s: State, step: Step): int
    requires Enabled(s, step)
  {
    match step
    case LoseUndo(i) => s.calls[i].amount
    case LoseReply(amount) => amount
    case LoseSettle(i, actual) => s.calls[i].amount - actual
    case SettleOther(delta) => delta
    case Expire => -s.stored
    case _ => 0
  }

  lemma StepMovesSkew(s: State, step: Step)
    requires Sane(s) && Enabled(s, step)
    ensures Sane(Apply(s, step)) && Skew(Apply(s, step)) == Skew(s) + Fault(s, step)
  {
    match step
    case IncrBy(amount, _) => Appended(s.calls, Apply(s, step).calls[|s.calls|]);
    case TakeBack(i) => Replaced(s.calls, i, Refused);
    case Reconcile(i, actual) => Replaced(s.calls, i, Settled(s.calls[i].amount, actual));
    case LoseUndo(i) => Replaced(s.calls, i, Refused);
    case LoseSettle(i, actual) => Replaced(s.calls, i, Settled(s.calls[i].amount, actual));
    case _ =>
  }

  ghost function Faults(s: State, steps: seq<Step>): int
    requires Legal(s, steps)
    decreases |steps|
  {
    if |steps| == 0 then 0 else Fault(s, steps[0]) + Faults(Apply(s, steps[0]), steps[1..])
  }

  /** After every run the stored value is what was given, what is still to be taken back and the sum
      of the faults. */
  lemma {:induction false} StoredAccountsFor(s: State, steps: seq<Step>)
    requires Sane(s) && Legal(s, steps)
    ensures var s' := Exec(s, steps);
            Sane(s') && s'.stored == Given(s'.calls) + Pending(s'.calls) + Skew(s) + Faults(s, steps)
    decreases |steps|
  {
    if |steps| > 0 {
      StepMovesSkew(s, steps[0]);
      StoredAccountsFor(Apply(s, steps[0]), steps[1..]);
    }
  }

  // ---------------------------------------------------------------- who is refused

  /** The request at the end of a run is refused. */
  ghost predicate IsRefused(s: State, amount: int, limit: int)
    requires amount > 0
  {
    Apply(s, IncrBy(amount, limit)).calls[|s.calls|].Undoing?
  }

  /** After every run a request is refused exactly when what was given, what is still to be taken
      back, the faults and the request together exceed the limit. So a request that fits what was
      really given is refused exactly when undos and faults exceed the room it leaves. */
  lemma RefusedIff(s: State, steps: seq<Step>, amount: int, limit: int)
    requires Sane(s) && Skew(s) == 0 && Legal(s, steps) && amount > 0
    ensures var s' := Exec(s, steps);
            var beyond := Pending(s'.calls) + Faults(s, steps);
            && Pending(s'.calls) >= 0
            && (IsRefused(s', amount, limit) <==> Given(s'.calls) + beyond + amount > limit)
            && (Given(s'.calls) + amount <= limit ==>
                  (IsRefused(s', amount, limit) <==> beyond > limit - Given(s'.calls) - amount))
  {
    StoredAccountsFor(s, steps);
    PendingNonNegative(Exec(s, steps));
  }

  // ---------------------------------------------------------------- staying within the limit

  /** Reservations ask within the limit and nobody uses more than it reserved. */
  ghost predicate Within(s: State, step: Step, limit: int) {
    match step
    case IncrBy(_, asked) => asked <= limit
    case Reconcile(i, actual) => i < |s.calls| && s.calls[i].Granted? ==> actual <= s.calls[i].amount
    case LoseSettle(i, actual) => i < |s.calls| && s.calls[i].Granted? ==> actual <= s.calls[i].amount
    case _ => true
  }

  ghost predicate RunWithin(s: State, steps: seq<Step>, limit: int)
    requires Legal(s, steps)
    decreases |steps|
  {
    |steps| == 0 || (Within(s, steps[0], limit) && RunWithin(Apply(s, steps[0]), steps[1..], limit))
  }

  ghost predicate Inv(s: State, limit: int) {
    Sane(s) && Given(s.calls) <= limit
  }

  /** A store that shows at least what was given lets nobody past the limit. */
  lemma StepKeepsInv(s: State, step: Step, limit: int)
    requires Inv(s, limit) && Skew(s) >= 0 && Enabled(s, step) && Within(s, step, limit)
    ensures Inv(Apply(s, step), limit)
  {
    PendingNonNegative(s);
    StepMovesSkew(s, step);
    match step
    case IncrBy(amount, _) => Appended(s.calls, Apply(s, step).calls[|s.calls|]);
    case TakeBack(i) => Replaced(s.calls, i, Refused);
    case Reconcile(i, actual) => Replaced(s.calls, i, Settled(s.calls[i].amount, actual));
    case LoseUndo(i) => Replaced(s.calls, i, Refused);
    case LoseSettle(i, actual) => Replaced(s.calls, i, Settled(s.calls[i].amount, actual));
    case _ =>
  }

  /** The faults, added to those so far, never come to less than nothing. */
  ghost predicate NeverShort(s: State, steps: seq<Step>, sofar: int)
    requires Legal(s, steps)
    decreases |steps|
  {
    && sofar >= 0
    && (|steps| > 0 ==> NeverShort(Apply(s, steps[0]), steps[1..], sofar + Fault(s, steps[0])))
  }

  /** Under any interleaving in which the faults never add up to less than nothing, the amount really
      given never exceeds the limit; the stored value exceeds it by at most undos and faults. */
  lemma {:induction false} NeverOverGranted(s: State, steps: seq<Step>, limit: int)
    requires Inv(s, limit) && Legal(s, steps) && RunWithin(s, steps, limit) && NeverShort(s, steps, Skew(s))
    ensures var s' := Exec(s, steps);
            Inv(s', limit) && s'.stored <= limit + Pending(s'.calls) + Skew(s) + Faults(s, steps)
    decreases |steps|
  {
    StoredAccountsFor(s, steps);
    if |steps| > 0 {
      StepKeepsInv(s, steps[0], limit);
      StepMovesSkew(s, steps[0]);
      NeverOverGranted(Apply(s, steps[0]), steps[1..], limit);
    }
  }

  lemma EmptyInv(limit: nat)
    ensures Inv(State(0, []), limit) && Skew(State(0, [])) == 0
  {
  }

  // ---------------------------------------------------------------- after faults

  ghost predicate AllFaultless(steps: seq<Step>) {
    forall i | 0 <= i < |steps| :: Faultless(steps[i])
  }

  /** However the run goes on without further faults, nobody gets past the limit. */
  ghost predicate SafeFrom(s: State, limit: int) {
    forall steps | Legal(s, steps) && AllFaultless(steps) && RunWithin(s, steps, limit) ::
      Given(Exec(s, steps).calls) <= limit
  }

  lemma {:induction false} FaultlessNeverShort(s: State, steps: seq<Step>)
    requires Sane(s) && Skew(s) >= 0 && Legal(s, steps) && AllFaultless(steps)
    ensures NeverShort(s, steps, Skew(s))
    decreases |steps|
  {
    if |steps| > 0 {
      StepMovesSkew(s, steps[0]);
      FaultlessNeverShort(Apply(s, steps[0]), steps[1..]);
    }
  }

  lemma FirstThen(s: State, step: Step, rest: seq<Step>, limit: int)
    requires Enabled(s, step) && Faultless(step) && Within(s, step, limit)
    requires Legal(Apply(s, step), rest) && AllFaultless(rest) && RunWithin(Apply(s, step), rest, limit)
    ensures var steps := [step] + rest;
            && Legal(s, steps) && AllFaultless(steps) && RunWithin(s, steps, limit)
            && Exec(s, steps) == Exec(Apply(s, step), rest)
  {
    assert ([step] + rest)[1..] == rest;
  }

  /** When the store shows less than what was given, taking back the open undos and asking for the
      rest it shows gives more than the limit. */
  lemma {:induction false} ShortOverGrants(s: State, i: nat, limit: int) returns (steps: seq<Step>)
    requires Inv(s, limit) && Skew(s) < 0 && i <= |s.calls|
    requires forall j | 0 <= j < i :: !s.calls[j].Undoing?
    ensures Legal(s, steps) && AllFaultless(steps) && RunWithin(s, steps, limit)
    ensures Given(Exec(s, steps).calls) > limit
    decreases |s.calls| - i
  {
    if i == |s.calls| {
      SumZero(Debts(s.calls));
      var ask := IncrBy(limit - s.stored, limit);
      Appended(s.calls, Granted(limit - s.stored));
      FirstThen(s, ask, [], limit);
      steps := [ask] + [];
    } else if s.calls[i].Undoing? {
      StepMovesSkew(s, TakeBack(i));
      Replaced(s.calls, i, Refused);
      var rest := ShortOverGrants(Apply(s, TakeBack(i)), i + 1, limit);
      FirstThen(s, TakeBack(i), rest, limit);
      steps := [TakeBack(i)] + rest;
    } else {
      steps := ShortOverGrants(s, i + 1, limit);
    }
  }

  /** From a state within the limit, every faultless continuation stays within it exactly when the
      store shows at least what was given. */
  lemma SafeIff(s: State, limit: int)
    requires Inv(s, limit)
    ensures SafeFrom(s, limit) <==> Skew(s) >= 0
  {
    if Skew(s) < 0 {
      var steps := ShortOverGrants(s, 0, limit);
    } else {
      forall steps | Legal(s, steps) && AllFaultless(steps) && RunWithin(s, steps, limit)
        ensures Given(Exec(s, steps).calls) <= limit
      {
        FaultlessNeverShort(s, steps);
        NeverOverGranted(s, steps, limit);
      }
    }
  }

  /** Every state of a run is safe to go on from. */
  ghost predicate Robust(s: State, steps: seq<Step>, limit: int)
    requires Legal(s, steps)
    decreases |steps|
  {
    SafeFrom(s, limit) && (|steps| > 0 ==> Robust(Apply(s, steps[0]), steps[1..], limit))
  }

  /** A run with faults leaves the limit safe throughout exactly when its faults never add up to less
      than nothing: lost undos, replies and settlements are harmless, while a settlement below the
      reservation of a local store and a key that expires are not. */
  lemma {:induction false} RobustIff(s: State, steps: seq<Step>, limit: int)
    requires Inv(s, limit) && Legal(s, steps) && RunWithin(s, steps, limit)
    ensures Robust(s, steps, limit) <==> NeverShort(s, steps, Skew(s))
    decreases |steps|
  {
    SafeIff(s, limit);
    if |steps| > 0 && Skew(s) >= 0 {
      StepKeepsInv(s, steps[0], limit);
      StepMovesSkew(s, steps[0]);
      RobustIff(Apply(s, steps[0]), steps[1..], limit);
    }
  }

  /** A reservation granted locally and settled here at nothing: the limit is then granted twice. */
  lemma StraySettlementGrantsTwice(limit: int) returns (steps: seq<Step>)
    requires limit > 0
    ensures steps == [SettleOther(-limit), IncrBy(limit, limit), IncrBy(limit, limit)]
    ensures Legal(State(0, []), steps) && Given(Exec(State(0, []), steps).calls) == 2 * limit
  {
    steps := [SettleOther(-limit), IncrBy(limit, limit), IncrBy(limit, limit)];
    var s0 := State(0, []);
    var s1 := Apply(s0, steps[0]);
    var s2 := Apply(s1, steps[1]);
    var s3 := Apply(s2, steps[2]);
    assert steps[1..][1..] == steps[2..] && steps[2..][1..] == [];
    assert Legal(s3, []) && Legal(s2, steps[2..]) && Legal(s1, steps[1..]);
    assert Exec(s2, steps[2..]) == s3;
    assert Exec(s1, steps[1..]) == Exec(s2, steps[1..][1..]);
    Appended([], Granted(limit));
    Appended([] + [Granted(limit)], Granted(limit));
  }

  /** The overshoot is real and costs availability: with 7 granted out of 10 and a request of 5 in
      the middle of being refused, a request of 3 that would fit exactly is refused as well. */
  lemma OvershootRefusesFittingRequest()
    ensures var steps := [IncrBy(7, 10), IncrBy(5, 10)];
            && Legal(State(0, []), steps)
            && var s := Exec(State(0, []), steps);
               s.stored == 12 && Given(s.calls) + 3 <= 10 && Pending(s.calls) == 5 && IsRefused(s, 3, 10)
  {
    var s0 := State(0, []);
    var steps := [IncrBy(7, 10), IncrBy(5, 10)];
    var s1 := Apply(s0, steps[0]);
    var s2 := Apply(s1, steps[1]);
    assert s1.calls == [Granted(7)] && s2.calls == [Granted(7)] + [Undoing(5)];
    assert steps[1..][1..] == [];
    assert Legal(s2, []) && Legal(s1, steps[1..]) && Exec(s1, steps[1..]) == s2;
    Appended([], Granted(7));
    Appended([Granted(7)], Undoing(5));
    assert [] + [Granted(7)] == [Granted(7)];
    RefusedIff(s0, steps, 3, 10);
  }
}
