/**
 The pool of warm Wasm instances under concurrent Get, Put and Close. Every atomic load or store,
 channel operation and module close is one step of its thread; steps interleave freely.
 */
module WasmPool {
  import opened Common

  type Instance = nat

  datatype Thread =
    | Admitted                  // Get saw the pool open
    | Choosing                  // Get counted itself as a borrower
    | Creating                  // Get found the pool empty
    | GivingUp                  // Get failed, still counted
    | Using(inst: Instance)     // the caller works with the instance
    | Returning(inst: Instance) // Put uncounted the borrower
    | Offering(inst: Instance)  // Put saw the pool open and the instance sound
    | Sent                      // Put placed the instance in the channel
    | Redraining                // Put then saw the pool closed
    | Closing(inst: Instance)   // about to close a module
    | Gone

  /** Where Close is: it drains the channel and then closes the runtime with all its modules. */
  datatype Closer = Open | Draining | ClosingOne(inst: Instance) | Drained | Shut

  /** `closes` are the pool's own module closes; the first `shut` instances were closed with the runtime. */
  datatype State = State(
    pool: seq<Instance>, closed: bool, closer: Closer, created: nat, shut: nat,
    faulted: set<Instance>, closes: seq<Instance>, borrows: int, threads: seq<Thread>)

  datatype Choice = Proceed | CtxDone | Receive | Fail | Fault

  datatype Step =
    | CallGet
    | Do(i: nat, choice: Choice)
    | CloseStep

  // ---------------------------------------------------------------- steps

  ghost predicate ChoiceFits(s: State, t: Thread, choice: Choice) {
    match t
    case Choosing => choice.CtxDone? || (choice.Receive? && s.pool != []) || (choice.Proceed? && s.pool == [])
    case Creating => choice.Fail? || (choice.Proceed? && !s.closer.Shut?) // a closed runtime instantiates nothing
    case Using(_) => choice.Proceed? || choice.Fault?
    case Gone => false
    case _ => choice.Proceed?
  }

  ghost predicate Enabled(s: State, step: Step) {
    match step
    case CallGet => true
    case Do(i, choice) => i < |s.threads| && ChoiceFits(s, s.threads[i], choice)
    case CloseStep => !s.closer.Shut?
  }

  ghost function Moved(s: State, i: nat, t: Thread): State
    requires i < |s.threads|
  {
    s.(threads := s.threads[i := t])
  }

  ghost function DoStep(cap: nat, s: State, i: nat, choice: Choice): State
    requires i < |s.threads| && ChoiceFits(s, s.threads[i], choice)
  {
    match s.threads[i]
    case Admitted => Moved(s, i, Choosing).(borrows := s.borrows + 1)
    case Choosing =>
      if choice.CtxDone? then Moved(s, i, GivingUp)
      else if choice.Receive? then Moved(s, i, Using(s.pool[0])).(pool := s.pool[1..])
      else Moved(s, i, Creating)
    case Creating =>
      if choice.Fail? then Moved(s, i, GivingUp)
      else Moved(s, i, Using(s.created)).(created := s.created + 1)
    case GivingUp => Moved(s, i, Gone).(borrows := s.borrows - 1)
    case Using(inst) =>
      if choice.Fault? then s.(faulted := s.faulted + {inst})
      else Moved(s, i, Returning(inst)).(borrows := s.borrows - 1)
    case Returning(inst) => Moved(s, i, if s.closed || inst in s.faulted then Closing(inst) else Offering(inst))
    case Offering(inst) =>
      if |s.pool| < cap then Moved(s, i, Sent).(pool := s.pool + [inst])
      else Moved(s, i, Closing(inst))
    case Sent => Moved(s, i, if s.closed then Redraining else Gone)
    case Redraining =>
      if s.pool != [] then Moved(s, i, Closing(s.pool[0])).(pool := s.pool[1..]) else Moved(s, i, Gone)
    case Closing(inst) => Moved(s, i, Gone).(closes := s.closes + [inst])
    case Gone => s
  }

  ghost function CloserStep(s: State): State {
    match s.closer
    case Open => s.(closed := true, closer := Draining)
    case Draining =>
      if s.pool != [] then s.(closer := ClosingOne(s.pool[0]), pool := s.pool[1..]) else s.(closer := Drained)
    case ClosingOne(inst) => s.(closer := Draining, closes := s.closes + [inst])
    case Drained => s.(closer := Shut, shut := s.created)
    case Shut => s
  }

  ghost function Apply(cap: nat, s: State, step: Step): State
    requires Enabled(s, step)
  {
    match step
    case CallGet => if s.closed then s else s.(threads := s.threads + [Admitted])
    case Do(i, choice) => DoStep(cap, s, i, choice)
    case CloseStep => CloserStep(s)
  }

  ghost predicate Legal(cap: nat, s: State, steps: seq<Step>)
    decreases |steps|
  {
    |steps| == 0 || (Enabled(s, steps[0]) && Legal(cap, Apply(cap, s, steps[0]), steps[1..]))
  }

  ghost function Exec(cap: nat, s: State, steps: seq<Step>): State
    requires Legal(cap, s, steps)
    decreases |steps|
  {
    if |steps| == 0 then s else Exec(cap, Apply(cap, s, steps[0]), steps[1..])
  }

  /** A pool pre-warmed with up to two instances. */
  ghost function NewPool(warm: nat): State {
    State(seq(warm, i => i), false, Open, warm, 0, {}, [], 0, [])
  }

  // ---------------------------------------------------------------- where an instance is

  ghost predicate Holds(t: Thread, x: Instance) {
    (t.Using? || t.Returning? || t.Offering? || t.Closing?) && t.inst == x
  }

  ghost function Holders(threads: seq<Thread>, x: Instance): seq<int> {
    seq(|threads|, i requires 0 <= i < |threads| => if Holds(threads[i], x) then 1 else 0)
  }

  /** How often an instance occurs in a list. */
  ghost function Occurs(list: seq<Instance>, x: Instance): nat {
    if list == [] then 0 else (if list[0] == x then 1 else 0) + Occurs(list[1..], x)
  }

  lemma {:induction false} OccursAppended(list: seq<Instance>, inst: Instance, x: Instance)
    ensures Occurs(list + [inst], x) == Occurs(list, x) + if inst == x then 1 else 0
  {
    if list != [] {
      assert (list + [inst])[1..] == list[1..] + [inst];
      OccursAppended(list[1..], inst, x);
    }
  }

  lemma {:induction false} OccursIn(list: seq<Instance>, x: Instance)
    ensures x in list <==> Occurs(list, x) > 0
  {
    if list != [] {
      assert list == [list[0]] + list[1..];
      OccursIn(list[1..], x);
    }
  }

  /** In how many places an instance is: the channel, the threads, the closer, the closed ones. */
  ghost function Places(s: State, x: Instance): int {
    Occurs(s.pool, x) + Sum(Holders(s.threads, x)) + (if s.closer == ClosingOne(x) then 1 else 0) + Occurs(s.closes, x)
  }

  lemma HoldersUpdate(threads: seq<Thread>, i: nat, t: Thread, x: Instance)
    requires i < |threads|
    ensures Sum(Holders(threads[i := t], x))
            == Sum(Holders(threads, x)) - (if Holds(threads[i], x) then 1 else 0) + (if Holds(t, x) then 1 else 0)
  {
    var h := if Holds(t, x) then 1 else 0;
    assert Holders(threads[i := t], x) == Holders(threads, x)[i := h];
    SumUpdate(Holders(threads, x), i, h);
  }

  ghost predicate IsBorrower(t: Thread) {
    t.Choosing? || t.Creating? || t.GivingUp? || t.Using?
  }

  /** A thread that will take an instance out of the channel of a closed pool. */
  ghost predicate WillRedrain(t: Thread) {
    t.Sent? || t.Redraining?
  }

  ghost function Borrowers(threads: seq<Thread>): seq<int> {
    seq(|threads|, i requires 0 <= i < |threads| => if IsBorrower(threads[i]) then 1 else 0)
  }

  ghost function Redrainers(threads: seq<Thread>): seq<int> {
    seq(|threads|, i requires 0 <= i < |threads| => if WillRedrain(threads[i]) then 1 else 0)
  }

  lemma CountsUpdate(threads: seq<Thread>, i: nat, t: Thread)
    requires i < |threads|
    ensures Sum(Borrowers(threads[i := t]))
            == Sum(Borrowers(threads)) - (if IsBorrower(threads[i]) then 1 else 0) + (if IsBorrower(t) then 1 else 0)
    ensures Sum(Redrainers(threads[i := t]))
            == Sum(Redrainers(threads)) - (if WillRedrain(threads[i]) then 1 else 0) + (if WillRedrain(t) then 1 else 0)
  {
    var b, r := if IsBorrower(t) then 1 else 0, if WillRedrain(t) then 1 else 0;
    assert Borrowers(threads[i := t]) == Borrowers(threads)[i := b];
    assert Redrainers(threads[i := t]) == Redrainers(threads)[i := r];
    SumUpdate(Borrowers(threads), i, b);
    SumUpdate(Redrainers(threads), i, r);
  }

  lemma RedrainersCount(threads: seq<Thread>)
    ensures Sum(Redrainers(threads)) >= 0
  {
    var zeros := seq(|threads|, i => 0);
    SumZero(zeros);
    SumMonotone(zeros, Redrainers(threads));
  }

  // ---------------------------------------------------------------- the invariant

  /** Every instance created is in exactly one place, and no other is anywhere. */
  ghost predicate Conserved(s: State) {
    forall x: Instance :: Places(s, x) == if x < s.created then 1 else 0
  }

  ghost predicate Inv(cap: nat, s: State) {
    && Conserved(s)
    && |s.pool| <= cap
    && s.closed == !s.closer.Open?
    && s.borrows == Sum(Borrowers(s.threads))
    && (s.closer.Drained? || s.closer.Shut? ==> |s.pool| <= Sum(Redrainers(s.threads)))
    && s.shut == (if s.closer.Shut? then s.created else 0)
    && (forall x | x in s.faulted :: x !in s.pool)
    && (forall i | 0 <= i < |s.threads| && s.threads[i].Offering? :: s.threads[i].inst !in s.faulted)
  }

  /** An instance held by a thread is nowhere else. */
  lemma HeldAlone(s: State, i: nat, x: Instance)
    requires Conserved(s) && i < |s.threads| && Holds(s.threads[i], x)
    ensures x !in s.pool && Occurs(s.closes, x) == 0 && x < s.created
    ensures forall j | 0 <= j < |s.threads| && j != i :: !Holds(s.threads[j], x)
  {
    assert Places(s, x) <= 1;
    OccursIn(s.pool, x);
    SumAtLeast(Holders(s.threads, x), i);
    HoldersUpdate(s.threads, i, Gone, x);
    var rest := s.threads[i := Gone];
    forall j | 0 <= j < |s.threads| && j != i
      ensures !Holds(s.threads[j], x)
    {
      SumAtLeast(Holders(rest, x), j);
    }
  }

  /** What one thread, the channel and the closed ones have of an instance. */
  ghost function Around(s: State, t: Thread, x: Instance): int {
    (if Holds(t, x) then 1 else 0) + Occurs(s.pool, x) + Occurs(s.closes, x)
  }

  /** A thread's move passes its instance on, and only creation adds one. */
  lemma StepBalance(cap: nat, s: State, i: nat, choice: Choice, x: Instance)
    requires i < |s.threads| && ChoiceFits(s, s.threads[i], choice)
    ensures var s' := DoStep(cap, s, i, choice);
            && s'.threads == s.threads[i := s'.threads[i]] && s'.closer == s.closer
            && Around(s', s'.threads[i], x) == Around(s, s.threads[i], x) + if s.created <= x < s'.created then 1 else 0
  {
    match s.threads[i]
    case Offering(inst) => OccursAppended(s.pool, inst, x);
    case Closing(inst) => OccursAppended(s.closes, inst, x);
    case _ =>
  }

  lemma DoStepConserves(cap: nat, s: State, i: nat, choice: Choice, x: Instance)
    requires i < |s.threads| && ChoiceFits(s, s.threads[i], choice)
    ensures var s' := DoStep(cap, s, i, choice);
            Places(s', x) == Places(s, x) + if s.created <= x < s'.created then 1 else 0
  {
    var s' := DoStep(cap, s, i, choice);
    StepBalance(cap, s, i, choice, x);
    HoldersUpdate(s.threads, i, s'.threads[i], x);
  }

  /** What a thread's move does to the counters and lengths. */
  lemma DoStepCounts(cap: nat, s: State, i: nat, choice: Choice)
    requires i < |s.threads| && ChoiceFits(s, s.threads[i], choice)
    ensures var s' := DoStep(cap, s, i, choice);
            var t, t' := s.threads[i], s'.threads[i];
            && s'.threads == s.threads[i := t'] && s'.closed == s.closed && s'.closer == s.closer && s'.shut == s.shut
            && s'.borrows == s.borrows - (if IsBorrower(t) then 1 else 0) + (if IsBorrower(t') then 1 else 0)
            && (s'.closer.Shut? ==> s'.created == s.created)
            && (|s'.pool| == |s.pool| || |s'.pool| == |s.pool| - 1 || (|s'.pool| == |s.pool| + 1 <= cap && t'.Sent?))
            && (WillRedrain(t) && !WillRedrain(t') && s.closed ==> |s'.pool| == if |s.pool| == 0 then 0 else |s.pool| - 1)
            && (|s'.pool| == |s.pool| + 1 ==> !WillRedrain(t) && WillRedrain(t'))
  {
  }

  /** The parts of the invariant that do not count instances. */
  lemma DoStepKeepsRest(cap: nat, s: State, i: nat, choice: Choice)
    requires Inv(cap, s) && i < |s.threads| && ChoiceFits(s, s.threads[i], choice)
    ensures var s' := DoStep(cap, s, i, choice);
            && |s'.pool| <= cap && s'.closed == !s'.closer.Open?
            && s'.borrows == Sum(Borrowers(s'.threads))
            && (s'.closer.Drained? || s'.closer.Shut? ==> |s'.pool| <= Sum(Redrainers(s'.threads)))
            && s'.shut == (if s'.closer.Shut? then s'.created else 0)
  {
    var s' := DoStep(cap, s, i, choice);
    DoStepCounts(cap, s, i, choice);
    CountsUpdate(s.threads, i, s'.threads[i]);
    RedrainersCount(s'.threads);
  }

  lemma DoStepKeepsFaultsOut(cap: nat, s: State, i: nat, choice: Choice)
    requires Inv(cap, s) && i < |s.threads| && ChoiceFits(s, s.threads[i], choice)
    ensures var s' := DoStep(cap, s, i, choice);
            && (forall x | x in s'.faulted :: x !in s'.pool)
            && (forall j | 0 <= j < |s'.threads| && s'.threads[j].Offering? :: s'.threads[j].inst !in s'.faulted)
  {
    var s' := DoStep(cap, s, i, choice);
    assert s'.threads == s.threads[i := s'.threads[i]];
    if choice.Fault? && s.threads[i].Using? {
      FaultIsPrivate(s, i);
    }
  }

  lemma DoStepKeepsInv(cap: nat, s: State, i: nat, choice: Choice)
    requires Inv(cap, s) && i < |s.threads| && ChoiceFits(s, s.threads[i], choice)
    ensures Inv(cap, DoStep(cap, s, i, choice))
  {
    var s' := DoStep(cap, s, i, choice);
    DoStepKeepsRest(cap, s, i, choice);
    DoStepKeepsFaultsOut(cap, s, i, choice);
    assert s.created <= s'.created;
    forall x: Instance
      ensures Places(s', x) == if x < s'.created then 1 else 0
    {
      DoStepConserves(cap, s, i, choice, x);
      assert Places(s, x) == if x < s.created then 1 else 0;
    }
  }

  lemma FaultIsPrivate(s: State, i: nat)
    requires Conserved(s) && i < |s.threads| && s.threads[i].Using?
    ensures s.threads[i].inst !in s.pool
    ensures forall j | 0 <= j < |s.threads| && s.threads[j].Offering? :: s.threads[j].inst != s.threads[i].inst
  {
    HeldAlone(s, i, s.threads[i].inst);
    assert forall j | 0 <= j < |s.threads| && s.threads[j].Offering? :: Holds(s.threads[j], s.threads[j].inst);
  }

  lemma CloserKeepsInv(cap: nat, s: State)
    requires Inv(cap, s)
    ensures Inv(cap, CloserStep(s))
  {
    var s' := CloserStep(s);
    forall x: Instance
      ensures Places(s', x) == if x < s'.created then 1 else 0
    {
      assert Places(s, x) == if x < s.created then 1 else 0;
      if s.closer.ClosingOne? {
        OccursAppended(s.closes, s.closer.inst, x);
      }
    }
    RedrainersCount(s.threads);
  }

  /** A new caller holds nothing yet. */
  lemma CallKeepsPlaces(s: State, x: Instance)
    ensures Places(s.(threads := s.threads + [Admitted]), x) == Places(s, x)
  {
    assert Holders(s.threads + [Admitted], x) == Holders(s.threads, x) + [0];
    SumAppend(Holders(s.threads, x), 0);
  }

  lemma CallKeepsInv(cap: nat, s: State)
    requires Inv(cap, s)
    ensures Inv(cap, Apply(cap, s, CallGet))
  {
    var threads := s.threads + [Admitted];
    assert Borrowers(threads) == Borrowers(s.threads) + [0];
    assert Redrainers(threads) == Redrainers(s.threads) + [0];
    SumAppend(Borrowers(s.threads), 0);
    SumAppend(Redrainers(s.threads), 0);
    var s' := Apply(cap, s, CallGet);
    forall x: Instance
      ensures Places(s', x) == if x < s'.created then 1 else 0
    {
      assert Places(s, x) == if x < s.created then 1 else 0;
      CallKeepsPlaces(s, x);
    }
  }

  /** Safety in every run: no instance is pooled and borrowed at once, borrowed twice, or closed by
      the pool while in use; no faulted instance is in the pool to be lent again; the borrow counter is exact. */
  lemma {:induction false} PoolIsSafe(cap: nat, s: State, steps: seq<Step>)
    requires Inv(cap, s) && Legal(cap, s, steps)
    ensures var s' := Exec(cap, s, steps);
            && Inv(cap, s')
            && (forall i | 0 <= i < |s'.threads| && s'.threads[i].Using? ::
                  && s'.threads[i].inst !in s'.pool && Occurs(s'.closes, s'.threads[i].inst) == 0
                  && forall j | 0 <= j < |s'.threads| && j != i && s'.threads[j].Using? ::
                       s'.threads[j].inst != s'.threads[i].inst)
            && (forall x | x in s'.faulted :: x !in s'.pool)
            && s'.borrows == Sum(Borrowers(s'.threads))
    decreases |steps|
  {
    if |steps| == 0 {
      forall i | 0 <= i < |s.threads| && s.threads[i].Using?
        ensures s.threads[i].inst !in s.pool && Occurs(s.closes, s.threads[i].inst) == 0
        ensures forall j | 0 <= j < |s.threads| && j != i && s.threads[j].Using? :: s.threads[j].inst != s.threads[i].inst
      {
        HeldAlone(s, i, s.threads[i].inst);
        assert forall j | 0 <= j < |s.threads| && s.threads[j].Using? :: Holds(s.threads[j], s.threads[j].inst);
      }
    } else {
      StepKeepsInv(cap, s, steps[0]);
      PoolIsSafe(cap, Apply(cap, s, steps[0]), steps[1..]);
    }
  }

  lemma StepKeepsInv(cap: nat, s: State, step: Step)
    requires Inv(cap, s) && Enabled(s, step)
    ensures Inv(cap, Apply(cap, s, step))
  {
    match step
    case CallGet => CallKeepsInv(cap, s);
    case Do(i, choice) => DoStepKeepsInv(cap, s, i, choice);
    case CloseStep => CloserKeepsInv(cap, s);
  }

  lemma {:induction false} WarmInstances(warm: nat, x: Instance)
    ensures Occurs(seq(warm, i => i), x) == if x < warm then 1 else 0
  {
    if warm > 0 {
      WarmInstances(warm - 1, x);
      assert seq(warm, i => i) == seq(warm - 1, i => i) + [warm - 1];
      OccursAppended(seq(warm - 1, i => i), warm - 1, x);
    }
  }

  lemma NewPoolInv(cap: nat, warm: nat)
    requires warm <= cap
    ensures Inv(cap, NewPool(warm))
  {
    var s := NewPool(warm);
    forall x: Instance
      ensures Places(s, x) == if x < s.created then 1 else 0
    {
      WarmInstances(warm, x);
    }
  }

  /** No leak and no double close: once Close has drained and every Get and Put has finished, the
      pool is empty and has closed every instance ever created exactly once. */
  lemma EverythingClosedOnce(cap: nat, warm: nat, steps: seq<Step>)
    requires warm <= cap && Legal(cap, NewPool(warm), steps)
    requires var s := Exec(cap, NewPool(warm), steps);
             (s.closer.Drained? || s.closer.Shut?) && forall i | 0 <= i < |s.threads| :: s.threads[i].Gone?
    ensures var s := Exec(cap, NewPool(warm), steps);
            && s.pool == [] && s.borrows == 0
            && forall x: Instance :: Occurs(s.closes, x) == if x < s.created then 1 else 0
  {
    var s := Exec(cap, NewPool(warm), steps);
    NewPoolInv(cap, warm);
    PoolIsSafe(cap, NewPool(warm), steps);
    SumZero(Borrowers(s.threads));
    SumZero(Redrainers(s.threads));
    forall x: Instance
      ensures Occurs(s.closes, x) == if x < s.created then 1 else 0
    {
      SumZero(Holders(s.threads, x));
      assert Places(s, x) == if x < s.created then 1 else 0;
    }
  }

  // ---------------------------------------------------------------- closing the runtime

  /** The instance no longer works: the pool closed it, or the runtime was closed over it. */
  ghost predicate Dead(s: State, x: Instance) {
    Occurs(s.closes, x) > 0 || x < s.shut
  }

  /** Nobody works with an instance that is closed. */
  ghost predicate Alive(s: State) {
    forall i | 0 <= i < |s.threads| && s.threads[i].Using? :: !Dead(s, s.threads[i].inst)
  }

  /** A borrowed instance is dead exactly when the runtime has been closed. */
  lemma BorrowedDeadIff(cap: nat, s: State, i: nat)
    requires Inv(cap, s) && i < |s.threads| && s.threads[i].Using?
    ensures Dead(s, s.threads[i].inst) <==> s.closer.Shut?
  {
    HeldAlone(s, i, s.threads[i].inst);
  }

  lemma AliveIff(cap: nat, s: State)
    requires Inv(cap, s)
    ensures Alive(s) <==> (s.closer.Shut? ==> forall i | 0 <= i < |s.threads| :: !s.threads[i].Using?)
  {
    forall i | 0 <= i < |s.threads| && s.threads[i].Using?
      ensures Dead(s, s.threads[i].inst) <==> s.closer.Shut?
    {
      BorrowedDeadIff(cap, s, i);
    }
  }

  ghost predicate AlwaysAlive(cap: nat, s: State, steps: seq<Step>)
    requires Legal(cap, s, steps)
    decreases |steps|
  {
    Alive(s) && (|steps| == 0 || AlwaysAlive(cap, Apply(cap, s, steps[0]), steps[1..]))
  }

  /** A Get that has passed the closed check, up to the Put of its instance. */
  ghost predicate Inside(t: Thread) {
    t.Admitted? || t.Choosing? || t.Creating? || t.Using?
  }

  ghost predicate NobodyInside(s: State) {
    forall i | 0 <= i < |s.threads| :: !Inside(s.threads[i])
  }

  lemma StepStaysQuiet(cap: nat, s: State, step: Step)
    requires Inv(cap, s) && s.closed && NobodyInside(s) && Enabled(s, step)
    ensures Apply(cap, s, step).closed && NobodyInside(Apply(cap, s, step))
  {
    if step.Do? {
      StepBalance(cap, s, step.i, step.choice, 0);
    }
  }

  /** Once the pool is closed with nobody inside, nobody gets an instance any more. */
  lemma {:induction false} QuietIsAlive(cap: nat, s: State, steps: seq<Step>)
    requires Inv(cap, s) && s.closed && NobodyInside(s) && Legal(cap, s, steps)
    ensures AlwaysAlive(cap, s, steps)
    decreases |steps|
  {
    if |steps| > 0 {
      StepKeepsInv(cap, s, steps[0]);
      StepStaysQuiet(cap, s, steps[0]);
      QuietIsAlive(cap, Apply(cap, s, steps[0]), steps[1..]);
    }
  }

  lemma OneMoreStep(cap: nat, s: State, step: Step, rest: seq<Step>)
    requires Enabled(s, step) && Legal(cap, Apply(cap, s, step), rest) && !AlwaysAlive(cap, Apply(cap, s, step), rest)
    ensures Legal(cap, s, [step] + rest) && !AlwaysAlive(cap, s, [step] + rest)
  {
    assert ([step] + rest)[1..] == rest;
  }

  /** How many steps Close has still to take. */
  ghost function CloserWork(s: State): nat {
    match s.closer
    case Open => 3 + 2 * |s.pool|
    case Draining => 2 + 2 * |s.pool|
    case ClosingOne(_) => 3 + 2 * |s.pool|
    case Drained => 1
    case Shut => 0
  }

  /** Close does not wait for a borrower. */
  lemma {:induction false} CloseReachesBorrower(cap: nat, s: State, i: nat) returns (steps: seq<Step>)
    requires Inv(cap, s) && i < |s.threads| && s.threads[i].Using?
    ensures Legal(cap, s, steps) && !AlwaysAlive(cap, s, steps)
    decreases CloserWork(s)
  {
    if s.closer.Shut? {
      BorrowedDeadIff(cap, s, i);
      steps := [];
    } else {
      CloserKeepsInv(cap, s);
      var rest := CloseReachesBorrower(cap, CloserStep(s), i);
      OneMoreStep(cap, s, CloseStep, rest);
      steps := [CloseStep] + rest;
    }
  }

  /** How many steps a Get has still to take. */
  ghost function GetWork(t: Thread): nat {
    if t.Admitted? then 3 else if t.Choosing? then 2 else if t.Creating? then 1 else 0
  }

  /** A Get that is inside can always obtain an instance before the runtime is closed. */
  lemma {:induction false} CloseReachesInside(cap: nat, s: State, i: nat) returns (steps: seq<Step>)
    requires Inv(cap, s) && i < |s.threads| && Inside(s.threads[i]) && !s.closer.Shut?
    ensures Legal(cap, s, steps) && !AlwaysAlive(cap, s, steps)
    decreases GetWork(s.threads[i])
  {
    if s.threads[i].Using? {
      steps := CloseReachesBorrower(cap, s, i);
    } else {
      var choice := if s.threads[i].Choosing? && s.pool != [] then Receive else Proceed;
      var next := DoStep(cap, s, i, choice);
      DoStepKeepsInv(cap, s, i, choice);
      var rest := CloseReachesInside(cap, next, i);
      OneMoreStep(cap, s, Do(i, choice), rest);
      steps := [Do(i, choice)] + rest;
    }
  }

  /** Whatever follows, nobody works with a closed instance. */
  ghost predicate SafeFrom(cap: nat, s: State) {
    forall steps | Legal(cap, s, steps) :: AlwaysAlive(cap, s, steps)
  }

  /** Calling Close is safe exactly when no Get is inside: none has passed the closed check and not
      yet returned its instance. The pool itself waits for nobody. */
  lemma CloseSafeIff(cap: nat, s: State)
    requires Inv(cap, s) && s.closer.Open?
    ensures SafeFrom(cap, Apply(cap, s, CloseStep)) <==> NobodyInside(s)
  {
    var n := Apply(cap, s, CloseStep);
    CloserKeepsInv(cap, s);
    if NobodyInside(s) {
      forall steps | Legal(cap, n, steps)
        ensures AlwaysAlive(cap, n, steps)
      {
        QuietIsAlive(cap, n, steps);
      }
    } else {
      var i :| 0 <= i < |s.threads| && Inside(s.threads[i]);
      var steps := CloseReachesInside(cap, n, i);
    }
  }

  /** A zero borrow counter leaves one gap: a Get between its closed check and its count. */
  lemma IdleCloseSafeIff(cap: nat, s: State)
    requires Inv(cap, s) && s.closer.Open? && s.borrows == 0
    ensures SafeFrom(cap, Apply(cap, s, CloseStep)) <==> forall i | 0 <= i < |s.threads| :: !s.threads[i].Admitted?
  {
    CloseSafeIff(cap, s);
    forall i | 0 <= i < |s.threads|
      ensures !IsBorrower(s.threads[i])
    {
      SumAtLeast(Borrowers(s.threads), i);
    }
  }

  /** Such a state is one call away from a new pool: polling for zero borrows before Close is not enough. */
  lemma ZeroBorrowsNotEnough(cap: nat, warm: nat)
    requires warm <= cap
    ensures var s := Apply(cap, NewPool(warm), CallGet);
            s.borrows == 0 && !SafeFrom(cap, Apply(cap, s, CloseStep))
  {
    var s := Apply(cap, NewPool(warm), CallGet);
    NewPoolInv(cap, warm);
    CallKeepsInv(cap, NewPool(warm));
    assert s.threads[0] == Admitted;
    IdleCloseSafeIff(cap, s);
  }
}
