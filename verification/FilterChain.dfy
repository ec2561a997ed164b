/**
 One phase of the filter chain: filters run in order, mutate the envelope, halt or fail, behind
 their circuit breakers and under a deadline. Filters, clock and context are oracles, indexed by
 the filter's position because a phase visits each position at most once.
 */
module FilterChain {
  import opened Common
  import opened Breaker

  datatype Action = Continue | Halt | Mutate | Drop

  datatype Decision = Decision(
    action: Action, statusCode: int, reason: string,
    headers: map<string, string>, body: seq<bv8>, metadata: map<string, string>)

  const ContinueDecision := Decision(Continue, 200, "", map[], [], map[])

  function HaltDecision(statusCode: int, reason: string): Decision {
    Decision(Halt, statusCode, reason, map[], [], map[])
  }

  datatype Envelope = Envelope(
    phase: int, headers: map<string, string>, metadata: map<string, string>, bufferedBody: Option<seq<bv8>>)

  datatype Filter = Filter(name: string, phase: int, failOpen: bool)

  datatype FilterError = Deadline | Fault(message: string)

  /** What a filter did: it may have changed the envelope directly, and decides or fails. */
  datatype Outcome = Outcome(env: Envelope, decision: Decision, error: Option<FilterError>)

  datatype Context = Live | TimedOut | Cancelled

  datatype World = World(
    context: nat -> Context,             // the phase context in front of filter i
    process: (nat, Envelope) -> Outcome, // filter i on an envelope
    timedOutAfter: nat -> bool,          // the phase deadline has passed when filter i fails
    allowAt: nat -> int,                 // clock at the breaker check of filter i
    failAt: nat -> int)                  // clock when the failure of filter i is recorded

  datatype PhaseError = PhaseTimeout | ContextCancelled | CircuitOpen | FilterFailed(name: string, error: FilterError)

  /** A filter that ran: where, and what came out. */
  datatype Visit = Visit(index: nat, outcome: Outcome)

  datatype Result = Result(
    decision: Decision, error: Option<PhaseError>, env: Envelope, breakers: seq<State>, ran: seq<Visit>)

  const BREAKER := Settings(5, 10_000_000_000)

  /** A mutating decision sets headers and metadata, and replaces the body if it brings one. */
  function Mutated(env: Envelope, d: Decision): Envelope {
    if d.action.Mutate?
    then Envelope(env.phase, env.headers + d.headers, env.metadata + d.metadata,
                  if |d.body| > 0 then Some(d.body) else env.bufferedBody)
    else env
  }

  predicate Stops(d: Decision) {
    d.action.Halt? || d.action.Drop?
  }

  function ErrorText(e: FilterError): string {
    if e.Deadline? then "context deadline exceeded" else e.message
  }

  /** The envelope after a visit. */
  function Passed(v: Visit): Envelope {
    if v.outcome.error.None? then Mutated(v.outcome.env, v.outcome.decision) else v.outcome.env
  }

  /** The breaker after a visit. */
  function Recorded(w: World, b: State, v: Visit): State {
    if v.outcome.error.None? then Succeeded(b) else Failed(b, w.failAt(v.index))
  }

  /** What a visit ends the phase with, if it does. */
  function Verdict(w: World, f: Filter, v: Visit): Option<(Decision, Option<PhaseError>)> {
    var o := v.outcome;
    match o.error
    case None => if Stops(o.decision) then Some((o.decision, None)) else None
    case Some(e) =>
      if w.timedOutAfter(v.index) || e.Deadline?
      then Some((HaltDecision(504, "phase latency budget exceeded"), Some(PhaseTimeout)))
      else if f.failOpen then None
      else
        var status := if o.decision.statusCode == 0 then 500 else o.decision.statusCode;
        var halt := Decision(Halt, status, ErrorText(e), o.decision.headers, o.decision.body, map[]);
        Some((halt, Some(FilterFailed(f.name, e))))
  }

  /** What stops the phase in front of filter i, if anything does. */
  function Barrier(w: World, phase: int, f: Filter, b: State, i: nat): Option<(Decision, Option<PhaseError>)> {
    match w.context(i)
    case TimedOut => Some((HaltDecision(504, "phase latency budget exceeded"), Some(PhaseTimeout)))
    case Cancelled => Some((HaltDecision(504, "context cancelled"), Some(ContextCancelled)))
    case Live =>
      if f.phase == phase && !Allows(BREAKER, b, w.allowAt(i)) && !f.failOpen
      then Some((HaltDecision(503, "filter circuit breaker open"), Some(CircuitOpen)))
      else None
  }

  /** Whether filter i is called, given that nothing stops the phase in front of it. */
  predicate IsCalled(w: World, phase: int, f: Filter, b: State, i: nat) {
    f.phase == phase && Allows(BREAKER, b, w.allowAt(i))
  }

  /** The phase from filter i on. */
  ghost function Execute(w: World, phase: int, filters: seq<Filter>, i: nat, env: Envelope, breakers: seq<State>,
      ran: seq<Visit>)
    : (r: Result)
    requires i <= |filters| && |breakers| == |filters|
    ensures |r.breakers| == |filters|
    decreases |filters| - i
  {
    if i == |filters| then Result(ContinueDecision, None, env, breakers, ran)
    else
      var f := filters[i];
      var barrier := Barrier(w, phase, f, breakers[i], i);
      if barrier.Some? then Result(barrier.value.0, barrier.value.1, env, breakers, ran)
      else if !IsCalled(w, phase, f, breakers[i], i) then Execute(w, phase, filters, i + 1, env, breakers, ran)
      else
        var v := Visit(i, w.process(i, env));
        var breakers' := breakers[i := Recorded(w, breakers[i], v)];
        var verdict := Verdict(w, f, v);
        if verdict.Some? then Result(verdict.value.0, verdict.value.1, Passed(v), breakers', ran + [v])
        else Execute(w, phase, filters, i + 1, Passed(v), breakers', ran + [v])
  }

  class Chain {
    var filters: seq<Filter>
    var breakers: seq<State>

    ghost predicate Valid()
      reads this
    {
      |filters| == |breakers|
    }

    constructor (filters: seq<Filter>)
      ensures Valid() && this.filters == filters && breakers == seq(|filters|, _ => State(0, 0))
    {
      this.filters := filters;
      breakers := seq(|filters|, _ => State(0, 0));
    }

    method AddFilter(f: Filter)
      requires Valid()
      modifies this
      ensures Valid() && filters == old(filters) + [f] && breakers == old(breakers) + [State(0, 0)]
    {
      filters := filters + [f];
      breakers := breakers + [State(0, 0)];
    }

    method ExecutePhase(w: World, env: Envelope, phase: int)
      returns (decision: Decision, error: Option<PhaseError>, env': Envelope, ghost ran: seq<Visit>)
      requires Valid()
      modifies this`breakers
      ensures Valid()
      ensures Result(decision, error, env', breakers, ran)
              == Execute(w, phase, filters, 0, env.(phase := phase), old(breakers), [])
    {
      env', ran := env.(phase := phase), [];
      ghost var goal := Execute(w, phase, filters, 0, env', breakers, []);
      for i := 0 to |filters|
        invariant Valid() && goal == Execute(w, phase, filters, i, env', breakers, ran)
      {
        var f := filters[i];
        match w.context(i) {
          case TimedOut => return HaltDecision(504, "phase latency budget exceeded"), Some(PhaseTimeout), env', ran;
          case Cancelled => return HaltDecision(504, "context cancelled"), Some(ContextCancelled), env', ran;
          case Live =>
        }
        if f.phase != phase {
          continue;
        }
        if !Allows(BREAKER, breakers[i], w.allowAt(i)) {
          if f.failOpen {
            continue;
          }
          return HaltDecision(503, "filter circuit breaker open"), Some(CircuitOpen), env', ran;
        }
        var out := w.process(i, env');
        ran := ran + [Visit(i, out)];
        if out.error.Some? {
          breakers := breakers[i := Failed(breakers[i], w.failAt(i))];
          env' := out.env;
          if w.timedOutAfter(i) || out.error.value.Deadline? {
            return HaltDecision(504, "phase latency budget exceeded"), Some(PhaseTimeout), env', ran;
          }
          if f.failOpen {
            continue;
          }
          var status := out.decision.statusCode;
          if status == 0 {
            status := 500;
          }
          var halt := HaltDecision(status, ErrorText(out.error.value));
          halt := halt.(headers := out.decision.headers, body := out.decision.body);
          return halt, Some(FilterFailed(f.name, out.error.value)), env', ran;
        }
        breakers := breakers[i := Succeeded(breakers[i])];
        env' := Mutated(out.env, out.decision);
        if Stops(out.decision) {
          return out.decision, None, env', ran;
        }
      }
      decision, error := ContinueDecision, None;
    }
  }

  // ---------------------------------------------------------------- what a finished phase means

  /** The envelope after a sequence of visits. */
  ghost function Fold(env: Envelope, ran: seq<Visit>): Envelope {
    if |ran| == 0 then env else Passed(ran[|ran| - 1])
  }

  /** The visits went through the chain in order, each filter seeing the envelope its predecessor left. */
  ghost predicate Threaded(w: World, phase: int, filters: seq<Filter>, env: Envelope, ran: seq<Visit>) {
    && (forall k | 0 <= k < |ran| :: ran[k].index < |filters| && filters[ran[k].index].phase == phase)
    && (forall k, l | 0 <= k < l < |ran| :: ran[k].index < ran[l].index)
    && (forall k | 0 <= k < |ran| :: ran[k].outcome == w.process(ran[k].index, Fold(env, ran[..k])))
  }

  /** All visits but the last let the phase go on. */
  ghost predicate OnlyLastStops(w: World, filters: seq<Filter>, ran: seq<Visit>) {
    forall k | 0 <= k < |ran| - 1 :: ran[k].index < |filters| && Verdict(w, filters[ran[k].index], ran[k]).None?
  }

  ghost predicate VisitedSoundly(ran: seq<Visit>, i: nat) {
    exists k :: 0 <= k < |ran| && ran[k].index == i && ran[k].outcome.error.None? && !Stops(ran[k].outcome.decision)
  }

  lemma Extended(w: World, phase: int, filters: seq<Filter>, env: Envelope, ran: seq<Visit>, i: nat)
    requires i < |filters| && filters[i].phase == phase && Threaded(w, phase, filters, env, ran)
    requires forall k | 0 <= k < |ran| :: ran[k].index < i
    ensures var v := Visit(i, w.process(i, Fold(env, ran)));
            Threaded(w, phase, filters, env, ran + [v]) && Fold(env, ran + [v]) == Passed(v)
  {
    var v := Visit(i, w.process(i, Fold(env, ran)));
    var ran' := ran + [v];
    forall k | 0 <= k < |ran'|
      ensures ran'[k].outcome == w.process(ran'[k].index, Fold(env, ran'[..k]))
    {
      assert ran'[..k] == ran[..k];
      assert k == |ran| ==> ran[..k] == ran;
    }
  }

  /** The first i filters have been dealt with and the phase goes on: the visits are threaded,
      none of them stopped the phase, and every fail-closed filter of the phase was visited. */
  ghost predicate Account(w: World, phase: int, filters: seq<Filter>, i: nat, env0: Envelope, ran: seq<Visit>)
    requires i <= |filters|
  {
    && Threaded(w, phase, filters, env0, ran)
    && (forall k | 0 <= k < |ran| :: ran[k].index < i && Verdict(w, filters[ran[k].index], ran[k]).None?)
    && (forall j | 0 <= j < i && filters[j].phase == phase && !filters[j].failOpen :: VisitedSoundly(ran, j))
  }

  lemma AccountExtended(w: World, phase: int, filters: seq<Filter>, i: nat, env0: Envelope, ran: seq<Visit>)
    requires i < |filters| && Account(w, phase, filters, i, env0, ran) && filters[i].phase == phase
    requires Verdict(w, filters[i], Visit(i, w.process(i, Fold(env0, ran)))).None?
    ensures var v := Visit(i, w.process(i, Fold(env0, ran)));
            Account(w, phase, filters, i + 1, env0, ran + [v]) && Fold(env0, ran + [v]) == Passed(v)
  {
    Extended(w, phase, filters, env0, ran, i);
    var v := Visit(i, w.process(i, Fold(env0, ran)));
    var ran' := ran + [v];
    assert ran'[|ran|] == v;
    forall j | 0 <= j < i + 1 && filters[j].phase == phase && !filters[j].failOpen
      ensures VisitedSoundly(ran', j)
    {
      if j < i {
        var k :| 0 <= k < |ran| && ran[k].index == j && ran[k].outcome.error.None? && !Stops(ran[k].outcome.decision);
        assert ran'[k] == ran[k];
      }
    }
  }

  /** What holds of a phase's result whichever way it ended. */
  ghost predicate Sound(w: World, phase: int, filters: seq<Filter>, env0: Envelope, r: Result) {
    && Threaded(w, phase, filters, env0, r.ran)
    && OnlyLastStops(w, filters, r.ran)
    && r.env == Fold(env0, r.ran)
    && (|r.ran| > 0 && Verdict(w, filters[r.ran[|r.ran| - 1].index], r.ran[|r.ran| - 1]).Some? ==>
          (r.decision, r.error) == Verdict(w, filters[r.ran[|r.ran| - 1].index], r.ran[|r.ran| - 1]).value)
    && (r.error.None? && r.decision.action.Continue? ==> Account(w, phase, filters, |filters|, env0, r.ran))
  }

  /** A phase that ends between visits, at the end of the chain or at a barrier. */
  lemma EndIsSound(w: World, phase: int, filters: seq<Filter>, i: nat, env0: Envelope, ran: seq<Visit>, r: Result)
    requires i <= |filters| && Account(w, phase, filters, i, env0, ran)
    requires r.ran == ran && r.env == Fold(env0, ran) && (r.error.Some? || i == |filters|)
    ensures Sound(w, phase, filters, env0, r)
  {
  }

  lemma AccountSkipped(w: World, phase: int, filters: seq<Filter>, i: nat, env0: Envelope, ran: seq<Visit>)
    requires i < |filters| && Account(w, phase, filters, i, env0, ran)
    requires filters[i].phase != phase || filters[i].failOpen
    ensures Account(w, phase, filters, i + 1, env0, ran)
  {
  }

  /** A verdict that ends the phase never reads as an undisturbed Continue. */
  lemma VerdictEnds(w: World, f: Filter, v: Visit)
    requires Verdict(w, f, v).Some?
    ensures Verdict(w, f, v).value.1.Some? || !Verdict(w, f, v).value.0.action.Continue?
  {
  }

  /** A phase that ends with a visit. */
  lemma StoppedIsSound(w: World, phase: int, filters: seq<Filter>, env0: Envelope, ran: seq<Visit>, v: Visit, r: Result)
    requires v.index < |filters| && Account(w, phase, filters, v.index, env0, ran) && filters[v.index].phase == phase
    requires v.outcome == w.process(v.index, Fold(env0, ran)) && Verdict(w, filters[v.index], v).Some?
    requires (r.decision, r.error) == Verdict(w, filters[v.index], v).value && r.env == Passed(v) && r.ran == ran + [v]
    ensures Sound(w, phase, filters, env0, r)
  {
    Extended(w, phase, filters, env0, ran, v.index);
    VerdictEnds(w, filters[v.index], v);
    assert forall k | 0 <= k < |ran| :: r.ran[k] == ran[k];
    assert OnlyLastStops(w, filters, r.ran);
  }

  /** The phase ends in front of filter i. */
  lemma ExecuteEnds(w: World, phase: int, filters: seq<Filter>, i: nat, env: Envelope, breakers: seq<State>,
      ran: seq<Visit>)
    requires i <= |filters| == |breakers| && (i == |filters| || Barrier(w, phase, filters[i], breakers[i], i).Some?)
    ensures var r := Execute(w, phase, filters, i, env, breakers, ran);
            r.ran == ran && r.env == env && (r.error.Some? || i == |filters|)
  {
  }

  /** Filter i is not called. */
  lemma ExecuteSkips(w: World, phase: int, filters: seq<Filter>, i: nat, env: Envelope, breakers: seq<State>,
      ran: seq<Visit>)
    requires i < |filters| == |breakers| && Barrier(w, phase, filters[i], breakers[i], i).None?
    requires !IsCalled(w, phase, filters[i], breakers[i], i)
    ensures filters[i].phase != phase || filters[i].failOpen
    ensures Execute(w, phase, filters, i, env, breakers, ran) == Execute(w, phase, filters, i + 1, env, breakers, ran)
  {
  }

  /** Filter i is called: the phase goes on with what it left, or ends with its verdict. */
  lemma ExecuteCalls(w: World, phase: int, filters: seq<Filter>, i: nat, env: Envelope, breakers: seq<State>,
      ran: seq<Visit>)
    requires i < |filters| == |breakers| && Barrier(w, phase, filters[i], breakers[i], i).None?
    requires IsCalled(w, phase, filters[i], breakers[i], i)
    ensures filters[i].phase == phase
    ensures var v := Visit(i, w.process(i, env));
            var breakers', verdict := breakers[i := Recorded(w, breakers[i], v)], Verdict(w, filters[i], v);
            Execute(w, phase, filters, i, env, breakers, ran)
            == if verdict.Some? then Result(verdict.value.0, verdict.value.1, Passed(v), breakers', ran + [v])
               else Execute(w, phase, filters, i + 1, Passed(v), breakers', ran + [v])
  {
  }

  /** Every phase, however it ends: the visits thread the envelope through the chain in order, no
      filter runs after one that stopped the phase, whose answer is then the phase's, and the
      envelope is what the visits made of it. A phase that ends with Continue and no error has
      called every fail-closed filter of the phase, and none of them failed or stopped it. */
  lemma {:induction false} PhaseIsSound(
    w: World, phase: int, filters: seq<Filter>, i: nat, env0: Envelope, breakers: seq<State>, ran: seq<Visit>)
    requires i <= |filters| && |breakers| == |filters| && Account(w, phase, filters, i, env0, ran)
    ensures Sound(w, phase, filters, env0, Execute(w, phase, filters, i, Fold(env0, ran), breakers, ran))
    decreases |filters| - i
  {
    var env := Fold(env0, ran);
    var r := Execute(w, phase, filters, i, env, breakers, ran);
    if i == |filters| || Barrier(w, phase, filters[i], breakers[i], i).Some? {
      ExecuteEnds(w, phase, filters, i, env, breakers, ran);
      EndIsSound(w, phase, filters, i, env0, ran, r);
    } else if !IsCalled(w, phase, filters[i], breakers[i], i) {
      ExecuteSkips(w, phase, filters, i, env, breakers, ran);
      AccountSkipped(w, phase, filters, i, env0, ran);
      PhaseIsSound(w, phase, filters, i + 1, env0, breakers, ran);
    } else {
      ExecuteCalls(w, phase, filters, i, env, breakers, ran);
      var v := Visit(i, w.process(i, env));
      if Verdict(w, filters[i], v).None? {
        AccountExtended(w, phase, filters, i, env0, ran);
        PhaseIsSound(w, phase, filters, i + 1, env0, breakers[i := Recorded(w, breakers[i], v)], ran + [v]);
      } else {
        StoppedIsSound(w, phase, filters, env0, ran, v, r);
      }
    }
  }

  ghost predicate ClosedFilterFrom(filters: seq<Filter>, i: nat, phase: int, name: Option<string>) {
    exists j :: i <= j < |filters| && filters[j].phase == phase && !filters[j].failOpen
                && (name.Some? ==> filters[j].name == name.value)
  }

  /** What a phase error means: timeouts and cancellation answer 504, an open breaker 503, a failed
      filter some non-zero status, and only fail-closed filters of the phase cause the latter two. */
  ghost predicate Explained(phase: int, filters: seq<Filter>, i: nat, d: Decision, e: PhaseError) {
    && d.action.Halt?
    && match e
       case PhaseTimeout => d.statusCode == 504
       case ContextCancelled => d.statusCode == 504
       case CircuitOpen => d.statusCode == 503 && ClosedFilterFrom(filters, i, phase, None)
       case FilterFailed(name, _) => d.statusCode != 0 && ClosedFilterFrom(filters, i, phase, Some(name))
  }

  /** Every phase error is explained: neither a failing nor a cut-off fail-open filter ends a phase. */
  lemma {:induction false} ErrorsExplained(w: World, phase: int, filters: seq<Filter>, i: nat, env: Envelope,
      breakers: seq<State>, ran: seq<Visit>)
    requires i <= |filters| && |breakers| == |filters|
    ensures var r := Execute(w, phase, filters, i, env, breakers, ran);
            r.error.Some? ==> Explained(phase, filters, i, r.decision, r.error.value)
    decreases |filters| - i
  {
    if i < |filters| && Barrier(w, phase, filters[i], breakers[i], i).None? {
      var v := Visit(i, w.process(i, env));
      var breakers' := breakers[i := Recorded(w, breakers[i], v)];
      if !IsCalled(w, phase, filters[i], breakers[i], i) {
        ErrorsExplained(w, phase, filters, i + 1, env, breakers, ran);
      } else if Verdict(w, filters[i], v).None? {
        ErrorsExplained(w, phase, filters, i + 1, Passed(v), breakers', ran + [v]);
      }
    }
  }

  /** A phase runs no filter twice. */
  lemma VisitedOnce(w: World, phase: int, filters: seq<Filter>, env: Envelope, breakers: seq<State>, k: nat, l: nat)
    requires |breakers| == |filters|
    requires var ran := Execute(w, phase, filters, 0, env, breakers, []).ran;
             k < |ran| && l < |ran| && ran[k].index == ran[l].index
    ensures k == l
  {
    assert Fold(env, []) == env;
    PhaseIsSound(w, phase, filters, 0, env, breakers, []);
  }

  /** What a filter makes of an envelope: its own edits, then the mutation it decided on unless it failed. */
  ghost function Effect(w: World, i: nat, env: Envelope): Envelope {
    Passed(Visit(i, w.process(i, env)))
  }

  /** The effects of the visited filters, applied in order to the original envelope. */
  ghost function Replay(w: World, env: Envelope, ran: seq<Visit>): Envelope {
    if |ran| == 0 then env
    else
      var n := |ran| - 1;
      Effect(w, ran[n].index, Replay(w, env, ran[..n]))
  }

  /** The accepted mutations alone, applied in order to the original envelope. */
  ghost function Mutations(env: Envelope, ran: seq<Visit>): Envelope {
    if |ran| == 0 then env
    else
      var n := |ran| - 1;
      var before := Mutations(env, ran[..n]);
      if ran[n].outcome.error.None? then Mutated(before, ran[n].outcome.decision) else before
  }

  /** The visited filters decide and leave the envelope they are given alone. */
  ghost predicate OnlyDecide(env: Envelope, ran: seq<Visit>) {
    forall k | 0 <= k < |ran| :: ran[k].outcome.env == Fold(env, ran[..k])
  }

  /** A threaded run is threaded up to its last visit, which saw what the others left. */
  lemma ThreadedPrefix(w: World, phase: int, filters: seq<Filter>, env: Envelope, ran: seq<Visit>)
    requires |ran| > 0 && Threaded(w, phase, filters, env, ran)
    ensures var n := |ran| - 1;
            && Threaded(w, phase, filters, env, ran[..n])
            && ran[n].outcome == w.process(ran[n].index, Fold(env, ran[..n]))
            && (OnlyDecide(env, ran) ==> OnlyDecide(env, ran[..n]) && ran[n].outcome.env == Fold(env, ran[..n]))
  {
    assert forall k | 0 <= k < |ran| :: ran[..|ran| - 1][..k] == ran[..k];
  }

  lemma {:induction false} ThreadedIsReplay(w: World, phase: int, filters: seq<Filter>, env: Envelope, ran: seq<Visit>)
    requires Threaded(w, phase, filters, env, ran)
    ensures Fold(env, ran) == Replay(w, env, ran)
  {
    if |ran| > 0 {
      ThreadedPrefix(w, phase, filters, env, ran);
      ThreadedIsReplay(w, phase, filters, env, ran[..|ran| - 1]);
    }
  }

  lemma {:induction false} DecidingIsMutating(w: World, phase: int, filters: seq<Filter>, env: Envelope,
      ran: seq<Visit>)
    requires Threaded(w, phase, filters, env, ran) && OnlyDecide(env, ran)
    ensures Fold(env, ran) == Mutations(env, ran)
  {
    if |ran| > 0 {
      ThreadedPrefix(w, phase, filters, env, ran);
      DecidingIsMutating(w, phase, filters, env, ran[..|ran| - 1]);
    }
  }

  /** The envelope a phase ends with is the in-order fold of the effects of the filters it ran, and
      of their accepted mutations alone if those filters left the envelope itself alone. */
  lemma EnvelopeIsReplay(w: World, phase: int, filters: seq<Filter>, env: Envelope, breakers: seq<State>)
    requires |breakers| == |filters|
    ensures var r := Execute(w, phase, filters, 0, env, breakers, []);
            && r.env == Replay(w, env, r.ran)
            && (OnlyDecide(env, r.ran) ==> r.env == Mutations(env, r.ran))
  {
    assert Fold(env, []) == env;
    PhaseIsSound(w, phase, filters, 0, env, breakers, []);
    var r := Execute(w, phase, filters, 0, env, breakers, []);
    ThreadedIsReplay(w, phase, filters, env, r.ran);
    if OnlyDecide(env, r.ran) {
      DecidingIsMutating(w, phase, filters, env, r.ran);
    }
  }

  ghost function VisitOf(ran: seq<Visit>, j: nat): Option<Visit> {
    if |ran| == 0 then None
    else if ran[|ran| - 1].index == j then Some(ran[|ran| - 1])
    else VisitOf(ran[..|ran| - 1], j)
  }

  /** Breakers move only where filters ran, by exactly one recorded result each. */
  lemma {:induction false} BreakersFollowVisits(
    w: World, phase: int, filters: seq<Filter>, i: nat, env: Envelope,
    start: seq<State>, breakers: seq<State>, ran: seq<Visit>, j: nat)
    requires i <= |filters| && |start| == |breakers| == |filters| && j < |filters|
    requires forall k | 0 <= k < |ran| :: ran[k].index < i
    requires breakers[j] == if VisitOf(ran, j).Some? then Recorded(w, start[j], VisitOf(ran, j).value) else start[j]
    requires j >= i ==> VisitOf(ran, j).None?
    ensures var r := Execute(w, phase, filters, i, env, breakers, ran);
            |r.breakers| == |filters|
            && r.breakers[j] == if VisitOf(r.ran, j).Some? then Recorded(w, start[j], VisitOf(r.ran, j).value) else start[j]
    decreases |filters| - i
  {
    if i < |filters| && Barrier(w, phase, filters[i], breakers[i], i).None? {
      if IsCalled(w, phase, filters[i], breakers[i], i) {
        var v := Visit(i, w.process(i, env));
        assert (ran + [v])[..|ran|] == ran;
        if Verdict(w, filters[i], v).None? {
          var breakers' := breakers[i := Recorded(w, breakers[i], v)];
          BreakersFollowVisits(w, phase, filters, i + 1, Passed(v), start, breakers', ran + [v], j);
        }
      } else {
        BreakersFollowVisits(w, phase, filters, i + 1, env, start, breakers, ran, j);
      }
    }
  }

  // ---------------------------------------------------------------- a chain over many phases

  /** A filter that ran was admitted by its breaker. */
  lemma {:induction false} VisitsWereAdmitted(
    w: World, phase: int, filters: seq<Filter>, i: nat, env: Envelope, breakers: seq<State>, ran: seq<Visit>, j: nat)
    requires i <= |filters| == |breakers| && j < |filters| && (j >= i ==> VisitOf(ran, j).None?)
    ensures var r := Execute(w, phase, filters, i, env, breakers, ran);
            && (VisitOf(r.ran, j).Some? && j >= i ==>
                  Allows(BREAKER, breakers[j], w.allowAt(j)) && VisitOf(r.ran, j).value.index == j)
            && (j < i ==> VisitOf(r.ran, j) == VisitOf(ran, j))
    decreases |filters| - i
  {
    if i < |filters| && Barrier(w, phase, filters[i], breakers[i], i).None? {
      if IsCalled(w, phase, filters[i], breakers[i], i) {
        var v := Visit(i, w.process(i, env));
        assert (ran + [v])[..|ran|] == ran;
        if Verdict(w, filters[i], v).None? {
          VisitsWereAdmitted(w, phase, filters, i + 1, Passed(v), breakers[i := Recorded(w, breakers[i], v)], ran + [v], j);
        }
      } else {
        VisitsWereAdmitted(w, phase, filters, i + 1, env, breakers, ran, j);
      }
    }
  }

  /** One phase that a chain is asked to run. */
  datatype Round = Round(w: World, phase: int, env: Envelope)

  ghost function Outcomes(filters: seq<Filter>, r: Round, breakers: seq<State>): Result
    requires |breakers| == |filters|
  {
    Execute(r.w, r.phase, filters, 0, r.env.(phase := r.phase), breakers, [])
  }

  /** The breakers of a new chain after its first k phases. */
  ghost function BreakersAfter(filters: seq<Filter>, rounds: seq<Round>, k: nat): (bs: seq<State>)
    requires k <= |rounds|
    ensures |bs| == |filters|
  {
    if k == 0 then seq(|filters|, _ => State(0, 0))
    else
      Outcomes(filters, rounds[k - 1], BreakersAfter(filters, rounds, k - 1)).breakers
  }

  /** The calls of filter j in the first k phases. */
  ghost function CallsOf(filters: seq<Filter>, rounds: seq<Round>, k: nat, j: nat): seq<Attempt>
    requires k <= |rounds|
  {
    if k == 0 then []
    else
      var r := rounds[k - 1];
      var v := VisitOf(Outcomes(filters, r, BreakersAfter(filters, rounds, k - 1)).ran, j);
      CallsOf(filters, rounds, k - 1, j)
      + if v.Some? then [Attempt(r.w.allowAt(j), v.value.outcome.error.None?, r.w.failAt(j))] else []
  }

  lemma {:induction false} PrefixRun(cfg: Settings, run: seq<Attempt>, more: seq<Attempt>, k: nat)
    requires k <= |run|
    ensures After(cfg, State(0, 0), run + more, k) == After(cfg, State(0, 0), run, k)
  {
    if k > 0 {
      PrefixRun(cfg, run, more, k - 1);
    }
  }

  lemma AllAdmittedGrows(run: seq<Attempt>, a: Attempt)
    requires forall i | 0 <= i < |run| :: Admitted(BREAKER, State(0, 0), run, i)
    requires Allows(BREAKER, After(BREAKER, State(0, 0), run, |run|), a.at)
    ensures forall i | 0 <= i < |run| + 1 :: Admitted(BREAKER, State(0, 0), run + [a], i)
  {
    forall i | 0 <= i < |run| + 1
      ensures Admitted(BREAKER, State(0, 0), run + [a], i)
    {
      PrefixRun(BREAKER, run, [a], i);
      assert i < |run| ==> Admitted(BREAKER, State(0, 0), run, i);
    }
  }

  /** Over every sequence of phases the breaker of a filter is that of the run of its calls, and
      all of these calls were admitted. */
  lemma {:induction false} BreakerRunsOnCalls(filters: seq<Filter>, rounds: seq<Round>, k: nat, j: nat)
    requires k <= |rounds| && j < |filters|
    ensures var run := CallsOf(filters, rounds, k, j);
            && BreakersAfter(filters, rounds, k)[j] == After(BREAKER, State(0, 0), run, |run|)
            && forall i | 0 <= i < |run| :: Admitted(BREAKER, State(0, 0), run, i)
  {
    if k > 0 {
      BreakerRunsOnCalls(filters, rounds, k - 1, j);
      var r, before, run := rounds[k - 1], BreakersAfter(filters, rounds, k - 1), CallsOf(filters, rounds, k - 1, j);
      var env := r.env.(phase := r.phase);
      BreakersFollowVisits(r.w, r.phase, filters, 0, env, before, before, [], j);
      VisitsWereAdmitted(r.w, r.phase, filters, 0, env, before, [], j);
      var v := VisitOf(Outcomes(filters, r, before).ran, j);
      if v.Some? {
        var a := Attempt(r.w.allowAt(j), v.value.outcome.error.None?, r.w.failAt(j));
        AllAdmittedGrows(run, a);
        PrefixRun(BREAKER, run, [a], |run|);
        assert CallsOf(filters, rounds, k, j) == run + [a];
      } else {
        assert CallsOf(filters, rounds, k, j) == run;
      }
    }
  }

  /** In every sequence of phases, a filter whose calls a .. b - 1 all fail is called at most 5 times
      plus once per ten seconds in any interval. */
  lemma ChainCallsBounded(filters: seq<Filter>, rounds: seq<Round>, j: nat, a: nat, b: nat, from: int, to: int)
    requires j < |filters| && from <= to
    requires var run := CallsOf(filters, rounds, |rounds|, j);
             a <= b <= |run| && |run| > 0 && run[0].at >= 0 && Sequential(run) && forall i | a <= i < b :: !run[i].ok
    ensures var run := CallsOf(filters, rounds, |rounds|, j);
            Calls(BREAKER, State(0, 0), run, a, b, from, to) <= 5 + (to - from) / 10_000_000_000
    ensures var run := CallsOf(filters, rounds, |rounds|, j);
            forall i | 0 <= i < |run| :: Admitted(BREAKER, State(0, 0), run, i)
  {
    BreakerRunsOnCalls(filters, rounds, |rounds|, j);
    FailingCallsBounded(BREAKER, CallsOf(filters, rounds, |rounds|, j), a, b, from, to);
  }
}
