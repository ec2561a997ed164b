/**
 Monthly budgets and the length of the month: the key of a bucket lives for the calendar month, its
 counter for thirty days.
 */
module LongMonth {
  import opened Common
  import opened LimitKeys
  import opened Ledger
  import opened LedgerBounds
  import opened LedgerRuns

  /** A calendar month and the counter key of a scope in it. */
  datatype BudgetMonth = BudgetMonth(cal: int -> int, start: int, length: nat, scope: string)

  /** The calendar puts the moments of the month into its bucket. */
  ghost predicate Proper(m: BudgetMonth) {
    Calendar(m.cal) && m.length > 0 && forall t | m.start <= t < m.start + m.length :: m.cal(t) == m.start
  }

  ghost function KeyIn(m: BudgetMonth): Key {
    Key(m.scope, Month, m.start)
  }

  ghost predicate IsCurrent(m: BudgetMonth, t: int) {
    m.start <= t < m.start + m.length
  }

  ghost function EmptyLedger(clock: int): State {
    NewLedger.(clock := clock)
  }

  /** A run from an empty ledger in which requests on the key ask within the limit and use what
      they reserved at most. */
  ghost predicate FairRun(m: BudgetMonth, ttl: int, limit: nat, t0: int, steps: seq<Step>) {
    && Legal(m.cal, ttl, EmptyLedger(t0), steps) && NonNegativeUsage(steps)
    && RunWithin(m.cal, ttl, EmptyLedger(t0), steps, KeyIn(m), limit, None)
  }

  /** What is held, settled and lapsed on the month's key is within the limit after every fair run
      that ends while the month is current. */
  ghost predicate KeepsToLimit(m: BudgetMonth, ttl: int, limit: nat) {
    forall t0, steps | FairRun(m, ttl, limit, t0, steps) && IsCurrent(m, Exec(m.cal, ttl, EmptyLedger(t0), steps).clock) ::
      Sum(Shares(m.cal, Exec(m.cal, ttl, EmptyLedger(t0), steps).calls, KeyIn(m))) <= limit
  }

  lemma EmptyLedgerIsFine(m: BudgetMonth, limit: nat, t0: int)
    ensures Inv(m.cal, EmptyLedger(t0)) && Wired(m.cal, EmptyLedger(t0))
    ensures WithinBound(m.cal, EmptyLedger(t0), KeyIn(m), limit, None)
  {
    forall k
      ensures Balanced(m.cal, EmptyLedger(t0), k)
    {
      assert Shares(m.cal, [], k) == [];
    }
  }

  /** In a month the counter outlives, the counter shows everything charged, and is bounded. */
  lemma ShortMonthKeepsToLimit(m: BudgetMonth, ttl: int, limit: nat, t0: int, steps: seq<Step>)
    requires Proper(m) && m.length <= Duration(Month) + 1 && FairRun(m, ttl, limit, t0, steps)
    requires IsCurrent(m, Exec(m.cal, ttl, EmptyLedger(t0), steps).clock)
    ensures Sum(Shares(m.cal, Exec(m.cal, ttl, EmptyLedger(t0), steps).calls, KeyIn(m))) <= limit
  {
    var s, k := EmptyLedger(t0), KeyIn(m);
    EmptyLedgerIsFine(m, limit, t0);
    LedgerConserves(m.cal, ttl, s, steps, k);
    UsageWithinLimit(m.cal, ttl, s, steps, k, limit, None);
    assert Balanced(m.cal, Exec(m.cal, ttl, s, steps), k);
  }

  // ---------------------------------------------------------------- a month that is longer

  /** A request for the whole of a monthly limit. */
  ghost function Whole(m: BudgetMonth, limit: nat, now: int): Request {
    Request(m.scope, limit, map[Month := limit], now)
  }

  lemma ExecOne(m: BudgetMonth, ttl: int, s: State, step: Step, rest: seq<Step>)
    requires Enabled(ttl, s, step) && Legal(m.cal, ttl, Apply(m.cal, ttl, s, step), rest)
    ensures Legal(m.cal, ttl, s, [step] + rest)
    ensures Exec(m.cal, ttl, s, [step] + rest) == Exec(m.cal, ttl, Apply(m.cal, ttl, s, step), rest)
  {
    assert ([step] + rest)[1..] == rest;
  }

  /** One more call, at the month's window. */
  ghost function Waiting(s: State, req: Request, found: Option<nat>): State {
    s.(calls := s.calls + [Reserving(req, 2, [], found)], clock := req.now)
  }

  /** A new request skips the minute and the day. */
  lemma SkipsToMonth(m: BudgetMonth, ttl: int, s: State, limit: nat, now: int, rest: seq<Step>)
    requires limit > 0 && s.clock <= now && Legal(m.cal, ttl, Waiting(s, Whole(m, limit, now), None), rest)
    ensures var req, a := Whole(m, limit, now), Advance(|s.calls|, 1, now);
            && Legal(m.cal, ttl, s, [Begin(req)] + ([a] + ([a] + rest)))
            && Exec(m.cal, ttl, s, [Begin(req)] + ([a] + ([a] + rest))) == Exec(m.cal, ttl, Waiting(s, req, None), rest)
  {
    var cal, req, a := m.cal, Whole(m, limit, now), Advance(|s.calls|, 1, now);
    var s1 := Apply(cal, ttl, s, Begin(req));
    var s2 := Apply(cal, ttl, s1, a);
    assert s2.calls == s.calls + [Reserving(req, 1, [], None)];
    var s3 := Apply(cal, ttl, s2, a);
    assert s3.calls == s.calls + [Reserving(req, 2, [], None)];
    ExecOne(m, ttl, s2, a, rest);
    ExecOne(m, ttl, s1, a, [a] + rest);
    ExecOne(m, ttl, s, Begin(req), [a] + ([a] + rest));
  }

  /** The state with the month's counter found or made, and its position. */
  ghost function Opened(m: BudgetMonth, s: State, now: int): State {
    LookUp(s, KeyIn(m), now).0
  }

  ghost function Place(m: BudgetMonth, s: State, now: int): nat {
    LookUp(s, KeyIn(m), now).1
  }

  lemma FindsMonth(m: BudgetMonth, ttl: int, s: State, limit: nat, now: int, rest: seq<Step>)
    requires Proper(m) && limit > 0 && s.clock <= now && IsCurrent(m, now)
    requires Legal(m.cal, ttl, Waiting(Opened(m, s, now), Whole(m, limit, now), Some(Place(m, s, now))), rest)
    ensures var a, w := Advance(|s.calls|, 1, now), Waiting(s, Whole(m, limit, now), None);
            && Legal(m.cal, ttl, w, [a] + rest)
            && Exec(m.cal, ttl, w, [a] + rest)
               == Exec(m.cal, ttl, Waiting(Opened(m, s, now), Whole(m, limit, now), Some(Place(m, s, now))), rest)
  {
    var cal, req, a := m.cal, Whole(m, limit, now), Advance(|s.calls|, 1, now);
    var w := Waiting(s, req, None);
    assert KeyOf(cal, req, Month) == KeyIn(m) && WINDOWS[2] == Month;
    var w' := Apply(cal, ttl, w, a);
    assert w'.calls == s.calls + [Reserving(req, 2, [], Some(Place(m, s, now)))];
    ExecOne(m, ttl, w, a, rest);
  }

  /** One more recorded reservation of the whole month, and its counter used up. */
  ghost function UsedUp(m: BudgetMonth, s: State, id: nat, limit: nat, now: int): State
    requires id < |s.cells|
  {
    var charged := WithCounter(s, id, Counter(limit, now + Duration(Month)), now);
    charged.(calls := s.calls + [Recorded(Whole(m, limit, now), [Month])])
  }

  /** A counter that is new or has expired grants the whole month. */
  lemma ChargesMonth(m: BudgetMonth, ttl: int, s: State, id: nat, limit: nat, now: int, rest: seq<Step>)
    requires limit > 0 && s.clock <= now && id < |s.cells|
    requires Renewed(s.cells[id].counter, Month, now) == Counter(0, now + Duration(Month))
    requires Legal(m.cal, ttl, UsedUp(m, s, id, limit, now), rest)
    ensures var a, w := Advance(|s.calls|, 1, now), Waiting(s, Whole(m, limit, now), Some(id));
            && Legal(m.cal, ttl, w, [a] + ([a] + rest))
            && Exec(m.cal, ttl, w, [a] + ([a] + rest)) == Exec(m.cal, ttl, UsedUp(m, s, id, limit, now), rest)
  {
    var cal, req, a := m.cal, Whole(m, limit, now), Advance(|s.calls|, 1, now);
    var w := Waiting(s, req, Some(id));
    assert LocalLimit(limit, 1) == limit && WINDOWS[2] == Month && w.calls[|s.calls|].held + [Month] == [Month];
    var w1 := Apply(cal, ttl, w, a);
    assert w1.calls == s.calls + [Reserving(req, 3, [Month], None)];
    var w2 := Apply(cal, ttl, w1, a);
    assert w2.calls == s.calls + [Recorded(req, [Month])];
    ExecOne(m, ttl, w1, a, rest);
    ExecOne(m, ttl, w, a, [a] + rest);
  }

  /** The steps of a whole pre-check. */
  ghost function PreCheckSteps(m: BudgetMonth, limit: nat, now: int, i: nat, rest: seq<Step>): seq<Step> {
    var a := Advance(i, 1, now);
    [Begin(Whole(m, limit, now))] + ([a] + ([a] + ([a] + ([a] + ([a] + rest)))))
  }

  lemma MonthGranted(m: BudgetMonth, ttl: int, s: State, limit: nat, now: int, rest: seq<Step>)
    requires Proper(m) && limit > 0 && s.clock <= now && IsCurrent(m, now)
    requires Place(m, s, now) < |Opened(m, s, now).cells|
    requires Renewed(Opened(m, s, now).cells[Place(m, s, now)].counter, Month, now) == Counter(0, now + Duration(Month))
    requires Legal(m.cal, ttl, UsedUp(m, Opened(m, s, now), Place(m, s, now), limit, now), rest)
    ensures var steps := PreCheckSteps(m, limit, now, |s.calls|, rest);
            && Legal(m.cal, ttl, s, steps)
            && Exec(m.cal, ttl, s, steps)
               == Exec(m.cal, ttl, UsedUp(m, Opened(m, s, now), Place(m, s, now), limit, now), rest)
  {
    var a := Advance(|s.calls|, 1, now);
    ChargesMonth(m, ttl, Opened(m, s, now), Place(m, s, now), limit, now, rest);
    FindsMonth(m, ttl, s, limit, now, [a] + ([a] + rest));
    SkipsToMonth(m, ttl, s, limit, now, [a] + ([a] + ([a] + rest)));
  }

  /** Steps that only pre-check whole months are within the limit. */
  ghost predicate OnlyPreChecks(m: BudgetMonth, limit: nat, steps: seq<Step>) {
    forall i | 0 <= i < |steps| :: steps[i].Advance? || exists now :: steps[i] == Begin(Whole(m, limit, now))
  }

  lemma {:induction false} PreChecksAreWithin(m: BudgetMonth, ttl: int, limit: nat, s: State, steps: seq<Step>)
    requires Legal(m.cal, ttl, s, steps) && OnlyPreChecks(m, limit, steps)
    ensures RunWithin(m.cal, ttl, s, steps, KeyIn(m), limit, None)
    decreases |steps|
  {
    if |steps| > 0 {
      assert forall i | 0 <= i < |steps[1..]| :: steps[1..][i] == steps[i + 1];
      PreChecksAreWithin(m, ttl, limit, Apply(m.cal, ttl, s, steps[0]), steps[1..]);
    }
  }

  lemma SharesOfBoth(m: BudgetMonth, limit: nat, a: Call, b: Call)
    requires Proper(m) && a.Recorded? && b.Recorded? && a.held == b.held == [Month]
    requires a.req == Whole(m, limit, a.req.now) && b.req == Whole(m, limit, b.req.now)
    requires IsCurrent(m, a.req.now) && IsCurrent(m, b.req.now)
    ensures Sum(Shares(m.cal, [a, b], KeyIn(m))) == 2 * limit
  {
    assert Shares(m.cal, [a, b], KeyIn(m)) == [] + [limit] + [limit];
    SumAppend([], limit);
    SumAppend([] + [limit], limit);
  }

  /** The ledger after the whole limit was granted at a first moment. */
  ghost function SpentOnce(m: BudgetMonth, limit: nat, first: int): State {
    State([Cell(KeyIn(m), Counter(limit, first + Duration(Month)))], map[KeyIn(m) := 0],
          [Recorded(Whole(m, limit, first), [Month])], first)
  }

  /** The ledger after it was granted once more. */
  ghost function SpentTwice(m: BudgetMonth, limit: nat, first: int, again: int): State {
    State([Cell(KeyIn(m), Counter(limit, again + Duration(Month)))], map[KeyIn(m) := 0],
          [Recorded(Whole(m, limit, first), [Month]), Recorded(Whole(m, limit, again), [Month])], again)
  }

  lemma FirstGrant(m: BudgetMonth, ttl: int, limit: nat, first: int, rest: seq<Step>)
    requires Proper(m) && limit > 0 && IsCurrent(m, first) && Legal(m.cal, ttl, SpentOnce(m, limit, first), rest)
    ensures var s, steps := EmptyLedger(first), PreCheckSteps(m, limit, first, 0, rest);
            && Legal(m.cal, ttl, s, steps)
            && Exec(m.cal, ttl, s, steps) == Exec(m.cal, ttl, SpentOnce(m, limit, first), rest)
  {
    var s := EmptyLedger(first);
    assert UsedUp(m, Opened(m, s, first), 0, limit, first) == SpentOnce(m, limit, first);
    MonthGranted(m, ttl, s, limit, first, rest);
  }

  lemma SecondGrant(m: BudgetMonth, ttl: int, limit: nat, first: int, again: int)
    requires Proper(m) && limit > 0 && IsCurrent(m, again) && again > first + Duration(Month)
    ensures var s, steps := SpentOnce(m, limit, first), PreCheckSteps(m, limit, again, 1, []);
            Legal(m.cal, ttl, s, steps) && Exec(m.cal, ttl, s, steps) == SpentTwice(m, limit, first, again)
  {
    var s := SpentOnce(m, limit, first);
    assert UsedUp(m, Opened(m, s, again), 0, limit, again) == SpentTwice(m, limit, first, again);
    MonthGranted(m, ttl, s, limit, again, []);
  }

  lemma TwoPreChecks(m: BudgetMonth, limit: nat, first: int, again: int)
    ensures var steps := PreCheckSteps(m, limit, first, 0, PreCheckSteps(m, limit, again, 1, []));
            OnlyPreChecks(m, limit, steps) && NonNegativeUsage(steps)
  {
  }

  /** The whole limit is granted at the start of a longer month, and again when the counter has
      expired: the bucket then holds twice its limit, while its counter shows it once. */
  lemma LongMonthGrantsTwice(m: BudgetMonth, ttl: int, limit: nat) returns (steps: seq<Step>)
    requires Proper(m) && limit > 0 && m.length > Duration(Month) + 1
    ensures FairRun(m, ttl, limit, m.start, steps)
    ensures var s := Exec(m.cal, ttl, EmptyLedger(m.start), steps);
            && IsCurrent(m, s.clock) && Used(s, KeyIn(m)) == limit
            && Sum(Shares(m.cal, s.calls, KeyIn(m))) == 2 * limit
  {
    var first, again := m.start, m.start + Duration(Month) + 1;
    SecondGrant(m, ttl, limit, first, again);
    FirstGrant(m, ttl, limit, first, PreCheckSteps(m, limit, again, 1, []));
    steps := PreCheckSteps(m, limit, first, 0, PreCheckSteps(m, limit, again, 1, []));
    TwoPreChecks(m, limit, first, again);
    PreChecksAreWithin(m, ttl, limit, EmptyLedger(first), steps);
    var s := SpentTwice(m, limit, first, again);
    SharesOfBoth(m, limit, s.calls[0], s.calls[1]);
  }

  /** A monthly budget keeps to its limit in every run while the month is current exactly when the
      month is no longer than its counter lives. */
  lemma KeepsToLimitIff(m: BudgetMonth, ttl: int, limit: nat)
    requires Proper(m) && limit > 0
    ensures KeepsToLimit(m, ttl, limit) <==> m.length <= Duration(Month) + 1
  {
    if m.length <= Duration(Month) + 1 {
      forall t0, steps |
        FairRun(m, ttl, limit, t0, steps) && IsCurrent(m, Exec(m.cal, ttl, EmptyLedger(t0), steps).clock)
        ensures Sum(Shares(m.cal, Exec(m.cal, ttl, EmptyLedger(t0), steps).calls, KeyIn(m))) <= limit
      {
        ShortMonthKeepsToLimit(m, ttl, limit, t0, steps);
      }
    } else {
      var steps := LongMonthGrantsTwice(m, ttl, limit);
    }
  }
}
