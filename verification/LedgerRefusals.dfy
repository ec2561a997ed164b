/**
 Who is refused by the ledger in memory. A call that found no room in one window still holds what it
 reserved in the windows before until it has taken it back, and other calls meet it there.
 */
module LedgerRefusals {
  import opened Common
  import opened LimitKeys
  import opened Ledger
  import opened LedgerRuns

  /** What a call that is being turned away has not yet taken back. */
  ghost function ReturningBy(cal: int -> int, c: Call, k: Key): int {
    if c.RollingBack? then HeldBy(cal, c, k) else 0
  }

  ghost function Returning(cal: int -> int, calls: seq<Call>, k: Key): seq<int> {
    seq(|calls|, i requires 0 <= i < |calls| => ReturningBy(cal, calls[i], k))
  }

  /** What the other calls hold, used or let lapse. */
  ghost function Kept(cal: int -> int, calls: seq<Call>, k: Key): seq<int> {
    seq(|calls|, i requires 0 <= i < |calls| => Share(cal, calls[i], k) - ReturningBy(cal, calls[i], k))
  }

  lemma {:induction false} KeptAndReturning(cal: int -> int, calls: seq<Call>, k: Key)
    ensures Sum(Shares(cal, calls, k)) == Sum(Kept(cal, calls, k)) + Sum(Returning(cal, calls, k))
  {
    if |calls| > 0 {
      var n := |calls| - 1;
      KeptAndReturning(cal, calls[..n], k);
      assert Shares(cal, calls, k)[..n] == Shares(cal, calls[..n], k);
      assert Kept(cal, calls, k)[..n] == Kept(cal, calls[..n], k);
      assert Returning(cal, calls, k)[..n] == Returning(cal, calls[..n], k);
    }
  }

  /** The key of the window a reserving call has at hand. */
  ghost function KeyAtHand(cal: int -> int, c: Call): Key
    requires AtMetered(c)
  {
    KeyOf(cal, c.req, WINDOWS[c.next])
  }

  /** A call with a counter found for its window tries to reserve there and is turned away. */
  ghost predicate Tries(ttl: int, s: State, i: nat, peers: int, t: int) {
    Enabled(ttl, s, Advance(i, peers, t)) && AtMetered(s.calls[i]) && s.calls[i].found.Some?
  }

  ghost predicate IsRefused(cal: int -> int, ttl: int, s: State, i: nat, peers: int, t: int)
    requires Tries(ttl, s, i, peers, t)
  {
    Apply(cal, ttl, s, Advance(i, peers, t)).calls[i].RollingBack?
  }

  /** What the counter shows to an attempt while its bucket is current. */
  lemma AttemptMeets(cal: int -> int, ttl: int, s: State, i: nat, peers: int, t: int)
    requires Inv(cal, s) && Tries(ttl, s, i, peers, t) && Young(KeyAtHand(cal, s.calls[i]), t)
    ensures var c := s.calls[i];
            IsRefused(cal, ttl, s, i, peers, t)
            <==> Sum(Shares(cal, s.calls, KeyAtHand(cal, c))) + c.req.amount
                 > LocalLimit(c.req.limits[WINDOWS[c.next]], peers)
  {
    var c := s.calls[i];
    assert FoundOk(cal, s, c) && Balanced(cal, s, KeyAtHand(cal, c));
    YoungIsCurrent(s, c.found.value, t);
    AttemptIs(cal, s, i, peers, t);
  }

  /** After every run, an attempt on a current bucket is refused exactly when what is kept, what is
      being taken back and the request together exceed the node's share. So a request that fits what
      is kept is refused exactly when what is being taken back exceeds the room it leaves. */
  lemma RefusedIff(cal: int -> int, ttl: int, s: State, steps: seq<Step>, i: nat, peers: int, t: int)
    requires Calendar(cal) && Inv(cal, s) && Legal(cal, ttl, s, steps) && NonNegativeUsage(steps)
    requires Tries(ttl, Exec(cal, ttl, s, steps), i, peers, t)
    requires Young(KeyAtHand(cal, Exec(cal, ttl, s, steps).calls[i]), t)
    ensures var s' := Exec(cal, ttl, s, steps);
            var c := s'.calls[i];
            var k := KeyAtHand(cal, c);
            var kept, returning := Sum(Kept(cal, s'.calls, k)), Sum(Returning(cal, s'.calls, k));
            var room := LocalLimit(c.req.limits[WINDOWS[c.next]], peers) - kept - c.req.amount;
            && returning >= 0
            && (IsRefused(cal, ttl, s', i, peers, t) <==> returning > room)
  {
    var s' := Exec(cal, ttl, s, steps);
    var k := KeyAtHand(cal, s'.calls[i]);
    LedgerConserves(cal, ttl, s, steps, k);
    AttemptMeets(cal, ttl, s', i, peers, t);
    KeptAndReturning(cal, s'.calls, k);
    var zeros := seq(|s'.calls|, j => 0);
    SumZero(zeros);
    assert forall j | 0 <= j < |s'.calls| :: CallOk(s'.calls[j], s'.clock);
    SumMonotone(zeros, Returning(cal, s'.calls, k));
  }

  // ---------------------------------------------------------------- a request that fits is refused

  /** Has room in its minute, but not in its day. */
  ghost function TooMuch(scope: string): Request {
    Request(scope, 5, map[Minute := 10, Day := 3], 0)
  }

  ghost function Fitting(scope: string): Request {
    Request(scope, 7, map[Minute := 10], 0)
  }

  ghost function MinuteCell(cal: int -> int, scope: string, used: int): Cell {
    Cell(KeyFor(cal, scope, Minute, 0), Counter(used, Duration(Minute)))
  }

  ghost function DayCell(cal: int -> int, scope: string): Cell {
    Cell(KeyFor(cal, scope, Day, 0), Counter(0, Duration(Day)))
  }

  /** The ledger of both counters, with these calls. */
  ghost function Ledger2(cal: int -> int, scope: string, calls: seq<Call>): State {
    State([MinuteCell(cal, scope, 5), DayCell(cal, scope)],
          map[KeyFor(cal, scope, Minute, 0) := 0, KeyFor(cal, scope, Day, 0) := 1], calls, 0)
  }

  lemma ThenOne(cal: int -> int, ttl: int, s: State, steps: seq<Step>, step: Step)
    requires Legal(cal, ttl, s, steps) && Enabled(ttl, Exec(cal, ttl, s, steps), step)
    ensures Legal(cal, ttl, s, steps + [step])
    ensures Exec(cal, ttl, s, steps + [step]) == Apply(cal, ttl, Exec(cal, ttl, s, steps), step)
    decreases |steps|
  {
    if |steps| == 0 {
      assert (steps + [step])[1..] == [];
    } else {
      assert (steps + [step])[1..] == steps[1..] + [step];
      ThenOne(cal, ttl, Apply(cal, ttl, s, steps[0]), steps[1..], step);
    }
  }

  /** The first request charges its minute. */
  lemma MinuteCharged(cal: int -> int, ttl: int, scope: string) returns (steps: seq<Step>)
    ensures Legal(cal, ttl, NewLedger, steps) && NonNegativeUsage(steps)
    ensures Exec(cal, ttl, NewLedger, steps)
            == State([MinuteCell(cal, scope, 5)], map[KeyFor(cal, scope, Minute, 0) := 0],
                     [Reserving(TooMuch(scope), 1, [Minute], None)], 0)
  {
    var a := Advance(0, 1, 0);
    ThenOne(cal, ttl, NewLedger, [], Begin(TooMuch(scope)));
    steps := [] + [Begin(TooMuch(scope))];
    assert Exec(cal, ttl, NewLedger, steps).calls == [Reserving(TooMuch(scope), 0, [], None)];
    ThenOne(cal, ttl, NewLedger, steps, a);
    steps := steps + [a];
    assert Exec(cal, ttl, NewLedger, steps).cells == [MinuteCell(cal, scope, 0)];
    assert Exec(cal, ttl, NewLedger, steps).calls == [Reserving(TooMuch(scope), 0, [], Some(0))];
    ThenOne(cal, ttl, NewLedger, steps, a);
    steps := steps + [a];
    assert Exec(cal, ttl, NewLedger, steps).cells == [MinuteCell(cal, scope, 5)];
    assert [] + [Minute] == [Minute];
    assert Exec(cal, ttl, NewLedger, steps).calls == [Reserving(TooMuch(scope), 1, [Minute], None)];
  }

  /** It then finds no room in its day. */
  lemma DayRefuses(cal: int -> int, ttl: int, scope: string) returns (steps: seq<Step>)
    ensures Legal(cal, ttl, NewLedger, steps) && NonNegativeUsage(steps)
    ensures Exec(cal, ttl, NewLedger, steps) == Ledger2(cal, scope, [RollingBack(TooMuch(scope), [Minute], None)])
  {
    var a := Advance(0, 1, 0);
    steps := MinuteCharged(cal, ttl, scope);
    ThenOne(cal, ttl, NewLedger, steps, a);
    steps := steps + [a];
    assert Exec(cal, ttl, NewLedger, steps) == Ledger2(cal, scope, [Reserving(TooMuch(scope), 1, [Minute], Some(1))]);
    ThenOne(cal, ttl, NewLedger, steps, a);
    steps := steps + [a];
    assert Exec(cal, ttl, NewLedger, steps) == Ledger2(cal, scope, [RollingBack(TooMuch(scope), [Minute], None)]);
  }

  /** Before it has taken back its minute, another request is refused there although nothing is kept. */
  lemma FittingRequestRefused(cal: int -> int, ttl: int, scope: string) returns (steps: seq<Step>)
    ensures Legal(cal, ttl, NewLedger, steps) && NonNegativeUsage(steps)
    ensures var s := Exec(cal, ttl, NewLedger, steps);
            && Tries(ttl, s, 1, 1, 0) && s.calls[1].req == Fitting(scope)
            && Sum(Kept(cal, s.calls, KeyAtHand(cal, s.calls[1]))) == 0
            && IsRefused(cal, ttl, s, 1, 1, 0)
  {
    var a, out := Advance(1, 1, 0), RollingBack(TooMuch(scope), [Minute], None);
    steps := DayRefuses(cal, ttl, scope);
    ThenOne(cal, ttl, NewLedger, steps, Begin(Fitting(scope)));
    steps := steps + [Begin(Fitting(scope))];
    assert Exec(cal, ttl, NewLedger, steps) == Ledger2(cal, scope, [out, Reserving(Fitting(scope), 0, [], None)]);
    ThenOne(cal, ttl, NewLedger, steps, a);
    steps := steps + [a];
    var s := Ledger2(cal, scope, [out, Reserving(Fitting(scope), 0, [], Some(0))]);
    assert Exec(cal, ttl, NewLedger, steps) == s;
    SumZero(Kept(cal, s.calls, KeyAtHand(cal, s.calls[1])));
    AttemptIs(cal, s, 1, 1, 0);
  }
}
