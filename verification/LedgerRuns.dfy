/**
 The ledger under concurrency. Each pre-check, roll-back, reconciliation, stale clean-up and
 counter sweep is a sequence of atomic steps, one per lock section, and the steps of different
 calls interleave freely while the clock moves on. Finding a counter and charging it are two lock
 sections, and a sweep in between may take the counter out of the store.
 */
module LedgerRuns {
  import opened Common
  import opened LimitKeys
  import opened Ledger

  datatype Request = Request(scope: string, amount: int, limits: map<Window, int>, now: int)

  /** The life of one reservation, from its pre-check to its end; `found` is the counter it has
      looked up for the window at hand. */
  datatype Call =
    | Reserving(req: Request, next: nat, held: seq<Window>, found: Option<nat>)
    | RollingBack(req: Request, held: seq<Window>, found: Option<nat>)
    | TurnedAway(req: Request)
    | Recorded(req: Request, held: seq<Window>)
    | Settling(req: Request, actual: int, held: seq<Window>, settled: seq<Window>, found: Option<nat>)
    | Lapsed(req: Request, held: seq<Window>)

  /** A counter object and the key it was made for. */
  datatype Cell = Cell(key: Key, counter: Counter)

  /** All counter objects ever made, and the store's table of the current ones. */
  datatype State = State(cells: seq<Cell>, table: map<Key, nat>, calls: seq<Call>, clock: int)

  datatype Step =
    | Begin(req: Request)                  // PreCheck is called
    | Advance(i: nat, peers: int, t: int)  // one lock section of call i
    | BeginSettle(i: nat, actual: int)     // Reconcile removes the recorded reservation
    | Lapse(i: nat, t: int)                // the cleaner drops a stale reservation
    | Sweep(k: Key, t: int)                // a sync that read the clock at t comes to the key

  ghost predicate Enabled(ttl: int, s: State, step: Step) {
    match step
    case Begin(req) => req.now >= s.clock && req.amount > 0
    case Advance(i, _, t) =>
      && t >= s.clock && i < |s.calls|
      && (s.calls[i].Reserving? || s.calls[i].RollingBack? || s.calls[i].Settling?)
      && (s.calls[i].Settling? ==> s.calls[i].held != [])
      && (Found(s.calls[i]).Some? ==> Found(s.calls[i]).value < |s.cells|)
    case BeginSettle(i, _) => i < |s.calls| && s.calls[i].Recorded?
    case Lapse(i, t) => t >= s.clock && i < |s.calls| && s.calls[i].Recorded? && t - s.calls[i].req.now > ttl
    case Sweep(k, _) => k in s.table && s.table[k] < |s.cells|
  }

  ghost function KeyOf(cal: int -> int, req: Request, w: Window): Key {
    KeyFor(cal, req.scope, w, req.now)
  }

  ghost function Found(c: Call): Option<nat> {
    if c.Reserving? || c.RollingBack? || c.Settling? then c.found else None
  }

  /** Find or create the counter object of a key. */
  ghost function LookUp(s: State, k: Key, t: int): (State, nat) {
    if k in s.table then (s.(clock := t), s.table[k])
    else
      var cell := Cell(k, Counter(0, t + Duration(k.window)));
      (s.(cells := s.cells + [cell], table := s.table[k := |s.cells|], clock := t), |s.cells|)
  }

  ghost function WithCall(s: State, i: nat, c: Call): State
    requires i < |s.calls|
  {
    s.(calls := s.calls[i := c])
  }

  ghost function WithCounter(s: State, id: nat, c: Counter, t: int): State
    requires id < |s.cells|
  {
    s.(cells := s.cells[id := s.cells[id].(counter := c)], clock := t)
  }

  /** The next lock section of a reservation loop: skip an unmetered window, else find its
      counter, else try to reserve in the counter found. */
  ghost function ReserveNext(cal: int -> int, s: State, i: nat, peers: int, t: int): State
    requires i < |s.calls| && s.calls[i].Reserving? && (s.calls[i].found.Some? ==> s.calls[i].found.value < |s.cells|)
  {
    var c := s.calls[i];
    if c.next >= |WINDOWS| then WithCall(s, i, Recorded(c.req, c.held)).(clock := t)
    else
      var w := WINDOWS[c.next];
      if !Metered(c.req.limits, w) then WithCall(s, i, Reserving(c.req, c.next + 1, c.held, None)).(clock := t)
      else if c.found.None? then
        var (s', id) := LookUp(s, KeyOf(cal, c.req, w), t);
        WithCall(s', i, Reserving(c.req, c.next, c.held, Some(id)))
      else
        var now := Renewed(s.cells[c.found.value].counter, w, t);
        if HasRoom(now, c.req.amount, c.req.limits[w], peers)
        then WithCall(WithCounter(s, c.found.value, now.(used := now.used + c.req.amount), t), i,
                      Reserving(c.req, c.next + 1, c.held + [w], None))
        else WithCall(WithCounter(s, c.found.value, now, t), i, RollingBack(c.req, c.held, None))
  }

  /** The next lock section of a correction loop: find the first held window's counter, or correct
      the counter found and move on to `after`. */
  ghost function CorrectNext(cal: int -> int, s: State, i: nat, delta: int, looking: Option<nat> -> Call, after: Call,
      t: int): State
    requires i < |s.calls| && (s.calls[i].RollingBack? || s.calls[i].Settling?) && s.calls[i].held != []
    requires s.calls[i].found.Some? ==> s.calls[i].found.value < |s.cells|
  {
    var c := s.calls[i];
    if c.found.None? then
      var (s', id) := LookUp(s, KeyOf(cal, c.req, c.held[0]), t);
      WithCall(s', i, looking(Some(id)))
    else WithCall(WithCounter(s, c.found.value, Corrected(s.cells[c.found.value].counter, delta), t), i, after)
  }

  ghost function Apply(cal: int -> int, ttl: int, s: State, step: Step): State
    requires Enabled(ttl, s, step)
  {
    match step
    case Begin(req) => s.(calls := s.calls + [Reserving(req, 0, [], None)], clock := req.now)
    case Advance(i, peers, t) =>
      (match s.calls[i]
       case Reserving(_, _, _, _) => ReserveNext(cal, s, i, peers, t)
       case RollingBack(req, held, _) =>
         if held == [] then WithCall(s, i, TurnedAway(req)).(clock := t)
         else CorrectNext(cal, s, i, -req.amount, f => RollingBack(req, held, f), RollingBack(req, held[1..], None), t)
       case Settling(req, actual, held, settled, _) =>
         CorrectNext(cal, s, i, actual - req.amount, f => Settling(req, actual, held, settled, f),
                     Settling(req, actual, held[1..], settled + [held[0]], None), t)
       case _ => s)
    case BeginSettle(i, actual) => WithCall(s, i, Settling(s.calls[i].req, actual, s.calls[i].held, [], None))
    case Lapse(i, t) => WithCall(s, i, Lapsed(s.calls[i].req, s.calls[i].held)).(clock := t)
    case Sweep(k, t) =>
      var s' := s.(clock := if t > s.clock then t else s.clock);
      if t > s.cells[s.table[k]].counter.expiresAt then s'.(table := s.table - {k}) else s'
  }

  /** A run from some state: every step is enabled where it is taken. */
  ghost predicate Legal(cal: int -> int, ttl: int, s: State, steps: seq<Step>)
    decreases |steps|
  {
    |steps| == 0 || (Enabled(ttl, s, steps[0]) && Legal(cal, ttl, Apply(cal, ttl, s, steps[0]), steps[1..]))
  }

  ghost function Exec(cal: int -> int, ttl: int, s: State, steps: seq<Step>): State
    requires Legal(cal, ttl, s, steps)
    decreases |steps|
  {
    if |steps| == 0 then s else Exec(cal, ttl, Apply(cal, ttl, s, steps[0]), steps[1..])
  }

  // ---------------------------------------------------------------- who accounts for a counter

  /** Held by a call in flight or by a recorded reservation, not yet settled or undone. */
  ghost function HeldBy(cal: int -> int, c: Call, k: Key): int {
    if (c.Reserving? || c.RollingBack? || c.Recorded? || c.Settling?)
       && k.window in c.held && KeyOf(cal, c.req, k.window) == k
    then c.req.amount else 0
  }

  /** The actual usage of a reconciled reservation. */
  ghost function SettledBy(cal: int -> int, c: Call, k: Key): int {
    if c.Settling? && k.window in c.settled && KeyOf(cal, c.req, k.window) == k then c.actual else 0
  }

  /** The amount of a reservation that was cleaned up without being reconciled. */
  ghost function LapsedBy(cal: int -> int, c: Call, k: Key): int {
    if c.Lapsed? && k.window in c.held && KeyOf(cal, c.req, k.window) == k then c.req.amount else 0
  }

  ghost function Share(cal: int -> int, c: Call, k: Key): int {
    HeldBy(cal, c, k) + SettledBy(cal, c, k) + LapsedBy(cal, c, k)
  }

  ghost function Shares(cal: int -> int, calls: seq<Call>, k: Key): seq<int> {
    seq(|calls|, i requires 0 <= i < |calls| => Share(cal, calls[i], k))
  }

  ghost function HeldShares(cal: int -> int, calls: seq<Call>, k: Key): seq<int> {
    seq(|calls|, i requires 0 <= i < |calls| => HeldBy(cal, calls[i], k))
  }

  ghost function SettledShares(cal: int -> int, calls: seq<Call>, k: Key): seq<int> {
    seq(|calls|, i requires 0 <= i < |calls| => SettledBy(cal, calls[i], k))
  }

  ghost function LapsedShares(cal: int -> int, calls: seq<Call>, k: Key): seq<int> {
    seq(|calls|, i requires 0 <= i < |calls| => LapsedBy(cal, calls[i], k))
  }

  lemma SharesUpdate(cal: int -> int, calls: seq<Call>, i: nat, c: Call, k: Key)
    requires i < |calls|
    ensures Sum(Shares(cal, calls[i := c], k)) == Sum(Shares(cal, calls, k)) - Share(cal, calls[i], k) + Share(cal, c, k)
  {
    assert Shares(cal, calls[i := c], k) == Shares(cal, calls, k)[i := Share(cal, c, k)];
    SumUpdate(Shares(cal, calls, k), i, Share(cal, c, k));
  }

  lemma SharesAppend(cal: int -> int, calls: seq<Call>, c: Call, k: Key)
    ensures Sum(Shares(cal, calls + [c], k)) == Sum(Shares(cal, calls, k)) + Share(cal, c, k)
  {
    assert Shares(cal, calls + [c], k) == Shares(cal, calls, k) + [Share(cal, c, k)];
    SumAppend(Shares(cal, calls, k), Share(cal, c, k));
  }

  lemma {:induction false} SharesAreThreeSums(cal: int -> int, calls: seq<Call>, k: Key)
    ensures Sum(Shares(cal, calls, k))
            == Sum(HeldShares(cal, calls, k)) + Sum(SettledShares(cal, calls, k)) + Sum(LapsedShares(cal, calls, k))
  {
    if |calls| > 0 {
      var n := |calls| - 1;
      SharesAreThreeSums(cal, calls[..n], k);
      assert Shares(cal, calls, k)[..n] == Shares(cal, calls[..n], k);
      assert HeldShares(cal, calls, k)[..n] == HeldShares(cal, calls[..n], k);
      assert SettledShares(cal, calls, k)[..n] == SettledShares(cal, calls[..n], k);
      assert LapsedShares(cal, calls, k)[..n] == LapsedShares(cal, calls[..n], k);
    }
  }

  // ---------------------------------------------------------------- the invariant

  ghost predicate Distinct(ws: seq<Window>) {
    forall i, j | 0 <= i < j < |ws| :: ws[i] != ws[j]
  }

  ghost predicate CallOk(c: Call, clock: int) {
    && c.req.amount > 0 && c.req.now <= clock
    && match c
       case Reserving(_, next, held, _) =>
         Distinct(held) && forall w | w in held :: w in WINDOWS[..if next < 3 then next else 3]
       case RollingBack(_, held, _) => Distinct(held)
       case TurnedAway(_) => true
       case Recorded(_, held) => Distinct(held)
       case Settling(_, actual, held, settled, _) => actual >= 0 && Distinct(held + settled)
       case Lapsed(_, held) => Distinct(held)
  }

  /** How long a counter of this key is sure to live: from the start of its bucket for one window. */
  ghost predicate Young(k: Key, clock: int) {
    clock <= k.start + Duration(k.window)
  }

  ghost function Used(s: State, k: Key): int {
    if k in s.table && s.table[k] < |s.cells| then s.cells[s.table[k]].counter.used else 0
  }

  /** The table leads to counters of its keys, and no counter expires before its bucket's window is over. */
  ghost predicate TableOk(s: State) {
    && (forall k | k in s.table :: s.table[k] < |s.cells| && s.cells[s.table[k]].key == k)
    && (forall id | 0 <= id < |s.cells| ::
          s.cells[id].counter.expiresAt >= s.cells[id].key.start + Duration(s.cells[id].key.window))
  }

  /** The window a call is working on. */
  ghost function AtHand(c: Call): Option<Window> {
    if c.Reserving? && c.next < |WINDOWS| then Some(WINDOWS[c.next])
    else if (c.RollingBack? || c.Settling?) && c.held != [] then Some(c.held[0])
    else None
  }

  /** What a call has found is a counter of its key, and the current one while the key is young. */
  ghost predicate FoundOk(cal: int -> int, s: State, c: Call) {
    Found(c).Some? ==>
      && AtHand(c).Some? && Found(c).value < |s.cells|
      && var k := KeyOf(cal, c.req, AtHand(c).value);
         && s.cells[Found(c).value].key == k
         && (Young(k, s.clock) ==> k in s.table && s.table[k] == Found(c).value)
  }

  ghost predicate Balanced(cal: int -> int, s: State, k: Key) {
    Young(k, s.clock) ==> Used(s, k) == Sum(Shares(cal, s.calls, k))
  }

  ghost predicate Inv(cal: int -> int, s: State) {
    && TableOk(s)
    && (forall i | 0 <= i < |s.calls| :: CallOk(s.calls[i], s.clock) && FoundOk(cal, s, s.calls[i]))
    && forall k :: Balanced(cal, s, k)
  }

  const NewLedger := State([], map[], [], 0)

  lemma SharesNonNegative(cal: int -> int, s: State, k: Key)
    requires forall i | 0 <= i < |s.calls| :: CallOk(s.calls[i], s.clock)
    ensures forall i | 0 <= i < |s.calls| :: Shares(cal, s.calls, k)[i] >= 0
  {
  }

  /** On a young key a correction by delta is exact whenever the call's own share covers it:
      the clamp at zero does not fire. */
  lemma ClampIdle(cal: int -> int, s: State, i: nat, k: Key, delta: int)
    requires Inv(cal, s) && i < |s.calls| && Young(k, s.clock)
    requires Share(cal, s.calls[i], k) + delta >= 0
    ensures Used(s, k) + delta >= 0
  {
    SharesNonNegative(cal, s, k);
    SumAtLeast(Shares(cal, s.calls, k), i);
    assert Balanced(cal, s, k);
  }

  // ---------------------------------------------------------------- looking up

  /** A lookup changes no counter, and what it finds is right. */
  lemma LookUpIsQuiet(s: State, key: Key, t: int)
    requires TableOk(s) && t >= s.clock && key.start <= t
    ensures var (s', id) := LookUp(s, key, t);
            && TableOk(s') && s'.calls == s.calls && s'.clock == t
            && id < |s'.cells| && s'.cells[id].key == key && key in s'.table && s'.table[key] == id
            && |s.cells| <= |s'.cells| && (forall j | 0 <= j < |s.cells| :: s'.cells[j] == s.cells[j])
            && (forall k | k in s.table :: k in s'.table && s'.table[k] == s.table[k])
            && (forall k :: Used(s', k) == Used(s, k))
  {
  }

  /** A call that only moves on, its share unchanged, keeps every key balanced. */
  lemma QuietKeepsBalance(cal: int -> int, s: State, s': State, i: nat, c: Call, k: Key)
    requires Inv(cal, s) && i < |s.calls| && s'.calls == s.calls[i := c] && s'.clock >= s.clock
    requires Used(s', k) == Used(s, k) && Share(cal, c, k) == Share(cal, s.calls[i], k)
    ensures Balanced(cal, s', k)
  {
    assert Balanced(cal, s, k);
    SharesUpdate(cal, s.calls, i, c, k);
  }

  /** A step that leaves the counters alone keeps what the other calls have found. */
  lemma QuietKeepsInv(cal: int -> int, s: State, s': State, i: nat, c: Call)
    requires Inv(cal, s) && i < |s.calls| && s'.calls == s.calls[i := c] && s'.clock >= s.clock
    requires TableOk(s') && CallOk(c, s'.clock) && FoundOk(cal, s', c)
    requires |s.cells| <= |s'.cells| && (forall j | 0 <= j < |s.cells| :: s'.cells[j] == s.cells[j])
    requires forall k | k in s.table :: k in s'.table && s'.table[k] == s.table[k]
    requires forall k :: Used(s', k) == Used(s, k)
    requires forall k :: Share(cal, c, k) == Share(cal, s.calls[i], k)
    ensures Inv(cal, s')
  {
    forall k
      ensures Balanced(cal, s', k)
    {
      QuietKeepsBalance(cal, s, s', i, c, k);
    }
  }

  lemma LookUpKeepsInv(cal: int -> int, s: State, i: nat, c: Call, w: Window, t: int)
    requires Calendar(cal) && Inv(cal, s) && i < |s.calls| && t >= s.clock
    requires AtHand(s.calls[i]) == Some(w) && CallOk(c, t)
    requires var (s', id) := LookUp(s, KeyOf(cal, s.calls[i].req, w), t);
             c.req == s.calls[i].req && AtHand(c) == Some(w) && Found(c) == Some(id)
    requires forall k :: Share(cal, c, k) == Share(cal, s.calls[i], k)
    ensures Inv(cal, WithCall(LookUp(s, KeyOf(cal, s.calls[i].req, w), t).0, i, c))
  {
    var key := KeyOf(cal, s.calls[i].req, w);
    assert CallOk(s.calls[i], s.clock);
    BucketStarted(cal, w, s.calls[i].req.now);
    LookUpIsQuiet(s, key, t);
    QuietKeepsInv(cal, s, WithCall(LookUp(s, key, t).0, i, c), i, c);
  }

  // ---------------------------------------------------------------- charging

  /** Changing one counter changes what its key is charged and nothing else. */
  lemma CounterChanged(s: State, id: nat, c: Counter, t: int, k: Key)
    requires TableOk(s) && id < |s.cells| && c.expiresAt >= s.cells[id].key.start + Duration(s.cells[id].key.window)
    ensures var s' := WithCounter(s, id, c, t);
            && TableOk(s')
            && Used(s', k) == (if k in s.table && s.table[k] == id then c.used else Used(s, k))
  {
  }

  /** Charging the counter a call has found keeps every key balanced when the call's share moves
      by what a young counter was charged. */
  lemma ChargeKeepsBalance(cal: int -> int, s: State, i: nat, c: Call, counter: Counter, delta: int, t: int, k: Key)
    requires Inv(cal, s) && i < |s.calls| && Found(s.calls[i]).Some? && t >= s.clock && AtHand(s.calls[i]).Some?
    requires Found(s.calls[i]).value < |s.cells|
    requires var key := KeyOf(cal, s.calls[i].req, AtHand(s.calls[i]).value);
             && Share(cal, c, k) == Share(cal, s.calls[i], k) + (if k == key then delta else 0)
             && counter.expiresAt >= key.start + Duration(key.window)
             && (Young(key, t) ==> counter.used == s.cells[Found(s.calls[i]).value].counter.used + delta)
    ensures Balanced(cal, WithCall(WithCounter(s, Found(s.calls[i]).value, counter, t), i, c), k)
  {
    assert FoundOk(cal, s, s.calls[i]) && Balanced(cal, s, k);
    CounterChanged(s, Found(s.calls[i]).value, counter, t, k);
    SharesUpdate(cal, s.calls, i, c, k);
  }

  lemma ChargeKeepsInv(cal: int -> int, s: State, i: nat, c: Call, counter: Counter, delta: int, t: int)
    requires Inv(cal, s) && i < |s.calls| && Found(s.calls[i]).Some? && t >= s.clock && AtHand(s.calls[i]).Some?
    requires Found(s.calls[i]).value < |s.cells| && CallOk(c, t) && Found(c).None?
    requires var key := KeyOf(cal, s.calls[i].req, AtHand(s.calls[i]).value);
             && (forall k :: Share(cal, c, k) == Share(cal, s.calls[i], k) + (if k == key then delta else 0))
             && counter.expiresAt >= key.start + Duration(key.window)
             && (Young(key, t) ==> counter.used == s.cells[Found(s.calls[i]).value].counter.used + delta)
    ensures Inv(cal, WithCall(WithCounter(s, Found(s.calls[i]).value, counter, t), i, c))
  {
    var id := Found(s.calls[i]).value;
    var s' := WithCall(WithCounter(s, id, counter, t), i, c);
    assert FoundOk(cal, s, s.calls[i]);
    CounterChanged(s, id, counter, t, s.cells[id].key);
    forall k
      ensures Balanced(cal, s', k)
    {
      ChargeKeepsBalance(cal, s, i, c, counter, delta, t, k);
    }
    forall j | 0 <= j < |s'.calls|
      ensures CallOk(s'.calls[j], t) && FoundOk(cal, s', s'.calls[j])
    {
      if j != i {
        assert CallOk(s.calls[j], s.clock) && FoundOk(cal, s, s.calls[j]);
      }
    }
  }

  /** A correction is exact exactly when the clamp at zero does not fire. For the only call charged
      to a key that means its new share is not negative: a negative actual usage is not recorded
      as reported, which is why conservation speaks of non-negative usage. */
  lemma CorrectionExactIff(cal: int -> int, s: State, i: nat, c: Call, delta: int, t: int)
    requires Inv(cal, s) && i < |s.calls| && Found(s.calls[i]).Some? && t >= s.clock && AtHand(s.calls[i]).Some?
    requires Found(s.calls[i]).value < |s.cells|
    requires var key := KeyOf(cal, s.calls[i].req, AtHand(s.calls[i]).value);
             Young(key, t) && Share(cal, c, key) == Share(cal, s.calls[i], key) + delta
    ensures var key, id := KeyOf(cal, s.calls[i].req, AtHand(s.calls[i]).value), Found(s.calls[i]).value;
            var s' := WithCall(WithCounter(s, id, Corrected(s.cells[id].counter, delta), t), i, c);
            && (Balanced(cal, s', key) <==> Used(s, key) + delta >= 0)
            && (Used(s, key) == Share(cal, s.calls[i], key) ==> (Balanced(cal, s', key) <==> Share(cal, c, key) >= 0))
  {
    var key, id := KeyOf(cal, s.calls[i].req, AtHand(s.calls[i]).value), Found(s.calls[i]).value;
    assert FoundOk(cal, s, s.calls[i]) && Balanced(cal, s, key);
    SharesUpdate(cal, s.calls, i, c, key);
  }

  // ---------------------------------------------------------------- every step

  /** A young counter is never renewed. */
  lemma YoungIsCurrent(s: State, id: nat, t: int)
    requires TableOk(s) && id < |s.cells|
    ensures var cell := s.cells[id];
            var now := Renewed(cell.counter, cell.key.window, t);
            && (Young(cell.key, t) ==> now == cell.counter)
            && (t >= cell.key.start ==> now.expiresAt >= cell.key.start + Duration(cell.key.window))
  {
  }

  /** A reserving call with a metered window at hand. */
  ghost predicate AtMetered(c: Call) {
    c.Reserving? && c.next < |WINDOWS| && Metered(c.req.limits, WINDOWS[c.next])
  }

  lemma ReserveMovesOn(cal: int -> int, s: State, i: nat, peers: int, t: int)
    requires Inv(cal, s) && t >= s.clock && i < |s.calls| && s.calls[i].Reserving? && !AtMetered(s.calls[i])
    requires s.calls[i].found.Some? ==> s.calls[i].found.value < |s.cells|
    ensures Inv(cal, ReserveNext(cal, s, i, peers, t))
  {
    var s' := ReserveNext(cal, s, i, peers, t);
    assert CallOk(s.calls[i], s.clock);
    QuietKeepsInv(cal, s, s', i, s'.calls[i]);
  }

  lemma ReserveLooksUp(cal: int -> int, s: State, i: nat, peers: int, t: int)
    requires Calendar(cal) && Inv(cal, s) && t >= s.clock && i < |s.calls| && AtMetered(s.calls[i]) && s.calls[i].found.None?
    ensures Inv(cal, ReserveNext(cal, s, i, peers, t))
  {
    var c := s.calls[i];
    assert CallOk(c, s.clock);
    var w := WINDOWS[c.next];
    LookUpKeepsInv(cal, s, i, Reserving(c.req, c.next, c.held, Some(LookUp(s, KeyOf(cal, c.req, w), t).1)), w, t);
  }

  /** Granting a window adds it to the call's share, and only there. */
  lemma GrantedShare(cal: int -> int, c: Call, k: Key)
    requires AtMetered(c) && WINDOWS[c.next] !in c.held
    ensures var w := WINDOWS[c.next];
            Share(cal, Reserving(c.req, c.next + 1, c.held + [w], None), k)
            == Share(cal, c, k) + if k == KeyOf(cal, c.req, w) then c.req.amount else 0
  {
  }

  /** The counter after a reservation attempt. */
  ghost function AfterAttempt(c: Counter, w: Window, amount: int, limit: int, peers: int, t: int): Counter {
    var now := Renewed(c, w, t);
    now.(used := now.used + if HasRoom(now, amount, limit, peers) then amount else 0)
  }

  /** A window behind those already handled is not among those held. */
  lemma NextNotHeld(c: Call, clock: int, t: int)
    requires AtMetered(c) && CallOk(c, clock) && clock <= t
    ensures WINDOWS[c.next] !in c.held
    ensures CallOk(Reserving(c.req, c.next + 1, c.held + [WINDOWS[c.next]], None), t)
    ensures CallOk(RollingBack(c.req, c.held, None), t)
  {
    var w, held := WINDOWS[c.next], c.held + [WINDOWS[c.next]];
    assert WINDOWS[..c.next + 1] == WINDOWS[..c.next] + [w];
    assert w !in WINDOWS[..c.next];
  }

  lemma CounterAfterAttempt(cal: int -> int, s: State, c: Call, peers: int, t: int)
    requires Calendar(cal) && TableOk(s) && t >= s.clock && AtMetered(c) && c.req.now <= s.clock
    requires c.found.Some? && FoundOk(cal, s, c)
    ensures var w := WINDOWS[c.next];
            var key, before := KeyOf(cal, c.req, w), s.cells[c.found.value].counter;
            var after := AfterAttempt(before, w, c.req.amount, c.req.limits[w], peers, t);
            var room := HasRoom(Renewed(before, w, t), c.req.amount, c.req.limits[w], peers);
            && after.expiresAt >= key.start + Duration(key.window)
            && (Young(key, t) ==> after.used == before.used + if room then c.req.amount else 0)
  {
    BucketStarted(cal, WINDOWS[c.next], c.req.now);
    YoungIsCurrent(s, c.found.value, t);
  }

  lemma ReserveGranted(cal: int -> int, s: State, i: nat, counter: Counter, t: int)
    requires Inv(cal, s) && t >= s.clock && i < |s.calls| && AtMetered(s.calls[i])
    requires s.calls[i].found.Some? && s.calls[i].found.value < |s.cells|
    requires var key := KeyOf(cal, s.calls[i].req, WINDOWS[s.calls[i].next]);
             && counter.expiresAt >= key.start + Duration(key.window)
             && (Young(key, t) ==> counter.used == s.cells[s.calls[i].found.value].counter.used + s.calls[i].req.amount)
    ensures var c := s.calls[i];
            Inv(cal, WithCall(WithCounter(s, c.found.value, counter, t), i,
                              Reserving(c.req, c.next + 1, c.held + [WINDOWS[c.next]], None)))
  {
    var c := s.calls[i];
    assert CallOk(c, s.clock);
    NextNotHeld(c, s.clock, t);
    var c' := Reserving(c.req, c.next + 1, c.held + [WINDOWS[c.next]], None);
    forall k
      ensures Share(cal, c', k) == Share(cal, c, k) + if k == KeyOf(cal, c.req, WINDOWS[c.next]) then c.req.amount else 0
    {
      GrantedShare(cal, c, k);
    }
    ChargeKeepsInv(cal, s, i, c', counter, c.req.amount, t);
  }

  lemma ReserveRefused(cal: int -> int, s: State, i: nat, counter: Counter, t: int)
    requires Inv(cal, s) && t >= s.clock && i < |s.calls| && AtMetered(s.calls[i])
    requires s.calls[i].found.Some? && s.calls[i].found.value < |s.cells|
    requires var key := KeyOf(cal, s.calls[i].req, WINDOWS[s.calls[i].next]);
             && counter.expiresAt >= key.start + Duration(key.window)
             && (Young(key, t) ==> counter.used == s.cells[s.calls[i].found.value].counter.used)
    ensures var c := s.calls[i];
            Inv(cal, WithCall(WithCounter(s, c.found.value, counter, t), i, RollingBack(c.req, c.held, None)))
  {
    var c := s.calls[i];
    assert CallOk(c, s.clock);
    NextNotHeld(c, s.clock, t);
    ChargeKeepsInv(cal, s, i, RollingBack(c.req, c.held, None), counter, 0, t);
  }

  /** What an attempt on a found counter comes to. */
  lemma AttemptIs(cal: int -> int, s: State, i: nat, peers: int, t: int)
    requires i < |s.calls| && AtMetered(s.calls[i]) && s.calls[i].found.Some? && s.calls[i].found.value < |s.cells|
    ensures var c := s.calls[i];
            var w, before := WINDOWS[c.next], s.cells[c.found.value].counter;
            var charged := WithCounter(s, c.found.value, AfterAttempt(before, w, c.req.amount, c.req.limits[w], peers, t), t);
            ReserveNext(cal, s, i, peers, t)
            == WithCall(charged, i,
                        if HasRoom(Renewed(before, w, t), c.req.amount, c.req.limits[w], peers)
                        then Reserving(c.req, c.next + 1, c.held + [w], None) else RollingBack(c.req, c.held, None))
  {
  }

  lemma ReserveChargesFound(cal: int -> int, s: State, i: nat, peers: int, t: int)
    requires Calendar(cal) && Inv(cal, s) && t >= s.clock && i < |s.calls| && AtMetered(s.calls[i])
    requires s.calls[i].found.Some? && s.calls[i].found.value < |s.cells|
    ensures Inv(cal, ReserveNext(cal, s, i, peers, t))
  {
    var c := s.calls[i];
    var w, before := WINDOWS[c.next], s.cells[c.found.value].counter;
    assert CallOk(c, s.clock) && FoundOk(cal, s, c);
    CounterAfterAttempt(cal, s, c, peers, t);
    AttemptIs(cal, s, i, peers, t);
    var counter := AfterAttempt(before, w, c.req.amount, c.req.limits[w], peers, t);
    if HasRoom(Renewed(before, w, t), c.req.amount, c.req.limits[w], peers) {
      ReserveGranted(cal, s, i, counter, t);
    } else {
      ReserveRefused(cal, s, i, counter, t);
    }
  }

  lemma ReserveKeepsInv(cal: int -> int, s: State, i: nat, peers: int, t: int)
    requires Calendar(cal) && Inv(cal, s) && t >= s.clock && i < |s.calls| && s.calls[i].Reserving?
    requires s.calls[i].found.Some? ==> s.calls[i].found.value < |s.cells|
    ensures Inv(cal, ReserveNext(cal, s, i, peers, t))
  {
    if !AtMetered(s.calls[i]) {
      ReserveMovesOn(cal, s, i, peers, t);
    } else if s.calls[i].found.None? {
      ReserveLooksUp(cal, s, i, peers, t);
    } else {
      ReserveChargesFound(cal, s, i, peers, t);
    }
  }

  /** One lock section of a correction: a lookup, or a correction of what was found. */
  lemma CorrectKeepsInv(cal: int -> int, s: State, i: nat, delta: int, looking: Option<nat> -> Call, after: Call,
      t: int)
    requires Calendar(cal) && Inv(cal, s) && t >= s.clock && i < |s.calls|
    requires (s.calls[i].RollingBack? || s.calls[i].Settling?) && s.calls[i].held != []
    requires s.calls[i].found.Some? ==> s.calls[i].found.value < |s.cells|
    requires forall id ::
               && looking(id).req == s.calls[i].req && AtHand(looking(id)) == AtHand(s.calls[i]) && Found(looking(id)) == id
               && CallOk(looking(id), t) && forall k :: Share(cal, looking(id), k) == Share(cal, s.calls[i], k)
    requires CallOk(after, t) && Found(after).None?
    requires var key := KeyOf(cal, s.calls[i].req, s.calls[i].held[0]);
             && (forall k :: Share(cal, after, k) == Share(cal, s.calls[i], k) + (if k == key then delta else 0))
             && Share(cal, s.calls[i], key) + delta >= 0
    ensures Inv(cal, CorrectNext(cal, s, i, delta, looking, after, t))
  {
    var c := s.calls[i];
    var key := KeyOf(cal, c.req, c.held[0]);
    assert FoundOk(cal, s, c);
    if c.found.None? {
      LookUpKeepsInv(cal, s, i, looking(Some(LookUp(s, key, t).1)), c.held[0], t);
    } else {
      if Young(key, t) {
        ClampIdle(cal, s, i, key, delta);
      }
      ChargeKeepsInv(cal, s, i, after, Corrected(s.cells[c.found.value].counter, delta), delta, t);
    }
  }

  lemma RollBackKeepsInv(cal: int -> int, s: State, i: nat, t: int)
    requires Calendar(cal) && Inv(cal, s) && t >= s.clock && i < |s.calls| && s.calls[i].RollingBack? && s.calls[i].held != []
    requires s.calls[i].found.Some? ==> s.calls[i].found.value < |s.cells|
    ensures var c := s.calls[i];
            Inv(cal, CorrectNext(cal, s, i, -c.req.amount, f => RollingBack(c.req, c.held, f),
                                 RollingBack(c.req, c.held[1..], None), t))
  {
    var c := s.calls[i];
    assert CallOk(c, s.clock);
    assert c.held == [c.held[0]] + c.held[1..];
    CorrectKeepsInv(cal, s, i, -c.req.amount, f => RollingBack(c.req, c.held, f), RollingBack(c.req, c.held[1..], None), t);
  }

  lemma SettleKeepsInv(cal: int -> int, s: State, i: nat, t: int)
    requires Calendar(cal) && Inv(cal, s) && t >= s.clock && i < |s.calls| && s.calls[i].Settling? && s.calls[i].held != []
    requires s.calls[i].found.Some? ==> s.calls[i].found.value < |s.cells|
    ensures var c := s.calls[i];
            Inv(cal, CorrectNext(cal, s, i, c.actual - c.req.amount, f => Settling(c.req, c.actual, c.held, c.settled, f),
                                 Settling(c.req, c.actual, c.held[1..], c.settled + [c.held[0]], None), t))
  {
    var c := s.calls[i];
    assert CallOk(c, s.clock);
    assert c.held == [c.held[0]] + c.held[1..];
    MoveKeepsDistinct(c.held, c.settled);
    CorrectKeepsInv(cal, s, i, c.actual - c.req.amount, f => Settling(c.req, c.actual, c.held, c.settled, f),
                    Settling(c.req, c.actual, c.held[1..], c.settled + [c.held[0]], None), t);
  }

  lemma MoveKeepsDistinct(held: seq<Window>, settled: seq<Window>)
    requires held != [] && Distinct(held + settled)
    ensures Distinct(held[1..] + (settled + [held[0]]))
    ensures held[0] !in held[1..] && held[0] !in settled
  {
    var a, b := held + settled, held[1..] + (settled + [held[0]]);
    assert a[0] == held[0];
    forall i, j | 0 <= i < j < |b|
      ensures b[i] != b[j]
    {
      assert b[i] == a[i + 1];
      assert b[j] == if j + 1 < |a| then a[j + 1] else a[0];
    }
    forall j | 0 <= j < |held| - 1
      ensures held[1..][j] != held[0]
    {
      assert held[1..][j] == a[j + 1];
    }
    forall j | 0 <= j < |settled|
      ensures settled[j] != held[0]
    {
      assert settled[j] == a[|held| + j];
    }
  }

  lemma AdvanceKeepsInv(cal: int -> int, ttl: int, s: State, step: Step)
    requires Calendar(cal) && Inv(cal, s) && step.Advance? && Enabled(ttl, s, step)
    ensures Inv(cal, Apply(cal, ttl, s, step))
  {
    var i, t := step.i, step.t;
    var c := s.calls[i];
    assert CallOk(c, s.clock);
    if c.Reserving? {
      ReserveKeepsInv(cal, s, i, step.peers, t);
    } else if c.Settling? {
      SettleKeepsInv(cal, s, i, t);
    } else if c.held != [] {
      RollBackKeepsInv(cal, s, i, t);
    } else {
      QuietKeepsInv(cal, s, Apply(cal, ttl, s, step), i, TurnedAway(c.req));
    }
  }

  lemma BeginKeepsInv(cal: int -> int, ttl: int, s: State, req: Request)
    requires Inv(cal, s) && Enabled(ttl, s, Begin(req))
    ensures Inv(cal, Apply(cal, ttl, s, Begin(req)))
  {
    var s' := Apply(cal, ttl, s, Begin(req));
    forall k
      ensures Balanced(cal, s', k)
    {
      assert Balanced(cal, s, k);
      SharesAppend(cal, s.calls, Reserving(req, 0, [], None), k);
    }
    forall j | 0 <= j < |s'.calls|
      ensures CallOk(s'.calls[j], s'.clock) && FoundOk(cal, s', s'.calls[j])
    {
      if j < |s.calls| {
        assert CallOk(s.calls[j], s.clock) && FoundOk(cal, s, s.calls[j]);
      }
    }
  }

  /** A sweep takes out expired counters only, whose keys are no longer young. */
  lemma SweepKeepsInv(cal: int -> int, ttl: int, s: State, k: Key, t: int)
    requires Inv(cal, s) && Enabled(ttl, s, Sweep(k, t))
    ensures Inv(cal, Apply(cal, ttl, s, Sweep(k, t)))
  {
    var s' := Apply(cal, ttl, s, Sweep(k, t));
    forall j
      ensures Balanced(cal, s', j)
    {
      assert Balanced(cal, s, j);
    }
    forall i | 0 <= i < |s'.calls|
      ensures FoundOk(cal, s', s'.calls[i])
    {
      assert FoundOk(cal, s, s.calls[i]);
    }
  }

  lemma StepKeepsInv(cal: int -> int, ttl: int, s: State, step: Step)
    requires Calendar(cal) && Inv(cal, s) && Enabled(ttl, s, step)
    requires step.BeginSettle? ==> step.actual >= 0
    ensures Inv(cal, Apply(cal, ttl, s, step))
  {
    match step
    case Begin(req) => BeginKeepsInv(cal, ttl, s, req);
    case Advance(_, _, _) => AdvanceKeepsInv(cal, ttl, s, step);
    case BeginSettle(i, actual) =>
      assert CallOk(s.calls[i], s.clock);
      assert s.calls[i].held + [] == s.calls[i].held;
      QuietKeepsInv(cal, s, Apply(cal, ttl, s, step), i, Settling(s.calls[i].req, actual, s.calls[i].held, [], None));
    case Lapse(i, t) =>
      assert CallOk(s.calls[i], s.clock);
      QuietKeepsInv(cal, s, Apply(cal, ttl, s, step), i, Lapsed(s.calls[i].req, s.calls[i].held));
    case Sweep(k, t) => SweepKeepsInv(cal, ttl, s, k, t);
  }

  /** Actual usage is never negative. */
  ghost predicate NonNegativeUsage(steps: seq<Step>) {
    forall j | 0 <= j < |steps| && steps[j].BeginSettle? :: steps[j].actual >= 0
  }

  /** Conservation in every run: while a key's bucket is current, its counter is exactly what is
      held, plus what was settled, plus what lapsed. */
  lemma {:induction false} LedgerConserves(cal: int -> int, ttl: int, s: State, steps: seq<Step>, k: Key)
    requires Calendar(cal) && Inv(cal, s) && Legal(cal, ttl, s, steps) && NonNegativeUsage(steps)
    ensures var s' := Exec(cal, ttl, s, steps);
            && Inv(cal, s')
            && (Young(k, s'.clock)
                ==> Used(s', k)
                    == Sum(HeldShares(cal, s'.calls, k)) + Sum(SettledShares(cal, s'.calls, k))
                       + Sum(LapsedShares(cal, s'.calls, k)))
    decreases |steps|
  {
    if |steps| == 0 {
      assert Balanced(cal, s, k);
      SharesAreThreeSums(cal, s.calls, k);
    } else {
      StepKeepsInv(cal, ttl, s, steps[0]);
      assert forall j | 0 <= j < |steps[1..]| :: steps[1..][j] == steps[j + 1];
      LedgerConserves(cal, ttl, Apply(cal, ttl, s, steps[0]), steps[1..], k);
    }
  }

  /** After every run: while its bucket is current a counter is neither reset by a reservation nor
      removed by a sweep. For months this covers their first thirty days. */
  lemma KeptWhileCurrent(cal: int -> int, ttl: int, s: State, steps: seq<Step>, k: Key, t: int)
    requires Calendar(cal) && Inv(cal, s) && Legal(cal, ttl, s, steps) && NonNegativeUsage(steps)
    requires k in Exec(cal, ttl, s, steps).table && Young(k, t)
    ensures var s' := Exec(cal, ttl, s, steps);
            && s'.table[k] < |s'.cells|
            && var c := s'.cells[s'.table[k]].counter;
               Renewed(c, k.window, t) == c && !(t > c.expiresAt)
  {
    LedgerConserves(cal, ttl, s, steps, k);
  }

  /** The new ledger is balanced, so conservation holds of every run from it. */
  lemma NewLedgerBalanced(cal: int -> int)
    ensures Inv(cal, NewLedger)
  {
    forall k
      ensures Balanced(cal, NewLedger, k)
    {
      assert Shares(cal, [], k) == [];
    }
  }
}
