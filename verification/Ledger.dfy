/**
 Two-stage token accounting: counters per budget window, reservations made before a request and
 reconciled with its actual usage after it. A counter key names a scope (the joined request
 dimensions), a window and the start of its bucket.
 */
module Ledger {
  import opened Common
  import opened LimitKeys
  import Arith
  import TokenBucket

  datatype Key = Key(scope: string, window: Window, start: int)

  datatype Counter = Counter(used: int, expiresAt: int)

  type Counters = map<Key, Counter>

  // ---------------------------------------------------------------- counter operations

  /** A node's share of a limit among its peers, rounded up. */
  function LocalLimit(limit: int, peers: int): int {
    var n := if peers <= 0 then 1 else peers;
    (limit + n - 1) / n
  }

  /** Find or create the counter of a key. */
  function Obtain(cs: Counters, k: Key, now: int): (c: Counter) {
    if k in cs then cs[k] else Counter(0, now + Duration(k.window))
  }

  /** A counter as a reservation sees it: an expired one starts over. */
  function Renewed(c: Counter, w: Window, now: int): Counter {
    if now > c.expiresAt then Counter(0, now + Duration(w)) else c
  }

  predicate HasRoom(c: Counter, amount: int, limit: int, peers: int) {
    c.used + amount <= LocalLimit(limit, peers)
  }

  /** A counter never goes below zero. */
  function Corrected(c: Counter, delta: int): Counter {
    c.(used := if c.used + delta < 0 then 0 else c.used + delta)
  }

  function Current(cs: Counters, k: Key, now: int): Counter {
    Renewed(Obtain(cs, k, now), k.window, now)
  }

  predicate Fits(cs: Counters, k: Key, amount: int, limit: int, peers: int, now: int) {
    HasRoom(Current(cs, k, now), amount, limit, peers)
  }

  function Reserved(cs: Counters, k: Key, amount: int, limit: int, peers: int, now: int): Counters {
    var c := Current(cs, k, now);
    if Fits(cs, k, amount, limit, peers, now) then cs[k := c.(used := c.used + amount)] else cs[k := c]
  }

  function Reconciled(cs: Counters, k: Key, delta: int, now: int): Counters {
    cs[k := Corrected(Obtain(cs, k, now), delta)]
  }

  function Swept(cs: Counters, now: int): Counters {
    map k | k in cs && !(now > cs[k].expiresAt) :: cs[k]
  }

  /** N nodes that each stay within their share exceed the limit by less than N. */
  lemma SharesTogether(limit: int, peers: nat, used: seq<int>)
    requires peers > 0 && |used| == peers
    requires forall i | 0 <= i < |used| :: used[i] <= LocalLimit(limit, peers)
    ensures Sum(used) <= limit + peers - 1
  {
    SumUpperBound(used, LocalLimit(limit, peers));
    Arith.CeilDiv(limit, peers);
  }

  /** A share never exceeds a non-negative limit. */
  lemma ShareWithinLimit(limit: nat, peers: int)
    ensures LocalLimit(limit, peers) <= limit
  {
    var n := if peers <= 0 then 1 else peers;
    Arith.CeilDiv(limit, n);
    var q := LocalLimit(limit, peers);
    Arith.MulMonotone(1, n, limit);
    assert (limit + 1) * n == limit * n + n;
    if q > limit {
      Arith.MulMonotone(limit + 1, q, n);
    }
  }

  datatype ReservationResult = ReservationResult(allowed: bool, limit: int, remaining: int, retryAfter: int)

  /** A token bucket: its limits never change after its creation. */
  datatype Bucket = Bucket(lim: TokenBucket.Limits, level: TokenBucket.Level)

  function Seconds(now: int): real {
    now as real / 1_000_000_000.0
  }

  /** The bucket of a key; a new one is full. */
  function BucketFor(buckets: map<string, Bucket>, key: string, rate: real, burst: int, now: int): Bucket {
    if key in buckets then buckets[key]
    else
      var lim := TokenBucket.Limits(if rate <= 0.0 then 1.0 else rate, if burst <= 0 then 1.0 else burst as real);
      Bucket(lim, TokenBucket.Level(lim.capacity, Seconds(now)))
  }

  class CounterStore {
    var counters: Counters
    var buckets: map<string, Bucket>

    ghost predicate Valid()
      reads this
    {
      && (forall k | k in counters :: counters[k].used >= 0)
      && (forall k | k in buckets :: TokenBucket.Sound(buckets[k].lim))
    }

    constructor ()
      ensures Valid() && counters == map[] && buckets == map[]
    {
      counters, buckets := map[], map[];
    }

    /** One token from the bucket of the key, or the seconds to wait for it. */
    method AllowRate(key: string, rate: real, burst: int, now: int) returns (allowed: bool, retryAfter: int)
      requires Valid()
      modifies this`buckets
      ensures Valid()
      ensures var b := BucketFor(old(buckets), key, rate, burst, now);
              && buckets == old(buckets)[key := b.(level := TokenBucket.Spend(b.lim, b.level, Seconds(now), 1))]
              && allowed == TokenBucket.Suffices(b.lim, b.level, Seconds(now), 1)
              && TokenBucket.Sound(b.lim)
              && retryAfter == if allowed then 0 else TokenBucket.RetryAfter(b.lim, b.level, Seconds(now), 1)
    {
      var b := BucketFor(buckets, key, rate, burst, now);
      allowed := TokenBucket.Suffices(b.lim, b.level, Seconds(now), 1);
      retryAfter := if allowed then 0 else TokenBucket.RetryAfter(b.lim, b.level, Seconds(now), 1);
      buckets := buckets[key := b.(level := TokenBucket.Spend(b.lim, b.level, Seconds(now), 1))];
    }

    method GetOrCreate(k: Key, now: int) returns (c: Counter)
      modifies this`counters
      ensures c == Obtain(old(counters), k, now) && counters == old(counters)[k := c]
    {
      if k !in counters {
        counters := counters[k := Counter(0, now + Duration(k.window))];
      }
      c := counters[k];
    }

    method Reserve(k: Key, amount: int, limit: int, peers: int, now: int) returns (r: ReservationResult)
      modifies this`counters
      ensures r.allowed == Fits(old(counters), k, amount, limit, peers, now)
      ensures counters == Reserved(old(counters), k, amount, limit, peers, now)
      ensures r.limit == limit
      ensures r.remaining == if r.allowed || LocalLimit(limit, peers) >= counters[k].used
                             then LocalLimit(limit, peers) - counters[k].used else 0
      ensures r.retryAfter == if r.allowed then 0
                              else if counters[k].expiresAt - now < SECOND then SECOND else counters[k].expiresAt - now
    {
      var peerCount := if peers <= 0 then 1 else peers;
      var localLimit := (limit + peerCount - 1) / peerCount;
      var c := GetOrCreate(k, now);
      if now > c.expiresAt {
        c := Counter(0, now + Duration(k.window));
        counters := counters[k := c];
      }
      var remaining := localLimit - c.used;
      if remaining < amount {
        var retryAfter := c.expiresAt - now;
        if retryAfter < SECOND {
          retryAfter := SECOND;
        }
        return ReservationResult(false, limit, if remaining < 0 then 0 else remaining, retryAfter);
      }
      counters := counters[k := c.(used := c.used + amount)];
      return ReservationResult(true, limit, localLimit - (c.used + amount), 0);
    }

    method Reconcile(k: Key, delta: int, now: int)
      modifies this`counters
      ensures counters == Reconciled(old(counters), k, delta, now)
    {
      var c := GetOrCreate(k, now);
      var used := c.used + delta;
      if used < 0 {
        used := 0;
      }
      counters := counters[k := c.(used := used)];
    }

    method Sync(now: int)
      modifies this`counters
      ensures counters == Swept(old(counters), now)
    {
      var todo := counters.Keys;
      while todo != {}
        invariant todo <= old(counters).Keys
        invariant counters
                  == map k | k in old(counters) && (k in todo || !(now > old(counters)[k].expiresAt)) :: old(counters)[k]
      {
        var k :| k in todo;
        if now > counters[k].expiresAt {
          counters := counters - {k};
        }
        todo := todo - {k};
      }
    }
  }

  // ---------------------------------------------------------------- the limiter

  datatype Reservation = Reservation(scope: string, tokens: int, windows: seq<Window>, createdAt: int)

  const WINDOWS: seq<Window> := [Minute, Day, Month]

  function KeyFor(monthStart: int -> int, scope: string, w: Window, now: int): Key {
    Key(scope, w, BucketStart(monthStart, w, now))
  }

  predicate Metered(limits: map<Window, int>, w: Window) {
    w in limits && limits[w] > 0
  }

  /** What is charged to a key at a given time; an expired counter charges nothing. */
  ghost function Charged(cs: Counters, k: Key, now: int): int {
    Current(cs, k, now).used
  }

  /** How long the counter of a key still runs. */
  function TimeLeft(cs: Counters, k: Key, now: int): int {
    Current(cs, k, now).expiresAt - now
  }

  /** The whole seconds of a waiting time, at least one. */
  function RetrySeconds(left: int): int {
    if left < SECOND then 1 else left / SECOND
  }

  /** A refused request that comes back to the same counter after the reported seconds fits if and
      only if it fits a new counter and the refusing one had less than a second left. */
  lemma RetryFitsIff(cs: Counters, k: Key, amount: int, limit: int, peers: int, now: int)
    requires !Fits(cs, k, amount, limit, peers, now)
    ensures Fits(Reserved(cs, k, amount, limit, peers, now), k, amount, limit, peers,
                 now + RetrySeconds(TimeLeft(cs, k, now)) * SECOND)
            <==> amount <= LocalLimit(limit, peers) && TimeLeft(cs, k, now) < SECOND
  {
    var left := TimeLeft(cs, k, now);
    assert left >= 0;
    assert left >= SECOND ==> RetrySeconds(left) * SECOND <= left;
  }

  /** A spent budget refuses a request again after the reported seconds. */
  lemma RetryTooEarly(k: Key, limit: int, now: int)
    requires limit > 0
    ensures var spent := Reserved(map[], k, limit, limit, 1, now);
            && Fits(map[], k, limit, limit, 1, now)
            && !Fits(spent, k, 1, limit, 1, now)
            && !Fits(Reserved(spent, k, 1, limit, 1, now), k, 1, limit, 1,
                     now + RetrySeconds(TimeLeft(spent, k, now)) * SECOND)
  {
    RetryFitsIff(Reserved(map[], k, limit, limit, 1, now), k, 1, limit, 1, now);
  }

  datatype PreCheckResult =
    | Granted(id: string)
    | Unmetered
    | Refused(window: Window, limit: int, seconds: int)
    | RateLimited(seconds: int)

  type Budget = map<Window, int>

  datatype RateRule = RateRule(rate: real, burst: int)

  /** The rules of a limiter; an entry may say that there is no rule. */
  datatype Rules = Rules(
    budgetsByKey: map<string, Option<Budget>>, defaultBudget: Option<Budget>,
    ratesByKey: map<string, Option<RateRule>>, defaultRate: Option<RateRule>)

  /** The entry of the first key that has one, else the default. */
  function FirstRule<T>(byKey: map<string, Option<T>>, keys: seq<string>, default: Option<T>): (rule: Option<T>)
    ensures (exists i :: 0 <= i < |keys| && keys[i] in byKey && rule == byKey[keys[i]]
                         && forall j | 0 <= j < i :: keys[j] !in byKey)
            || ((forall i | 0 <= i < |keys| :: keys[i] !in byKey) && rule == default)
  {
    if |keys| == 0 then default
    else if keys[0] in byKey then byKey[keys[0]]
    else
      var rest := FirstRule(byKey, keys[1..], default);
      assert forall i | 0 <= i < |keys| - 1 :: keys[1..][i] == keys[i + 1];
      rest
  }

  /** Budgets go by model, then team, then route. */
  function BudgetRule(rules: Rules, d: DimensionKeys): Option<Budget> {
    FirstRule(rules.budgetsByKey, [d.model, d.team, d.route], rules.defaultBudget)
  }

  /** Request rates go by team, then identity, then route; a rule without a positive rate is none. */
  function RateRuleFor(rules: Rules, d: DimensionKeys): Option<RateRule> {
    var rule := FirstRule(rules.ratesByKey, [d.team, d.identity, d.route], rules.defaultRate);
    if rule.Some? && rule.value.rate > 0.0 then rule else None
  }

  /** The part of a counter's key that names the caller. */
  function Scope(d: DimensionKeys): string {
    Sanitize(d.team) + ":" + Sanitize(d.identity) + ":" + Sanitize(d.route) + ":" + Sanitize(d.model)
  }

  /** All or nothing: what the budget part of a pre-check may answer, and what it then leaves behind.
      Granted when every metered window has room, charging exactly those; a refusal names the first
      window without room and leaves every charge as it was. */
  ghost predicate BudgetOutcome(
    monthStart: int -> int, before: Counters, after: Counters,
    was: map<string, Reservation>, kept: map<string, Reservation>,
    scope: string, limits: Budget, estimated: int, peers: int, now: int, id: string, r: PreCheckResult)
  {
    match r
    case RateLimited(_) => false
    case Unmetered => (limits == map[] || estimated <= 0) && after == before && kept == was
    case Granted(g) =>
      && limits != map[] && estimated > 0 && g == id
      && (forall w | Metered(limits, w) ::
            Fits(before, KeyFor(monthStart, scope, w, now), estimated, limits[w], peers, now))
      && id in kept && kept == was[id := kept[id]]
      && kept[id].scope == scope && kept[id].tokens == estimated && kept[id].createdAt == now
      && (forall w :: w in kept[id].windows <==> Metered(limits, w))
      && ChargedOnTop(monthStart, before, after, scope, kept[id].windows, estimated, now)
    case Refused(window, limit, seconds) =>
      && limits != map[] && estimated > 0 && kept == was
      && Metered(limits, window) && limit == limits[window]
      && !Fits(before, KeyFor(monthStart, scope, window, now), estimated, limit, peers, now)
      && seconds == RetrySeconds(TimeLeft(before, KeyFor(monthStart, scope, window, now), now))
      && (forall i, j | 0 <= j < i < |WINDOWS| && WINDOWS[i] == window && Metered(limits, WINDOWS[j]) ::
            Fits(before, KeyFor(monthStart, scope, WINDOWS[j], now), estimated, limits[WINDOWS[j]], peers, now))
      && forall k :: Charged(after, k, now) == Charged(before, k, now)
  }

  /** The reserved windows all belong to one call: each key is charged the amount on top. */
  ghost predicate ChargedOnTop(monthStart: int -> int, before: Counters, after: Counters, scope: string,
      windows: seq<Window>, amount: int, now: int) {
    forall k :: Charged(after, k, now)
                == Charged(before, k, now)
                   + if k.window in windows && k == KeyFor(monthStart, scope, k.window, now) then amount else 0
  }

  /** The keys of the listed windows have live counters. */
  ghost predicate Live(monthStart: int -> int, cs: Counters, scope: string, windows: seq<Window>, now: int) {
    forall w | w in windows :: var k := KeyFor(monthStart, scope, w, now); k in cs && now <= cs[k].expiresAt
  }

  /** A reservation leaves a live counter and charges its key alone, if it fits. */
  lemma ReserveCharges(prior: Counters, k: Key, amount: int, limit: int, peers: int, now: int)
    ensures var after := Reserved(prior, k, amount, limit, peers, now);
            && k in after && now <= after[k].expiresAt
            && (forall j | j != k && j in prior :: j in after && after[j] == prior[j])
            && (forall j :: Charged(after, j, now)
                            == Charged(prior, j, now)
                               + if j == k && Fits(prior, k, amount, limit, peers, now) then amount else 0)
  {
    assert Duration(k.window) > 0;
  }

  /** Reserving one more window charges its key and no other. */
  lemma ReserveExtends(monthStart: int -> int, before: Counters, prior: Counters, scope: string, windows: seq<Window>,
                       w: Window, amount: int, limit: int, peers: int, now: int)
    requires ChargedOnTop(monthStart, before, prior, scope, windows, amount, now) && w !in windows
    requires Live(monthStart, prior, scope, windows, now)
    ensures var k := KeyFor(monthStart, scope, w, now);
            var after := Reserved(prior, k, amount, limit, peers, now);
            var reserved := if Fits(before, k, amount, limit, peers, now) then windows + [w] else windows;
            && Fits(prior, k, amount, limit, peers, now) == Fits(before, k, amount, limit, peers, now)
            && ChargedOnTop(monthStart, before, after, scope, reserved, amount, now)
            && Live(monthStart, after, scope, reserved, now)
  {
    var k := KeyFor(monthStart, scope, w, now);
    assert Charged(prior, k, now) == Charged(before, k, now);
    ReserveCharges(prior, k, amount, limit, peers, now);
  }

  /** Taking back one window's charge leaves the others charged. */
  lemma RollBackShrinks(monthStart: int -> int, before: Counters, prior: Counters, scope: string,
      windows: seq<Window>, amount: int, now: int)
    requires windows != [] && windows[0] !in windows[1..] && amount > 0
    requires ChargedOnTop(monthStart, before, prior, scope, windows, amount, now)
    requires Live(monthStart, prior, scope, windows, now)
    requires forall k | k in before :: before[k].used >= 0
    ensures var after := Reconciled(prior, KeyFor(monthStart, scope, windows[0], now), -amount, now);
            && ChargedOnTop(monthStart, before, after, scope, windows[1..], amount, now)
            && Live(monthStart, after, scope, windows[1..], now)
  {
    var key := KeyFor(monthStart, scope, windows[0], now);
    var after := Reconciled(prior, key, -amount, now);
    assert windows == [windows[0]] + windows[1..];
    assert Charged(prior, key, now) == Charged(before, key, now) + amount;
    assert forall k | k != key :: Charged(after, k, now) == Charged(prior, k, now);
  }

  lemma AllWindows(w: Window)
    ensures w in WINDOWS
  {
    assert w == WINDOWS[if w.Minute? then 0 else if w.Day? then 1 else 2];
  }

  /** The reserved windows are the metered ones among the first i, each once. */
  ghost predicate Chosen(limits: map<Window, int>, i: nat, reserved: seq<Window>)
    requires i <= |WINDOWS|
  {
    && (forall a, b | 0 <= a < b < |reserved| :: reserved[a] != reserved[b])
    && (forall w :: w in reserved <==> w in WINDOWS[..i] && Metered(limits, w))
  }

  lemma ChosenNext(limits: map<Window, int>, i: nat, reserved: seq<Window>)
    requires i < |WINDOWS| && Chosen(limits, i, reserved)
    ensures WINDOWS[i] !in reserved
    ensures Chosen(limits, i + 1, if Metered(limits, WINDOWS[i]) then reserved + [WINDOWS[i]] else reserved)
  {
    assert WINDOWS[..i + 1] == WINDOWS[..i] + [WINDOWS[i]];
    assert WINDOWS[i] !in WINDOWS[..i];
  }

  lemma AllChosen(limits: map<Window, int>, reserved: seq<Window>)
    requires Chosen(limits, |WINDOWS|, reserved)
    ensures forall w :: w in reserved <==> Metered(limits, w)
  {
    assert WINDOWS[..|WINDOWS|] == WINDOWS;
    forall w: Window
      ensures w in WINDOWS
    {
      AllWindows(w);
    }
  }

  /** In front of a window come exactly the windows already tried. */
  lemma TriedBefore(limits: map<Window, int>, n: nat, reserved: seq<Window>, i: nat, j: nat)
    requires n < |WINDOWS| && Chosen(limits, n, reserved)
    requires j < i < |WINDOWS| && WINDOWS[i] == WINDOWS[n] && Metered(limits, WINDOWS[j])
    ensures WINDOWS[j] in reserved
  {
    assert i == n;
    assert WINDOWS[j] in WINDOWS[..n];
  }

  /** The metered windows of a list all have room. */
  ghost predicate AllFit(monthStart: int -> int, cs: Counters, scope: string, limits: Budget, windows: seq<Window>,
      amount: int, peers: int, now: int) {
    forall w | w in windows ::
      Metered(limits, w) && Fits(cs, KeyFor(monthStart, scope, w, now), amount, limits[w], peers, now)
  }

  /** Every metered window in front of the one being tried has room. */
  lemma EarlierFit(monthStart: int -> int, cs: Counters, scope: string, limits: Budget, n: nat, reserved: seq<Window>,
                   amount: int, peers: int, now: int)
    requires n < |WINDOWS| && Chosen(limits, n, reserved)
    requires AllFit(monthStart, cs, scope, limits, reserved, amount, peers, now)
    ensures forall i, j | 0 <= j < i < |WINDOWS| && WINDOWS[i] == WINDOWS[n] && Metered(limits, WINDOWS[j]) ::
              Fits(cs, KeyFor(monthStart, scope, WINDOWS[j], now), amount, limits[WINDOWS[j]], peers, now)
  {
    forall i, j | 0 <= j < i < |WINDOWS| && WINDOWS[i] == WINDOWS[n] && Metered(limits, WINDOWS[j])
      ensures WINDOWS[j] in reserved
    {
      TriedBefore(limits, n, reserved, i, j);
    }
  }

  /** The counters of all other windows run as before. */
  ghost predicate OthersRun(before: Counters, after: Counters, windows: seq<Window>, now: int) {
    forall k: Key | k.window !in windows :: TimeLeft(after, k, now) == TimeLeft(before, k, now)
  }

  lemma OthersRunOn(before: Counters, prior: Counters, windows: seq<Window>, k: Key,
                    amount: int, limit: int, peers: int, now: int)
    requires OthersRun(before, prior, windows, now) && k.window !in windows
    ensures var after := Reserved(prior, k, amount, limit, peers, now);
            && k in after && after[k].expiresAt - now == TimeLeft(before, k, now)
            && OthersRun(before, after, windows + [k.window], now)
  {
    var after := Reserved(prior, k, amount, limit, peers, now);
    forall j: Key | j.window !in windows + [k.window]
      ensures TimeLeft(after, j, now) == TimeLeft(before, j, now)
    {
      assert j != k;
    }
  }

  /** A reservation loop in front of its i-th window: the metered windows so far had room and are
      charged, and all other counters are as before. */
  ghost predicate Underway(monthStart: int -> int, before: Counters, cs: Counters, scope: string, limits: Budget, i: nat,
      reserved: seq<Window>, amount: int, peers: int, now: int)
    requires i <= |WINDOWS|
  {
    && Chosen(limits, i, reserved)
    && ChargedOnTop(monthStart, before, cs, scope, reserved, amount, now)
    && Live(monthStart, cs, scope, reserved, now)
    && AllFit(monthStart, before, scope, limits, reserved, amount, peers, now)
    && OthersRun(before, cs, reserved, now)
  }

  lemma Passes(monthStart: int -> int, before: Counters, cs: Counters, scope: string, limits: Budget, i: nat,
               reserved: seq<Window>, amount: int, peers: int, now: int)
    requires i < |WINDOWS| && Underway(monthStart, before, cs, scope, limits, i, reserved, amount, peers, now)
    requires !Metered(limits, WINDOWS[i])
    ensures Underway(monthStart, before, cs, scope, limits, i + 1, reserved, amount, peers, now)
  {
    ChosenNext(limits, i, reserved);
  }

  /** Trying a metered window: a window with room is charged, another one leaves the charges alone. */
  lemma Proceeds(monthStart: int -> int, before: Counters, cs: Counters, scope: string, limits: Budget, i: nat,
                 reserved: seq<Window>, amount: int, peers: int, now: int)
    requires i < |WINDOWS| && Underway(monthStart, before, cs, scope, limits, i, reserved, amount, peers, now)
    requires Metered(limits, WINDOWS[i])
    ensures var w := WINDOWS[i];
            var k := KeyFor(monthStart, scope, w, now);
            var after := Reserved(cs, k, amount, limits[w], peers, now);
            && Fits(cs, k, amount, limits[w], peers, now) == Fits(before, k, amount, limits[w], peers, now)
            && k in after && after[k].expiresAt - now == TimeLeft(before, k, now)
            && if Fits(cs, k, amount, limits[w], peers, now)
               then Underway(monthStart, before, after, scope, limits, i + 1, reserved + [w], amount, peers, now)
               else ChargedOnTop(monthStart, before, after, scope, reserved, amount, now)
                    && Live(monthStart, after, scope, reserved, now)
  {
    var w := WINDOWS[i];
    ChosenNext(limits, i, reserved);
    ReserveExtends(monthStart, before, cs, scope, reserved, w, amount, limits[w], peers, now);
    OthersRunOn(before, cs, reserved, KeyFor(monthStart, scope, w, now), amount, limits[w], peers, now);
  }

  /** A refusal at the window being tried, after its predecessors were taken back. */
  lemma RefusalOutcome(monthStart: int -> int, before: Counters, after: Counters, was: map<string, Reservation>,
                       scope: string, limits: Budget, n: nat, reserved: seq<Window>, estimated: int, peers: int,
                       now: int, id: string, seconds: int)
    requires n < |WINDOWS| && Chosen(limits, n, reserved) && Metered(limits, WINDOWS[n]) && estimated > 0
    requires AllFit(monthStart, before, scope, limits, reserved, estimated, peers, now)
    requires !Fits(before, KeyFor(monthStart, scope, WINDOWS[n], now), estimated, limits[WINDOWS[n]], peers, now)
    requires seconds == RetrySeconds(TimeLeft(before, KeyFor(monthStart, scope, WINDOWS[n], now), now))
    requires forall k :: Charged(after, k, now) == Charged(before, k, now)
    ensures BudgetOutcome(monthStart, before, after, was, was, scope, limits, estimated, peers, now, id,
                          Refused(WINDOWS[n], limits[WINDOWS[n]], seconds))
  {
    EarlierFit(monthStart, before, scope, limits, n, reserved, estimated, peers, now);
  }

  class Limiter {
    const monthStart: int -> int
    const store: CounterStore
    const ttl: int
    const rules: Rules
    var reservations: map<string, Reservation>

    ghost predicate Valid()
      reads this, store
    {
      store.Valid()
    }

    constructor (monthStart: int -> int, store: CounterStore, ttl: int, rules: Rules)
      requires store.Valid()
      ensures Valid() && this.monthStart == monthStart && this.store == store && this.rules == rules
      ensures reservations == map[]
      ensures this.ttl == if ttl <= 0 then 10 * MINUTE else ttl
    {
      this.monthStart, this.store, this.ttl := monthStart, store, if ttl <= 0 then 10 * MINUTE else ttl;
      this.rules, reservations := rules, map[];
    }

    /** Undo this call's reservations, window by window. */
    method RollBack(scope: string, windows: seq<Window>, amount: int, now: int, ghost before: Counters)
      requires Valid() && amount > 0
      requires forall i, j | 0 <= i < j < |windows| :: windows[i] != windows[j]
      requires ChargedOnTop(monthStart, before, store.counters, scope, windows, amount, now)
      requires forall k | k in before :: before[k].used >= 0
      requires Live(monthStart, store.counters, scope, windows, now)
      modifies store`counters
      ensures Valid()
      ensures forall k :: Charged(store.counters, k, now) == Charged(before, k, now)
    {
      for i := 0 to |windows|
        invariant Valid()
        invariant ChargedOnTop(monthStart, before, store.counters, scope, windows[i..], amount, now)
        invariant Live(monthStart, store.counters, scope, windows[i..], now)
      {
        assert windows[i..][1..] == windows[i + 1..];
        RollBackShrinks(monthStart, before, store.counters, scope, windows[i..], amount, now);
        store.Reconcile(KeyFor(monthStart, scope, windows[i], now), -amount, now);
      }
    }

    /** Reserve in every metered window, or in none. */
    method ReserveBudget(scope: string, limits: Budget, estimated: int, peers: int, now: int, id: string)
      returns (r: PreCheckResult)
      requires Valid()
      modifies this, store`counters
      ensures Valid()
      ensures BudgetOutcome(monthStart, old(store.counters), store.counters, old(reservations), reservations,
                            scope, limits, estimated, peers, now, id, r)
    {
      if limits == map[] || estimated <= 0 {
        return Unmetered;
      }
      ghost var before := store.counters;
      var reserved: seq<Window> := [];
      for i := 0 to |WINDOWS|
        invariant Valid() && reservations == old(reservations)
        invariant Underway(monthStart, before, store.counters, scope, limits, i, reserved, estimated, peers, now)
      {
        var w := WINDOWS[i];
        if !Metered(limits, w) {
          Passes(monthStart, before, store.counters, scope, limits, i, reserved, estimated, peers, now);
        } else {
          Proceeds(monthStart, before, store.counters, scope, limits, i, reserved, estimated, peers, now);
          var res := store.Reserve(KeyFor(monthStart, scope, w, now), estimated, limits[w], peers, now);
          if !res.allowed {
            var seconds := if res.retryAfter < SECOND then 1 else res.retryAfter / SECOND;
            RollBack(scope, reserved, estimated, now, before);
            RefusalOutcome(monthStart, before, store.counters, reservations, scope, limits, i, reserved, estimated,
                           peers, now, id, seconds);
            return Refused(w, limits[w], seconds);
          }
          reserved := reserved + [w];
        }
      }
      AllChosen(limits, reserved);
      reservations := reservations[id := Reservation(scope, estimated, reserved, now)];
      return Granted(id);
    }

    /** Stage 1: one token of the request rate, if a rate applies, and then the budget, if one does.
        A request over its rate leaves budgets and reservations alone. */
    method PreCheck(keys: DimensionKeys, estimated: int, peers: int, rateNow: int, now: int, id: string)
      returns (r: PreCheckResult)
      requires Valid()
      modifies this, store
      ensures Valid()
      ensures var rate, key := RateRuleFor(rules, keys), RateLimitKey(keys);
              if rate.None? then !r.RateLimited? && store.buckets == old(store.buckets)
              else
                var b := BucketFor(old(store.buckets), key, rate.value.rate, rate.value.burst, rateNow);
                var spent := TokenBucket.Spend(b.lim, b.level, Seconds(rateNow), 1);
                && store.buckets == old(store.buckets)[key := b.(level := spent)]
                && (r.RateLimited? <==> !TokenBucket.Suffices(b.lim, b.level, Seconds(rateNow), 1))
                && TokenBucket.Sound(b.lim)
                && (r.RateLimited? ==> r.seconds == TokenBucket.RetryAfter(b.lim, b.level, Seconds(rateNow), 1) >= 1)
      ensures r.RateLimited? ==> store.counters == old(store.counters) && reservations == old(reservations)
      ensures !r.RateLimited? ==>
                var budget := BudgetRule(rules, keys);
                BudgetOutcome(monthStart, old(store.counters), store.counters, old(reservations), reservations,
                              Scope(keys), if budget.Some? then budget.value else map[], estimated, peers, now, id, r)
    {
      var rate := RateRuleFor(rules, keys);
      if rate.Some? {
        var allowed, retryAfter := store.AllowRate(RateLimitKey(keys), rate.value.rate, rate.value.burst, rateNow);
        if !allowed {
          var seconds := retryAfter;
          if seconds < 1 {
            seconds := 1;
          }
          return RateLimited(seconds);
        }
      }
      var budget := BudgetRule(rules, keys);
      if budget.None? {
        return Unmetered;
      }
      r := ReserveBudget(Scope(keys), budget.value, estimated, peers, now, id);
    }

    /** Stage 2: replace the reserved amount by the actual one, in the reservation's own buckets. */
    method Reconcile(id: string, actual: int, now: int) returns (found: bool)
      requires Valid()
      modifies this, store`counters
      ensures Valid()
      ensures found <==> id in old(reservations)
      ensures reservations == old(reservations) - {id}
      ensures !found ==> store.counters == old(store.counters)
      ensures found ==> var v := old(reservations)[id];
                store.counters == ReconcileAll(monthStart, old(store.counters), v, v.windows, actual - v.tokens, now)
    {
      if id !in reservations {
        return false;
      }
      var v := reservations[id];
      reservations := reservations - {id};
      var delta := actual - v.tokens;
      for i := 0 to |v.windows|
        invariant Valid() && reservations == old(reservations) - {id}
        invariant store.counters == ReconcileAll(monthStart, old(store.counters), v, v.windows[..i], delta, now)
      {
        assert v.windows[..i + 1][..i] == v.windows[..i];
        store.Reconcile(KeyFor(monthStart, v.scope, v.windows[i], v.createdAt), delta, now);
      }
      assert v.windows[..|v.windows|] == v.windows;
      return true;
    }

    /** Forget reservations that were never reconciled; their charges stay. */
    method CleanStale(now: int)
      modifies this
      ensures reservations
              == map id | id in old(reservations) && now - old(reservations)[id].createdAt <= ttl :: old(reservations)[id]
    {
      var todo := reservations.Keys;
      while todo != {}
        invariant todo <= old(reservations).Keys
        invariant reservations
                  == map id | id in old(reservations) && (id in todo || now - old(reservations)[id].createdAt <= ttl)
                                      :: old(reservations)[id]
      {
        var id :| id in todo;
        if now - reservations[id].createdAt > ttl {
          reservations := reservations - {id};
        }
        todo := todo - {id};
      }
    }
  }

  function ReconcileAll(monthStart: int -> int, cs: Counters, v: Reservation, windows: seq<Window>, delta: int,
      now: int): Counters {
    if |windows| == 0 then cs
    else
      var n := |windows| - 1;
      Reconciled(ReconcileAll(monthStart, cs, v, windows[..n], delta, now),
                 KeyFor(monthStart, v.scope, windows[n], v.createdAt), delta, now)
  }
}
