/**
 The request-rate token bucket. Times are in seconds; tokens and rates are exact reals. The
 bucket's clock is the latest time it has seen, so calls whose lock order disagrees with their
 clock readings are covered too.
 */
module TokenBucket {

  datatype Level = Level(tokens: real, lastRefill: real)

  datatype Limits = Limits(rate: real, capacity: real)

  ghost predicate Sound(lim: Limits) {
    lim.rate > 0.0 && lim.capacity >= 1.0
  }

  function Min(a: real, b: real): real {
    if a <= b then a else b
  }

  /** Tokens that accrue over some seconds. */
  function Earned(lim: Limits, seconds: real): real {
    seconds * lim.rate
  }

  function Ceil(x: real): int {
    -((-x).Floor)
  }

  function Refill(lim: Limits, b: Level, now: real): Level {
    var elapsed := now - b.lastRefill;
    if elapsed <= 0.0 then b else Level(Min(lim.capacity, b.tokens + Earned(lim, elapsed)), now)
  }

  predicate Suffices(lim: Limits, b: Level, now: real, n: int) {
    Refill(lim, b, now).tokens >= n as real
  }

  /** The bucket after a call: refilled, and debited if the tokens suffice. */
  function Spend(lim: Limits, b: Level, now: real, n: int): Level {
    var full := Refill(lim, b, now);
    if full.tokens >= n as real then full.(tokens := full.tokens - n as real) else full
  }

  /** The wait in whole seconds that a denied call reports. */
  function RetryAfter(lim: Limits, b: Level, now: real, n: int): int
    requires lim.rate != 0.0
  {
    var wait := Ceil((n as real - Refill(lim, b, now).tokens) / lim.rate);
    if wait < 1 then 1 else wait
  }

  class RateBucket {
    const lim: Limits
    var tokens: real
    var lastRefill: real

    ghost predicate Valid()
      reads this
    {
      Sound(lim)
    }

    ghost function State(): Level
      reads this
    {
      Level(tokens, lastRefill)
    }

    constructor (rate: real, burst: int, now: real)
      ensures Valid() && State() == Level(lim.capacity, now)
      ensures lim == Limits(if rate <= 0.0 then 1.0 else rate, if burst <= 0 then 1.0 else burst as real)
    {
      var capacity := if burst <= 0 then 1.0 else burst as real;
      lim := Limits(if rate <= 0.0 then 1.0 else rate, capacity);
      tokens, lastRefill := capacity, now;
    }

    method DoRefill(now: real)
      modifies this
      ensures State() == Refill(lim, old(State()), now)
    {
      var elapsed := now - lastRefill;
      if elapsed <= 0.0 {
        return;
      }
      tokens := Min(lim.capacity, tokens + elapsed * lim.rate);
      lastRefill := now;
    }

    method Take(now: real, n: int) returns (allowed: bool, retryAfter: int)
      requires Valid()
      modifies this
      ensures Valid() && State() == Spend(lim, old(State()), now, n)
      ensures allowed == Suffices(lim, old(State()), now, n)
      ensures retryAfter == if allowed then 0 else RetryAfter(lim, old(State()), now, n)
    {
      DoRefill(now);
      var needed := n as real;
      if tokens >= needed {
        tokens := tokens - needed;
        return true, 0;
      }
      var missing := needed - tokens;
      var waitSeconds := missing / lim.rate;
      retryAfter := Ceil(waitSeconds);
      if retryAfter < 1 {
        retryAfter := 1;
      }
      allowed := false;
    }
  }

  // ---------------------------------------------------------------- runs of calls

  datatype Call = Call(at: real, n: nat)

  /** The bucket just before call k, having been created full at time t0. */
  ghost function Before(lim: Limits, t0: real, calls: seq<Call>, k: nat): Level
    requires Sound(lim) && k <= |calls|
  {
    if k == 0 then Level(lim.capacity, t0)
    else Spend(lim, Before(lim, t0, calls, k - 1), calls[k - 1].at, calls[k - 1].n)
  }

  ghost predicate Allowed(lim: Limits, t0: real, calls: seq<Call>, k: nat)
    requires Sound(lim) && k < |calls|
  {
    Suffices(lim, Before(lim, t0, calls, k), calls[k].at, calls[k].n)
  }

  /** The latest time seen up to and including call k, from creation on. */
  ghost function Clock(t0: real, calls: seq<Call>, k: nat): real
    requires k < |calls|
  {
    var earlier := if k == 0 then t0 else Clock(t0, calls, k - 1);
    if calls[k].at > earlier then calls[k].at else earlier
  }

  /** Tokens granted by the calls from s on, up to but not including call k. */
  ghost function Granted(lim: Limits, t0: real, calls: seq<Call>, s: nat, k: nat): real
    requires Sound(lim) && s <= k <= |calls|
    decreases k
  {
    if s == k then 0.0
    else Granted(lim, t0, calls, s, k - 1) + GrantedBy(lim, t0, calls, k - 1)
  }

  ghost function Available(lim: Limits, t0: real, calls: seq<Call>, k: nat): real
    requires Sound(lim) && k < |calls|
  {
    Refill(lim, Before(lim, t0, calls, k), calls[k].at).tokens
  }

  /** What a bucket full at call s could still hold at call k. */
  ghost function Allowance(lim: Limits, t0: real, calls: seq<Call>, s: nat, k: nat): real
    requires Sound(lim) && s <= k < |calls|
  {
    lim.capacity + Earned(lim, Clock(t0, calls, k) - Clock(t0, calls, s)) - Granted(lim, t0, calls, s, k)
  }

  lemma {:induction false} ClockIsRefillTime(lim: Limits, t0: real, calls: seq<Call>, k: nat)
    requires Sound(lim) && k < |calls|
    ensures Before(lim, t0, calls, k).lastRefill == if k == 0 then t0 else Clock(t0, calls, k - 1)
    ensures Refill(lim, Before(lim, t0, calls, k), calls[k].at).lastRefill == Clock(t0, calls, k)
    ensures Before(lim, t0, calls, k).tokens <= lim.capacity
  {
    if k > 0 {
      ClockIsRefillTime(lim, t0, calls, k - 1);
    }
  }

  lemma Telescope(lim: Limits, a: real, b: real, c: real)
    ensures Earned(lim, a - c) == Earned(lim, a - b) + Earned(lim, b - c)
  {
  }

  lemma RefillTokens(lim: Limits, b: Level, now: real)
    requires b.tokens <= lim.capacity
    ensures Refill(lim, b, now).tokens
            == Min(lim.capacity, b.tokens + Earned(lim, Refill(lim, b, now).lastRefill - b.lastRefill))
  {
  }

  ghost function GrantedBy(lim: Limits, t0: real, calls: seq<Call>, k: nat): real
    requires Sound(lim) && k < |calls|
  {
    if Allowed(lim, t0, calls, k) then calls[k].n as real else 0.0
  }

  lemma AvailableStep(lim: Limits, t0: real, calls: seq<Call>, k: nat)
    requires Sound(lim) && 0 < k < |calls|
    ensures Available(lim, t0, calls, k)
            == Min(lim.capacity, Available(lim, t0, calls, k - 1) - GrantedBy(lim, t0, calls, k - 1)
                                 + Earned(lim, Clock(t0, calls, k) - Clock(t0, calls, k - 1)))
  {
    var b := Before(lim, t0, calls, k);
    ClockIsRefillTime(lim, t0, calls, k);
    RefillTokens(lim, b, calls[k].at);
    assert b.tokens == Available(lim, t0, calls, k - 1) - GrantedBy(lim, t0, calls, k - 1);
  }

  lemma AllowanceStep(lim: Limits, t0: real, calls: seq<Call>, s: nat, k: nat)
    requires Sound(lim) && s < k < |calls|
    ensures Allowance(lim, t0, calls, s, k)
            == Allowance(lim, t0, calls, s, k - 1) - GrantedBy(lim, t0, calls, k - 1)
               + Earned(lim, Clock(t0, calls, k) - Clock(t0, calls, k - 1))
  {
    Telescope(lim, Clock(t0, calls, k), Clock(t0, calls, k - 1), Clock(t0, calls, s));
    assert Granted(lim, t0, calls, s, k) == Granted(lim, t0, calls, s, k - 1) + GrantedBy(lim, t0, calls, k - 1);
  }

  /** The tokens available at a call are the least allowance over all starting calls. */
  lemma {:induction false} AvailableIsLeastAllowance(lim: Limits, t0: real, calls: seq<Call>, k: nat)
    requires Sound(lim) && k < |calls|
    ensures forall s | 0 <= s <= k :: Available(lim, t0, calls, k) <= Allowance(lim, t0, calls, s, k)
    ensures exists s :: 0 <= s <= k && Available(lim, t0, calls, k) == Allowance(lim, t0, calls, s, k)
  {
    assert Allowance(lim, t0, calls, k, k) == lim.capacity;
    if k == 0 {
      ClockIsRefillTime(lim, t0, calls, 0);
      assert Available(lim, t0, calls, 0) == Allowance(lim, t0, calls, 0, 0);
    } else {
      AvailableIsLeastAllowance(lim, t0, calls, k - 1);
      AvailableStep(lim, t0, calls, k);
      forall s | 0 <= s < k
        ensures Available(lim, t0, calls, k) <= Allowance(lim, t0, calls, s, k)
      {
        AllowanceStep(lim, t0, calls, s, k);
      }
      var s :| 0 <= s <= k - 1 && Available(lim, t0, calls, k - 1) == Allowance(lim, t0, calls, s, k - 1);
      AllowanceStep(lim, t0, calls, s, k);
      assert Available(lim, t0, calls, k) == Allowance(lim, t0, calls, k, k)
          || Available(lim, t0, calls, k) == Allowance(lim, t0, calls, s, k);
    }
  }

  /** Tokens granted since call s plus this request exceed a full bucket and the refill since s. */
  ghost predicate Exceeds(lim: Limits, t0: real, calls: seq<Call>, s: nat, k: nat)
    requires Sound(lim) && s <= k < |calls|
  {
    Granted(lim, t0, calls, s, k) + calls[k].n as real > lim.capacity + Earned(lim, Clock(t0, calls, k) - Clock(t0, calls, s))
  }

  /** The same, counted from the bucket's creation. */
  ghost predicate ExceedsFromCreation(lim: Limits, t0: real, calls: seq<Call>, k: nat)
    requires Sound(lim) && k < |calls|
  {
    Granted(lim, t0, calls, 0, k) + calls[k].n as real > lim.capacity + Earned(lim, Clock(t0, calls, k) - t0)
  }

  lemma ExceedsIff(lim: Limits, t0: real, calls: seq<Call>, s: nat, k: nat)
    requires Sound(lim) && s <= k < |calls|
    ensures Exceeds(lim, t0, calls, s, k) <==> Allowance(lim, t0, calls, s, k) < calls[k].n as real
  {
  }

  /** The first call is no earlier than creation, so its envelope is the tighter one. */
  lemma CreationSubsumed(lim: Limits, t0: real, calls: seq<Call>, k: nat)
    requires Sound(lim) && k < |calls|
    ensures ExceedsFromCreation(lim, t0, calls, k) ==> Exceeds(lim, t0, calls, 0, k)
  {
    Telescope(lim, Clock(t0, calls, k), Clock(t0, calls, 0), t0);
    assert Earned(lim, Clock(t0, calls, 0) - t0) >= 0.0;
  }

  /** Exactness: a request is denied if and only if, counted from creation, from some earlier
      call or from itself, the bucket's envelope would be exceeded. */
  lemma DeniedIff(lim: Limits, t0: real, calls: seq<Call>, k: nat)
    requires Sound(lim) && k < |calls|
    ensures !Allowed(lim, t0, calls, k)
            <==> ExceedsFromCreation(lim, t0, calls, k) || exists s :: 0 <= s <= k && Exceeds(lim, t0, calls, s, k)
  {
    AvailableIsLeastAllowance(lim, t0, calls, k);
    CreationSubsumed(lim, t0, calls, k);
    if Allowed(lim, t0, calls, k) {
      forall s | 0 <= s <= k
        ensures !Exceeds(lim, t0, calls, s, k)
      {
        ExceedsIff(lim, t0, calls, s, k);
      }
    } else {
      var s :| 0 <= s <= k && Available(lim, t0, calls, k) == Allowance(lim, t0, calls, s, k);
      ExceedsIff(lim, t0, calls, s, k);
    }
  }

  /** For calls made at non-decreasing times the clock is the call's own time. */
  lemma {:induction false} ClockOfOrderedCalls(t0: real, calls: seq<Call>, k: nat)
    requires k < |calls| && t0 <= calls[0].at
    requires forall i, j | 0 <= i <= j < |calls| :: calls[i].at <= calls[j].at
    ensures Clock(t0, calls, k) == calls[k].at
  {
    if k > 0 {
      ClockOfOrderedCalls(t0, calls, k - 1);
    }
  }

  // ---------------------------------------------------------------- the retry time

  lemma CeilBounds(x: real)
    ensures (Ceil(x) - 1) as real < x <= Ceil(x) as real
  {
  }

  lemma RefillAtLeast(rate: real, wait: real, missing: real)
    requires rate > 0.0
    ensures wait >= missing / rate <==> wait * rate >= missing
  {
    var q := missing / rate;
    assert q * rate == missing;
    if wait >= q {
      assert (wait - q) * rate >= 0.0;
    } else {
      assert (q - wait) * rate > 0.0;
    }
  }

  /** What the bucket holds a given time after a denial, with no other call in between. */
  lemma LaterRefill(lim: Limits, b: Level, later: real)
    requires Sound(lim) && later > b.lastRefill && b.tokens <= lim.capacity
    ensures Refill(lim, b, later).tokens == Min(lim.capacity, b.tokens + Earned(lim, later - b.lastRefill))
  {
  }

  /** How far the call's own time lies behind the bucket's clock. */
  ghost function Lag(lim: Limits, b: Level, now: real): real {
    Refill(lim, b, now).lastRefill - now
  }

  /** The seconds until the missing tokens have accrued. */
  ghost function Shortfall(lim: Limits, b: Level, now: real, n: int): real
    requires Sound(lim)
  {
    (n as real - Refill(lim, b, now).tokens) / lim.rate
  }

  /** With no other call in between, a denied request succeeds some time after its own time exactly
      when it fits the bucket and that time covers the shortfall and the call's lag. */
  lemma RetryIff(lim: Limits, b: Level, now: real, n: int, wait: real)
    requires Sound(lim) && b.tokens <= lim.capacity && !Suffices(lim, b, now, n)
    ensures Lag(lim, b, now) >= 0.0 && Shortfall(lim, b, now, n) > 0.0
    ensures Suffices(lim, Spend(lim, b, now, n), now + wait, n)
            <==> n as real <= lim.capacity && wait - Lag(lim, b, now) >= Shortfall(lim, b, now, n)
  {
    var left := Spend(lim, b, now, n);
    var missing, past := n as real - left.tokens, wait - Lag(lim, b, now);
    RefillAtLeast(lim.rate, past, missing);
    RefillAtLeast(lim.rate, 0.0, missing);
    assert 0.0 * lim.rate == 0.0;
    if past > 0.0 {
      LaterRefill(lim, left, now + wait);
    }
  }

  /** Waiting the reported seconds from the call succeeds exactly when the request fits the bucket
      and rounding up left room for the call's lag. For a call that is not behind the bucket's
      clock the wait is exact in whole seconds: it always suffices, and fewer never do. */
  lemma RetryAfterIsExact(lim: Limits, b: Level, now: real, n: int, wait: real)
    requires Sound(lim) && b.tokens <= lim.capacity && !Suffices(lim, b, now, n)
    ensures var left, retry := Spend(lim, b, now, n), RetryAfter(lim, b, now, n);
            && (Suffices(lim, left, now + retry as real, n)
                <==> n as real <= lim.capacity && Lag(lim, b, now) <= retry as real - Shortfall(lim, b, now, n))
            && (n as real <= lim.capacity && now >= b.lastRefill && wait >= retry as real ==>
                  Suffices(lim, left, now + wait, n))
            && (wait.Floor as real == wait && wait < retry as real ==> !Suffices(lim, left, now + wait, n))
  {
    var retry := RetryAfter(lim, b, now, n);
    var need := Shortfall(lim, b, now, n);
    CeilBounds(need);
    RetryIff(lim, b, now, n, wait);
    RetryIff(lim, b, now, n, retry as real);
    if wait.Floor as real == wait && wait < retry as real {
      assert wait.Floor < retry;
      assert wait <= (retry - 1) as real;
    }
  }

  /** A call behind the bucket's clock: the reported second is not enough. */
  lemma LateCallRetriesTooEarly()
    ensures var lim, b := Limits(1.0, 1.0), Level(0.0, 10.0);
            && !Suffices(lim, b, 5.0, 1) && RetryAfter(lim, b, 5.0, 1) == 1
            && !Suffices(lim, Spend(lim, b, 5.0, 1), 6.0, 1)
  {
    var lim, b := Limits(1.0, 1.0), Level(0.0, 10.0);
    assert (1.0 - 0.0) / lim.rate == 1.0;
    CeilBounds(1.0);
  }
}
