/**
 The bounds on concurrent calls of a failing filter are reached: callers that hold an old failure time
 store it one after the other, and each time the others are let in once more.
 */
module BreakerReopened {
  import opened BreakerRaces

  /** Callers 0 .. k - 1 hold the time `stale`, the others are at a or, from j on, at b. */
  ghost function Mixed(n: nat, k: nat, j: nat, stale: int, a: Caller, b: Caller): seq<Caller> {
    seq(n, x => if x < k then Stamped(stale) else if x < j then a else b)
  }

  lemma MixedNext(n: nat, k: nat, j: nat, stale: int, a: Caller, b: Caller)
    requires k <= j < n
    ensures Mixed(n, k, j, stale, a, b)[j := a] == Mixed(n, k, j + 1, stale, a, b)
  {
  }

  /** A part of a run at one moment in which no call ends well. */
  ghost predicate Goes(cfg: Settings, s: Shared, steps: seq<Step>, s': Shared, t: int, calls: nat) {
    && Legal(cfg, s, steps) && Exec(cfg, s, steps) == s' && AllFail(cfg, s, steps) && Between(steps, t, t)
    && CooledCalls(cfg, s, steps) == calls
  }

  lemma GoesOne(cfg: Settings, s: Shared, i: nat, t: int)
    requires i < |s.callers| && t >= s.clock
    ensures var step := Step(i, t, true);
            Goes(cfg, s, [step], Apply(cfg, s, step), t, if AfterCooldown(cfg, s, step) then 1 else 0)
  {
    assert [Step(i, t, true)][1..] == [];
  }

  lemma GoesBoth(cfg: Settings, s: Shared, p: seq<Step>, s1: Shared, q: seq<Step>, s2: Shared, t: int, m: nat, n: nat)
    requires Goes(cfg, s, p, s1, t, m) && Goes(cfg, s1, q, s2, t, n)
    ensures Goes(cfg, s, p + q, s2, t, m + n)
    decreases |p|
  {
    if |p| == 0 {
      assert p + q == q;
    } else {
      assert (p + q)[1..] == p[1..] + q && (p + q)[0] == p[0];
      var s0 := Apply(cfg, s, p[0]);
      assert Goes(cfg, s0, p[1..], s1, t, if AfterCooldown(cfg, s, p[0]) then m - 1 else m);
      GoesBoth(cfg, s0, p[1..], s1, q, s2, t, if AfterCooldown(cfg, s, p[0]) then m - 1 else m, n);
    }
  }

  /** One caller takes its next three accesses. */
  lemma GoesThrice(cfg: Settings, s: Shared, i: nat, t: int) returns (steps: seq<Step>, s': Shared, calls: nat)
    requires i < |s.callers| && t >= s.clock
    ensures var step := Step(i, t, true);
            var s1 := Apply(cfg, s, step);
            var s2 := Apply(cfg, s1, step);
            && s' == Apply(cfg, s2, step) && Goes(cfg, s, steps, s', t, calls)
            && calls == (if AfterCooldown(cfg, s, step) then 1 else 0) + (if AfterCooldown(cfg, s1, step) then 1 else 0)
                        + if AfterCooldown(cfg, s2, step) then 1 else 0
  {
    var step := Step(i, t, true);
    var s1 := Apply(cfg, s, step);
    var s2 := Apply(cfg, s1, step);
    s' := Apply(cfg, s2, step);
    var c0, c1, c2 := if AfterCooldown(cfg, s, step) then 1 else 0, if AfterCooldown(cfg, s1, step) then 1 else 0,
      if AfterCooldown(cfg, s2, step) then 1 else 0;
    GoesOne(cfg, s, i, t);
    GoesOne(cfg, s1, i, t);
    GoesOne(cfg, s2, i, t);
    GoesBoth(cfg, s, [step], s1, [step], s2, t, c0, c1);
    GoesBoth(cfg, s, [step] + [step], s2, [step], s', t, c0 + c1, c2);
    steps, calls := [step] + [step] + [step], c0 + c1 + c2;
  }

  /** While the stored failure is old, every caller outside can be admitted. */
  lemma {:induction false} AdmitAll(cfg: Settings, s: Shared, k: nat, j: nat, stale: int)
    returns (steps: seq<Step>, s': Shared)
    requires k <= j <= |s.callers| && s.callers == Mixed(|s.callers|, k, j, stale, Running, Outside)
    requires 0 < cfg.threshold <= s.failures && s.last == stale && s.clock - stale > cfg.cooldown
    ensures s' == s.(callers := Mixed(|s.callers|, k, |s.callers|, stale, Running, Outside))
    ensures Goes(cfg, s, steps, s', s.clock, |s.callers| - j)
    decreases |s.callers| - j
  {
    var n := |s.callers|;
    if j == n {
      steps, s' := [], s;
    } else {
      var three, s1, c := GoesThrice(cfg, s, j, s.clock);
      MixedNext(n, k, j, stale, Running, Outside);
      assert s1 == s.(callers := Mixed(n, k, j + 1, stale, Running, Outside));
      var rest;
      rest, s' := AdmitAll(cfg, s1, k, j + 1, stale);
      GoesBoth(cfg, s, three, s1, rest, s', s.clock, 1, n - j - 1);
      steps := three + rest;
    }
  }

  /** They all fail and store the present time. */
  lemma {:induction false} FailAll(cfg: Settings, s: Shared, k: nat, j: nat, stale: int)
    returns (steps: seq<Step>, s': Shared)
    requires k <= j <= |s.callers| && s.callers == Mixed(|s.callers|, k, j, stale, Outside, Running)
    ensures s'.callers == Mixed(|s.callers|, k, |s.callers|, stale, Outside, Outside)
    ensures s'.clock == s.clock && s'.failures >= s.failures && Goes(cfg, s, steps, s', s.clock, 0)
    decreases |s.callers| - j
  {
    var n := |s.callers|;
    if j == n {
      steps, s' := [], s;
    } else {
      var three, s1, c := GoesThrice(cfg, s, j, s.clock);
      MixedNext(n, k, j, stale, Outside, Running);
      assert s1.callers == Mixed(n, k, j + 1, stale, Outside, Running);
      var rest;
      rest, s' := FailAll(cfg, s1, k, j + 1, stale);
      GoesBoth(cfg, s, three, s1, rest, s', s.clock, 0, 0);
      steps := three + rest;
    }
  }

  /** While callers 0 .. k - 1 hold the old time, the others are admitted once and close the breaker. */
  lemma Round(cfg: Settings, s: Shared, k: nat, stale: int) returns (steps: seq<Step>, s': Shared)
    requires k < |s.callers| && s.callers == Mixed(|s.callers|, k, k, stale, Outside, Outside)
    requires 0 < cfg.threshold <= s.failures && s.last == stale && s.clock - stale > cfg.cooldown
    ensures s'.callers == s.callers && s'.clock == s.clock && s'.failures >= s.failures
    ensures Goes(cfg, s, steps, s', s.clock, |s.callers| - k)
  {
    var n := |s.callers|;
    assert s.callers == Mixed(n, k, k, stale, Running, Outside);
    var p, s1 := AdmitAll(cfg, s, k, k, stale);
    assert s1.callers == Mixed(n, k, k, stale, Outside, Running);
    var q, s2 := FailAll(cfg, s1, k, k, stale);
    GoesBoth(cfg, s, p, s1, q, s2, s.clock, n - k, 0);
    steps, s' := p + q, s2;
    assert Mixed(n, k, n, stale, Outside, Outside) == s.callers;
  }

  /** Storing an old time opens the breaker again. */
  lemma Reopens(cfg: Settings, s: Shared, k: nat, stale: int) returns (steps: seq<Step>, s': Shared)
    requires 0 < k < |s.callers| && s.callers == Mixed(|s.callers|, k, k, stale, Outside, Outside)
    ensures s'.callers == Mixed(|s.callers|, k - 1, k - 1, stale, Outside, Outside)
    ensures s'.clock == s.clock && s'.failures == s.failures && s'.last == stale && Goes(cfg, s, steps, s', s.clock, 0)
  {
    var step := Step(k - 1, s.clock, true);
    GoesOne(cfg, s, k - 1, s.clock);
    steps, s' := [step], Apply(cfg, s, step);
  }

  /** A round of calls, then the next old time is stored, and so on. */
  lemma {:induction false} Rounds(cfg: Settings, s: Shared, k: nat, stale: int) returns (steps: seq<Step>, s': Shared)
    requires k < |s.callers| && s.callers == Mixed(|s.callers|, k, k, stale, Outside, Outside)
    requires 0 < cfg.threshold <= s.failures && s.last == stale && s.clock - stale > cfg.cooldown
    ensures Later(|s.callers|, k) >= 0 && Goes(cfg, s, steps, s', s.clock, |s.callers| - k + Later(|s.callers|, k))
    decreases k
  {
    var n, t := |s.callers|, s.clock;
    LaterNonNegative(n, k);
    steps, s' := Round(cfg, s, k, stale);
    if k > 0 {
      var p, s1 := Reopens(cfg, s', k, stale);
      GoesBoth(cfg, s, steps, s', p, s1, t, n - k, 0);
      LaterNonNegative(n, k - 1);
      var rest, s2 := Rounds(cfg, s1, k - 1, stale);
      GoesBoth(cfg, s, steps + p, s1, rest, s2, t, n - k, n - k + 1 + Later(n, k - 1));
      steps, s' := steps + p + rest, s2;
    }
  }

  lemma {:induction false} ThenOne(cfg: Settings, s: Shared, steps: seq<Step>, step: Step)
    requires Legal(cfg, s, steps) && Enabled(Exec(cfg, s, steps), step)
    ensures Legal(cfg, s, steps + [step]) && Exec(cfg, s, steps + [step]) == Apply(cfg, Exec(cfg, s, steps), step)
    ensures FreeCalls(cfg, s, steps + [step])
            == FreeCalls(cfg, s, steps) + if Freely(cfg, Exec(cfg, s, steps), step) then 1 else 0
    decreases |steps|
  {
    if |steps| == 0 {
      assert (steps + [step])[1..] == [];
    } else {
      assert (steps + [step])[1..] == steps[1..] + [step];
      ThenOne(cfg, Apply(cfg, s, steps[0]), steps[1..], step);
    }
  }

  /** One caller fails a number of times below the threshold. */
  lemma {:induction false} WarmUp(cfg: Settings, n: nat, f: nat) returns (steps: seq<Step>)
    requires n > 0 && f < cfg.threshold
    ensures Legal(cfg, NewBreaker(n), steps) && Exec(cfg, NewBreaker(n), steps) == NewBreaker(n).(failures := f)
    ensures FreeCalls(cfg, NewBreaker(n), steps) == f
  {
    if f == 0 {
      steps := [];
    } else {
      steps := WarmUp(cfg, n, f - 1);
      var step := Step(0, 0, true);
      ThenOne(cfg, NewBreaker(n), steps, step);
      ThenOne(cfg, NewBreaker(n), steps + [step], step);
      ThenOne(cfg, NewBreaker(n), steps + [step] + [step], step);
      ThenOne(cfg, NewBreaker(n), steps + [step] + [step] + [step], step);
      steps := steps + [step] + [step] + [step] + [step];
      assert Exec(cfg, NewBreaker(n), steps).callers == NewBreaker(n).callers;
    }
  }

  /** One failure below the threshold, all callers are admitted. */
  lemma {:induction false} FreeAll(cfg: Settings, n: nat, j: nat) returns (steps: seq<Step>)
    requires 0 < n && j <= n && cfg.threshold > 0
    ensures Legal(cfg, NewBreaker(n), steps)
    ensures Exec(cfg, NewBreaker(n), steps)
            == NewBreaker(n).(failures := cfg.threshold - 1, callers := Mixed(n, 0, j, 0, Running, Outside))
    ensures FreeCalls(cfg, NewBreaker(n), steps) == cfg.threshold - 1 + j
  {
    if j == 0 {
      steps := WarmUp(cfg, n, cfg.threshold - 1);
      assert NewBreaker(n).callers == Mixed(n, 0, 0, 0, Running, Outside);
    } else {
      steps := FreeAll(cfg, n, j - 1);
      var step := Step(j - 1, 0, true);
      ThenOne(cfg, NewBreaker(n), steps, step);
      MixedNext(n, 0, j - 1, 0, Running, Outside);
      steps := steps + [step];
    }
  }

  /** They all fail and read the clock. */
  lemma {:induction false} StampAll(cfg: Settings, n: nat, j: nat) returns (steps: seq<Step>)
    requires 0 < n && j <= n && cfg.threshold > 0
    ensures Legal(cfg, NewBreaker(n), steps)
    ensures Exec(cfg, NewBreaker(n), steps)
            == NewBreaker(n).(failures := cfg.threshold - 1 + j, callers := Mixed(n, j, n, 0, Running, Running))
    ensures FreeCalls(cfg, NewBreaker(n), steps) == cfg.threshold + n - 1
  {
    if j == 0 {
      steps := FreeAll(cfg, n, n);
      assert Mixed(n, 0, n, 0, Running, Outside) == Mixed(n, 0, n, 0, Running, Running);
    } else {
      steps := StampAll(cfg, n, j - 1);
      var step := Step(j - 1, 0, true);
      ThenOne(cfg, NewBreaker(n), steps, step);
      ThenOne(cfg, NewBreaker(n), steps + [step], step);
      steps := steps + [step] + [step];
      assert Exec(cfg, NewBreaker(n), steps).callers == Mixed(n, j, n, 0, Running, Running);
    }
  }

  /** Both bounds are reached, for every threshold and number of callers: in a run from a new breaker,
      threshold + n - 1 calls are admitted below the threshold, and then n (n + 1) / 2 at one moment,
      the breaker being closed and opened again in between. */
  lemma BoundReached(cfg: Settings, n: nat) returns (before: seq<Step>, steps: seq<Step>)
    requires n > 0 && cfg.threshold > 0 && cfg.cooldown >= 0
    ensures Legal(cfg, NewBreaker(n), before) && Legal(cfg, Exec(cfg, NewBreaker(n), before), steps)
    ensures FreeCalls(cfg, NewBreaker(n), before) == cfg.threshold + n - 1
    ensures AllFail(cfg, Exec(cfg, NewBreaker(n), before), steps)
    ensures Between(steps, cfg.cooldown + 1, cfg.cooldown + 1)
    ensures CooledCalls(cfg, Exec(cfg, NewBreaker(n), before), steps) == Triangle(n)
  {
    before := StampAll(cfg, n, n);
    var store := Step(n - 1, cfg.cooldown + 1, true);
    ThenOne(cfg, NewBreaker(n), before, store);
    before := before + [store];
    var s := Exec(cfg, NewBreaker(n), before);
    assert s.callers == Mixed(n, n - 1, n - 1, 0, Outside, Outside);
    var s';
    LaterNonNegative(n, n - 1);
    LaterFits(n, n - 1);
    steps, s' := Rounds(cfg, s, n - 1, 0);
  }
}
