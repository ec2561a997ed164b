/**
 The circuit breaker under concurrent calls. Its two words are read and written one at a time: a
 failure is counted, the clock is read, and only then is the time stored, so a slow caller can store
 an older failure over a newer one and open the breaker again. With n callers a failing filter is
 still called a bounded number of times. Times are in nanoseconds and do not run back.
 */
module BreakerRaces {
  import opened Common
  import Arith
  import Breaker

  type Settings = Breaker.Settings

  /** Where a caller is in Allow, the call and RecordFailure. */
  datatype Caller =
    | Outside
    | Judging           // the counter was at the threshold
    | Loaded(last: int) // the last failure has been read
    | Running
    | Counted           // the failure is counted
    | Stamped(at: int)  // its time is read and not yet stored

  datatype Shared = Shared(failures: int, last: int, callers: seq<Caller>, clock: int)

  /** The next access of caller i, at time t; `fails` decides how a running call ends. */
  datatype Step = Step(i: nat, t: int, fails: bool)

  ghost function NewBreaker(n: nat): Shared {
    Shared(0, 0, seq(n, _ => Outside), 0)
  }

  ghost predicate Enabled(s: Shared, step: Step) {
    step.i < |s.callers| && step.t >= s.clock
  }

  ghost function Apply(cfg: Settings, s: Shared, step: Step): Shared
    requires Enabled(s, step)
  {
    var (i, now) := (step.i, s.(clock := step.t));
    match s.callers[i]
    case Outside => Become(now, i, if cfg.threshold <= 0 || s.failures < cfg.threshold then Running else Judging)
    case Judging => Become(now, i, Loaded(s.last))
    case Loaded(last) => Become(now, i, if step.t - last > cfg.cooldown then Running else Outside)
    case Running =>
      if step.fails then Become(now.(failures := s.failures + 1), i, Counted)
      else Become(now.(failures := 0), i, Outside)
    case Counted => Become(now, i, Stamped(step.t))
    case Stamped(at) => Become(now.(last := at), i, Outside)
  }

  ghost function Become(s: Shared, i: nat, c: Caller): Shared
    requires i < |s.callers|
  {
    s.(callers := s.callers[i := c])
  }

  ghost predicate Legal(cfg: Settings, s: Shared, steps: seq<Step>)
    decreases |steps|
  {
    |steps| == 0 || (Enabled(s, steps[0]) && Legal(cfg, Apply(cfg, s, steps[0]), steps[1..]))
  }

  ghost function Exec(cfg: Settings, s: Shared, steps: seq<Step>): Shared
    requires Legal(cfg, s, steps)
    decreases |steps|
  {
    if |steps| == 0 then s else Exec(cfg, Apply(cfg, s, steps[0]), steps[1..])
  }

  /** Admitted because the counter was below the threshold. */
  ghost predicate Freely(cfg: Settings, s: Shared, step: Step)
    requires Enabled(s, step)
  {
    s.callers[step.i].Outside? && Apply(cfg, s, step).callers[step.i].Running?
  }

  /** Admitted because the cooldown was over. */
  ghost predicate AfterCooldown(cfg: Settings, s: Shared, step: Step)
    requires Enabled(s, step)
  {
    s.callers[step.i].Loaded? && Apply(cfg, s, step).callers[step.i].Running?
  }

  ghost function FreeCalls(cfg: Settings, s: Shared, steps: seq<Step>): nat
    requires Legal(cfg, s, steps)
    decreases |steps|
  {
    if |steps| == 0 then 0
    else (if Freely(cfg, s, steps[0]) then 1 else 0) + FreeCalls(cfg, Apply(cfg, s, steps[0]), steps[1..])
  }

  ghost function CooledCalls(cfg: Settings, s: Shared, steps: seq<Step>): nat
    requires Legal(cfg, s, steps)
    decreases |steps|
  {
    if |steps| == 0 then 0
    else (if AfterCooldown(cfg, s, steps[0]) then 1 else 0) + CooledCalls(cfg, Apply(cfg, s, steps[0]), steps[1..])
  }

  /** No call ends well. */
  ghost predicate AllFail(cfg: Settings, s: Shared, steps: seq<Step>)
    requires Legal(cfg, s, steps)
    decreases |steps|
  {
    |steps| == 0
    || ((s.callers[steps[0].i].Running? ==> steps[0].fails) && AllFail(cfg, Apply(cfg, s, steps[0]), steps[1..]))
  }

  ghost predicate Between(steps: seq<Step>, since: int, until: int) {
    forall k | 0 <= k < |steps| :: since <= steps[k].t <= until
  }

  /** A run is a part of it followed by the rest. */
  lemma {:induction false} RunInTwo(cfg: Settings, s: Shared, steps: seq<Step>, e: nat)
    requires Legal(cfg, s, steps) && e <= |steps|
    ensures Legal(cfg, s, steps[..e]) && Legal(cfg, Exec(cfg, s, steps[..e]), steps[e..])
    ensures CooledCalls(cfg, s, steps)
            == CooledCalls(cfg, s, steps[..e]) + CooledCalls(cfg, Exec(cfg, s, steps[..e]), steps[e..])
    ensures AllFail(cfg, s, steps) ==> AllFail(cfg, s, steps[..e]) && AllFail(cfg, Exec(cfg, s, steps[..e]), steps[e..])
    decreases |steps|
  {
    if e == 0 {
      assert steps[..0] == [] && steps[0..] == steps;
    } else {
      assert steps[..e][1..] == steps[1..][..e - 1] && steps[1..][e - 1..] == steps[e..];
      RunInTwo(cfg, Apply(cfg, s, steps[0]), steps[1..], e - 1);
    }
  }

  // ---------------------------------------------------------------- calls below the threshold

  ghost function RunningFlags(callers: seq<Caller>): seq<int> {
    seq(|callers|, i requires 0 <= i < |callers| => if callers[i].Running? then 1 else 0)
  }

  /** Failures counted and to be counted. */
  ghost function Burden(s: Shared): int {
    s.failures + Sum(RunningFlags(s.callers))
  }

  lemma RunningChanges(callers: seq<Caller>, i: nat, c: Caller)
    requires i < |callers|
    ensures Sum(RunningFlags(callers[i := c]))
            == Sum(RunningFlags(callers)) - (if callers[i].Running? then 1 else 0) + (if c.Running? then 1 else 0)
  {
    assert RunningFlags(callers[i := c]) == RunningFlags(callers)[i := if c.Running? then 1 else 0];
    SumUpdate(RunningFlags(callers), i, if c.Running? then 1 else 0);
  }

  /** While no call ends well, the burden grows by one with each call admitted. */
  lemma BurdenGrows(cfg: Settings, s: Shared, step: Step)
    requires Enabled(s, step) && (s.callers[step.i].Running? ==> step.fails)
    ensures Burden(Apply(cfg, s, step))
            == Burden(s) + (if Freely(cfg, s, step) then 1 else 0) + (if AfterCooldown(cfg, s, step) then 1 else 0)
  {
    RunningChanges(s.callers, step.i, Apply(cfg, s, step).callers[step.i]);
  }

  /** A caller that is not running leaves at most n - 1 that are. */
  lemma OthersRunning(callers: seq<Caller>, i: nat)
    requires i < |callers| && !callers[i].Running?
    ensures Sum(RunningFlags(callers)) <= |callers| - 1
  {
    SumUpdate(RunningFlags(callers), i, 1);
    SumUpperBound(RunningFlags(callers)[i := 1], 1);
  }

  /** Calls are admitted below the threshold only until it is reached by what is counted or running. */
  lemma {:induction false} FreeCallsBounded(cfg: Settings, s: Shared, steps: seq<Step>)
    requires Legal(cfg, s, steps) && AllFail(cfg, s, steps) && cfg.threshold > 0 && |s.callers| > 0
    ensures FreeCalls(cfg, s, steps) == 0 || FreeCalls(cfg, s, steps) <= cfg.threshold + |s.callers| - 1 - Burden(s)
    decreases |steps|
  {
    if |steps| > 0 {
      BurdenGrows(cfg, s, steps[0]);
      FreeCallsBounded(cfg, Apply(cfg, s, steps[0]), steps[1..]);
      if Freely(cfg, s, steps[0]) {
        OthersRunning(s.callers, steps[0].i);
      }
    }
  }

  // ---------------------------------------------------------------- calls within one cooldown

  /** The stored failure is from before the window: a caller that reads it now may be admitted. */
  ghost predicate Open(s: Shared, start: int) {
    s.last < start
  }

  /** Holds a time from before the window that it will store. */
  ghost function StaleFlag(c: Caller, start: int): int {
    if c.Stamped? && c.at < start then 1 else 0
  }

  /** May be admitted in the window before another stale time is stored. */
  ghost function ReadyFlag(c: Caller, start: int, isOpen: bool): int {
    match c
    case Outside => if isOpen then 1 else 0
    case Judging => if isOpen then 1 else 0
    case Loaded(last) => if last < start || isOpen then 1 else 0
    case _ => 0
  }

  ghost function Stales(callers: seq<Caller>, start: int): seq<int> {
    seq(|callers|, i requires 0 <= i < |callers| => StaleFlag(callers[i], start))
  }

  ghost function Readies(callers: seq<Caller>, start: int, isOpen: bool): seq<int> {
    seq(|callers|, i requires 0 <= i < |callers| => ReadyFlag(callers[i], start, isOpen))
  }

  /** The calls that m more stale times can let in: after each of them, every caller that holds none. */
  ghost function Later(n: int, m: int): int
    decreases m
  {
    if m <= 0 then 0 else n - m + 1 + Later(n, m - 1)
  }

  ghost function Triangle(n: nat): nat {
    if n == 0 then 0 else n + Triangle(n - 1)
  }

  lemma {:induction false} TriangleIs(n: nat)
    ensures 2 * Triangle(n) == n * (n + 1)
  {
    if n > 0 {
      TriangleIs(n - 1);
      assert n * (n + 1) == (n - 1) * n + 2 * n;
    }
  }

  lemma {:induction false} LaterFits(n: nat, m: nat)
    requires m <= n
    ensures n - m + Later(n, m) <= Later(n, m) + Triangle(n - m) == Triangle(n)
  {
    if m > 0 {
      LaterFits(n, m - 1);
    }
  }

  ghost function StaleCount(s: Shared, start: int): int {
    Sum(Stales(s.callers, start))
  }

  /** A caller is ready or holds a stale time, never both. */
  lemma {:induction false} CountsFit(callers: seq<Caller>, start: int, isOpen: bool)
    ensures Sum(Stales(callers, start)) >= 0 && Sum(Readies(callers, start, isOpen)) >= 0
    ensures Sum(Stales(callers, start)) + Sum(Readies(callers, start, isOpen)) <= |callers|
  {
    if |callers| > 0 {
      var n := |callers| - 1;
      CountsFit(callers[..n], start, isOpen);
      assert Stales(callers, start)[..n] == Stales(callers[..n], start);
      assert Readies(callers, start, isOpen)[..n] == Readies(callers[..n], start, isOpen);
    }
  }

  /** The calls that the rest of the window can still admit. */
  ghost function Potential(s: Shared, start: int): int {
    Sum(Readies(s.callers, start, Open(s, start))) + Later(|s.callers|, StaleCount(s, start))
  }

  lemma PotentialBounds(s: Shared, start: int)
    ensures 0 <= Potential(s, start) <= Triangle(|s.callers|)
  {
    CountsFit(s.callers, start, Open(s, start));
    LaterFits(|s.callers|, StaleCount(s, start));
    LaterNonNegative(|s.callers|, StaleCount(s, start));
  }

  lemma {:induction false} LaterNonNegative(n: nat, m: nat)
    requires m <= n
    ensures Later(n, m) >= 0
  {
    if m > 0 {
      LaterNonNegative(n, m - 1);
    }
  }

  lemma CountsChange(callers: seq<Caller>, i: nat, c: Caller, start: int, isOpen: bool)
    requires i < |callers|
    ensures Sum(Stales(callers[i := c], start))
            == Sum(Stales(callers, start)) - StaleFlag(callers[i], start) + StaleFlag(c, start)
    ensures Sum(Readies(callers[i := c], start, isOpen))
            == Sum(Readies(callers, start, isOpen)) - ReadyFlag(callers[i], start, isOpen) + ReadyFlag(c, start, isOpen)
  {
    assert Stales(callers[i := c], start) == Stales(callers, start)[i := StaleFlag(c, start)];
    assert Readies(callers[i := c], start, isOpen) == Readies(callers, start, isOpen)[i := ReadyFlag(c, start, isOpen)];
    SumUpdate(Stales(callers, start), i, StaleFlag(c, start));
    SumUpdate(Readies(callers, start, isOpen), i, ReadyFlag(c, start, isOpen));
  }

  lemma ClosedIsLess(callers: seq<Caller>, start: int, isOpen: bool)
    ensures Sum(Readies(callers, start, false)) <= Sum(Readies(callers, start, isOpen))
  {
    SumMonotone(Readies(callers, start, false), Readies(callers, start, isOpen));
  }

  /** Storing a time never raises the potential: a newer one closes the breaker, and a stale one uses
      up its caller's turn. */
  lemma StoreLowers(cfg: Settings, s: Shared, step: Step, start: int)
    requires Enabled(s, step) && s.callers[step.i].Stamped?
    ensures Potential(Apply(cfg, s, step), start) <= Potential(s, start)
  {
    var s' := Apply(cfg, s, step);
    var at := s.callers[step.i].at;
    CountsChange(s.callers, step.i, Outside, start, Open(s', start));
    if at < start {
      CountsFit(s'.callers, start, Open(s', start));
      CountsFit(s.callers, start, Open(s, start));
    } else {
      ClosedIsLess(s.callers, start, Open(s, start));
    }
  }

  /** Every other access within the window keeps it or, admitting a call after a cooldown, lowers it. */
  lemma StepLowers(cfg: Settings, s: Shared, step: Step, start: int)
    requires Enabled(s, step) && start <= step.t <= start + cfg.cooldown && (s.callers[step.i].Running? ==> step.fails)
    ensures Potential(Apply(cfg, s, step), start) + (if AfterCooldown(cfg, s, step) then 1 else 0) <= Potential(s, start)
  {
    if s.callers[step.i].Stamped? {
      StoreLowers(cfg, s, step, start);
    } else {
      CountsChange(s.callers, step.i, Apply(cfg, s, step).callers[step.i], start, Open(s, start));
    }
  }

  /** Within one cooldown at most n (n + 1) / 2 calls are admitted after a cooldown. */
  lemma {:induction false} WindowBounded(cfg: Settings, s: Shared, steps: seq<Step>, start: int)
    requires Legal(cfg, s, steps) && AllFail(cfg, s, steps) && Between(steps, start, start + cfg.cooldown)
    ensures CooledCalls(cfg, s, steps) <= Potential(s, start) <= Triangle(|s.callers|)
    decreases |steps|
  {
    PotentialBounds(s, start);
    if |steps| > 0 {
      StepLowers(cfg, s, steps[0], start);
      assert forall k | 0 <= k < |steps[1..]| :: steps[1..][k] == steps[k + 1];
      WindowBounded(cfg, Apply(cfg, s, steps[0]), steps[1..], start);
    }
  }

  // ---------------------------------------------------------------- any interval

  /** The first step after a moment. */
  lemma {:induction false} FirstAfter(cfg: Settings, s: Shared, steps: seq<Step>, moment: int) returns (e: nat)
    requires Legal(cfg, s, steps)
    ensures e <= |steps| && (forall k | 0 <= k < e :: steps[k].t <= moment)
    ensures forall k | e <= k < |steps| :: steps[k].t > moment
    decreases |steps|
  {
    if |steps| == 0 {
      e := 0;
    } else if steps[0].t > moment {
      e := 0;
      StepsAreLater(cfg, s, steps);
    } else {
      var rest := FirstAfter(cfg, Apply(cfg, s, steps[0]), steps[1..], moment);
      assert forall k | 0 < k < |steps| :: steps[k] == steps[1..][k - 1];
      e := rest + 1;
    }
  }

  lemma {:induction false} StepsAreLater(cfg: Settings, s: Shared, steps: seq<Step>)
    requires Legal(cfg, s, steps)
    ensures forall k | 0 <= k < |steps| :: steps[k].t >= steps[0].t >= s.clock
    decreases |steps|
  {
    if |steps| > 0 {
      StepsAreLater(cfg, Apply(cfg, s, steps[0]), steps[1..]);
      assert forall k | 0 < k < |steps| :: steps[k] == steps[1..][k - 1];
    }
  }

  lemma {:induction false} SameCallers(cfg: Settings, s: Shared, steps: seq<Step>)
    requires Legal(cfg, s, steps)
    ensures |Exec(cfg, s, steps).callers| == |s.callers|
    decreases |steps|
  {
    if |steps| > 0 {
      SameCallers(cfg, Apply(cfg, s, steps[0]), steps[1..]);
    }
  }

  lemma OneWindow(x: int, w: int, tri: nat)
    requires 0 <= x < w
    ensures (x / w + 1) * tri == tri
  {
    Arith.DivModUnique(x, 0, x, w);
  }

  lemma OneWindowMore(x: int, w: int, tri: nat)
    requires 0 < w <= x
    ensures (x / w + 1) * tri == ((x - w) / w + 1) * tri + tri
  {
    Arith.ModShift(x - w, 1, w);
    var q := (x - w) / w;
    assert (q + 2) * tri == (q + 1) * tri + tri;
  }

  lemma {:induction false} CooledCallsBounded(cfg: Settings, s: Shared, steps: seq<Step>, since: int, until: int)
    requires Legal(cfg, s, steps) && AllFail(cfg, s, steps) && Between(steps, since, until)
    requires since <= until && cfg.cooldown >= 0
    ensures CooledCalls(cfg, s, steps) <= ((until - since) / (cfg.cooldown + 1) + 1) * Triangle(|s.callers|)
    decreases until - since
  {
    var w, tri := cfg.cooldown + 1, Triangle(|s.callers|);
    if until < since + w {
      WindowBounded(cfg, s, steps, since);
      OneWindow(until - since, w, tri);
    } else {
      var e := FirstAfter(cfg, s, steps, since + cfg.cooldown);
      RunInTwo(cfg, s, steps, e);
      WindowBounded(cfg, s, steps[..e], since);
      SameCallers(cfg, s, steps[..e]);
      CooledCallsBounded(cfg, Exec(cfg, s, steps[..e]), steps[e..], since + w, until);
      OneWindowMore(until - since, w, tri);
    }
  }

  lemma {:induction false} CounterNonNegative(cfg: Settings, s: Shared, steps: seq<Step>)
    requires Legal(cfg, s, steps) && s.failures >= 0
    ensures Exec(cfg, s, steps).failures >= 0
    decreases |steps|
  {
    if |steps| > 0 {
      CounterNonNegative(cfg, Apply(cfg, s, steps[0]), steps[1..]);
    }
  }

  /** In every interleaving of n callers, while no call ends well, a filter is called in an interval at
      most threshold + n - 1 times below the threshold and n (n + 1) / 2 times per cooldown. */
  lemma FailingCallsBounded(cfg: Settings, n: nat, before: seq<Step>, steps: seq<Step>, since: int, until: int)
    requires n > 0 && cfg.threshold > 0 && cfg.cooldown >= 0 && since <= until
    requires Legal(cfg, NewBreaker(n), before) && Legal(cfg, Exec(cfg, NewBreaker(n), before), steps)
    requires AllFail(cfg, Exec(cfg, NewBreaker(n), before), steps) && Between(steps, since, until)
    ensures var s := Exec(cfg, NewBreaker(n), before);
            && FreeCalls(cfg, s, steps) <= cfg.threshold + n - 1
            && CooledCalls(cfg, s, steps) <= ((until - since) / (cfg.cooldown + 1) + 1) * Triangle(n)
            && 2 * Triangle(n) == n * (n + 1)
  {
    var s := Exec(cfg, NewBreaker(n), before);
    CounterNonNegative(cfg, NewBreaker(n), before);
    SameCallers(cfg, NewBreaker(n), before);
    FreeCallsBounded(cfg, s, steps);
    var zeros := seq(n, _ => 0);
    SumZero(zeros);
    SumMonotone(zeros, RunningFlags(s.callers));
    CooledCallsBounded(cfg, s, steps, since, until);
    TriangleIs(n);
  }
}
