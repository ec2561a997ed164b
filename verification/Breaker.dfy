/** The circuit breaker in front of every filter, over sequential runs of attempts. Times are in nanoseconds. */
module Breaker {
  import Arith

  datatype Settings = Settings(threshold: int, cooldown: int)

  datatype State = State(failures: int, lastFailure: int)

  predicate Allows(cfg: Settings, b: State, now: int) {
    cfg.threshold <= 0 || b.failures < cfg.threshold || now - b.lastFailure > cfg.cooldown
  }

  function Succeeded(b: State): State {
    b.(failures := 0)
  }

  function Failed(b: State, now: int): State {
    State(b.failures + 1, now)
  }

  class CircuitBreaker {
    const cfg: Settings
    var consecutiveFailures: int
    var lastFailure: int

    ghost function Now(): State
      reads this
    {
      State(consecutiveFailures, lastFailure)
    }

    constructor (threshold: int, cooldown: int)
      ensures cfg == Settings(threshold, cooldown) && Now() == State(0, 0)
    {
      cfg := Settings(threshold, cooldown);
      consecutiveFailures, lastFailure := 0, 0;
    }

    method Allow(now: int) returns (ok: bool)
      ensures ok == Allows(cfg, Now(), now)
    {
      if cfg.threshold <= 0 {
        return true;
      }
      if consecutiveFailures < cfg.threshold {
        return true;
      }
      return now - lastFailure > cfg.cooldown;
    }

    method RecordSuccess()
      modifies this
      ensures Now() == Succeeded(old(Now()))
    {
      consecutiveFailures := 0;
    }

    method RecordFailure(now: int)
      modifies this
      ensures Now() == Failed(old(Now()), now)
    {
      consecutiveFailures := consecutiveFailures + 1;
      lastFailure := now;
    }
  }

  // ---------------------------------------------------------------- runs

  /** One attempt to call the filter at some time; if it is admitted, it ends later with a result. */
  datatype Attempt = Attempt(at: int, ok: bool, end: int)

  ghost predicate Sequential(run: seq<Attempt>) {
    && (forall i | 0 <= i < |run| :: run[i].at <= run[i].end)
    && (forall i, j | 0 <= i < j < |run| :: run[i].end <= run[j].at)
  }

  /** The breaker after the first k attempts. */
  ghost function After(cfg: Settings, b: State, run: seq<Attempt>, k: nat): State
    requires k <= |run|
  {
    if k == 0 then b
    else
      var prior := After(cfg, b, run, k - 1);
      var a := run[k - 1];
      if !Allows(cfg, prior, a.at) then prior
      else if a.ok then Succeeded(prior)
      else Failed(prior, a.end)
  }

  ghost predicate Admitted(cfg: Settings, b: State, run: seq<Attempt>, k: nat)
    requires k < |run|
  {
    Allows(cfg, After(cfg, b, run, k), run[k].at)
  }

  /** The admitted attempts among lo .. hi - 1. */
  ghost function AdmittedIn(cfg: Settings, b: State, run: seq<Attempt>, lo: nat, hi: nat): set<nat>
    requires hi <= |run|
  {
    set j: nat | lo <= j < hi && Admitted(cfg, b, run, j)
  }

  /** The last admitted success among the first k attempts; -1 if there is none. */
  ghost predicate IsLastSuccess(cfg: Settings, b: State, run: seq<Attempt>, k: nat, m: int)
    requires k <= |run|
  {
    && -1 <= m < k
    && (m >= 0 ==> Admitted(cfg, b, run, m) && run[m].ok)
    && forall j | m < j < k && Admitted(cfg, b, run, j) :: !run[j].ok
  }

  lemma {:induction false} LastSuccess(cfg: Settings, b: State, run: seq<Attempt>, k: nat) returns (m: int)
    requires k <= |run|
    ensures IsLastSuccess(cfg, b, run, k, m)
  {
    if k == 0 {
      m := -1;
    } else if Admitted(cfg, b, run, k - 1) && run[k - 1].ok {
      m := k - 1;
    } else {
      m := LastSuccess(cfg, b, run, k - 1);
    }
  }

  /** The counter is the current failure streak: the number of attempts admitted since the last
      admitted success, all of which failed. */
  lemma {:induction false} CounterIsStreak(cfg: Settings, run: seq<Attempt>, k: nat, m: int)
    requires k <= |run| && IsLastSuccess(cfg, State(0, 0), run, k, m)
    ensures After(cfg, State(0, 0), run, k).failures == |AdmittedIn(cfg, State(0, 0), run, m + 1, k)|
    ensures forall j | j in AdmittedIn(cfg, State(0, 0), run, m + 1, k) :: !run[j].ok
  {
    var b := State(0, 0);
    if m == k - 1 {
      assert AdmittedIn(cfg, b, run, k, k) == {};
    } else {
      CounterIsStreak(cfg, run, k - 1, m);
      var before := AdmittedIn(cfg, b, run, m + 1, k - 1);
      assert AdmittedIn(cfg, b, run, m + 1, k) == before + if Admitted(cfg, b, run, k - 1) then {k - 1} else {};
    }
  }

  lemma {:induction false} LastFailureIs(cfg: Settings, b: State, run: seq<Attempt>, i: nat, j: nat)
    requires i < j <= |run| && Admitted(cfg, b, run, i) && !run[i].ok
    requires forall t | i < t < j :: !Admitted(cfg, b, run, t)
    ensures After(cfg, b, run, j).lastFailure == run[i].end
  {
    if i + 1 < j {
      LastFailureIs(cfg, b, run, i, j - 1);
      assert !Admitted(cfg, b, run, j - 1);
    }
  }

  /** Once the streak has reached the threshold, every further call of it comes more than the
      cooldown after the end of the call before. */
  lemma StreakIsPaced(cfg: Settings, run: seq<Attempt>, m: int, i: nat, j: nat)
    requires m < i < j < |run| && cfg.threshold > 0 && IsLastSuccess(cfg, State(0, 0), run, j, m)
    requires Admitted(cfg, State(0, 0), run, i) && Admitted(cfg, State(0, 0), run, j)
    requires forall t | i < t < j :: !Admitted(cfg, State(0, 0), run, t)
    requires |AdmittedIn(cfg, State(0, 0), run, m + 1, j)| >= cfg.threshold
    ensures run[j].at - run[i].end > cfg.cooldown
  {
    CounterIsStreak(cfg, run, j, m);
    LastFailureIs(cfg, State(0, 0), run, i, j);
  }

  /** Calls admitted among the attempts lo .. hi - 1 between the times from and to. */
  ghost function Calls(cfg: Settings, b: State, run: seq<Attempt>, lo: nat, hi: nat, from: int, to: int): nat
    requires lo <= hi <= |run|
    decreases hi
  {
    if lo == hi then 0
    else Calls(cfg, b, run, lo, hi - 1, from, to)
         + if Admitted(cfg, b, run, hi - 1) && from <= run[hi - 1].at <= to then 1 else 0
  }

  ghost predicate Failing(cfg: Settings, b: State, run: seq<Attempt>, lo: nat, hi: nat)
    requires lo <= hi <= |run|
  {
    forall j | lo <= j < hi && Admitted(cfg, b, run, j) :: !run[j].ok
  }

  /** The last of m calls in the interval came late enough to have waited out its cooldowns. */
  ghost predicate CameAt(cfg: Settings, m: int, from: int, to: int, lastFailure: int, last: int)
    requires cfg.cooldown > 0
  {
    from <= last <= to && last <= lastFailure && m <= cfg.threshold + (last - from) / cfg.cooldown
  }

  /** Calls counted so far are failures so far, and each beyond the threshold cost a cooldown. */
  ghost predicate Paced(cfg: Settings, b: State, run: seq<Attempt>, lo: nat, hi: nat, from: int, to: int)
    requires lo <= hi <= |run| && cfg.cooldown > 0
  {
    var m := Calls(cfg, b, run, lo, hi, from, to);
    var s := After(cfg, b, run, hi);
    m > 0 ==> s.failures >= m && exists last :: CameAt(cfg, m, from, to, s.lastFailure, last)
  }

  lemma QuotientStep(x: int, y: int, d: int)
    requires d > 0 && x >= y + d
    ensures x / d >= y / d + 1
  {
    Arith.ModShift(y, 1, d);
    Arith.DivMonotone(y + d, x, d);
  }

  /** The counter is never negative, and the last failure is never in the future. */
  lemma {:induction false} Plausible(cfg: Settings, b: State, run: seq<Attempt>, k: nat)
    requires k < |run| && Sequential(run) && b.failures >= 0 && b.lastFailure <= run[0].at
    ensures After(cfg, b, run, k).failures >= 0 && After(cfg, b, run, k).lastFailure <= run[k].at
  {
    if k > 0 {
      Plausible(cfg, b, run, k - 1);
      assert run[k - 1].at <= run[k - 1].end <= run[k].at;
    }
  }

  /** One more call in the interval came a cooldown later if the threshold was reached. */
  lemma CameNext(cfg: Settings, m: int, from: int, to: int, s: State, last: int, at: int)
    requires cfg.cooldown > 0 && CameAt(cfg, m, from, to, s.lastFailure, last) && Allows(cfg, s, at) && cfg.threshold > 0
    requires s.failures >= m && from <= at <= to
    ensures m + 1 <= cfg.threshold + (at - from) / cfg.cooldown
  {
    if s.failures >= cfg.threshold {
      QuotientStep(at - from, last - from, cfg.cooldown);
    } else {
      Arith.DivMonotone(0, at - from, cfg.cooldown);
    }
  }

  lemma PacedStep(cfg: Settings, b: State, run: seq<Attempt>, lo: nat, j: nat, from: int, to: int)
    requires lo <= j < |run| && Sequential(run) && cfg.threshold > 0 && cfg.cooldown > 0
    requires b.failures >= 0 && b.lastFailure <= run[0].at
    requires Failing(cfg, b, run, lo, j + 1) && Paced(cfg, b, run, lo, j, from, to)
    ensures Paced(cfg, b, run, lo, j + 1, from, to)
  {
    var m := Calls(cfg, b, run, lo, j, from, to);
    var s := After(cfg, b, run, j);
    Plausible(cfg, b, run, j);
    if Admitted(cfg, b, run, j) {
      var at, s' := run[j].at, After(cfg, b, run, j + 1);
      assert s' == Failed(s, run[j].end) && at <= run[j].end;
      if from <= at <= to {
        if m > 0 {
          var last :| CameAt(cfg, m, from, to, s.lastFailure, last);
          CameNext(cfg, m, from, to, s, last, at);
        } else {
          Arith.DivMonotone(0, at - from, cfg.cooldown);
        }
        assert CameAt(cfg, m + 1, from, to, s'.lastFailure, at);
      } else if m > 0 {
        var last :| CameAt(cfg, m, from, to, s.lastFailure, last);
        assert CameAt(cfg, m, from, to, s'.lastFailure, last);
      }
    }
  }

  lemma {:induction false} CallsArePaced(cfg: Settings, b: State, run: seq<Attempt>, lo: nat, hi: nat, from: int,
      to: int)
    requires lo <= hi <= |run| && |run| > 0 && Sequential(run) && cfg.threshold > 0 && cfg.cooldown > 0
    requires b.failures >= 0 && b.lastFailure <= run[0].at
    requires Failing(cfg, b, run, lo, hi)
    ensures Paced(cfg, b, run, lo, hi, from, to)
    decreases hi
  {
    if lo < hi {
      CallsArePaced(cfg, b, run, lo, hi - 1, from, to);
      PacedStep(cfg, b, run, lo, hi - 1, from, to);
    }
  }

  /** A failing filter is called at most threshold times plus once per cooldown in any interval. */
  lemma FailingCallsBounded(cfg: Settings, run: seq<Attempt>, lo: nat, hi: nat, from: int, to: int)
    requires lo <= hi <= |run| && |run| > 0 && run[0].at >= 0 && Sequential(run)
    requires cfg.threshold > 0 && cfg.cooldown > 0 && from <= to
    requires Failing(cfg, State(0, 0), run, lo, hi)
    ensures Calls(cfg, State(0, 0), run, lo, hi, from, to) <= cfg.threshold + (to - from) / cfg.cooldown
  {
    var b := State(0, 0);
    CallsArePaced(cfg, b, run, lo, hi, from, to);
    var m := Calls(cfg, b, run, lo, hi, from, to);
    Arith.DivMonotone(0, to - from, cfg.cooldown);
    if m > 0 {
      var s := After(cfg, b, run, hi);
      var last :| CameAt(cfg, m, from, to, s.lastFailure, last);
      Arith.DivMonotone(last - from, to - from, cfg.cooldown);
    }
  }
}
