/**
 The history of one node: what the steps taken so far tell of its open updates, its snapshot and
 its version. The conditions on runs are stated here, on the order of the steps alone.
 */
module PeerTraces {
  import opened Common
  import opened Peers

  function Other(w: Writer): Writer {
    if w.Platform? then CatchUp else Platform
  }

  predicate IsServe(step: Step, j: nat, w: Writer) {
    step.Serve? && step.j == j && step.w == w
  }

  predicate IsRecord(step: Step, j: nat, w: Writer) {
    step.Record? && step.j == j && step.w == w
  }

  /** No first half by the writer on the node at lo .. hi - 1. */
  ghost predicate NoServe(steps: seq<Step>, j: nat, w: Writer, lo: int, hi: int) {
    forall t | 0 <= t < |steps| && lo <= t < hi :: !IsServe(steps[t], j, w)
  }

  /** No second half by the writer on the node at lo .. hi - 1. */
  ghost predicate NoRecord(steps: seq<Step>, j: nat, w: Writer, lo: int, hi: int) {
    forall t | 0 <= t < |steps| && lo <= t < hi :: !IsRecord(steps[t], j, w)
  }

  /** A check that may begin a round of the catch-up. */
  predicate IsCheck(step: Step, j: nat) {
    (step.Take? || step.Trigger?) && step.j == j
  }

  ghost predicate NoCheck(steps: seq<Step>, j: nat, lo: int, hi: int) {
    forall t | 0 <= t < |steps| && lo <= t < hi :: !IsCheck(steps[t], j)
  }

  // ---------------------------------------------------------------- traces

  ghost predicate WriterEffect(step: Step, j: nat, w: Writer, n: Node, n': Node) {
    && (IsServe(step, j, w) ==> Pending(n', w) == Some(step.v) && n'.held.version == step.v)
    && (IsRecord(step, j, w) ==> Pending(n, w) == Some(step.v) && Pending(n', w).None? && n'.version == step.v)
    && (!IsServe(step, j, w) && !IsRecord(step, j, w) ==> Pending(n', w) == Pending(n, w))
  }

  /** What one step does to the open updates, the snapshot and the version of node j. */
  ghost predicate Effect(step: Step, j: nat, n: Node, n': Node) {
    && WriterEffect(step, j, Platform, n, n') && WriterEffect(step, j, CatchUp, n, n')
    && (!IsServe(step, j, Platform) && !IsServe(step, j, CatchUp) ==> n'.held == n.held)
    && (!IsRecord(step, j, Platform) && !IsRecord(step, j, CatchUp) ==> n'.version == n.version)
  }

  /** The states of node j before and after each step. */
  ghost predicate Trace(steps: seq<Step>, ns: seq<Node>, j: nat) {
    && |ns| == |steps| + 1 && Idle(ns[0])
    && forall k | 0 <= k < |steps| :: Effect(steps[k], j, ns[k], ns[k + 1])
  }

  /** An open update was opened by its first half, and neither half has followed since. */
  lemma {:induction false} OpenedBy(steps: seq<Step>, ns: seq<Node>, j: nat, k: nat, w: Writer) returns (a: nat)
    requires Trace(steps, ns, j) && k < |ns| && Pending(ns[k], w).Some?
    ensures a < k && steps[a] == Serve(j, w, Pending(ns[k], w).value)
    ensures NoServe(steps, j, w, a + 1, k) && NoRecord(steps, j, w, a, k)
  {
    assert Effect(steps[k - 1], j, ns[k - 1], ns[k]);
    if IsServe(steps[k - 1], j, w) {
      a := k - 1;
    } else {
      a := OpenedBy(steps, ns, j, k - 1, w);
    }
  }

  /** An update that is no longer open was closed by its second half. */
  lemma {:induction false} ClosedBy(steps: seq<Step>, ns: seq<Node>, j: nat, a: nat, k: nat, w: Writer) returns (q: nat)
    requires Trace(steps, ns, j) && a < k < |ns| && IsServe(steps[a], j, w) && NoServe(steps, j, w, a + 1, k)
    requires Pending(ns[k], w).None?
    ensures a < q < k && steps[q] == Record(j, w, steps[a].v)
  {
    assert Effect(steps[k - 1], j, ns[k - 1], ns[k]);
    if Pending(ns[k - 1], w).None? {
      q := ClosedBy(steps, ns, j, a, k - 1, w);
    } else {
      var b := OpenedBy(steps, ns, j, k - 1, w);
      q := k - 1;
    }
  }

  /** A node serves what was applied last. */
  lemma {:induction false} HeldBy(steps: seq<Step>, ns: seq<Node>, j: nat, k: nat) returns (p: int)
    requires Trace(steps, ns, j) && k < |ns|
    ensures -1 <= p < k && NoServe(steps, j, Platform, p + 1, k) && NoServe(steps, j, CatchUp, p + 1, k)
    ensures p >= 0 ==> steps[p].Serve? && steps[p].j == j && steps[p].v == ns[k].held.version
    ensures p == -1 ==> ns[k].held == ns[0].held
  {
    if k == 0 {
      return -1;
    }
    assert Effect(steps[k - 1], j, ns[k - 1], ns[k]);
    if IsServe(steps[k - 1], j, Platform) || IsServe(steps[k - 1], j, CatchUp) {
      p := k - 1;
    } else {
      p := HeldBy(steps, ns, j, k - 1);
    }
  }

  /** A node's version is what was recorded last. */
  lemma {:induction false} VersionBy(steps: seq<Step>, ns: seq<Node>, j: nat, k: nat) returns (q: int)
    requires Trace(steps, ns, j) && k < |ns|
    ensures -1 <= q < k && NoRecord(steps, j, Platform, q + 1, k) && NoRecord(steps, j, CatchUp, q + 1, k)
    ensures q >= 0 ==> steps[q].Record? && steps[q].j == j && steps[q].v == ns[k].version
    ensures q == -1 ==> ns[k].version == ns[0].version
  {
    if k == 0 {
      return -1;
    }
    assert Effect(steps[k - 1], j, ns[k - 1], ns[k]);
    if IsRecord(steps[k - 1], j, Platform) || IsRecord(steps[k - 1], j, CatchUp) {
      q := k - 1;
    } else {
      q := VersionBy(steps, ns, j, k - 1);
    }
  }

  lemma {:induction false} VersionSame(steps: seq<Step>, ns: seq<Node>, j: nat, s: nat, k: nat)
    requires Trace(steps, ns, j) && s <= k < |ns|
    requires NoRecord(steps, j, Platform, s, k) && NoRecord(steps, j, CatchUp, s, k)
    ensures ns[s].version == ns[k].version
    decreases k
  {
    if s < k {
      VersionSame(steps, ns, j, s, k - 1);
      assert Effect(steps[k - 1], j, ns[k - 1], ns[k]);
    }
  }

  // ---------------------------------------------------------------- agreement of a node at rest

  /** Between the halves of the update that ends at k the other writer made a whole update p .. q,
      and no later one there. */
  ghost predicate Swallows(steps: seq<Step>, j: nat, w: Writer, p: nat, q: nat, k: nat) {
    && p < q < k < |steps|
    && IsRecord(steps[k], j, w) && NoServe(steps, j, w, p, k)
    && IsServe(steps[p], j, Other(w)) && IsRecord(steps[q], j, Other(w)) && NoServe(steps, j, Other(w), p + 1, k)
  }

  /** No update swallows an update to another version. */
  ghost predicate NothingSwallowed(steps: seq<Step>) {
    forall j: nat, w, p: nat, q: nat, k: nat | Swallows(steps, j, w, p, q, k) :: steps[p].v == steps[k].v
  }

  /** With nothing swallowed, the writer that applied last also recorded last. */
  lemma RestAgrees(steps: seq<Step>, ns: seq<Node>, j: nat, k: nat)
    requires Trace(steps, ns, j) && k < |ns| && NothingSwallowed(steps) && AtRest(ns[k])
    requires ns[0].version == ns[0].held.version
    ensures ns[k].version == ns[k].held.version
  {
    var p := HeldBy(steps, ns, j, k);
    var m := VersionBy(steps, ns, j, k);
    if m >= 0 {
      assert Effect(steps[m], j, ns[m], ns[m + 1]);
      var w := steps[m].w;
      var a := OpenedBy(steps, ns, j, m, w);
      assert a <= p;
      var w1 := steps[p].w;
      var q := ClosedBy(steps, ns, j, p, k, w1);
      assert q <= m;
      if w1 != w {
        assert Swallows(steps, j, w, p, q, m);
      }
    } else if p >= 0 {
      var q := ClosedBy(steps, ns, j, p, k, steps[p].w);
    }
  }

  /** A swallowed update to another version leaves the node at rest with a version it does not serve. */
  lemma SwallowedDisagrees(steps: seq<Step>, ns: seq<Node>, j: nat, w: Writer, p: nat, q: nat, k: nat)
    requires Trace(steps, ns, j) && Swallows(steps, j, w, p, q, k)
    ensures AtRest(ns[k + 1]) && ns[k + 1].version == steps[k].v && ns[k + 1].held.version == steps[p].v
  {
    var last := HeldBy(steps, ns, j, k);
    assert last == p;
    assert Effect(steps[k], j, ns[k], ns[k + 1]);
    if Pending(ns[k], Other(w)).Some? {
      var _ := OpenedBy(steps, ns, j, k, Other(w));
    }
  }

  // ---------------------------------------------------------------- versions in time

  /** Where the update that is under way at k began: a platform update with its first half, a
      catch-up with the check of its target. */
  ghost predicate Began(steps: seq<Step>, j: nat, w: Writer, s: nat, k: nat) {
    && s < k <= |steps|
    && if w.Platform? then IsServe(steps[s], j, Platform) && NoServe(steps, j, Platform, s + 1, k)
       else IsCheck(steps[s], j) && NoCheck(steps, j, s + 1, k)
  }

  /** A catch-up on a hint applies its snapshot although a platform update to a later version was begun
      before that and not finished before the catch-up's check. */
  ghost predicate ServedLate(steps: seq<Step>, j: nat, s: nat, p: nat, k: nat) {
    && k < |steps| && IsServe(steps[k], j, CatchUp) && Began(steps, j, CatchUp, s, k) && steps[s].Take?
    && p < k && IsServe(steps[p], j, Platform) && NoRecord(steps, j, Platform, p, s) && steps[p].v > steps[k].v
  }

  /** An update records its version although the other writer recorded a later one meanwhile. */
  ghost predicate RecordedLate(steps: seq<Step>, j: nat, w: Writer, s: nat, q: nat, k: nat) {
    && k < |steps| && IsRecord(steps[k], j, w) && Began(steps, j, w, s, k)
    && s < q < k && IsRecord(steps[q], j, Other(w)) && steps[q].v > steps[k].v
  }

  ghost predicate NoneLate(steps: seq<Step>) {
    && (forall j: nat, s: nat, p: nat, k: nat :: !ServedLate(steps, j, s, p, k))
    && (forall j: nat, w, s: nat, q: nat, k: nat :: !RecordedLate(steps, j, w, s, q, k))
  }

  /** The served version is the latest of the recorded one and those of the open updates. */
  ghost predicate Level(n: Node) {
    var h := n.held.version;
    && n.version <= h
    && (n.platform.Some? ==> n.platform.value <= h)
    && (n.worker.Applied? ==> n.worker.version <= h)
    && (h == n.version || n.platform == Some(h) || (n.worker.Applied? && n.worker.version == h))
  }

  /** The version a busy worker is after. */
  ghost function Goal(w: Worker): nat {
    match w
    case Resting => 0
    case Checked(h) => h.target
    case Pulled(t, _) => t
    case Applied(v) => v
  }

  /** A round begins at rest. A hint is ahead of the node's own version, and a round on a hint never
      lowers its goal. */
  ghost predicate WorkerEffect(step: Step, j: nat, n: Node, n': Node) {
    && (IsCheck(step, j) ==> n.worker.Resting?)
    && (!n'.worker.Resting? ==>
          if IsCheck(step, j) then n'.told == step.Trigger? && n.version < Goal(n'.worker)
          else && !n.worker.Resting? && !IsRecord(step, j, CatchUp) && n'.told == n.told
               && (n.told || Goal(n.worker) <= Goal(n'.worker)))
  }

  ghost predicate WorkerTrace(steps: seq<Step>, ns: seq<Node>, j: nat, upto: nat) {
    upto < |ns| == |steps| + 1 && forall k | 0 <= k < upto :: WorkerEffect(steps[k], j, ns[k], ns[k + 1])
  }

  /** The round of a busy worker began with a check, it has recorded nothing since, and on a hint
      what it is after lies ahead of what the node had recorded then. */
  lemma {:induction false} RoundOf(steps: seq<Step>, ns: seq<Node>, j: nat, k: nat) returns (s: nat)
    requires Trace(steps, ns, j) && WorkerTrace(steps, ns, j, k) && !ns[k].worker.Resting?
    ensures Began(steps, j, CatchUp, s, k) && NoRecord(steps, j, CatchUp, s, k)
    ensures ns[s].worker.Resting? && ns[k].told == steps[s].Trigger?
    ensures !ns[k].told ==> ns[s].version < Goal(ns[k].worker)
  {
    assert WorkerEffect(steps[k - 1], j, ns[k - 1], ns[k]);
    if IsCheck(steps[k - 1], j) {
      s := k - 1;
    } else {
      s := RoundOf(steps, ns, j, k - 1);
    }
  }

  /** What a node had recorded when a catch-up began, and every platform update since, is no later
      than what the catch-up applies. */
  lemma ServeInTime(steps: seq<Step>, ns: seq<Node>, j: nat, k: nat)
    requires Trace(steps, ns, j) && WorkerTrace(steps, ns, j, k) && Level(ns[k]) && NoneLate(steps)
    requires k < |steps| && IsServe(steps[k], j, CatchUp)
    requires ns[k].worker.Pulled? && !ns[k].told && ns[k].worker.target <= ns[k].worker.snap.version == steps[k].v
    ensures ns[k].held.version <= steps[k].v
  {
    var s := RoundOf(steps, ns, j, k);
    if ns[k].platform.Some? {
      var p := OpenedBy(steps, ns, j, k, Platform);
      assert !ServedLate(steps, j, s, p, k);
    }
    var q := VersionBy(steps, ns, j, k);
    if q < s {
      VersionSame(steps, ns, j, s, k);
    } else {
      assert IsRecord(steps[q], j, Platform) && Effect(steps[q], j, ns[q], ns[q + 1]);
      var p := OpenedBy(steps, ns, j, q, Platform);
      assert !ServedLate(steps, j, s, p, k);
    }
  }

  lemma {:induction false} StaysOpen(steps: seq<Step>, ns: seq<Node>, j: nat, w: Writer, a: nat, m: nat)
    requires Trace(steps, ns, j) && a < m < |ns| && IsServe(steps[a], j, w)
    requires NoServe(steps, j, w, a + 1, m) && NoRecord(steps, j, w, a, m)
    ensures Pending(ns[m], w).Some?
  {
    assert Effect(steps[m - 1], j, ns[m - 1], ns[m]);
    if a + 1 < m {
      StaysOpen(steps, ns, j, w, a, m - 1);
    }
  }

  /** An update was applied after it began, and when it was applied nothing later was recorded. */
  lemma AppliedInTime(steps: seq<Step>, ns: seq<Node>, j: nat, k: nat, w: Writer) returns (s: nat, a: nat)
    requires Trace(steps, ns, j) && WorkerTrace(steps, ns, j, k)
    requires forall i | 0 <= i < k :: Level(ns[i]) && ns[i].held.version <= ns[i + 1].held.version
    requires k < |steps| && IsRecord(steps[k], j, w)
    ensures s <= a < k && Began(steps, j, w, s, k) && NoRecord(steps, j, w, s, k)
    ensures ns[a].version <= steps[k].v
  {
    assert Effect(steps[k], j, ns[k], ns[k + 1]);
    a := OpenedBy(steps, ns, j, k, w);
    assert Effect(steps[a], j, ns[a], ns[a + 1]) && Level(ns[a]);
    if w.Platform? {
      s := a;
    } else {
      s := RoundOf(steps, ns, j, k);
      if a < s {
        StaysOpen(steps, ns, j, w, a, s);
      }
    }
  }

  /** What a node has recorded when an update records its version is no later. */
  lemma RecordInTime(steps: seq<Step>, ns: seq<Node>, j: nat, k: nat, w: Writer)
    requires Trace(steps, ns, j) && WorkerTrace(steps, ns, j, k) && NoneLate(steps)
    requires forall i | 0 <= i < k :: Level(ns[i]) && ns[i].held.version <= ns[i + 1].held.version
    requires k < |steps| && IsRecord(steps[k], j, w)
    ensures ns[k].version <= steps[k].v
  {
    var s, a := AppliedInTime(steps, ns, j, k, w);
    var q := VersionBy(steps, ns, j, k);
    if q < a {
      VersionSame(steps, ns, j, a, k);
    } else {
      assert IsRecord(steps[q], j, Other(w));
      assert !RecordedLate(steps, j, w, s, q, k);
    }
  }
}
