/**
 Runs of the peer cluster: when a node's recorded version is that of the snapshot it serves, when
 versions never go back, and that the nodes can always converge.
 */
module PeerRuns {
  import opened Common
  import opened Peers
  import opened PeerTraces

  /** The states of node j along a run. */
  ghost function NodeAlong(states: seq<Cluster>, j: nat): (ns: seq<Node>)
    requires forall i | 0 <= i < |states| :: j < |states[i].nodes|
  {
    seq(|states|, i requires 0 <= i < |states| => states[i].nodes[j])
  }

  lemma StepEffect(published: nat -> Content, c: Cluster, step: Step, j: nat)
    requires Enabled(c, step) && j < |c.nodes|
    ensures |Apply(published, c, step).nodes| == |c.nodes|
    ensures Effect(step, j, c.nodes[j], Apply(published, c, step).nodes[j])
  {
  }

  lemma SameSize(published: nat -> Content, steps: seq<Step>, states: seq<Cluster>)
    requires Run(published, steps, states) && Start(published, states[0])
    ensures forall i | 0 <= i < |states| :: |states[i].nodes| == |states[0].nodes|
  {
    forall i | 0 <= i < |states|
      ensures |states[i].nodes| == |states[0].nodes|
    {
      AlwaysAuthentic(published, steps, states, i);
    }
  }

  /** Every run is a trace for each of its nodes. */
  lemma TraceOf(published: nat -> Content, steps: seq<Step>, states: seq<Cluster>, j: nat)
    requires Run(published, steps, states) && Start(published, states[0]) && j < |states[0].nodes|
    ensures forall i | 0 <= i < |states| :: |states[i].nodes| == |states[0].nodes|
    ensures Trace(steps, NodeAlong(states, j), j)
  {
    SameSize(published, steps, states);
    var ns := NodeAlong(states, j);
    forall k | 0 <= k < |steps|
      ensures Effect(steps[k], j, ns[k], ns[k + 1])
    {
      StepEffect(published, states[k], steps[k], j);
    }
    assert Idle(states[0].nodes[j]);
  }

  // ---------------------------------------------------------------- agreement

  /** Whenever no update of a node is half done, its recorded version is that of the snapshot it serves. */
  ghost predicate AgreesAtRest(states: seq<Cluster>) {
    forall k, j | 0 <= k < |states| && 0 <= j < |states[k].nodes| && AtRest(states[k].nodes[j]) ::
      states[k].nodes[j].version == states[k].nodes[j].held.version
  }

  /** Recorded and served version agree whenever a node is at rest exactly when no update swallows
      one to another version. */
  lemma AgreementIff(published: nat -> Content, steps: seq<Step>, states: seq<Cluster>)
    requires Run(published, steps, states) && Start(published, states[0])
    ensures AgreesAtRest(states) <==> NothingSwallowed(steps)
  {
    SameSize(published, steps, states);
    if NothingSwallowed(steps) {
      forall k, j | 0 <= k < |states| && 0 <= j < |states[k].nodes| && AtRest(states[k].nodes[j])
        ensures states[k].nodes[j].version == states[k].nodes[j].held.version
      {
        TraceOf(published, steps, states, j);
        RestAgrees(steps, NodeAlong(states, j), j, k);
      }
    }
    if AgreesAtRest(states) {
      forall j: nat, w, p: nat, q: nat, k: nat | Swallows(steps, j, w, p, q, k)
        ensures steps[p].v == steps[k].v
      {
        assert Enabled(states[k], steps[k]);
        TraceOf(published, steps, states, j);
        SwallowedDisagrees(steps, NodeAlong(states, j), j, w, p, q, k);
        assert states[k + 1].nodes[j] == NodeAlong(states, j)[k + 1];
      }
    }
  }

  /** Then nodes at rest with equal versions serve equal snapshots. */
  lemma EqualVersionsEqualSnapshots(
    published: nat -> Content, steps: seq<Step>, states: seq<Cluster>, k: nat, i: nat, j: nat)
    requires Run(published, steps, states) && Start(published, states[0]) && NothingSwallowed(steps)
    requires k < |states| && i < |states[0].nodes| && j < |states[0].nodes|
    requires |states[k].nodes| == |states[0].nodes| && AtRest(states[k].nodes[i]) && AtRest(states[k].nodes[j])
    requires states[k].nodes[i].version == states[k].nodes[j].version > 0
    ensures states[k].nodes[i].held == states[k].nodes[j].held
  {
    AgreementIff(published, steps, states);
    AlwaysAuthentic(published, steps, states, k);
  }

  // ---------------------------------------------------------------- versions that never go back

  /** Neither the served nor the recorded version goes back on any node. */
  ghost predicate NotBehind(c: Cluster, c': Cluster) {
    && |c'.nodes| == |c.nodes|
    && forall j | 0 <= j < |c.nodes| ::
         c.nodes[j].version <= c'.nodes[j].version && c.nodes[j].held.version <= c'.nodes[j].held.version
  }

  ghost predicate Monotone(states: seq<Cluster>) {
    forall k | 0 <= k < |states| - 1 :: NotBehind(states[k], states[k + 1])
  }

  /** The update applied at k was sent by the platform, or pulled because a sync was asked for directly. */
  ghost predicate FromOutside(steps: seq<Step>, j: nat, k: nat) {
    && k < |steps|
    && (|| IsServe(steps[k], j, Platform)
        || (IsServe(steps[k], j, CatchUp) && exists s: nat :: Began(steps, j, CatchUp, s, k) && steps[s].Trigger?))
  }

  /** Neither the platform nor a sync asked for directly brings a node anything older than it was
      started with or has been served. */
  ghost predicate SentInOrder(start: Cluster, steps: seq<Step>) {
    forall k: nat, j: nat | j < |start.nodes| && FromOutside(steps, j, k) ::
      && start.nodes[j].held.version <= steps[k].v
      && forall p | 0 <= p < k && steps[p].Serve? && steps[p].j == j :: steps[p].v <= steps[k].v
  }

  ghost predicate Good(c: Cluster) {
    Honest(c) && forall j | 0 <= j < |c.nodes| :: Level(c.nodes[j])
  }

  lemma StepKeepsLevel(published: nat -> Content, c: Cluster, step: Step)
    requires Good(c) && Enabled(c, step) && NotBehind(c, Apply(published, c, step))
    ensures forall j | 0 <= j < |c.nodes| :: Level(Apply(published, c, step).nodes[j])
  {
  }

  /** A pull is always from ahead: what is fetched is at least as new as the announcement that
      triggered it. */
  lemma FetchIsAhead(published: nat -> Content, c: Cluster, j: nat)
    requires Good(c) && Enabled(c, Fetch(j)) && !c.nodes[j].told
    ensures var n := Apply(published, c, Fetch(j)).nodes[j];
            n.worker.Pulled? && n.worker.target == c.nodes[j].worker.hint.target <= n.worker.snap.version
  {
    assert HintHonest(c, c.nodes[j].worker.hint) && Level(c.nodes[c.nodes[j].worker.hint.addr]);
  }

  lemma HintsStayHonest(published: nat -> Content, c: Cluster, step: Step, j: nat, i: nat)
    requires Good(c) && Enabled(c, step) && NotBehind(c, Apply(published, c, step))
    requires j < |c.nodes| && i < |Apply(published, c, step).nodes[j].queue|
    ensures HintHonest(Apply(published, c, step), Apply(published, c, step).nodes[j].queue[i])
  {
    var c' := Apply(published, c, step);
    if step == Take(j) {
      assert c'.nodes[j].queue[i] == c.nodes[j].queue[i + 1];
      assert HintHonest(c, c.nodes[j].queue[i + 1]);
    } else if i < |c.nodes[j].queue| {
      assert c'.nodes[j].queue[i] == c.nodes[j].queue[i];
      assert HintHonest(c, c.nodes[j].queue[i]);
    }
  }

  lemma WorkersStayHonest(published: nat -> Content, c: Cluster, step: Step, j: nat)
    requires Good(c) && Enabled(c, step) && NotBehind(c, Apply(published, c, step)) && j < |c.nodes|
    ensures var c' := Apply(published, c, step);
            var w := c'.nodes[j].worker;
            && (w.Checked? && !c'.nodes[j].told ==> HintHonest(c', w.hint))
            && (w.Pulled? && !c'.nodes[j].told ==> w.target <= w.snap.version)
  {
    var c' := Apply(published, c, step);
    if c'.nodes[j].told {
      return;
    }
    if step == Take(j) {
      assert HintHonest(c, c.nodes[j].queue[0]);
    } else if step == Fetch(j) {
      FetchIsAhead(published, c, j);
    } else if c'.nodes[j].worker.Checked? {
      assert HintHonest(c, c.nodes[j].worker.hint);
    }
  }

  lemma AnnouncementsStayHonest(published: nat -> Content, c: Cluster, step: Step, a: Announcement)
    requires Good(c) && Enabled(c, step) && NotBehind(c, Apply(published, c, step)) && a in Apply(published, c, step).sent
    ensures var c' := Apply(published, c, step);
            a.sender < |c'.nodes| && a.version <= c'.nodes[a.sender].version
  {
  }

  lemma StepKeepsHonest(published: nat -> Content, c: Cluster, step: Step)
    requires Good(c) && Enabled(c, step) && NotBehind(c, Apply(published, c, step))
    ensures Honest(Apply(published, c, step))
  {
    var c' := Apply(published, c, step);
    forall j, i | 0 <= j < |c'.nodes| && 0 <= i < |c'.nodes[j].queue|
      ensures HintHonest(c', c'.nodes[j].queue[i])
    {
      HintsStayHonest(published, c, step, j, i);
    }
    forall j | 0 <= j < |c'.nodes|
      ensures c'.nodes[j].worker.Checked? && !c'.nodes[j].told ==> HintHonest(c', c'.nodes[j].worker.hint)
      ensures c'.nodes[j].worker.Pulled? && !c'.nodes[j].told ==> c'.nodes[j].worker.target <= c'.nodes[j].worker.snap.version
    {
      WorkersStayHonest(published, c, step, j);
    }
    forall a | a in c'.sent
      ensures a.sender < |c'.nodes| && a.version <= c'.nodes[a.sender].version
    {
      AnnouncementsStayHonest(published, c, step, a);
    }
  }

  lemma StepKeepsGood(published: nat -> Content, c: Cluster, step: Step)
    requires Good(c) && Enabled(c, step) && NotBehind(c, Apply(published, c, step))
    ensures Good(Apply(published, c, step))
  {
    StepKeepsLevel(published, c, step);
    StepKeepsHonest(published, c, step);
  }

  lemma StartIsGood(published: nat -> Content, c: Cluster)
    requires Start(published, c)
    ensures Good(c)
  {
  }

  lemma StepWorkerEffect(published: nat -> Content, c: Cluster, step: Step, j: nat)
    requires Enabled(c, step) && j < |c.nodes| && Honest(c)
    ensures WorkerEffect(step, j, c.nodes[j], Apply(published, c, step).nodes[j])
  {
    if step.j == j && step.Serve? && step.w.CatchUp? && !c.nodes[j].told {
      assert c.nodes[j].worker.target <= c.nodes[j].worker.snap.version;
    }
  }

  lemma WorkerTraceOf(published: nat -> Content, steps: seq<Step>, states: seq<Cluster>, j: nat, upto: nat)
    requires Run(published, steps, states) && upto < |states|
    requires forall i | 0 <= i < |states| :: j < |states[i].nodes|
    requires forall i | 0 <= i < upto :: Good(states[i])
    ensures WorkerTrace(steps, NodeAlong(states, j), j, upto)
  {
    var ns := NodeAlong(states, j);
    forall k | 0 <= k < upto
      ensures WorkerEffect(steps[k], j, ns[k], ns[k + 1])
    {
      StepWorkerEffect(published, states[k], steps[k], j);
    }
  }

  lemma LevelAlong(states: seq<Cluster>, j: nat, k: nat)
    requires k < |states| && forall i | 0 <= i < |states| :: j < |states[i].nodes|
    requires (forall i | 0 <= i <= k :: Good(states[i])) && (forall i | 0 <= i < k :: NotBehind(states[i], states[i + 1]))
    ensures var ns := NodeAlong(states, j);
            Level(ns[k]) && forall i | 0 <= i < k :: Level(ns[i]) && ns[i].held.version <= ns[i + 1].held.version
  {
    var ns := NodeAlong(states, j);
    forall i | 0 <= i < k
      ensures Level(ns[i]) && ns[i].held.version <= ns[i + 1].held.version
    {
      assert Good(states[i]) && NotBehind(states[i], states[i + 1]);
    }
    assert Good(states[k]);
  }

  /** What is pulled when a catch-up applies it. */
  lemma PulledAt(c: Cluster, step: Step, j: nat)
    requires Good(c) && Enabled(c, step) && IsServe(step, j, CatchUp)
    ensures var w := c.nodes[j].worker;
            w.Pulled? && w.snap.version == step.v && (!c.nodes[j].told ==> w.target <= w.snap.version)
  {
  }

  lemma InOrderAt(steps: seq<Step>, ns: seq<Node>, start: Cluster, j: nat, k: nat)
    requires Trace(steps, ns, j) && FromOutside(steps, j, k) && SentInOrder(start, steps)
    requires j < |start.nodes| && ns[0] == start.nodes[j]
    ensures ns[k].held.version <= steps[k].v
  {
    var p := HeldBy(steps, ns, j, k);
  }

  lemma NodeInTime(published: nat -> Content, steps: seq<Step>, states: seq<Cluster>, k: nat, j: nat)
    requires Run(published, steps, states) && Start(published, states[0]) && k < |steps| && j < |states[0].nodes|
    requires (forall i | 0 <= i <= k :: Good(states[i])) && (forall i | 0 <= i < k :: NotBehind(states[i], states[i + 1]))
    requires SentInOrder(states[0], steps) && NoneLate(steps)
    requires forall i | 0 <= i < |states| :: |states[i].nodes| == |states[0].nodes|
    ensures states[k].nodes[j].version <= states[k + 1].nodes[j].version
    ensures states[k].nodes[j].held.version <= states[k + 1].nodes[j].held.version
  {
    var ns, step := NodeAlong(states, j), steps[k];
    TraceOf(published, steps, states, j);
    WorkerTraceOf(published, steps, states, j, k);
    LevelAlong(states, j, k);
    assert Effect(step, j, ns[k], ns[k + 1]);
    if IsServe(step, j, Platform) {
      InOrderAt(steps, ns, states[0], j, k);
    } else if IsServe(step, j, CatchUp) {
      PulledAt(states[k], step, j);
      if ns[k].told {
        var s := RoundOf(steps, ns, j, k);
        InOrderAt(steps, ns, states[0], j, k);
      } else {
        ServeInTime(steps, ns, j, k);
      }
    } else if IsRecord(step, j, Platform) {
      RecordInTime(steps, ns, j, k, Platform);
    } else if IsRecord(step, j, CatchUp) {
      RecordInTime(steps, ns, j, k, CatchUp);
    }
  }

  lemma StepInTime(published: nat -> Content, steps: seq<Step>, states: seq<Cluster>, k: nat)
    requires Run(published, steps, states) && Start(published, states[0]) && k < |steps|
    requires (forall i | 0 <= i <= k :: Good(states[i])) && (forall i | 0 <= i < k :: NotBehind(states[i], states[i + 1]))
    requires SentInOrder(states[0], steps) && NoneLate(steps)
    ensures NotBehind(states[k], states[k + 1])
  {
    SameSize(published, steps, states);
    forall j | 0 <= j < |states[k].nodes|
      ensures states[k].nodes[j].version <= states[k + 1].nodes[j].version
      ensures states[k].nodes[j].held.version <= states[k + 1].nodes[j].held.version
    {
      NodeInTime(published, steps, states, k, j);
    }
  }

  lemma {:induction false} InTimeIsGood(published: nat -> Content, steps: seq<Step>, states: seq<Cluster>, k: nat)
    requires Run(published, steps, states) && Start(published, states[0]) && k < |states|
    requires SentInOrder(states[0], steps) && NoneLate(steps)
    ensures forall i | 0 <= i <= k :: Good(states[i])
    ensures forall i | 0 <= i < k :: NotBehind(states[i], states[i + 1])
  {
    if k == 0 {
      StartIsGood(published, states[0]);
    } else {
      InTimeIsGood(published, steps, states, k - 1);
      StepInTime(published, steps, states, k - 1);
      StepKeepsGood(published, states[k - 1], steps[k - 1]);
      assert Good(states[k]);
    }
  }

  lemma {:induction false} NeverBehind(states: seq<Cluster>, a: nat, b: nat, j: nat)
    requires Monotone(states) && a <= b < |states| && j < |states[a].nodes|
    ensures |states[b].nodes| == |states[a].nodes|
    ensures states[a].nodes[j].version <= states[b].nodes[j].version
    ensures states[a].nodes[j].held.version <= states[b].nodes[j].held.version
    decreases b
  {
    if a < b {
      NeverBehind(states, a, b - 1, j);
      assert NotBehind(states[b - 1], states[b]);
    }
  }

  lemma MonotoneIsInTime(published: nat -> Content, steps: seq<Step>, states: seq<Cluster>)
    requires Run(published, steps, states) && Start(published, states[0]) && Monotone(states)
    ensures SentInOrder(states[0], steps) && NoneLate(steps)
  {
    forall p: nat, k: nat | p < k < |steps| && steps[p].j == steps[k].j
      ensures steps[p].Serve? && steps[k].Serve? ==> steps[p].v <= steps[k].v
      ensures steps[p].Record? && steps[k].Record? ==> steps[p].v <= steps[k].v
    {
      NeverBehind(states, p + 1, k + 1, steps[p].j);
    }
    forall k: nat, j: nat | j < |states[0].nodes| && FromOutside(steps, j, k)
      ensures states[0].nodes[j].held.version <= steps[k].v
    {
      NeverBehind(states, 0, k + 1, j);
    }
  }

  /** Versions never go back exactly when what comes from outside comes in order and no update
      finishes late: no catch-up on a hint overlaps a platform update to a later version that it then
      overwrites, and no update records its version after a later one was recorded meanwhile. Then
      announcements stay honest and every node at rest serves the version it recorded. */
  lemma MonotoneIff(published: nat -> Content, steps: seq<Step>, states: seq<Cluster>)
    requires Run(published, steps, states) && Start(published, states[0])
    ensures Monotone(states) <==> SentInOrder(states[0], steps) && NoneLate(steps)
    ensures Monotone(states) ==> (forall k | 0 <= k < |states| :: Honest(states[k])) && AgreesAtRest(states)
  {
    if Monotone(states) {
      MonotoneIsInTime(published, steps, states);
    }
    if SentInOrder(states[0], steps) && NoneLate(steps) {
      InTimeIsGood(published, steps, states, |steps|);
    }
  }

  /** In such a run a catch-up on a hint that no platform update meets strictly raises the version. */
  lemma CatchUpRaises(published: nat -> Content, steps: seq<Step>, states: seq<Cluster>, k: nat, j: nat) returns (s: nat)
    requires Run(published, steps, states) && Start(published, states[0]) && j < |states[0].nodes|
    requires SentInOrder(states[0], steps) && NoneLate(steps) && k < |steps| && IsRecord(steps[k], j, CatchUp)
    ensures |states[k].nodes| == |states[k + 1].nodes| == |states[0].nodes|
    ensures Began(steps, j, CatchUp, s, k)
    ensures NoRecord(steps, j, Platform, s, k) && steps[s].Take? ==>
              states[k].nodes[j].version < states[k + 1].nodes[j].version == steps[k].v
  {
    TraceOf(published, steps, states, j);
    var ns := NodeAlong(states, j);
    InTimeIsGood(published, steps, states, k);
    WorkerTraceOf(published, steps, states, j, k);
    assert Effect(steps[k], j, ns[k], ns[k + 1]);
    s := RoundOf(steps, ns, j, k);
    if NoRecord(steps, j, Platform, s, k) {
      VersionSame(steps, ns, j, s, k);
    }
  }

  // ---------------------------------------------------------------- building runs

  ghost function Last(states: seq<Cluster>): Cluster
    requires |states| > 0
  {
    states[|states| - 1]
  }

  /** The run goes on with a step. */
  lemma GoOn(published: nat -> Content, steps: seq<Step>, states: seq<Cluster>, step: Step)
    returns (steps': seq<Step>, states': seq<Cluster>)
    requires Run(published, steps, states) && Enabled(Last(states), step)
    ensures Run(published, steps', states') && steps' == steps + [step]
    ensures states' == states + [Apply(published, Last(states), step)]
  {
    steps', states' := steps + [step], states + [Apply(published, Last(states), step)];
  }

  /** An update to u and one to v on the same node, the one of writer w around the other. */
  ghost function Around(j: nat, w: Writer, outer: nat, inner: nat): seq<Step> {
    [Serve(j, w, outer), Serve(j, Other(w), inner), Record(j, Other(w), inner), Record(j, w, outer)]
  }

  /** The two halves are not one action in the code, and whenever a pull has arrived they can go
      wrong: a platform update to another version within the catch-up leaves the node at rest with
      the pulled version recorded, the platform's snapshot served and its version announced; a
      catch-up within a platform update leaves it with the platform's version recorded and the
      pulled snapshot served. */
  lemma OverlapDisagrees(published: nat -> Content, steps: seq<Step>, states: seq<Cluster>, j: nat, v: nat, w: Writer)
    returns (steps': seq<Step>, states': seq<Cluster>)
    requires Run(published, steps, states) && j < |Last(states).nodes|
    requires Last(states).nodes[j].worker.Pulled? && Last(states).nodes[j].platform.None?
    requires v > 0 && v != Last(states).nodes[j].worker.snap.version
    ensures var u := Last(states).nodes[j].worker.snap.version;
            steps' == steps + if w.CatchUp? then Around(j, w, u, v) else Around(j, w, v, u)
    ensures Run(published, steps', states') && states <= states' && j < |Last(states').nodes|
    ensures var u, n := Last(states).nodes[j].worker.snap.version, Last(states').nodes[j];
            && AtRest(n) && Announcement(v, j) in Last(states').sent
            && n.version == (if w.CatchUp? then u else v) && n.held.version == (if w.CatchUp? then v else u)
  {
    var u := Last(states).nodes[j].worker.snap.version;
    var outer, inner := if w.CatchUp? then u else v, if w.CatchUp? then v else u;
    steps', states' := GoOn(published, steps, states, Serve(j, w, outer));
    steps', states' := GoOn(published, steps', states', Serve(j, Other(w), inner));
    steps', states' := GoOn(published, steps', states', Record(j, Other(w), inner));
    steps', states' := GoOn(published, steps', states', Record(j, w, outer));
    assert steps' == steps + Around(j, w, outer, inner);
  }

  /** So versions can go back: from every state with a pull, a platform update to a later version
      within the catch-up is undone in the record, after it was announced. */
  lemma VersionsCanGoBack(published: nat -> Content, steps: seq<Step>, states: seq<Cluster>, j: nat, v: nat)
    returns (steps': seq<Step>, states': seq<Cluster>)
    requires Run(published, steps, states) && j < |Last(states).nodes|
    requires Last(states).nodes[j].worker.Pulled? && Last(states).nodes[j].platform.None?
    requires v > Last(states).nodes[j].worker.snap.version
    ensures Run(published, steps', states') && steps <= steps' && states <= states' && !Monotone(states')
    ensures j < |Last(states').nodes| && Last(states').nodes[j].version < v && Announcement(v, j) in Last(states').sent
  {
    steps', states' := OverlapDisagrees(published, steps, states, j, v, CatchUp);
    var k := |states'| - 3;
    assert steps'[k] == Record(j, Platform, v);
    if Monotone(states') {
      StepEffect(published, states'[k], steps'[k], j);
      NeverBehind(states', k + 1, k + 2, j);
    }
  }

  /** Two new nodes, the first of which has been given version 1. */
  ghost function TwoNodes(published: nat -> Content): Cluster {
    Cluster([Node(Snap(1, published(1)), 1, [], None, Resting, false),
             Node(Snap(0, published(0)), 0, [], None, Resting, false)], {})
  }

  /** An idle node with an empty queue that is behind a peer at rest can pull from it. */
  lemma CanPull(published: nat -> Content, steps: seq<Step>, states: seq<Cluster>, i: nat, j: nat)
    returns (steps': seq<Step>, states': seq<Cluster>)
    requires Run(published, steps, states)
    requires var c := Last(states);
             && i < |c.nodes| && j < |c.nodes| && Idle(c.nodes[j]) && c.nodes[j].queue == []
             && c.nodes[i].held.version == c.nodes[i].version > c.nodes[j].version
    ensures Run(published, steps', states') && steps <= steps' && states <= states'
    ensures Last(states').nodes
            == var m, n := Last(states).nodes[i], Last(states).nodes[j];
               Last(states).nodes[j := n.(worker := Pulled(m.version, m.held), told := false)]
  {
    var v := Last(states).nodes[i].version;
    steps', states' := GoOn(published, steps, states, Gossip(i));
    steps', states' := GoOn(published, steps', states', Hear(j, Announcement(v, i)));
    assert Last(states').nodes[j].queue == [Hint(v, i)];
    steps', states' := GoOn(published, steps', states', Take(j));
    assert i != j && [Hint(v, i)][1..] == [];
    steps', states' := GoOn(published, steps', states', Fetch(j));
  }

  lemma PullArrives(published: nat -> Content) returns (steps: seq<Step>, states: seq<Cluster>)
    ensures Run(published, steps, states) && states[0] == TwoNodes(published) && |Last(states).nodes| == 2
    ensures var n := Last(states).nodes[1];
            n.worker == Pulled(1, Snap(1, published(1))) && n.platform.None?
  {
    steps, states := CanPull(published, [], [TwoNodes(published)], 0, 1);
    assert states[0] == [TwoNodes(published)][0];
  }

  lemma TwoNodesStart(published: nat -> Content)
    ensures Start(published, TwoNodes(published))
  {
  }

  /** From a start a version can go back. */
  lemma StartGoesBack(published: nat -> Content) returns (steps: seq<Step>, states: seq<Cluster>)
    ensures Run(published, steps, states) && Start(published, states[0]) && !Monotone(states)
  {
    TwoNodesStart(published);
    var p, q := PullArrives(published);
    steps, states := VersionsCanGoBack(published, p, q, 1, 2);
    assert states[0] == q[0];
  }

  /** From a start a node can come to rest serving another version than it recorded. */
  lemma StartComesApart(published: nat -> Content) returns (steps: seq<Step>, states: seq<Cluster>)
    ensures Run(published, steps, states) && Start(published, states[0]) && !AgreesAtRest(states)
  {
    TwoNodesStart(published);
    var p, q := PullArrives(published);
    steps, states := OverlapDisagrees(published, p, q, 1, 2, Platform);
    assert states[0] == q[0];
    var c := Last(states);
    assert AtRest(c.nodes[1]) && c.nodes[1].version != c.nodes[1].held.version;
    assert states[|states| - 1] == c;
  }

  // ---------------------------------------------------------------- convergence

  /** An idle node with an empty queue that is behind a peer at rest catches up in six steps,
      whatever hints were lost before, and strictly raises its version. */
  lemma CanCatchUp(published: nat -> Content, steps: seq<Step>, states: seq<Cluster>, i: nat, j: nat)
    returns (steps': seq<Step>, states': seq<Cluster>)
    requires Run(published, steps, states)
    requires var c := Last(states);
             && i < |c.nodes| && j < |c.nodes| && Idle(c.nodes[j]) && c.nodes[j].queue == []
             && c.nodes[i].held.version == c.nodes[i].version > c.nodes[j].version
    ensures Run(published, steps', states') && steps <= steps' && states <= states'
    ensures Last(states').nodes
            == var n := Last(states).nodes[i];
               Last(states).nodes[j := Node(n.held, n.version, [], None, Resting, false)]
  {
    var v := Last(states).nodes[i].version;
    steps', states' := CanPull(published, steps, states, i, j);
    steps', states' := GoOn(published, steps', states', Serve(j, CatchUp, v));
    steps', states' := GoOn(published, steps', states', Record(j, CatchUp, v));
  }

  /** A node at rest can become idle with an empty queue, its version and snapshot unchanged: hints
      and pulls may fail. */
  lemma {:induction false} CanIdle(published: nat -> Content, steps: seq<Step>, states: seq<Cluster>, j: nat)
    returns (steps': seq<Step>, states': seq<Cluster>)
    requires Run(published, steps, states) && j < |Last(states).nodes| && AtRest(Last(states).nodes[j])
    ensures Run(published, steps', states') && steps <= steps' && states <= states'
    ensures |Last(states').nodes| == |Last(states).nodes|
    ensures var n := Last(states).nodes[j].(queue := [], worker := Resting, told := Last(states').nodes[j].told);
            Last(states') == At(Last(states), j, n)
    decreases |Last(states).nodes[j].queue|, !Last(states).nodes[j].worker.Resting?
  {
    var n := Last(states).nodes[j];
    if n.queue == [] && n.worker.Resting? {
      steps', states' := steps, states;
      assert At(Last(states), j, n).nodes == Last(states).nodes;
    } else {
      var step := if n.worker.Resting? then Take(j) else GiveUp(j);
      steps', states' := GoOn(published, steps, states, step);
      steps', states' := CanIdle(published, steps', states', j);
    }
  }

  /** Every node is at rest and serves what it recorded. */
  ghost predicate Settled(c: Cluster) {
    forall j | 0 <= j < |c.nodes| :: AtRest(c.nodes[j]) && c.nodes[j].version == c.nodes[j].held.version
  }

  lemma CanJoin(published: nat -> Content, steps: seq<Step>, states: seq<Cluster>, i: nat, j: nat)
    returns (steps': seq<Step>, states': seq<Cluster>)
    requires Run(published, steps, states) && Settled(Last(states)) && i < |Last(states).nodes| && j < |Last(states).nodes|
    requires Last(states).nodes[j].version <= Last(states).nodes[i].version
    ensures Run(published, steps', states') && steps <= steps' && states <= states' && Settled(Last(states'))
    ensures |Last(states').nodes| == |Last(states).nodes|
    ensures forall t | 0 <= t < |Last(states).nodes| && t != j :: Last(states').nodes[t] == Last(states).nodes[t]
    ensures Last(states').nodes[j].version == Last(states).nodes[i].version
  {
    if Last(states).nodes[j].version == Last(states).nodes[i].version {
      steps', states' := steps, states;
    } else {
      steps', states' := CanIdle(published, steps, states, j);
      steps', states' := CanCatchUp(published, steps', states', i, j);
    }
  }

  /** From every settled state some continuation brings the nodes 0 .. m - 1 to the version of the
      node that is furthest ahead, without taking any node back. */
  lemma {:induction false} CanConverge(published: nat -> Content, steps: seq<Step>, states: seq<Cluster>, i: nat,
      m: nat)
    returns (steps': seq<Step>, states': seq<Cluster>)
    requires Run(published, steps, states) && Settled(Last(states)) && i < |Last(states).nodes| && m <= |Last(states).nodes|
    requires forall j | 0 <= j < |Last(states).nodes| :: Last(states).nodes[j].version <= Last(states).nodes[i].version
    ensures Run(published, steps', states') && steps <= steps' && states <= states' && Settled(Last(states'))
    ensures |Last(states').nodes| == |Last(states).nodes|
    ensures forall j | 0 <= j < |Last(states).nodes| ::
              Last(states).nodes[j].version <= Last(states').nodes[j].version <= Last(states).nodes[i].version
    ensures forall j | 0 <= j < m || j == i :: Last(states').nodes[j].version == Last(states).nodes[i].version
    decreases m
  {
    if m == 0 {
      return steps, states;
    }
    steps', states' := CanConverge(published, steps, states, i, m - 1);
    steps', states' := CanJoin(published, steps', states', i, m - 1);
  }
}
