/**
 Peer catch-up between gateway nodes. Nodes gossip the version they recorded and pull the snapshot
 of a peer that is ahead. Announcements may be lost, repeated and reordered; catch-up hints are
 dropped when the queue is full. Every update of a node has two halves: the snapshot is applied,
 and then its version is recorded. The platform and the catch-up worker update a node without a
 common lock, so their halves interleave.
 */
module Peers {
  import opened Common

  type Content = string

  /** A snapshot carries its own version. */
  datatype Snap = Snap(version: nat, content: Content)

  datatype Hint = Hint(target: nat, addr: nat)

  /** Where the catch-up worker is in its round. */
  datatype Worker =
    | Resting
    | Checked(hint: Hint)             // the hint was ahead of the recorded version
    | Pulled(target: nat, snap: Snap) // the peer's snapshot has arrived
    | Applied(version: nat)           // applied, version not yet recorded

  /** The two sources of updates. */
  datatype Writer = Platform | CatchUp

  /** `told` says whether the worker's round was asked for directly instead of by a queued hint. */
  datatype Node = Node(held: Snap, version: nat, queue: seq<Hint>, platform: Option<nat>, worker: Worker, told: bool)

  const QUEUE: nat := 32

  // ---------------------------------------------------------------- one node

  /** The version a writer has applied and not yet recorded. */
  function Pending(n: Node, w: Writer): Option<nat> {
    if w.Platform? then n.platform else if n.worker.Applied? then Some(n.worker.version) else None
  }

  /** A version heard from a peer: remember it if it is ahead, the peer can be reached and there is room. */
  function Heard(n: Node, version: nat, addr: Option<nat>): Node {
    if version > n.version && addr.Some? && |n.queue| < QUEUE
    then n.(queue := n.queue + [Hint(version, addr.value)]) else n
  }

  /** The worker takes the next hint; one that is no longer ahead is skipped. */
  function HintTaken(n: Node): Node
    requires n.queue != []
  {
    n.(queue := n.queue[1..], worker := if n.queue[0].target > n.version then Checked(n.queue[0]) else Resting, told := false)
  }

  /** A sync asked for directly, with any target and address. */
  function Triggered(n: Node, h: Hint): Node {
    if h.target > n.version then n.(worker := Checked(h), told := true) else n
  }

  /** First half of an update: the snapshot is served from now on. */
  function Served(n: Node, w: Writer, snap: Snap): Node {
    if w.Platform? then n.(held := snap, platform := Some(snap.version))
    else n.(held := snap, worker := Applied(snap.version))
  }

  /** Second half of an update: the version is recorded and gossiped from now on. */
  function Recorded(n: Node, w: Writer, version: nat): Node {
    if w.Platform? then n.(version := version, platform := None)
    else n.(version := version, worker := Resting)
  }

  /** The peer manager of one node with its gossip delegate; `held` is the runtime's snapshot. */
  class PeerManager {
    var appliedVersion: nat
    var delegateVersion: nat
    var held: Snap
    var catchUp: seq<Hint>
    var worker: Worker
    ghost var platform: Option<nat>
    ghost var told: bool

    ghost predicate Valid()
      reads this
    {
      appliedVersion == delegateVersion && |catchUp| <= QUEUE
    }

    ghost function State(): Node
      reads this
    {
      Node(held, appliedVersion, catchUp, platform, worker, told)
    }

    constructor ()
      ensures Valid() && State() == Node(Snap(0, ""), 0, [], None, Resting, false)
    {
      appliedVersion, delegateVersion, held, catchUp, worker := 0, 0, Snap(0, ""), [], Resting;
      platform, told := None, false;
    }

    /** Records the version the platform applied; the announcement carries it. */
    method BroadcastConfigVersion(version: nat) returns (announced: nat)
      requires Valid()
      modifies this
      ensures Valid() && State() == Recorded(old(State()), Platform, version) && announced == version
    {
      appliedVersion := version;
      delegateVersion := version;
      platform := None;
      return version;
    }

    /** NotifyMsg, MergeRemoteState, NotifyJoin and NotifyUpdate all end here. */
    method OnVersionMessage(version: nat, addr: Option<nat>)
      requires Valid()
      modifies this`catchUp
      ensures Valid() && State() == Heard(old(State()), version, addr)
    {
      if version > delegateVersion {
        OnPeerVersionDetected(version, addr);
      }
    }

    method OnPeerVersionDetected(version: nat, addr: Option<nat>)
      requires Valid()
      modifies this`catchUp
      ensures Valid() && State() == Heard(old(State()), version, addr)
    {
      if version <= appliedVersion || addr.None? {
        return;
      }
      if |catchUp| < QUEUE {
        catchUp := catchUp + [Hint(version, addr.value)];
      }
    }

    /** One round of the worker begins: the hint to follow, unless it is stale. */
    method NextHint() returns (hint: Option<Hint>)
      requires Valid() && catchUp != []
      modifies this`catchUp, this`worker, this`told
      ensures Valid() && State() == HintTaken(old(State()))
      ensures hint == if old(catchUp)[0].target > appliedVersion then Some(old(catchUp)[0]) else None
    {
      var req := catchUp[0];
      catchUp := catchUp[1..];
      told := false;
      if req.target <= appliedVersion {
        worker := Resting;
        return None;
      }
      worker := Checked(req);
      return Some(req);
    }

    /** TriggerCatchUp: the same round without a hint. */
    method TriggerCatchUp(addr: nat, target: nat) returns (goesOn: bool)
      requires Valid() && worker.Resting?
      modifies this`worker, this`told
      ensures Valid() && State() == Triggered(old(State()), Hint(target, addr)) && goesOn == (target > appliedVersion)
    {
      if target <= appliedVersion {
        return false;
      }
      worker, told := Checked(Hint(target, addr)), true;
      return true;
    }

    /** syncFromPeer after the fetch: apply what was pulled if it verifies, and give up otherwise. */
    method ApplyPulled(accepted: bool)
      requires Valid() && worker.Pulled?
      modifies this`held, this`worker
      ensures Valid()
      ensures State()
              == if accepted then Served(old(State()), CatchUp, old(worker).snap) else old(State()).(worker := Resting)
    {
      if !accepted {
        worker := Resting;
        return;
      }
      held := worker.snap;
      worker := Applied(held.version);
    }

    /** The end of syncFromPeer: record the version of what was applied. */
    method RecordPulled()
      requires Valid() && worker.Applied?
      modifies this`appliedVersion, this`delegateVersion, this`worker
      ensures Valid() && State() == Recorded(old(State()), CatchUp, old(worker).version)
    {
      appliedVersion := worker.version;
      delegateVersion := worker.version;
      worker := Resting;
    }
  }

  // ---------------------------------------------------------------- the cluster

  datatype Announcement = Announcement(version: nat, sender: nat)

  /** All announcements ever sent stay deliverable: that is loss, repetition and reordering at once. */
  datatype Cluster = Cluster(nodes: seq<Node>, sent: set<Announcement>)

  datatype Step =
    | Serve(j: nat, w: Writer, v: nat)  // first half of an update to v
    | Record(j: nat, w: Writer, v: nat) // second half
    | Gossip(j: nat)
    | Hear(j: nat, a: Announcement)
    | Take(j: nat)                      // the worker takes a hint and checks it
    | Trigger(j: nat, h: Hint)          // a sync is asked for directly and its target checked
    | Fetch(j: nat)
    | GiveUp(j: nat)                    // the peer was not reached, or its snapshot not accepted

  ghost predicate Enabled(c: Cluster, step: Step) {
    && step.j < |c.nodes|
    && var n := c.nodes[step.j];
       match step
       case Serve(_, Platform, v) => n.platform.None? && 0 < v
       case Serve(_, CatchUp, v) => n.worker.Pulled? && n.worker.snap.version == v
       case Record(_, w, v) => Pending(n, w) == Some(v)
       case Gossip(_) => true
       case Hear(_, a) => a in c.sent
       case Take(_) => n.worker.Resting? && n.queue != []
       case Trigger(_, _) => n.worker.Resting?
       case Fetch(_) => n.worker.Checked? && n.worker.hint.addr < |c.nodes| && c.nodes[n.worker.hint.addr].held.version > 0
       case GiveUp(_) => n.worker.Checked? || n.worker.Pulled?
  }

  ghost function At(c: Cluster, j: nat, n: Node): Cluster
    requires j < |c.nodes|
  {
    c.(nodes := c.nodes[j := n])
  }

  ghost function Apply(published: nat -> Content, c: Cluster, step: Step): Cluster
    requires Enabled(c, step)
  {
    var n := c.nodes[step.j];
    match step
    case Serve(j, w, v) => At(c, j, Served(n, w, if w.Platform? then Snap(v, published(v)) else n.worker.snap))
    case Record(j, w, v) =>
      // an announcement queued here may be delivered at any later time
      At(c, j, Recorded(n, w, v)).(sent := c.sent + {Announcement(v, j)})
    case Gossip(j) => c.(sent := c.sent + {Announcement(n.version, j)})
    case Hear(j, a) => At(c, j, Heard(n, a.version, Some(a.sender)))
    case Take(j) => At(c, j, HintTaken(n))
    case Trigger(j, h) => At(c, j, Triggered(n, h))
    case Fetch(j) => At(c, j, n.(worker := Pulled(n.worker.hint.target, c.nodes[n.worker.hint.addr].held)))
    case GiveUp(j) => At(c, j, n.(worker := Resting))
  }

  /** A run: any enabled steps in any order, one state before and after each. */
  ghost predicate Run(published: nat -> Content, steps: seq<Step>, states: seq<Cluster>) {
    && |states| == |steps| + 1
    && forall k | 0 <= k < |steps| ::
         Enabled(states[k], steps[k]) && states[k + 1] == Apply(published, states[k], steps[k])
  }

  /** Neither writer of the node is between the halves of an update. */
  ghost predicate AtRest(n: Node) {
    Pending(n, Platform).None? && Pending(n, CatchUp).None?
  }

  ghost predicate Idle(n: Node) {
    n.platform.None? && n.worker.Resting?
  }

  /** A snapshot is the published one of its version. */
  ghost predicate Genuine(published: nat -> Content, s: Snap) {
    s.version > 0 ==> s.content == published(s.version)
  }

  ghost predicate Authentic(published: nat -> Content, c: Cluster) {
    forall j | 0 <= j < |c.nodes| ::
      Genuine(published, c.nodes[j].held) && (c.nodes[j].worker.Pulled? ==> Genuine(published, c.nodes[j].worker.snap))
  }

  /** Where a run may begin: nobody is updating, and every node serves the version it recorded. */
  ghost predicate Start(published: nat -> Content, c: Cluster) {
    && Authentic(published, c) && Honest(c)
    && forall j | 0 <= j < |c.nodes| :: Idle(c.nodes[j]) && c.nodes[j].version == c.nodes[j].held.version
  }

  /** No announcement, hint or target taken from one promises more than its source has recorded. */
  ghost predicate Honest(c: Cluster) {
    && (forall a | a in c.sent :: a.sender < |c.nodes| && a.version <= c.nodes[a.sender].version)
    && (forall j, i | 0 <= j < |c.nodes| && 0 <= i < |c.nodes[j].queue| :: HintHonest(c, c.nodes[j].queue[i]))
    && (forall j | 0 <= j < |c.nodes| && c.nodes[j].worker.Checked? && !c.nodes[j].told ::
          HintHonest(c, c.nodes[j].worker.hint))
    && (forall j | 0 <= j < |c.nodes| && c.nodes[j].worker.Pulled? && !c.nodes[j].told ::
          c.nodes[j].worker.target <= c.nodes[j].worker.snap.version)
  }

  ghost predicate HintHonest(c: Cluster, h: Hint) {
    h.addr < |c.nodes| && h.target <= c.nodes[h.addr].version
  }

  // ---------------------------------------------------------------- the platform's one snapshot per version

  lemma StepKeepsAuthentic(published: nat -> Content, c: Cluster, step: Step)
    requires Authentic(published, c) && Enabled(c, step)
    ensures Authentic(published, Apply(published, c, step))
  {
  }

  /** Whatever is served is genuine, in every state of every run. */
  lemma {:induction false} AlwaysAuthentic(published: nat -> Content, steps: seq<Step>, states: seq<Cluster>, k: nat)
    requires Run(published, steps, states) && Authentic(published, states[0]) && k < |states|
    ensures Authentic(published, states[k]) && |states[k].nodes| == |states[0].nodes|
  {
    if k > 0 {
      AlwaysAuthentic(published, steps, states, k - 1);
      StepKeepsAuthentic(published, states[k - 1], steps[k - 1]);
    }
  }
}
