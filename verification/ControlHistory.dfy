/**
 Node state against a published history. The platform publishes one configuration per version
 and cuts snapshots and deltas from that history; the network loses, repeats and reorders them.
 */
module ControlHistory {
  import opened Common
  import opened Config
  import opened Control

  datatype Published = Published(routes: seq<ProtoRoute>, upstreams: seq<ProtoUpstream>)

  type History = map<nat, Published>

  ghost function PublishedRoutes(h: History, v: nat): map<string, RouteRule>
    requires v in h
  {
    RouteMap(ConvertRoutes(h[v].routes))
  }

  ghost function PublishedUpstreams(h: History, v: nat): map<string, UpstreamCluster>
    requires v in h
  {
    UpstreamMap(h[v].upstreams)
  }

  ghost predicate UniquelyNamed(h: History) {
    forall v | v in h :: UniqueIds(ConvertRoutes(h[v].routes))
  }

  // ---------------------------------------------------------------- what a delta must contain

  /** Upserts and deletions that lead from one map to the other. Unchanged entries may be sent again. */
  ghost predicate IsDiff<T(!new)>(from: map<string, T>, to: map<string, T>, upserts: map<string, T>,
      deleted: set<string>) {
    && (forall k | k in upserts :: k in to && upserts[k] == to[k])
    && (forall k | k in to && (k !in from || from[k] != to[k]) :: k in upserts)
    && (forall k | k in from && k !in to :: k in deleted)
    && (forall k | k in deleted && k in to :: k in upserts)
  }

  /** Deleting and then upserting reaches the target exactly on the diffs. */
  lemma MergeReachesTarget<T(!new)>(from: map<string, T>, to: map<string, T>, upserts: map<string, T>,
      deleted: set<string>)
    ensures Merge(from, upserts, deleted) == to <==> IsDiff(from, to, upserts, deleted)
  {
    var merged := Merge(from, upserts, deleted);
    if IsDiff(from, to, upserts, deleted) {
      assert merged.Keys == to.Keys;
    }
    if merged == to {
      assert forall k | k in upserts :: k in merged && merged[k] == upserts[k];
    }
  }

  /** The smallest diff: changed entries, and the ids that disappear. */
  lemma SmallestDiff<T(!new)>(from: map<string, T>, to: map<string, T>, upserts: map<string, T>, deleted: set<string>)
    requires upserts == map k | k in to && (k !in from || from[k] != to[k]) :: to[k]
    requires deleted == from.Keys - to.Keys
    ensures Merge(from, upserts, deleted) == to
    ensures forall u: map<string, T>, d: set<string> | Merge(from, u, d) == to :: upserts.Keys <= u.Keys && deleted <= d
  {
    MergeReachesTarget(from, to, upserts, deleted);
    forall u: map<string, T>, d: set<string> | Merge(from, u, d) == to
      ensures upserts.Keys <= u.Keys && deleted <= d
    {
      MergeReachesTarget(from, to, u, d);
    }
  }

  ghost predicate CutSnapshot(h: History, p: ProtoSnapshot) {
    && p.configVersion in h
    && p.routes == h[p.configVersion].routes
    && p.upstreams == h[p.configVersion].upstreams
  }

  ghost predicate CutDelta(h: History, d: Delta) {
    && d.baseVersion in h && d.targetVersion in h
    && IsDiff(PublishedRoutes(h, d.baseVersion), PublishedRoutes(h, d.targetVersion),
              RouteMap(ConvertRoutes(d.upsertedRoutes)), Ids(d.deletedRouteIds))
    && IsDiff(PublishedUpstreams(h, d.baseVersion), PublishedUpstreams(h, d.targetVersion),
              UpstreamMap(d.upsertedUpstreams), Ids(d.deletedUpstreamIds))
  }

  /** Either cut from the history, or stopped by the namespace and signature checks alone. */
  ghost predicate Admissible(cfg: NodeConfig, h: History, msg: ControlMessage) {
    match msg.payload
    case SnapshotPayload(p) => SnapshotFault(cfg, msg.messageId, p).Some? || CutSnapshot(h, p)
    case DeltaPayload(d) => DeltaFault(cfg, d.baseVersion, msg.messageId, d).Some? || CutDelta(h, d)
    case CommandPayload(_) => true
  }

  // ---------------------------------------------------------------- runs

  /** A run: any events in any order, one state before and after each. */
  ghost predicate Run(cfg: NodeConfig, events: seq<Event>, states: seq<NodeState>) {
    && |states| == |events| + 1
    && forall i | 0 <= i < |events| :: Next(cfg, states[i], events[i], states[i + 1])
  }

  ghost predicate Schedule(cfg: NodeConfig, h: History, events: seq<Event>) {
    forall i | 0 <= i < |events| :: Genuine(cfg, h, events[i])
  }

  /** A delivered message is admissible, and a bundle found at a start was published. */
  ghost predicate Genuine(cfg: NodeConfig, h: History, e: Event) {
    match e
    case Deliver(msg, _) => Admissible(cfg, h, msg)
    case Restart(f, _) => f.bundle.Some? ==> Faithful(h, f.bundle.value)
  }

  /** A snapshot that is the published configuration of its own version. */
  ghost predicate Faithful(h: History, snap: Snapshot) {
    && snap.version in h
    && RouteMap(snap.routes) == PublishedRoutes(h, snap.version)
    && snap.upstreams == PublishedUpstreams(h, snap.version)
    && (UniquelyNamed(h) ==> UniqueIds(snap.routes))
  }

  ghost predicate Consistent(h: History, s: NodeState) {
    && (s.active.None? ==> s.version == 0 && !s.ready)
    && (s.active.Some? ==> s.version == s.active.value.version && Faithful(h, s.active.value))
    && (s.lkg.Some? ==> Faithful(h, s.lkg.value))
  }

  lemma MergeIsFaithful(h: History, base: Snapshot, d: Delta, now: int, merged: Snapshot)
    requires Faithful(h, base) && base.version == d.baseVersion
    requires CutDelta(h, d)
    requires MergedSnapshot(base, d, now, merged)
    ensures Faithful(h, merged)
  {
    MergeReachesTarget(PublishedRoutes(h, d.baseVersion), PublishedRoutes(h, d.targetVersion),
                       RouteMap(ConvertRoutes(d.upsertedRoutes)), Ids(d.deletedRouteIds));
    MergeReachesTarget(PublishedUpstreams(h, d.baseVersion), PublishedUpstreams(h, d.targetVersion),
                       UpstreamMap(d.upsertedUpstreams), Ids(d.deletedUpstreamIds));
  }

  lemma DeltaKeepsConsistency(cfg: NodeConfig, h: History, s: NodeState, id: string, d: Delta, o: Surroundings,
      s': NodeState)
    requires Consistent(h, s) && DeltaStep(cfg, s, id, d, o, s')
    requires DeltaFault(cfg, d.baseVersion, id, d).Some? || CutDelta(h, d)
    ensures Consistent(h, s')
  {
    if DeltaFault(cfg, s.version, id, d).None? && s.active.Some? && o.consumerOk {
      MergeIsFaithful(h, s.active.value, d, o.now, s'.active.value);
    }
  }

  lemma SnapshotKeepsConsistency(
    cfg: NodeConfig, h: History, s: NodeState, id: string, p: ProtoSnapshot, o: Surroundings, s': NodeState)
    requires Consistent(h, s) && SnapshotStep(cfg, s, id, p, o, s')
    requires SnapshotFault(cfg, id, p).Some? || CutSnapshot(h, p)
    ensures Consistent(h, s')
  {
  }

  /** A start leaves the node on a published configuration unless it accepts a bundle that is none. */
  lemma RestartConsistentIff(cfg: NodeConfig, h: History, s: NodeState, f: Found, o: Surroundings)
    requires Consistent(h, s)
    ensures Consistent(h, Restarted(cfg, s, f, o))
            <==> (f.bundle.Some? && f.bundleAround.consumerOk ==> Faithful(h, f.bundle.value))
  {
  }

  /** The checks of a message read its namespace tag, its versions and its signature, and nothing
      of its content: whatever is sent under an accepted version and signature passes them. */
  lemma ChecksIgnoreContent(cfg: NodeConfig, current: nat, id: string, p: ProtoSnapshot, p': ProtoSnapshot, d: Delta,
      d': Delta)
    requires p'.configVersion == p.configVersion && p'.signature == p.signature
    requires d'.baseVersion == d.baseVersion && d'.targetVersion == d.targetVersion && d'.signature == d.signature
    ensures SnapshotFault(cfg, id, p') == SnapshotFault(cfg, id, p)
    ensures DeltaFault(cfg, current, id, d') == DeltaFault(cfg, current, id, d)
  {
  }

  /** The snapshot carries the published configuration of its version. */
  ghost predicate Carries(h: History, p: ProtoSnapshot) {
    && p.configVersion in h
    && RouteMap(ConvertRoutes(p.routes)) == PublishedRoutes(h, p.configVersion)
    && UpstreamMap(p.upstreams) == PublishedUpstreams(h, p.configVersion)
    && (UniquelyNamed(h) ==> UniqueIds(ConvertRoutes(p.routes)))
  }

  /** An accepted snapshot leaves the node on the published configuration exactly when it carries it. */
  lemma AcceptedSnapshotIff(cfg: NodeConfig, h: History, s: NodeState, id: string, p: ProtoSnapshot, o: Surroundings,
      s': NodeState)
    requires Consistent(h, s) && SnapshotStep(cfg, s, id, p, o, s') && SnapshotFault(cfg, id, p).None? && o.consumerOk
    ensures Consistent(h, s') <==> Carries(h, p)
  {
  }

  /** An accepted delta leaves the node on the published configuration exactly when it was cut from
      the history. */
  lemma AcceptedDeltaIff(cfg: NodeConfig, h: History, s: NodeState, id: string, d: Delta, o: Surroundings, s': NodeState)
    requires Consistent(h, s) && s.active.Some? && DeltaStep(cfg, s, id, d, o, s')
    requires DeltaFault(cfg, s.version, id, d).None? && o.consumerOk
    ensures Consistent(h, s') <==> CutDelta(h, d)
  {
    if d.targetVersion in h {
      MergeReachesTarget(PublishedRoutes(h, d.baseVersion), PublishedRoutes(h, d.targetVersion),
                         RouteMap(ConvertRoutes(d.upsertedRoutes)), Ids(d.deletedRouteIds));
      MergeReachesTarget(PublishedUpstreams(h, d.baseVersion), PublishedUpstreams(h, d.targetVersion),
                         UpstreamMap(d.upsertedUpstreams), Ids(d.deletedUpstreamIds));
    }
  }

  /** The message or bundle of an event is accepted in a state, and what it carries is not what was
      published. */
  ghost predicate Misleads(cfg: NodeConfig, h: History, s: NodeState, e: Event) {
    if e.Restart? then
      e.found.bundle.Some? && e.found.bundleAround.consumerOk && !Faithful(h, e.found.bundle.value)
    else
      && e.around.consumerOk
      && match e.msg.payload
         case SnapshotPayload(p) => SnapshotFault(cfg, e.msg.messageId, p).None? && !Carries(h, p)
         case DeltaPayload(d) =>
           s.active.Some? && DeltaFault(cfg, s.version, e.msg.messageId, d).None? && !CutDelta(h, d)
         case CommandPayload(_) => false
  }

  lemma StepConsistentIff(cfg: NodeConfig, h: History, s: NodeState, e: Event, s': NodeState)
    requires Consistent(h, s) && Next(cfg, s, e, s')
    ensures Consistent(h, s') <==> !Misleads(cfg, h, s, e)
  {
    if e.Restart? {
      RestartConsistentIff(cfg, h, s, e.found, e.around);
    } else if e.msg.payload.SnapshotPayload? {
      var p := e.msg.payload.snap;
      if SnapshotFault(cfg, e.msg.messageId, p).None? && e.around.consumerOk {
        AcceptedSnapshotIff(cfg, h, s, e.msg.messageId, p, e.around, s');
      }
    } else if e.msg.payload.DeltaPayload? {
      var d := e.msg.payload.delta;
      if s.active.Some? && DeltaFault(cfg, s.version, e.msg.messageId, d).None? && e.around.consumerOk {
        AcceptedDeltaIff(cfg, h, s, e.msg.messageId, d, e.around, s');
      }
    }
  }

  /** In every run whatsoever, with messages of any origin, the node is always on the published
      configuration of its version exactly when no accepted message or bundle misleads it. */
  lemma AlwaysConsistentIff(cfg: NodeConfig, h: History, events: seq<Event>, states: seq<NodeState>)
    requires Run(cfg, events, states) && states[0] == InitialNode
    ensures (forall i | 0 <= i < |states| :: Consistent(h, states[i]))
            <==> (forall i | 0 <= i < |events| :: !Misleads(cfg, h, states[i], events[i]))
  {
    if forall i | 0 <= i < |states| :: Consistent(h, states[i]) {
      forall i | 0 <= i < |events|
        ensures !Misleads(cfg, h, states[i], events[i])
      {
        StepConsistentIff(cfg, h, states[i], events[i], states[i + 1]);
      }
    }
    if forall i | 0 <= i < |events| :: !Misleads(cfg, h, states[i], events[i]) {
      forall i | 0 <= i < |states|
        ensures Consistent(h, states[i])
      {
        NeverMisled(cfg, h, events, states, i);
      }
    }
  }

  lemma {:induction false} NeverMisled(cfg: NodeConfig, h: History, events: seq<Event>, states: seq<NodeState>, i: nat)
    requires Run(cfg, events, states) && states[0] == InitialNode && i < |states|
    requires forall k | 0 <= k < |events| :: !Misleads(cfg, h, states[k], events[k])
    ensures Consistent(h, states[i])
  {
    if i > 0 {
      NeverMisled(cfg, h, events, states, i - 1);
      StepConsistentIff(cfg, h, states[i - 1], events[i - 1], states[i]);
    }
  }

  /** Such a message exists under every version and signature that passes the checks. */
  lemma AlteredSnapshotAccepted(cfg: NodeConfig, h: History, s: NodeState, id: string, p: ProtoSnapshot, o: Surroundings)
    returns (p': ProtoSnapshot, s': NodeState)
    requires Consistent(h, s) && SnapshotFault(cfg, id, p).None? && o.consumerOk
    ensures p'.configVersion == p.configVersion && p'.signature == p.signature
    ensures SnapshotStep(cfg, s, id, p', o, s') && s'.outbox == s.outbox + [Ack(p.configVersion)] && !Consistent(h, s')
  {
    var none := p.(routes := []);
    var one := p.(routes := [ProtoRoute("x", "/", false, "", map[], "", 0)]);
    assert ConvertRoutes(none.routes) == [];
    var route := ConvertRoute(one.routes[0]);
    assert ConvertRoutes(one.routes) == [] + [route];
    RouteMapAppend([], route);
    assert "x" in RouteMap(ConvertRoutes(one.routes)) && "x" !in RouteMap(ConvertRoutes(none.routes));
    p' := if Carries(h, none) then one else none;
    var snap := Snapshot(p'.configVersion, if p'.createdAt.Some? then p'.createdAt.value else o.now,
                         ConvertRoutes(p'.routes), UpstreamMap(p'.upstreams));
    s' := Answer(Adopt(cfg, s, snap, o.lkgSaved), Ack(p'.configVersion));
    AcceptedSnapshotIff(cfg, h, s, id, p', o, s');
  }

  lemma StepKeepsConsistency(cfg: NodeConfig, h: History, s: NodeState, e: Event, s': NodeState)
    requires Consistent(h, s) && Next(cfg, s, e, s')
    requires Genuine(cfg, h, e)
    ensures Consistent(h, s')
  {
    if e.Restart? {
      RestartConsistentIff(cfg, h, s, e.found, e.around);
    } else if e.msg.payload.DeltaPayload? {
      DeltaKeepsConsistency(cfg, h, s, e.msg.messageId, e.msg.payload.delta, e.around, s');
    } else if e.msg.payload.SnapshotPayload? {
      SnapshotKeepsConsistency(cfg, h, s, e.msg.messageId, e.msg.payload.snap, e.around, s');
    }
  }

  /** Whatever is lost, repeated, reordered or stale, and however often the node restarts: the
      node serves the published configuration of its own version, and with unique route ids its
      route list is the published list up to order. */
  lemma {:induction false} ServesPublishedConfig(cfg: NodeConfig, h: History, events: seq<Event>,
      states: seq<NodeState>, i: nat)
    requires Run(cfg, events, states) && states[0] == InitialNode
    requires Schedule(cfg, h, events)
    requires i < |states|
    ensures Consistent(h, states[i])
    ensures UniquelyNamed(h) && states[i].active.Some?
            ==> multiset(states[i].active.value.routes) == multiset(ConvertRoutes(h[states[i].version].routes))
  {
    if i > 0 {
      ServesPublishedConfig(cfg, h, events, states, i - 1);
      StepKeepsConsistency(cfg, h, states[i - 1], events[i - 1], states[i]);
    }
    if UniquelyNamed(h) && states[i].active.Some? {
      SameMapSameRoutes(states[i].active.value.routes, ConvertRoutes(h[states[i].version].routes));
    }
  }

  // ---------------------------------------------------------------- what the platform learns

  ghost function LastAck(outbox: seq<Reply>): nat {
    if |outbox| == 0 then 0
    else
      var last := outbox[|outbox| - 1];
      if last.Ack? then last.version else LastAck(outbox[..|outbox| - 1])
  }

  ghost function ConfigMessages(events: seq<Event>): nat {
    if |events| == 0 then 0
    else
      var e := events[|events| - 1];
      ConfigMessages(events[..|events| - 1])
      + if e.Deliver? && !e.msg.payload.CommandPayload? then 1 else 0
  }

  /** Between restarts the platform can read the node's version off the last Ack, and it gets
      exactly one answer per configuration message. No assumption on the messages is needed. */
  lemma {:induction false} AnswersTrackVersion(cfg: NodeConfig, events: seq<Event>, states: seq<NodeState>)
    requires Run(cfg, events, states) && states[0] == InitialNode
    requires forall i | 0 <= i < |events| :: events[i].Deliver?
    ensures |states[|events|].outbox| == ConfigMessages(events)
    ensures states[|events|].version == LastAck(states[|events|].outbox)
  {
    var n := |events|;
    if n > 0 {
      AnswersTrackVersion(cfg, events[..n - 1], states[..n]);
      assert Next(cfg, states[n - 1], events[n - 1], states[n]);
      var msg := events[n - 1].msg;
      if !msg.payload.CommandPayload? {
        OneAnswer(cfg, states[n - 1], msg, events[n - 1].around, states[n]);
        assert states[n].outbox[..|states[n - 1].outbox|] == states[n - 1].outbox;
      }
    }
  }

  /** A snapshot followed by deltas that chain from its version, all authentic and accepted. */
  ghost predicate ChainedCatchUp(cfg: NodeConfig, events: seq<Event>, versions: seq<nat>) {
    && |events| > 0 && |versions| == |events|
    && (forall i | 0 <= i < |events| :: events[i].Deliver? && events[i].around.consumerOk)
    && events[0].msg.payload.SnapshotPayload?
    && events[0].msg.payload.snap.configVersion == versions[0]
    && SnapshotFault(cfg, events[0].msg.messageId, events[0].msg.payload.snap).None?
    && forall i | 0 < i < |events| ::
         && events[i].msg.payload.DeltaPayload?
         && events[i].msg.payload.delta.baseVersion == versions[i - 1]
         && events[i].msg.payload.delta.targetVersion == versions[i]
         && DeltaFault(cfg, versions[i - 1], events[i].msg.messageId, events[i].msg.payload.delta).None?
  }

  /** Resynchronisation: from any state at all, a full snapshot and the deltas chained on it are
      all acknowledged, and the node follows the chain version by version. */
  lemma {:induction false} CatchUpFromAnyState(
    cfg: NodeConfig, events: seq<Event>, versions: seq<nat>, states: seq<NodeState>, i: nat)
    requires Run(cfg, events, states) && ChainedCatchUp(cfg, events, versions)
    requires i < |events|
    ensures states[i + 1].version == versions[i] && states[i + 1].active.Some?
    ensures states[i + 1].outbox == states[i].outbox + [Ack(versions[i])]
  {
    assert Next(cfg, states[i], events[i], states[i + 1]);
    if i > 0 {
      CatchUpFromAnyState(cfg, events, versions, states, i - 1);
    }
  }
}
