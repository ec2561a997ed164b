/**
 The control-plane client of a gateway node: it receives full snapshots and deltas, checks
 namespace, base version and signature, applies or rejects each message, and answers with one
 Ack or Nack. Routes merged by a delta come out of a hash map, so their order is unspecified.
 */
module Control {
  import opened Common
  import opened Config

  // ---------------------------------------------------------------- messages

  type Signature = seq<bv8>

  datatype ProtoRoute = ProtoRoute(
    id: string, path: string, pathPrefix: bool, method_: string,
    headers: map<string, string>, upstreamId: string, timeoutMs: int)

  datatype ProtoUpstream = ProtoUpstream(
    id: string, protocol: string, endpoints: seq<string>, timeoutMs: int, maxConns: int)

  datatype ProtoSnapshot = ProtoSnapshot(
    configVersion: nat, createdAt: Option<int>,
    routes: seq<ProtoRoute>, upstreams: seq<ProtoUpstream>, signature: Signature)

  datatype Delta = Delta(
    baseVersion: nat, targetVersion: nat,
    upsertedRoutes: seq<ProtoRoute>, deletedRouteIds: seq<string>,
    upsertedUpstreams: seq<ProtoUpstream>, deletedUpstreamIds: seq<string>,
    signature: Signature)

  datatype Command = Drain | Reload | OtherCommand

  datatype Payload =
    | SnapshotPayload(snap: ProtoSnapshot)
    | DeltaPayload(delta: Delta)
    | CommandPayload(command: Command)

  datatype ControlMessage = ControlMessage(messageId: string, payload: Payload)

  datatype NackCode =
    | WRONG_NAMESPACE | MISSING_SIGNATURE | INVALID_SIGNATURE
    | DELTA_BASE_MISMATCH | NO_BASE_SNAPSHOT | COMPILE_FAILED

  datatype Reply = Ack(version: nat) | Nack(version: nat, code: NackCode)

  /** The text an Ed25519 signature covers, with or without the namespace in front. */
  datatype SignedText =
    | ConfigVersionText(namespace: Option<string>, version: nat)
    | DeltaText(namespace: Option<string>, baseVersion: nat, targetVersion: nat)

  datatype NodeConfig = NodeConfig(
    namespace: string, hasKey: bool, verify: (SignedText, Signature) -> bool, lkgEnabled: bool)

  /** What the outside world contributes to one step: the clock, whether the consumer accepts
      the snapshot, and whether writing the last-known-good file succeeds. */
  datatype Surroundings = Surroundings(now: int, consumerOk: bool, lkgSaved: bool)

  // ---------------------------------------------------------------- conversion

  /** time.Duration arithmetic is 64-bit two's complement. */
  function Wrap64(x: int): int {
    var m := x % 0x1_0000_0000_0000_0000;
    if m < 0x8000_0000_0000_0000 then m else m - 0x1_0000_0000_0000_0000
  }

  function ConvertRoute(r: ProtoRoute): RouteRule {
    RouteRule(r.id, "", r.path, r.pathPrefix, r.method_, r.headers, map[], r.upstreamId, [], None,
              Wrap64(r.timeoutMs * 1_000_000))
  }

  function ConvertRoutes(rs: seq<ProtoRoute>): seq<RouteRule> {
    seq(|rs|, i requires 0 <= i < |rs| => ConvertRoute(rs[i]))
  }

  function ConvertUpstream(u: ProtoUpstream): UpstreamCluster {
    UpstreamCluster(u.id, u.protocol, u.endpoints, Wrap64(u.timeoutMs * 1_000_000), u.maxConns)
  }

  function UpstreamMap(us: seq<ProtoUpstream>): map<string, UpstreamCluster> {
    if |us| == 0 then map[]
    else
      var last := us[|us| - 1];
      UpstreamMap(us[..|us| - 1])[last.id := ConvertUpstream(last)]
  }

  ghost function Ids(ids: seq<string>): set<string> {
    set id | id in ids
  }

  /** Deletions first, then upserts: an id that is both deleted and upserted survives. */
  ghost function Merge<T>(base: map<string, T>, upserts: map<string, T>, deleted: set<string>): map<string, T> {
    (base - deleted) + upserts
  }

  method ConvertSnapshot(p: ProtoSnapshot, now: int) returns (snap: Snapshot)
    ensures snap.version == p.configVersion
    ensures snap.timestamp == if p.createdAt.Some? then p.createdAt.value else now
    ensures snap.routes == ConvertRoutes(p.routes)
    ensures snap.upstreams == UpstreamMap(p.upstreams)
  {
    var routes := [];
    for i := 0 to |p.routes|
      invariant routes == ConvertRoutes(p.routes[..i])
    {
      routes := routes + [ConvertRoute(p.routes[i])];
    }
    assert p.routes[..|p.routes|] == p.routes;
    var upstreams := map[];
    for i := 0 to |p.upstreams|
      invariant upstreams == UpstreamMap(p.upstreams[..i])
    {
      assert p.upstreams[..i + 1][..i] == p.upstreams[..i];
      upstreams := upstreams[p.upstreams[i].id := ConvertUpstream(p.upstreams[i])];
    }
    assert p.upstreams[..|p.upstreams|] == p.upstreams;
    snap := Snapshot(p.configVersion, if p.createdAt.Some? then p.createdAt.value else now, routes, upstreams);
  }

  /** Any snapshot a delta may produce from a base: the merged maps, the routes in some order. */
  ghost predicate MergedSnapshot(base: Snapshot, d: Delta, now: int, merged: Snapshot) {
    && merged.version == d.targetVersion
    && merged.timestamp == now
    && UniqueIds(merged.routes)
    && RouteMap(merged.routes)
       == Merge(RouteMap(base.routes), RouteMap(ConvertRoutes(d.upsertedRoutes)), Ids(d.deletedRouteIds))
    && merged.upstreams == Merge(base.upstreams, UpstreamMap(d.upsertedUpstreams), Ids(d.deletedUpstreamIds))
  }

  method CollectIds(ids: seq<string>) returns (s: set<string>)
    ensures s == Ids(ids)
  {
    s := {};
    for i := 0 to |ids|
      invariant s == Ids(ids[..i])
    {
      s := s + {ids[i]};
    }
    assert ids[..|ids|] == ids;
  }

  /** The routes of a map, in whatever order its iteration yields them. */
  method ListRoutes(m: map<string, RouteRule>) returns (routes: seq<RouteRule>)
    requires forall k | k in m :: m[k].id == k
    ensures UniqueIds(routes)
    ensures RouteMap(routes) == m
  {
    routes := [];
    var todo := m.Keys;
    while todo != {}
      invariant todo <= m.Keys
      invariant UniqueIds(routes)
      invariant forall r | r in routes :: r.id !in todo
      invariant RouteMap(routes) == m - todo
    {
      var k :| k in todo;
      RouteMapAppend(routes, m[k]);
      routes := routes + [m[k]];
      todo := todo - {k};
    }
  }

  /** Base routes minus the deleted ones, keyed by id. */
  method KeepRoutes(base: seq<RouteRule>, deleted: set<string>) returns (routeMap: map<string, RouteRule>)
    ensures routeMap == RouteMap(base) - deleted
  {
    routeMap := map[];
    for i := 0 to |base|
      invariant routeMap == RouteMap(base[..i]) - deleted
    {
      assert base[..i + 1][..i] == base[..i];
      if base[i].id !in deleted {
        routeMap := routeMap[base[i].id := base[i]];
      }
    }
    assert base[..|base|] == base;
  }

  lemma UpdateOfSum<T>(a: map<string, T>, b: map<string, T>, k: string, v: T)
    ensures (a + b)[k := v] == a + b[k := v]
  {
  }

  method UpsertRoutes(kept: map<string, RouteRule>, upserts: seq<ProtoRoute>) returns (routeMap: map<string, RouteRule>)
    ensures routeMap == kept + RouteMap(ConvertRoutes(upserts))
  {
    routeMap := kept;
    ghost var converted := ConvertRoutes(upserts);
    for i := 0 to |upserts|
      invariant routeMap == kept + RouteMap(converted[..i])
    {
      var r := ConvertRoute(upserts[i]);
      assert converted[..i + 1] == converted[..i] + [r];
      RouteMapAppend(converted[..i], r);
      UpdateOfSum(kept, RouteMap(converted[..i]), r.id, r);
      routeMap := routeMap[r.id := r];
    }
    assert converted[..|upserts|] == converted;
  }

  method MergeUpstreams(base: map<string, UpstreamCluster>, upserts: seq<ProtoUpstream>, deleted: set<string>)
    returns (upstreams: map<string, UpstreamCluster>)
    ensures upstreams == Merge(base, UpstreamMap(upserts), deleted)
  {
    upstreams := base - deleted;
    for i := 0 to |upserts|
      invariant upstreams == (base - deleted) + UpstreamMap(upserts[..i])
    {
      assert upserts[..i + 1][..i] == upserts[..i];
      upstreams := upstreams[upserts[i].id := ConvertUpstream(upserts[i])];
    }
    assert upserts[..|upserts|] == upserts;
  }

  method ApplyDelta(base: Snapshot, d: Delta, now: int) returns (merged: Snapshot)
    ensures MergedSnapshot(base, d, now, merged)
  {
    var deletedRoutes := CollectIds(d.deletedRouteIds);
    var kept := KeepRoutes(base.routes, deletedRoutes);
    var routeMap := UpsertRoutes(kept, d.upsertedRoutes);
    RouteMapMembers(base.routes);
    RouteMapMembers(ConvertRoutes(d.upsertedRoutes));
    var newRoutes := ListRoutes(routeMap);
    var deletedUpstreams := CollectIds(d.deletedUpstreamIds);
    var upstreams := MergeUpstreams(base.upstreams, d.upsertedUpstreams, deletedUpstreams);
    merged := Snapshot(d.targetVersion, now, newRoutes, upstreams);
  }

  // ---------------------------------------------------------------- checks

  /** The text in front of the first ':' of a message id that has one. */
  function BeforeColon(id: string): string {
    if |id| == 0 || id[0] == ':' then "" else [id[0]] + BeforeColon(id[1..])
  }

  /** A tagged message id names another namespace; "msg..." and the kind's own tag are exempt. */
  predicate NamesOtherNamespace(cfg: NodeConfig, id: string, kindTag: string) {
    && ':' in id
    && var tag := BeforeColon(id);
       tag != "" && tag != cfg.namespace && !("msg" <= tag) && !(kindTag <= tag)
  }

  /** Why a snapshot is refused before it is converted, if it is. */
  function SnapshotFault(cfg: NodeConfig, id: string, s: ProtoSnapshot): Option<NackCode> {
    if NamesOtherNamespace(cfg, id, "init") then Some(WRONG_NAMESPACE)
    else if !cfg.hasKey then None
    else if |s.signature| == 0 then Some(MISSING_SIGNATURE)
    else if !cfg.verify(ConfigVersionText(Some(cfg.namespace), s.configVersion), s.signature)
            && !cfg.verify(ConfigVersionText(None, s.configVersion), s.signature)
    then Some(INVALID_SIGNATURE)
    else None
  }

  /** Why a delta is refused before it is merged, if it is. */
  function DeltaFault(cfg: NodeConfig, current: nat, id: string, d: Delta): Option<NackCode> {
    if NamesOtherNamespace(cfg, id, "delta") then Some(WRONG_NAMESPACE)
    else if d.baseVersion != current then Some(DELTA_BASE_MISMATCH)
    else if !cfg.hasKey then None
    else if !cfg.verify(DeltaText(Some(cfg.namespace), d.baseVersion, d.targetVersion), d.signature)
            && !cfg.verify(DeltaText(None, d.baseVersion, d.targetVersion), d.signature)
    then Some(INVALID_SIGNATURE)
    else None
  }

  // ---------------------------------------------------------------- the node as a state machine

  datatype NodeState = NodeState(
    version: nat, active: Option<Snapshot>, ready: bool, lkg: Option<Snapshot>, outbox: seq<Reply>)

  const InitialNode := NodeState(0, None, false, None, [])

  /** The state after the consumer accepted a snapshot. */
  ghost function Adopt(cfg: NodeConfig, s: NodeState, snap: Snapshot, lkgSaved: bool): NodeState {
    NodeState(snap.version, Some(snap), true, if cfg.lkgEnabled && lkgSaved then Some(snap) else s.lkg, s.outbox)
  }

  ghost function Answer(s: NodeState, reply: Reply): NodeState {
    s.(outbox := s.outbox + [reply])
  }

  ghost predicate SnapshotStep(cfg: NodeConfig, s: NodeState, id: string, p: ProtoSnapshot, o: Surroundings,
      s': NodeState) {
    match SnapshotFault(cfg, id, p)
    case Some(code) => s' == Answer(s, Nack(p.configVersion, code))
    case None =>
      if !o.consumerOk then s' == Answer(s, Nack(p.configVersion, COMPILE_FAILED))
      else
        var snap := Snapshot(p.configVersion, if p.createdAt.Some? then p.createdAt.value else o.now,
                             ConvertRoutes(p.routes), UpstreamMap(p.upstreams));
        s' == Answer(Adopt(cfg, s, snap, o.lkgSaved), Ack(p.configVersion))
  }

  ghost predicate DeltaStep(cfg: NodeConfig, s: NodeState, id: string, d: Delta, o: Surroundings, s': NodeState) {
    match DeltaFault(cfg, s.version, id, d)
    case Some(code) => s' == Answer(s, Nack(d.targetVersion, code))
    case None =>
      if s.active.None? then s' == Answer(s, Nack(d.targetVersion, NO_BASE_SNAPSHOT))
      else if !o.consumerOk then s' == Answer(s, Nack(d.targetVersion, COMPILE_FAILED))
      else
        && s'.active.Some?
        && MergedSnapshot(s.active.value, d, o.now, s'.active.value)
        && s' == Answer(Adopt(cfg, s, s'.active.value, o.lkgSaved), Ack(d.targetVersion))
  }

  ghost predicate MessageStep(cfg: NodeConfig, s: NodeState, msg: ControlMessage, o: Surroundings, s': NodeState) {
    match msg.payload
    case SnapshotPayload(p) => SnapshotStep(cfg, s, msg.messageId, p, o, s')
    case DeltaPayload(d) => DeltaStep(cfg, s, msg.messageId, d, o, s')
    case CommandPayload(c) => s' == if c.Drain? then s.(ready := false) else s
  }

  /** What a start finds: a configuration bundle that could be loaded, if one is set, and whether
      the last-known-good file can be read. */
  datatype Found = Found(bundle: Option<Snapshot>, bundleAround: Surroundings, lkgReadable: bool)

  /** A fresh process that serves the bundle if it is accepted, else the last-known-good file if
      that can be read and is accepted. */
  ghost function Restarted(cfg: NodeConfig, s: NodeState, f: Found, o: Surroundings): NodeState {
    var blank := s.(version := 0, active := None, ready := false);
    if f.bundle.Some? && f.bundleAround.consumerOk then Adopt(cfg, blank, f.bundle.value, f.bundleAround.lkgSaved)
    else if cfg.lkgEnabled && s.lkg.Some? && f.lkgReadable && o.consumerOk
    then Adopt(cfg, blank, s.lkg.value, o.lkgSaved)
    else blank
  }

  datatype Event =
    | Deliver(msg: ControlMessage, around: Surroundings)
    | Restart(found: Found, around: Surroundings)

  ghost predicate Next(cfg: NodeConfig, s: NodeState, e: Event, s': NodeState) {
    match e
    case Deliver(msg, o) => MessageStep(cfg, s, msg, o, s')
    case Restart(f, o) => s' == Restarted(cfg, s, f, o)
  }

  // ---------------------------------------------------------------- the client object

  class Client {
    const cfg: NodeConfig
    var lastAppliedVersion: nat
    var activeSnap: Option<Snapshot>
    var ready: bool
    var lkgFile: Option<Snapshot>
    var sent: seq<Reply>

    ghost function State(): NodeState
      reads this
    {
      NodeState(lastAppliedVersion, activeSnap, ready, lkgFile, sent)
    }

    constructor (cfg: NodeConfig)
      ensures this.cfg == cfg && State() == InitialNode
    {
      this.cfg := cfg;
      lastAppliedVersion, activeSnap, ready, lkgFile, sent := 0, None, false, None, [];
    }

    method ApplySnapshot(snap: Snapshot, o: Surroundings) returns (ok: bool)
      modifies this
      ensures ok == o.consumerOk
      ensures State() == if ok then Adopt(cfg, old(State()), snap, o.lkgSaved) else old(State())
    {
      if !o.consumerOk {
        return false;
      }
      activeSnap := Some(snap);
      lastAppliedVersion := snap.version;
      ready := true;
      if cfg.lkgEnabled && o.lkgSaved {
        lkgFile := Some(snap);
      }
      return true;
    }

    method Send(reply: Reply)
      modifies this`sent
      ensures sent == old(sent) + [reply]
    {
      sent := sent + [reply];
    }

    method HandleSnapshot(id: string, p: ProtoSnapshot, o: Surroundings)
      modifies this
      ensures SnapshotStep(cfg, old(State()), id, p, o, State())
    {
      if NamesOtherNamespace(cfg, id, "init") {
        Send(Nack(p.configVersion, WRONG_NAMESPACE));
        return;
      }
      if cfg.hasKey {
        if |p.signature| == 0 {
          Send(Nack(p.configVersion, MISSING_SIGNATURE));
          return;
        }
        var valid := cfg.verify(ConfigVersionText(Some(cfg.namespace), p.configVersion), p.signature)
                     || cfg.verify(ConfigVersionText(None, p.configVersion), p.signature);
        if !valid {
          Send(Nack(p.configVersion, INVALID_SIGNATURE));
          return;
        }
      }
      var snap := ConvertSnapshot(p, o.now);
      var ok := ApplySnapshot(snap, o);
      if !ok {
        Send(Nack(p.configVersion, COMPILE_FAILED));
        return;
      }
      Send(Ack(p.configVersion));
    }

    method HandleDelta(id: string, d: Delta, o: Surroundings)
      modifies this
      ensures DeltaStep(cfg, old(State()), id, d, o, State())
    {
      var currentVersion := lastAppliedVersion;
      if NamesOtherNamespace(cfg, id, "delta") {
        Send(Nack(d.targetVersion, WRONG_NAMESPACE));
        return;
      }
      if d.baseVersion != currentVersion {
        Send(Nack(d.targetVersion, DELTA_BASE_MISMATCH));
        return;
      }
      if cfg.hasKey {
        var valid := cfg.verify(DeltaText(Some(cfg.namespace), d.baseVersion, d.targetVersion), d.signature)
                     || cfg.verify(DeltaText(None, d.baseVersion, d.targetVersion), d.signature);
        if !valid {
          Send(Nack(d.targetVersion, INVALID_SIGNATURE));
          return;
        }
      }
      if activeSnap.None? {
        Send(Nack(d.targetVersion, NO_BASE_SNAPSHOT));
        return;
      }
      var merged := ApplyDelta(activeSnap.value, d, o.now);
      var ok := ApplySnapshot(merged, o);
      if !ok {
        Send(Nack(d.targetVersion, COMPILE_FAILED));
        return;
      }
      Send(Ack(d.targetVersion));
    }

    method HandleControlMessage(msg: ControlMessage, o: Surroundings)
      modifies this
      ensures MessageStep(cfg, old(State()), msg, o, State())
    {
      match msg.payload
      case SnapshotPayload(p) => HandleSnapshot(msg.messageId, p, o);
      case DeltaPayload(d) => HandleDelta(msg.messageId, d, o);
      case CommandPayload(c) =>
        if c.Drain? {
          ready := false;
        }
    }

    /** A new process on the same disk: nothing survives but the last-known-good file. */
    method StartAgain(f: Found, o: Surroundings)
      modifies this
      ensures State() == Restarted(cfg, old(State()), f, o)
    {
      lastAppliedVersion, activeSnap, ready := 0, None, false;
      if f.bundle.Some? {
        var ok := ApplySnapshot(f.bundle.value, f.bundleAround);
        if !ok {
          ready := false;
        }
      }
      if activeSnap.None? && cfg.lkgEnabled && lkgFile.Some? && f.lkgReadable {
        var _ := ApplySnapshot(lkgFile.value, o);
      }
      ready := activeSnap.Some?;
    }
  }

  // ---------------------------------------------------------------- one message, one answer

  /** The last entry of the outbox after a snapshot or delta step. */
  ghost function VersionOf(msg: ControlMessage): nat
    requires !msg.payload.CommandPayload?
  {
    if msg.payload.SnapshotPayload? then msg.payload.snap.configVersion else msg.payload.delta.targetVersion
  }

  /** Exactly one answer per configuration message, naming its version; a Nack changes nothing
      else, an Ack means the node now serves exactly that version. */
  lemma OneAnswer(cfg: NodeConfig, s: NodeState, msg: ControlMessage, o: Surroundings, s': NodeState)
    requires MessageStep(cfg, s, msg, o, s')
    requires !msg.payload.CommandPayload?
    ensures |s'.outbox| == |s.outbox| + 1 && s.outbox <= s'.outbox
    ensures var reply := s'.outbox[|s.outbox|];
            && reply.version == VersionOf(msg)
            && (reply.Nack? ==> s' == s.(outbox := s'.outbox))
            && (reply.Ack? ==> s'.version == reply.version && s'.ready
                               && s'.active.Some? && s'.active.value.version == reply.version)
  {
  }
}
