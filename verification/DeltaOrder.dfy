/**
 What losing the route order in a delta costs: exactly the requests that two rules can win may be
 answered otherwise than by the published list.
 */
module DeltaOrder {
  import opened Common
  import opened Config
  import opened Control
  import opened ControlHistory
  import opened Router
  import opened RouteOrder

  /** A permutation of a list with unique ids has unique ids. */
  lemma PermutedIds(a: seq<RouteRule>, b: seq<RouteRule>)
    requires UniqueIds(a) && SameRoutes(a, b)
    ensures UniqueIds(b)
  {
    forall i, j | 0 <= i < j < |b|
      ensures b[i].id != b[j].id
    {
      SameMembers(a, b, b[i]);
      SameMembers(a, b, b[j]);
      if b[i] == b[j] {
        TwiceInList(b, i, j);
        UniqueOnce(a, b[i]);
        assert false;
      }
    }
  }

  lemma TwiceInList(b: seq<RouteRule>, i: nat, j: nat)
    requires i < j < |b| && b[i] == b[j]
    ensures multiset(b)[b[i]] >= 2
  {
    assert b == b[..j] + b[j..];
    assert b[i] in multiset(b[..j]) by {
      assert b[..j][i] == b[i];
    }
    assert b[j] in multiset(b[j..]) by {
      assert b[j..][0] == b[j];
    }
  }

  /** Permutations of a list with unique ids have the same route map. */
  lemma PermutedMap(a: seq<RouteRule>, b: seq<RouteRule>)
    requires UniqueIds(a) && SameRoutes(a, b)
    ensures UniqueIds(b) && RouteMap(a) == RouteMap(b)
  {
    PermutedIds(a, b);
    RouteMapMembers(a);
    RouteMapMembers(b);
    forall r
      ensures r in a <==> r in b
    {
      SameMembers(a, b, r);
    }
    assert RouteMap(a).Keys == RouteMap(b).Keys;
  }

  /** An authentic delta on the node's own version that the consumer accepts. */
  ghost predicate Applicable(cfg: NodeConfig, h: History, s: NodeState, id: string, d: Delta, o: Surroundings) {
    && Consistent(h, s) && UniquelyNamed(h) && CutDelta(h, d)
    && DeltaFault(cfg, s.version, id, d).None? && s.active.Some? && o.consumerOk
  }

  /** The route list published for the target version. */
  ghost function Target(h: History, d: Delta): seq<RouteRule>
    requires d.targetVersion in h
  {
    ConvertRoutes(h[d.targetVersion].routes)
  }

  /** The node may end up with the published routes in any order. */
  lemma AnyOrderPossible(cfg: NodeConfig, h: History, s: NodeState, id: string, d: Delta, o: Surroundings,
      order: seq<RouteRule>)
    returns (s': NodeState)
    requires Applicable(cfg, h, s, id, d, o) && SameRoutes(order, Target(h, d))
    ensures DeltaStep(cfg, s, id, d, o, s') && s'.active.Some? && s'.active.value.routes == order
  {
    PermutedMap(Target(h, d), order);
    MergeReachesTarget(PublishedRoutes(h, d.baseVersion), PublishedRoutes(h, d.targetVersion),
                       RouteMap(ConvertRoutes(d.upsertedRoutes)), Ids(d.deletedRouteIds));
    var merged := Snapshot(d.targetVersion, o.now, order,
                           Merge(s.active.value.upstreams, UpstreamMap(d.upsertedUpstreams), Ids(d.deletedUpstreamIds)));
    assert MergedSnapshot(s.active.value, d, o.now, merged);
    s' := Answer(Adopt(cfg, s, merged, o.lkgSaved), Ack(d.targetVersion));
  }

  lemma OnlyOrderPossible(cfg: NodeConfig, h: History, s: NodeState, id: string, d: Delta, o: Surroundings,
      s': NodeState)
    requires Applicable(cfg, h, s, id, d, o) && DeltaStep(cfg, s, id, d, o, s')
    ensures s'.active.Some? && SameRoutes(s'.active.value.routes, Target(h, d))
  {
    DeltaKeepsConsistency(cfg, h, s, id, d, o, s');
    SameMapSameRoutes(s'.active.value.routes, Target(h, d));
  }

  ghost predicate AnswersAsPublished(
    eng: Engine, cfg: NodeConfig, h: History, s: NodeState, id: string, d: Delta, o: Surroundings, req: Request)
    requires d.targetVersion in h
  {
    forall s' | DeltaStep(cfg, s, id, d, o, s') ::
      s'.active.Some? && Chosen(eng, s'.active.value.routes, req) == Chosen(eng, Target(h, d), req)
  }

  /** After a delta a request is sure to be answered as the published list answers it exactly when
      no two of the published rules can win it. */
  lemma DeltaAnswersIff(eng: Engine, cfg: NodeConfig, h: History, s: NodeState, id: string, d: Delta, o: Surroundings,
      req: Request)
    requires Applicable(cfg, h, s, id, d, o)
    ensures AnswersAsPublished(eng, cfg, h, s, id, d, o, req) <==> OneWinner(eng, Target(h, d), req)
  {
    var published := Target(h, d);
    OrderIrrelevantIff(eng, published, req);
    if OneWinner(eng, published, req) {
      forall s' | DeltaStep(cfg, s, id, d, o, s')
        ensures s'.active.Some? && Chosen(eng, s'.active.value.routes, req) == Chosen(eng, published, req)
      {
        OnlyOrderPossible(cfg, h, s, id, d, o, s');
      }
    } else {
      var order :| SameRoutes(order, published) && Chosen(eng, order, req) != Chosen(eng, published, req);
      var s' := AnyOrderPossible(cfg, h, s, id, d, o, order);
    }
  }

  // ---------------------------------------------------------------- such a run

  ghost function PlainRoute(id: string, upstream: string): ProtoRoute {
    ProtoRoute(id, "/", false, "*", map[], upstream, 0)
  }

  /** Two routes for the same path, published twice. */
  ghost function Doubled(): Published {
    Published([PlainRoute("a", "x"), PlainRoute("b", "y")], [])
  }

  lemma PlainRouteWins(eng: Engine, id: string, upstream: string, req: Request)
    requires req.path == "/"
    ensures Candidate(eng, Exact("*", "/"), ConvertRoute(PlainRoute(id, upstream)), req)
    ensures !InBucket(eng, Exact("GET", "/"), ConvertRoute(PlainRoute(id, upstream)))
  {
    assert "/"[0] == '/' && "^"[0] == '^';
    assert "*"[0] == '*' && "GET"[0] == 'G';
  }

  lemma DoubledHasTwoWinners(eng: Engine, req: Request)
    requires req.path == "/" && req.method_ == "GET"
    ensures UniqueIds(ConvertRoutes(Doubled().routes))
    ensures !OneWinner(eng, ConvertRoutes(Doubled().routes), req)
  {
    var routes := ConvertRoutes(Doubled().routes);
    var a, b := ConvertRoute(PlainRoute("a", "x")), ConvertRoute(PlainRoute("b", "y"));
    assert routes == [a, b];
    assert a.id[0] != b.id[0];
    PlainRouteWins(eng, "a", "x", req);
    PlainRouteWins(eng, "b", "y", req);
    assert "*"[0] == '*' && "GET"[0] == 'G' && NormalizeMethod(eng, "GET") == "GET" != "*";
    assert Candidates(eng, Exact("GET", "/"), routes, req) == {};
    assert routes[0] == a && routes[1] == b;
    assert a in Candidates(eng, Exact("*", "/"), routes, req) && b in Candidates(eng, Exact("*", "/"), routes, req);
    assert Winners(eng, routes, req) == Candidates(eng, Exact("*", "/"), routes, req);
  }

  /** The node after the snapshot of version 1. */
  ghost function Began(cfg: NodeConfig, o: Surroundings): NodeState {
    Answer(Adopt(cfg, InitialNode, Snapshot(1, 0, ConvertRoutes(Doubled().routes), UpstreamMap([])), o.lkgSaved), Ack(1))
  }

  ghost function FirstSnapshot(): ProtoSnapshot {
    ProtoSnapshot(1, Some(0), Doubled().routes, [], [])
  }

  ghost function Unchanged(): Delta {
    Delta(1, 2, [], [], [], [], [])
  }

  lemma UnchangedIsApplicable(cfg: NodeConfig, o: Surroundings, h: History)
    requires !cfg.hasKey && o.consumerOk && h == map[1 := Doubled(), 2 := Doubled()]
    requires UniqueIds(ConvertRoutes(Doubled().routes))
    ensures SnapshotStep(cfg, InitialNode, "m", FirstSnapshot(), o, Began(cfg, o))
    ensures UniquelyNamed(h) && CutDelta(h, Unchanged())
    ensures Applicable(cfg, h, Began(cfg, o), "m", Unchanged(), o)
  {
    assert ':' !in "m" by {
      assert "m"[0] == 'm';
    }
    assert ConvertRoutes([]) == [];
    assert Faithful(h, Began(cfg, o).active.value);
  }

  /** A snapshot and then a delta, both delivered. */
  lemma TwoMessages(cfg: NodeConfig, h: History, p: ProtoSnapshot, d: Delta, o: Surroundings, s1: NodeState,
      s2: NodeState)
    returns (events: seq<Event>, states: seq<NodeState>)
    requires SnapshotStep(cfg, InitialNode, "m", p, o, s1) && DeltaStep(cfg, s1, "m", d, o, s2)
    requires CutSnapshot(h, p) && CutDelta(h, d)
    ensures Run(cfg, events, states) && states == [InitialNode, s1, s2] && Schedule(cfg, h, events) && |events| == 2
  {
    var first := Deliver(ControlMessage("m", SnapshotPayload(p)), o);
    var second := Deliver(ControlMessage("m", DeltaPayload(d)), o);
    events, states := [first, second], [InitialNode, s1, s2];
    assert Next(cfg, InitialNode, first, s1) && Next(cfg, s1, second, s2);
  }

  lemma OtherRouteWins(eng: Engine, cfg: NodeConfig, h: History, req: Request, o: Surroundings) returns (s2: NodeState)
    requires !cfg.hasKey && o.consumerOk && req.path == "/" && req.method_ == "GET"
    requires h == map[1 := Doubled(), 2 := Doubled()]
    ensures SnapshotStep(cfg, InitialNode, "m", FirstSnapshot(), o, Began(cfg, o))
    ensures UniquelyNamed(h) && CutDelta(h, Unchanged())
    ensures DeltaStep(cfg, Began(cfg, o), "m", Unchanged(), o, s2) && s2.active.Some? && s2.version == 2
    ensures Chosen(eng, s2.active.value.routes, req) != Chosen(eng, ConvertRoutes(Doubled().routes), req)
  {
    DoubledHasTwoWinners(eng, req);
    UnchangedIsApplicable(cfg, o, h);
    var s1, d := Began(cfg, o), Unchanged();
    DeltaAnswersIff(eng, cfg, h, s1, "m", d, o, req);
    s2 :| DeltaStep(cfg, s1, "m", d, o, s2)
          && !(s2.active.Some? && Chosen(eng, s2.active.value.routes, req) == Chosen(eng, Target(h, d), req));
    OnlyOrderPossible(cfg, h, s1, "m", d, o, s2);
  }

  /** A snapshot and a delta without changes after which GET / is answered by the other route. */
  lemma DeltaReorders(eng: Engine, cfg: NodeConfig, req: Request, o: Surroundings)
    returns (h: History, events: seq<Event>, states: seq<NodeState>)
    requires !cfg.hasKey && o.consumerOk && req.path == "/" && req.method_ == "GET"
    ensures Run(cfg, events, states) && states[0] == InitialNode && Schedule(cfg, h, events) && UniquelyNamed(h)
    ensures |events| == 2 && states[2].active.Some? && states[2].version in h
    ensures Chosen(eng, states[2].active.value.routes, req) != Chosen(eng, ConvertRoutes(h[states[2].version].routes), req)
  {
    h := map[1 := Doubled(), 2 := Doubled()];
    var s1, d := Began(cfg, o), Unchanged();
    var s2 := OtherRouteWins(eng, cfg, h, req, o);
    events, states := TwoMessages(cfg, h, FirstSnapshot(), d, o, s1, s2);
  }
}
