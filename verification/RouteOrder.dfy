/**
 Route order. A delta leaves the routes in an unspecified order, so what matters is which routes
 could win under some order, and when there is at most one.
 */
module RouteOrder {
  import opened Common
  import opened Config
  import opened Router
  import Control
  import ControlHistory

  ghost predicate SameRoutes(a: seq<RouteRule>, b: seq<RouteRule>) {
    multiset(a) == multiset(b)
  }

  /** The rule a request is sent to, if any. */
  ghost function Chosen(eng: Engine, routes: seq<RouteRule>, req: Request): Option<RouteRule> {
    var i := Scan(eng, routes, req);
    if i.Some? && i.value < |routes| then Some(routes[i.value]) else None
  }

  ghost function Candidates(eng: Engine, b: Bucket, routes: seq<RouteRule>, req: Request): set<RouteRule> {
    set r | r in routes && Candidate(eng, b, r, req)
  }

  /** All candidates of the first tier that has any. */
  ghost function Winners(eng: Engine, routes: seq<RouteRule>, req: Request): set<RouteRule> {
    var m := NormalizeMethod(eng, req.method_);
    var exact := Candidates(eng, Exact(m, req.path), routes, req);
    var anyMethod := if m != "*" then Candidates(eng, Exact("*", req.path), routes, req) else {};
    var prefix := LongestPrefix(routes, |routes|, req.path);
    var underPrefix := if prefix.Some? then Candidates(eng, Prefix(prefix.value), routes, req) else {};
    if exact != {} then exact
    else if anyMethod != {} then anyMethod
    else if underPrefix != {} then underPrefix
    else Candidates(eng, Regex, routes, req)
  }

  /** The first of a bucket exists exactly when the bucket has candidates, and is one of them. */
  lemma FirstIsCandidate(eng: Engine, b: Bucket, routes: seq<RouteRule>, req: Request)
    ensures var i := FirstOf(eng, b, routes, |routes|, req);
            var c := Candidates(eng, b, routes, req);
            if i.Some? then routes[i.value] in c else c == {}
  {
    var i := FirstOf(eng, b, routes, |routes|, req);
    var c := Candidates(eng, b, routes, req);
    if i.Some? {
      assert routes[i.value] in routes;
    }
  }

  lemma ScanInRange(eng: Engine, routes: seq<RouteRule>, req: Request)
    ensures Scan(eng, routes, req).Some? ==> Scan(eng, routes, req).value < |routes|
  {
  }

  /** Under any order the chosen route is a winner. */
  lemma ChosenIsWinner(eng: Engine, routes: seq<RouteRule>, req: Request)
    ensures var c := Chosen(eng, routes, req);
            if c.Some? then c.value in Winners(eng, routes, req) else Winners(eng, routes, req) == {}
  {
    var m := NormalizeMethod(eng, req.method_);
    FirstIsCandidate(eng, Exact(m, req.path), routes, req);
    FirstIsCandidate(eng, Exact("*", req.path), routes, req);
    var prefix := LongestPrefix(routes, |routes|, req.path);
    if prefix.Some? {
      FirstIsCandidate(eng, Prefix(prefix.value), routes, req);
    }
    FirstIsCandidate(eng, Regex, routes, req);
  }

  lemma SameMembers(a: seq<RouteRule>, b: seq<RouteRule>, r: RouteRule)
    requires SameRoutes(a, b)
    ensures r in a <==> r in b
  {
    assert r in a <==> r in multiset(a);
    assert r in b <==> r in multiset(b);
  }

  lemma SamePrefixPath(a: seq<RouteRule>, b: seq<RouteRule>, p: string)
    requires SameRoutes(a, b) && IsPrefixPath(a, p)
    ensures IsPrefixPath(b, p)
  {
    var i :| 0 <= i < |a| && a[i].pathPrefix && a[i].path == p;
    SameMembers(a, b, a[i]);
    var j :| 0 <= j < |b| && b[j] == a[i];
  }

  lemma SameLongestPrefix(a: seq<RouteRule>, b: seq<RouteRule>, path: string)
    requires SameRoutes(a, b)
    ensures LongestPrefix(a, |a|, path) == LongestPrefix(b, |b|, path)
  {
    var p, q := LongestPrefix(a, |a|, path), LongestPrefix(b, |b|, path);
    if p.Some? {
      LongestCarries(a, b, path, p.value);
    } else if q.Some? {
      LongestCarries(b, a, path, q.value);
    }
  }

  lemma LongestCarries(a: seq<RouteRule>, b: seq<RouteRule>, path: string, p: string)
    requires SameRoutes(a, b) && LongestPrefix(a, |a|, path) == Some(p)
    ensures LongestPrefix(b, |b|, path) == Some(p)
  {
    assert IsPrefixPath(a, p);
    SamePrefixPath(a, b, p);
    forall q | IsPrefixPath(b, q) && q <= path
      ensures |q| <= |p|
    {
      SamePrefixPath(b, a, q);
    }
    LongestUnique(b, path, p);
  }

  lemma SameCandidates(eng: Engine, b: Bucket, x: seq<RouteRule>, y: seq<RouteRule>, req: Request)
    requires SameRoutes(x, y)
    ensures Candidates(eng, b, x, req) == Candidates(eng, b, y, req)
  {
    forall r
      ensures r in x <==> r in y
    {
      SameMembers(x, y, r);
    }
  }

  /** Winners do not depend on the order of the routes. */
  lemma SameWinners(eng: Engine, a: seq<RouteRule>, b: seq<RouteRule>, req: Request)
    requires SameRoutes(a, b)
    ensures Winners(eng, a, req) == Winners(eng, b, req)
  {
    var m := NormalizeMethod(eng, req.method_);
    SameCandidates(eng, Exact(m, req.path), a, b, req);
    SameCandidates(eng, Exact("*", req.path), a, b, req);
    SameLongestPrefix(a, b, req.path);
    var prefix := LongestPrefix(a, |a|, req.path);
    if prefix.Some? {
      SameCandidates(eng, Prefix(prefix.value), a, b, req);
    }
    SameCandidates(eng, Regex, a, b, req);
  }

  /** A candidate at the head of the list is the first of its bucket. */
  lemma {:induction false} HeadIsFirst(eng: Engine, b: Bucket, routes: seq<RouteRule>, k: nat, req: Request)
    requires 0 < k <= |routes| && Candidate(eng, b, routes[0], req)
    ensures FirstOf(eng, b, routes, k, req) == Some(0)
  {
    if k > 1 {
      HeadIsFirst(eng, b, routes, k - 1, req);
    }
  }

  /** A winner at the head of the list is chosen. */
  lemma HeadWins(eng: Engine, order: seq<RouteRule>, req: Request)
    requires |order| > 0 && order[0] in Winners(eng, order, req)
    ensures Scan(eng, order, req) == Some(0)
  {
    var m := NormalizeMethod(eng, req.method_);
    var prefix := LongestPrefix(order, |order|, req.path);
    FirstIsCandidate(eng, Exact(m, req.path), order, req);
    if Candidates(eng, Exact(m, req.path), order, req) != {} {
      HeadIsFirst(eng, Exact(m, req.path), order, |order|, req);
      return;
    }
    FirstIsCandidate(eng, Exact("*", req.path), order, req);
    if m != "*" && Candidates(eng, Exact("*", req.path), order, req) != {} {
      HeadIsFirst(eng, Exact("*", req.path), order, |order|, req);
      return;
    }
    if prefix.Some? {
      FirstIsCandidate(eng, Prefix(prefix.value), order, req);
      if Candidates(eng, Prefix(prefix.value), order, req) != {} {
        HeadIsFirst(eng, Prefix(prefix.value), order, |order|, req);
        return;
      }
    }
    HeadIsFirst(eng, Regex, order, |order|, req);
  }

  /** Every winner wins under some order: put it first. */
  lemma WinnerCanWin(eng: Engine, routes: seq<RouteRule>, req: Request, w: RouteRule)
    returns (order: seq<RouteRule>)
    requires w in Winners(eng, routes, req)
    ensures SameRoutes(order, routes) && Chosen(eng, order, req) == Some(w)
  {
    var i :| 0 <= i < |routes| && routes[i] == w;
    order := [w] + routes[..i] + routes[i + 1..];
    assert routes == routes[..i] + [w] + routes[i + 1..];
    SameWinners(eng, order, routes, req);
    HeadWins(eng, order, req);
  }

  /** No two distinct rules can win the request. */
  ghost predicate OneWinner(eng: Engine, routes: seq<RouteRule>, req: Request) {
    forall v, w | v in Winners(eng, routes, req) && w in Winners(eng, routes, req) :: v == w
  }

  /** All orders send a request to the same rule exactly when no two distinct rules can win it. */
  lemma OrderIrrelevantIff(eng: Engine, routes: seq<RouteRule>, req: Request)
    ensures (forall order | SameRoutes(order, routes) :: Chosen(eng, order, req) == Chosen(eng, routes, req))
            <==> OneWinner(eng, routes, req)
  {
    if forall v, w | v in Winners(eng, routes, req) && w in Winners(eng, routes, req) :: v == w {
      forall order | SameRoutes(order, routes)
        ensures Chosen(eng, order, req) == Chosen(eng, routes, req)
      {
        SameWinners(eng, order, routes, req);
        ChosenIsWinner(eng, order, req);
        ChosenIsWinner(eng, routes, req);
      }
    } else {
      var v, w :| v in Winners(eng, routes, req) && w in Winners(eng, routes, req) && v != w;
      var vFirst := WinnerCanWin(eng, routes, req, v);
      var wFirst := WinnerCanWin(eng, routes, req, w);
    }
  }

  /** Exact routes differ in method or path, prefix routes in prefix, and there are no regex routes. */
  ghost predicate DistinctKeys(eng: Engine, routes: seq<RouteRule>) {
    && (forall r | r in routes :: !IsRegexPath(eng, r.path))
    && (forall r, q | r in routes && q in routes && !r.pathPrefix && !q.pathPrefix
                      && NormalizeMethod(eng, r.method_) == NormalizeMethod(eng, q.method_) && r.path == q.path :: r == q)
    && (forall r, q | r in routes && q in routes && r.pathPrefix && q.pathPrefix && r.path == q.path :: r == q)
  }

  lemma OneCandidatePerBucket(eng: Engine, b: Bucket, routes: seq<RouteRule>, req: Request, v: RouteRule, w: RouteRule)
    requires DistinctKeys(eng, routes)
    requires v in Candidates(eng, b, routes, req) && w in Candidates(eng, b, routes, req)
    ensures v == w
  {
  }

  lemma DistinctKeysOneWinner(eng: Engine, routes: seq<RouteRule>, req: Request)
    requires DistinctKeys(eng, routes)
    ensures OneWinner(eng, routes, req)
  {
    forall v, w | v in Winners(eng, routes, req) && w in Winners(eng, routes, req)
      ensures v == w
    {
      var m := NormalizeMethod(eng, req.method_);
      var prefix := LongestPrefix(routes, |routes|, req.path);
      var b :| b in {Exact(m, req.path), Exact("*", req.path), Prefix(if prefix.Some? then prefix.value else ""), Regex}
               && v in Candidates(eng, b, routes, req) && w in Candidates(eng, b, routes, req);
      OneCandidatePerBucket(eng, b, routes, req, v, w);
    }
  }

  /** With distinct keys every order routes every request identically. */
  lemma DistinctKeysOrderIrrelevant(eng: Engine, routes: seq<RouteRule>, order: seq<RouteRule>, req: Request)
    requires DistinctKeys(eng, routes) && SameRoutes(order, routes)
    ensures Chosen(eng, order, req) == Chosen(eng, routes, req)
  {
    DistinctKeysOneWinner(eng, routes, req);
    OrderIrrelevantIff(eng, routes, req);
  }

  // ---------------------------------------------------------------- from publication to routing

  /** What the gateway answers a request with, apart from the position of the route. */
  ghost function Routed(eng: Engine, routes: seq<RouteRule>, upstreams: map<string, UpstreamCluster>, req: Request,
      counter: nat)
    : Option<MatchResult>
  {
    var i := Scan(eng, routes, req);
    if i.Some? && i.value < |routes|
    then Some(Result(CompileRoute(eng, Snapshot(0, 0, routes, upstreams), i.value), counter).(routeIndex := 0))
    else None
  }

  lemma ResultFromRule(eng: Engine, a: seq<RouteRule>, i: nat, b: seq<RouteRule>, j: nat, upstreams: map<string,
      UpstreamCluster>, counter: nat)
    requires i < |a| && j < |b| && a[i] == b[j]
    ensures Result(CompileRoute(eng, Snapshot(0, 0, a, upstreams), i), counter).(routeIndex := 0)
            == Result(CompileRoute(eng, Snapshot(0, 0, b, upstreams), j), counter).(routeIndex := 0)
  {
  }

  /** End to end: for every delivery schedule the node answers each request exactly as the
      published configuration of its version would, in whatever order its routes are, provided
      that configuration names its routes uniquely and no two of them can win the request. */
  lemma GatewayRoutesAsPublished(
    cfg: Control.NodeConfig, h: ControlHistory.History, events: seq<Control.Event>, states: seq<Control.NodeState>, i: nat,
    eng: Engine, req: Request, counter: nat)
    requires ControlHistory.Run(cfg, events, states) && states[0] == Control.InitialNode
    requires ControlHistory.Schedule(cfg, h, events) && ControlHistory.UniquelyNamed(h)
    requires i < |states| && states[i].active.Some?
    requires states[i].version in h ==> OneWinner(eng, Control.ConvertRoutes(h[states[i].version].routes), req)
    ensures var v := states[i].version;
            && v in h
            && Routed(eng, states[i].active.value.routes, states[i].active.value.upstreams, req, counter)
               == Routed(eng, Control.ConvertRoutes(h[v].routes), Control.UpstreamMap(h[v].upstreams), req, counter)
  {
    ControlHistory.ServesPublishedConfig(cfg, h, events, states, i);
    var served := states[i].active.value.routes;
    var published := Control.ConvertRoutes(h[states[i].version].routes);
    OrderIrrelevantIff(eng, published, req);
    assert SameRoutes(served, published);
    var a, b := Scan(eng, served, req), Scan(eng, published, req);
    ScanInRange(eng, served, req);
    ScanInRange(eng, published, req);
    if a.Some? {
      ResultFromRule(eng, served, a.value, published, b.value, states[i].active.value.upstreams, counter);
    }
  }

  /** A route sent by the control plane is served as sent: never split, to its own upstream. Its
      timeout survives the trip from milliseconds to a duration and back exactly when the duration
      fits 64 bits. */
  lemma ServedAsSent(eng: Engine, upstreams: map<string, UpstreamCluster>, p: Control.ProtoRoute, counter: nat)
    ensures var cr := CompileRoute(eng, Snapshot(0, 0, [Control.ConvertRoute(p)], upstreams), 0);
            var res := Result(cr, counter);
            && NextCounter(cr, counter) == counter
            && res.upstream == (if p.upstreamId != "" then Some(Resolve(upstreams, p.upstreamId)) else None)
            && res.rule.id == p.id && res.rule.path == p.path && res.rule.pathPrefix == p.pathPrefix
            && res.rule.method_ == p.method_ && res.rule.headers == p.headers
            && (res.totalTimeoutMs == p.timeoutMs
                <==> -0x8000_0000_0000_0000 <= p.timeoutMs * 1_000_000 < 0x8000_0000_0000_0000)
  {
    assert Pool(upstreams, []) == [];
  }
}
