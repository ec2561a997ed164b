/** Configuration values shared by the control-plane client and the router. */
module Config {
  import opened Common

  datatype WeightedUpstream = WeightedUpstream(upstreamID: string, weight: int)

  datatype RetryPolicy = RetryPolicy(maxRetries: int, perTryTimeout: int, backoff: int)

  datatype RouteRule = RouteRule(
    id: string,
    host: string,
    path: string,
    pathPrefix: bool,
    method_: string,
    headers: map<string, string>,
    claims: map<string, string>,
    upstreamID: string,
    weightedUpstreams: seq<WeightedUpstream>,
    retryPolicy: Option<RetryPolicy>,
    timeout: int)

  datatype UpstreamCluster = UpstreamCluster(
    id: string, protocol: string, endpoints: seq<string>, timeout: int, maxConns: int)

  datatype Snapshot = Snapshot(
    version: nat, timestamp: int, routes: seq<RouteRule>, upstreams: map<string, UpstreamCluster>)

  /** Routes keyed by id; a later route replaces an earlier one with the same id. */
  function RouteMap(routes: seq<RouteRule>): map<string, RouteRule> {
    if |routes| == 0 then map[]
    else
      var last := routes[|routes| - 1];
      RouteMap(routes[..|routes| - 1])[last.id := last]
  }

  ghost predicate UniqueIds(routes: seq<RouteRule>) {
    forall i, j | 0 <= i < j < |routes| :: routes[i].id != routes[j].id
  }

  lemma RouteMapAppend(routes: seq<RouteRule>, r: RouteRule)
    ensures RouteMap(routes + [r]) == RouteMap(routes)[r.id := r]
  {
    assert (routes + [r])[..|routes|] == routes;
  }

  /** With unique ids the map holds exactly the listed routes. */
  lemma {:induction false} RouteMapMembers(routes: seq<RouteRule>)
    ensures forall k | k in RouteMap(routes) :: RouteMap(routes)[k].id == k && RouteMap(routes)[k] in routes
    ensures forall r | r in routes :: r.id in RouteMap(routes)
    ensures UniqueIds(routes) ==> forall r | r in routes :: RouteMap(routes)[r.id] == r
  {
    if |routes| > 0 {
      var init := routes[..|routes| - 1];
      RouteMapMembers(init);
      assert routes == init + [routes[|routes| - 1]];
    }
  }

  /** Two lists with unique ids and the same route map are permutations of each other. */
  lemma SameMapSameRoutes(a: seq<RouteRule>, b: seq<RouteRule>)
    requires UniqueIds(a) && UniqueIds(b)
    requires RouteMap(a) == RouteMap(b)
    ensures multiset(a) == multiset(b)
  {
    RouteMapMembers(a);
    RouteMapMembers(b);
    forall r
      ensures multiset(a)[r] == multiset(b)[r]
    {
      UniqueOnce(a, r);
      UniqueOnce(b, r);
    }
  }

  lemma {:induction false} UniqueOnce(routes: seq<RouteRule>, r: RouteRule)
    requires UniqueIds(routes)
    ensures multiset(routes)[r] == if r in routes then 1 else 0
  {
    if |routes| > 0 {
      var init := routes[..|routes| - 1];
      var last := routes[|routes| - 1];
      assert routes == init + [last];
      UniqueOnce(init, r);
    }
  }
}
