/**
 The compiled router: exact tables by method and path, a list of prefix nodes and a list of
 regex routes, against a plain scan of the snapshot's route list. Regular expressions and case
 mapping are oracles, so every result holds for any regex engine and any alphabet.
 */
module Router {
  import opened Common
  import opened Config

  datatype Engine = Engine(
    compiles: string -> bool,
    matches: (string, string) -> bool,
    lower: string -> string,
    upper: string -> string,
    equalFold: (string, string) -> bool)

  /** A request; `header` is the canonicalising lookup of an http.Header, "" when absent. */
  datatype Request = Request(
    host: string, method_: string, path: string,
    headers: Option<map<string, string>>, header: Option<string -> string>,
    claims: Option<map<string, string>>)

  datatype WeightedTarget = WeightedTarget(upstream: UpstreamCluster, weight: int)

  /** A route with its regexes resolved once; `index` is its position in the route list. */
  datatype CompiledRoute = CompiledRoute(
    index: nat, rule: RouteRule,
    upstream: Option<UpstreamCluster>, weightedPool: seq<WeightedTarget>, totalWeight: int,
    hostRegex: Option<string>, pathRegex: Option<string>,
    headerRegexes: map<string, string>, claimRegexes: map<string, string>)

  datatype PathNode = PathNode(prefix: string, routes: seq<CompiledRoute>)

  datatype MatchResult = MatchResult(
    routeIndex: nat, rule: RouteRule, upstream: Option<UpstreamCluster>,
    retryPolicy: Option<RetryPolicy>, totalTimeoutMs: int)

  // ---------------------------------------------------------------- text rules

  function NormalizeMethod(eng: Engine, m: string): string {
    if m in {"GET", "POST", "PUT", "DELETE", "PATCH", "HEAD", "OPTIONS", "*"} then m
    else if m == "" then "*"
    else eng.upper(m)
  }

  function BeforePort(host: string): string {
    if |host| == 0 || host[0] == ':' then "" else [host[0]] + BeforePort(host[1..])
  }

  function NormalizeHost(eng: Engine, host: string): string {
    if host == "" then "*" else eng.lower(BeforePort(host))
  }

  predicate HasSuffix(s: string, suffix: string) {
    |suffix| <= |s| && s[|s| - |suffix|..] == suffix
  }

  predicate MatchHost(eng: Engine, pattern: string, host: string) {
    var p := NormalizeHost(eng, pattern);
    var h := NormalizeHost(eng, host);
    p == h || p == "*" || p == "" || ("*." <= p && HasSuffix(h, p[1..]))
  }

  lemma {:induction false} BeforePortStops(host: string, port: string)
    ensures BeforePort(host + ":" + port) == BeforePort(host)
  {
    if |host| > 0 {
      assert (host + ":" + port)[1..] == host[1..] + ":" + port;
      BeforePortStops(host[1..], port);
    }
  }

  /** A port on the request's host never changes whether a host pattern fits it. */
  lemma PortIgnored(eng: Engine, pattern: string, host: string, port: string)
    requires host != ""
    ensures MatchHost(eng, pattern, host + ":" + port) == MatchHost(eng, pattern, host)
  {
    BeforePortStops(host, port);
  }

  /** A path written as a regex that also compiles as one. */
  predicate IsRegexPath(eng: Engine, path: string) {
    ("^" <= path || '(' in path) && eng.compiles(path)
  }

  /** A value written as a regex that also compiles as one. */
  predicate IsRegexValue(eng: Engine, v: string) {
    "^" <= v && eng.compiles(v)
  }

  // ---------------------------------------------------------------- what a rule asks of a request

  function HeaderValue(eng: Engine, req: Request, k: string): Option<string> {
    if req.header.Some? then
      var v := req.header.value(k);
      if v != "" then Some(v)
      else
        var w := req.header.value(eng.lower(k));
        if w != "" then Some(w) else None
    else if req.headers.Some? then
      if k in req.headers.value then Some(req.headers.value[k])
      else if eng.lower(k) in req.headers.value then Some(req.headers.value[eng.lower(k)])
      else None
    else None
  }

  function ClaimValue(req: Request, k: string): Option<string> {
    if req.claims.Some? && k in req.claims.value then Some(req.claims.value[k]) else None
  }

  /** A value against what the rule expects: as a regex when it is one, literally otherwise. */
  predicate ValueFits(eng: Engine, expected: string, actual: Option<string>) {
    actual.Some? && if IsRegexValue(eng, expected) then eng.matches(expected, actual.value) else actual.value == expected
  }

  /** The rule's conditions on host, method, headers and claims, read off the rule itself. */
  predicate RuleAccepts(eng: Engine, rule: RouteRule, req: Request) {
    && (rule.host == "" || rule.host == "*"
        || if IsRegexValue(eng, rule.host) then eng.matches(rule.host, req.host) else MatchHost(eng, rule.host, req.host))
    && (rule.method_ == "" || rule.method_ == "*" || eng.equalFold(rule.method_, req.method_))
    && HeadersFit(eng, rule.headers, req)
    && ClaimsFit(eng, rule.claims, req)
  }

  predicate HeadersFit(eng: Engine, headers: map<string, string>, req: Request) {
    forall k | k in headers :: ValueFits(eng, headers[k], HeaderValue(eng, req, k))
  }

  predicate ClaimsFit(eng: Engine, claims: map<string, string>, req: Request) {
    forall k | k in claims :: ValueFits(eng, claims[k], ClaimValue(req, k))
  }

  /** The same conditions as the compiled route checks them, with its precompiled regexes. */
  predicate MatchesCriteria(eng: Engine, cr: CompiledRoute, req: Request) {
    && (cr.rule.host == "" || cr.rule.host == "*"
        || match cr.hostRegex
           case Some(re) => eng.matches(re, req.host)
           case None => MatchHost(eng, cr.rule.host, req.host))
    && (cr.rule.method_ == "" || cr.rule.method_ == "*" || eng.equalFold(cr.rule.method_, req.method_))
    && MatchesHeaders(eng, cr.rule.headers, cr.headerRegexes, req)
    && MatchesClaims(eng, cr.rule.claims, cr.claimRegexes, req)
  }

  predicate MatchesHeaders(eng: Engine, headers: map<string, string>, regexes: map<string, string>, req: Request) {
    && (|headers| > 0 ==> req.header.Some? || req.headers.Some?)
    && (forall k | k in headers ::
          var v := HeaderValue(eng, req, k);
          v.Some? && if k in regexes then eng.matches(regexes[k], v.value) else v.value == headers[k])
  }

  predicate MatchesClaims(eng: Engine, claims: map<string, string>, regexes: map<string, string>, req: Request) {
    && (|claims| > 0 ==> req.claims.Some?)
    && (forall k | k in claims ::
          var v := ClaimValue(req, k);
          v.Some? && if k in regexes then eng.matches(regexes[k], v.value) else v.value == claims[k])
  }

  // ---------------------------------------------------------------- the plain scan

  /** The tier a route belongs to. A regex route may also be a prefix route. */
  datatype Bucket = Exact(method_: string, path: string) | Prefix(path: string) | Regex

  predicate InBucket(eng: Engine, b: Bucket, r: RouteRule) {
    match b
    case Exact(m, p) => !r.pathPrefix && !IsRegexPath(eng, r.path) && NormalizeMethod(eng, r.method_) == m && r.path == p
    case Prefix(p) => r.pathPrefix && r.path == p
    case Regex => IsRegexPath(eng, r.path)
  }

  predicate Candidate(eng: Engine, b: Bucket, r: RouteRule, req: Request) {
    InBucket(eng, b, r) && (b.Regex? ==> eng.matches(r.path, req.path)) && RuleAccepts(eng, r, req)
  }

  /** The first candidate of a bucket among the first k routes. */
  function FirstOf(eng: Engine, b: Bucket, routes: seq<RouteRule>, k: nat, req: Request): (i: Option<nat>)
    requires k <= |routes|
    ensures i.Some? ==> i.value < k && Candidate(eng, b, routes[i.value], req)
    ensures i.Some? ==> forall j | 0 <= j < i.value :: !Candidate(eng, b, routes[j], req)
    ensures i.None? ==> forall j | 0 <= j < k :: !Candidate(eng, b, routes[j], req)
  {
    if k == 0 then None
    else
      var before := FirstOf(eng, b, routes, k - 1, req);
      if before.Some? then before
      else if Candidate(eng, b, routes[k - 1], req) then Some(k - 1)
      else None
  }

  /** The longest prefix of the path that some prefix route names. */
  function LongestPrefix(routes: seq<RouteRule>, k: nat, path: string): (p: Option<string>)
    requires k <= |routes|
    ensures p.Some? ==> p.value <= path && exists i :: 0 <= i < k && routes[i].pathPrefix && routes[i].path == p.value
    ensures p.Some? ==>
              forall i | 0 <= i < k && routes[i].pathPrefix && routes[i].path <= path :: |routes[i].path| <= |p.value|
    ensures p.None? ==> forall i | 0 <= i < k && routes[i].pathPrefix :: !(routes[i].path <= path)
  {
    if k == 0 then None
    else
      var before := LongestPrefix(routes, k - 1, path);
      var r := routes[k - 1];
      if r.pathPrefix && r.path <= path && (before.None? || |r.path| > |before.value|)
      then assert routes[k - 1].pathPrefix; Some(r.path)
      else before
  }

  /** Where a request goes: the first exact route for its method, else the first exact route for
      any method, else the first route under the longest matching prefix (shorter prefixes are
      not tried), else the first regex route. */
  function Scan(eng: Engine, routes: seq<RouteRule>, req: Request): Option<nat> {
    var n := |routes|;
    var m := NormalizeMethod(eng, req.method_);
    var exact := FirstOf(eng, Exact(m, req.path), routes, n, req);
    var anyMethod := if m != "*" then FirstOf(eng, Exact("*", req.path), routes, n, req) else None;
    var prefix := LongestPrefix(routes, n, req.path);
    var underPrefix := if prefix.Some? then FirstOf(eng, Prefix(prefix.value), routes, n, req) else None;
    if exact.Some? then exact
    else if anyMethod.Some? then anyMethod
    else if underPrefix.Some? then underPrefix
    else FirstOf(eng, Regex, routes, n, req)
  }

  // ---------------------------------------------------------------- compiling one route

  function Resolve(upstreams: map<string, UpstreamCluster>, id: string): UpstreamCluster {
    if id in upstreams then upstreams[id] else UpstreamCluster(id, "http", [], 0, 0)
  }

  function Pool(upstreams: map<string, UpstreamCluster>, ws: seq<WeightedUpstream>): seq<WeightedTarget> {
    seq(|ws|, i requires 0 <= i < |ws| => WeightedTarget(Resolve(upstreams, ws[i].upstreamID), ws[i].weight))
  }

  function Weights(pool: seq<WeightedTarget>): seq<int> {
    seq(|pool|, i requires 0 <= i < |pool| => pool[i].weight)
  }

  function CompileRoute(eng: Engine, s: Snapshot, i: nat): CompiledRoute
    requires i < |s.routes|
  {
    var r := s.routes[i];
    var pool := Pool(s.upstreams, r.weightedUpstreams);
    CompiledRoute(
      i, r,
      if r.upstreamID != "" then Some(Resolve(s.upstreams, r.upstreamID))
      else if |pool| > 0 then Some(pool[0].upstream) else None,
      pool, Sum(Weights(pool)),
      if IsRegexValue(eng, r.host) then Some(r.host) else None,
      if IsRegexPath(eng, r.path) then Some(r.path) else None,
      Regexes(eng, r.headers),
      Regexes(eng, r.claims))
  }

  /** The expected values that are regexes. */
  function Regexes(eng: Engine, expected: map<string, string>): map<string, string> {
    map k | k in expected && IsRegexValue(eng, expected[k]) :: expected[k]
  }

  lemma CompiledHeaders(eng: Engine, headers: map<string, string>, req: Request)
    ensures MatchesHeaders(eng, headers, Regexes(eng, headers), req) <==> HeadersFit(eng, headers, req)
  {
    if |headers| > 0 {
      var k :| k in headers;
      assert req.header.None? && req.headers.None? ==> HeaderValue(eng, req, k).None?;
    }
  }

  lemma CompiledClaims(eng: Engine, claims: map<string, string>, req: Request)
    ensures MatchesClaims(eng, claims, Regexes(eng, claims), req) <==> ClaimsFit(eng, claims, req)
  {
    if |claims| > 0 {
      var k :| k in claims;
      assert req.claims.None? ==> ClaimValue(req, k).None?;
    }
  }

  /** Precompiling the regexes does not change which requests a route accepts. */
  lemma CompiledCriteria(eng: Engine, s: Snapshot, i: nat, req: Request)
    requires i < |s.routes|
    ensures MatchesCriteria(eng, CompileRoute(eng, s, i), req) <==> RuleAccepts(eng, s.routes[i], req)
  {
    var r := s.routes[i];
    CompiledHeaders(eng, r.headers, req);
    CompiledClaims(eng, r.claims, req);
  }

  // ---------------------------------------------------------------- what the tables hold

  /** The positions that are set, in increasing order. */
  ghost function Picks(member: seq<bool>): (picks: seq<nat>)
    ensures forall j | 0 <= j < |picks| :: picks[j] < |member| && member[picks[j]]
    ensures forall j, t | 0 <= j < t < |picks| :: picks[j] < picks[t]
    ensures forall i | 0 <= i < |member| && member[i] :: i in picks
  {
    if |member| == 0 then []
    else
      var n := |member| - 1;
      Picks(member[..n]) + if member[n] then [n] else []
  }

  ghost function Members(eng: Engine, b: Bucket, routes: seq<RouteRule>): seq<bool> {
    seq(|routes|, i requires 0 <= i < |routes| => InBucket(eng, b, routes[i]))
  }

  /** The compiled routes of a bucket, in list order, among the first k routes. */
  ghost function Picked(eng: Engine, s: Snapshot, k: nat, b: Bucket): (row: seq<CompiledRoute>)
    requires k <= |s.routes|
  {
    Compiled(eng, s, Picks(Members(eng, b, s.routes[..k])))
  }

  lemma PicksStep(member: seq<bool>, flag: bool)
    ensures Picks(member + [flag]) == Picks(member) + if flag then [|member|] else []
  {
    assert (member + [flag])[..|member|] == member;
  }

  ghost function Compiled(eng: Engine, s: Snapshot, picks: seq<nat>): seq<CompiledRoute>
    requires forall j | 0 <= j < |picks| :: picks[j] < |s.routes|
  {
    seq(|picks|, j requires 0 <= j < |picks| => CompileRoute(eng, s, picks[j]))
  }

  lemma CompiledStep(eng: Engine, s: Snapshot, picks: seq<nat>, k: nat)
    requires k < |s.routes| && forall j | 0 <= j < |picks| :: picks[j] < |s.routes|
    ensures Compiled(eng, s, picks + [k]) == Compiled(eng, s, picks) + [CompileRoute(eng, s, k)]
  {
  }

  lemma PickedStep(eng: Engine, s: Snapshot, k: nat, b: Bucket)
    requires k < |s.routes|
    ensures Picked(eng, s, k + 1, b)
            == Picked(eng, s, k, b) + if InBucket(eng, b, s.routes[k]) then [CompileRoute(eng, s, k)] else []
  {
    var member := Members(eng, b, s.routes[..k]);
    assert Members(eng, b, s.routes[..k + 1]) == member + [InBucket(eng, b, s.routes[k])];
    PicksStep(member, InBucket(eng, b, s.routes[k]));
    CompiledStep(eng, s, Picks(member), k);
  }

  predicate Accepts(eng: Engine, b: Bucket, cr: CompiledRoute, req: Request) {
    (b.Regex? ==> cr.pathRegex.Some? && eng.matches(cr.pathRegex.value, req.path)) && MatchesCriteria(eng, cr, req)
  }

  /** The first set position of a list, if there is one. */
  ghost predicate IsFirst(flags: seq<bool>, i: Option<nat>) {
    match i
    case None => forall j | 0 <= j < |flags| :: !flags[j]
    case Some(f) => f < |flags| && flags[f] && forall j | 0 <= j < f :: !flags[j]
  }

  /** The flags at the picked positions. */
  ghost function Through(flags: seq<bool>, picks: seq<nat>): seq<bool>
    requires forall t | 0 <= t < |picks| :: picks[t] < |flags|
  {
    seq(|picks|, t requires 0 <= t < |picks| => flags[picks[t]])
  }

  /** The first hit among the picked positions is the first hit of all. */
  lemma FirstAmongPicks(member: seq<bool>, hit: seq<bool>, i: Option<nat>, j: Option<nat>)
    requires |hit| == |member| && forall k | 0 <= k < |hit| && hit[k] :: member[k]
    requires IsFirst(hit, i)
    requires IsFirst(Through(hit, Picks(member)), j)
    ensures i.None? <==> j.None?
    ensures i.Some? ==> Picks(member)[j.value] == i.value
  {
    var picks := Picks(member);
    var hits := Through(hit, picks);
    if i.Some? {
      var t :| 0 <= t < |picks| && picks[t] == i.value;
      assert hits[t];
    }
    if j.Some? {
      assert hit[picks[j.value]];
    }
  }

  /** Which entries of a bucket's row accept, by position. */
  ghost function RowHits(eng: Engine, b: Bucket, row: seq<CompiledRoute>, req: Request): seq<bool> {
    seq(|row|, j requires 0 <= j < |row| => Accepts(eng, b, row[j], req))
  }

  lemma AcceptsIsCandidate(eng: Engine, s: Snapshot, b: Bucket, i: nat, req: Request)
    requires i < |s.routes| && InBucket(eng, b, s.routes[i])
    ensures Accepts(eng, b, CompileRoute(eng, s, i), req) == Candidate(eng, b, s.routes[i], req)
  {
    CompiledCriteria(eng, s, i, req);
  }

  /** Which routes of the list are candidates, by position. */
  ghost function ListHits(eng: Engine, b: Bucket, routes: seq<RouteRule>, req: Request): seq<bool> {
    seq(|routes|, i requires 0 <= i < |routes| => Candidate(eng, b, routes[i], req))
  }

  lemma RowHitsAreListHits(eng: Engine, s: Snapshot, b: Bucket, req: Request)
    ensures var picks := Picks(Members(eng, b, s.routes));
            var hit := ListHits(eng, b, s.routes, req);
            RowHits(eng, b, Picked(eng, s, |s.routes|, b), req) == Through(hit, picks)
  {
    assert s.routes[..|s.routes|] == s.routes;
    var picks := Picks(Members(eng, b, s.routes));
    forall t | 0 <= t < |picks|
      ensures Accepts(eng, b, CompileRoute(eng, s, picks[t]), req) == Candidate(eng, b, s.routes[picks[t]], req)
    {
      AcceptsIsCandidate(eng, s, b, picks[t], req);
    }
  }

  lemma FirstOfIsFirst(eng: Engine, s: Snapshot, b: Bucket, req: Request)
    ensures IsFirst(ListHits(eng, b, s.routes, req), FirstOf(eng, b, s.routes, |s.routes|, req))
  {
  }

  lemma PickedAll(eng: Engine, s: Snapshot, b: Bucket, j: nat)
    requires j < |Picks(Members(eng, b, s.routes))|
    ensures |Picked(eng, s, |s.routes|, b)| == |Picks(Members(eng, b, s.routes))|
    ensures Picked(eng, s, |s.routes|, b)[j] == CompileRoute(eng, s, Picks(Members(eng, b, s.routes))[j])
  {
    assert s.routes[..|s.routes|] == s.routes;
  }

  /** Walking a row is searching the route list for the bucket's first candidate. */
  lemma RowSearch(eng: Engine, s: Snapshot, b: Bucket, req: Request, j: Option<nat>)
    requires IsFirst(RowHits(eng, b, Picked(eng, s, |s.routes|, b), req), j)
    ensures var i := FirstOf(eng, b, s.routes, |s.routes|, req);
            && (i.None? <==> j.None?)
            && (i.Some? ==> Picked(eng, s, |s.routes|, b)[j.value] == CompileRoute(eng, s, i.value))
  {
    RowHitsAreListHits(eng, s, b, req);
    FirstOfIsFirst(eng, s, b, req);
    FirstAmongPicks(Members(eng, b, s.routes), ListHits(eng, b, s.routes, req),
                    FirstOf(eng, b, s.routes, |s.routes|, req), j);
    if j.Some? {
      PickedAll(eng, s, b, j.value);
    }
  }

  method FirstAccepting(eng: Engine, b: Bucket, row: seq<CompiledRoute>, req: Request) returns (j: Option<nat>)
    ensures IsFirst(RowHits(eng, b, row, req), j)
  {
    ghost var hits := RowHits(eng, b, row, req);
    for i := 0 to |row|
      invariant forall t | 0 <= t < i :: !hits[t]
    {
      if Accepts(eng, b, row[i], req) {
        return Some(i);
      }
    }
    return None;
  }

  function Row(lookup: map<string, map<string, seq<CompiledRoute>>>, m: string, p: string): seq<CompiledRoute> {
    if m in lookup && p in lookup[m] then lookup[m][p] else []
  }

  ghost predicate ExactTable(eng: Engine, s: Snapshot, k: nat, lookup: map<string, map<string, seq<CompiledRoute>>>)
    requires k <= |s.routes|
  {
    forall m: string, p: string :: Row(lookup, m, p) == Picked(eng, s, k, Exact(m, p))
  }

  /** One node per prefix, each holding the routes that name it, and a node for every prefix route. */
  ghost predicate PrefixNodes(eng: Engine, s: Snapshot, k: nat, nodes: seq<PathNode>)
    requires k <= |s.routes|
  {
    && (forall c | c in nodes :: c.routes == Picked(eng, s, k, Prefix(c.prefix)) && c.routes != [])
    && (forall i, j | 0 <= i < j < |nodes| :: nodes[i].prefix != nodes[j].prefix)
    && (forall i | 0 <= i < k && s.routes[i].pathPrefix :: exists c :: c in nodes && c.prefix == s.routes[i].path)
  }

  /** A prefix node is non-empty exactly when some prefix route names it. */
  lemma PickedSource(eng: Engine, s: Snapshot, k: nat, p: string)
    requires k <= |s.routes|
    ensures Picked(eng, s, k, Prefix(p)) != [] <==> exists i :: 0 <= i < k && s.routes[i].pathPrefix && s.routes[i].path == p
  {
    var member := Members(eng, Prefix(p), s.routes[..k]);
    var picks := Picks(member);
    if picks != [] {
      assert member[picks[0]];
    }
    forall i | 0 <= i < k && s.routes[i].pathPrefix && s.routes[i].path == p
      ensures picks != []
    {
      assert member[i];
    }
  }

  ghost predicate IsPrefixPath(routes: seq<RouteRule>, p: string) {
    exists i :: 0 <= i < |routes| && routes[i].pathPrefix && routes[i].path == p
  }

  lemma NodePrefixes(eng: Engine, s: Snapshot, nodes: seq<PathNode>, p: string)
    requires PrefixNodes(eng, s, |s.routes|, nodes)
    ensures (exists c :: c in nodes && c.prefix == p) <==> IsPrefixPath(s.routes, p)
  {
    if c :| c in nodes && c.prefix == p {
      PickedSource(eng, s, |s.routes|, p);
    }
  }

  /** Two prefixes of one text with the same length are the same. */
  lemma LongestUnique(routes: seq<RouteRule>, path: string, p: string)
    requires p <= path && IsPrefixPath(routes, p)
    requires forall q | IsPrefixPath(routes, q) && q <= path :: |q| <= |p|
    ensures LongestPrefix(routes, |routes|, path) == Some(p)
  {
    var longest := LongestPrefix(routes, |routes|, path);
    assert IsPrefixPath(routes, longest.value);
    assert p == path[..|p|] && longest.value == path[..|longest.value|];
  }

  /** The longest matching node is the longest matching prefix of the route list. */
  lemma LongestNode(eng: Engine, s: Snapshot, nodes: seq<PathNode>, path: string, best: Option<PathNode>)
    requires PrefixNodes(eng, s, |s.routes|, nodes)
    requires best.Some? ==> best.value in nodes && best.value.prefix <= path
    requires forall c | c in nodes && c.prefix <= path :: best.Some? && |c.prefix| <= |best.value.prefix|
    ensures LongestPrefix(s.routes, |s.routes|, path) == if best.Some? then Some(best.value.prefix) else None
  {
    forall q | IsPrefixPath(s.routes, q) && q <= path
      ensures best.Some? && |q| <= |best.value.prefix|
    {
      NodePrefixes(eng, s, nodes, q);
    }
    if best.Some? {
      NodePrefixes(eng, s, nodes, best.value.prefix);
      LongestUnique(s.routes, path, best.value.prefix);
    } else {
      assert forall i | 0 <= i < |s.routes| && s.routes[i].pathPrefix :: IsPrefixPath(s.routes, s.routes[i].path);
    }
  }

  // ---------------------------------------------------------------- the router object

  const UINT64: nat := 0x1_0000_0000_0000_0000

  /** The first target whose cumulative weight exceeds val. */
  function TargetFor(pool: seq<WeightedTarget>, val: int, i: nat, acc: int): Option<nat>
    requires i <= |pool|
    decreases |pool| - i
  {
    if i == |pool| then None
    else if val < acc + pool[i].weight then Some(i)
    else TargetFor(pool, val, i + 1, acc + pool[i].weight)
  }

  /** Go's integer division truncates toward zero. */
  function TruncDiv(a: int, b: int): int
    requires b > 0
  {
    if a >= 0 then a / b else -(-a / b)
  }

  predicate Splits(cr: CompiledRoute) {
    |cr.weightedPool| > 0 && cr.totalWeight > 0
  }

  function NextCounter(cr: CompiledRoute, counter: nat): nat {
    if Splits(cr) then (counter + 1) % UINT64 else counter
  }

  function Result(cr: CompiledRoute, counter: nat): MatchResult {
    var chosen :=
      if Splits(cr) then TargetFor(cr.weightedPool, counter % cr.totalWeight, 0, 0) else None;
    MatchResult(cr.index, cr.rule,
                if chosen.Some? && chosen.value < |cr.weightedPool|
                then Some(cr.weightedPool[chosen.value].upstream) else cr.upstream,
                cr.rule.retryPolicy, TruncDiv(cr.rule.timeout, 1_000_000))
  }

  class RouteTable {
    const eng: Engine
    ghost const snap: Snapshot
    var methodPathLookup: map<string, map<string, seq<CompiledRoute>>>
    var prefixNodes: seq<PathNode>
    var regexRoutes: seq<CompiledRoute>
    var counter: nat

    ghost predicate Holds(k: nat)
      requires k <= |snap.routes|
      reads this
    {
      && ExactTable(eng, snap, k, methodPathLookup)
      && PrefixNodes(eng, snap, k, prefixNodes)
      && regexRoutes == Picked(eng, snap, k, Regex)
      && counter < UINT64
    }

    ghost predicate Valid()
      reads this
    {
      Holds(|snap.routes|)
    }

    /** Compile: one pass over the routes, each going to its table. */
    constructor Compile(eng: Engine, s: Snapshot)
      ensures Valid() && this.eng == eng && snap == s && counter == 0
    {
      this.eng, snap := eng, s;
      methodPathLookup, prefixNodes, regexRoutes, counter := map[], [], [], 0;
      new;
      for i := 0 to |s.routes|
        invariant Holds(i) && counter == 0
      {
        AddRoute(i, CompileRoute(eng, s, i));
      }
    }

    method AddRoute(i: nat, cr: CompiledRoute)
      requires i < |snap.routes| && Holds(i) && cr == CompileRoute(eng, snap, i)
      modifies this
      ensures Holds(i + 1) && counter == old(counter)
    {
      var route := cr.rule;
      PickedStep(eng, snap, i, Regex);
      if cr.pathRegex.Some? {
        regexRoutes := regexRoutes + [cr];
      }
      if !route.pathPrefix && cr.pathRegex.None? {
        AddExactRoute(i, NormalizeMethod(eng, route.method_), cr);
      } else {
        ExactUntouched(eng, snap, i, methodPathLookup);
      }
      if route.pathPrefix {
        AddPrefixRoute(i, route.path, cr);
      } else {
        PrefixUntouched(eng, snap, i, prefixNodes);
      }
    }

    method AddExactRoute(ghost i: nat, methodKey: string, cr: CompiledRoute)
      requires i < |snap.routes| && cr == CompileRoute(eng, snap, i)
      requires ExactTable(eng, snap, i, methodPathLookup)
      requires InBucket(eng, Exact(methodKey, cr.rule.path), cr.rule)
      modifies this`methodPathLookup
      ensures ExactTable(eng, snap, i + 1, methodPathLookup)
    {
      var row := if methodKey in methodPathLookup then methodPathLookup[methodKey] else map[];
      var list := if cr.rule.path in row then row[cr.rule.path] else [];
      RowExtended(methodPathLookup, methodKey, cr.rule.path, cr);
      methodPathLookup := methodPathLookup[methodKey := row[cr.rule.path := list + [cr]]];
      ExactAdded(eng, snap, i, old(methodPathLookup), methodKey, methodPathLookup);
    }

    method AddPrefixRoute(ghost i: nat, prefix: string, cr: CompiledRoute)
      requires i < |snap.routes| && cr == CompileRoute(eng, snap, i)
      requires PrefixNodes(eng, snap, i, prefixNodes)
      requires cr.rule.pathPrefix && cr.rule.path == prefix
      modifies this`prefixNodes
      ensures PrefixNodes(eng, snap, i + 1, prefixNodes)
    {
      for j := 0 to |prefixNodes|
        invariant prefixNodes == old(prefixNodes)
        invariant forall t | 0 <= t < j :: prefixNodes[t].prefix != prefix
      {
        if prefixNodes[j].prefix == prefix {
          prefixNodes := prefixNodes[j := PathNode(prefix, prefixNodes[j].routes + [cr])];
          NodeExtended(eng, snap, i, old(prefixNodes), j, prefixNodes);
          return;
        }
      }
      prefixNodes := prefixNodes + [PathNode(prefix, [cr])];
      NodeAdded(eng, snap, i, old(prefixNodes), prefixNodes);
    }

    /** The first route of a bucket's row that accepts the request. */
    method SearchRow(b: Bucket, row: seq<CompiledRoute>, req: Request) returns (found: Option<CompiledRoute>)
      requires row == Picked(eng, snap, |snap.routes|, b)
      ensures var i := FirstOf(eng, b, snap.routes, |snap.routes|, req);
              found == if i.Some? then Some(CompileRoute(eng, snap, i.value)) else None
    {
      var j := FirstAccepting(eng, b, row, req);
      RowSearch(eng, snap, b, req, j);
      return if j.Some? then Some(row[j.value]) else None;
    }

    method MatchPrefix(req: Request) returns (found: Option<CompiledRoute>)
      requires Valid()
      ensures var p := LongestPrefix(snap.routes, |snap.routes|, req.path);
              var i := if p.Some? then FirstOf(eng, Prefix(p.value), snap.routes, |snap.routes|, req) else None;
              found == if i.Some? then Some(CompileRoute(eng, snap, i.value)) else None
    {
      var best: Option<PathNode> := None;
      var longest := -1;
      for j := 0 to |prefixNodes|
        invariant best.None? ==> longest == -1
        invariant best.Some? ==> best.value in prefixNodes && best.value.prefix <= req.path && longest == |best.value.prefix|
        invariant forall c | c in prefixNodes[..j] && c.prefix <= req.path :: best.Some? && |c.prefix| <= |best.value.prefix|
      {
        var child := prefixNodes[j];
        if child.prefix <= req.path && |child.prefix| > longest {
          longest := |child.prefix|;
          best := Some(child);
        }
      }
      assert prefixNodes[..|prefixNodes|] == prefixNodes;
      LongestNode(eng, snap, prefixNodes, req.path, best);
      if best.None? {
        return None;
      }
      found := SearchRow(Prefix(best.value.prefix), best.value.routes, req);
    }

    /** Bumps the 64-bit counter only for a route that splits its traffic. */
    method BuildResult(cr: CompiledRoute) returns (res: MatchResult)
      requires counter < UINT64
      modifies this`counter
      ensures counter == NextCounter(cr, old(counter)) < UINT64
      ensures res == Result(cr, counter)
    {
      var target := cr.upstream;
      if |cr.weightedPool| > 0 && cr.totalWeight > 0 {
        counter := (counter + 1) % UINT64;
        var val := counter % cr.totalWeight;
        var acc := 0;
        var i := 0;
        while i < |cr.weightedPool|
          invariant i <= |cr.weightedPool| && target == cr.upstream
          invariant TargetFor(cr.weightedPool, val, 0, 0) == TargetFor(cr.weightedPool, val, i, acc)
        {
          acc := acc + cr.weightedPool[i].weight;
          if val < acc {
            target := Some(cr.weightedPool[i].upstream);
            break;
          }
          i := i + 1;
        }
      }
      res := MatchResult(cr.index, cr.rule, target, cr.rule.retryPolicy, TruncDiv(cr.rule.timeout, 1_000_000));
    }

    /** The lookup over the compiled tables is the plain scan of the snapshot's route list. */
    method FindRoute(req: Request) returns (found: Option<CompiledRoute>)
      requires Valid()
      ensures var i := Scan(eng, snap.routes, req);
              found == if i.Some? then Some(CompileRoute(eng, snap, i.value)) else None
    {
      var m := NormalizeMethod(eng, req.method_);
      found := SearchRow(Exact(m, req.path), Row(methodPathLookup, m, req.path), req);
      if found.None? && m != "*" {
        found := SearchRow(Exact("*", req.path), Row(methodPathLookup, "*", req.path), req);
      }
      if found.None? {
        found := MatchPrefix(req);
      }
      if found.None? {
        found := SearchRow(Regex, regexRoutes, req);
      }
    }

    /** Match answers with the scanned route and moves the counter only for a traffic split. */
    method Match(req: Request) returns (res: Option<MatchResult>)
      requires Valid()
      modifies this`counter
      ensures Valid()
      ensures var i := Scan(eng, snap.routes, req);
              res == if i.Some? then Some(Result(CompileRoute(eng, snap, i.value), counter)) else None
      ensures var i := Scan(eng, snap.routes, req);
              counter == if i.Some? then NextCounter(CompileRoute(eng, snap, i.value), old(counter)) else old(counter)
    {
      var found := FindRoute(req);
      if found.None? {
        return None;
      }
      var r := BuildResult(found.value);
      return Some(r);
    }
  }

  // ---------------------------------------------------------------- table updates

  lemma ExactUntouched(eng: Engine, s: Snapshot, i: nat, lookup: map<string, map<string, seq<CompiledRoute>>>)
    requires i < |s.routes| && ExactTable(eng, s, i, lookup)
    requires s.routes[i].pathPrefix || IsRegexPath(eng, s.routes[i].path)
    ensures ExactTable(eng, s, i + 1, lookup)
  {
    forall m: string, p: string
      ensures Row(lookup, m, p) == Picked(eng, s, i + 1, Exact(m, p))
    {
      PickedStep(eng, s, i, Exact(m, p));
    }
  }

  /** Appending to one row changes no other. */
  lemma RowExtended(lookup: map<string, map<string, seq<CompiledRoute>>>, m: string, p: string, cr: CompiledRoute)
    ensures var row := if m in lookup then lookup[m] else map[];
            var lookup' := lookup[m := row[p := (if p in row then row[p] else []) + [cr]]];
            forall m': string, p': string ::
              Row(lookup', m', p') == Row(lookup, m', p') + if m' == m && p' == p then [cr] else []
  {
  }

  lemma ExactAdded(
    eng: Engine, s: Snapshot, i: nat, lookup: map<string, map<string, seq<CompiledRoute>>>,
    methodKey: string, lookup': map<string, map<string, seq<CompiledRoute>>>)
    requires i < |s.routes| && ExactTable(eng, s, i, lookup)
    requires InBucket(eng, Exact(methodKey, s.routes[i].path), s.routes[i])
    requires forall m: string, p: string :: Row(lookup', m, p) == Row(lookup, m, p)
               + if m == methodKey && p == s.routes[i].path then [CompileRoute(eng, s, i)] else []
    ensures ExactTable(eng, s, i + 1, lookup')
  {
    forall m: string, p: string
      ensures Row(lookup', m, p) == Picked(eng, s, i + 1, Exact(m, p))
    {
      PickedStep(eng, s, i, Exact(m, p));
      assert Row(lookup, m, p) == Picked(eng, s, i, Exact(m, p));
    }
  }

  lemma PrefixUntouched(eng: Engine, s: Snapshot, i: nat, nodes: seq<PathNode>)
    requires i < |s.routes| && PrefixNodes(eng, s, i, nodes)
    requires !s.routes[i].pathPrefix
    ensures PrefixNodes(eng, s, i + 1, nodes)
  {
    forall c | c in nodes
      ensures c.routes == Picked(eng, s, i + 1, Prefix(c.prefix))
    {
      PickedStep(eng, s, i, Prefix(c.prefix));
    }
  }

  lemma NodeExtended(eng: Engine, s: Snapshot, i: nat, nodes: seq<PathNode>, j: nat, nodes': seq<PathNode>)
    requires i < |s.routes| && PrefixNodes(eng, s, i, nodes) && j < |nodes|
    requires s.routes[i].pathPrefix && s.routes[i].path == nodes[j].prefix
    requires nodes' == nodes[j := PathNode(nodes[j].prefix, nodes[j].routes + [CompileRoute(eng, s, i)])]
    ensures PrefixNodes(eng, s, i + 1, nodes')
  {
    forall c | c in nodes'
      ensures c.routes == Picked(eng, s, i + 1, Prefix(c.prefix)) && c.routes != []
    {
      var t :| 0 <= t < |nodes'| && nodes'[t] == c;
      PickedStep(eng, s, i, Prefix(c.prefix));
      assert nodes[t] in nodes;
      assert t != j ==> nodes[t].prefix != nodes[j].prefix;
    }
    assert forall t | 0 <= t < |nodes| :: nodes'[t].prefix == nodes[t].prefix;
    forall r | 0 <= r < i + 1 && s.routes[r].pathPrefix
      ensures exists c :: c in nodes' && c.prefix == s.routes[r].path
    {
      if r < i {
        var c :| c in nodes && c.prefix == s.routes[r].path;
        var t :| 0 <= t < |nodes| && nodes[t] == c;
        assert nodes'[t] in nodes';
      } else {
        assert nodes'[j] in nodes';
      }
    }
  }

  lemma NothingPickedYet(eng: Engine, s: Snapshot, i: nat, nodes: seq<PathNode>)
    requires i < |s.routes| && PrefixNodes(eng, s, i, nodes)
    requires forall t | 0 <= t < |nodes| :: nodes[t].prefix != s.routes[i].path
    ensures Picked(eng, s, i, Prefix(s.routes[i].path)) == []
  {
    PickedSource(eng, s, i, s.routes[i].path);
  }

  lemma NodeAdded(eng: Engine, s: Snapshot, i: nat, nodes: seq<PathNode>, nodes': seq<PathNode>)
    requires i < |s.routes| && PrefixNodes(eng, s, i, nodes)
    requires s.routes[i].pathPrefix && forall t | 0 <= t < |nodes| :: nodes[t].prefix != s.routes[i].path
    requires nodes' == nodes + [PathNode(s.routes[i].path, [CompileRoute(eng, s, i)])]
    ensures PrefixNodes(eng, s, i + 1, nodes')
  {
    var added := nodes'[|nodes|];
    forall c | c in nodes'
      ensures c.routes == Picked(eng, s, i + 1, Prefix(c.prefix)) && c.routes != []
    {
      PickedStep(eng, s, i, Prefix(c.prefix));
      if c !in nodes {
        NothingPickedYet(eng, s, i, nodes);
      }
    }
    forall r | 0 <= r < i + 1 && s.routes[r].pathPrefix
      ensures exists c :: c in nodes' && c.prefix == s.routes[r].path
    {
      if r < i {
        var c :| c in nodes && c.prefix == s.routes[r].path;
        assert c in nodes';
      } else {
        assert added in nodes';
      }
    }
  }
}
