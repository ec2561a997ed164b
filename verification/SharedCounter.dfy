/**
 The traffic-split counter belongs to the router, not to a route. Routes that are matched in turn
 each see every s-th counter value, and whether their splits stay proportional depends on s.
 */
module SharedCounter {
  import opened Common
  import opened Config
  import opened Router
  import opened WeightedSplit
  import Arith

  predicate Divides(d: nat, n: nat) {
    d > 0 && n % d == 0
  }

  ghost predicate Coprime(a: nat, b: nat) {
    forall d: nat | Divides(d, a) && Divides(d, b) :: d == 1
  }

  // ---------------------------------------------------------------- an inverse modulo w

  /** A common divisor of a and b that is a combination of both. */
  lemma {:induction false} Bezout(a: nat, b: nat) returns (g: nat, x: int, y: int, ka: int, kb: int)
    requires a > 0
    ensures g > 0 && a == ka * g && b == kb * g && g == a * x + b * y
    decreases b
  {
    if b == 0 {
      g, x, y, ka, kb := a, 1, 0, 1, 0;
    } else {
      var q, r := a / b, a % b;
      assert a == q * b + r;
      var x1, y1, kr;
      g, x1, y1, kb, kr := Bezout(b, r);
      x, y, ka := y1, x1 - q * y1, q * kb + kr;
      assert q * (kb * g) + kr * g == (q * kb + kr) * g;
      assert (q * b + r) * y1 + b * (x1 - q * y1) == r * y1 + b * x1 + q * b * y1 - b * (q * y1);
    }
  }

  /** What is coprime to w has an inverse modulo w. */
  lemma Inverse(s: nat, w: nat) returns (u: int, e: int)
    requires s > 0 && w > 0 && Coprime(s, w)
    ensures s * u == 1 + e * w
  {
    var g, x, y, ks, kw := Bezout(s, w);
    Arith.DivModUnique(s, ks, 0, g);
    Arith.DivModUnique(w, kw, 0, g);
    assert Divides(g, s) && Divides(g, w);
    u, e := x, -y;
    assert w * y == -(e * w);
  }

  // ---------------------------------------------------------------- every s-th value

  /** How many of the n values c, c + s, c + 2s, ... pick target i. */
  ghost function StrideHits(pool: seq<WeightedTarget>, i: nat, c: nat, s: nat, n: nat): nat
    requires Total(pool) > 0
  {
    if n == 0 then 0
    else StrideHits(pool, i, c, s, n - 1) + if Chooses(pool, i, c + s * (n - 1)) then 1 else 0
  }

  ghost function Residue(c: nat, s: nat, w: nat, t: nat): nat
    requires w > 0
  {
    (c + s * t) % w
  }

  /** How many of the first n values have residue v. */
  ghost function Visits(c: nat, s: nat, w: nat, v: nat, n: nat): nat
    requires w > 0
  {
    if n == 0 then 0 else Visits(c, s, w, v, n - 1) + if Residue(c, s, w, n - 1) == v then 1 else 0
  }

  /** Hits counted by residue: target i's residues below m, each as often as it is visited. */
  ghost function HitsByResidue(pool: seq<WeightedTarget>, i: nat, c: nat, s: nat, n: nat, m: nat): nat
    requires Total(pool) > 0
  {
    if m == 0 then 0
    else HitsByResidue(pool, i, c, s, n, m - 1) + if Chooses(pool, i, m - 1) then Visits(c, s, Total(pool), m - 1, n) else 0
  }

  lemma {:induction false} OneMoreValue(pool: seq<WeightedTarget>, i: nat, c: nat, s: nat, n: nat, m: nat)
    requires Total(pool) > 0
    ensures var v := Residue(c, s, Total(pool), n);
            HitsByResidue(pool, i, c, s, n + 1, m)
            == HitsByResidue(pool, i, c, s, n, m) + if v < m && Chooses(pool, i, v) then 1 else 0
  {
    if m > 0 {
      OneMoreValue(pool, i, c, s, n, m - 1);
    }
  }

  lemma {:induction false} NoValues(pool: seq<WeightedTarget>, i: nat, c: nat, s: nat, m: nat)
    requires Total(pool) > 0
    ensures HitsByResidue(pool, i, c, s, 0, m) == 0
  {
    if m > 0 {
      NoValues(pool, i, c, s, m - 1);
    }
  }

  lemma ChoiceOfResidue(pool: seq<WeightedTarget>, i: nat, x: nat)
    requires Total(pool) > 0
    ensures Chooses(pool, i, x % Total(pool)) == Chooses(pool, i, x)
  {
    var w := Total(pool);
    Arith.DivModUnique(x % w, 0, x % w, w);
  }

  /** Counting by value and counting by residue agree. */
  lemma {:induction false} CountedByResidue(pool: seq<WeightedTarget>, i: nat, c: nat, s: nat, n: nat)
    requires Total(pool) > 0
    ensures StrideHits(pool, i, c, s, n) == HitsByResidue(pool, i, c, s, n, Total(pool))
  {
    if n == 0 {
      NoValues(pool, i, c, s, Total(pool));
    } else {
      CountedByResidue(pool, i, c, s, n - 1);
      OneMoreValue(pool, i, c, s, n - 1, Total(pool));
      ChoiceOfResidue(pool, i, c + s * (n - 1));
    }
  }

  lemma {:induction false} AllOnce(pool: seq<WeightedTarget>, i: nat, c: nat, s: nat, n: nat, m: nat)
    requires Total(pool) > 0 && forall v: nat | v < m :: Visits(c, s, Total(pool), v, n) == 1
    ensures HitsByResidue(pool, i, c, s, n, m) == Hits(pool, i, 0, m)
  {
    if m > 0 {
      AllOnce(pool, i, c, s, n, m - 1);
    }
  }

  // ---------------------------------------------------------------- every residue once

  /** The one step at which a coprime stride meets a residue. */
  ghost function StepOf(c: nat, u: int, w: nat, v: nat): nat
    requires w > 0
  {
    (u * (v - c)) % w
  }

  lemma MeetsAt(c: nat, s: nat, w: nat, u: int, e: int, v: nat, t: nat)
    requires w > 0 && s * u == 1 + e * w && v < w && t < w && Residue(c, s, w, t) == v
    ensures t == StepOf(c, u, w, v)
  {
    var k := (c + s * t) / w;
    assert c + s * t == k * w + v;
    var q := e * t - u * k;
    assert u * (v - c) == q * w + t by {
      assert v - c == s * t - k * w;
      assert u * (s * t - k * w) == (s * u) * t - (u * k) * w;
      assert (1 + e * w) * t == t + (e * t) * w;
      assert (e * t - u * k) * w == (e * t) * w - (u * k) * w;
    }
    Arith.DivModUnique(u * (v - c), q, t, w);
  }

  lemma MeetsThere(c: nat, s: nat, w: nat, u: int, e: int, v: nat)
    requires w > 0 && s * u == 1 + e * w && v < w
    ensures Residue(c, s, w, StepOf(c, u, w, v)) == v
  {
    var d := v - c;
    var k, t := (u * d) / w, StepOf(c, u, w, v);
    assert u * d == k * w + t;
    var q := e * d - s * k;
    assert s * t == d + q * w by {
      assert t == u * d - k * w;
      assert s * (u * d - k * w) == (s * u) * d - (s * k) * w;
      assert (1 + e * w) * d == d + (e * d) * w;
      assert (e * d - s * k) * w == (e * d) * w - (s * k) * w;
    }
    Arith.DivModUnique(c + s * t, q, v, w);
  }

  lemma {:induction false} VisitedOnce(c: nat, s: nat, w: nat, u: int, e: int, v: nat, n: nat)
    requires w > 0 && s * u == 1 + e * w && v < w && n <= w
    ensures Visits(c, s, w, v, n) == if StepOf(c, u, w, v) < n then 1 else 0
  {
    if n > 0 {
      VisitedOnce(c, s, w, u, e, v, n - 1);
      if Residue(c, s, w, n - 1) == v {
        MeetsAt(c, s, w, u, e, v, n - 1);
      } else if StepOf(c, u, w, v) == n - 1 {
        MeetsThere(c, s, w, u, e, v);
      }
    }
  }

  /** With a stride coprime to the total, W values pick every target exactly weight-many times. */
  lemma CoprimeIsFair(pool: seq<WeightedTarget>, i: nat, c: nat, s: nat)
    requires NonNegative(pool) && Total(pool) > 0 && i < |pool| && s > 0 && Coprime(s, Total(pool))
    ensures StrideHits(pool, i, c, s, Total(pool)) == pool[i].weight
  {
    var w := Total(pool);
    var u, e := Inverse(s, w);
    forall v: nat | v < w
      ensures Visits(c, s, w, v, w) == 1
    {
      VisitedOnce(c, s, w, u, e, v, w);
    }
    CountedByResidue(pool, i, c, s, w);
    AllOnce(pool, i, c, s, w, w);
    FullRound(pool, i, 0);
  }

  // ---------------------------------------------------------------- routes matched in turn

  /** The counter after k requests that match the routes in turn. */
  ghost function CounterAfter(routes: seq<CompiledRoute>, start: nat, k: nat): nat
    requires |routes| > 0
  {
    if k == 0 then start else NextCounter(routes[(k - 1) % |routes|], CounterAfter(routes, start, k - 1))
  }

  ghost predicate Splitting(cr: CompiledRoute) {
    Splits(cr) && NonNegative(cr.weightedPool) && cr.totalWeight == Total(cr.weightedPool)
  }

  ghost predicate AllSplit(routes: seq<CompiledRoute>) {
    |routes| > 0 && forall j | 0 <= j < |routes| :: Splitting(routes[j])
  }

  /** Every match of a splitting route moves the counter. */
  lemma EachMoves(routes: seq<CompiledRoute>, start: nat, k: nat)
    requires AllSplit(routes) && k > 0 && CounterAfter(routes, start, k - 1) < UINT64
    ensures var c := CounterAfter(routes, start, k - 1);
            CounterAfter(routes, start, k) == if c + 1 == UINT64 then 0 else c + 1
  {
    assert Splitting(routes[(k - 1) % |routes|]);
  }

  lemma {:induction false} CounterCounts(routes: seq<CompiledRoute>, start: nat, k: nat)
    requires AllSplit(routes) && start + k < UINT64
    ensures CounterAfter(routes, start, k) == start + k
  {
    if k > 0 {
      CounterCounts(routes, start, k - 1);
      EachMoves(routes, start, k);
    }
  }

  /** The counter with which route j is matched for the t-th time. */
  ghost function TurnCounter(routes: seq<CompiledRoute>, j: nat, start: nat, t: nat): nat
    requires |routes| > 0
  {
    CounterAfter(routes, start, |routes| * t + j + 1)
  }

  lemma TurnCounts(routes: seq<CompiledRoute>, j: nat, start: nat, t: nat)
    requires AllSplit(routes) && j < |routes| && start + |routes| * (t + 1) < UINT64
    ensures TurnCounter(routes, j, start, t) == start + j + 1 + |routes| * t
    ensures start + |routes| * t < UINT64
  {
    assert |routes| * (t + 1) == |routes| * t + |routes|;
    CounterCounts(routes, start, |routes| * t + j + 1);
  }

  /** How often target i serves the first n requests of route j. */
  ghost function TurnHits(routes: seq<CompiledRoute>, j: nat, i: nat, start: nat, n: nat): nat
    requires AllSplit(routes) && j < |routes|
  {
    if n == 0 then 0
    else
      TurnHits(routes, j, i, start, n - 1)
      + if TargetFor(routes[j].weightedPool, TurnCounter(routes, j, start, n - 1) % routes[j].totalWeight, 0, 0) == Some(i)
        then 1 else 0
  }

  /** A route matched in turn with others sees every s-th counter value. */
  lemma {:induction false} TurnsAreStrides(routes: seq<CompiledRoute>, j: nat, i: nat, start: nat, n: nat)
    requires AllSplit(routes) && j < |routes| && start + |routes| * n < UINT64
    ensures TurnHits(routes, j, i, start, n) == StrideHits(routes[j].weightedPool, i, start + j + 1, |routes|, n)
  {
    if n > 0 {
      TurnsAreStrides(routes, j, i, start, n - 1);
      TurnCounts(routes, j, start, n - 1);
    }
  }

  /** Every route of every turn of s splitting routes gets each target's exact weight in W turns. */
  ghost predicate FairInTurn(s: nat, w: nat) {
    forall routes: seq<CompiledRoute>, j: nat, i: nat, start: nat |
      && AllSplit(routes) && |routes| == s && j < s && routes[j].totalWeight == w && i < |routes[j].weightedPool|
      && start + s * w < UINT64 ::
      TurnHits(routes, j, i, start, w) == routes[j].weightedPool[i].weight
  }

  /** Splits of total W are proportional for s routes matched in turn exactly when s and W are coprime. */
  lemma FairInTurnIff(s: nat, w: nat)
    requires s > 0 && w > 0 && s * w < UINT64
    ensures FairInTurn(s, w) <==> Coprime(s, w)
  {
    if Coprime(s, w) {
      forall routes: seq<CompiledRoute>, j: nat, i: nat, start: nat |
        && AllSplit(routes) && |routes| == s && j < s && routes[j].totalWeight == w && i < |routes[j].weightedPool|
        && start + s * w < UINT64
        ensures TurnHits(routes, j, i, start, w) == routes[j].weightedPool[i].weight
      {
        TurnsAreStrides(routes, j, i, start, w);
        CoprimeIsFair(routes[j].weightedPool, i, start + j + 1, s);
      }
    } else {
      var d: nat :| Divides(d, s) && Divides(d, w) && d != 1;
      UnfairTurn(s, w, d);
    }
  }

  /** A split between 1 and w - 1. */
  ghost function Lopsided(w: nat): CompiledRoute {
    var u := Resolve(map[], "u");
    CompiledRoute(0, RouteRule("r", "", "/", false, "", map[], map[], "", [], None, 0), None,
                  [WeightedTarget(u, 1), WeightedTarget(u, w - 1)], w, None, None, map[], map[])
  }

  lemma LopsidedSplits(w: nat)
    requires w > 0
    ensures Splitting(Lopsided(w)) && forall x: nat | Chooses(Lopsided(w).weightedPool, 0, x) :: x % w == 0
  {
    var pool := Lopsided(w).weightedPool;
    assert Weights(pool) == [1, w - 1];
    assert [1, w - 1][..1] == [1] && [1][..0] == [];
    assert Sum([1]) == Sum([]) + 1;
    assert Total(pool) == w;
    forall x: nat | Chooses(pool, 0, x)
      ensures x % w == 0
    {
      assert TargetFor(pool, x % w, 1, 1) == Some(1);
    }
  }

  /** A stride with a common divisor never leaves its residue class. */
  lemma SameClass(c: nat, s: nat, t: nat, w: nat, d: nat)
    requires d > 0 && w > 0 && Divides(d, s) && Divides(d, w) && (c + s * t) % w == 0
    ensures c % d == 0
  {
    var ks, kw, k := s / d, w / d, (c + s * t) / w;
    assert s == ks * d && w == kw * d && c + s * t == k * w;
    var q := k * kw - ks * t;
    assert c == q * d by {
      assert (ks * d) * t == (ks * t) * d && k * (kw * d) == (k * kw) * d;
      assert (k * kw - ks * t) * d == (k * kw) * d - (ks * t) * d;
    }
    Arith.DivModUnique(c, q, 0, d);
  }

  lemma {:induction false} NeverHit(pool: seq<WeightedTarget>, s: nat, d: nat, n: nat)
    requires Total(pool) > 0 && d > 1 && Divides(d, s) && Divides(d, Total(pool))
    requires forall x: nat | Chooses(pool, 0, x) :: x % Total(pool) == 0
    ensures StrideHits(pool, 0, 1, s, n) == 0
  {
    if n > 0 {
      NeverHit(pool, s, d, n - 1);
      if Chooses(pool, 0, 1 + s * (n - 1)) {
        SameClass(1, s, n - 1, Total(pool), d);
        Arith.DivModUnique(1, 0, 1, d);
      }
    }
  }

  /** With a common divisor a target of weight 1 can be left out for ever. */
  lemma UnfairTurn(s: nat, w: nat, d: nat)
    requires s > 0 && w > 0 && s * w < UINT64 && d > 1 && Divides(d, s) && Divides(d, w)
    ensures !FairInTurn(s, w)
  {
    LopsidedSplits(w);
    var routes := seq(s, _ => Lopsided(w));
    assert forall j | 0 <= j < s :: routes[j] == Lopsided(w);
    TurnsAreStrides(routes, 0, 0, 0, w);
    NeverHit(Lopsided(w).weightedPool, s, d, w);
    assert TurnHits(routes, 0, 0, 0, w) != routes[0].weightedPool[0].weight;
  }

  // ---------------------------------------------------------------- alternation

  lemma SameResidueEveryTurn(c: nat, s: nat, w: nat, t: nat)
    requires Divides(w, s)
    ensures (c + s * t) % w == c % w
  {
    var k := s / w;
    assert s == k * w;
    assert (k * w) * t == (k * t) * w;
    Arith.ModShift(c, k * t, w);
  }

  /** When the total divides the number of routes, a route picks the same target at every turn. */
  lemma SameTargetEveryTurn(routes: seq<CompiledRoute>, j: nat, start: nat, t: nat)
    requires AllSplit(routes) && j < |routes| && Divides(routes[j].totalWeight, |routes|)
    requires start + |routes| * (t + 1) < UINT64
    ensures TurnCounter(routes, j, start, t) % routes[j].totalWeight
            == TurnCounter(routes, j, start, 0) % routes[j].totalWeight
  {
    var s, w := |routes|, routes[j].totalWeight;
    TurnCounts(routes, j, start, t);
    CounterCounts(routes, start, j + 1);
    SameResidueEveryTurn(start + j + 1, s, w, t);
  }

  /** Two alternating routes with even splits each send everything to one target. */
  lemma AlternatingRoutesStarve(routes: seq<CompiledRoute>, j: nat, start: nat, t: nat)
    requires |routes| == 2 && AllSplit(routes) && j < 2 && start + 2 * (t + 1) < UINT64
    requires |routes[j].weightedPool| == 2 && routes[j].weightedPool[0].weight == routes[j].weightedPool[1].weight == 1
    ensures Result(routes[j], TurnCounter(routes, j, start, t)) == Result(routes[j], TurnCounter(routes, j, start, 0))
    ensures !FairInTurn(2, 2)
  {
    var pool := routes[j].weightedPool;
    assert Weights(pool) == [1, 1];
    assert [1, 1][..1] == [1] && [1][..0] == [];
    assert Sum([1]) == Sum([]) + 1;
    assert routes[j].totalWeight == 2;
    SameTargetEveryTurn(routes, j, start, t);
    UnfairTurn(2, 2, 2);
  }

  // ---------------------------------------------------------------- across the counter's wrap

  /** How often the counter wraps within k matches. */
  lemma {:induction false} WrapCount(routes: seq<CompiledRoute>, start: nat, k: nat) returns (q: nat)
    requires AllSplit(routes) && start < UINT64
    ensures CounterAfter(routes, start, k) < UINT64 && q * UINT64 + CounterAfter(routes, start, k) == start + k
  {
    if k == 0 {
      q := 0;
    } else {
      q := WrapCount(routes, start, k - 1);
      EachMoves(routes, start, k);
      if CounterAfter(routes, start, k) == 0 {
        q := q + 1;
      }
    }
  }

  lemma CounterWraps(routes: seq<CompiledRoute>, start: nat, k: nat)
    requires AllSplit(routes) && start < UINT64
    ensures CounterAfter(routes, start, k) == (start + k) % UINT64
  {
    var q := WrapCount(routes, start, k);
    Arith.DivModUnique(start + k, q, CounterAfter(routes, start, k), UINT64);
  }

  lemma TurnWraps(routes: seq<CompiledRoute>, j: nat, start: nat, t: nat)
    requires AllSplit(routes) && j < |routes| && start < UINT64
    ensures TurnCounter(routes, j, start, t) == (start + j + 1 + |routes| * t) % UINT64
  {
    CounterWraps(routes, start, |routes| * t + j + 1);
  }

  /** When the total divides 2^64, wrapping changes no turn. */
  lemma SameTurn(routes: seq<CompiledRoute>, j: nat, i: nat, start: nat, t: nat)
    requires AllSplit(routes) && j < |routes| && start < UINT64 && UINT64 % routes[j].totalWeight == 0
    ensures Chooses(routes[j].weightedPool, i, TurnCounter(routes, j, start, t))
            == Chooses(routes[j].weightedPool, i, start + j + 1 + |routes| * t)
  {
    TurnWraps(routes, j, start, t);
    SamePick(routes[j].weightedPool, i, start + j + 1 + |routes| * t);
  }

  lemma {:induction false} TurnsAreStridesForEver(routes: seq<CompiledRoute>, j: nat, i: nat, start: nat, n: nat)
    requires AllSplit(routes) && j < |routes| && start < UINT64 && UINT64 % routes[j].totalWeight == 0
    ensures TurnHits(routes, j, i, start, n) == StrideHits(routes[j].weightedPool, i, start + j + 1, |routes|, n)
  {
    if n > 0 {
      TurnsAreStridesForEver(routes, j, i, start, n - 1);
      SameTurn(routes, j, i, start, n - 1);
    }
  }

  /** The exact weights in W turns from every start of the counter, also across its wrap. */
  ghost predicate FairForEver(s: nat, w: nat) {
    forall routes: seq<CompiledRoute>, j: nat, i: nat, start: nat |
      && AllSplit(routes) && |routes| == s && j < s && routes[j].totalWeight == w && i < |routes[j].weightedPool|
      && start < UINT64 ::
      TurnHits(routes, j, i, start, w) == routes[j].weightedPool[i].weight
  }

  lemma {:induction false} TurnHitsGrow(routes: seq<CompiledRoute>, j: nat, i: nat, start: nat, m: nat, n: nat)
    requires AllSplit(routes) && j < |routes| && m <= n
    ensures TurnHits(routes, j, i, start, m) <= TurnHits(routes, j, i, start, n)
  {
    if m < n {
      TurnHitsGrow(routes, j, i, start, m, n - 1);
    }
  }

  /** A split whose middle target owns the single value v. */
  ghost function Single(w: nat, v: nat): CompiledRoute
    requires v < w
  {
    var u := Resolve(map[], "u");
    CompiledRoute(0, RouteRule("r", "", "/", false, "", map[], map[], "", [], None, 0), None,
                  [WeightedTarget(u, v), WeightedTarget(u, 1), WeightedTarget(u, w - 1 - v)], w, None, None, map[], map[])
  }

  lemma SingleSplits(w: nat, v: nat)
    requires v < w
    ensures Splitting(Single(w, v)) && TargetFor(Single(w, v).weightedPool, v, 0, 0) == Some(1)
  {
    var pool := Single(w, v).weightedPool;
    var ws := [v, 1, w - 1 - v];
    assert Weights(pool) == ws && ws[..2] == [v, 1] && [v, 1][..1] == [v] && [v][..0] == [];
    assert Sum([v]) == Sum([]) + v;
    assert Sum([v, 1]) == v + 1 && Sum(ws) == w;
    assert TargetFor(pool, v, 1, v) == Some(1);
  }

  /** A coprime stride meets the residue that follows a wrap once more within W turns. */
  lemma MeetsAgain(s: nat, w: nat) returns (t: nat)
    requires s > 0 && w > 0 && Coprime(s, w) && UINT64 % w != 0
    ensures 0 < t < w && s * t > 0 && (s * t - 1) % w == (UINT64 - 1) % w
  {
    var v, u, e := (UINT64 - 1) % w, 0, 0;
    u, e := Inverse(s, w);
    var k := (UINT64 - 1) / w;
    assert UINT64 - 1 == k * w + v;
    if v == w - 1 {
      assert (k + 1) * w == k * w + w;
      Arith.DivModUnique(UINT64, k + 1, 0, w);
    }
    assert v + 1 < w;
    MeetsThere(0, s, w, u, e, v + 1);
    t := StepOf(0, u, w, v + 1);
    if t == 0 {
      Arith.DivModUnique(0, 0, 0, w);
    }
    var q := (s * t) / w;
    assert s * t == q * w + (v + 1);
    Arith.DivModUnique(s * t - 1, q, v, w);
    Arith.MulMonotone(1, s, t);
  }

  /** A target picked at two turns within W of them is served twice. */
  lemma ServedTwice(routes: seq<CompiledRoute>, j: nat, i: nat, start: nat, t: nat, n: nat)
    requires AllSplit(routes) && j < |routes| && 0 < t < n
    requires Chooses(routes[j].weightedPool, i, TurnCounter(routes, j, start, 0))
    requires Chooses(routes[j].weightedPool, i, TurnCounter(routes, j, start, t))
    ensures TurnHits(routes, j, i, start, n) >= 2
  {
    assert TurnHits(routes, j, i, start, 1) == TurnHits(routes, j, i, start, 0) + 1;
    TurnHitsGrow(routes, j, i, start, 1, t);
    assert TurnHits(routes, j, i, start, t + 1) == TurnHits(routes, j, i, start, t) + 1;
    TurnHitsGrow(routes, j, i, start, t + 1, n);
  }

  /** From 2^64 - 2 the first turn comes in front of the wrap, the others after it. */
  lemma TurnsAroundWrap(routes: seq<CompiledRoute>, t: nat)
    requires AllSplit(routes) && 0 < |routes| * t < UINT64
    ensures TurnCounter(routes, 0, UINT64 - 2, 0) == UINT64 - 1
    ensures TurnCounter(routes, 0, UINT64 - 2, t) == |routes| * t - 1
  {
    var x := |routes| * t;
    TurnWraps(routes, 0, UINT64 - 2, 0);
    TurnWraps(routes, 0, UINT64 - 2, t);
    assert |routes| * 0 == 0;
    Arith.DivModUnique(UINT64 - 1, 0, UINT64 - 1, UINT64);
    Arith.DivModUnique(UINT64 - 1 + x, 1, x - 1, UINT64);
  }

  /** The turn in front of a wrap and one after it pick the same value. */
  lemma WrapIsUnfair(s: nat, w: nat)
    requires s > 0 && w > 0 && s * w < UINT64 && Coprime(s, w) && UINT64 % w != 0
    ensures !FairForEver(s, w)
  {
    var v, start := (UINT64 - 1) % w, UINT64 - 2;
    SingleSplits(w, v);
    var routes := seq(s, _ => Single(w, v));
    assert forall j | 0 <= j < s :: routes[j] == Single(w, v);
    var t := MeetsAgain(s, w);
    assert s * t < s * w by {
      Arith.MulMonotone(t + 1, w, s);
      assert (t + 1) * s == t * s + s;
    }
    TurnsAroundWrap(routes, t);
    ServedTwice(routes, 0, 1, start, t, w);
    assert TurnHits(routes, 0, 1, start, w) != routes[0].weightedPool[1].weight;
  }

  /** From every start, the splits of s routes matched in turn are proportional exactly when s and
      W are coprime and W divides 2^64. */
  lemma FairForEverIff(s: nat, w: nat)
    requires s > 0 && w > 0 && s * w < UINT64
    ensures FairForEver(s, w) <==> Coprime(s, w) && UINT64 % w == 0
  {
    if !Coprime(s, w) {
      var d: nat :| Divides(d, s) && Divides(d, w) && d != 1;
      UnfairTurn(s, w, d);
    } else if UINT64 % w != 0 {
      WrapIsUnfair(s, w);
    } else {
      forall routes: seq<CompiledRoute>, j: nat, i: nat, start: nat |
        && AllSplit(routes) && |routes| == s && j < s && routes[j].totalWeight == w && i < |routes[j].weightedPool|
        && start < UINT64
        ensures TurnHits(routes, j, i, start, w) == routes[j].weightedPool[i].weight
      {
        TurnsAreStridesForEver(routes, j, i, start, w);
        CoprimeIsFair(routes[j].weightedPool, i, start + j + 1, s);
      }
    }
  }
}
