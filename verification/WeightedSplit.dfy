/**
 Counter-driven weighted traffic splits. Each result advances a 64-bit counter and takes the
 target whose cumulative weight range holds the counter modulo the total weight.
 */
module WeightedSplit {
  import opened Common
  import opened Router
  import Arith

  ghost predicate NonNegative(pool: seq<WeightedTarget>) {
    forall i | 0 <= i < |pool| :: pool[i].weight >= 0
  }

  ghost function Total(pool: seq<WeightedTarget>): int {
    Sum(Weights(pool))
  }

  /** The sum of the weights in front of target i. */
  ghost function Below(pool: seq<WeightedTarget>, i: nat): int
    requires i <= |pool|
  {
    Sum(Weights(pool)[..i])
  }

  lemma BelowStep(pool: seq<WeightedTarget>, i: nat)
    requires i < |pool|
    ensures Below(pool, i + 1) == Below(pool, i) + pool[i].weight
  {
    assert Weights(pool)[..i + 1][..i] == Weights(pool)[..i];
  }

  lemma {:induction false} BelowMonotone(pool: seq<WeightedTarget>, i: nat, j: nat)
    requires NonNegative(pool) && i <= j <= |pool|
    ensures 0 <= Below(pool, i) <= Below(pool, j) <= Total(pool)
  {
    var w := Weights(pool);
    var zeros := seq(i, t => 0);
    SumZero(zeros);
    SumMonotone(zeros, w[..i]);
    BelowClimbs(pool, i, j);
    BelowClimbs(pool, j, |pool|);
    assert w[..|pool|] == w;
  }

  lemma {:induction false} BelowClimbs(pool: seq<WeightedTarget>, i: nat, j: nat)
    requires NonNegative(pool) && i <= j <= |pool|
    ensures Below(pool, i) <= Below(pool, j)
  {
    if i < j {
      BelowClimbs(pool, i, j - 1);
      BelowStep(pool, j - 1);
    }
  }

  /** The walk over cumulative weights picks target i exactly on its own range of values. */
  lemma {:induction false} PickedOnOwnRange(pool: seq<WeightedTarget>, val: int, i: nat, from: nat)
    requires NonNegative(pool) && from <= |pool| && i < |pool|
    requires Below(pool, from) <= val
    ensures TargetFor(pool, val, from, Below(pool, from)) == Some(i)
            <==> from <= i && Below(pool, i) <= val < Below(pool, i + 1)
    decreases |pool| - from
  {
    if from < |pool| {
      BelowStep(pool, from);
      if val < Below(pool, from + 1) {
        if from < i {
          BelowClimbs(pool, from + 1, i);
        }
      } else {
        PickedOnOwnRange(pool, val, i, from + 1);
      }
    }
  }

  // ---------------------------------------------------------------- counting over counter values

  ghost predicate Chooses(pool: seq<WeightedTarget>, i: nat, counter: nat)
    requires Total(pool) > 0
  {
    TargetFor(pool, counter % Total(pool), 0, 0) == Some(i)
  }

  /** How many of the n counter values from c on pick target i. */
  ghost function Hits(pool: seq<WeightedTarget>, i: nat, c: nat, n: nat): nat
    requires Total(pool) > 0
  {
    if n == 0 then 0 else Hits(pool, i, c, n - 1) + if Chooses(pool, i, c + n - 1) then 1 else 0
  }

  lemma {:induction false} HitsSplit(pool: seq<WeightedTarget>, i: nat, c: nat, m: nat, n: nat)
    requires Total(pool) > 0
    ensures Hits(pool, i, c, m + n) == Hits(pool, i, c, m) + Hits(pool, i, c + m, n)
  {
    if n > 0 {
      HitsSplit(pool, i, c, m, n - 1);
    }
  }

  /** Among the values 0 .. n - 1, with n at most the total, target i owns the part of its range below n. */
  lemma {:induction false} FirstRound(pool: seq<WeightedTarget>, i: nat, n: nat)
    requires NonNegative(pool) && Total(pool) > 0 && i < |pool| && n <= Total(pool)
    ensures Hits(pool, i, 0, n)
            == if n <= Below(pool, i) then 0 else if n <= Below(pool, i + 1) then n - Below(pool, i) else pool[i].weight
  {
    BelowMonotone(pool, i, i + 1);
    BelowStep(pool, i);
    if n > 0 {
      FirstRound(pool, i, n - 1);
      Arith.DivModUnique(n - 1, 0, n - 1, Total(pool));
      assert Below(pool, 0) == 0;
      PickedOnOwnRange(pool, n - 1, i, 0);
    }
  }

  lemma SameResidue(pool: seq<WeightedTarget>, i: nat, c: nat)
    requires Total(pool) > 0
    ensures Chooses(pool, i, c) == Chooses(pool, i, c + Total(pool))
  {
    Arith.ModShift(c, 1, Total(pool));
  }

  /** Any W consecutive values, W the total weight, pick target i exactly weight-many times. */
  lemma {:induction false} FullRound(pool: seq<WeightedTarget>, i: nat, c: nat)
    requires NonNegative(pool) && Total(pool) > 0 && i < |pool|
    ensures Hits(pool, i, c, Total(pool)) == pool[i].weight
  {
    var w := Total(pool);
    if c == 0 {
      FirstRound(pool, i, w);
      BelowMonotone(pool, i, i + 1);
      BelowStep(pool, i);
    } else {
      FullRound(pool, i, c - 1);
      HitsSplit(pool, i, c - 1, 1, w);
      SameResidue(pool, i, c - 1);
      assert Hits(pool, i, c - 1, 1) == Hits(pool, i, c - 1, 0) + if Chooses(pool, i, c - 1) then 1 else 0;
    }
  }

  /** The values of q rounds are those of q - 1 rounds and of one more. */
  lemma OneMoreRound(pool: seq<WeightedTarget>, i: nat, c: nat, n: nat)
    requires NonNegative(pool) && Total(pool) > 0 && i < |pool|
    ensures Hits(pool, i, c, n + Total(pool)) == Hits(pool, i, c, n) + pool[i].weight
  {
    HitsSplit(pool, i, c, n, Total(pool));
    FullRound(pool, i, c + n);
  }

  /** A window of n values that is q rounds long, with n = q * W. */
  lemma {:induction false} Rounds(pool: seq<WeightedTarget>, i: nat, c: nat, q: nat, n: nat)
    requires NonNegative(pool) && Total(pool) > 0 && i < |pool| && n == q * Total(pool)
    ensures Hits(pool, i, c, n) == q * pool[i].weight
  {
    if q > 0 {
      var w, m := Total(pool), (q - 1) * Total(pool);
      Arith.MulPred(q, w);
      Arith.MulPred(q, pool[i].weight);
      Arith.MulMonotone(0, q - 1, w);
      Rounds(pool, i, c, q - 1, m);
      OneMoreRound(pool, i, c, m);
    }
  }

  /** A longer window has no fewer hits. */
  lemma {:induction false} HitsGrow(pool: seq<WeightedTarget>, i: nat, c: nat, m: nat, n: nat)
    requires Total(pool) > 0 && m <= n
    ensures Hits(pool, i, c, m) <= Hits(pool, i, c, n)
  {
    if m < n {
      HitsGrow(pool, i, c, m, n - 1);
    }
  }

  /** A window between a and b rounds long. */
  lemma BetweenRounds(pool: seq<WeightedTarget>, i: nat, c: nat, n: nat, a: nat, b: nat)
    requires NonNegative(pool) && Total(pool) > 0 && i < |pool|
    requires a * Total(pool) <= n <= b * Total(pool)
    ensures a * pool[i].weight <= Hits(pool, i, c, n) <= b * pool[i].weight
  {
    var lo, hi := a * Total(pool), b * Total(pool);
    Arith.MulMonotone(0, a, Total(pool));
    Rounds(pool, i, c, a, lo);
    Rounds(pool, i, c, b, hi);
    HitsGrow(pool, i, c, lo, n);
    HitsGrow(pool, i, c, n, hi);
  }

  /** Over any n consecutive counter values target i is picked between floor(n/W) and ceil(n/W)
      times its weight. */
  lemma SplitBounds(pool: seq<WeightedTarget>, i: nat, c: nat, n: nat)
    requires NonNegative(pool) && Total(pool) > 0 && i < |pool|
    ensures n / Total(pool) * pool[i].weight <= Hits(pool, i, c, n)
            <= (n + Total(pool) - 1) / Total(pool) * pool[i].weight
  {
    var w := Total(pool);
    Arith.FloorDiv(n, w);
    Arith.CeilDiv(n, w);
    var lo, hi := n / w, (n + w - 1) / w;
    BetweenRounds(pool, i, c, n, lo, hi);
  }

  // ---------------------------------------------------------------- the 64-bit counter

  /** How many of the next n results pick target i, from a router whose counter stands at start. */
  ghost function Served(pool: seq<WeightedTarget>, i: nat, start: nat, n: nat): nat
    requires Total(pool) > 0
  {
    if n == 0 then 0 else Served(pool, i, start, n - 1) + if Chooses(pool, i, (start + n) % UINT64) then 1 else 0
  }

  lemma ModOfMod(x: nat, m: nat, w: nat)
    requires w > 0 && m > 0 && m % w == 0
    ensures (x % m) % w == x % w
  {
    var k := m / w;
    assert m == k * w;
    var d := x / m;
    assert x == d * m + x % m;
    assert d * (k * w) == (d * k) * w;
    Arith.ModShift(x % m, d * k, w);
  }

  /** Below 2^64, or when the total divides 2^64, wrapping a counter value changes no pick. */
  lemma SamePick(pool: seq<WeightedTarget>, i: nat, c: nat)
    requires Total(pool) > 0 && (c < UINT64 || UINT64 % Total(pool) == 0)
    ensures Chooses(pool, i, c % UINT64) == Chooses(pool, i, c)
  {
    if c < UINT64 {
      assert c % UINT64 == c;
    } else {
      ModOfMod(c, UINT64, Total(pool));
    }
  }

  /** Without a wrap in the window, or when the total divides 2^64, wrapping changes nothing. */
  lemma {:induction false} ServedIsHits(pool: seq<WeightedTarget>, i: nat, start: nat, n: nat)
    requires Total(pool) > 0
    requires start + n < UINT64 || UINT64 % Total(pool) == 0
    ensures Served(pool, i, start, n) == Hits(pool, i, start + 1, n)
  {
    if n > 0 {
      ServedIsHits(pool, i, start, n - 1);
      SamePick(pool, i, start + n);
    }
  }

  /** Every target gets exactly its weight in every W consecutive results. */
  ghost predicate AlwaysProportional(w: nat) {
    forall pool: seq<WeightedTarget>, i: nat, start: nat |
      NonNegative(pool) && Total(pool) == w && w > 0 && i < |pool| && start < UINT64 ::
      Served(pool, i, start, w) == pool[i].weight
  }

  /** The exact proportional split survives the counter's wrap exactly for totals that divide 2^64. */
  lemma ProportionalIff(w: nat)
    requires 0 < w < 0x8000_0000_0000_0000
    ensures AlwaysProportional(w) <==> UINT64 % w == 0
  {
    if UINT64 % w == 0 {
      forall pool: seq<WeightedTarget>, i: nat, start: nat |
        NonNegative(pool) && Total(pool) == w && i < |pool| && start < UINT64
        ensures Served(pool, i, start, w) == pool[i].weight
      {
        ServedIsHits(pool, i, start, w);
        FullRound(pool, i, start + 1);
      }
    } else {
      SkewedPool(w);
    }
  }

  /** A pool with weights w - 1 and 1 loses its proportion when the counter wraps. */
  lemma SkewedPool(w: nat)
    requires 0 < w < 0x8000_0000_0000_0000 && UINT64 % w != 0
    ensures !AlwaysProportional(w)
  {
    var u := Resolve(map[], "u");
    var pool := [WeightedTarget(u, w - 1), WeightedTarget(u, 1)];
    assert Weights(pool) == [w - 1, 1];
    assert [w - 1, 1][..1] == [w - 1];
    assert Sum([w - 1]) == Sum([]) + (w - 1) by { assert [w - 1][..0] == []; }
    assert Total(pool) == w;
    assert Below(pool, 1) == w - 1;
    BelowStep(pool, 1);
    var start := UINT64 - 2;
    assert Below(pool, 0) == 0;
    PickedOnOwnRange(pool, (UINT64 - 1) % w, 1, 0);
    assert Served(pool, 1, start, 1) == Served(pool, 1, start, 0) + if Chooses(pool, 1, UINT64 - 1) then 1 else 0;
    if (UINT64 - 1) % w == w - 1 {
      var k := (UINT64 - 1) / w;
      assert UINT64 - 1 == k * w + (w - 1);
      assert (k + 1) * w == k * w + w;
      Arith.DivModUnique(UINT64, k + 1, 0, w);
    }
    AfterWrap(pool, w, w);
    assert Served(pool, 1, start, w) != pool[1].weight;
  }

  lemma {:induction false} AfterWrap(pool: seq<WeightedTarget>, w: nat, n: nat)
    requires NonNegative(pool) && |pool| == 2 && Total(pool) == w && Below(pool, 1) == w - 1
    requires 0 < n <= w < 0x8000_0000_0000_0000
    ensures Served(pool, 1, UINT64 - 2, n) == Served(pool, 1, UINT64 - 2, 1)
  {
    if n > 1 {
      AfterWrap(pool, w, n - 1);
      Arith.DivModUnique(UINT64 - 2 + n, 1, n - 2, UINT64);
      Arith.DivModUnique(n - 2, 0, n - 2, w);
      assert Below(pool, 0) == 0;
      PickedOnOwnRange(pool, n - 2, 1, 0);
    }
  }
}
