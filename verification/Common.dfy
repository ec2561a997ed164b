/** Shared vocabulary: optional values and sums over sequences. */
module Common {

  datatype Option<+T> = None | Some(value: T)

  /** The sum of a sequence, taken from its end so that appending is one unfolding. */
  function Sum(s: seq<int>): int {
    if |s| == 0 then 0 else Sum(s[..|s| - 1]) + s[|s| - 1]
  }

  lemma {:induction false} SumUpdate(s: seq<int>, i: nat, v: int)
    requires i < |s|
    ensures Sum(s[i := v]) == Sum(s) - s[i] + v
  {
    var n := |s| - 1;
    if i == n {
      assert s[i := v][..n] == s[..n];
    } else {
      assert s[i := v][..n] == s[..n][i := v];
      SumUpdate(s[..n], i, v);
    }
  }

  lemma SumAppend(s: seq<int>, v: int)
    ensures Sum(s + [v]) == Sum(s) + v
  {
    assert (s + [v])[..|s|] == s;
  }

  /** A pointwise order is an order on the sums. */
  lemma {:induction false} SumMonotone(s: seq<int>, t: seq<int>)
    requires |s| == |t|
    requires forall i | 0 <= i < |s| :: s[i] <= t[i]
    ensures Sum(s) <= Sum(t)
  {
    if |s| > 0 {
      SumMonotone(s[..|s| - 1], t[..|t| - 1]);
    }
  }

  lemma {:induction false} SumZero(s: seq<int>)
    requires forall i | 0 <= i < |s| :: s[i] == 0
    ensures Sum(s) == 0
  {
    if |s| > 0 {
      SumZero(s[..|s| - 1]);
    }
  }

  /** Every summand of a non-negative sum is at most the sum. */
  lemma SumAtLeast(s: seq<int>, i: nat)
    requires i < |s|
    requires forall j | 0 <= j < |s| :: s[j] >= 0
    ensures Sum(s) >= s[i]
  {
    SumUpdate(s, i, 0);
    var zeros := seq(|s|, j => 0);
    SumZero(zeros);
    SumMonotone(zeros, s[i := 0]);
  }

  /** A sum of n terms, each at most b, is at most n * b. */
  lemma {:induction false} SumUpperBound(s: seq<int>, b: int)
    requires forall i | 0 <= i < |s| :: s[i] <= b
    ensures Sum(s) <= |s| * b
  {
    if |s| > 0 {
      SumUpperBound(s[..|s| - 1], b);
    }
  }
}
