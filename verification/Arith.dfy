/** Facts about integer division with a variable divisor. */
module Arith {
  lemma MulStep(k: int, w: int)
    requires k >= 1 && w >= 0
    ensures k * w >= w
  {
    var j := k - 1;
    assert j * w >= 0;
    assert k * w == j * w + w;
  }

  lemma MulMonotone(a: int, b: int, w: int)
    requires a <= b && w >= 0
    ensures a * w <= b * w
  {
    assert (b - a) * w >= 0;
    assert (b - a) * w == b * w - a * w;
  }

  lemma Quotients(q: int, r: int, q': int, r': int, w: int)
    requires 0 <= r < w && 0 <= r' < w && q * w + r == q' * w + r'
    ensures q <= q'
  {
    if q > q' {
      assert (q - q') * w == q * w - q' * w;
      MulStep(q - q', w);
    }
  }

  /** Quotient and remainder are determined by their defining equation. */
  lemma DivModUnique(a: int, q: int, r: int, w: int)
    requires 0 <= r < w && a == q * w + r
    ensures a / w == q && a % w == r
  {
    var q', r' := a / w, a % w;
    assert a == q' * w + r';
    Quotients(q, r, q', r', w);
    Quotients(q', r', q, r, w);
  }

  lemma ModShift(x: int, d: int, w: int)
    requires w > 0
    ensures (d * w + x) % w == x % w
    ensures (d * w + x) / w == d + x / w
  {
    assert x == x / w * w + x % w;
    assert (d + x / w) * w == d * w + x / w * w;
    DivModUnique(d * w + x, d + x / w, x % w, w);
  }

  /** Rounding up: the least q with a <= q * w. */
  lemma CeilDiv(a: int, w: int)
    requires w > 0
    ensures var q := (a + w - 1) / w; a <= q * w < a + w
  {
    assert a + w - 1 == (a + w - 1) / w * w + (a + w - 1) % w;
  }

  /** Rounding down: the greatest q with q * w <= a. */
  lemma FloorDiv(a: nat, w: nat)
    requires w > 0
    ensures var q := a / w; q >= 0 && q * w <= a < q * w + w
  {
    assert a == a / w * w + a % w;
  }

  lemma MulPred(q: int, w: int)
    ensures q * w == (q - 1) * w + w
  {
  }

  lemma DivMonotone(a: int, b: int, w: int)
    requires a <= b && w > 0
    ensures a / w <= b / w
  {
    var p, q := a / w, b / w;
    assert a == p * w + a % w && b == q * w + b % w;
    assert (q + 1) * w == q * w + w;
    if p > q {
      MulMonotone(q + 1, p, w);
    }
  }
}
