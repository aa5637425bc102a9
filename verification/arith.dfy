/** Facts about real arithmetic that the geometry proofs use, each stated
    over plain reals so that the solver meets them in isolation. */
module RealArith {

  lemma MulOne(a: real)
    ensures a * 1.0 == a
  {
  }

  lemma MulZero(a: real)
    ensures a * 0.0 == 0.0
  {
  }

  lemma DivMulCancel(a: real, k: real)
    requires k != 0.0
    ensures (a / k) * k == a
  {
  }

  lemma DivCongruence(a: real, b: real, k: real)
    requires a == b && k != 0.0
    ensures a / k == b / k
  {
  }

  lemma MulDivCancel(a: real, b: real)
    requires a != 0.0
    ensures a * (b / a) == b
  {
  }

  /** For `k > 0` and `w >= 0`, `a / k` and `(a + w) / k` are `w / k` apart,
      in that order. */
  lemma DivSpan(a: real, w: real, k: real)
    requires k > 0.0 && w >= 0.0
    ensures (a + w) / k - a / k == w / k
    ensures a / k <= (a + w) / k
  {
    var q, r := a / k, w / k;
    assert q * k == a && r * k == w;
    assert (q + r) * k == a + w;
    assert (a + w) / k == q + r;
    assert r >= 0.0;
  }

  /** Moving `a` by `d` moves `a * k + c` by `d * k`. */
  lemma OffsetArith(a: real, d: real, k: real, c: real)
    ensures (a - d) * k + c == (a * k + c) - d * k
    ensures (a + d) * k + c == (a * k + c) + d * k
  {
  }

  lemma ComposeArith(p: real, ik: real, ix: real, ok: real, ox: real)
    ensures p * (ok * ik) + (ox + ok * ix) == (p * ik + ix) * ok + ox
  {
  }

  lemma ShiftArith(a: real, b: real, k: real, c: real)
    ensures a * k + (c + k * b) == (a + b) * k + c
  {
  }

  lemma MulSwap(a: real, s: real, k: real)
    ensures a * (k * s) == (a * s) * k
  {
  }

  lemma SquareGrows(a: real, r: real)
    requires 0.0 <= r < a
    ensures r * r < a * a
  {
    var ra := r * a;
    assert r * r <= ra;
    assert ra < a * a;
  }

  /** `a * a + rest <= r * r` with `rest >= 0` bounds `a` by `r`. */
  lemma SquareBound(a: real, r: real, rest: real)
    requires r >= 0.0 && rest >= 0.0
    requires a * a + rest <= r * r
    ensures -r <= a <= r
  {
    if a > r {
      SquareGrows(a, r);
      assert false;
    } else if a < -r {
      SquareGrows(-a, r);
      assert false;
    }
  }

  lemma RatioAtLeastOne(a: real, b: real)
    requires 0.0 < b <= a
    ensures a / b >= 1.0
  {
    assert (a / b) * b == a;
  }

  lemma RatioAtMostOne(a: real, b: real)
    requires 0.0 < a <= b
    ensures a / b <= 1.0
  {
    assert (a / b) * b == a;
  }

  lemma DivLeIff(a: real, b: real, k: real)
    requires k > 0.0
    ensures a / k <= b <==> a <= b * k
  {
    assert (a / k) * k == a;
    if a / k <= b {
      assert (a / k) * k <= b * k;
    } else {
      assert (a / k) * k > b * k;
    }
  }

  lemma LeDivIff(b: real, a: real, k: real)
    requires k > 0.0
    ensures b <= a / k <==> b * k <= a
  {
    assert (a / k) * k == a;
    if b <= a / k {
      assert b * k <= (a / k) * k;
    } else {
      assert b * k > (a / k) * k;
    }
  }

  /** Dividing by a larger positive number gives a smaller quotient. */
  lemma DivAntitone(m: real, a: real, b: real)
    requires m >= 0.0 && 0.0 < a <= b
    ensures m / b <= m / a
  {
    var qa, qb := m / a, m / b;
    assert qa * a == m && qb * b == m;
  }

  lemma NonPositiveProduct(a: real, b: real)
    requires a <= 0.0 && b > 0.0
    ensures a * b <= 0.0
  {
  }

  lemma MulMonotone(r: real, k: real, k': real)
    requires r >= 0.0 && k <= k'
    ensures r * k <= r * k'
  {
  }

  lemma MulAssocOne(g: real, p: real, k: real)
    requires p * k == 1.0
    ensures (k * g) * p == g
  {
    var one := p * k;
    assert (k * g) * p == g * one;
  }

  /** `v` lies between `-tx / k` and `(-tx + w) / k` exactly when
      `v * k + tx` lies between `0` and `w`. */
  lemma ScaledIntervalIff(v: real, tx: real, k: real, w: real)
    requires k > 0.0
    ensures (-tx / k <= v <= (-tx + w) / k) <==> (0.0 <= v * k + tx <= w)
  {
    DivLeIff(-tx, v, k);
    LeDivIff(v, -tx + w, k);
  }
}
