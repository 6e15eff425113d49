/** Facts about quotients that proofs ask for one at a time. */
module Numbers {
  lemma {:induction false} StepUp(a: int, b: int, w: nat)
    requires a < b
    ensures a * w + w <= b * w
  {
    assert b * w == (a + 1) * w + (b - a - 1) * w;
    assert (a + 1) * w == a * w + w;
  }

  lemma {:induction false} Quotient(x: int, w: nat, k: int)
    requires w > 0
    ensures x / w == k <==> k * w <= x < k * w + w
  {
    var q := x / w;
    assert x == q * w + x % w;
    if q < k {
      StepUp(q, k, w);
    } else if q > k {
      StepUp(k, q, w);
    }
  }

  lemma {:induction false} Divided(q: int, r: nat, w: nat)
    requires r < w
    ensures (q * w + r) / w == q && (q * w + r) % w == r
  {
    Quotient(q * w + r, w, q);
    assert q * w + r == (q * w + r) / w * w + (q * w + r) % w;
  }
}
