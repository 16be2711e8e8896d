/** Integer division, as `Duration / u32` and the port scan use it. */
module Arithmetic {
  lemma Floor(r: nat, d: nat)
    requires d > 0
    ensures d * (r / d) <= r < d * (r / d) + d
  {
  }

  lemma MulMonotone(a: nat, b: nat, c: nat)
    requires a <= b
    ensures a * c <= b * c
  {
  }

  /** The quotient is the only number with the remainder in range. */
  lemma {:induction false} QuotientUnique(r: nat, d: nat, q: nat)
    requires d > 0 && d * q <= r < d * q + d
    ensures r / d == q && r % d == r - d * q
  {
    Floor(r, d);
    var k := r / d;
    if k < q {
      MulMonotone(k + 1, q, d);
    } else if q < k {
      MulMonotone(q + 1, k, d);
    }
  }

  /** `g` fits `d` times into `r` exactly when the quotient reaches it. */
  lemma {:induction false} QuotientAtLeast(r: nat, d: nat, g: nat)
    requires d > 0
    ensures r / d >= g <==> r >= d * g
  {
    Floor(r, d);
    if r / d >= g {
      MulMonotone(g, r / d, d);
    } else {
      MulMonotone(r / d + 1, g, d);
    }
  }

  lemma {:induction false} QuotientSmaller(r: nat, d: nat)
    requires d > 0
    ensures r / d <= r
  {
    Floor(r, d);
    MulMonotone(1, d, r / d);
  }

  /** Adding `b` raises a quotient by at most `b`. */
  lemma {:induction false} QuotientGrowth(a: nat, b: nat, d: nat)
    requires d > 0
    ensures a / d <= (a + b) / d <= a / d + b
  {
    var q := a / d;
    Floor(a, d);
    QuotientAtLeast(a + b, d, q);
    MulMonotone(1, d, b);
    assert d * (q + b + 1) == d * q + d * b + d;
    QuotientAtLeast(a + b, d, q + b + 1);
  }

  lemma Swap(x: nat, y: nat, z: nat)
    ensures x * (y * z) == y * (x * z)
  {
  }

  lemma Associate(x: nat, y: nat, z: nat)
    ensures (x * y) * z == x * (y * z)
  {
  }

  lemma Distribute(x: nat, y: nat, z: nat)
    ensures x * (y + z) == x * y + x * z
  {
  }
}
