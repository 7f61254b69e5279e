/**
 The bit operations of C on non-negative integers, bit by bit, and what they
 mean for division and remainder when one operand is a mask.
 */
module Bits {

  function Pow2(k: nat): (p: nat)
    ensures p >= 1
  {
    if k == 0 then 1 else 2 * Pow2(k - 1)
  }

  /** a | b */
  function Or(a: nat, b: nat): nat {
    if a == 0 && b == 0 then 0 else (if a % 2 == 1 || b % 2 == 1 then 1 else 0) + 2 * Or(a / 2, b / 2)
  }

  /** a & b */
  function And(a: nat, b: nat): nat {
    if a == 0 || b == 0 then 0 else (if a % 2 == 1 && b % 2 == 1 then 1 else 0) + 2 * And(a / 2, b / 2)
  }

  // ----- Division -----

  lemma MulAtLeast(c: int, q: int)
    requires c >= 0
    ensures q <= -1 ==> c * q <= -c
    ensures q == 0 ==> c * q == 0
    ensures q == 1 ==> c * q == c
    ensures q >= 1 ==> c * q >= c
    ensures q >= 2 ==> c * q >= 2 * c
  {
    if q >= 2 {
      assert c * q == c * 2 + c * (q - 2);
    } else if q <= -1 {
      assert c * q == -c + c * (q + 1);
    }
  }

  lemma MulAssoc(a: nat, b: nat, c: nat)
    ensures (a * b) * c == a * (b * c)
  {
  }

  lemma MulDistributes(a: nat, b: nat, c: nat)
    ensures a * (b + c) == a * b + a * c
  {
  }

  lemma QuotientNatural(a: nat, d: nat)
    requires d >= 1
    ensures a / d >= 0
  {
    assert a == d * (a / d) + a % d;
    MulAtLeast(d, a / d);
  }

  lemma DivModUnique(a: nat, d: nat, q: nat, r: nat)
    requires r < d && a == d * q + r
    ensures a / d == q && a % d == r
  {
    assert a == d * (a / d) + a % d;
    assert d * (q - a / d) == a % d - r;
    MulAtLeast(d, q - a / d);
  }

  lemma DivTwice(a: nat, p: nat)
    requires p >= 1
    ensures a / (2 * p) == (a / 2) / p
    ensures a % (2 * p) == 2 * ((a / 2) % p) + a % 2
  {
    var q, r := (a / 2) / p, (a / 2) % p;
    assert a / 2 == p * q + r;
    assert a == (2 * p) * q + (2 * r + a % 2);
    DivModUnique(a, 2 * p, q, 2 * r + a % 2);
  }

  lemma BelowProduct(d: nat, c: nat, v: nat, r: nat)
    requires v < c && r < d
    ensures d * v + r < d * c
  {
    MulDistributes(d, v, c - v);
    MulAtLeast(d, c - v);
  }

  /** Dividing by a product is dividing twice. */
  lemma DivProduct(a: nat, d: nat, c: nat)
    requires d >= 1 && c >= 1 && d * c >= 1
    ensures a / (d * c) == a / d / c
    ensures a % (d * c) == d * (a / d % c) + a % d
  {
    var q, r := a / d, a % d;
    QuotientNatural(a, d);
    var u, v := q / c, q % c;
    QuotientNatural(q, c);
    assert a == d * (c * u + v) + r;
    MulDistributes(d, c * u, v);
    MulAssoc(d, c, u);
    BelowProduct(d, c, v, r);
    DivModUnique(a, d * c, u, d * v + r);
  }

  // ----- Shifts and masks -----

  /** a << k */
  function ShiftLeft(a: nat, k: nat): nat { a * Pow2(k) }

  /** a >> k */
  function ShiftRight(a: nat, k: nat): nat {
    QuotientNatural(a, Pow2(k));
    a / Pow2(k)
  }

  lemma {:induction false} AndOdd(a: nat, m: nat)
    ensures And(a, 2 * m + 1) == a % 2 + 2 * And(a / 2, m)
  {
    assert (2 * m + 1) / 2 == m && (2 * m + 1) % 2 == 1;
  }

  lemma {:induction false} AndMask(a: nat, k: nat)
    ensures And(a, Pow2(k) - 1) == a % Pow2(k)
  {
    if k == 0 {
      assert And(a, 0) == 0;
    } else {
      var p := Pow2(k - 1);
      DivTwice(a, p);
      AndMask(a / 2, k - 1);
      AndOdd(a, p - 1);
      assert Pow2(k) - 1 == 2 * (p - 1) + 1;
    }
  }

  /** Filling the low k bits of two numbers makes them equal exactly when they agree above those bits. */
  lemma {:induction false} SameAboveMask(a: nat, b: nat, k: nat)
    ensures Or(a, Pow2(k) - 1) == Or(b, Pow2(k) - 1) <==> a / Pow2(k) == b / Pow2(k)
  {
    if k == 0 {
      OrZero(a);
      OrZero(b);
    } else {
      assert (Pow2(k) - 1) / 2 == Pow2(k - 1) - 1;
      DivTwice(a, Pow2(k - 1));
      DivTwice(b, Pow2(k - 1));
      SameAboveMask(a / 2, b / 2, k - 1);
    }
  }

  lemma {:induction false} OrZero(a: nat)
    ensures Or(a, 0) == a
  {
    if a > 0 {
      OrZero(a / 2);
    }
  }

  /** Numbers without a common bit are combined by addition. */
  lemma {:induction false} OrDisjoint(a: nat, h: nat, k: nat)
    requires a < Pow2(k)
    ensures Or(a, h * Pow2(k)) == a + h * Pow2(k)
  {
    if k == 0 {
      OrZeroLeft(h);
    } else {
      var rest := h * Pow2(k - 1);
      assert h * Pow2(k) == 2 * rest;
      OrDisjoint(a / 2, h, k - 1);
    }
  }

  lemma {:induction false} OrZeroLeft(a: nat)
    ensures Or(0, a) == a
  {
    if a > 0 {
      OrZeroLeft(a / 2);
    }
  }

  // ----- Remainders -----

  /** Reducing first by a multiple d of b does not disturb the remainder by b. */
  lemma ModMod(a: nat, b: nat, c: nat, d: nat)
    requires b >= 1 && c >= 1 && d >= 1 && d == b * c
    ensures (a % d) % b == a % b
  {
    var v := a / b % c;
    DivProduct(a, b, c);
    assert a % d == b * v + a % b;
    QuotientNatural(a, b);
    DivModUnique(a % d, b, v, a % b);
  }

  lemma {:induction false} Pow2Add(k: nat, l: nat)
    ensures Pow2(k + l) == Pow2(k) * Pow2(l)
  {
    if k > 0 {
      Pow2Add(k - 1, l);
    }
  }

  /** The remainder by twice m is the remainder by m, or that plus m. */
  lemma ModDouble(h: nat, m: nat)
    requires m >= 1
    ensures h % (2 * m) == h % m || h % (2 * m) == h % m + m
  {
    var d := 2 * m;
    var q, r := h / d, h % d;
    QuotientNatural(h, d);
    assert h == d * q + r;
    assert d * q == m * (2 * q) by {
      MulAssoc(m, 2, q);
    }
    if r < m {
      DivModUnique(h, m, 2 * q, r);
    } else {
      MulDistributes(m, 2 * q, 1);
      DivModUnique(h, m, 2 * q + 1, r - m);
    }
  }

  /** Among m consecutive numbers from x on, one has remainder r. */
  lemma Covered(x: nat, m: nat, r: nat) returns (i: nat)
    requires r < m
    ensures i < m && (i + x) % m == r
  {
    var q, s := x / m, x % m;
    assert x == m * q + s;
    if s <= r {
      i := r - s;
      DivModUnique(i + x, m, q, r);
    } else {
      i := r + m - s;
      MulDistributes(m, q, 1);
      DivModUnique(i + x, m, q + 1, r);
    }
  }
}
