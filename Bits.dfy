/**
 * Python's integer bit operations on non-negative integers. Python integers
 * are unbounded, so shifts are multiplication and floor division by powers of
 * two, and `|` and `&` work bit by bit from the least significant end with no
 * width limit.
 */
module Bits {

  function Pow2(k: nat): (r: nat)
    ensures r >= 1
  {
    if k == 0 then 1 else 2 * Pow2(k - 1)
  }

  /** `x << k` */
  function ShiftLeft(x: nat, k: nat): nat
  {
    x * Pow2(k)
  }

  /** `x >> k` */
  function ShiftRight(x: nat, k: nat): nat
  {
    Quotient(x, Pow2(k))
  }

  function Quotient(x: nat, d: nat): nat
    requires d > 0
  {
    x / d
  }

  /** `a | b` */
  function BitOr(a: nat, b: nat): nat
    decreases a
  {
    if a == 0 then b
    else if b == 0 then a
    else 2 * BitOr(a / 2, b / 2) + (if a % 2 == 1 || b % 2 == 1 then 1 else 0)
  }

  /** `a & b` */
  function BitAnd(a: nat, b: nat): nat
    decreases a
  {
    if a == 0 || b == 0 then 0
    else 2 * BitAnd(a / 2, b / 2) + (if a % 2 == 1 && b % 2 == 1 then 1 else 0)
  }

  lemma {:induction false} Pow2Split(k: nat)
    requires k > 0
    ensures Pow2(k) == 2 * Pow2(k - 1)
  {
  }

  /** Halving a multiple of 2^k, k > 0, gives the same multiple of 2^(k-1). */
  lemma {:induction false} HalveMultiple(a: nat, k: nat)
    requires k > 0
    ensures a * Pow2(k) / 2 == a * Pow2(k - 1)
    ensures a * Pow2(k) % 2 == 0
  {
    assert a * Pow2(k) == 2 * (a * Pow2(k - 1));
  }

  lemma DoubleFactor(a: nat, b: nat)
    ensures a * (2 * b) == 2 * (a * b)
  {
  }

  /** Shifting both operands left by k shifts their OR left by k. */
  lemma {:induction false} OrShift(x: nat, y: nat, k: nat)
    ensures BitOr(x * Pow2(k), y * Pow2(k)) == BitOr(x, y) * Pow2(k)
  {
    if k == 0 {
    } else if x == 0 || y == 0 {
    } else {
      var p, h := Pow2(k), Pow2(k - 1);
      Pow2Split(k);
      HalveMultiple(x, k);
      HalveMultiple(y, k);
      var xp, yp := x * p, y * p;
      assert xp >= x && yp >= y by {
        assert x * p >= x * 1;
        assert y * p >= y * 1;
      }
      assert xp / 2 == x * h && yp / 2 == y * h;
      assert xp % 2 == 0 && yp % 2 == 0;
      assert BitOr(xp, yp) == 2 * BitOr(x * h, y * h);
      OrShift(x, y, k - 1);
      DoubleFactor(BitOr(x, y), h);
    }
  }

  /**
   * When b fits below bit k, OR-ing it into a multiple of 2^k touches no set
   * bit, so `|` is addition.
   */
  lemma {:induction false} OrIsAddition(a: nat, b: nat, k: nat)
    requires b < Pow2(k)
    ensures BitOr(a * Pow2(k), b) == a * Pow2(k) + b
  {
    if k == 0 {
      assert b == 0;
    } else if a * Pow2(k) == 0 || b == 0 {
    } else {
      HalveMultiple(a, k);
      Pow2Split(k);
      OrIsAddition(a, b / 2, k - 1);
      assert BitOr(a * Pow2(k), b) == 2 * BitOr(a * Pow2(k - 1), b / 2) + b % 2;
    }
  }

  lemma MulBound(d: int, k: int)
    requires d > 0
    ensures k >= 1 ==> d * k >= d
    ensures k <= -1 ==> d * k <= -d
  {
  }

  /** Division and remainder are determined by any quotient and remainder in range. */
  lemma DivModUnique(x: int, d: int, q: int, r: int)
    requires d > 0 && 0 <= r < d && x == d * q + r
    ensures x / d == q && x % d == r
  {
    var q', r' := x / d, x % d;
    assert x == d * q' + r';
    assert d * (q - q') == r' - r;
    MulBound(d, q - q');
  }

  /** x % (2p) splits into the lowest bit and the rest taken modulo p. */
  lemma ModOfDouble(x: nat, p: nat)
    requires p > 0
    ensures x % (2 * p) == 2 * ((x / 2) % p) + x % 2
  {
    var q, s := (x / 2) / p, (x / 2) % p;
    DivModUnique(x / 2, p, q, s);
    assert x / 2 == p * q + s;
    assert x == 2 * (x / 2) + x % 2;
    assert x == (2 * p) * q + (2 * s + x % 2);
    DivModUnique(x, 2 * p, q, 2 * s + x % 2);
  }

  /** AND with the mask 2^k - 1 keeps the k lowest bits. */
  lemma {:induction false} AndLowMask(x: nat, k: nat)
    ensures BitAnd(x, Pow2(k) - 1) == x % Pow2(k)
  {
    if k == 0 {
    } else if x == 0 {
    } else {
      Pow2Split(k);
      var m := Pow2(k) - 1;
      assert m / 2 == Pow2(k - 1) - 1 && m % 2 == 1;
      AndLowMask(x / 2, k - 1);
      ModOfDouble(x, Pow2(k - 1));
    }
  }

  /** x & (2^k - 1) < 2^k */
  lemma {:induction false} AndBelowMask(x: nat, k: nat)
    ensures BitAnd(x, Pow2(k) - 1) < Pow2(k)
  {
    AndLowMask(x, k);
  }
}
