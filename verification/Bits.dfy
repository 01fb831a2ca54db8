/** Unsigned 64-bit words as numbers: shifts, masks and single bits. */
module Bits {

  function Pow2(n: nat): (p: nat)
    ensures p >= 1
  {
    if n == 0 then 1 else 2 * Pow2(n - 1)
  }

  /** `(w >> k) & 1 == 1`. */
  predicate BitAt(w: nat, k: nat) {
    w / Pow2(k) % 2 == 1
  }

  lemma {:induction false} PowGrows(a: nat, b: nat)
    requires a <= b
    ensures Pow2(a) <= Pow2(b)
    ensures a < b ==> 2 * Pow2(a) <= Pow2(b)
  {
    if a < b {
      PowGrows(a, b - 1);
    }
  }

  lemma {:induction false} PowSplits(a: nat, b: nat)
    ensures Pow2(a + b) == Pow2(a) * Pow2(b)
  {
    if b > 0 {
      PowSplits(a, b - 1);
      assert Pow2(a + b) == 2 * Pow2(a + (b - 1));
    }
  }

  lemma {:induction false} MulStep(d: nat, a: int, b: int)
    requires a < b
    ensures d * a + d <= d * b
    decreases b - a
  {
    if a + 1 < b {
      MulStep(d, a, b - 1);
    }
    assert d * b == d * (b - 1) + d;
  }

  lemma QuotientIsUnique(w: int, d: nat, a: int, b: int)
    requires d * a <= w < d * a + d && d * b <= w < d * b + d
    ensures a == b
  {
    if a < b {
      MulStep(d, a, b);
    } else if b < a {
      MulStep(d, b, a);
    }
  }

  lemma DivIs(w: nat, d: nat, q: nat)
    requires d > 0 && d * q <= w < d * q + d
    ensures w / d == q
  {
    QuotientIsUnique(w, d, w / d, q);
  }

  lemma ModIs(w: nat, d: nat, q: nat, r: nat)
    requires d > 0 && w == d * q + r && r < d
    ensures w % d == r
  {
    DivIs(w, d, q);
  }

  /** A word below 2^(k+1) has bit k set exactly when it reaches 2^k. */
  lemma TopBit(w: nat, k: nat)
    requires w < Pow2(k + 1)
    ensures BitAt(w, k) <==> w >= Pow2(k)
  {
    if w >= Pow2(k) {
      DivIs(w, Pow2(k), 1);
    } else {
      DivIs(w, Pow2(k), 0);
    }
  }

  /** The word 2^n - 1 has exactly the bits below n. */
  lemma {:induction false} FullMaskBits(n: nat, k: nat)
    ensures BitAt(Pow2(n) - 1, k) <==> k < n
  {
    if k < n {
      var m := n - k;
      PowSplits(k, m);
      var q := Pow2(m) - 1;
      assert Pow2(n) - 1 == Pow2(k) * q + (Pow2(k) - 1) by {
        assert Pow2(k) * q == Pow2(k) * Pow2(m) - Pow2(k);
      }
      DivIs(Pow2(n) - 1, Pow2(k), q);
      assert Pow2(m) == 2 * Pow2(m - 1);
      ModIs(q, 2, Pow2(m - 1) - 1, 1);
    } else {
      PowGrows(n, k);
      DivIs(Pow2(n) - 1, Pow2(k), 0);
    }
  }

  /** What the set bits below n add up to. */
  function BitSum(w: nat, n: nat): nat {
    if n == 0 then 0 else BitSum(w, n - 1) + if BitAt(w, n - 1) then Pow2(n - 1) else 0
  }

  lemma RemainderSteps(w: nat, p: nat)
    requires p > 0
    ensures w % (2 * p) == w % p + if w / p % 2 == 1 then p else 0
  {
    var q, r := w / p, w % p;
    var h, bit := q / 2, q % 2;
    assert w == p * q + r;
    assert p * q == (2 * p) * h + p * bit by {
      assert q == 2 * h + bit;
    }
    assert p * bit == if bit == 1 then p else 0;
    ModIs(w, 2 * p, h, p * bit + r);
  }

  /** The bits below n are the remainder modulo 2^n. */
  lemma {:induction false} BitSumIsRemainder(w: nat, n: nat)
    ensures BitSum(w, n) == w % Pow2(n)
  {
    if n > 0 {
      BitSumIsRemainder(w, n - 1);
      RemainderSteps(w, Pow2(n - 1));
    }
  }

  lemma AllOnes(d: nat, e: nat)
    requires d > 0 && e > 0
    ensures d * e >= 1 && (d * e - 1) % d == d - 1
  {
    assert d * e == d * (e - 1) + d;
    ModIs(d * e - 1, d, e - 1, d - 1);
  }
}
