/**
 * Bitwise OR and AND-NOT on non-negative Python integers, bit by bit, and
 * the facts about single bits (`Bytes.Bit`) that the fault masks and the
 * status word rely on.
 */
module Bits {
  import opened Bytes

  /** `a | b` on non-negative integers. */
  function BitOr(a: nat, b: nat): nat
  {
    if a == 0 && b == 0 then 0
    else 2 * BitOr(a / 2, b / 2) + (if a % 2 == 1 || b % 2 == 1 then 1 else 0)
  }

  /** `a & ~b` on non-negative integers. */
  function BitAndNot(a: nat, b: nat): nat
  {
    if a == 0 then 0
    else 2 * BitAndNot(a / 2, b / 2) + (if a % 2 == 1 && b % 2 == 0 then 1 else 0)
  }

  lemma {:induction false} DivUnique(x: int, d: int, q: int, r: int)
    requires d > 0 && x == q * d + r && 0 <= r < d
    ensures x / d == q && x % d == r
  {
    var q0, r0 := x / d, x % d;
    assert x == q0 * d + r0;
    assert (q - q0) * d == r0 - r;
    ZeroMultiple(q - q0, d);
  }

  lemma {:induction false} ZeroMultiple(k: int, d: int)
    requires d > 0 && -d < k * d < d
    ensures k == 0
  {
  }

  /** Dividing by 2^(i+1) is halving, then dividing by 2^i. */
  lemma {:induction false} DivPow2Step(x: nat, i: nat)
    ensures x / Pow2(i + 1) == (x / 2) / Pow2(i)
  {
    var p := Pow2(i);
    var h := x / 2;
    var q := h / p;
    var r := h % p;
    assert x == 2 * h + x % 2;
    assert h == q * p + r;
    assert x == q * (2 * p) + (2 * r + x % 2);
    assert 0 <= 2 * r + x % 2 < 2 * p;
    DivUnique(x, 2 * p, q, 2 * r + x % 2);
  }

  /** Bit i + 1 of x is bit i of x / 2; bit 0 is the parity. */
  lemma {:induction false} BitStep(x: nat, i: nat)
    ensures Bit(x, i + 1) == Bit(x / 2, i)
    ensures Bit(x, 0) == (x % 2 == 1)
  {
    DivPow2Step(x, i);
  }

  /** OR sets exactly the bits set in either operand. */
  lemma {:induction false} OrBit(a: nat, b: nat, i: nat)
    ensures Bit(BitOr(a, b), i) <==> Bit(a, i) || Bit(b, i)
  {
    var r := BitOr(a, b);
    if a == 0 && b == 0 {
      ZeroBit(i);
    } else {
      assert r == 2 * BitOr(a / 2, b / 2) + (if a % 2 == 1 || b % 2 == 1 then 1 else 0);
      assert r / 2 == BitOr(a / 2, b / 2);
      BitStep(r, 0);
      BitStep(a, 0);
      BitStep(b, 0);
      if i > 0 {
        OrBit(a / 2, b / 2, i - 1);
        BitStep(r, i - 1);
        BitStep(a, i - 1);
        BitStep(b, i - 1);
      }
    }
  }

  /** AND-NOT keeps exactly the bits of a that are clear in b. */
  lemma {:induction false} AndNotBit(a: nat, b: nat, i: nat)
    ensures Bit(BitAndNot(a, b), i) <==> Bit(a, i) && !Bit(b, i)
  {
    var r := BitAndNot(a, b);
    if a == 0 {
      ZeroBit(i);
    } else {
      assert r == 2 * BitAndNot(a / 2, b / 2) + (if a % 2 == 1 && b % 2 == 0 then 1 else 0);
      assert r / 2 == BitAndNot(a / 2, b / 2);
      BitStep(r, 0);
      BitStep(a, 0);
      BitStep(b, 0);
      if i > 0 {
        AndNotBit(a / 2, b / 2, i - 1);
        BitStep(r, i - 1);
        BitStep(a, i - 1);
        BitStep(b, i - 1);
      }
    }
  }

  lemma {:induction false} ZeroBit(i: nat)
    ensures !Bit(0, i)
  {
  }

  /** `1 << i` has bit i and no other. */
  lemma {:induction false} PowBit(i: nat, b: nat)
    ensures Bit(Pow2(i), b) <==> i == b
  {
    if i == 0 {
      if b > 0 {
        BitStep(1, b - 1);
        ZeroBit(b - 1);
      }
    } else {
      assert Pow2(i) / 2 == Pow2(i - 1);
      assert Pow2(i) % 2 == 0;
      BitStep(Pow2(i), 0);
      if b > 0 {
        BitStep(Pow2(i), b - 1);
        PowBit(i - 1, b - 1);
      }
    }
  }

  lemma {:induction false} Pow2Monotone(m: nat, n: nat)
    requires m <= n
    ensures Pow2(m) <= Pow2(n)
  {
    if m < n {
      Pow2Monotone(m, n - 1);
    }
  }

  /** An integer below 2^n has no bit at n or above. */
  lemma {:induction false} HighBitClear(x: nat, n: nat, b: nat)
    requires x < Pow2(n) && n <= b
    ensures !Bit(x, b)
  {
    Pow2Monotone(n, b);
    DivUnique(x, Pow2(b), 0, x);
  }

  /** OR and AND-NOT stay below 2^n. */
  lemma {:induction false} OrBound(a: nat, b: nat, n: nat)
    requires a < Pow2(n) && b < Pow2(n)
    ensures BitOr(a, b) < Pow2(n)
  {
    if !(a == 0 && b == 0) {
      if n == 0 {
      } else {
        OrBound(a / 2, b / 2, n - 1);
      }
    }
  }

  lemma {:induction false} AndNotBound(a: nat, b: nat)
    ensures BitAndNot(a, b) <= a
  {
    if a != 0 {
      AndNotBound(a / 2, b / 2);
    }
  }

  /** Two integers below 2^n with the same bits 0 .. n-1 are equal. */
  lemma {:induction false} BitsDetermine(x: nat, y: nat, n: nat)
    requires x < Pow2(n) && y < Pow2(n)
    requires forall b :: 0 <= b < n ==> Bit(x, b) == Bit(y, b)
    ensures x == y
  {
    if n > 0 {
      BitStep(x, 0);
      BitStep(y, 0);
      forall b | 0 <= b < n - 1
        ensures Bit(x / 2, b) == Bit(y / 2, b)
      {
        BitStep(x, b);
        BitStep(y, b);
      }
      BitsDetermine(x / 2, y / 2, n - 1);
    }
  }

  /** OR with a value whose bits are all already set changes nothing. */
  lemma {:induction false} OrAbsorbs(a: nat, b: nat, n: nat)
    requires a < Pow2(n) && b < Pow2(n)
    requires forall i :: 0 <= i < n && Bit(b, i) ==> Bit(a, i)
    ensures BitOr(a, b) == a
  {
    OrBound(a, b, n);
    forall i | 0 <= i < n
      ensures Bit(BitOr(a, b), i) == Bit(a, i)
    {
      OrBit(a, b, i);
    }
    BitsDetermine(BitOr(a, b), a, n);
  }
  /** Every n is below 2^n. */
  lemma {:induction false} Pow2Exceeds(n: nat)
    ensures n < Pow2(n)
  {
    if n > 0 {
      Pow2Exceeds(n - 1);
    }
  }

  /** Two integers with the same bits are equal. */
  lemma {:induction false} BitsEqual(x: nat, y: nat)
    requires forall b: nat :: Bit(x, b) == Bit(y, b)
    ensures x == y
  {
    Pow2Exceeds(x + y);
    Pow2Monotone(x, x + y);
    Pow2Monotone(y, x + y);
    BitsDetermine(x, y, x + y);
  }

  /** An integer with no bit at n or above is below 2^n. */
  lemma {:induction false} BitsBelow(x: nat, n: nat)
    requires forall b: nat :: n <= b ==> !Bit(x, b)
    ensures x < Pow2(n)
  {
    if n == 0 {
      forall b: nat
        ensures Bit(x, b) == Bit(0, b)
      {
        ZeroBit(b);
      }
      BitsEqual(x, 0);
    } else {
      forall b: nat | n - 1 <= b
        ensures !Bit(x / 2, b)
      {
        BitStep(x, b);
      }
      BitsBelow(x / 2, n - 1);
    }
  }

  /** `w | (1 << k)`: bit k set, every other bit kept. */
  lemma {:induction false} OrPowBit(w: nat, k: nat)
    ensures forall b: nat :: Bit(BitOr(w, Pow2(k)), b) <==> Bit(w, b) || b == k
  {
    forall b: nat
      ensures Bit(BitOr(w, Pow2(k)), b) <==> Bit(w, b) || b == k
    {
      OrBit(w, Pow2(k), b);
      PowBit(k, b);
    }
  }
}
