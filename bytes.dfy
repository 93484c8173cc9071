/**
 * Byte sequences as Python's `struct` module and numpy casts produce them:
 * little- and big-endian integers of a given width, two's complement for
 * signed formats, and the integer conversions the encoders apply.
 */
module Bytes {

  type byte = b: int | 0 <= b < 256

  function Pow256(n: nat): (r: nat)
    ensures r >= 1
  {
    if n == 0 then 1 else 256 * Pow256(n - 1)
  }

  function Pow2(n: nat): (r: nat)
    ensures r >= 1
  {
    if n == 0 then 1 else 2 * Pow2(n - 1)
  }

  // ---------------------------------------------------------------------
  // Unsigned integers of n bytes

  /** The n-byte little-endian form of v (struct format letters `B`, `H`, `I` after `<`). */
  function LE(v: nat, n: nat): (r: seq<byte>)
    requires v < Pow256(n)
    ensures |r| == n
  {
    if n == 0 then [] else [v % 256] + LE(v / 256, n - 1)
  }

  function FromLE(b: seq<byte>): (v: nat)
    ensures v < Pow256(|b|)
  {
    if |b| == 0 then 0 else b[0] + 256 * FromLE(b[1..])
  }

  /** The n-byte big-endian form of v (struct format letters after `>`). */
  function BE(v: nat, n: nat): (r: seq<byte>)
    requires v < Pow256(n)
    ensures |r| == n
  {
    if n == 0 then [] else BE(v / 256, n - 1) + [v % 256]
  }

  function FromBE(b: seq<byte>): (v: nat)
    ensures v < Pow256(|b|)
  {
    if |b| == 0 then 0 else 256 * FromBE(b[..|b| - 1]) + b[|b| - 1]
  }

  lemma {:induction false} FromLEOfLE(v: nat, n: nat)
    requires v < Pow256(n)
    ensures FromLE(LE(v, n)) == v
  {
    if n > 0 {
      FromLEOfLE(v / 256, n - 1);
      assert LE(v, n)[1..] == LE(v / 256, n - 1);
    }
  }

  lemma {:induction false} LEOfFromLE(b: seq<byte>)
    ensures LE(FromLE(b), |b|) == b
  {
    if |b| > 0 {
      LEOfFromLE(b[1..]);
      assert FromLE(b) % 256 == b[0];
      assert FromLE(b) / 256 == FromLE(b[1..]);
    }
  }

  lemma {:induction false} FromBEOfBE(v: nat, n: nat)
    requires v < Pow256(n)
    ensures FromBE(BE(v, n)) == v
  {
    if n > 0 {
      var r := BE(v, n);
      assert r[..n - 1] == BE(v / 256, n - 1);
      FromBEOfBE(v / 256, n - 1);
    }
  }

  lemma {:induction false} BEOfFromBE(b: seq<byte>)
    ensures BE(FromBE(b), |b|) == b
  {
    if |b| > 0 {
      var init := b[..|b| - 1];
      BEOfFromBE(init);
      assert FromBE(b) % 256 == b[|b| - 1];
      assert FromBE(b) / 256 == FromBE(init);
      assert b == init + [b[|b| - 1]];
    }
  }

  // ---------------------------------------------------------------------
  // Signed integers in two's complement

  /** The two's-complement code of v in n bytes. */
  function Unsigned(v: int, n: nat): (u: nat)
    requires -(Pow256(n) / 2) <= v < Pow256(n) / 2
    ensures u < Pow256(n)
    ensures v >= 0 ==> u == v
    ensures v < 0 ==> u == v + Pow256(n)
  {
    if v < 0 then v + Pow256(n) else v
  }

  /** The signed value of an n-byte two's-complement code. */
  function Signed(u: nat, n: nat): (v: int)
    requires n > 0 && u < Pow256(n)
    ensures -(Pow256(n) / 2) <= v < Pow256(n) / 2
  {
    assert Pow256(n) == 256 * Pow256(n - 1);
    if u >= Pow256(n) / 2 then u - Pow256(n) else u
  }

  lemma {:induction false} SignedOfUnsigned(v: int, n: nat)
    requires n > 0 && -(Pow256(n) / 2) <= v < Pow256(n) / 2
    ensures Signed(Unsigned(v, n), n) == v
  {
    assert Pow256(n) == 256 * Pow256(n - 1);
  }

  predicate InSigned(v: int, n: nat) { -(Pow256(n) / 2) <= v < Pow256(n) / 2 }

  predicate InUnsigned(v: int, n: nat) { 0 <= v < Pow256(n) }

  /** Signed little-endian (struct letters `h`, `i` after `<`). */
  function SLE(v: int, n: nat): (r: seq<byte>)
    requires InSigned(v, n)
    ensures |r| == n
  {
    LE(Unsigned(v, n), n)
  }

  /** Signed big-endian (struct letters `h`, `i` after `>`). */
  function SBE(v: int, n: nat): (r: seq<byte>)
    requires InSigned(v, n)
    ensures |r| == n
  {
    BE(Unsigned(v, n), n)
  }

  lemma {:induction false} ReadSLE(v: int, n: nat)
    requires n > 0 && InSigned(v, n)
    ensures Signed(FromLE(SLE(v, n)), n) == v
  {
    FromLEOfLE(Unsigned(v, n), n);
    SignedOfUnsigned(v, n);
  }

  lemma {:induction false} ReadSBE(v: int, n: nat)
    requires n > 0 && InSigned(v, n)
    ensures Signed(FromBE(SBE(v, n)), n) == v
  {
    FromBEOfBE(Unsigned(v, n), n);
    SignedOfUnsigned(v, n);
  }

  // ---------------------------------------------------------------------
  // Integer conversions

  /** Python's `v & (2**(8n) - 1)` and numpy's unsigned `astype`, for any int v. */
  function WrapUnsigned(v: int, n: nat): (u: nat)
    ensures u < Pow256(n)
    ensures 0 <= v < Pow256(n) ==> u == v
  {
    ModInRange(v, Pow256(n));
    v % Pow256(n)
  }

  /** numpy's signed `astype` on an int: the value congruent to v in the signed range. */
  function WrapSigned(v: int, n: nat): (s: int)
    requires n > 0
    ensures InSigned(s, n)
    ensures InSigned(v, n) ==> s == v
  {
    var half := Pow256(n) / 2;
    assert Pow256(n) == 2 * half by { assert Pow256(n) == 256 * Pow256(n - 1); }
    ModInRange(v + half, Pow256(n));
    (v + half) % Pow256(n) - half
  }

  lemma {:induction false} ModInRange(x: int, m: int)
    requires m > 0
    ensures 0 <= x % m < m
    ensures 0 <= x < m ==> x % m == x
  {
    if 0 <= x < m {
      assert x == 0 * m + x;
    }
  }

  /** Python's `int(x)` on a float: truncation toward zero. */
  function Trunc(x: real): (i: int)
    ensures x >= 0.0 ==> i as real <= x < i as real + 1.0
    ensures x < 0.0 ==> i as real - 1.0 < x <= i as real
  {
    if x >= 0.0 then x.Floor else -((-x).Floor)
  }

  /** Bit i of a non-negative integer, as Python's `x & (1 << i) != 0`. */
  predicate Bit(x: nat, i: nat)
  {
    (x / Pow2(i)) % 2 == 1
  }

  /** The number of set bits among bits 0 .. n-1 of x. */
  function Popcount(x: nat, n: nat): (c: nat)
    ensures c <= n
  {
    if n == 0 then 0 else Popcount(x, n - 1) + (if Bit(x, n - 1) then 1 else 0)
  }

  // ---------------------------------------------------------------------
  // Concatenation of fields

  function Flatten<T>(chunks: seq<seq<T>>): (r: seq<T>)
  {
    if |chunks| == 0 then [] else chunks[0] + Flatten(chunks[1..])
  }

  /** Concatenating fields of width w places field k at offsets k*w .. k*w+w-1. */
  lemma {:induction false} FlattenUniform<T>(chunks: seq<seq<T>>, w: nat, k: nat)
    requires forall i :: 0 <= i < |chunks| ==> |chunks[i]| == w
    requires k < |chunks|
    ensures |Flatten(chunks)| == w * |chunks|
    ensures (k + 1) * w <= |Flatten(chunks)|
    ensures Flatten(chunks)[k * w..(k + 1) * w] == chunks[k]
  {
    FlattenLength(chunks, w);
    if k > 0 {
      FlattenUniform(chunks[1..], w, k - 1);
      var tail := Flatten(chunks[1..]);
      assert Flatten(chunks) == chunks[0] + tail;
      assert Flatten(chunks)[k * w..(k + 1) * w] == tail[(k - 1) * w..k * w];
    } else {
      assert Flatten(chunks) == chunks[0] + Flatten(chunks[1..]);
    }
  }

  lemma {:induction false} FlattenLength<T>(chunks: seq<seq<T>>, w: nat)
    requires forall i :: 0 <= i < |chunks| ==> |chunks[i]| == w
    ensures |Flatten(chunks)| == w * |chunks|
  {
    if |chunks| > 0 {
      FlattenLength(chunks[1..], w);
    }
  }

  lemma {:induction false} FlattenSnoc<T>(chunks: seq<seq<T>>, c: seq<T>)
    ensures Flatten(chunks + [c]) == Flatten(chunks) + c
  {
    if |chunks| == 0 {
      assert chunks + [c] == [c];
    } else {
      assert (chunks + [c])[1..] == chunks[1..] + [c];
      FlattenSnoc(chunks[1..], c);
    }
  }
}
