/**
 * Unsigned 64-bit words (C++ `uint64`) modelled as naturals below 2^64,
 * with the bitwise operators written out bit by bit.  Bit `i` of `x` is
 * `Bit(x, i)`, bit 0 being the least significant.  Every operator gets a
 * per-bit characterisation, and `Ext` turns per-bit agreement back into
 * equality, so facts about masks are proved one bit position at a time.
 */
module Uint64 {

  const Width: nat := 64

  function Pow2(k: nat): (r: nat)
    ensures r > 0
  {
    if k == 0 then 1 else 2 * Pow2(k - 1)
  }

  type U64 = x: nat | x < Pow2(Width)

  /** Bit `i` of `x`. */
  predicate Bit(x: nat, i: nat)
  {
    if i == 0 then x % 2 == 1 else Bit(x / 2, i - 1)
  }

  /** The low bit of `x` as a number. */
  function Low(x: nat): (r: nat)
    ensures r < 2
  {
    x % 2
  }

  // ---------------------------------------------------------------------
  // Width-`w` operators: each one builds its result from the low bit up.

  function OrN(a: nat, b: nat, w: nat): (r: nat)
    ensures r < Pow2(w)
  {
    if w == 0 then 0
    else (if a % 2 == 1 || b % 2 == 1 then 1 else 0) + 2 * OrN(a / 2, b / 2, w - 1)
  }

  function AndN(a: nat, b: nat, w: nat): (r: nat)
    ensures r < Pow2(w)
  {
    if w == 0 then 0
    else (if a % 2 == 1 && b % 2 == 1 then 1 else 0) + 2 * AndN(a / 2, b / 2, w - 1)
  }

  /** `x` reduced to its low `w` bits. */
  function TruncN(x: nat, w: nat): (r: nat)
    ensures r < Pow2(w)
  {
    if w == 0 then 0 else x % 2 + 2 * TruncN(x / 2, w - 1)
  }

  /** `x << s` within `w` bits: the bits shifted past the top are lost. */
  function ShlN(x: nat, s: nat, w: nat): (r: nat)
    ensures r < Pow2(w)
  {
    if w == 0 then 0
    else if s == 0 then TruncN(x, w)
    else 2 * ShlN(x, s - 1, w - 1)
  }

  // ---------------------------------------------------------------------
  // The 64-bit operators of C++ on `uint64`.

  /** `a | b` */
  function Or(a: U64, b: U64): U64 { OrN(a, b, Width) }

  /** `a & b` */
  function And(a: U64, b: U64): U64 { AndN(a, b, Width) }

  /** `~a`: every bit flipped, which for a 64-bit word is `2^64 - 1 - a`. */
  function Not(a: U64): U64 { Pow2(Width) - 1 - a }

  /** `x << s`, defined by C++ for `s < 64` only. */
  function Shl(x: U64, s: nat): U64
    requires s < Width
  {
    ShlN(x, s, Width)
  }

  /** `a - b`, wrapping modulo 2^64. */
  function Sub(a: U64, b: U64): U64
  {
    if b <= a then a - b else a - b + Pow2(Width)
  }

  /** A subtraction that does not go below zero does not wrap. */
  lemma SubNoWrap(a: U64, b: U64)
    requires b <= a
    ensures Sub(a, b) == a - b
  {
  }

  // ---------------------------------------------------------------------
  // Per-bit characterisations.

  /** The bit decomposition every operator above is built on. */
  lemma BitCons(b: nat, r: nat, i: nat)
    requires b < 2
    ensures Bit(b + 2 * r, i) <==> (if i == 0 then b == 1 else Bit(r, i - 1))
  {
    assert (b + 2 * r) % 2 == b;
    assert (b + 2 * r) / 2 == r;
  }

  lemma {:induction false} BitAbove(x: nat, w: nat, i: nat)
    requires x < Pow2(w) && w <= i
    ensures !Bit(x, i)
  {
    if w == 0 {
      assert x == 0;
      ZeroBit(i);
    } else if i > 0 {
      BitAbove(x / 2, w - 1, i - 1);
    }
  }

  lemma {:induction false} ZeroBit(i: nat)
    ensures !Bit(0, i)
  {
    if i > 0 { ZeroBit(i - 1); }
  }

  lemma {:induction false} OrNBit(a: nat, b: nat, w: nat, i: nat)
    ensures Bit(OrN(a, b, w), i) <==> i < w && (Bit(a, i) || Bit(b, i))
  {
    if w == 0 {
      ZeroBit(i);
    } else {
      BitCons(if a % 2 == 1 || b % 2 == 1 then 1 else 0, OrN(a / 2, b / 2, w - 1), i);
      if i > 0 { OrNBit(a / 2, b / 2, w - 1, i - 1); }
    }
  }

  lemma {:induction false} AndNBit(a: nat, b: nat, w: nat, i: nat)
    ensures Bit(AndN(a, b, w), i) <==> i < w && Bit(a, i) && Bit(b, i)
  {
    if w == 0 {
      ZeroBit(i);
    } else {
      BitCons(if a % 2 == 1 && b % 2 == 1 then 1 else 0, AndN(a / 2, b / 2, w - 1), i);
      if i > 0 { AndNBit(a / 2, b / 2, w - 1, i - 1); }
    }
  }

  /** Subtracting from all ones below bit `w` flips each of those bits. */
  lemma {:induction false} ComplementBit(a: nat, w: nat, i: nat)
    requires a < Pow2(w)
    ensures Bit(Pow2(w) - 1 - a, i) <==> i < w && !Bit(a, i)
  {
    if w == 0 {
      ZeroBit(i);
    } else {
      assert Pow2(w) - 1 - a == (1 - a % 2) + 2 * (Pow2(w - 1) - 1 - a / 2);
      BitCons(1 - a % 2, Pow2(w - 1) - 1 - a / 2, i);
      if i > 0 {
        ComplementBit(a / 2, w - 1, i - 1);
      } else {
        BitCons(a % 2, a / 2, 0);
      }
    }
  }

  lemma {:induction false} TruncNBit(x: nat, w: nat, i: nat)
    ensures Bit(TruncN(x, w), i) <==> i < w && Bit(x, i)
  {
    if w == 0 {
      ZeroBit(i);
    } else {
      BitCons(x % 2, TruncN(x / 2, w - 1), i);
      if i > 0 { TruncNBit(x / 2, w - 1, i - 1); }
    }
  }

  lemma {:induction false} ShlNBit(x: nat, s: nat, w: nat, i: nat)
    ensures Bit(ShlN(x, s, w), i) <==> s <= i < w && Bit(x, i - s)
  {
    if w == 0 {
      ZeroBit(i);
    } else if s == 0 {
      TruncNBit(x, w, i);
    } else {
      BitCons(0, ShlN(x, s - 1, w - 1), i);
      if i > 0 { ShlNBit(x, s - 1, w - 1, i - 1); }
    }
  }

  /** `2^n - 1` has exactly the bits below `n`. */
  lemma {:induction false} LowOnesBit(n: nat, i: nat)
    ensures Bit(Pow2(n) - 1, i) <==> i < n
  {
    if n == 0 {
      ZeroBit(i);
    } else {
      assert Pow2(n) - 1 == 1 + 2 * (Pow2(n - 1) - 1);
      BitCons(1, Pow2(n - 1) - 1, i);
      if i > 0 { LowOnesBit(n - 1, i - 1); }
    }
  }

  /** `1 << n` is `2^n` while it fits in the word. */
  lemma {:induction false} ShlOne(n: nat, w: nat)
    requires n < w
    ensures ShlN(1, n, w) == Pow2(n)
  {
    if n == 0 {
      assert TruncN(1, w) == 1 + 2 * TruncN(0, w - 1);
      TruncZero(w - 1);
    } else {
      ShlOne(n - 1, w - 1);
    }
  }

  lemma {:induction false} TruncZero(w: nat)
    ensures TruncN(0, w) == 0
  {
    if w > 0 { TruncZero(w - 1); }
  }

  /** Two words of `w` bits that agree on every bit are equal. */
  lemma {:induction false} Ext(x: nat, y: nat, w: nat)
    requires x < Pow2(w) && y < Pow2(w)
    requires forall i: nat :: i < w ==> (Bit(x, i) <==> Bit(y, i))
    ensures x == y
  {
    if w == 0 {
    } else {
      assert Bit(x, 0) <==> Bit(y, 0);
      forall i: nat | i < w - 1
        ensures Bit(x / 2, i) <==> Bit(y / 2, i)
      {
        assert Bit(x, i + 1) <==> Bit(y, i + 1);
      }
      Ext(x / 2, y / 2, w - 1);
    }
  }

  // ---------------------------------------------------------------------
  // The same facts for the 64-bit operators.

  lemma OrBit(a: U64, b: U64, i: nat)
    ensures Bit(Or(a, b), i) <==> Bit(a, i) || Bit(b, i)
  {
    OrNBit(a, b, Width, i);
    if i >= Width { BitAbove(a, Width, i); BitAbove(b, Width, i); }
  }

  lemma AndBit(a: U64, b: U64, i: nat)
    ensures Bit(And(a, b), i) <==> Bit(a, i) && Bit(b, i)
  {
    AndNBit(a, b, Width, i);
    if i >= Width { BitAbove(a, Width, i); }
  }

  lemma NotBit(a: U64, i: nat)
    ensures Bit(Not(a), i) <==> i < Width && !Bit(a, i)
  {
    ComplementBit(a, Width, i);
  }

  lemma ShlBit(x: U64, s: nat, i: nat)
    requires s < Width
    ensures Bit(Shl(x, s), i) <==> s <= i < Width && Bit(x, i - s)
  {
    ShlNBit(x, s, Width, i);
  }

  /** Equality of words from agreement on every bit. */
  lemma Ext64(x: U64, y: U64)
    requires forall i: nat :: i < Width ==> (Bit(x, i) <==> Bit(y, i))
    ensures x == y
  {
    Ext(x, y, Width);
  }

  /** A word is zero exactly when it has no bit set. */
  lemma ZeroIff(x: U64)
    ensures x == 0 ==> forall i: nat :: i < Width ==> !Bit(x, i)
    ensures (forall i: nat :: i < Width ==> !Bit(x, i)) ==> x == 0
  {
    if x == 0 {
      forall i: nat | i < Width ensures !Bit(x, i) { ZeroBit(i); }
    } else if forall i: nat :: i < Width ==> !Bit(x, i) {
      forall i: nat | i < Width ensures Bit(x, i) <==> Bit(0, i) { ZeroBit(i); }
      Ext64(x, 0);
    }
  }
}
