/**
  Fixed-width unsigned integers and the bitwise operators the emulator applies
  to them.  Values are plain integers constrained to their width; the bitwise
  operators are defined one bit at a time, and every operator comes with a
  lemma saying what it does to each bit.
 */
module Bits {

  /** An unsigned 8-bit value (a Rust `u8`). */
  type u8 = x: int | 0 <= x < 0x100

  /** An unsigned 16-bit value (a Rust `u16`). */
  type u16 = x: int | 0 <= x < 0x1_0000

  /** Bit `i` of `x`, bit 0 being the least significant one. */
  predicate Bit(x: nat, i: nat)
  {
    if i == 0 then x % 2 == 1 else Bit(x / 2, i - 1)
  }

  function Pow2(n: nat): (r: nat)
    ensures r >= 1
  {
    if n == 0 then 1 else 2 * Pow2(n - 1)
  }

  /** The only bit of 2^n is bit n. */
  lemma {:induction false} BitOfPow2(n: nat, i: nat)
    ensures Bit(Pow2(n), i) <==> i == n
  {
    if n == 0 {
      if i > 0 {
        NoBitOfZero(i - 1);
      }
    } else if i > 0 {
      BitOfPow2(n - 1, i - 1);
    }
  }

  lemma {:induction false} NoBitOfZero(i: nat)
    ensures !Bit(0, i)
  {
    if i > 0 {
      NoBitOfZero(i - 1);
    }
  }

  /** A value below 2^n has no bit at position n or above. */
  lemma {:induction false} NoBitAboveWidth(x: nat, n: nat, i: nat)
    requires x < Pow2(n) && n <= i
    ensures !Bit(x, i)
  {
    if n == 0 {
      NoBitOfZero(i);
    } else {
      NoBitAboveWidth(x / 2, n - 1, i - 1);
    }
  }

  /** Two values below 2^n that agree on their n low bits are equal. */
  lemma {:induction false} BitsDetermineValue(x: nat, y: nat, n: nat)
    requires x < Pow2(n) && y < Pow2(n)
    requires forall i: nat :: i < n ==> (Bit(x, i) <==> Bit(y, i))
    ensures x == y
  {
    if n > 0 {
      assert Bit(x, 0) <==> Bit(y, 0);
      forall i: nat | i < n - 1
        ensures Bit(x / 2, i) <==> Bit(y / 2, i)
      {
        assert Bit(x, i + 1) <==> Bit(y, i + 1);
      }
      BitsDetermineValue(x / 2, y / 2, n - 1);
    }
  }

  /** Bitwise AND of the low `n` bits of `x` and `y`. */
  function And(x: nat, y: nat, n: nat): (r: nat)
    ensures r < Pow2(n)
  {
    if n == 0 then 0
    else 2 * And(x / 2, y / 2, n - 1) + (if x % 2 == 1 && y % 2 == 1 then 1 else 0)
  }

  /** Bitwise OR of the low `n` bits of `x` and `y`. */
  function Or(x: nat, y: nat, n: nat): (r: nat)
    ensures r < Pow2(n)
  {
    if n == 0 then 0
    else 2 * Or(x / 2, y / 2, n - 1) + (if x % 2 == 1 || y % 2 == 1 then 1 else 0)
  }

  /** Bitwise exclusive OR of the low `n` bits of `x` and `y`. */
  function Xor(x: nat, y: nat, n: nat): (r: nat)
    ensures r < Pow2(n)
  {
    if n == 0 then 0
    else 2 * Xor(x / 2, y / 2, n - 1) + (if (x % 2 == 1) != (y % 2 == 1) then 1 else 0)
  }

  lemma {:induction false} AndBit(x: nat, y: nat, n: nat, i: nat)
    ensures Bit(And(x, y, n), i) <==> i < n && Bit(x, i) && Bit(y, i)
  {
    if n == 0 {
      NoBitOfZero(i);
    } else if i > 0 {
      AndBit(x / 2, y / 2, n - 1, i - 1);
    }
  }

  lemma {:induction false} OrBit(x: nat, y: nat, n: nat, i: nat)
    ensures Bit(Or(x, y, n), i) <==> i < n && (Bit(x, i) || Bit(y, i))
  {
    if n == 0 {
      NoBitOfZero(i);
    } else if i > 0 {
      OrBit(x / 2, y / 2, n - 1, i - 1);
    }
  }

  lemma {:induction false} XorBit(x: nat, y: nat, n: nat, i: nat)
    ensures Bit(Xor(x, y, n), i) <==> i < n && (Bit(x, i) != Bit(y, i))
  {
    if n == 0 {
      NoBitOfZero(i);
    } else if i > 0 {
      XorBit(x / 2, y / 2, n - 1, i - 1);
    }
  }

  /** Subtracting from 2^n - 1 flips each of the n low bits. */
  lemma {:induction false} ComplementBit(x: nat, n: nat, i: nat)
    requires x < Pow2(n) && i < n
    ensures Bit(Pow2(n) - 1 - x, i) <==> !Bit(x, i)
  {
    if i > 0 {
      assert (Pow2(n) - 1 - x) / 2 == Pow2(n - 1) - 1 - x / 2;
      ComplementBit(x / 2, n - 1, i - 1);
    }
  }

  /** Rust `x & y` on `u8`. */
  function And8(x: u8, y: u8): (r: u8)
    ensures forall i: nat :: Bit(r, i) <==> Bit(x, i) && Bit(y, i)
  {
    assert Pow2(8) == 0x100;
    var r := And(x, y, 8);
    forall i: nat ensures Bit(r, i) <==> Bit(x, i) && Bit(y, i) {
      AndBit(x, y, 8, i);
      if i >= 8 {
        NoBitAboveWidth(x, 8, i);
      }
    }
    r
  }

  /** Rust `x | y` on `u8`. */
  function Or8(x: u8, y: u8): (r: u8)
    ensures forall i: nat :: Bit(r, i) <==> Bit(x, i) || Bit(y, i)
  {
    assert Pow2(8) == 0x100;
    var r := Or(x, y, 8);
    forall i: nat ensures Bit(r, i) <==> Bit(x, i) || Bit(y, i) {
      OrBit(x, y, 8, i);
      if i >= 8 {
        NoBitAboveWidth(x, 8, i);
        NoBitAboveWidth(y, 8, i);
      }
    }
    r
  }

  /** Rust `x ^ y` on `u8`. */
  function Xor8(x: u8, y: u8): (r: u8)
    ensures forall i: nat :: Bit(r, i) <==> Bit(x, i) != Bit(y, i)
  {
    assert Pow2(8) == 0x100;
    var r := Xor(x, y, 8);
    forall i: nat ensures Bit(r, i) <==> Bit(x, i) != Bit(y, i) {
      XorBit(x, y, 8, i);
      if i >= 8 {
        NoBitAboveWidth(x, 8, i);
        NoBitAboveWidth(y, 8, i);
      }
    }
    r
  }

  /** Rust `!x` on `u8`: every one of the eight bits is flipped. */
  function Not8(x: u8): (r: u8)
    ensures forall i: nat :: i < 8 ==> (Bit(r, i) <==> !Bit(x, i))
    ensures forall i: nat :: 8 <= i ==> !Bit(r, i)
  {
    assert Pow2(8) == 0x100;
    var r := 0xFF - x;
    forall i: nat | i < 8 ensures Bit(r, i) <==> !Bit(x, i) {
      ComplementBit(x, 8, i);
    }
    forall i: nat | 8 <= i ensures !Bit(r, i) {
      NoBitAboveWidth(r, 8, i);
    }
    r
  }

  /**
    Bit `k` of `x` forced to `b`: `x | (1 << k)` when `b` holds and
    `x & !(1 << k)` otherwise.  No other bit changes.
   */
  function WithBit(x: u8, k: nat, b: bool): (r: u8)
    requires k < 8
    ensures Bit(r, k) == b
    ensures forall i: nat :: i != k ==> (Bit(r, i) <==> Bit(x, i))
  {
    assert Pow2(8) == 0x100;
    PowerBelowWidth(k, 8);
    var mask := Pow2(k);
    forall i: nat ensures Bit(mask, i) <==> i == k {
      BitOfPow2(k, i);
    }
    if b then Or8(x, mask)
    else
      assert forall i: nat :: i >= 8 ==> !Bit(x, i) by {
        forall i: nat | i >= 8 ensures !Bit(x, i) { NoBitAboveWidth(x, 8, i); }
      }
      And8(x, Not8(mask))
  }

  lemma {:induction false} PowerBelowWidth(k: nat, n: nat)
    requires k < n
    ensures Pow2(k) < Pow2(n)
  {
    if k + 1 < n {
      PowerBelowWidth(k, n - 1);
    }
  }

  /** `x & (1 << k)` is non-zero exactly when bit `k` of `x` is set. */
  lemma AndPow2(x: u8, k: nat)
    requires k < 8
    ensures Pow2(k) < 0x100
    ensures And8(x, Pow2(k)) != 0 <==> Bit(x, k)
  {
    PowerBelowWidth(k, 8);
    assert Pow2(8) == 0x100;
    var r := And8(x, Pow2(k));
    forall i: nat ensures Bit(Pow2(k), i) <==> i == k {
      BitOfPow2(k, i);
    }
    if Bit(x, k) {
      assert Bit(r, k);
      NoBitOfZero(k);
    } else {
      forall i: nat | i < 8 ensures Bit(r, i) <==> Bit(0, i) {
        NoBitOfZero(i);
      }
      BitsDetermineValue(r, 0, 8);
    }
  }
}
