/**
 * Bitwise `&`, `|` and `^` on non-negative integers of a given bit width,
 * defined one bit at a time from the least significant bit.
 */
module Bits {
  import opened Types

  function Pow2(k: nat): (p: nat)
    ensures p >= 1
  {
    if k == 0 then 1 else 2 * Pow2(k - 1)
  }

  function BitAnd(a: nat, b: nat, width: nat): (r: nat)
    ensures r < Pow2(width)
  {
    if width == 0 then 0
    else (if a % 2 == 1 && b % 2 == 1 then 1 else 0) + 2 * BitAnd(a / 2, b / 2, width - 1)
  }

  function BitOr(a: nat, b: nat, width: nat): (r: nat)
    ensures r < Pow2(width)
  {
    if width == 0 then 0
    else (if a % 2 == 1 || b % 2 == 1 then 1 else 0) + 2 * BitOr(a / 2, b / 2, width - 1)
  }

  function BitXor(a: nat, b: nat, width: nat): (r: nat)
    ensures r < Pow2(width)
  {
    if width == 0 then 0
    else (if a % 2 != b % 2 then 1 else 0) + 2 * BitXor(a / 2, b / 2, width - 1)
  }

  /** `(a >> k) & 1`: bit `k` of `a`. */
  function BitAt(a: nat, k: nat): (r: nat)
    ensures r < 2
  {
    if k == 0 then a % 2 else BitAt(a / 2, k - 1)
  }

  /** The Rust `u8` operators `&`, `|` and `^`. */
  function And8(a: Byte, b: Byte): Byte
  {
    Pow2Values();
    BitAnd(a, b, 8)
  }

  function Or8(a: Byte, b: Byte): Byte
  {
    Pow2Values();
    BitOr(a, b, 8)
  }

  function Xor8(a: Byte, b: Byte): Byte
  {
    Pow2Values();
    BitXor(a, b, 8)
  }

  /**
   * The same three operators when one operand is a single bit (0 or 1),
   * written as arithmetic on the low bit: `c ^ b` flips the low bit of `c`
   * when `b` is 1, `b & c` is the low bit of `c` when `b` is 1, and `f | b`
   * sets the low bit of `f` when `b` is 1. XorBitIsXor, AndBitIsAnd and
   * OrBitIsOr show they agree with Xor8, And8 and Or8.
   */
  function XorBit(c: Byte, b: nat): Byte
    requires b < 2
  {
    if b == 0 then c else if c % 2 == 0 then c + 1 else c - 1
  }

  function AndBit(b: nat, c: Byte): (r: Byte)
    requires b < 2
    ensures r < 2
  {
    if b == 0 then 0 else c % 2
  }

  function OrBit(f: Byte, b: nat): Byte
    requires b < 2
  {
    if b == 1 && f % 2 == 0 then f + 1 else f
  }

  lemma XorBitIsXor(c: Byte, b: nat)
    requires b < 2
    ensures XorBit(c, b) == Xor8(c, b)
  {
    Pow2Values();
    XorNothing(c / 2, 7);
    assert BitXor(c, b, 8) == (if c % 2 != b % 2 then 1 else 0) + 2 * BitXor(c / 2, 0, 7);
  }

  lemma AndBitIsAnd(b: nat, c: Byte)
    requires b < 2
    ensures AndBit(b, c) == And8(b, c)
  {
    AndZero(c / 2, 7);
    assert BitAnd(b, c, 8) == (if b % 2 == 1 && c % 2 == 1 then 1 else 0) + 2 * BitAnd(0, c / 2, 7);
    AndCommutative(0, c / 2, 7);
  }

  lemma OrBitIsOr(f: Byte, b: nat)
    requires b < 2
    ensures OrBit(f, b) == Or8(f, b)
  {
    Pow2Values();
    OrZero(f / 2, 7);
    assert BitOr(f, b, 8) == (if f % 2 == 1 || b % 2 == 1 then 1 else 0) + 2 * BitOr(f / 2, 0, 7);
  }

  lemma Pow2Values()
    ensures Pow2(4) == 16 && Pow2(8) == 0x100 && Pow2(12) == 0x1000 && Pow2(16) == 0x1_0000
  {
  }

  /** XOR-ing twice with the same value gives back the original value. */
  lemma {:induction false} XorInvolutive(a: nat, b: nat, width: nat)
    requires a < Pow2(width)
    ensures BitXor(BitXor(a, b, width), b, width) == a
  {
    if width > 0 {
      var c := BitXor(a, b, width);
      assert c % 2 == (if a % 2 != b % 2 then 1 else 0);
      assert c / 2 == BitXor(a / 2, b / 2, width - 1);
      XorInvolutive(a / 2, b / 2, width - 1);
    }
  }

  /** OR with zero is the identity on values that fit the width. */
  lemma {:induction false} OrZero(a: nat, width: nat)
    requires a < Pow2(width)
    ensures BitOr(a, 0, width) == a
  {
    if width > 0 {
      OrZero(a / 2, width - 1);
    }
  }

  /**
   * `(a << k) | b` with `b < 2^k` is `a * 2^k + b`: the two operands occupy
   * disjoint bit ranges.
   */
  lemma {:induction false} OrDisjoint(a: nat, b: nat, k: nat, width: nat)
    requires k <= width
    requires b < Pow2(k)
    requires a * Pow2(k) < Pow2(width)
    ensures BitOr(a * Pow2(k), b, width) == a * Pow2(k) + b
  {
    if k == 0 {
      OrZero(a, width);
    } else {
      var p := Pow2(k - 1);
      assert a * Pow2(k) == 2 * (a * p);
      assert (a * Pow2(k)) % 2 == 0 && (a * Pow2(k)) / 2 == a * p;
      assert a * p < Pow2(width - 1);
      OrDisjoint(a, b / 2, k - 1, width - 1);
    }
  }

  /** `a & 1` is the parity of `a`. */
  lemma AndOne(a: nat, width: nat)
    requires width >= 1
    ensures BitAnd(a, 1, width) == a % 2
  {
    assert BitAnd(a / 2, 0, width - 1) == 0 by { AndZero(a / 2, width - 1); }
  }

  lemma {:induction false} AndZero(a: nat, width: nat)
    ensures BitAnd(a, 0, width) == 0
  {
    if width > 0 {
      AndZero(a / 2, width - 1);
    }
  }

  /** `a & 2^k` keeps exactly bit `k` of `a`. */
  lemma {:induction false} AndPow2(a: nat, k: nat, width: nat)
    requires k < width
    ensures BitAnd(a, Pow2(k), width) == BitAt(a, k) * Pow2(k)
  {
    if k == 0 {
      AndOne(a, width);
    } else {
      var p := Pow2(k - 1);
      AndPow2(a / 2, k - 1, width - 1);
      assert Pow2(k) == 2 * p && (2 * p) / 2 == p && (2 * p) % 2 == 0;
      if BitAt(a / 2, k - 1) == 0 {
        assert BitAnd(a, 2 * p, width) == 0;
      } else {
        assert BitAnd(a, 2 * p, width) == 2 * p;
      }
    }
  }

  /** On single bits the three operators are the boolean ones. */
  lemma BitOps01(a: nat, b: nat, width: nat)
    requires a < 2 && b < 2 && width >= 1
    ensures BitAnd(a, b, width) == a * b
    ensures BitOr(a, b, width) == (if a == 1 || b == 1 then 1 else 0)
    ensures BitXor(a, b, width) == (if a == b then 0 else 1)
  {
    AndZero(0, width - 1);
    OrZero(0, width - 1);
    XorZero(width - 1);
  }

  /** XOR with 0 changes nothing. */
  lemma {:induction false} XorNothing(a: nat, width: nat)
    requires a < Pow2(width)
    ensures BitXor(a, 0, width) == a
  {
    if width > 0 {
      XorNothing(a / 2, width - 1);
    }
  }

  lemma {:induction false} XorZero(width: nat)
    ensures BitXor(0, 0, width) == 0
  {
    if width > 0 {
      XorZero(width - 1);
    }
  }

  /** OR-ing in a bit that is already set changes nothing. */
  lemma {:induction false} OrIdempotent(a: nat, b: nat, width: nat)
    ensures BitOr(BitOr(a, b, width), b, width) == BitOr(a, b, width)
  {
    if width > 0 {
      var c := BitOr(a, b, width);
      assert c % 2 == (if a % 2 == 1 || b % 2 == 1 then 1 else 0);
      assert c / 2 == BitOr(a / 2, b / 2, width - 1);
      OrIdempotent(a / 2, b / 2, width - 1);
    }
  }

  /** `a & b` never exceeds `a`. */
  lemma {:induction false} AndBound(a: nat, b: nat, width: nat)
    ensures BitAnd(a, b, width) <= a
  {
    if width > 0 {
      AndBound(a / 2, b / 2, width - 1);
    }
  }

  /** `&` does not depend on the order of its operands. */
  lemma {:induction false} AndCommutative(a: nat, b: nat, width: nat)
    ensures BitAnd(a, b, width) == BitAnd(b, a, width)
  {
    if width > 0 {
      AndCommutative(a / 2, b / 2, width - 1);
    }
  }

  /** The top bit of a `k + 1`-bit number says whether it reaches `2^k`. */
  lemma {:induction false} BitAtTop(a: nat, k: nat)
    requires a < Pow2(k + 1)
    ensures BitAt(a, k) == (if a >= Pow2(k) then 1 else 0)
  {
    if k > 0 {
      BitAtTop(a / 2, k - 1);
    }
  }

  lemma MulMonotone(a: int, b: int, d: int)
    requires d > 0
    ensures a >= b ==> a * d >= b * d
  {
    if a >= b {
      assert a * d - b * d == (a - b) * d;
    }
  }

  /** Quotient and remainder are unique. */
  lemma DivMod(a: int, d: int, q: int, r: int)
    requires d > 0 && 0 <= r < d && a == q * d + r
    ensures a / d == q && a % d == r
  {
    MulMonotone(a / d, q + 1, d);
    MulMonotone(q, a / d + 1, d);
  }
}
