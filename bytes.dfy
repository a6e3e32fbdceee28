/**
 * Fixed-width integers of the CHIP-8 engine and the bitwise operations its
 * instructions use.  Values are plain integers restricted to their range, so
 * every wrap-around in the machine is written out as an explicit `% 0x100` or
 * `% 0x1_0000`.  The bitwise operators are defined bit by bit on naturals
 * (least significant bit first), which is what `&`, `|` and `^` compute on
 * unsigned values.
 */
module Bytes {

  /** An unsigned 8-bit value (`uint8` in the engine). */
  type byte = x: int | 0 <= x < 0x100

  /** An unsigned 16-bit value (`uint16` in the engine). */
  type word = x: int | 0 <= x < 0x1_0000

  /** A 4-bit field of an instruction word: a register index or a sprite height. */
  type nibble = x: int | 0 <= x < 0x10

  /** A 12-bit address field of an instruction word. */
  type addr = x: int | 0 <= x < 0x1000

  /** Storing an `int` into a `uint8`: only the low 8 bits are kept. */
  function Trunc8(x: int): (r: byte)
    ensures (x - r) % 0x100 == 0
    ensures 0 <= x < 0x100 ==> r == x
  {
    x % 0x100
  }

  /** Storing an `int` into a `uint16`: only the low 16 bits are kept. */
  function Trunc16(x: int): (r: word)
    ensures (x - r) % 0x1_0000 == 0
    ensures 0 <= x < 0x1_0000 ==> r == x
  {
    x % 0x1_0000
  }

  /** `a & b` on unsigned values. */
  function BitAnd(a: nat, b: nat): (r: nat)
    ensures r <= a && r <= b
    decreases a
  {
    if a == 0 || b == 0 then 0
    else 2 * BitAnd(a / 2, b / 2) + (if a % 2 == 1 && b % 2 == 1 then 1 else 0)
  }

  /** `a | b` on unsigned values; it stays below any power of two both operands are below. */
  function BitOr(a: nat, b: nat): (r: nat)
    ensures a <= r && b <= r && r <= a + b
    decreases a + b
  {
    if a == 0 then b
    else if b == 0 then a
    else 2 * BitOr(a / 2, b / 2) + (if a % 2 == 1 || b % 2 == 1 then 1 else 0)
  }

  /** `a ^ b` on unsigned values. */
  function BitXor(a: nat, b: nat): (r: nat)
    ensures r <= a + b
    decreases a + b
  {
    if a == 0 then b
    else if b == 0 then a
    else 2 * BitXor(a / 2, b / 2) + (if a % 2 != b % 2 then 1 else 0)
  }

  /** `(b >> k) & 1`: bit `k` of `b`, bit 0 being the least significant. */
  function BitAt(b: nat, k: nat): (r: nat)
    ensures r == 0 || r == 1
  {
    if k == 0 then b % 2 else BitAt(b / 2, k - 1)
  }

  lemma {:induction false} OrBelow(a: nat, b: nat, k: nat)
    requires a < Pow2(k) && b < Pow2(k)
    ensures BitOr(a, b) < Pow2(k)
    decreases k
  {
    if a != 0 && b != 0 {
      OrBelow(a / 2, b / 2, k - 1);
    }
  }

  lemma {:induction false} XorBelow(a: nat, b: nat, k: nat)
    requires a < Pow2(k) && b < Pow2(k)
    ensures BitXor(a, b) < Pow2(k)
    decreases k
  {
    if a != 0 && b != 0 {
      XorBelow(a / 2, b / 2, k - 1);
    }
  }

  function Pow2(k: nat): (r: nat)
    ensures r >= 1
  {
    if k == 0 then 1 else 2 * Pow2(k - 1)
  }

  /** `(b & 0xF0) >> 4`: the top four bits of a byte. */
  function HighNibble(b: byte): nibble
  {
    b / 16
  }

  /** `b & 0x0F`: the low four bits of a byte. */
  function LowNibble(b: byte): nibble
  {
    b % 16
  }

  /** `a & b` on two `uint8` values. */
  function And(a: byte, b: byte): byte
  {
    BitAnd(a, b)
  }

  /** `a | b` on two `uint8` values. */
  function Or(a: byte, b: byte): (r: byte)
  {
    OrBelow(a, b, 8);
    BitOr(a, b)
  }

  /** `a ^ b` on two `uint8` values. */
  function Xor(a: byte, b: byte): (r: byte)
  {
    XorBelow(a, b, 8);
    BitXor(a, b)
  }

  /** XOR with the same value twice gives the original value back. */
  lemma {:induction false} XorTwice(a: nat, b: nat)
    ensures BitXor(BitXor(a, b), b) == a
    decreases a + b
  {
    if a != 0 && b != 0 {
      XorTwice(a / 2, b / 2);
      var r := BitXor(a / 2, b / 2);
      var t := BitXor(a, b);
      assert t / 2 == r && t % 2 == (if a % 2 != b % 2 then 1 else 0);
      if t == 0 {
        assert r == 0 && a % 2 == b % 2;
        XorSelf(a / 2, b / 2);
      }
    } else if a == 0 && b != 0 {
      XorSelfZero(b);
    }
  }

  /** `a ^ b == 0` exactly when `a == b`. */
  lemma {:induction false} XorSelf(a: nat, b: nat)
    ensures BitXor(a, b) == 0 <==> a == b
    decreases a + b
  {
    if a != 0 && b != 0 {
      XorSelf(a / 2, b / 2);
    }
  }

  lemma XorSelfZero(a: nat)
    ensures BitXor(a, a) == 0
  {
    XorSelf(a, a);
  }

  /** `v & 1` is the parity bit. */
  lemma AndOne(a: byte)
    ensures And(a, 1) == a % 2
  {
  }

  /** `v & 0x80` keeps the top bit in place: it is 0x80 or 0, never 1. */
  lemma AndHighBit(a: byte)
    ensures And(a, 0x80) == if a >= 0x80 then 0x80 else 0
  {
    AndPow2(a, 7);
    TopBit(a, 7);
  }

  /** Masking with a power of two keeps exactly that bit, in place. */
  lemma {:induction false} AndPow2(a: nat, k: nat)
    ensures BitAnd(a, Pow2(k)) == Pow2(k) * BitAt(a, k)
    decreases k
  {
    if k == 0 {
    } else if a == 0 {
      BitAtZero(k);
    } else {
      AndPow2(a / 2, k - 1);
      calc {
        BitAnd(a, Pow2(k));
        2 * BitAnd(a / 2, Pow2(k - 1));
        2 * (Pow2(k - 1) * BitAt(a / 2, k - 1));
        (2 * Pow2(k - 1)) * BitAt(a / 2, k - 1);
      }
    }
  }

  lemma {:induction false} BitAtZero(k: nat)
    ensures BitAt(0, k) == 0
  {
    if k > 0 {
      BitAtZero(k - 1);
    }
  }

  /** Below `2^(k+1)`, bit `k` is set exactly when the value reaches `2^k`. */
  lemma {:induction false} TopBit(a: nat, k: nat)
    requires a < Pow2(k + 1)
    ensures BitAt(a, k) == if a >= Pow2(k) then 1 else 0
    decreases k
  {
    if k > 0 {
      TopBit(a / 2, k - 1);
    }
  }

  /** Bit `k` of `a & b` is set exactly when bit `k` is set in both. */
  lemma {:induction false} AndBits(a: nat, b: nat, k: nat)
    ensures BitAt(BitAnd(a, b), k) == BitAt(a, k) * BitAt(b, k)
    decreases k
  {
    if a == 0 || b == 0 {
      BitAtZero(k);
    } else if k > 0 {
      AndBits(a / 2, b / 2, k - 1);
    }
  }

  /** Bit `k` of `a | b` is set exactly when bit `k` is set in either. */
  lemma {:induction false} OrBits(a: nat, b: nat, k: nat)
    ensures BitAt(BitOr(a, b), k) == if BitAt(a, k) == 1 || BitAt(b, k) == 1 then 1 else 0
    decreases k
  {
    if a == 0 || b == 0 {
      BitAtZero(k);
    } else if k > 0 {
      OrBits(a / 2, b / 2, k - 1);
    }
  }

  /** Bit `k` of `a ^ b` is set exactly when bit `k` is set in one of them only. */
  lemma {:induction false} XorBits(a: nat, b: nat, k: nat)
    ensures BitAt(BitXor(a, b), k) == (BitAt(a, k) + BitAt(b, k)) % 2
    decreases k
  {
    if a == 0 || b == 0 {
      BitAtZero(k);
    } else {
      var r := BitXor(a, b);
      assert r == 2 * BitXor(a / 2, b / 2) + (if a % 2 != b % 2 then 1 else 0);
      if k == 0 {
        assert r % 2 == (a % 2 + b % 2) % 2;
      } else {
        assert r / 2 == BitXor(a / 2, b / 2);
        XorBits(a / 2, b / 2, k - 1);
      }
    }
  }
}
