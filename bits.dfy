/**
  JavaScript's integer bit operators (`<<`, `>>`, `|`, `^`) on the non-negative,
  at most 16-bit values the frame decoder applies them to, over `nat`. `<<` is
  multiplication by a power of two, `>>` drops one low bit at a time, and `|`
  and `^` combine their operands bit by bit. The lemmas give the arithmetic
  value of `>>`, `|` and `^` on the operands the decoder uses.
*/
module Bits {

  function Pow2(n: nat): (p: nat)
    ensures p >= 1
  {
    if n == 0 then 1 else 2 * Pow2(n - 1)
  }

  /** `a << n`, for results that stay below 2^31 (no 32-bit wrap-around). */
  function ShiftLeft(a: nat, n: nat): (shifted: nat)
  {
    a * Pow2(n)
  }

  /** `a >> n` for a non-negative 32-bit `a`: the sign bit is clear, so no bits are propagated. */
  function ShiftRight(a: nat, n: nat): (shifted: nat)
  {
    if n == 0 then a else ShiftRight(a / 2, n - 1)
  }

  /** `a >> n` is zero exactly when `a` has no bit at position n or above. */
  lemma {:induction false} ShiftRightZero(a: nat, n: nat)
    ensures ShiftRight(a, n) == 0 <==> a < Pow2(n)
    decreases n
  {
    if n != 0 {
      ShiftRightZero(a / 2, n - 1);
    }
  }

  /** Bitwise `a | b`, least significant bit first. */
  function Or(a: nat, b: nat): (bits: nat)
    decreases a + b
  {
    if a == 0 && b == 0 then 0
    else 2 * Or(a / 2, b / 2) + (if a % 2 == 1 || b % 2 == 1 then 1 else 0)
  }

  /** Bitwise `a ^ b`, least significant bit first. */
  function Xor(a: nat, b: nat): (bits: nat)
    decreases a + b
  {
    if a == 0 && b == 0 then 0
    else 2 * Xor(a / 2, b / 2) + (if a % 2 != b % 2 then 1 else 0)
  }

  lemma {:induction false} OrZero(a: nat)
    ensures Or(a, 0) == a
    decreases a
  {
    if a != 0 {
      OrZero(a / 2);
    }
  }

  /** Or-ing a value below 2^k into `h` shifted left by k bits is addition: the bits do not overlap. */
  lemma {:induction false} OrDisjoint(h: nat, l: nat, k: nat)
    requires l < Pow2(k)
    ensures Or(h * Pow2(k), l) == h * Pow2(k) + l
    decreases k
  {
    if k == 0 {
      OrZero(h);
    } else {
      var a := h * Pow2(k);
      assert a == 2 * (h * Pow2(k - 1));
      assert a / 2 == h * Pow2(k - 1) && a % 2 == 0;
      OrDisjoint(h, l / 2, k - 1);
      if a == 0 && l == 0 {
      } else {
        assert Or(a, l) == 2 * Or(a / 2, l / 2) + l % 2;
      }
    }
  }

  /** Xor with k one-bits complements a k-bit value. */
  lemma {:induction false} XorAllOnes(v: nat, k: nat)
    requires v < Pow2(k)
    ensures Xor(v, Pow2(k) - 1) == Pow2(k) - 1 - v
    decreases k
  {
    if k != 0 {
      var m := Pow2(k) - 1;
      assert m / 2 == Pow2(k - 1) - 1 && m % 2 == 1;
      XorAllOnes(v / 2, k - 1);
      assert Xor(v, m) == 2 * Xor(v / 2, m / 2) + (if v % 2 != m % 2 then 1 else 0);
    }
  }

  lemma Pow2Values()
    ensures Pow2(8) == 0x100 && Pow2(15) == 0x8000 && Pow2(16) == 0x10000
  {
    assert Pow2(4) == 16;
    assert Pow2(8) == 256;
    assert Pow2(15) == 0x8000;
  }
}
