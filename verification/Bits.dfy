/** Bitwise operations on unbounded naturals, one bit at a time. The C code combines a value below 2^k
    with a value shifted left by k; two lemmas say that such a combination is an addition. */
module Bits {

  function Pow2(k: nat): (p: nat)
    ensures p >= 1
  {
    if k == 0 then 1 else 2 * Pow2(k - 1)
  }

  /** b << k */
  function Shl(b: nat, k: nat): nat {
    if k == 0 then b else 2 * Shl(b, k - 1)
  }

  /** x >> k, which rounds down */
  function Shr(x: int, k: nat): int
    decreases k
  {
    if k == 0 then x else Shr(x / 2, k - 1)
  }

  lemma ShrTwo(x: int, k: nat)
    ensures Shr(x, k + 2) == Shr(x / 4, k)
  {
    assert Shr(x, k + 2) == Shr(x / 2, k + 1);
    assert Shr(x / 2, k + 1) == Shr(x / 2 / 2, k);
    assert x / 2 / 2 == x / 4;
  }

  lemma ShrByEight(x: int)
    ensures Shr(x, 8) == x / 256
  {
    ShrTwo(x, 6);
    ShrTwo(x / 4, 4);
    assert x / 4 / 4 == x / 16;
    ShrTwo(x / 16, 2);
    assert x / 16 / 4 == x / 64;
    ShrTwo(x / 64, 0);
    assert x / 64 / 4 == x / 256;
    assert Shr(x / 256, 0) == x / 256;
  }

  function Xor(a: nat, b: nat): nat
    decreases a + b
  {
    if a == 0 && b == 0 then 0
    else (a % 2 + b % 2) % 2 + 2 * Xor(a / 2, b / 2)
  }

  function Or(a: nat, b: nat): nat
    decreases a + b
  {
    if a == 0 && b == 0 then 0
    else (if a % 2 == 1 || b % 2 == 1 then 1 else 0) + 2 * Or(a / 2, b / 2)
  }

  lemma {:induction false} XorZero(b: nat)
    ensures Xor(0, b) == b
  {
    if b > 0 {
      XorZero(b / 2);
    }
  }

  lemma {:induction false} OrZero(b: nat)
    ensures Or(0, b) == b
  {
    if b > 0 {
      OrZero(b / 2);
    }
  }

  lemma {:induction false} XorDisjoint(a: nat, b: nat, k: nat)
    requires a < Pow2(k)
    ensures Xor(a, Shl(b, k)) == a + Shl(b, k)
    decreases k
  {
    if k == 0 {
      XorZero(b);
    } else {
      XorDisjoint(a / 2, b, k - 1);
      assert Shl(b, k) / 2 == Shl(b, k - 1);
    }
  }

  lemma {:induction false} OrDisjoint(a: nat, b: nat, k: nat)
    requires a < Pow2(k)
    ensures Or(a, Shl(b, k)) == a + Shl(b, k)
    decreases k
  {
    if k == 0 {
      OrZero(b);
    } else {
      OrDisjoint(a / 2, b, k - 1);
      assert Shl(b, k) / 2 == Shl(b, k - 1);
    }
  }

  lemma FiveMore(b: nat, k: nat)
    ensures Pow2(k + 5) == 32 * Pow2(k) && Shl(b, k + 5) == 32 * Shl(b, k)
  {
    assert Pow2(k + 1) == 2 * Pow2(k) && Shl(b, k + 1) == 2 * Shl(b, k);
    assert Pow2(k + 2) == 2 * Pow2(k + 1) && Shl(b, k + 2) == 2 * Shl(b, k + 1);
    assert Pow2(k + 3) == 2 * Pow2(k + 2) && Shl(b, k + 3) == 2 * Shl(b, k + 2);
    assert Pow2(k + 4) == 2 * Pow2(k + 3) && Shl(b, k + 4) == 2 * Shl(b, k + 3);
    assert Pow2(k + 5) == 2 * Pow2(k + 4) && Shl(b, k + 5) == 2 * Shl(b, k + 4);
  }

  /** The shifts that the C code uses. */
  lemma ShiftValues(b: nat)
    ensures Pow2(15) == 0x8000 && Pow2(30) == 0x4000_0000 && Pow2(31) == 0x8000_0000
    ensures Shl(b, 15) == 0x8000 * b && Shl(b, 30) == 0x4000_0000 * b && Shl(b, 31) == 0x8000_0000 * b
  {
    FiveMore(b, 0);
    FiveMore(b, 5);
    FiveMore(b, 10);
    FiveMore(b, 15);
    FiveMore(b, 20);
    FiveMore(b, 25);
    assert Pow2(0) == 1 && Shl(b, 0) == b;
    assert Pow2(31) == 2 * Pow2(30) && Shl(b, 31) == 2 * Shl(b, 30);
  }
}
