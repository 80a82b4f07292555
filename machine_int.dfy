/** The C machine integers the meter works on (uint8_t, uint16_t, uint32_t),
    conversion to an unsigned type by reduction modulo 2^n, and bitwise OR
    on non-negative integers. */
module MachineInt {

  const TWO_TO_THE_8: int := 0x100
  const TWO_TO_THE_16: int := 0x1_0000
  const TWO_TO_THE_32: int := 0x1_0000_0000

  type uint8 = x: int | 0 <= x < TWO_TO_THE_8
  type uint16 = x: int | 0 <= x < TWO_TO_THE_16
  type uint32 = x: int | 0 <= x < TWO_TO_THE_32

  /** Assignment of an int to a uint8_t: the value modulo 2^8. */
  function Wrap8(x: int): (r: uint8)
    ensures 0 <= x < TWO_TO_THE_8 ==> r == x
    ensures (x - r) % 0x100 == 0
  {
    x % 0x100
  }

  /** Assignment of an int to a uint32_t: the value modulo 2^32. */
  function Wrap32(x: int): (r: uint32)
    ensures 0 <= x < TWO_TO_THE_32 ==> r == x
    ensures (x - r) % 0x1_0000_0000 == 0
  {
    x % 0x1_0000_0000
  }

  function Pow2(n: nat): (r: nat)
    ensures r >= 1
  {
    if n == 0 then 1 else 2 * Pow2(n - 1)
  }

  /** Bitwise OR of two non-negative integers, bit by bit from the least
      significant end: the result has a 1 wherever either operand has one. */
  function BitOr(a: nat, b: nat): (r: nat)
    ensures a <= r && b <= r
    ensures r <= a + b
    decreases a + b
  {
    if a == 0 then b
    else if b == 0 then a
    else 2 * BitOr(a / 2, b / 2) + (if a % 2 == 1 || b % 2 == 1 then 1 else 0)
  }

  /** OR of two operands with no common bit is their sum: when `a` is a
      multiple of 2^k and `b` fits in k bits, `a | b == a + b`. */
  lemma {:induction false} BitOrDisjoint(q: nat, b: nat, k: nat)
    requires b < Pow2(k)
    ensures BitOr(Pow2(k) * q, b) == Pow2(k) * q + b
    decreases k
  {
    if k > 0 && q != 0 && b != 0 {
      var p := Pow2(k - 1);
      assert Pow2(k) * q == 2 * (p * q);
      assert (Pow2(k) * q) / 2 == p * q;
      BitOrDisjoint(q, b / 2, k - 1);
    }
  }

  /** OR never sets a bit above the operands' width: two n-bit values give
      an n-bit value. */
  lemma {:induction false} BitOrBounded(a: nat, b: nat, n: nat)
    requires a < Pow2(n) && b < Pow2(n)
    ensures BitOr(a, b) < Pow2(n)
    decreases n
  {
    if n > 0 && a != 0 && b != 0 {
      BitOrBounded(a / 2, b / 2, n - 1);
    }
  }

  lemma Pow2Of16And32()
    ensures Pow2(16) == TWO_TO_THE_16 && Pow2(32) == TWO_TO_THE_32
  {
    assert Pow2(4) == 0x10;
    assert Pow2(8) == 0x100;
    assert Pow2(12) == 0x1000;
    assert Pow2(16) == 0x1_0000;
    assert Pow2(20) == 0x10_0000;
    assert Pow2(24) == 0x100_0000;
    assert Pow2(28) == 0x1000_0000;
  }

  lemma {:induction false} BitOrAligned16(a: nat, b: nat)
    ensures a % 0x1_0000 == 0 && b < TWO_TO_THE_16 ==> BitOr(a, b) == a + b
  {
    if a % 0x1_0000 == 0 && b < TWO_TO_THE_16 {
      Pow2Of16And32();
      BitOrDisjoint(a / 0x1_0000, b, 16);
    }
  }

  /** `|` on two uint32_t operands. */
  function Or32(a: uint32, b: uint32): (r: uint32)
    ensures a % 0x1_0000 == 0 && b < TWO_TO_THE_16 ==> r == a + b
  {
    Pow2Of16And32();
    BitOrBounded(a, b, 32);
    BitOrAligned16(a, b);
    BitOr(a, b)
  }
}
