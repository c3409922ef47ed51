/** Bit-manipulation macros and byte-order constants of the register accessor.

    The macros are modelled on bytes, the only operands the driver passes them,
    and bit positions 0 to 7. A macro that assigns into its argument
    (`BIT_SET`, `BIT_CLEAR`) becomes a function whose result the caller assigns
    back, which is how every use in the driver is written. */
module Bits {

  type Byte = bv8
  type Word = bv16

  /** Byte orders; the accessor stores the mode in a `bool`, so 0 is `false`. */
  const BIG_ENDIAN: bool := false
  const LITTLE_ENDIAN: bool := true

  /** The k-th binary digit of n, by repeated halving: a reference for the bit macros. */
  function Digit(n: nat, k: nat): (d: nat)
    ensures d < 2
  {
    if k == 0 then n % 2 else Digit(n / 2, k - 1)
  }

  /** The one-bit mask `1 << bit`, as a table. */
  function Mask(bit: nat): (m: Byte)
    requires bit < 8
    ensures m == 1 << bit
  {
    if bit == 0 then 0x01 else if bit == 1 then 0x02 else if bit == 2 then 0x04 else if bit == 3 then 0x08
    else if bit == 4 then 0x10 else if bit == 5 then 0x20 else if bit == 6 then 0x40 else 0x80
  }

  /** `BIT_VAL(x, bit)`: 1 when bit `bit` of `x` is set, 0 otherwise. */
  function BitVal(x: Byte, bit: nat): (r: Byte)
    requires bit < 8
    ensures r == if x & Mask(bit) == 0 then 0 else 1
  {
    (x & (1 << bit)) >> bit
  }

  /** `BIT_SET(x, bit)`: bit `bit` set, every other bit of `x` kept. */
  function BitSet(x: Byte, bit: nat): (r: Byte)
    requires bit < 8
    ensures r & Mask(bit) == Mask(bit) && r & !Mask(bit) == x & !Mask(bit)
  {
    x | (1 << bit)
  }

  /** `BIT_CLEAR(x, bit)`: bit `bit` cleared, every other bit of `x` kept. */
  function BitClear(x: Byte, bit: nat): (r: Byte)
    requires bit < 8
    ensures r & Mask(bit) == 0 && r & !Mask(bit) == x & !Mask(bit)
  {
    x & !(1 << bit)
  }

  /** `BIT_TOGGLE(x, bit)`: bit `bit` flipped, every other bit of `x` kept;
      `x` itself is not assigned. */
  function BitToggle(x: Byte, bit: nat): (r: Byte)
    requires bit < 8
    ensures r & Mask(bit) == (x & Mask(bit)) ^ Mask(bit) && r & !Mask(bit) == x & !Mask(bit)
  {
    x ^ (1 << bit)
  }

  /** Bit by bit: setting makes bit `bit` read 1 and does not change what any
      other bit reads. */
  lemma SetBitwise(x: Byte, bit: nat, i: nat)
    requires bit < 8 && i < 8
    ensures BitVal(BitSet(x, bit), i) == if i == bit then 1 else BitVal(x, i)
  {
    if i != bit {
      OtherBit(x, BitSet(x, bit), bit, i);
    }
  }

  /** Bit by bit: clearing makes bit `bit` read 0 and does not change what any
      other bit reads. */
  lemma ClearBitwise(x: Byte, bit: nat, i: nat)
    requires bit < 8 && i < 8
    ensures BitVal(BitClear(x, bit), i) == if i == bit then 0 else BitVal(x, i)
  {
    if i != bit {
      OtherBit(x, BitClear(x, bit), bit, i);
    }
  }

  /** Two bytes that agree outside bit `bit` agree on every other bit. */
  lemma OtherBit(x: Byte, y: Byte, bit: nat, i: nat)
    requires bit < 8 && i < 8 && i != bit && y & !Mask(bit) == x & !Mask(bit)
    ensures y & Mask(i) == x & Mask(i)
  {
    MaskDisjoint(i, bit);
    assert Mask(i) & !Mask(bit) == Mask(i);
    assert y & Mask(i) == (y & !Mask(bit)) & Mask(i);
    assert x & Mask(i) == (x & !Mask(bit)) & Mask(i);
  }

  /** Masks of two different bits share no bit. */
  lemma MaskDisjoint(i: nat, j: nat)
    requires i < 8 && j < 8 && i != j
    ensures Mask(i) & Mask(j) == 0
  {
  }

  /** `BIT_VAL(x, bit)` is the bit-th binary digit of the number `x`. */
  lemma {:induction false} BitValIsDigit(x: Byte, bit: nat)
    requires bit < 8
    ensures BitVal(x, bit) as int == Digit(x as int, bit)
  {
    if bit == 0 {
      LowBit(x);
    } else {
      BitValIsDigit(x >> 1, bit - 1);
      BitValShift(x, bit);
      HalfShift(x);
    }
  }

  lemma LowBit(x: Byte)
    ensures BitVal(x, 0) as int == x as int % 2
  {
    assert BitVal(x, 0) == x & 1;
  }

  lemma BitValShift(x: Byte, bit: nat)
    requires 0 < bit < 8
    ensures BitVal(x >> 1, bit - 1) == BitVal(x, bit)
  {
  }

  lemma HalfShift(x: Byte)
    ensures (x >> 1) as int == x as int / 2
  {
  }

  /** Toggling the same bit twice gives back the original byte. */
  lemma BitToggleTwice(x: Byte, bit: nat)
    requires bit < 8
    ensures BitToggle(BitToggle(x, bit), bit) == x
  {
  }

  /** Setting an already set bit changes nothing; clearing undoes setting on a
      cleared bit, and setting undoes clearing on a set bit. */
  lemma BitSetClearInverse(x: Byte, bit: nat)
    requires bit < 8
    ensures BitVal(x, bit) == 1 ==> BitSet(x, bit) == x
    ensures BitVal(x, bit) == 0 ==> BitClear(BitSet(x, bit), bit) == x
    ensures BitVal(x, bit) == 1 ==> BitSet(BitClear(x, bit), bit) == x
  {
  }
}
