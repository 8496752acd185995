/** The status register P and its eight single-bit flags.

    The handlers update P with the literal masks of the original code; every
    contract about them is stated through the named flags below, each defined
    by its bit position, so a wrong mask in a handler cannot be mirrored by the
    same wrong mask in its contract.
 */
module Flags {

  /** A status byte with exactly the named flag set. Bit 0 is C, then Z, I,
      D, B, the unused bit, V and, as bit 7, N. */
  const Carry: bv8 := 1 << 0
  const Zero: bv8 := 1 << 1
  const InterruptDisable: bv8 := 1 << 2
  const Decimal: bv8 := 1 << 3
  const Break: bv8 := 1 << 4
  const Unused: bv8 := 1 << 5
  const Overflow: bv8 := 1 << 6
  const Negative: bv8 := 1 << 7

  /** True iff flag `f` (one of the constants above) is set in `p`. */
  predicate Has(p: bv8, f: bv8) {
    p & f != 0
  }

  /** Every flag outside `changed` (a union of the constants above) has the
      same value in `p` and `q`. */
  predicate FlagsAgreeExcept(p: bv8, q: bv8, changed: bv8) {
    p & !changed == q & !changed
  }

  /** Z and N describe the byte `v`, the way every load, transfer, logical
      and counting handler leaves them: Z iff `v` is zero, N iff bit 7 of `v`
      is one (its value as a signed byte is negative). */
  predicate ReflectsZeroNegative(p: bv8, v: bv8) {
    && (Has(p, Zero) <==> v == 0)
    && (Has(p, Negative) <==> v >= 0x80)
  }

  // The blocks below are the flag updates every handler repeats, each with
  // the set mask and the clear mask the original code writes for it.

  /** Sets Z iff `v` is zero (set mask 0b00000010, clear mask 0b11111101). */
  function UpdateZero(p: bv8, v: bv8): (q: bv8)
    ensures Has(q, Zero) <==> v == 0
    ensures FlagsAgreeExcept(p, q, Zero)
  {
    if v == 0 then p | 0x02 else p & 0xFD
  }

  /** Sets N iff bit 7 of `v` is one (set mask 0b10000000, clear mask
      0b01111111). */
  function UpdateNegative(p: bv8, v: bv8): (q: bv8)
    ensures Has(q, Negative) <==> v >= 0x80
    ensures FlagsAgreeExcept(p, q, Negative)
  {
    if v & 0x80 != 0 then p | 0x80 else p & 0x7F
  }

  /** Sets C iff `c` (set mask 0b00000001, clear mask 0b11111110). */
  function UpdateCarry(p: bv8, c: bool): (q: bv8)
    ensures Has(q, Carry) <==> c
    ensures FlagsAgreeExcept(p, q, Carry)
  {
    if c then p | 0x01 else p & 0xFE
  }

  /** Sets V iff `v` (set mask 0b01000000, clear mask 0b10111111). */
  function UpdateOverflow(p: bv8, v: bool): (q: bv8)
    ensures Has(q, Overflow) <==> v
    ensures FlagsAgreeExcept(p, q, Overflow)
  {
    if v then p | 0x40 else p & 0xBF
  }

  /** Sets both C and V iff `c`, with the single pair of masks 0b01000001 and
      0b10111110 that ADC uses. */
  function UpdateCarryAndOverflow(p: bv8, c: bool): (q: bv8)
    ensures Has(q, Carry) <==> c
    ensures Has(q, Overflow) <==> c
    ensures FlagsAgreeExcept(p, q, Carry | Overflow)
  {
    if c then p | 0x41 else p & 0xBE
  }
}
