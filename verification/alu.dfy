/** The byte-level part of each handler: the value it computes from its
    operands and the status byte it leaves behind, before the handler stores
    them back into the machine state.

    Each operation comes as a pair: a predicate `...Result` that says, in
    terms of the named flags, which value and status byte the operation must
    produce, and a function that computes them the way the original code
    does, with its literal masks and in its order of flag updates. The
    function's contract is that its outcome satisfies the predicate; the
    handlers and the laws are stated with the predicates.

    Some functions also list the predicate's conjuncts as separate ensures
    before it. These repeat the predicate on purpose: proving the conjuncts
    one at a time and then the predicate from them is much cheaper for the
    solver than proving the predicate in one step. */
module Alu {
  import opened Flags

  /** A computed byte together with the updated status register. */
  datatype Outcome = Outcome(value: bv8, p: bv8)

  /** The carry flag of `p` as the byte 0 or 1, the way ADC extracts it by
      masking bit 0. */
  function CarryBit(p: bv8): (c: bv8)
    ensures c <= 1
    ensures c == 1 <==> Has(p, Carry)
  {
    1 & p
  }

  /** True iff `a` + `m` + `c`, taken as unsigned numbers, does not fit in a
      byte. Three bytes cannot overflow 16 bits, so the sum is exact in bv16. */
  predicate CarriesOut(a: bv8, m: bv8, c: bv8) {
    a as bv16 + m as bv16 + c as bv16 > 0xFF
  }

  /** ADC: the value is `a` + `m` + the incoming carry modulo 256. C is set
      iff the unsigned sum does not fit in a byte, and V is set to the same
      value as C (the original updates both with one mask); Z and N describe
      the sum. I, D, B and the unused bit keep their values. */
  predicate AddResult(a: bv8, m: bv8, p: bv8, v: bv8, q: bv8) {
    && v == a + m + CarryBit(p)
    && (Has(q, Carry) <==> CarriesOut(a, m, CarryBit(p)))
    && (Has(q, Overflow) <==> Has(q, Carry))
    && ReflectsZeroNegative(q, v)
    && FlagsAgreeExcept(p, q, Carry | Zero | Overflow | Negative)
  }

  function Add(a: bv8, m: bv8, p: bv8): (o: Outcome)
    ensures o.value == a + m + CarryBit(p)
    ensures Has(o.p, Carry) <==> CarriesOut(a, m, CarryBit(p))
    ensures Has(o.p, Overflow) <==> Has(o.p, Carry)
    ensures ReflectsZeroNegative(o.p, o.value)
    ensures FlagsAgreeExcept(p, o.p, Carry | Zero | Overflow | Negative)
    ensures AddResult(a, m, p, o.value, o.p)
  {
    var carryBit := CarryBit(p);
    var p1 := UpdateCarryAndOverflow(p, CarriesOut(a, m, carryBit));
    var sum := a + (m + carryBit);
    var p2 := UpdateZero(p1, sum);
    var p3 := UpdateNegative(p2, sum);
    Outcome(sum, p3)
  }

  /** AND: the value is the bitwise conjunction of `a` and `m`; only N and Z
      change, and they describe the value. */
  predicate AndResult(a: bv8, m: bv8, p: bv8, v: bv8, q: bv8) {
    && v == a & m
    && ReflectsZeroNegative(q, v)
    && FlagsAgreeExcept(p, q, Zero | Negative)
  }

  function And(a: bv8, m: bv8, p: bv8): (o: Outcome)
    ensures o.value == a & m
    ensures ReflectsZeroNegative(o.p, o.value)
    ensures FlagsAgreeExcept(p, o.p, Zero | Negative)
    ensures AndResult(a, m, p, o.value, o.p)
  {
    var result := m & a;
    var p1 := UpdateNegative(p, result);
    var p2 := UpdateZero(p1, result);
    Outcome(result, p2)
  }

  /** EOR: the value is the bitwise exclusive or of `a` and `m`; only Z and
      N change, and they describe the value. */
  predicate XorResult(a: bv8, m: bv8, p: bv8, v: bv8, q: bv8) {
    && v == a ^ m
    && ReflectsZeroNegative(q, v)
    && FlagsAgreeExcept(p, q, Zero | Negative)
  }

  function Xor(a: bv8, m: bv8, p: bv8): (o: Outcome)
    ensures XorResult(a, m, p, o.value, o.p)
  {
    var result := a ^ m;
    var p1 := UpdateZero(p, result);
    var p2 := UpdateNegative(p1, result);
    Outcome(result, p2)
  }

  /** ASL: the value is `a` doubled modulo 256; C receives the bit shifted
      out of bit 7, and Z and N describe the value. */
  predicate ShiftLeftResult(a: bv8, p: bv8, v: bv8, q: bv8) {
    && v == a + a
    && (Has(q, Carry) <==> a >= 0x80)
    && ReflectsZeroNegative(q, v)
    && FlagsAgreeExcept(p, q, Carry | Zero | Negative)
  }

  function ShiftLeft(a: bv8, p: bv8): (o: Outcome)
    ensures o.value == a + a
    ensures Has(o.p, Carry) <==> a >= 0x80
    ensures ReflectsZeroNegative(o.p, o.value)
    ensures FlagsAgreeExcept(p, o.p, Carry | Zero | Negative)
    ensures ShiftLeftResult(a, p, o.value, o.p)
  {
    var p1 := UpdateCarry(p, a & 0x80 != 0);
    var result := a << 1;
    var p2 := UpdateZero(p1, result);
    var p3 := UpdateNegative(p2, result);
    Outcome(result, p3)
  }

  /** BIT: N and V are copied from bits 7 and 6 of `m`, and Z is set iff
      `a` and `m` have no set bit in common. */
  predicate BitTestResult(a: bv8, m: bv8, p: bv8, q: bv8) {
    && (Has(q, Negative) <==> Has(m, Negative))
    && (Has(q, Overflow) <==> Has(m, Overflow))
    && (Has(q, Zero) <==> a & m == 0)
    && FlagsAgreeExcept(p, q, Zero | Overflow | Negative)
  }

  function BitTest(a: bv8, m: bv8, p: bv8): (q: bv8)
    ensures Has(q, Negative) <==> Has(m, Negative)
    ensures Has(q, Overflow) <==> Has(m, Overflow)
    ensures Has(q, Zero) <==> a & m == 0
    ensures FlagsAgreeExcept(p, q, Zero | Overflow | Negative)
    ensures BitTestResult(a, m, p, q)
  {
    var p1 := UpdateNegative(p, m);
    var p2 := UpdateOverflow(p1, m & 0x40 != 0);
    UpdateZero(p2, m & a)
  }

  /** CMP, CPX and CPY: C is set iff `reg` >= `m` as unsigned bytes, Z iff
      they are equal, and N is bit 7 of `reg` - `m` modulo 256. */
  predicate CompareResult(reg: bv8, m: bv8, p: bv8, q: bv8) {
    && (Has(q, Carry) <==> reg >= m)
    && (Has(q, Zero) <==> reg == m)
    && (Has(q, Negative) <==> reg - m >= 0x80)
    && FlagsAgreeExcept(p, q, Carry | Zero | Negative)
  }

  function Compare(reg: bv8, m: bv8, p: bv8): (q: bv8)
    ensures Has(q, Carry) <==> reg >= m
    ensures Has(q, Zero) <==> reg == m
    ensures Has(q, Negative) <==> reg - m >= 0x80
    ensures FlagsAgreeExcept(p, q, Carry | Zero | Negative)
    ensures CompareResult(reg, m, p, q)
  {
    var p1 := UpdateCarry(p, reg >= m);
    var result := reg - m;
    var p2 := UpdateZero(p1, result);
    UpdateNegative(p2, result)
  }

  /** INC, INX and INY: the value is one more than `before` modulo 256 (so
      0xFF wraps to 0); Z and N describe it. */
  predicate IncrementResult(before: bv8, p: bv8, v: bv8, q: bv8) {
    && v - 1 == before
    && ReflectsZeroNegative(q, v)
    && FlagsAgreeExcept(p, q, Zero | Negative)
  }

  function Increment(v: bv8, p: bv8): (o: Outcome)
    ensures IncrementResult(v, p, o.value, o.p)
  {
    var result := v + 1;
    var p1 := UpdateZero(p, result);
    var p2 := UpdateNegative(p1, result);
    Outcome(result, p2)
  }

  /** DEC, DEX and DEY: the value is one less than `before` modulo 256 (so 0
      wraps to 0xFF); Z and N describe it. */
  predicate DecrementResult(before: bv8, p: bv8, v: bv8, q: bv8) {
    && v + 1 == before
    && ReflectsZeroNegative(q, v)
    && FlagsAgreeExcept(p, q, Zero | Negative)
  }

  function Decrement(v: bv8, p: bv8): (o: Outcome)
    ensures DecrementResult(v, p, o.value, o.p)
  {
    var result := v - 1;
    var p1 := UpdateZero(p, result);
    var p2 := UpdateNegative(p1, result);
    Outcome(result, p2)
  }

  /** The loads and the register transfers: N and Z describe the byte `v`
      being moved, and no other flag changes. */
  predicate MoveResult(v: bv8, p: bv8, q: bv8) {
    && ReflectsZeroNegative(q, v)
    && FlagsAgreeExcept(p, q, Zero | Negative)
  }

  function Move(v: bv8, p: bv8): (q: bv8)
    ensures ReflectsZeroNegative(q, v)
    ensures FlagsAgreeExcept(p, q, Zero | Negative)
    ensures MoveResult(v, p, q)
  {
    var p1 := UpdateNegative(p, v);
    UpdateZero(p1, v)
  }
}

