/** Control flow and the status-flag instructions: the conditional branches,
    JMP, JSR, BRK, and CLC, CLI, CLV.

    The branch handlers receive the target address the addressing mode has
    already computed (for a relative branch, PC plus the signed offset), and
    the stack page is the 256 cells from StackBase, a push writing to the
    cell SP selects and then decrementing SP modulo 256. */
module Control {
  import opened Flags
  import opened Machine

  /** `r` is `s` with PC moved to `target` when `taken`, and `s` itself
      otherwise. */
  predicate Branched(s: State, r: State, taken: bool, target: bv16) {
    r == if taken then s.(pc := target) else s
  }

  /** BCC: branches iff C is clear. */
  function Bcc(s: State, target: bv16): (r: State)
    ensures Branched(s, r, !Has(s.p, Carry), target)
  {
    if s.p & 0x01 == 0 then s.(pc := target) else s
  }

  /** BCS: branches iff C is set. */
  function Bcs(s: State, target: bv16): (r: State)
    ensures Branched(s, r, Has(s.p, Carry), target)
  {
    if s.p & 0x01 != 0 then s.(pc := target) else s
  }

  /** BEQ: branches iff Z is set. */
  function Beq(s: State, target: bv16): (r: State)
    ensures Branched(s, r, Has(s.p, Zero), target)
  {
    if s.p & 0x02 != 0 then s.(pc := target) else s
  }

  /** BNE: branches iff Z is clear. */
  function Bne(s: State, target: bv16): (r: State)
    ensures Branched(s, r, !Has(s.p, Zero), target)
  {
    if s.p & 0x02 == 0 then s.(pc := target) else s
  }

  /** BMI: branches iff N is set. */
  function Bmi(s: State, target: bv16): (r: State)
    ensures Branched(s, r, Has(s.p, Negative), target)
  {
    if s.p & 0x80 != 0 then s.(pc := target) else s
  }

  /** BPL: branches iff N is clear. The original handler takes no target
      argument and reads a name that is not declared in CPU.hpp; here it
      takes the target as the other branches do. */
  function Bpl(s: State, target: bv16): (r: State)
    ensures Branched(s, r, !Has(s.p, Negative), target)
  {
    if s.p & 0x80 == 0 then s.(pc := target) else s
  }

  /** BVC: branches iff V is clear. */
  function Bvc(s: State, target: bv16): (r: State)
    ensures Branched(s, r, !Has(s.p, Overflow), target)
  {
    if s.p & 0x40 == 0 then s.(pc := target) else s
  }

  /** BVS: branches iff V is set. */
  function Bvs(s: State, target: bv16): (r: State)
    ensures Branched(s, r, Has(s.p, Overflow), target)
  {
    if s.p & 0x40 != 0 then s.(pc := target) else s
  }

  /** JMP: PC becomes `target` and nothing else changes. */
  function Jmp(s: State, target: bv16): (r: State)
    ensures r.pc == target
    ensures r == s.(pc := r.pc)
  {
    s.(pc := target)
  }

  /** The push both JSR and BRK perform: `v` is written to the stack cell
      SP selects, then SP is decremented modulo 256. */
  function Push(s: State, v: bv8): (r: State)
    ensures r.mem[StackCell(s.sp)] == v
    ensures SameExcept(s.mem, r.mem, {StackCell(s.sp)})
    ensures r.sp + 1 == s.sp
    ensures r == s.(mem := r.mem, sp := r.sp)
  {
    s.(mem := s.mem[StackCell(s.sp) := v], sp := s.sp - 1)
  }

  /** JSR: pushes the low byte of PC + 1 (the cell is a byte, so the high
      byte is dropped), decrements SP modulo 256 and jumps to `target`. */
  function Jsr(s: State, target: bv16): (r: State)
    ensures r.mem[StackCell(s.sp)] as bv16 == (s.pc + 1) % 0x100
    ensures SameExcept(s.mem, r.mem, {StackCell(s.sp)})
    ensures r.sp + 1 == s.sp
    ensures r.pc == target
    ensures r == s.(mem := r.mem, sp := r.sp, pc := r.pc)
  {
    Push(s, LowByte(s.pc + 1)).(pc := target)
  }

  /** BRK: pushes the low byte of PC + 2, sets B, pushes the status byte
      with B set, and leaves SP two cells lower modulo 256. PC is not
      changed: the interrupt vector is not read. */
  function Brk(s: State): (r: State)
    ensures r.mem[StackCell(s.sp)] as bv16 == (s.pc + 2) % 0x100
    ensures r.mem[StackCell(s.sp - 1)] == r.p
    ensures Has(r.p, Break)
    ensures FlagsAgreeExcept(s.p, r.p, Break)
    ensures SameExcept(s.mem, r.mem, {StackCell(s.sp), StackCell(s.sp - 1)})
    ensures r.sp + 2 == s.sp
    ensures r == s.(mem := r.mem, p := r.p, sp := r.sp)
  {
    var pushedPc := Push(s, LowByte(s.pc + 2));
    var flagged := pushedPc.(p := pushedPc.p | 0x10);
    StackCellInjective(s.sp, flagged.sp);
    Push(flagged, flagged.p)
  }

  /** CLC: clears C and nothing else. */
  function Clc(s: State): (r: State)
    ensures !Has(r.p, Carry)
    ensures FlagsAgreeExcept(s.p, r.p, Carry)
    ensures r == s.(p := r.p)
  {
    s.(p := s.p & 0xFE)
  }

  /** CLI: clears I and nothing else. */
  function Cli(s: State): (r: State)
    ensures !Has(r.p, InterruptDisable)
    ensures FlagsAgreeExcept(s.p, r.p, InterruptDisable)
    ensures r == s.(p := r.p)
  {
    s.(p := s.p & 0xFB)
  }

  /** CLV: clears V and nothing else. */
  function Clv(s: State): (r: State)
    ensures !Has(r.p, Overflow)
    ensures FlagsAgreeExcept(s.p, r.p, Overflow)
    ensures r == s.(p := r.p)
  {
    s.(p := s.p & 0xBF)
  }
}
