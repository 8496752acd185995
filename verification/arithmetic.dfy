/** The handlers that combine the accumulator with a memory operand (ADC,
    AND, EOR, BIT) and the accumulator shift ASL. Each takes the effective
    address an addressing mode has already resolved; the memory has no cell
    at 0xFFFF, so the address must be below MemorySize. */
module Arithmetic {
  import opened Machine
  import Alu

  /** ADC: A and P become the outcome of adding M and the carry to A (see
      Alu.AddResult); nothing else in the state changes. */
  function Adc(s: State, addr: nat): (r: State)
    requires addr < MemorySize
    ensures Alu.AddResult(s.a, s.mem[addr], s.p, r.a, r.p)
    ensures r == s.(a := r.a, p := r.p)
  {
    var o := Alu.Add(s.a, s.mem[addr], s.p);
    s.(a := o.value, p := o.p)
  }

  /** AND: A becomes A & M, with N and Z set from it. */
  function And(s: State, addr: nat): (r: State)
    requires addr < MemorySize
    ensures Alu.AndResult(s.a, s.mem[addr], s.p, r.a, r.p)
    ensures r == s.(a := r.a, p := r.p)
  {
    var o := Alu.And(s.a, s.mem[addr], s.p);
    s.(a := o.value, p := o.p)
  }

  /** EOR: A becomes A ^ M, with Z and N set from it. */
  function Eor(s: State, addr: nat): (r: State)
    requires addr < MemorySize
    ensures Alu.XorResult(s.a, s.mem[addr], s.p, r.a, r.p)
    ensures r == s.(a := r.a, p := r.p)
  {
    var o := Alu.Xor(s.a, s.mem[addr], s.p);
    s.(a := o.value, p := o.p)
  }

  /** ASL, accumulator form only: A is shifted left by one, bit 7 going to
      C. */
  function Asl(s: State): (r: State)
    ensures Alu.ShiftLeftResult(s.a, s.p, r.a, r.p)
    ensures r == s.(a := r.a, p := r.p)
  {
    var o := Alu.ShiftLeft(s.a, s.p);
    s.(a := o.value, p := o.p)
  }

  /** BIT: only P changes, as Alu.BitTestResult describes for A and M. */
  function Bit(s: State, addr: nat): (r: State)
    requires addr < MemorySize
    ensures Alu.BitTestResult(s.a, s.mem[addr], s.p, r.p)
    ensures r == s.(p := r.p)
  {
    s.(p := Alu.BitTest(s.a, s.mem[addr], s.p))
  }
}
