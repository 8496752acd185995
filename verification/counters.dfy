/** INC and DEC on a memory cell, and INX, INY, DEX, DEY on the index
    registers. All count modulo 256 and set Z and N from the new value. */
module Counters {
  import opened Machine
  import Alu

  /** INC: the cell at `addr` goes up by one; every other cell, and every
      register but P, is unchanged. */
  function Inc(s: State, addr: nat): (r: State)
    requires addr < MemorySize
    ensures Alu.IncrementResult(s.mem[addr], s.p, r.mem[addr], r.p)
    ensures SameExcept(s.mem, r.mem, {addr})
    ensures r == s.(mem := r.mem, p := r.p)
  {
    var o := Alu.Increment(s.mem[addr], s.p);
    s.(mem := s.mem[addr := o.value], p := o.p)
  }

  /** DEC: the cell at `addr` goes down by one; every other cell, and every
      register but P, is unchanged. */
  function Dec(s: State, addr: nat): (r: State)
    requires addr < MemorySize
    ensures Alu.DecrementResult(s.mem[addr], s.p, r.mem[addr], r.p)
    ensures SameExcept(s.mem, r.mem, {addr})
    ensures r == s.(mem := r.mem, p := r.p)
  {
    var o := Alu.Decrement(s.mem[addr], s.p);
    s.(mem := s.mem[addr := o.value], p := o.p)
  }

  /** INX: X goes up by one. */
  function Inx(s: State): (r: State)
    ensures Alu.IncrementResult(s.x, s.p, r.x, r.p)
    ensures r == s.(x := r.x, p := r.p)
  {
    var o := Alu.Increment(s.x, s.p);
    s.(x := o.value, p := o.p)
  }

  /** INY: Y goes up by one. */
  function Iny(s: State): (r: State)
    ensures Alu.IncrementResult(s.y, s.p, r.y, r.p)
    ensures r == s.(y := r.y, p := r.p)
  {
    var o := Alu.Increment(s.y, s.p);
    s.(y := o.value, p := o.p)
  }

  /** DEX: X goes down by one. */
  function Dex(s: State): (r: State)
    ensures Alu.DecrementResult(s.x, s.p, r.x, r.p)
    ensures r == s.(x := r.x, p := r.p)
  {
    var o := Alu.Decrement(s.x, s.p);
    s.(x := o.value, p := o.p)
  }

  /** DEY: Y goes down by one. */
  function Dey(s: State): (r: State)
    ensures Alu.DecrementResult(s.y, s.p, r.y, r.p)
    ensures r == s.(y := r.y, p := r.p)
  {
    var o := Alu.Decrement(s.y, s.p);
    s.(y := o.value, p := o.p)
  }
}
