/** CMP, CPX and CPY: compare a register with a memory operand and record
    the result in C, Z and N only. */
module Compare {
  import opened Machine
  import Alu

  /** CMP: compares A with M; only P changes. */
  function Cmp(s: State, addr: nat): (r: State)
    requires addr < MemorySize
    ensures Alu.CompareResult(s.a, s.mem[addr], s.p, r.p)
    ensures r == s.(p := r.p)
  {
    s.(p := Alu.Compare(s.a, s.mem[addr], s.p))
  }

  /** CPX: compares X with M; only P changes. */
  function Cpx(s: State, addr: nat): (r: State)
    requires addr < MemorySize
    ensures Alu.CompareResult(s.x, s.mem[addr], s.p, r.p)
    ensures r == s.(p := r.p)
  {
    s.(p := Alu.Compare(s.x, s.mem[addr], s.p))
  }

  /** CPY: compares Y with M; only P changes. */
  function Cpy(s: State, addr: nat): (r: State)
    requires addr < MemorySize
    ensures Alu.CompareResult(s.y, s.mem[addr], s.p, r.p)
    ensures r == s.(p := r.p)
  {
    s.(p := Alu.Compare(s.y, s.mem[addr], s.p))
  }
}
