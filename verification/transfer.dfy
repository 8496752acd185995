/** Loads, stores and register transfers. The loads receive the byte to
    load, not an address: the operand fetch is done by the caller. */
module Transfer {
  import opened Machine
  import Alu

  /** LDA: A becomes `value`; N and Z describe it. */
  function Lda(s: State, value: bv8): (r: State)
    ensures r.a == value
    ensures Alu.MoveResult(value, s.p, r.p)
    ensures r == s.(a := r.a, p := r.p)
  {
    s.(a := value, p := Alu.Move(value, s.p))
  }

  /** LDX: X becomes `value`; N and Z describe it. */
  function Ldx(s: State, value: bv8): (r: State)
    ensures r.x == value
    ensures Alu.MoveResult(value, s.p, r.p)
    ensures r == s.(x := r.x, p := r.p)
  {
    s.(x := value, p := Alu.Move(value, s.p))
  }

  /** LDY: Y becomes `value`; N and Z describe it. */
  function Ldy(s: State, value: bv8): (r: State)
    ensures r.y == value
    ensures Alu.MoveResult(value, s.p, r.p)
    ensures r == s.(y := r.y, p := r.p)
  {
    s.(y := value, p := Alu.Move(value, s.p))
  }

  /** Writes `v` to the cell at `addr`, the common body of the stores. */
  function Store(s: State, addr: nat, v: bv8): (r: State)
    requires addr < MemorySize
    ensures r.mem[addr] == v
    ensures SameExcept(s.mem, r.mem, {addr})
    ensures r == s.(mem := r.mem)
  {
    s.(mem := s.mem[addr := v])
  }

  /** STA: the cell at `addr` receives A; no flag and no other cell
      changes. */
  function Sta(s: State, addr: nat): (r: State)
    requires addr < MemorySize
    ensures r.mem[addr] == s.a
    ensures SameExcept(s.mem, r.mem, {addr})
    ensures r == s.(mem := r.mem)
  {
    Store(s, addr, s.a)
  }

  /** STX: the cell at `addr` receives X. */
  function Stx(s: State, addr: nat): (r: State)
    requires addr < MemorySize
    ensures r.mem[addr] == s.x
    ensures SameExcept(s.mem, r.mem, {addr})
    ensures r == s.(mem := r.mem)
  {
    Store(s, addr, s.x)
  }

  /** STY: the cell at `addr` receives Y. */
  function Sty(s: State, addr: nat): (r: State)
    requires addr < MemorySize
    ensures r.mem[addr] == s.y
    ensures SameExcept(s.mem, r.mem, {addr})
    ensures r == s.(mem := r.mem)
  {
    Store(s, addr, s.y)
  }

  /** TAX: X receives A; N and Z describe the byte moved. */
  function Tax(s: State): (r: State)
    ensures r.x == s.a
    ensures Alu.MoveResult(s.a, s.p, r.p)
    ensures r == s.(x := r.x, p := r.p)
  {
    s.(x := s.a, p := Alu.Move(s.a, s.p))
  }

  /** TAY: Y receives A. */
  function Tay(s: State): (r: State)
    ensures r.y == s.a
    ensures Alu.MoveResult(s.a, s.p, r.p)
    ensures r == s.(y := r.y, p := r.p)
  {
    s.(y := s.a, p := Alu.Move(s.a, s.p))
  }

  /** TSX: X receives the stack pointer. */
  function Tsx(s: State): (r: State)
    ensures r.x == s.sp
    ensures Alu.MoveResult(s.sp, s.p, r.p)
    ensures r == s.(x := r.x, p := r.p)
  {
    s.(x := s.sp, p := Alu.Move(s.sp, s.p))
  }

  /** TXA: A receives X. */
  function Txa(s: State): (r: State)
    ensures r.a == s.x
    ensures Alu.MoveResult(s.x, s.p, r.p)
    ensures r == s.(a := r.a, p := r.p)
  {
    s.(a := s.x, p := Alu.Move(s.x, s.p))
  }

  /** TXS: the stack pointer receives X, and this code also sets N and Z
      from it (see Divergences.TxsSetsFlags). */
  function Txs(s: State): (r: State)
    ensures r.sp == s.x
    ensures Alu.MoveResult(s.x, s.p, r.p)
    ensures r == s.(sp := r.sp, p := r.p)
  {
    s.(sp := s.x, p := Alu.Move(s.x, s.p))
  }

  /** TYA: A receives Y. */
  function Tya(s: State): (r: State)
    ensures r.a == s.y
    ensures Alu.MoveResult(s.y, s.p, r.p)
    ensures r == s.(a := r.a, p := r.p)
  {
    s.(a := s.y, p := Alu.Move(s.y, s.p))
  }
}
