/** The architectural state of the CPU: a flat byte memory and the registers
    A, X, Y, P, SP and PC, and the constructor that initialises them. */
module Machine {

  /** Number of memory cells. The memory holds 65535 bytes, not 65536, so
      the top address 0xFFFF has no cell. */
  const MemorySize: nat := 65535

  /** First address of the stack page; a push writes to StackBase + SP. */
  const StackBase: nat := 0x100

  type Memory = m: seq<bv8> | |m| == MemorySize witness seq(MemorySize, _ => 0 as bv8)

  /** A, X, Y, P and SP are bytes, PC is a 16-bit address. */
  datatype State = State(mem: Memory, a: bv8, x: bv8, y: bv8, p: bv8, sp: bv8, pc: bv16)

  /** The cell a push writes when the stack pointer is `sp`. */
  function StackCell(sp: bv8): (i: nat)
    ensures StackBase <= i < StackBase + 256
    ensures i < MemorySize
  {
    StackBase + sp as int
  }

  /** The low byte of a 16-bit value: what a C assignment of a uint16_t to
      a uint8_t cell keeps. */
  function LowByte(w: bv16): (b: bv8)
    ensures b as bv16 == w % 0x100
  {
    (w & 0xFF) as bv8
  }

  /** Distinct stack pointers select distinct stack cells. */
  lemma StackCellInjective(sp: bv8, sp': bv8)
    requires sp != sp'
    ensures StackCell(sp) != StackCell(sp')
  {
  }

  /** Every cell of `m'` outside `cells` holds what it held in `m`. */
  predicate SameExcept(m: Memory, m': Memory, cells: set<nat>) {
    forall i :: 0 <= i < MemorySize && i !in cells ==> m'[i] == m[i]
  }

  /** The constructor: clears every memory cell, zeroes A, X, Y and P, puts
      the stack pointer at the top of the stack page and PC at address 0. */
  method NewCpu() returns (s: State)
    ensures forall i :: 0 <= i < MemorySize ==> s.mem[i] == 0
    ensures s.a == 0 && s.x == 0 && s.y == 0 && s.p == 0
    ensures s.sp == 0xFF && s.pc == 0
  {
    var mem: seq<bv8> := [];
    var i := 0;
    while i < MemorySize
      invariant 0 <= i <= MemorySize
      invariant |mem| == i
      invariant forall j :: 0 <= j < i ==> mem[j] == 0
    {
      mem := mem + [0];
      i := i + 1;
    }
    s := State(mem, 0, 0, 0, 0, 0xFF, 0);
  }
}
