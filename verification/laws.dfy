/** Properties that relate several handlers: inverses, idempotence, and the
    way one instruction sets up the condition another tests. */
module Laws {
  import opened Flags
  import opened Machine
  import Alu
  import Arithmetic
  import Compare
  import Counters
  import Transfer
  import Control

  /** Counting up and then down by one gives the byte back; the final
      status byte describes it and agrees with the first outside N and Z. */
  lemma IncrementThenDecrement(v: bv8, p: bv8, v1: bv8, p1: bv8, v2: bv8, p2: bv8)
    requires Alu.IncrementResult(v, p, v1, p1)
    requires Alu.DecrementResult(v1, p1, v2, p2)
    ensures v2 == v
    ensures Alu.MoveResult(v, p, p2)
  {
  }

  /** Counting down and then up by one gives the byte back. */
  lemma DecrementThenIncrement(v: bv8, p: bv8, v1: bv8, p1: bv8, v2: bv8, p2: bv8)
    requires Alu.DecrementResult(v, p, v1, p1)
    requires Alu.IncrementResult(v1, p1, v2, p2)
    ensures v2 == v
    ensures Alu.MoveResult(v, p, p2)
  {
  }

  /** INC followed by DEC on the same cell gives the memory back unchanged;
      only P differs, and Z and N then describe the restored byte. */
  lemma IncThenDecRestores(s: State, addr: nat)
    requires addr < MemorySize
    ensures var r := Counters.Dec(Counters.Inc(s, addr), addr);
      && r == s.(p := r.p)
      && Alu.MoveResult(s.mem[addr], s.p, r.p)
  {
    var t := Counters.Inc(s, addr);
    var r := Counters.Dec(t, addr);
    IncrementThenDecrement(s.mem[addr], s.p, t.mem[addr], t.p, r.mem[addr], r.p);
    assert r.mem == s.mem;
  }

  /** DEC followed by INC on the same cell gives the memory back unchanged. */
  lemma DecThenIncRestores(s: State, addr: nat)
    requires addr < MemorySize
    ensures var r := Counters.Inc(Counters.Dec(s, addr), addr);
      && r == s.(p := r.p)
      && Alu.MoveResult(s.mem[addr], s.p, r.p)
  {
    var t := Counters.Dec(s, addr);
    var r := Counters.Inc(t, addr);
    DecrementThenIncrement(s.mem[addr], s.p, t.mem[addr], t.p, r.mem[addr], r.p);
    assert r.mem == s.mem;
  }

  /** INX followed by DEX gives X back; only P differs. */
  lemma InxThenDex(s: State)
    ensures var r := Counters.Dex(Counters.Inx(s));
      r == s.(p := r.p) && Alu.MoveResult(s.x, s.p, r.p)
  {
    var t := Counters.Inx(s);
    var r := Counters.Dex(t);
    IncrementThenDecrement(s.x, s.p, t.x, t.p, r.x, r.p);
  }

  /** DEX followed by INX gives X back; only P differs. */
  lemma DexThenInx(s: State)
    ensures var r := Counters.Inx(Counters.Dex(s));
      r == s.(p := r.p) && Alu.MoveResult(s.x, s.p, r.p)
  {
    var t := Counters.Dex(s);
    var r := Counters.Inx(t);
    DecrementThenIncrement(s.x, s.p, t.x, t.p, r.x, r.p);
  }

  /** INY followed by DEY gives Y back; only P differs. */
  lemma InyThenDey(s: State)
    ensures var r := Counters.Dey(Counters.Iny(s));
      r == s.(p := r.p) && Alu.MoveResult(s.y, s.p, r.p)
  {
    var t := Counters.Iny(s);
    var r := Counters.Dey(t);
    IncrementThenDecrement(s.y, s.p, t.y, t.p, r.y, r.p);
  }

  /** DEY followed by INY gives Y back; only P differs. */
  lemma DeyThenIny(s: State)
    ensures var r := Counters.Iny(Counters.Dey(s));
      r == s.(p := r.p) && Alu.MoveResult(s.y, s.p, r.p)
  {
    var t := Counters.Dey(s);
    var r := Counters.Iny(t);
    DecrementThenIncrement(s.y, s.p, t.y, t.p, r.y, r.p);
  }

  /** Moving a byte a second time, with the flags the first move left, does
      not change those flags. */
  lemma MoveAgainKeepsFlags(v: bv8, p: bv8, q: bv8, q': bv8)
    requires Alu.MoveResult(v, p, q) && Alu.MoveResult(v, q, q')
    ensures q' == q
  {
  }

  /** A value loaded from a cell that STA has just written is the old A. */
  lemma StoreThenLoad(s: State, addr: nat)
    requires addr < MemorySize
    ensures var t := Transfer.Sta(s, addr);
      Transfer.Lda(t, t.mem[addr]).a == s.a
  {
  }

  /** After TAX, TXA changes nothing. */
  lemma TaxThenTxa(s: State)
    ensures Transfer.Txa(Transfer.Tax(s)) == Transfer.Tax(s)
  {
    var t := Transfer.Tax(s);
    var r := Transfer.Txa(t);
    MoveAgainKeepsFlags(s.a, s.p, t.p, r.p);
  }

  /** After TAY, TYA changes nothing. */
  lemma TayThenTya(s: State)
    ensures Transfer.Tya(Transfer.Tay(s)) == Transfer.Tay(s)
  {
    var t := Transfer.Tay(s);
    var r := Transfer.Tya(t);
    MoveAgainKeepsFlags(s.a, s.p, t.p, r.p);
  }

  /** After TXS, TSX changes nothing. */
  lemma TxsThenTsx(s: State)
    ensures Transfer.Tsx(Transfer.Txs(s)) == Transfer.Txs(s)
  {
    var t := Transfer.Txs(s);
    var r := Transfer.Tsx(t);
    MoveAgainKeepsFlags(s.x, s.p, t.p, r.p);
  }

  /** AND with the same operand twice is the same as once. */
  lemma AndIdempotent(s: State, addr: nat)
    requires addr < MemorySize
    ensures Arithmetic.And(Arithmetic.And(s, addr), addr) == Arithmetic.And(s, addr)
  {
    var t := Arithmetic.And(s, addr);
    var r := Arithmetic.And(t, addr);
    assert r.a == t.a;
    MoveAgainKeepsFlags(t.a, s.p, t.p, r.p);
  }

  /** EOR with the same operand twice gives A back. */
  lemma EorTwiceRestoresA(s: State, addr: nat)
    requires addr < MemorySize
    ensures Arithmetic.Eor(Arithmetic.Eor(s, addr), addr).a == s.a
  {
  }

  /** The byte ADC leaves in A and the carry it leaves in C together give
      the exact unsigned sum of A, M and the incoming carry, which is at
      most 0x1FF. */
  lemma AddKeepsExactSum(a: bv8, m: bv8, p: bv8, v: bv8, q: bv8)
    requires Alu.AddResult(a, m, p, v, q)
    ensures (if Has(q, Carry) then 0x100 else 0) + v as bv16
      == a as bv16 + m as bv16 + Alu.CarryBit(p) as bv16
  {
  }

  /** After CLC, ADC adds exactly the operand: A + M modulo 256, with C set
      iff the sum exceeds 255. */
  lemma ClcThenAdc(s: State, addr: nat)
    requires addr < MemorySize
    ensures var r := Arithmetic.Adc(Control.Clc(s), addr);
      && r.a == s.a + s.mem[addr]
      && (Has(r.p, Carry) <==> s.a as bv16 + s.mem[addr] as bv16 > 0xFF)
  {
  }

  /** Comparing A with the cell it was just loaded from sets Z and C and
      clears N. */
  lemma CmpAfterLoad(s: State, addr: nat)
    requires addr < MemorySize
    ensures var r := Compare.Cmp(Transfer.Lda(s, s.mem[addr]), addr);
      Has(r.p, Zero) && Has(r.p, Carry) && !Has(r.p, Negative)
  {
  }

  /** Of each pair of complementary branches exactly one is taken: one
      leaves the state unchanged and the other moves PC to the target. */
  lemma ComplementaryBranches(s: State, target: bv16)
    ensures Control.Bcc(s, target) == s || Control.Bcs(s, target) == s
    ensures Control.Bcc(s, target).pc == target || Control.Bcs(s, target).pc == target
    ensures Control.Beq(s, target) == s || Control.Bne(s, target) == s
    ensures Control.Beq(s, target).pc == target || Control.Bne(s, target).pc == target
    ensures Control.Bmi(s, target) == s || Control.Bpl(s, target) == s
    ensures Control.Bmi(s, target).pc == target || Control.Bpl(s, target).pc == target
    ensures Control.Bvc(s, target) == s || Control.Bvs(s, target) == s
    ensures Control.Bvc(s, target).pc == target || Control.Bvs(s, target).pc == target
  {
  }

  /** After CLC, BCC always branches; after CLV, BVC always branches. */
  lemma ClearedFlagBranches(s: State, target: bv16)
    ensures Control.Bcc(Control.Clc(s), target).pc == target
    ensures Control.Bvc(Control.Clv(s), target).pc == target
  {
  }

  /** After JSR the pushed return byte is the cell just above the new SP. */
  lemma JsrReturnByteOnTop(s: State, target: bv16)
    ensures var r := Control.Jsr(s, target);
      r.mem[StackCell(r.sp + 1)] as bv16 == (s.pc + 1) % 0x100
  {
  }

  /** After BRK the status byte is on top of the stack and the return byte
      right below it. */
  lemma BrkFrameOnTop(s: State)
    ensures var r := Control.Brk(s);
      && r.mem[StackCell(r.sp + 1)] == r.p
      && r.mem[StackCell(r.sp + 2)] as bv16 == (s.pc + 2) % 0x100
  {
  }
}
