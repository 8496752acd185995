/** Where the modelled handlers differ from the documented behaviour of the
    MOS 6502. The handlers above follow the code as written; each lemma here
    exhibits one difference on concrete inputs. */
module Divergences {
  import opened Flags
  import opened Machine
  import Arithmetic
  import Transfer
  import Control

  /** The 6502's V flag after an addition: the two operands have the same
      sign and the sum's sign differs from it. */
  predicate SignedOverflow(a: bv8, m: bv8, sum: bv8) {
    (a ^ sum) & (m ^ sum) & 0x80 != 0
  }

  /** ADC sets V with C, not on signed overflow: 0x50 + 0x50 = 0xA0 turns
      two positive bytes into a negative one, yet V stays clear. */
  lemma AdcMissesSignedOverflow(s: State, addr: nat)
    requires addr < MemorySize
    requires s.a == 0x50 && s.mem[addr] == 0x50 && !Has(s.p, Carry)
    ensures var r := Arithmetic.Adc(s, addr);
      SignedOverflow(s.a, s.mem[addr], r.a) && !Has(r.p, Overflow)
  {
  }

  /** ADC sets V with C, not on signed overflow: 0xFF + 0x01 (that is,
      -1 + 1) carries out but does not overflow, yet V is set. */
  lemma AdcReportsSpuriousOverflow(s: State, addr: nat)
    requires addr < MemorySize
    requires s.a == 0xFF && s.mem[addr] == 0x01 && !Has(s.p, Carry)
    ensures var r := Arithmetic.Adc(s, addr);
      !SignedOverflow(s.a, s.mem[addr], r.a) && Has(r.p, Overflow)
  {
  }

  /** TXS updates N and Z, which the 6502's TXS leaves alone: moving 0 into
      SP while Z is clear changes P. */
  lemma TxsSetsFlags(s: State)
    requires s.x == 0 && !Has(s.p, Zero)
    ensures Transfer.Txs(s).p != s.p
  {
  }

  /** JSR pushes one byte of the return address where the 6502 pushes two:
      calls from two return addresses with the same low byte leave
      identical states, so the high byte is lost. */
  lemma JsrLosesHighByte(s: State, t: State, target: bv16)
    requires t == s.(pc := t.pc)
    requires s.pc & 0xFF == t.pc & 0xFF
    ensures Control.Jsr(s, target) == Control.Jsr(t, target)
  {
  }

  /** BRK likewise pushes only the low byte of PC + 2: the stack it leaves
      does not depend on the high byte of PC. */
  lemma BrkLosesHighByte(s: State, t: State)
    requires t == s.(pc := t.pc)
    requires s.pc & 0xFF == t.pc & 0xFF
    ensures Control.Brk(s).mem == Control.Brk(t).mem
  {
  }

  /** BRK's status handling differs from the 6502's in three ways: the
      pushed status byte does not force the unused bit 5 to one, B is set in
      the live P (and no handler clears it again), and I is never set. From
      a clear P all three show at once. */
  lemma BrkStatusDiffers(s: State)
    requires s.p == 0
    ensures var r := Control.Brk(s);
      && !Has(r.mem[StackCell(s.sp - 1)], Unused)
      && Has(r.p, Break)
      && !Has(r.p, InterruptDisable)
  {
  }
}
