# MOS 6502 instruction handlers, modelled in Dafny

This project models the CPU core of a small NES emulator: the class in
`CPU.hpp` that holds the 6502's architectural state (a byte memory and the
registers A, X, Y, P, SP and PC) and implements one handler per supported
mnemonic. Each handler is modelled as a pure function from a `State` to the
next `State`; the constructor is a method that builds the initial state with a
loop.

Layout:

- `flags.dfy` (module `Flags`): the status register's flags named by bit
  position, and the flag-update blocks the handlers repeat, with the masks
  the code uses.
- `machine.dfy` (module `Machine`): `State`, the 65535-cell memory, the
  stack-cell address, and the constructor `NewCpu`.
- `alu.dfy` (module `Alu`): the byte-level computation of each handler. For
  every operation a predicate (`AddResult`, `CompareResult`, ...) states in
  terms of named flags what the outcome must be; the function that mirrors the
  code is proved to meet it.
- `arithmetic.dfy`, `compare.dfy`, `counters.dfy`, `transfer.dfy`,
  `control.dfy`: the handlers on whole states, grouped as ADC/AND/EOR/ASL/BIT,
  CMP/CPX/CPY, INC/DEC/INX/INY/DEX/DEY, loads/stores/transfers, and
  branches/JMP/JSR/BRK/flag clears. Every handler states which parts of the
  state it may change and that the rest is untouched.
- `laws.dfy` (module `Laws`): properties relating handlers (inverses,
  idempotence, one instruction setting up the condition another tests).
- `runs.dfy` (module `Runs`): straight-line runs of INX, DEX, INY and DEY,
  and the proof that a run followed by its reversed inverse restores the
  state except P.
- `divergences.dfy` (module `Divergences`): concrete inputs on which the code
  differs from the documented 6502 behaviour (see below).

Registers are `bv8`, PC is `bv16`, and all 8-bit wrap-around is the
bit-vector arithmetic's own. Handlers that read or write memory take the
effective address as an integer below `MemorySize` (65535); handlers that in
the code take an address for a jump or branch take a `bv16` target; the loads
take the byte to load, as in the code.

### Behaviour kept as written

In these places the code differs from the documented 6502, and the model
follows the code:

- ADC sets V to the same value as C (one mask, `0b01000001`), not on signed
  overflow; `Divergences.AdcMissesSignedOverflow` and
  `Divergences.AdcReportsSpuriousOverflow` give inputs on each side.
- TXS recomputes N and Z; `Divergences.TxsSetsFlags`.
- JSR and BRK write PC + 1 and PC + 2 into a single byte cell, so only the low
  byte of the return address is pushed; `Divergences.JsrLosesHighByte` and
  `Divergences.BrkLosesHighByte`.
- BRK sets B in the live P, and no modelled handler clears it again; the
  status byte it pushes does not force the unused bit 5 to one; and it never
  sets I. `Divergences.BrkStatusDiffers` shows all three from a clear P.
- The memory has 65535 cells (`MEMORY_SIZE`), so address 0xFFFF has no cell;
  every memory handler requires an address below 65535.

## Model

| member | source | states |
|---|---|---|
| Machine.NewCpu | CPU.hpp:15-25 | the initial state has every memory cell 0, A, X, Y and P 0, SP 0xFF and PC 0 |
| Machine.StackCell | CPU.hpp:165 | the cell a push writes lies in the stack page 0x100..0x1FF and inside the memory |
| Machine.StackCellInjective | CPU.hpp:165-172 | two different stack pointers address two different stack cells, so BRK's second push cannot overwrite its first |
| Machine.LowByte | CPU.hpp:408 | storing a 16-bit value in a byte cell keeps the value modulo 256 |
| Flags.UpdateZero | CPU.hpp:41-46 | Z ends up set exactly when the byte is zero, and no other flag changes |
| Flags.UpdateNegative | CPU.hpp:48-53 | N ends up set exactly when bit 7 of the byte is one, and no other flag changes |
| Flags.UpdateCarry | CPU.hpp:78-82 | C ends up equal to the condition, and no other flag changes |
| Flags.UpdateOverflow | CPU.hpp:130-135 | V ends up equal to the condition, and no other flag changes |
| Flags.UpdateCarryAndOverflow | CPU.hpp:30-36 | C and V both end up equal to the condition, and no other flag changes |
| Alu.CarryBit | CPU.hpp:28 | the extracted carry is 1 exactly when C is set and 0 otherwise |
| Alu.Add | CPU.hpp:27-56 | the sum is A + M + carry modulo 256; C is set iff the unsigned sum exceeds 255; V equals C; Z and N describe the sum; I, D, B and bit 5 are kept |
| Alu.And | CPU.hpp:58-74 | the result is A AND M, Z and N describe it, every other flag is kept |
| Alu.Xor | CPU.hpp:334-350 | the result is A XOR M, Z and N describe it, every other flag is kept |
| Alu.ShiftLeft | CPU.hpp:76-100 | the result is A doubled modulo 256, C is the old bit 7, Z and N describe the result, V, I, D, B are kept |
| Alu.BitTest | CPU.hpp:120-143 | N and V are copied from bits 7 and 6 of M, Z is set iff A and M share no set bit, other flags kept |
| Alu.Compare | CPU.hpp:199-224 | C is set iff the register is at least M unsigned, Z iff they are equal, N is bit 7 of their difference; other flags kept |
| Alu.Increment | CPU.hpp:352-366 | the result minus one is the operand (0xFF wraps to 0); Z and N describe the result; other flags kept |
| Alu.Decrement | CPU.hpp:280-296 | the result plus one is the operand (0 wraps to 0xFF); Z and N describe the result; other flags kept |
| Alu.Move | CPU.hpp:416-432 | Z and N describe the moved byte and every other flag is kept |
| Arithmetic.Adc | CPU.hpp:27-56 | A and P are the ADC outcome for A, the addressed cell and C; memory, X, Y, SP and PC are unchanged |
| Arithmetic.And | CPU.hpp:58-74 | A becomes A AND M with N and Z from it; only A and P change |
| Arithmetic.Eor | CPU.hpp:334-350 | A becomes A XOR M with Z and N from it; only A and P change |
| Arithmetic.Asl | CPU.hpp:76-100 | A is shifted left with its bit 7 going to C; only A and P change |
| Arithmetic.Bit | CPU.hpp:120-143 | only P changes: N, V from the operand, Z from A AND M |
| Compare.Cmp | CPU.hpp:199-224 | only P changes, recording A compared with the operand |
| Compare.Cpx | CPU.hpp:226-251 | only P changes, recording X compared with the operand |
| Compare.Cpy | CPU.hpp:253-278 | only P changes, recording Y compared with the operand |
| Counters.Inc | CPU.hpp:352-366 | the addressed cell goes up by one modulo 256, no other cell changes, only P among the registers |
| Counters.Dec | CPU.hpp:280-296 | the addressed cell goes down by one modulo 256, no other cell changes, only P among the registers |
| Counters.Inx | CPU.hpp:368-382 | X goes up by one modulo 256; only X and P change |
| Counters.Iny | CPU.hpp:384-398 | Y goes up by one modulo 256; only Y and P change |
| Counters.Dex | CPU.hpp:298-314 | X goes down by one modulo 256; only X and P change |
| Counters.Dey | CPU.hpp:316-332 | Y goes down by one modulo 256; only Y and P change |
| Transfer.Lda | CPU.hpp:416-432 | A receives the given byte, N and Z describe it, nothing else changes |
| Transfer.Ldx | CPU.hpp:434-450 | X receives the given byte, N and Z describe it, nothing else changes |
| Transfer.Ldy | CPU.hpp:452-468 | Y receives the given byte, N and Z describe it, nothing else changes |
| Transfer.Store | CPU.hpp:474-484 | the addressed cell receives the byte, every other cell and every register is unchanged |
| Transfer.Sta | CPU.hpp:474-476 | the addressed cell receives A; no other cell, register or flag changes |
| Transfer.Stx | CPU.hpp:478-480 | the addressed cell receives X; no other cell, register or flag changes |
| Transfer.Sty | CPU.hpp:482-484 | the addressed cell receives Y; no other cell, register or flag changes |
| Transfer.Tax | CPU.hpp:486-502 | X receives A, N and Z describe it; only X and P change |
| Transfer.Tay | CPU.hpp:504-520 | Y receives A, N and Z describe it; only Y and P change |
| Transfer.Tsx | CPU.hpp:522-538 | X receives SP, N and Z describe it; only X and P change |
| Transfer.Txa | CPU.hpp:540-556 | A receives X, N and Z describe it; only A and P change |
| Transfer.Txs | CPU.hpp:558-574 | SP receives X and, as written, N and Z describe it; only SP and P change |
| Transfer.Tya | CPU.hpp:576-592 | A receives Y, N and Z describe it; only A and P change |
| Control.Bcc | CPU.hpp:102-106 | PC moves to the target exactly when C is clear; otherwise the state is unchanged |
| Control.Bcs | CPU.hpp:108-112 | PC moves to the target exactly when C is set; otherwise the state is unchanged |
| Control.Beq | CPU.hpp:114-118 | PC moves to the target exactly when Z is set; otherwise the state is unchanged |
| Control.Bmi | CPU.hpp:145-149 | PC moves to the target exactly when N is set; otherwise the state is unchanged |
| Control.Bne | CPU.hpp:151-155 | PC moves to the target exactly when Z is clear; otherwise the state is unchanged |
| Control.Bpl | CPU.hpp:157-161 | PC moves to the target exactly when N is clear; otherwise the state is unchanged |
| Control.Bvc | CPU.hpp:175-179 | PC moves to the target exactly when V is clear; otherwise the state is unchanged |
| Control.Bvs | CPU.hpp:181-185 | PC moves to the target exactly when V is set; otherwise the state is unchanged |
| Control.Jmp | CPU.hpp:400-403 | PC becomes the target and nothing else changes |
| Control.Push | CPU.hpp:408 | the byte lands in the cell SP selects, SP drops by one modulo 256, nothing else changes |
| Control.Jsr | CPU.hpp:405-412 | the cell SP selected holds PC + 1 modulo 256, SP drops by one, PC is the target, nothing else changes |
| Control.Brk | CPU.hpp:163-173 | PC + 2 modulo 256 and then P with B set are pushed at SP and SP - 1, SP drops by two, only B changes in P, PC is kept |
| Control.Clc | CPU.hpp:187-189 | C is cleared and every other flag and register is kept |
| Control.Cli | CPU.hpp:191-193 | I is cleared and every other flag and register is kept |
| Control.Clv | CPU.hpp:195-197 | V is cleared and every other flag and register is kept |
| Laws.IncrementThenDecrement | CPU.hpp:280-296 | counting a byte up and then down gives it back, with flags describing it |
| Laws.DecrementThenIncrement | CPU.hpp:352-366 | counting a byte down and then up gives it back, with flags describing it |
| Laws.IncThenDecRestores | CPU.hpp:280-296 | INC then DEC on one cell restores all of memory and every register but P |
| Laws.DecThenIncRestores | CPU.hpp:352-366 | DEC then INC on one cell restores all of memory and every register but P |
| Laws.InxThenDex | CPU.hpp:298-314 | INX then DEX restores the state except P, which describes X |
| Laws.DexThenInx | CPU.hpp:368-382 | DEX then INX restores the state except P, which describes X |
| Laws.InyThenDey | CPU.hpp:316-332 | INY then DEY restores the state except P, which describes Y |
| Laws.DeyThenIny | CPU.hpp:384-398 | DEY then INY restores the state except P, which describes Y |
| Laws.MoveAgainKeepsFlags | CPU.hpp:419-431 | repeating the N/Z update for the same byte leaves the status byte as it was |
| Laws.StoreThenLoad | CPU.hpp:474-476 | loading the cell STA just wrote yields the old A |
| Laws.TaxThenTxa | CPU.hpp:540-556 | after TAX, TXA leaves the whole state unchanged |
| Laws.TayThenTya | CPU.hpp:576-592 | after TAY, TYA leaves the whole state unchanged |
| Laws.TxsThenTsx | CPU.hpp:522-538 | after TXS, TSX leaves the whole state unchanged |
| Laws.AndIdempotent | CPU.hpp:58-74 | AND with the same operand twice is the same as once |
| Laws.EorTwiceRestoresA | CPU.hpp:334-350 | EOR with the same operand twice gives A back |
| Laws.AddKeepsExactSum | CPU.hpp:31-39 | the result byte and C together encode the exact 9-bit sum of A, M and the carry |
| Laws.ClcThenAdc | CPU.hpp:187-189 | after CLC, ADC adds exactly the operand, carrying out iff the sum exceeds 255 |
| Laws.CmpAfterLoad | CPU.hpp:199-224 | comparing A with the cell it was loaded from sets Z and C and clears N |
| Laws.ComplementaryBranches | CPU.hpp:102-185 | of BCC/BCS, BEQ/BNE, BMI/BPL and BVC/BVS exactly one branch is taken in any state |
| Laws.ClearedFlagBranches | CPU.hpp:187-197 | after CLC, BCC always branches; after CLV, BVC always branches |
| Laws.JsrReturnByteOnTop | CPU.hpp:405-412 | after JSR the return byte is the cell just above the new SP |
| Laws.BrkFrameOnTop | CPU.hpp:163-173 | after BRK the status byte is just above the new SP and the return byte above it |
| Runs.ApplyIgnoresFlags | CPU.hpp:298-398 | what INX, DEX, INY and DEY do to memory and to every register but P does not depend on the incoming P |
| Runs.RunIgnoresFlags | CPU.hpp:298-398 | the same holds for any sequence of those four instructions |
| Runs.UndoStep | CPU.hpp:298-398 | each of INX, DEX, INY, DEY followed by its inverse restores everything except P |
| Runs.RunThenReverse | CPU.hpp:298-398 | any sequence of INX, DEX, INY, DEY followed by the inverse steps in reverse order restores memory and every register except P |
| Divergences.AdcMissesSignedOverflow | CPU.hpp:31-36 | 0x50 + 0x50 overflows as signed bytes, yet ADC leaves V clear |
| Divergences.AdcReportsSpuriousOverflow | CPU.hpp:31-36 | 0xFF + 0x01 does not overflow as signed bytes, yet ADC sets V |
| Divergences.TxsSetsFlags | CPU.hpp:558-574 | TXS of zero with Z clear changes P |
| Divergences.JsrLosesHighByte | CPU.hpp:408 | JSR from return addresses that differ only in the high byte yields identical states |
| Divergences.BrkLosesHighByte | CPU.hpp:165 | BRK leaves a stack that does not depend on the high byte of PC |
| Divergences.BrkStatusDiffers | CPU.hpp:163-173 | from a clear P, BRK pushes a status byte with bit 5 clear, and leaves B set and I clear in P, unlike the 6502 |

## Left out

- LSR: its handler body is empty (a TODO), so there is nothing to model.
- printMemory: console output only.
- The opcode table, the addressing-mode resolver, the fetch/decode loop and cartridge loading: they are not part of this model, and none of them is in `CPU.hpp`. The handlers take the resolved address, target or byte as a parameter.
- Cycle counts, decimal mode, interrupt vectors, and the instructions the code does not implement (SBC, ORA, ROL, ROR, RTS, RTI, the stack pushes and pulls, the SE* flag instructions, NOP): absent from the code.
- ASL on memory: the code only shifts the accumulator.
- BPL's own parameter: the original handler has none and reads `adress_index`, which is not declared in `CPU.hpp`; the model gives it a target parameter like the other branches.
- Address 0xFFFF: a handler given it would index past the end of the 65535-byte array (undefined behaviour in C++); the memory handlers require an address below 65535 instead of modelling that access.
