# yob processor core in Dafny

This project models the processor core of yob, a Game Boy emulator written in
Rust. The emulated processor is the Sharp LR35902, a Z80-like 8-bit CPU. The
model covers:

- the register file, with its flag bits and its 16-bit register pairs;
- main memory, a RAM array of 0xFFFF bytes;
- the video unit's registers and VRAM;
- the operand kinds an instruction reads from or writes to (immediate byte,
  register, indirect through a pair or the zero page);
- the two opcode tables (main and CB-prefixed) and the instruction set they
  dispatch to: loads, stack, ALU, rotations, jumps, calls, returns, restarts,
  the CB bit operations;
- the fetch-execute step and the interrupt service that follows it.

Every routine of the program that aborts (`panic!`, an out-of-range array
index, an arithmetic overflow that a debug build traps) returns a `Fatal`
result whose `Fault` names the cause. A step therefore either yields the next
machine state or says why the program would have stopped. The debug-build
overflow checks on `pc + 1`, `sp + 1` and `address + 1` trip exactly where the
next access would index past the end of the 0xFFFF-entry RAM. Both cases are
modelled as `OutOfBounds`, so the model needs no preconditions on register
values.

The project is made of these modules:

- `Bits`: fixed-width values and the bitwise operators.
- `Faults`: the failure kinds and `Result`.
- `RegisterFile`: the registers.
- `MainMemory`: main memory.
- `Video`: the video unit.
- `Machine`: the CPU state and the memory helpers of `Cpu`.
- `Addressing`: operand kinds.
- `Alu`: register-level arithmetic.
- `Instructions`: one function per instruction.
- `Decoder` and `TableStructure`: the opcode tables and their layout.
- `Executor`: dispatch, step and interrupt.

In four places the code departs from the processor it emulates: the Zero
flag of ADD/ADC and of SBC, and opcodes 0x1B and 0x33. SUB and CP share
SBC's code but cannot reach the difference where it goes wrong. The model keeps
each as-written version beside a corrected one, proves where the two part,
and executes the corrected one (see "## Findings").

Where the program's own tests and its code disagree, the model follows the
code:

- `tests/cpu_test.rs:70-74` expects ADD A,A on 0xFF to give 0 with Carry set.
  `add_op` gives 0xFE with Carry set (`Executor.AddAccumulatorToItself`).
- `tests/cpu_test.rs:79-84` expects ADC A,A on 2 with Carry set to leave
  Carry set. `add_op` computes 5 and clears Carry.
- `tests/cpu_test.rs:86-90` expects ADC A,A on 0xFF to give 0. It gives 0xFE.

## Model

| member | source | states |
|---|---|---|
| Bits.And8 | src/cpu.rs:500-505 | bit i of `x & y` is set exactly when bit i is set in both operands |
| Bits.Or8 | src/cpu.rs:507-512 | bit i of `x \| y` is set exactly when bit i is set in either operand |
| Bits.Xor8 | src/cpu.rs:514-519 | bit i of `x ^ y` is set exactly when the operands differ at bit i |
| Bits.Not8 | src/cpu.rs:765-767 | `!x` flips each of the eight low bits and has nothing above bit 7 |
| Bits.WithBit | src/cpu.rs:796-804 | `x \| (1 << k)` or `x & !(1 << k)` forces bit k to the chosen value and keeps every other bit |
| Bits.AndPow2 | src/cpu.rs:791-794 | `x & (1 << k)` is non-zero exactly when bit k of x is set |
| RegisterFile.NewRegisters | src/registers.rs:32-45 | a fresh register file has every 8-bit register, PC and SP at zero |
| RegisterFile.Store8 | src/addressing.rs:63-75 | writing one 8-bit register changes that register only, and never PC or SP |
| RegisterFile.Store16 | src/cpu.rs:479-482 | `store_16` as LD rr,nn uses it: the pair then reads back the value, every 8-bit register outside the pair and PC are kept, and SP is kept unless SP is the pair |
| RegisterFile.Compose | src/registers.rs:55-65 | a pair's value has the high register as its high byte and the low register as its low byte |
| RegisterFile.StorePairRoundTrip | src/addressing.rs:77-101 | reading a pair back returns what was written; registers outside the pair, and PC, keep their values |
| RegisterFile.StorePairOwnValue | src/addressing.rs:77-101 | writing a pair's own value back leaves the registers unchanged |
| RegisterFile.FlagMasks | src/registers.rs:4-7 | the Zero, Subtract, Half-carry and Carry masks are bits 7, 6, 5 and 4 |
| RegisterFile.TestFlag | src/cpu.rs:615-621 | `test_flag(ZERO_FLAG)` is bit 7 of F and `test_flag(CARRY_FLAG)` is bit 4 of F |
| RegisterFile.ZeroFlag | src/registers.rs:4 | the Zero flag is bit 7 of F |
| RegisterFile.CarryFlag | src/registers.rs:7 | the Carry flag is bit 4 of F |
| RegisterFile.Carry | src/cpu.rs:539-551 | the carry as a number is 1 exactly when the Carry flag is set, else 0 |
| RegisterFile.SetZero | src/registers.rs:47-53 | bit 7 of F takes the condition; every other bit of F and every other register is kept |
| RegisterFile.SetCarry | src/cpu.rs:554-560 | bit 4 of F takes the condition; every other bit of F and every other register is kept |
| RegisterFile.ZeroOnlyFlags | src/registers.rs:47-53 | from F = 0, setting the Zero flag gives F = ZERO_FLAG or 0 |
| MainMemory.NewRam | src/memory.rs:26-28 | a fresh RAM holds 0 at each of its 0xFFFF addresses |
| MainMemory.RamLoad | src/memory.rs:30-32 | a RAM read returns the byte stored at the address |
| MainMemory.RamStore | src/memory.rs:34-36 | a store changes the addressed byte to the value and no other byte |
| MainMemory.NewMemory | src/memory.rs:6-10 | fresh memory is zero everywhere |
| MainMemory.Load | src/memory.rs:12-14 | a load reads the RAM byte at the address |
| MainMemory.Store | src/memory.rs:16-18 | a store writes through to the RAM |
| MainMemory.LoadAfterStore | src/memory.rs:12-18 | a load after a store sees the stored value at that address and the old value elsewhere |
| Video.NewGpu | src/gpu.rs:23-41 | power-on values: control 0x91, LY 0x91, background palette 0xFC, sprite palettes 0xFF, the rest and all of OAM and VRAM zero |
| Video.Load | src/gpu.rs:90-105 | only 0x40-0x44 and 0x47 can be read, and they read their register; any other address is a fault |
| Video.Store | src/gpu.rs:107-122 | only 0x40-0x44 and 0x47-0x4B can be written; any other address is a fault |
| Video.StoreFrame | src/gpu.rs:107-122 | a write sets its own register (LY is reset to 0 whatever the value) and keeps every other register, LYC, OAM and VRAM |
| Video.LoadAfterStore | src/gpu.rs:90-122 | after a write, the readable registers read back the value, LY reads 0, and the write-only palettes and window registers cannot be read |
| Video.VramStore | src/gpu.rs:82-88 | a VRAM store sets the addressed byte, keeps every other byte and leaves the registers alone |
| Video.VramLoad | src/gpu.rs:82-84 | a VRAM read returns the byte stored at the address |
| Machine.NewCpu | src/cpu.rs:18-26 | a new CPU has zero registers, zero memory, no cycles, and is neither halted nor enabled for interrupts |
| Machine.Reset | src/cpu.rs:28-33 | the registers are reset (SP to 0xFFFE, the others to zero), PC is then set to 0x100, and memory and the rest of the CPU are kept |
| Machine.PushAfterReset | src/cpu.rs:28-33 | after a reset the stack has room: a push of any word but the 0xF0C9 trap succeeds and leaves SP at 0xFFFC |
| Machine.LoadByte | src/cpu.rs:368-371 | a read is the RAM byte at the address and costs one cycle; an address past the RAM is a fault |
| Machine.StoreByte | src/cpu.rs:373-376 | a write sets only the addressed byte and costs one cycle; an address past the RAM is a fault |
| Machine.LoadByteAndIncPc | src/cpu.rs:362-366 | fetches the byte at PC, moves PC past it and spends one cycle; fails exactly when PC is past the RAM |
| Machine.PopByte | src/cpu.rs:378-383 | reads the byte at SP and increments SP; fails exactly when SP is past the RAM |
| Machine.LoadWord | src/cpu.rs:391-396 | a word is read low byte first, little-endian, in two cycles |
| Machine.LoadWordAndIncPc | src/cpu.rs:385-389 | fetches the little-endian word at PC and moves PC by 2 |
| Machine.StoreWord | src/cpu.rs:398-404 | writes the low byte at the address and the high byte after it, changes nothing else, and costs four cycles |
| Machine.PushWord | src/cpu.rs:406-413 | a push moves SP down by 2 and stores the word little-endian there; it fails when SP is below 2 or the value is the 0xF0C9 trap |
| Machine.PopWord | src/cpu.rs:415-420 | a pop reads the little-endian word at SP and moves SP up by 2 |
| Machine.PushThenPop | src/cpu.rs:406-420 | popping after a push returns the pushed word and restores every register |
| Machine.StoreWordThenLoadWord | src/cpu.rs:391-404 | a word read after a word write at the same address returns the written word |
| Addressing.IndirectAddress | src/addressing.rs:23-29 | the address of an indirect operand: a pair's value for BC, DE and HL; 0xFF00 plus C; or 0xFF00 plus the byte fetched at PC, which moves PC on and fails exactly when PC is past the RAM |
| Addressing.Load | src/addressing.rs:8-101 | per operand kind: an immediate reads the byte at PC and moves PC on; a register reads that register; an indirect pair reads memory at the pair's address; the zero page reads 0xFF00 plus C or plus the fetched byte; the fault cases are given exactly |
| Addressing.Store | src/addressing.rs:8-101 | an immediate operand cannot be written; a register write changes that register; indirect writes change exactly the addressed byte; the fault cases are given exactly |
| Addressing.StoreThenLoad | src/addressing.rs:22-101 | reading an operand back after writing it returns the written value, for every kind except the immediate and fetching zero-page ones |
| Alu.AddOpAsWritten | src/cpu.rs:554-560 | as the program computes it: A becomes the 8-bit sum of A, the value and the carry-in; Carry is set exactly on overflow; Zero exactly when the unwrapped 16-bit sum is 0; other flags kept |
| Alu.AddOp | src/cpu.rs:554-570 | the corrected ADD/ADC used by the model: the same sum and Carry, with Zero set exactly when the new A is 0 |
| Alu.AddZeroFlagDiscrepancy | src/cpu.rs:554-560 | the program's ADD and the corrected one agree on A and Carry, and disagree on Zero exactly when the sum is 256 |
| Alu.SubOpAsWritten | src/cpu.rs:592-598 | as the program computes it: the difference wraps to 8 bits; Carry is set exactly on borrow; Zero exactly when A equals value plus carry-in; other flags kept |
| Alu.SubOp | src/cpu.rs:592-613 | the corrected SUB/SBC/CP used by the model: the same difference and Carry, with Zero set exactly when the 8-bit difference is 0 |
| Alu.SubZeroFlagDiscrepancy | src/cpu.rs:592-598 | the program's SUB and the corrected one agree on the difference and Carry, and disagree on Zero exactly when the exact difference is -256 |
| Alu.SubWithoutCarryAgrees | src/cpu.rs:592-613 | without a carry-in (SUB and CP) the program's subtraction and the corrected one give the same registers and difference |
| Alu.WrappingDifference | src/cpu.rs:593 | the u16 difference is the exact difference, taken modulo 2^16 when it is negative |
| Alu.ClearFlagsSetZero | src/cpu.rs:500-519 | after a logical operation, F is ZERO_FLAG when the result is 0 and 0 otherwise |
| Alu.AluRegisters | src/cpu.rs:500-613 | an ALU operation changes only A and F |
| Alu.AluResults | src/cpu.rs:500-613 | per operation: ADD/ADC give the 8-bit sum with Carry exactly on overflow; SUB/SBC give the 8-bit difference with Carry exactly on borrow; CP keeps A, sets Carry when A is below the operand and Zero when they are equal; Zero follows the new A and the other flags are kept; AND, XOR and OR put the bitwise result in A and leave F holding only its Zero flag |
| Alu.LogicOps | src/cpu.rs:500-519 | AND, OR and XOR set each bit of A as the bitwise operator says, and F holds only the Zero flag of the result |
| Alu.CompareIsSubtractWithoutResult | src/cpu.rs:600-613 | CP sets exactly the flags SUB sets, keeps A, and sets Zero exactly when A equals the operand |
| Alu.SubUndoesAdd | src/cpu.rs:554-603 | SUB v after ADD v restores A |
| Alu.IncOp | src/cpu.rs:615-621 | the value wraps up by one; Zero reflects the result; Carry and the other flags are kept |
| Alu.DecOp | src/cpu.rs:631-637 | the value wraps down by one; Zero reflects the result; Carry and the other flags are kept |
| Alu.OnlyZeroChanged | src/cpu.rs:615-621 | starting from F = 0, a flag update that keeps every bit but bit 7 leaves F = ZERO_FLAG or 0, as the Zero flag says |
| Alu.CountingSetsOnlyZero | tests/cpu_test.rs:17-43 | from F = 0, INC of 0xFF and DEC of 1 leave F = ZERO_FLAG, and any other value leaves F = 0 |
| Alu.DecUndoesInc | src/cpu.rs:615-637 | DEC after INC restores the value and the Carry flag |
| Alu.Inc16Op | src/cpu.rs:623-629 | the pair wraps up by one; Zero reflects the new pair value; Carry and the other flags are kept; registers outside the pair are kept |
| Alu.Dec16Op | src/cpu.rs:639-645 | the pair wraps down by one; Zero reflects the new pair value; Carry and the other flags are kept; registers outside the pair are kept |
| Alu.AddHlOp | src/cpu.rs:573-578 | HL becomes the 16-bit wrapping sum of HL and the pair; no flag or other register changes |
| Alu.SignExtend | src/cpu.rs:581-589 | an `i8` read of the byte lies in -128..127 and is congruent to the byte modulo 256 |
| Alu.AddSignedOffset | src/cpu.rs:581-589 | SP plus the signed offset, wrapping modulo 2^16 |
| Alu.RlcaOp | src/cpu.rs:521-528 | A rotates left, bit 7 going to both bit 0 and Carry; other flags kept |
| Alu.RrcaOp | src/cpu.rs:530-537 | A rotates right, bit 0 going to both bit 7 and Carry; other flags kept |
| Alu.RlaOp | src/cpu.rs:539-544 | A shifts left through Carry: the old carry enters bit 0 and bit 7 becomes Carry |
| Alu.RraOp | src/cpu.rs:546-551 | A shifts right through Carry: the old carry enters bit 7 and bit 0 becomes Carry |
| Alu.RotationsInvert | src/cpu.rs:521-551 | RRCA undoes RLCA, and RRA undoes RLA including the Carry flag |
| Alu.SwapNibbles | src/cpu.rs:783-789 | the high nibble of the result is the old low nibble and the low nibble is the old high nibble |
| Alu.SwapInvolution | src/cpu.rs:783-789 | swapping twice gives back the original byte |
| Alu.BitTestOp | src/cpu.rs:791-794 | Zero is set exactly when bit n of the value is clear; the other flags are kept |
| Alu.CplOp | src/cpu.rs:765-767 | every bit of A is flipped and F is kept |
| Alu.ScfOp | src/cpu.rs:760-763 | Carry is set and the other flags are kept |
| Alu.CcfOp | src/cpu.rs:754-758 | Carry is flipped and the other flags are kept |
| Instructions.Ld | src/cpu.rs:459-462 | a register-to-register LD copies the source into the destination only; an immediate destination is a fault |
| Instructions.LdCopiesByte | src/cpu.rs:459-462 | after LD, reading the destination gives the byte the source held |
| Instructions.LdSpHl | src/cpu.rs:464-467 | SP takes HL's value and nothing else changes |
| Instructions.LdHlSp | src/cpu.rs:470-477 | HL becomes SP plus the unsigned immediate byte, wrapping, and PC moves past the byte |
| Instructions.LdWordImmediate | src/cpu.rs:479-482 | the pair takes the little-endian word at PC, PC moves by 2, every 8-bit register outside the pair is kept, SP is kept unless it is the pair, and memory is unchanged; fails exactly when the word runs past the RAM |
| Instructions.LdIndirectSp | src/cpu.rs:484-488 | SP is stored little-endian at the immediate address, only those two bytes change, and PC moves by 2; it fails exactly when the operand or the second stored byte lies past the RAM |
| Instructions.Push | src/cpu.rs:495-498 | the pair's word lands below SP, SP drops by 2, and only those two bytes change |
| Instructions.Pop | src/cpu.rs:490-493 | the pair takes the word at SP, SP rises by 2 unless SP is the pair, every 8-bit register outside the pair and PC are kept, and memory is unchanged; fails exactly when SP+1 is past the RAM |
| Instructions.PushThenPopPair | src/cpu.rs:490-498 | POP q after PUSH p moves p's value into q and restores SP |
| Instructions.AluOnStorage | src/cpu.rs:500-613 | an ALU instruction sets A and F to what the operation gives on A and the operand's value, keeps every other register and all memory, moves PC past an immediate operand and otherwise leaves it (except for the zero-page fetch); it fails exactly when the operand read fails |
| Instructions.CompareKeepsAccumulator | src/cpu.rs:600-613 | CP and SUB on the same operand fail together, agree on the flags, and differ only in that CP keeps A |
| Instructions.Inc | src/cpu.rs:615-621 | INC on a register or on memory through a pair adds one with wrap, sets Zero from the result and keeps Carry; on a register other than F it changes only that register and F; on memory it changes only the addressed byte and F, and fails exactly when the address is past the RAM |
| Instructions.Dec | src/cpu.rs:631-637 | DEC on a register or on memory through a pair subtracts one with wrap, sets Zero from the result and keeps Carry; on a register other than F it changes only that register and F; on memory it changes only the addressed byte and F, and fails exactly when the address is past the RAM |
| Instructions.Inc16 | src/cpu.rs:623-629 | the pair wraps up by one and only the registers change |
| Instructions.Dec16 | src/cpu.rs:639-645 | the pair wraps down by one and only the registers change |
| Instructions.AddHl | src/cpu.rs:573-578 | HL gains the pair's value modulo 2^16 and F is unchanged |
| Instructions.AddSp | src/cpu.rs:581-589 | SP gains the signed immediate byte, wrapping, and PC moves past it |
| Instructions.Jp | src/cpu.rs:647-651 | PC takes the immediate word and nothing else in the state changes but the cycle count |
| Instructions.JpHl | src/cpu.rs:653-657 | PC takes HL's value |
| Instructions.JpCond | src/cpu.rs:659-673 | PC takes the immediate word when the flag condition holds and otherwise moves past it |
| Instructions.RelativeTarget | src/cpu.rs:675-679 | the target is PC plus the signed offset, wrapping modulo 2^16 |
| Instructions.Jr | src/cpu.rs:675-679 | PC moves past the offset byte and then by its signed value |
| Instructions.JrCond | src/cpu.rs:681-695 | the relative jump is taken exactly when the flag condition holds, and otherwise PC only moves past the offset |
| Instructions.CallOp | src/cpu.rs:697-703 | the current PC is pushed little-endian and PC takes the target; only the two stack bytes change |
| Instructions.Call | src/cpu.rs:705-708 | the return address (PC past the operand) is pushed and PC takes the immediate word |
| Instructions.CallCond | src/cpu.rs:710-722 | a call taken under the flag condition behaves like CALL, and otherwise PC moves past the operand in two cycles |
| Instructions.Ret | src/cpu.rs:724-727 | PC takes the little-endian word at SP and SP rises by 2 |
| Instructions.RetCond | src/cpu.rs:729-739 | a return under the flag condition is RET when the condition holds, and otherwise the state is unchanged |
| Instructions.Reti | src/cpu.rs:741-744 | RETI clears the master interrupt enable and returns |
| Instructions.Rst | src/cpu.rs:769-774 | the current PC is pushed little-endian at SP-2 and SP-1, SP drops by 2, PC takes the fixed address, and only those two bytes, the registers named and the cycle count change; fails exactly when SP is below 2 or PC is the 0xF0C9 trap |
| Instructions.CallThenRet | src/cpu.rs:705-727 | RET after a successful CALL resumes just after the CALL, with SP and every register restored |
| Instructions.Ei | src/cpu.rs:746-748 | sets the master interrupt enable and changes nothing else |
| Instructions.Di | src/cpu.rs:750-752 | clears the master interrupt enable and changes nothing else |
| Instructions.Halt | src/cpu.rs:181 | sets the halt flag and changes nothing else |
| Instructions.Swap | src/cpu.rs:783-789 | on a register other than F, its nibbles are exchanged, F holds only the Zero flag of the original value, and nothing else changes |
| Instructions.BitTest | src/cpu.rs:791-794 | Zero is set exactly when bit n of the operand is clear; only F changes besides the operand read |
| Instructions.Res | src/cpu.rs:796-799 | bit n of the register is cleared, its other bits and every other register, PC, SP and memory are kept |
| Instructions.Set | src/cpu.rs:801-804 | bit n of the register is set, its other bits and every other register, PC, SP and memory are kept |
| Decoder.Decode | src/cpu.rs:58-322 | the main opcode table (corrected at 0x1B and 0x33); an illegal or unmodelled entry carries the opcode that selected it |
| Decoder.DecodeCb | src/cpu.rs:324-358 | the CB table: each of the ten implemented opcodes decodes to an instruction, and an unimplemented entry carries the opcode that selected it |
| Decoder.DecodeAsWritten | src/cpu.rs:58-322 | the program's table: it agrees with the corrected table except at 0x1B and 0x33, where it selects the 8-bit DEC (DE) and INC (SP) instead of DEC DE and INC SP |
| TableStructure.LoadBlock | src/cpu.rs:127-190 | 0x40-0x7F except 0x76 decode to LD dst,src with dst from bits 5-3 and src from bits 2-0 |
| TableStructure.AluBlock | src/cpu.rs:191-254 | 0x80-0xBF decode to the ALU operation of bits 5-3 on the operand of bits 2-0 |
| TableStructure.LowQuarter | src/cpu.rs:63-126 | the regular columns of 0x00-0x3F (INC, DEC, LD r,n, LD rr,nn, ADD HL,rr, INC rr, DEC rr) decode by bit field in the corrected table, 0x1B and 0x33 included |
| TableStructure.HighQuarter | src/cpu.rs:255-318 | in 0xC0-0xFF, ALU-immediate, RST, POP and PUSH decode by bit field |
| TableStructure.ConditionCodes | src/cpu.rs:95-318 | conditional JR, RET, JP and CALL take their condition from bits 4-3 |
| TableStructure.SpecialOpcodes | src/cpu.rs:58-322 | exactly the eleven unused opcodes are illegal, and exactly the six opcodes with unmodelled operands are set aside |
| TableStructure.ControlOpcodes | src/cpu.rs:58-322 | EI, DI, RETI and HALT are decoded from 0xFB, 0xF3, 0xD9 and 0x76 and from no other opcode |
| TableStructure.CbImplemented | src/cpu.rs:324-358 | exactly ten CB opcodes are implemented, and 0x30-0x37 except 0x36 are SWAP of the operand from bits 2-0 |
| TableStructure.Row0 | src/cpu.rs:63-78 | the decode facts for 0x00-0x0F |
| TableStructure.Row1 | src/cpu.rs:79-94 | the decode facts for 0x10-0x1F (corrected table); the program's table agrees everywhere but 0x1B, where it has the 8-bit DEC (DE) |
| TableStructure.Row2 | src/cpu.rs:95-110 | the decode facts for 0x20-0x2F |
| TableStructure.Row3 | src/cpu.rs:111-126 | the decode facts for 0x30-0x3F (corrected table); the program's table agrees everywhere but 0x33, where it has the 8-bit INC (SP) |
| TableStructure.Row4 | src/cpu.rs:127-142 | the decode facts for 0x40-0x4F |
| TableStructure.Row5 | src/cpu.rs:143-158 | the decode facts for 0x50-0x5F |
| TableStructure.Row6 | src/cpu.rs:159-174 | the decode facts for 0x60-0x6F |
| TableStructure.Row7 | src/cpu.rs:175-190 | the decode facts for 0x70-0x7F |
| TableStructure.Row8 | src/cpu.rs:191-206 | the decode facts for 0x80-0x8F |
| TableStructure.Row9 | src/cpu.rs:207-222 | the decode facts for 0x90-0x9F |
| TableStructure.RowA | src/cpu.rs:223-238 | the decode facts for 0xA0-0xAF |
| TableStructure.RowB | src/cpu.rs:239-254 | the decode facts for 0xB0-0xBF |
| TableStructure.RowC | src/cpu.rs:255-270 | the decode facts for 0xC0-0xCF |
| TableStructure.RowD | src/cpu.rs:271-286 | the decode facts for 0xD0-0xDF |
| TableStructure.RowE | src/cpu.rs:287-302 | the decode facts for 0xE0-0xEF |
| TableStructure.RowF | src/cpu.rs:303-318 | the decode facts for 0xF0-0xFF |
| Discrepancies.AddWrapLeavesZeroClear | src/cpu.rs:554-560 | with A = 0xFF, the program's ADD A,1 gives A = 0 with Zero clear, and the corrected one sets Zero |
| Discrepancies.SbcWrapLeavesZeroClear | src/cpu.rs:592-598 | with A = 0 and Carry set, the program's SBC A,0xFF gives 0 with Zero clear, and the corrected one sets Zero |
| Discrepancies.DecDeAsWritten | src/cpu.rs:90 | the program's 0x1B keeps DE and decrements the byte at DE; the corrected 0x1B decrements DE |
| Discrepancies.IncSpAsWritten | src/cpu.rs:114 | the program's 0x33 keeps SP and increments the byte at SP; the corrected 0x33 increments SP |
| Executor.Exec | src/cpu.rs:58-322 | executing any instruction keeps IE and IF; only EI, DI and RETI change the master enable; only HALT sets the halt flag |
| Executor.ExecControl | src/cpu.rs:647-752 | the same three facts for the control-transfer, stack and interrupt-control instructions |
| Executor.ExecCb | src/cpu.rs:324-358 | a CB instruction never changes the interrupt registers or the halt flag |
| Executor.Execute | src/cpu.rs:58-322 | NOP changes nothing; STOP, DAA and the illegal opcodes are faults |
| Executor.ExecuteCb | src/cpu.rs:324-358 | every CB opcode outside the implemented ten is a fault |
| Executor.TrailingZeros | src/cpu.rs:437 | the result is the index of the lowest set bit |
| Executor.Interrupt | src/cpu.rs:430-446 | with no interrupt both enabled and requested nothing happens; otherwise the lowest such request is acknowledged, its flag alone is cleared, the master enable is cleared, and only V-Blank jumps to 0x40, pushing PC little-endian at SP-2 and SP-1 and lowering SP by 2 with every other register and byte kept |
| Executor.InterruptThenReti | src/cpu.rs:430-446 | with V-Blank enabled and requested, SP at least 2 and PC not the 0xF0C9 trap, the interrupt jumps to 0x40, and a RETI there succeeds and restores every register as it was before the interrupt |
| Executor.Step | src/cpu.rs:35-56 | IE never changes; with the master enable clear and no EI, IF is kept and the enable stays clear; if the enable is set after a step, no interrupt is pending |
| Executor.StepWithoutInterrupt | src/cpu.rs:35-56 | with the master enable clear and an opcode other than EI, a step is the fetch followed by the opcode's execution |
| Executor.LoadImmediateB | tests/cpu_test.rs:45-51 | 0x06 is LD B,n: B takes the byte at PC and PC moves past it |
| Executor.LoadBFromA | tests/cpu_test.rs:53-59 | 0x47 is LD B,A: B takes A's value and nothing else changes |
| Executor.AddAccumulatorToItself | tests/cpu_test.rs:61-75 | 0x87 doubles A with wrap, and sets Carry exactly on overflow |
| Executor.AddAccumulatorToItselfWithCarry | tests/cpu_test.rs:77-91 | 0x8F doubles A and adds the carry, with wrap, and sets Carry exactly on overflow |

## Findings

| source | as written | input that shows it | evidently intended | confidence | as-written member | corrected member |
|---|---|---|---|---|---|---|
| src/cpu.rs:554-560 | `add_op` sets Zero from the unwrapped 16-bit sum | ADD A,1 with A = 0xFF: A becomes 0 and Zero stays clear | Zero set when the 8-bit result is 0, as for every other ALU operation here | high; not executed | Alu.AddOpAsWritten (shown by Discrepancies.AddWrapLeavesZeroClear) | Alu.AddOp (related by Alu.AddZeroFlagDiscrepancy) |
| src/cpu.rs:592-598 | `sub_op` sets Zero from the 16-bit wrapped difference | SBC A,0xFF with A = 0 and Carry set: the result is 0 and Zero stays clear | Zero set when the 8-bit result is 0 | high; not executed | Alu.SubOpAsWritten (shown by Discrepancies.SbcWrapLeavesZeroClear) | Alu.SubOp (related by Alu.SubZeroFlagDiscrepancy) |
| src/cpu.rs:90 | opcode 0x1B is `dec(DE)`, the 8-bit DEC on the byte at address DE | 0x1B with DE = 0x1234: DE is unchanged and the byte at 0x1234 drops by one | `dec_16(DE)`, DEC DE, like 0x0B, 0x2B and 0x3B | high; not executed | Decoder.DecodeAsWritten (shown by Discrepancies.DecDeAsWritten) | Decoder.Decode (TableStructure.LowQuarter proves its INC rr and DEC rr columns uniform) |
| src/cpu.rs:114 | opcode 0x33 is `inc(SP)`, the 8-bit INC on the byte at address SP | 0x33 with SP = 0xC000: SP is unchanged and the byte at 0xC000 rises by one | `inc_16(SP)`, INC SP, like 0x03, 0x13 and 0x23 | high; not executed | Decoder.DecodeAsWritten (shown by Discrepancies.IncSpAsWritten) | Decoder.Decode (TableStructure.LowQuarter proves its INC rr and DEC rr columns uniform) |

## Left out

- Rendering: `Gpu::step`, the tile drawing, `set_pixel` and the frame buffer (src/gpu.rs:43-80) are not modelled. They compute pixels and do not affect the processor state.
- The cartridge and the host driver (window, timing loop) are not part of this model.
- The hard-coded LY values for booting Tetris (src/cpu.rs:42-47) are left out. They are a hack tied to two PC values of one game, not processor behaviour.
- Executor.Step: the step's return value, always 1, and the commented-out trace printing are not modelled.
- Executor.Step: runs the corrected table and ALU, so it departs from the program in four places: opcode 0x1B is DEC DE, opcode 0x33 is INC SP, ADD/ADC set Zero from the 8-bit result, and SBC sets Zero from the 8-bit difference. The as-written versions are DecodeAsWritten, AddOpAsWritten and SubOpAsWritten. SUB and CP are the program's own (Alu.SubWithoutCarryAgrees).
- Executor.Execute: dispatches through the corrected table and ALU, with the same four departures as Executor.Step.
- Alu.AluRegisters: ADD/ADC and SBC run the corrected AddOp and SubOp, so Zero follows the 8-bit result rather than the program's wide one. For SUB and CP the corrected SubOp equals the program's (Alu.SubWithoutCarryAgrees).
- TableStructure.Row1: states the corrected entry DEC DE at 0x1B; the program's DEC (DE) there is stated beside it.
- TableStructure.Row3: states the corrected entry INC SP at 0x33; the program's INC (SP) there is stated beside it.
- Machine.Reset: `Registers::reset` is not part of this model's source. The model sets SP to 0xFFFE, the value the processor has after power-up, and zeroes every other register before PC is set to 0x100.
- The `Debug` implementations of the registers, operand kinds and CPU only format text, so they are left out.
- Opcodes 0x22, 0x2A, 0x32, 0x3A, 0xEA and 0xFA use the operand kinds `HLI`, `HLD` and indirect-immediate, which src/addressing.rs does not define. They decode to `Unmodelled` and execute to a fault that names the opcode. This is a gap in the model, not a behaviour of the program.
- IE and IF live in a part of memory that src/memory.rs does not show. They are modelled as two bytes of the CPU state.
- The register helpers used by the CPU but not shown in src/registers.rs (the other pair accessors, `store_16`, `load_16`, `test_flag`, `carry()`, `reset()`) are defined by analogy.
- Instructions.Jr: the relative jump wraps modulo 2^16, as a release build does. The debug build's `i16` overflow check on `pc + offset` is not modelled.
- Instructions.JrCond: a taken jump wraps the same way as Instructions.Jr; the debug build's `i16` overflow check is not modelled.
- Instructions.Reti: RETI clears the master enable, as the code does. The processor documentation says RETI re-enables interrupts.
- The cycle counter is advanced as the memory helpers advance it. No timing model beyond that counter is kept.
- Instructions.Rlca, Instructions.Rrca, Instructions.Rla, Instructions.Rra, Instructions.Cpl, Instructions.Scf and Instructions.Ccf only apply the matching `Alu` function to the registers. Their contracts are those of `Alu.RlcaOp` … `Alu.CcfOp`.
- The INC A and DEC A tests (tests/cpu_test.rs:17-43) are stated at the ALU level by `Alu.CountingSetsOnlyZero` and at the instruction level by `Instructions.Inc`/`Instructions.Dec`. They are not stated through the full step.
