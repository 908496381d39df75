/**
  Concrete inputs on which the program's code departs from the processor it
  emulates.  Each lemma runs the as-written member and its corrected
  counterpart on the same input and shows where they part.
 */
module Discrepancies {
  import opened Bits
  import opened RegisterFile
  import MainMemory
  import opened Machine
  import opened Addressing
  import opened Alu
  import opened Decoder
  import I = Instructions

  /** ADD A,1 with A = 0xFF: A wraps to 0, yet the program leaves Zero clear. */
  lemma AddWrapLeavesZeroClear(regs: Registers)
    requires regs.a == 0xFF
    ensures AddOpAsWritten(regs, 1, false).a == 0
    ensures !ZeroFlag(AddOpAsWritten(regs, 1, false))
    ensures AddOp(regs, 1, false).a == 0 && ZeroFlag(AddOp(regs, 1, false))
  {
  }

  /** SBC A,0xFF with A = 0 and Carry set: A wraps to 0, yet the program leaves Zero clear. */
  lemma SbcWrapLeavesZeroClear(regs: Registers)
    requires regs.a == 0 && CarryFlag(regs)
    ensures SubOpAsWritten(regs, 0xFF, true).1 == 0
    ensures !ZeroFlag(SubOpAsWritten(regs, 0xFF, true).0)
    ensures SubOp(regs, 0xFF, true).1 == 0 && ZeroFlag(SubOp(regs, 0xFF, true).0)
  {
  }

  /**
    Opcode 0x1B as written decrements the byte at address DE and leaves DE
    alone; DEC DE decrements the pair.
   */
  lemma DecDeAsWritten(cpu: Cpu)
    requires Load16(cpu.registers, DE) < MainMemory.RAM_SIZE
    ensures DecodeAsWritten(0x1B) == Dec(Reg16(DE))
    ensures var de := Load16(cpu.registers, DE);
      && I.Dec(cpu, Reg16(DE)).Ok?
      && Load16(I.Dec(cpu, Reg16(DE)).value.registers, DE) == de
      && Byte(I.Dec(cpu, Reg16(DE)).value, de) == (Byte(cpu, de) - 1) % 0x100
    ensures Decode(0x1B) == Dec16(DE)
    ensures Load16(I.Dec16(cpu, DE).registers, DE) == (Load16(cpu.registers, DE) - 1) % 0x1_0000
  {
    var asWritten := DecodeAsWritten(0x1B);
    assert UsesPair(Reg16(DE)) && PairOf(Reg16(DE)) == DE;
  }

  /**
    Opcode 0x33 as written increments the byte at address SP and leaves SP
    alone; INC SP increments the stack pointer.
   */
  lemma IncSpAsWritten(cpu: Cpu)
    requires cpu.registers.sp < MainMemory.RAM_SIZE
    ensures DecodeAsWritten(0x33) == Inc(Reg16(SP))
    ensures var sp := cpu.registers.sp;
      && I.Inc(cpu, Reg16(SP)).Ok?
      && I.Inc(cpu, Reg16(SP)).value.registers.sp == sp
      && Byte(I.Inc(cpu, Reg16(SP)).value, sp) == (Byte(cpu, sp) + 1) % 0x100
    ensures Decode(0x33) == Inc16(SP)
    ensures I.Inc16(cpu, SP).registers.sp == (cpu.registers.sp + 1) % 0x1_0000
  {
    var asWritten := DecodeAsWritten(0x33);
    assert UsesPair(Reg16(SP)) && PairOf(Reg16(SP)) == SP;
    assert Load16(cpu.registers, SP) == cpu.registers.sp;
    var inc := I.Inc(cpu, Reg16(SP));
    assert inc.Ok? && inc.value.registers == cpu.registers.(f := inc.value.registers.f);
    var inc16 := I.Inc16(cpu, SP);
    assert Load16(inc16.registers, SP) == inc16.registers.sp;
  }
}
