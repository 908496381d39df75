/**
  The two opcode tables: the 256-entry main table and the CB-prefixed table,
  each mapping an opcode byte to the instruction it selects, written out entry
  by entry as the program has them.  Module TableStructure shows the regular
  structure that hides in the main table.
 */
module Decoder {
  import opened Bits
  import opened RegisterFile
  import opened Addressing
  import opened Alu

  /** A jump condition: the flag tested and whether it must be set or clear. */
  datatype Condition = Condition(mask: u8, whenSet: bool)

  datatype Instr =
    | Nop
    | LdWordImmediate(pair: Register16)
    | Ld(dst: Storage, src: Storage)
    | Inc(target: Storage)
    | Dec(target: Storage)
    | Inc16(pair: Register16)
    | Dec16(pair: Register16)
    | Rlca | Rrca | Rla | Rra
    | LdIndirectSp
    | AddHl(pair: Register16)
    | StopInstr
    | Daa
    | Jr
    | JrCond(cond: Condition)
    | Cpl | Scf | Ccf
    | Halt
    | AluInstr(op: AluOp, operand: Storage)
    | Ret
    | RetCond(cond: Condition)
    | Reti
    | Pop(pair: Register16)
    | Push(pair: Register16)
    | Jp
    | JpCond(cond: Condition)
    | JpHl
    | Call
    | CallCond(cond: Condition)
    | Rst(vector: u16)
    | Prefix
    | AddSp
    | LdHlSp
    | LdSpHl
    | Di
    | Ei
    | Illegal(opcode: u8)
    | Unmodelled(opcode: u8)

  /** A bit position within a byte. */
  type BitIndex = x: nat | x < 8

  datatype CbInstr =
    | Swap(operand: Storage)
    | BitTest(bit: BitIndex, operand: Storage)
    | Res(bit: BitIndex, operand: Storage)
    | Set(bit: BitIndex, operand: Storage)
    | CbUnimplemented(opcode: u8)

  const NZ := Condition(ZERO_FLAG, false)
  const Z := Condition(ZERO_FLAG, true)
  const NC := Condition(CARRY_FLAG, false)
  const CY := Condition(CARRY_FLAG, true)

  const mHL := Reg16(HL)
  const rA := Reg8(A)
  const rB := Reg8(B)
  const rC := Reg8(C)
  const rD := Reg8(D)
  const rE := Reg8(E)
  const rH := Reg8(H)
  const rL := Reg8(L)

  /**
    The main opcode table, laid out as sixteen rows of sixteen: the high
    nibble of the opcode selects the row and the low nibble the entry.  Two
    entries are the processor's rather than the program's: 0x1B is DEC DE and
    0x33 is INC SP, like the rest of their columns (see DecodeAsWritten).
    An illegal or unmodelled entry carries the opcode that selected it, so
    the fault it raises can report the byte.
   */
  function Decode(op: u8): (instr: Instr)
    ensures instr.Illegal? ==> instr.opcode == op
    ensures instr.Unmodelled? ==> instr.opcode == op
  {
    var low := op % 16;
    match op / 16
    case 0x0 => ( // opcodes 0x00-0x0F
      match low
      case 0x0 => Nop
      case 0x1 => LdWordImmediate(BC)
      case 0x2 => Ld(Reg16(BC), rA)
      case 0x3 => Inc16(BC)
      case 0x4 => Inc(rB)
      case 0x5 => Dec(rB)
      case 0x6 => Ld(rB, Immediate)
      case 0x7 => Rlca
      case 0x8 => LdIndirectSp
      case 0x9 => AddHl(BC)
      case 0xA => Ld(rA, Reg16(BC))
      case 0xB => Dec16(BC)
      case 0xC => Inc(rC)
      case 0xD => Dec(rC)
      case 0xE => Ld(rC, Immediate)
      case 0xF => Rrca)
    case 0x1 => ( // opcodes 0x10-0x1F
      match low
      case 0x0 => StopInstr
      case 0x1 => LdWordImmediate(DE)
      case 0x2 => Ld(Reg16(DE), rA)
      case 0x3 => Inc16(DE)
      case 0x4 => Inc(rD)
      case 0x5 => Dec(rD)
      case 0x6 => Ld(rD, Immediate)
      case 0x7 => Rla
      case 0x8 => Jr
      case 0x9 => AddHl(DE)
      case 0xA => Ld(rA, Reg16(DE))
      case 0xB => Dec16(DE)
      case 0xC => Inc(rE)
      case 0xD => Dec(rE)
      case 0xE => Ld(rE, Immediate)
      case 0xF => Rra)
    case 0x2 => ( // opcodes 0x20-0x2F
      match low
      case 0x0 => JrCond(NZ)
      case 0x1 => LdWordImmediate(HL)
      case 0x2 => Unmodelled(0x22)
      case 0x3 => Inc16(HL)
      case 0x4 => Inc(rH)
      case 0x5 => Dec(rH)
      case 0x6 => Ld(rH, Immediate)
      case 0x7 => Daa
      case 0x8 => JrCond(Z)
      case 0x9 => AddHl(HL)
      case 0xA => Unmodelled(0x2A)
      case 0xB => Dec16(HL)
      case 0xC => Inc(rL)
      case 0xD => Dec(rL)
      case 0xE => Ld(rL, Immediate)
      case 0xF => Cpl)
    case 0x3 => ( // opcodes 0x30-0x3F
      match low
      case 0x0 => JrCond(NC)
      case 0x1 => LdWordImmediate(SP)
      case 0x2 => Unmodelled(0x32)
      case 0x3 => Inc16(SP)
      case 0x4 => Inc(mHL)
      case 0x5 => Dec(mHL)
      case 0x6 => Ld(mHL, Immediate)
      case 0x7 => Scf
      case 0x8 => JrCond(CY)
      case 0x9 => AddHl(SP)
      case 0xA => Unmodelled(0x3A)
      case 0xB => Dec16(SP)
      case 0xC => Inc(rA)
      case 0xD => Dec(rA)
      case 0xE => Ld(rA, Immediate)
      case 0xF => Ccf)
    case 0x4 => ( // opcodes 0x40-0x4F
      match low
      case 0x0 => Ld(rB, rB)
      case 0x1 => Ld(rB, rC)
      case 0x2 => Ld(rB, rD)
      case 0x3 => Ld(rB, rE)
      case 0x4 => Ld(rB, rH)
      case 0x5 => Ld(rB, rL)
      case 0x6 => Ld(rB, mHL)
      case 0x7 => Ld(rB, rA)
      case 0x8 => Ld(rC, rB)
      case 0x9 => Ld(rC, rC)
      case 0xA => Ld(rC, rD)
      case 0xB => Ld(rC, rE)
      case 0xC => Ld(rC, rH)
      case 0xD => Ld(rC, rL)
      case 0xE => Ld(rC, mHL)
      case 0xF => Ld(rC, rA))
    case 0x5 => ( // opcodes 0x50-0x5F
      match low
      case 0x0 => Ld(rD, rB)
      case 0x1 => Ld(rD, rC)
      case 0x2 => Ld(rD, rD)
      case 0x3 => Ld(rD, rE)
      case 0x4 => Ld(rD, rH)
      case 0x5 => Ld(rD, rL)
      case 0x6 => Ld(rD, mHL)
      case 0x7 => Ld(rD, rA)
      case 0x8 => Ld(rE, rB)
      case 0x9 => Ld(rE, rC)
      case 0xA => Ld(rE, rD)
      case 0xB => Ld(rE, rE)
      case 0xC => Ld(rE, rH)
      case 0xD => Ld(rE, rL)
      case 0xE => Ld(rE, mHL)
      case 0xF => Ld(rE, rA))
    case 0x6 => ( // opcodes 0x60-0x6F
      match low
      case 0x0 => Ld(rH, rB)
      case 0x1 => Ld(rH, rC)
      case 0x2 => Ld(rH, rD)
      case 0x3 => Ld(rH, rE)
      case 0x4 => Ld(rH, rH)
      case 0x5 => Ld(rH, rL)
      case 0x6 => Ld(rH, mHL)
      case 0x7 => Ld(rH, rA)
      case 0x8 => Ld(rL, rB)
      case 0x9 => Ld(rL, rC)
      case 0xA => Ld(rL, rD)
      case 0xB => Ld(rL, rE)
      case 0xC => Ld(rL, rH)
      case 0xD => Ld(rL, rL)
      case 0xE => Ld(rL, mHL)
      case 0xF => Ld(rL, rA))
    case 0x7 => ( // opcodes 0x70-0x7F
      match low
      case 0x0 => Ld(mHL, rB)
      case 0x1 => Ld(mHL, rC)
      case 0x2 => Ld(mHL, rD)
      case 0x3 => Ld(mHL, rE)
      case 0x4 => Ld(mHL, rH)
      case 0x5 => Ld(mHL, rL)
      case 0x6 => Halt
      case 0x7 => Ld(mHL, rA)
      case 0x8 => Ld(rA, rB)
      case 0x9 => Ld(rA, rC)
      case 0xA => Ld(rA, rD)
      case 0xB => Ld(rA, rE)
      case 0xC => Ld(rA, rH)
      case 0xD => Ld(rA, rL)
      case 0xE => Ld(rA, mHL)
      case 0xF => Ld(rA, rA))
    case 0x8 => ( // opcodes 0x80-0x8F
      match low
      case 0x0 => AluInstr(AluAdd, rB)
      case 0x1 => AluInstr(AluAdd, rC)
      case 0x2 => AluInstr(AluAdd, rD)
      case 0x3 => AluInstr(AluAdd, rE)
      case 0x4 => AluInstr(AluAdd, rH)
      case 0x5 => AluInstr(AluAdd, rL)
      case 0x6 => AluInstr(AluAdd, mHL)
      case 0x7 => AluInstr(AluAdd, rA)
      case 0x8 => AluInstr(AluAdc, rB)
      case 0x9 => AluInstr(AluAdc, rC)
      case 0xA => AluInstr(AluAdc, rD)
      case 0xB => AluInstr(AluAdc, rE)
      case 0xC => AluInstr(AluAdc, rH)
      case 0xD => AluInstr(AluAdc, rL)
      case 0xE => AluInstr(AluAdc, mHL)
      case 0xF => AluInstr(AluAdc, rA))
    case 0x9 => ( // opcodes 0x90-0x9F
      match low
      case 0x0 => AluInstr(AluSub, rB)
      case 0x1 => AluInstr(AluSub, rC)
      case 0x2 => AluInstr(AluSub, rD)
      case 0x3 => AluInstr(AluSub, rE)
      case 0x4 => AluInstr(AluSub, rH)
      case 0x5 => AluInstr(AluSub, rL)
      case 0x6 => AluInstr(AluSub, mHL)
      case 0x7 => AluInstr(AluSub, rA)
      case 0x8 => AluInstr(AluSbc, rB)
      case 0x9 => AluInstr(AluSbc, rC)
      case 0xA => AluInstr(AluSbc, rD)
      case 0xB => AluInstr(AluSbc, rE)
      case 0xC => AluInstr(AluSbc, rH)
      case 0xD => AluInstr(AluSbc, rL)
      case 0xE => AluInstr(AluSbc, mHL)
      case 0xF => AluInstr(AluSbc, rA))
    case 0xA => ( // opcodes 0xA0-0xAF
      match low
      case 0x0 => AluInstr(AluAnd, rB)
      case 0x1 => AluInstr(AluAnd, rC)
      case 0x2 => AluInstr(AluAnd, rD)
      case 0x3 => AluInstr(AluAnd, rE)
      case 0x4 => AluInstr(AluAnd, rH)
      case 0x5 => AluInstr(AluAnd, rL)
      case 0x6 => AluInstr(AluAnd, mHL)
      case 0x7 => AluInstr(AluAnd, rA)
      case 0x8 => AluInstr(AluXor, rB)
      case 0x9 => AluInstr(AluXor, rC)
      case 0xA => AluInstr(AluXor, rD)
      case 0xB => AluInstr(AluXor, rE)
      case 0xC => AluInstr(AluXor, rH)
      case 0xD => AluInstr(AluXor, rL)
      case 0xE => AluInstr(AluXor, mHL)
      case 0xF => AluInstr(AluXor, rA))
    case 0xB => ( // opcodes 0xB0-0xBF
      match low
      case 0x0 => AluInstr(AluOr, rB)
      case 0x1 => AluInstr(AluOr, rC)
      case 0x2 => AluInstr(AluOr, rD)
      case 0x3 => AluInstr(AluOr, rE)
      case 0x4 => AluInstr(AluOr, rH)
      case 0x5 => AluInstr(AluOr, rL)
      case 0x6 => AluInstr(AluOr, mHL)
      case 0x7 => AluInstr(AluOr, rA)
      case 0x8 => AluInstr(AluCp, rB)
      case 0x9 => AluInstr(AluCp, rC)
      case 0xA => AluInstr(AluCp, rD)
      case 0xB => AluInstr(AluCp, rE)
      case 0xC => AluInstr(AluCp, rH)
      case 0xD => AluInstr(AluCp, rL)
      case 0xE => AluInstr(AluCp, mHL)
      case 0xF => AluInstr(AluCp, rA))
    case 0xC => ( // opcodes 0xC0-0xCF
      match low
      case 0x0 => RetCond(NZ)
      case 0x1 => Pop(BC)
      case 0x2 => JpCond(NZ)
      case 0x3 => Jp
      case 0x4 => CallCond(NZ)
      case 0x5 => Push(BC)
      case 0x6 => AluInstr(AluAdd, Immediate)
      case 0x7 => Rst(0x00)
      case 0x8 => RetCond(Z)
      case 0x9 => Ret
      case 0xA => JpCond(Z)
      case 0xB => Prefix
      case 0xC => CallCond(Z)
      case 0xD => Call
      case 0xE => AluInstr(AluAdc, Immediate)
      case 0xF => Rst(0x08))
    case 0xD => ( // opcodes 0xD0-0xDF
      match low
      case 0x0 => RetCond(NC)
      case 0x1 => Pop(DE)
      case 0x2 => JpCond(NC)
      case 0x3 => Illegal(0xD3)
      case 0x4 => CallCond(NC)
      case 0x5 => Push(DE)
      case 0x6 => AluInstr(AluSub, Immediate)
      case 0x7 => Rst(0x10)
      case 0x8 => RetCond(CY)
      case 0x9 => Reti
      case 0xA => JpCond(CY)
      case 0xB => Illegal(0xDB)
      case 0xC => CallCond(CY)
      case 0xD => Illegal(0xDD)
      case 0xE => AluInstr(AluSbc, Immediate)
      case 0xF => Rst(0x18))
    case 0xE => ( // opcodes 0xE0-0xEF
      match low
      case 0x0 => Ld(Indirect(ZeroPage), rA)
      case 0x1 => Pop(HL)
      case 0x2 => Ld(Indirect(ZeroPageRegC), rA)
      case 0x3 => Illegal(0xE3)
      case 0x4 => Illegal(0xE4)
      case 0x5 => Push(HL)
      case 0x6 => AluInstr(AluAnd, Immediate)
      case 0x7 => Rst(0x20)
      case 0x8 => AddSp
      case 0x9 => JpHl
      case 0xA => Unmodelled(0xEA)
      case 0xB => Illegal(0xEB)
      case 0xC => Illegal(0xEC)
      case 0xD => Illegal(0xED)
      case 0xE => AluInstr(AluXor, Immediate)
      case 0xF => Rst(0x28))
    case 0xF => ( // opcodes 0xF0-0xFF
      match low
      case 0x0 => Ld(rA, Indirect(ZeroPage))
      case 0x1 => Pop(AF)
      case 0x2 => Ld(rA, Indirect(ZeroPageRegC))
      case 0x3 => Di
      case 0x4 => Illegal(0xF4)
      case 0x5 => Push(AF)
      case 0x6 => AluInstr(AluOr, Immediate)
      case 0x7 => Rst(0x30)
      case 0x8 => LdHlSp
      case 0x9 => LdSpHl
      case 0xA => Unmodelled(0xFA)
      case 0xB => Ei
      case 0xC => Illegal(0xFC)
      case 0xD => Illegal(0xFD)
      case 0xE => AluInstr(AluCp, Immediate)
      case 0xF => Rst(0x38))
  }

  /**
    The main table as the program writes it.  Entries 0x1B and 0x33 select
    the 8-bit INC and DEC on the Register16 operand, which reads and writes
    the byte in memory that DE or SP points to, where every other entry of
    their columns selects the 16-bit form on the pair itself.
   */
  function DecodeAsWritten(op: u8): (instr: Instr)
    ensures op !in {0x1B, 0x33} ==> instr == Decode(op)
    ensures op == 0x1B ==> instr == Dec(Reg16(DE)) && Decode(op) == Dec16(DE)
    ensures op == 0x33 ==> instr == Inc(Reg16(SP)) && Decode(op) == Inc16(SP)
  {
    if op == 0x1B then Dec(Reg16(DE))
    else if op == 0x33 then Inc(Reg16(SP))
    else Decode(op)
  }

  /**
    The CB-prefixed table: only a handful of entries are implemented, and
    every other one carries its opcode to the fault it raises.
   */
  function DecodeCb(op: u8): (instr: CbInstr)
    ensures instr.CbUnimplemented? ==> instr.opcode == op
    ensures op in CB_IMPLEMENTED ==> !instr.CbUnimplemented?
  {
    match op
    case 0x30 => Swap(rB)
    case 0x31 => Swap(rC)
    case 0x32 => Swap(rD)
    case 0x33 => Swap(rE)
    case 0x34 => Swap(rH)
    case 0x35 => Swap(rL)
    case 0x37 => Swap(rA)
    case 0x47 => BitTest(0, rA)
    case 0x87 => Res(0, rA)
    case 0xC7 => Set(0, rA)
    case _ => CbUnimplemented(op)
  }

  // ---- The structure of the tables -----------------------------------------

  /** The operand a three-bit field selects: B, C, D, E, H, L, (HL), A. */
  function Operand(field: nat): Storage
    requires field < 8
  {
    match field
    case 0 => rB case 1 => rC case 2 => rD case 3 => rE
    case 4 => rH case 5 => rL case 6 => mHL case 7 => rA
  }

  /** The ALU operation a three-bit field selects. */
  function AluOpAt(field: nat): AluOp
    requires field < 8
  {
    match field
    case 0 => AluAdd case 1 => AluAdc case 2 => AluSub case 3 => AluSbc
    case 4 => AluAnd case 5 => AluXor case 6 => AluOr case 7 => AluCp
  }

  /** The condition a two-bit field selects: NZ, Z, NC, C. */
  function ConditionAt(field: nat): Condition
    requires field < 4
  {
    match field
    case 0 => NZ case 1 => Z case 2 => NC case 3 => CY
  }

  /** The pair a two-bit field selects for 16-bit loads and arithmetic. */
  function PairAt(field: nat): Register16
    requires field < 4
  {
    match field
    case 0 => BC case 1 => DE case 2 => HL case 3 => SP
  }

  /** The pair a two-bit field selects for PUSH and POP, where AF replaces SP. */
  function StackPairAt(field: nat): Register16
    requires field < 4
  {
    match field
    case 0 => BC case 1 => DE case 2 => HL case 3 => AF
  }

  /** The opcodes the processor does not define. */
  const ILLEGAL_OPCODES: set<u8> :=
    {0xD3, 0xDB, 0xDD, 0xE3, 0xE4, 0xEB, 0xEC, 0xED, 0xF4, 0xFC, 0xFD}

  /** The opcodes whose addressing variants are not part of this model. */
  const UNMODELLED_OPCODES: set<u8> := {0x22, 0x2A, 0x32, 0x3A, 0xEA, 0xFA}

  /** The CB-prefixed opcodes the table implements. */
  const CB_IMPLEMENTED: set<u8> := {0x30, 0x31, 0x32, 0x33, 0x34, 0x35, 0x37, 0x47, 0x87, 0xC7}
}
