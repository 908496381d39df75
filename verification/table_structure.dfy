/**
  The regular structure of the main opcode table.  The table is written out
  entry by entry, as the program has it (two entries corrected); the lemmas here recover its blocks
  and columns from the bit fields of the opcode, which is how the processor's
  documentation presents the same encoding.  Each is proved one row of
  sixteen opcodes at a time.
 */
module TableStructure {
  import opened Bits
  import opened RegisterFile
  import opened Addressing
  import opened Alu
  import opened Decoder

  /** 0x40-0x7F, HALT aside, is LD dst,src with dst in bits 5-3 and src in bits 2-0. */
  lemma LoadBlock(op: u8)
    requires 0x40 <= op < 0x80 && op != 0x76
    ensures Decode(op) == Ld(Operand((op - 0x40) / 8), Operand(op % 8))
  {
    if op < 0x50 {
      Row4(op);
    } else if op < 0x60 {
      Row5(op);
    } else if op < 0x70 {
      Row6(op);
    } else {
      Row7(op);
    }
  }

  /** 0x80-0xBF is the ALU operation in bits 5-3 applied to the operand in bits 2-0. */
  lemma AluBlock(op: u8)
    requires 0x80 <= op < 0xC0
    ensures Decode(op) == AluInstr(AluOpAt((op - 0x80) / 8), Operand(op % 8))
  {
    if op < 0x90 {
      Row8(op);
    } else if op < 0xA0 {
      Row9(op);
    } else if op < 0xB0 {
      RowA(op);
    } else {
      RowB(op);
    }
  }

  /**
    In 0x00-0x3F, columns 4, 5 and 6 are INC, DEC and LD-immediate on the
    operand in bits 5-3, and the 16-bit columns select their pair in bits 5-4.
    The columns of INC rr and DEC rr are regular only in the corrected table:
    the program's 0x1B and 0x33 break them (see Decoder.DecodeAsWritten).
   */
  lemma LowQuarter(op: u8)
    requires op < 0x40
    ensures op % 8 == 4 ==> Decode(op) == Inc(Operand(op / 8))
    ensures op % 8 == 5 ==> Decode(op) == Dec(Operand(op / 8))
    ensures op % 8 == 6 ==> Decode(op) == Ld(Operand(op / 8), Immediate)
    ensures op % 16 == 1 ==> Decode(op) == LdWordImmediate(PairAt(op / 16))
    ensures op % 16 == 9 ==> Decode(op) == AddHl(PairAt(op / 16))
    ensures op % 16 == 3 ==> Decode(op) == Inc16(PairAt(op / 16))
    ensures op % 16 == 0xB ==> Decode(op) == Dec16(PairAt(op / 16))
  {
    if op < 0x10 {
      Row0(op);
    } else if op < 0x20 {
      Row1(op);
    } else if op < 0x30 {
      Row2(op);
    } else {
      Row3(op);
    }
  }

  /**
    In 0xC0-0xFF, column 6 applies the ALU operation in bits 5-3 to the
    immediate byte, column 7 is RST to the vector in bits 5-3 times eight, and
    POP and PUSH select their pair in bits 5-4.
   */
  lemma HighQuarter(op: u8)
    requires 0xC0 <= op
    ensures op % 8 == 6 ==> Decode(op) == AluInstr(AluOpAt((op - 0xC0) / 8), Immediate)
    ensures op % 8 == 7 ==> Decode(op) == Rst(op - 0xC7)
    ensures op % 16 == 1 ==> Decode(op) == Pop(StackPairAt((op - 0xC0) / 16))
    ensures op % 16 == 5 ==> Decode(op) == Push(StackPairAt((op - 0xC0) / 16))
  {
    if op < 0xD0 {
      RowC(op);
    } else if op < 0xE0 {
      RowD(op);
    } else if op < 0xF0 {
      RowE(op);
    } else {
      RowF(op);
    }
  }

  /** The conditional transfers take their condition from bits 4-3. */
  lemma ConditionCodes(op: u8)
    ensures 0x20 <= op < 0x40 && op % 8 == 0 ==> Decode(op) == JrCond(ConditionAt((op - 0x20) / 8))
    ensures 0xC0 <= op < 0xE0 && op % 8 == 0 ==> Decode(op) == RetCond(ConditionAt((op - 0xC0) / 8))
    ensures 0xC0 <= op < 0xE0 && op % 8 == 2 ==> Decode(op) == JpCond(ConditionAt((op - 0xC0) / 8))
    ensures 0xC0 <= op < 0xE0 && op % 8 == 4 ==> Decode(op) == CallCond(ConditionAt((op - 0xC0) / 8))
  {
    if 0x20 <= op < 0x30 {
      Row2(op);
    } else if 0x30 <= op < 0x40 {
      Row3(op);
    } else if 0xC0 <= op < 0xD0 {
      RowC(op);
    } else if 0xD0 <= op < 0xE0 {
      RowD(op);
    }
  }

  /**
    Exactly the eleven undefined opcodes decode as illegal, exactly the six
    opcodes with unmodelled addressing decode as such, and each carries its
    own byte.
   */
  lemma SpecialOpcodes(op: u8)
    ensures Decode(op).Illegal? <==> op in ILLEGAL_OPCODES
    ensures Decode(op).Illegal? ==> Decode(op).opcode == op
    ensures Decode(op).Unmodelled? <==> op in UNMODELLED_OPCODES
    ensures Decode(op).Unmodelled? ==> Decode(op).opcode == op
  {
    if op < 0x10 {
      Row0(op);
    } else if op < 0x20 {
      Row1(op);
    } else if op < 0x30 {
      Row2(op);
    } else if op < 0x40 {
      Row3(op);
    } else if op < 0x50 {
      Row4(op);
    } else if op < 0x60 {
      Row5(op);
    } else if op < 0x70 {
      Row6(op);
    } else if op < 0x80 {
      Row7(op);
    } else if op < 0x90 {
      Row8(op);
    } else if op < 0xA0 {
      Row9(op);
    } else if op < 0xB0 {
      RowA(op);
    } else if op < 0xC0 {
      RowB(op);
    } else if op < 0xD0 {
      RowC(op);
    } else if op < 0xE0 {
      RowD(op);
    } else if op < 0xF0 {
      RowE(op);
    } else {
      RowF(op);
    }
  }

  /**
    Exactly one opcode each enables interrupts (EI), disables them (DI),
    returns from an interrupt handler (RETI) and halts.
   */
  lemma ControlOpcodes(op: u8)
    ensures Decode(op) == Ei <==> op == 0xFB
    ensures Decode(op) == Di <==> op == 0xF3
    ensures Decode(op) == Reti <==> op == 0xD9
    ensures Decode(op) == Halt <==> op == 0x76
  {
    if op < 0x10 {
      Row0(op);
    } else if op < 0x20 {
      Row1(op);
    } else if op < 0x30 {
      Row2(op);
    } else if op < 0x40 {
      Row3(op);
    } else if op < 0x50 {
      Row4(op);
    } else if op < 0x60 {
      Row5(op);
    } else if op < 0x70 {
      Row6(op);
    } else if op < 0x80 {
      Row7(op);
    } else if op < 0x90 {
      Row8(op);
    } else if op < 0xA0 {
      Row9(op);
    } else if op < 0xB0 {
      RowA(op);
    } else if op < 0xC0 {
      RowB(op);
    } else if op < 0xD0 {
      RowC(op);
    } else if op < 0xE0 {
      RowD(op);
    } else if op < 0xF0 {
      RowE(op);
    } else {
      RowF(op);
    }
  }

  /** Exactly ten CB-prefixed opcodes are implemented; every other one carries its byte. */
  lemma CbImplemented(op: u8)
    ensures !DecodeCb(op).CbUnimplemented? <==> op in CB_IMPLEMENTED
    ensures DecodeCb(op).CbUnimplemented? ==> DecodeCb(op).opcode == op
    ensures 0x30 <= op <= 0x37 && op != 0x36 ==> DecodeCb(op) == Swap(Operand(op % 8))
  {
  }

  // ---- One row of the table at a time -------------------------------------

  /**
    The table-wide facts each row lemma establishes for its sixteen opcodes:
    which opcodes are illegal or unmodelled, and where EI, DI, RETI and HALT
    sit.
   */
  predicate SpecialEntries(op: u8)
  {
    && (Decode(op).Illegal? <==> op in ILLEGAL_OPCODES)
    && (Decode(op).Unmodelled? <==> op in UNMODELLED_OPCODES)
    && (Decode(op) == Ei <==> op == 0xFB)
    && (Decode(op) == Di <==> op == 0xF3)
    && (Decode(op) == Reti <==> op == 0xD9)
    && (Decode(op) == Halt <==> op == 0x76)
  }

  lemma Row0(op: u8)
    requires 0x00 <= op < 0x10
    ensures op % 8 == 4 ==> Decode(op) == Inc(Operand(op / 8))
    ensures op % 8 == 5 ==> Decode(op) == Dec(Operand(op / 8))
    ensures op % 8 == 6 ==> Decode(op) == Ld(Operand(op / 8), Immediate)
    ensures op % 16 == 1 ==> Decode(op) == LdWordImmediate(PairAt(op / 16))
    ensures op % 16 == 9 ==> Decode(op) == AddHl(PairAt(op / 16))
    ensures op % 16 == 3 ==> Decode(op) == Inc16(PairAt(op / 16))
    ensures op % 16 == 0xB ==> Decode(op) == Dec16(PairAt(op / 16))
    ensures SpecialEntries(op)
  {
  }

  lemma Row1(op: u8)
    requires 0x10 <= op < 0x20
    // the program's own entries, which differ from the corrected ones at one opcode
    ensures DecodeAsWritten(op) == if op == 0x1B then Dec(Reg16(DE)) else Decode(op)
    ensures op % 8 == 4 ==> Decode(op) == Inc(Operand(op / 8))
    ensures op % 8 == 5 ==> Decode(op) == Dec(Operand(op / 8))
    ensures op % 8 == 6 ==> Decode(op) == Ld(Operand(op / 8), Immediate)
    ensures op % 16 == 1 ==> Decode(op) == LdWordImmediate(PairAt(op / 16))
    ensures op % 16 == 9 ==> Decode(op) == AddHl(PairAt(op / 16))
    ensures op % 16 == 3 ==> Decode(op) == Inc16(PairAt(op / 16))
    ensures op % 16 == 0xB ==> Decode(op) == Dec16(PairAt(op / 16))
    ensures SpecialEntries(op)
  {
  }

  lemma Row2(op: u8)
    requires 0x20 <= op < 0x30
    ensures op % 8 == 4 ==> Decode(op) == Inc(Operand(op / 8))
    ensures op % 8 == 5 ==> Decode(op) == Dec(Operand(op / 8))
    ensures op % 8 == 6 ==> Decode(op) == Ld(Operand(op / 8), Immediate)
    ensures op % 16 == 1 ==> Decode(op) == LdWordImmediate(PairAt(op / 16))
    ensures op % 16 == 9 ==> Decode(op) == AddHl(PairAt(op / 16))
    ensures op % 16 == 3 ==> Decode(op) == Inc16(PairAt(op / 16))
    ensures op % 16 == 0xB ==> Decode(op) == Dec16(PairAt(op / 16))
    ensures op % 8 == 0 ==> Decode(op) == JrCond(ConditionAt((op - 0x20) / 8))
    ensures SpecialEntries(op)
  {
  }

  lemma Row3(op: u8)
    requires 0x30 <= op < 0x40
    // the program's own entries, which differ from the corrected ones at one opcode
    ensures DecodeAsWritten(op) == if op == 0x33 then Inc(Reg16(SP)) else Decode(op)
    ensures op % 8 == 4 ==> Decode(op) == Inc(Operand(op / 8))
    ensures op % 8 == 5 ==> Decode(op) == Dec(Operand(op / 8))
    ensures op % 8 == 6 ==> Decode(op) == Ld(Operand(op / 8), Immediate)
    ensures op % 16 == 1 ==> Decode(op) == LdWordImmediate(PairAt(op / 16))
    ensures op % 16 == 9 ==> Decode(op) == AddHl(PairAt(op / 16))
    ensures op % 16 == 3 ==> Decode(op) == Inc16(PairAt(op / 16))
    ensures op % 16 == 0xB ==> Decode(op) == Dec16(PairAt(op / 16))
    ensures op % 8 == 0 ==> Decode(op) == JrCond(ConditionAt((op - 0x20) / 8))
    ensures SpecialEntries(op)
  {
  }

  lemma Row4(op: u8)
    requires 0x40 <= op < 0x50
    ensures op != 0x76 ==> Decode(op) == Ld(Operand((op - 0x40) / 8), Operand(op % 8))
    ensures SpecialEntries(op)
  {
  }

  lemma Row5(op: u8)
    requires 0x50 <= op < 0x60
    ensures op != 0x76 ==> Decode(op) == Ld(Operand((op - 0x40) / 8), Operand(op % 8))
    ensures SpecialEntries(op)
  {
  }

  lemma Row6(op: u8)
    requires 0x60 <= op < 0x70
    ensures op != 0x76 ==> Decode(op) == Ld(Operand((op - 0x40) / 8), Operand(op % 8))
    ensures SpecialEntries(op)
  {
  }

  lemma Row7(op: u8)
    requires 0x70 <= op < 0x80
    ensures op != 0x76 ==> Decode(op) == Ld(Operand((op - 0x40) / 8), Operand(op % 8))
    ensures SpecialEntries(op)
  {
  }

  lemma Row8(op: u8)
    requires 0x80 <= op < 0x90
    ensures Decode(op) == AluInstr(AluOpAt((op - 0x80) / 8), Operand(op % 8))
    ensures SpecialEntries(op)
  {
  }

  lemma Row9(op: u8)
    requires 0x90 <= op < 0xA0
    ensures Decode(op) == AluInstr(AluOpAt((op - 0x80) / 8), Operand(op % 8))
    ensures SpecialEntries(op)
  {
  }

  lemma RowA(op: u8)
    requires 0xA0 <= op < 0xB0
    ensures Decode(op) == AluInstr(AluOpAt((op - 0x80) / 8), Operand(op % 8))
    ensures SpecialEntries(op)
  {
  }

  lemma RowB(op: u8)
    requires 0xB0 <= op < 0xC0
    ensures Decode(op) == AluInstr(AluOpAt((op - 0x80) / 8), Operand(op % 8))
    ensures SpecialEntries(op)
  {
  }

  lemma RowC(op: u8)
    requires 0xC0 <= op < 0xD0
    ensures op % 8 == 6 ==> Decode(op) == AluInstr(AluOpAt((op - 0xC0) / 8), Immediate)
    ensures op % 8 == 7 ==> Decode(op) == Rst(op - 0xC7)
    ensures op % 16 == 1 ==> Decode(op) == Pop(StackPairAt((op - 0xC0) / 16))
    ensures op % 16 == 5 ==> Decode(op) == Push(StackPairAt((op - 0xC0) / 16))
    ensures op % 8 == 0 ==> Decode(op) == RetCond(ConditionAt((op - 0xC0) / 8))
    ensures op % 8 == 2 ==> Decode(op) == JpCond(ConditionAt((op - 0xC0) / 8))
    ensures op % 8 == 4 ==> Decode(op) == CallCond(ConditionAt((op - 0xC0) / 8))
    ensures SpecialEntries(op)
  {
  }

  lemma RowD(op: u8)
    requires 0xD0 <= op < 0xE0
    ensures op % 8 == 6 ==> Decode(op) == AluInstr(AluOpAt((op - 0xC0) / 8), Immediate)
    ensures op % 8 == 7 ==> Decode(op) == Rst(op - 0xC7)
    ensures op % 16 == 1 ==> Decode(op) == Pop(StackPairAt((op - 0xC0) / 16))
    ensures op % 16 == 5 ==> Decode(op) == Push(StackPairAt((op - 0xC0) / 16))
    ensures op % 8 == 0 ==> Decode(op) == RetCond(ConditionAt((op - 0xC0) / 8))
    ensures op % 8 == 2 ==> Decode(op) == JpCond(ConditionAt((op - 0xC0) / 8))
    ensures op % 8 == 4 ==> Decode(op) == CallCond(ConditionAt((op - 0xC0) / 8))
    ensures SpecialEntries(op)
  {
  }

  lemma RowE(op: u8)
    requires 0xE0 <= op < 0xF0
    ensures op % 8 == 6 ==> Decode(op) == AluInstr(AluOpAt((op - 0xC0) / 8), Immediate)
    ensures op % 8 == 7 ==> Decode(op) == Rst(op - 0xC7)
    ensures op % 16 == 1 ==> Decode(op) == Pop(StackPairAt((op - 0xC0) / 16))
    ensures op % 16 == 5 ==> Decode(op) == Push(StackPairAt((op - 0xC0) / 16))
    ensures SpecialEntries(op)
  {
  }

  lemma RowF(op: u8)
    requires 0xF0 <= op < 0x100
    ensures op % 8 == 6 ==> Decode(op) == AluInstr(AluOpAt((op - 0xC0) / 8), Immediate)
    ensures op % 8 == 7 ==> Decode(op) == Rst(op - 0xC7)
    ensures op % 16 == 1 ==> Decode(op) == Pop(StackPairAt((op - 0xC0) / 16))
    ensures op % 16 == 5 ==> Decode(op) == Push(StackPairAt((op - 0xC0) / 16))
    ensures SpecialEntries(op)
  {
  }
}
