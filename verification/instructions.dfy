/**
  The instruction implementations of the processor, each a transition from
  one processor state to the next or to a fault.  Flag arithmetic lives in
  module Alu; operand access goes through module Addressing.
 */
module Instructions {
  import opened Bits
  import opened Faults
  import opened RegisterFile
  import MainMemory
  import opened Machine
  import opened Addressing
  import opened Alu

  /** The word operand at PC, little-endian. */
  function OperandWord(cpu: Cpu): u16
    requires cpu.registers.pc + 1 < MainMemory.RAM_SIZE
  {
    Byte(cpu, cpu.registers.pc) + 0x100 * Byte(cpu, cpu.registers.pc + 1)
  }

  /** A conditional instruction's test: the masked flag is set, or clear, as requested. */
  predicate Taken(regs: Registers, mask: u8, whenSet: bool)
  {
    TestFlag(regs, mask) == whenSet
  }

  // ---- Loads and stores ----------------------------------------------------

  /** LD dst, src: the byte the source names is stored where the destination names. */
  function Ld(cpu: Cpu, dst: Storage, src: Storage): (r: Result<Cpu>)
    ensures r.Ok? ==> SameControl(r.value, cpu)
    ensures src.Reg8? && dst.Reg8? ==>
      r == Ok(cpu.(registers := Store8(cpu.registers, dst.reg, Load8(cpu.registers, src.reg))))
    ensures dst.Immediate? ==> r.Fatal?
  {
    var loaded :- Load(src, cpu);
    Store(dst, loaded.cpu, loaded.value)
  }

  /**
    After a successful LD, reading the destination gives the byte the source
    held (for destinations that fetch nothing at PC).
   */
  lemma LdCopiesByte(cpu: Cpu, dst: Storage, src: Storage)
    requires !dst.Immediate? && dst != Indirect(ZeroPage)
    requires Ld(cpu, dst, src).Ok?
    ensures Load(src, cpu).Ok?
    ensures Load(dst, Ld(cpu, dst, src).value).Ok?
    ensures Load(dst, Ld(cpu, dst, src).value).value.value == Load(src, cpu).value.value
  {
    var loaded := Load(src, cpu).value;
    StoreThenLoad(dst, loaded.cpu, loaded.value);
  }

  /** LD SP,HL: SP takes the value of HL; nothing else changes. */
  function LdSpHl(cpu: Cpu): (r: Cpu)
    ensures r.registers.sp == Load16(cpu.registers, HL)
    ensures r == cpu.(registers := cpu.registers.(sp := r.registers.sp))
  {
    cpu.(registers := cpu.registers.(sp := Load16(cpu.registers, HL)))
  }

  /**
    LD HL,SP+e: the offset byte is zero-extended (not sign-extended) and added
    to SP modulo 0x10000; F and SP are not touched.
   */
  function LdHlSp(cpu: Cpu): (r: Result<Cpu>)
    ensures r.Ok? ==> SameControl(r.value, cpu)
    ensures r.Ok? <==> cpu.registers.pc < MainMemory.RAM_SIZE
    ensures r.Ok? ==>
      var regs := r.value.registers;
      && Load16(regs, HL) == (cpu.registers.sp + Byte(cpu, cpu.registers.pc)) % 0x1_0000
      && regs == cpu.registers.(h := regs.h, l := regs.l, pc := cpu.registers.pc + 1)
      && r.value.memory == cpu.memory
  {
    var offset :- LoadByteAndIncPc(cpu);
    var regs := offset.cpu.registers;
    StorePairRoundTrip(regs, HL, (offset.value + regs.sp) % 0x1_0000);
    Ok(offset.cpu.(registers := Store16(regs, HL, (offset.value + regs.sp) % 0x1_0000)))
  }

  /** LD rr,nn: the pair (or SP) takes the word operand; PC moves past it. */
  function LdWordImmediate(cpu: Cpu, pair: Register16): (r: Result<Cpu>)
    ensures r.Ok? ==> SameControl(r.value, cpu)
    ensures r.Ok? <==> cpu.registers.pc + 1 < MainMemory.RAM_SIZE
    ensures r.Ok? ==> Load16(r.value.registers, pair) == OperandWord(cpu)
    ensures r.Ok? ==> r.value.registers.pc == cpu.registers.pc + 2
    ensures r.Ok? ==> forall reg :: reg !in Halves(pair) ==>
      Load8(r.value.registers, reg) == Load8(cpu.registers, reg)
    ensures r.Ok? && pair != SP ==> r.value.registers.sp == cpu.registers.sp
    ensures r.Ok? ==> r.value.memory == cpu.memory
  {
    var word :- LoadWordAndIncPc(cpu);
    StorePairRoundTrip(word.cpu.registers, pair, word.value);
    Ok(word.cpu.(registers := Store16(word.cpu.registers, pair, word.value)))
  }

  /** LD (nn),SP: SP is stored little-endian at the word operand's address. */
  function LdIndirectSp(cpu: Cpu): (r: Result<Cpu>)
    ensures r.Ok? ==> SameControl(r.value, cpu)
    ensures r.Ok? <==>
      cpu.registers.pc + 1 < MainMemory.RAM_SIZE && OperandWord(cpu) + 1 < MainMemory.RAM_SIZE
    ensures r.Ok? ==>
      var address := OperandWord(cpu);
      && address + 1 < MainMemory.RAM_SIZE
      && Byte(r.value, address) == cpu.registers.sp % 0x100
      && Byte(r.value, address + 1) == cpu.registers.sp / 0x100
      && SameMemoryExcept(r.value, cpu, {address, address + 1})
      && r.value.registers == cpu.registers.(pc := cpu.registers.pc + 2)
  {
    var value := cpu.registers.sp;
    var address :- LoadWordAndIncPc(cpu);
    StoreWord(address.cpu, address.value, value)
  }

  /** PUSH rr: pushes the pair's value. */
  function Push(cpu: Cpu, pair: Register16): (r: Result<Cpu>)
    ensures r.Ok? ==> SameControl(r.value, cpu)
    ensures r.Ok? <==> cpu.registers.sp >= 2 && Load16(cpu.registers, pair) != PUSH_TRAP
    ensures r.Ok? ==>
      var sp := cpu.registers.sp;
      && r.value.registers == cpu.registers.(sp := sp - 2)
      && Byte(r.value, sp - 2) + 0x100 * Byte(r.value, sp - 1) == Load16(cpu.registers, pair)
      && SameMemoryExcept(r.value, cpu, {sp - 2, sp - 1})
  {
    PushWord(cpu, Load16(cpu.registers, pair))
  }

  /** POP rr: pops a word into the pair. */
  function Pop(cpu: Cpu, pair: Register16): (r: Result<Cpu>)
    ensures r.Ok? ==> SameControl(r.value, cpu)
    ensures r.Ok? <==> cpu.registers.sp + 1 < MainMemory.RAM_SIZE
    ensures r.Ok? ==> pair != SP ==> r.value.registers.sp == cpu.registers.sp + 2
    ensures r.Ok? ==> Load16(r.value.registers, pair) == PopWord(cpu).value.value
    ensures r.Ok? ==> forall reg :: reg !in Halves(pair) ==>
      Load8(r.value.registers, reg) == Load8(cpu.registers, reg)
    ensures r.Ok? ==> r.value.registers.pc == cpu.registers.pc
    ensures r.Ok? ==> r.value.memory == cpu.memory
  {
    var word :- PopWord(cpu);
    StorePairRoundTrip(word.cpu.registers, pair, word.value);
    Ok(word.cpu.(registers := Store16(word.cpu.registers, pair, word.value)))
  }

  /** PUSH p then POP q copies p into q and restores SP. */
  lemma PushThenPopPair(cpu: Cpu, p: Register16, q: Register16)
    requires p != SP && q != SP
    requires cpu.registers.sp >= 2 && Load16(cpu.registers, p) != PUSH_TRAP
    ensures Push(cpu, p).Ok?
    ensures Pop(Push(cpu, p).value, q).Ok?
    ensures Load16(Pop(Push(cpu, p).value, q).value.registers, q) == Load16(cpu.registers, p)
    ensures Pop(Push(cpu, p).value, q).value.registers.sp == cpu.registers.sp
  {
    PushThenPop(cpu, Load16(cpu.registers, p));
  }

  // ---- Arithmetic and logic ------------------------------------------------

  /**
    One of the eight accumulator operations on the byte a storage names: A
    and F become what the operation computes from A, F and the operand; the
    other registers and memory are kept, and PC moves only past an operand
    fetched at PC.
   */
  function AluOnStorage(cpu: Cpu, op: AluOp, s: Storage): (r: Result<Cpu>)
    ensures r.Ok? ==> SameControl(r.value, cpu)
    ensures r.Ok? <==> Load(s, cpu).Ok?
    ensures r.Ok? ==>
      var expected := AluRegisters(op, cpu.registers, Load(s, cpu).value.value);
      && r.value.registers.a == expected.a
      && r.value.registers.f == expected.f
      && r.value.registers == cpu.registers.(
           a := expected.a, f := expected.f, pc := r.value.registers.pc)
      && r.value.memory == cpu.memory
    ensures r.Ok? && s.Immediate? ==> r.value.registers.pc == cpu.registers.pc + 1
    ensures r.Ok? && !s.Immediate? && s != Indirect(ZeroPage) ==>
      r.value.registers.pc == cpu.registers.pc
  {
    var loaded :- Load(s, cpu);
    AluRegistersIgnorePc(op, cpu.registers, loaded.value, loaded.cpu.registers.pc);
    Ok(loaded.cpu.(registers := AluRegisters(op, loaded.cpu.registers, loaded.value)))
  }

  /**
    CP on any operand sets the same flags as SUB on that operand, consumes the
    same operand bytes, and leaves A as it was.
   */
  lemma CompareKeepsAccumulator(cpu: Cpu, s: Storage)
    ensures AluOnStorage(cpu, AluCp, s).Ok? <==> AluOnStorage(cpu, AluSub, s).Ok?
    ensures AluOnStorage(cpu, AluCp, s).Ok? ==>
      var cp, sub := AluOnStorage(cpu, AluCp, s).value, AluOnStorage(cpu, AluSub, s).value;
      && cp.registers.a == cpu.registers.a
      && cp.registers.f == sub.registers.f
      && cp == sub.(registers := sub.registers.(a := cpu.registers.a))
  {
    if AluOnStorage(cpu, AluCp, s).Ok? {
      var loaded := Load(s, cpu).value;
      assert loaded.cpu.registers.a == cpu.registers.a;
      CompareIsSubtractWithoutResult(loaded.cpu.registers, loaded.value);
    }
  }

  /**
    8-bit INC on any storage: load, add one, set Zero (keeping Carry), store
    back.  On a register the register moves by one; on a pair-addressed byte
    only that byte moves and no register other than F changes.
   */
  function Inc(cpu: Cpu, s: Storage): (r: Result<Cpu>)
    ensures r.Ok? ==> SameControl(r.value, cpu)
    ensures s.Reg8? && s.reg != F ==>
      var before := Load8(cpu.registers, s.reg);
      && r == Ok(cpu.(registers := Store8(IncOp(cpu.registers, before).0, s.reg, (before + 1) % 0x100)))
      && Load8(r.value.registers, s.reg) == (before + 1) % 0x100
      && (ZeroFlag(r.value.registers) <==> Load8(r.value.registers, s.reg) == 0)
      && (CarryFlag(r.value.registers) <==> CarryFlag(cpu.registers))
    ensures UsesPair(s) && PairOf(s) != AF ==>
      var address := Load16(cpu.registers, PairOf(s));
      && (r.Ok? <==> address < MainMemory.RAM_SIZE)
      && (r.Ok? ==> Byte(r.value, address) == (Byte(cpu, address) + 1) % 0x100)
      && (r.Ok? ==> SameMemoryExcept(r.value, cpu, {address}))
      && (r.Ok? ==> (ZeroFlag(r.value.registers) <==> Byte(r.value, address) == 0))
      && (r.Ok? ==> (CarryFlag(r.value.registers) <==> CarryFlag(cpu.registers)))
      && (r.Ok? ==> r.value.registers == cpu.registers.(f := r.value.registers.f))
  {
    var loaded :- Load(s, cpu);
    var (regs, value) := IncOp(loaded.cpu.registers, loaded.value);
    if s.Reg8? then
      Store(s, loaded.cpu.(registers := regs), value)
    else
      assert UsesPair(s) && PairOf(s) != AF ==>
        Load16(regs, PairOf(s)) == Load16(cpu.registers, PairOf(s));
      Store(s, loaded.cpu.(registers := regs), value)
  }

  /** 8-bit DEC on any storage, the mirror image of INC. */
  function Dec(cpu: Cpu, s: Storage): (r: Result<Cpu>)
    ensures r.Ok? ==> SameControl(r.value, cpu)
    ensures s.Reg8? && s.reg != F ==>
      var before := Load8(cpu.registers, s.reg);
      && r == Ok(cpu.(registers := Store8(DecOp(cpu.registers, before).0, s.reg, (before - 1) % 0x100)))
      && Load8(r.value.registers, s.reg) == (before - 1) % 0x100
      && (ZeroFlag(r.value.registers) <==> Load8(r.value.registers, s.reg) == 0)
      && (CarryFlag(r.value.registers) <==> CarryFlag(cpu.registers))
    ensures UsesPair(s) && PairOf(s) != AF ==>
      var address := Load16(cpu.registers, PairOf(s));
      && (r.Ok? <==> address < MainMemory.RAM_SIZE)
      && (r.Ok? ==> Byte(r.value, address) == (Byte(cpu, address) - 1) % 0x100)
      && (r.Ok? ==> SameMemoryExcept(r.value, cpu, {address}))
      && (r.Ok? ==> (ZeroFlag(r.value.registers) <==> Byte(r.value, address) == 0))
      && (r.Ok? ==> (CarryFlag(r.value.registers) <==> CarryFlag(cpu.registers)))
      && (r.Ok? ==> r.value.registers == cpu.registers.(f := r.value.registers.f))
  {
    var loaded :- Load(s, cpu);
    var (regs, value) := DecOp(loaded.cpu.registers, loaded.value);
    if s.Reg8? then
      Store(s, loaded.cpu.(registers := regs), value)
    else
      assert UsesPair(s) && PairOf(s) != AF ==>
        Load16(regs, PairOf(s)) == Load16(cpu.registers, PairOf(s));
      Store(s, loaded.cpu.(registers := regs), value)
  }

  function Inc16(cpu: Cpu, pair: Register16): (r: Cpu)
    ensures Load16(r.registers, pair) == (Load16(cpu.registers, pair) + 1) % 0x1_0000
    ensures r == cpu.(registers := r.registers)
  {
    cpu.(registers := Inc16Op(cpu.registers, pair))
  }

  function Dec16(cpu: Cpu, pair: Register16): (r: Cpu)
    ensures Load16(r.registers, pair) == (Load16(cpu.registers, pair) - 1) % 0x1_0000
    ensures r == cpu.(registers := r.registers)
  {
    cpu.(registers := Dec16Op(cpu.registers, pair))
  }

  /** ADD HL,rr: a wrapping add into HL that leaves F alone. */
  function AddHl(cpu: Cpu, pair: Register16): (r: Cpu)
    ensures Load16(r.registers, HL) == (Load16(cpu.registers, HL) + Load16(cpu.registers, pair)) % 0x1_0000
    ensures r.registers.f == cpu.registers.f
    ensures r == cpu.(registers := r.registers)
  {
    cpu.(registers := AddHlOp(cpu.registers, pair))
  }

  /** ADD SP,e: SP moves by the sign-extended offset byte; F is not touched. */
  function AddSp(cpu: Cpu): (r: Result<Cpu>)
    ensures r.Ok? ==> SameControl(r.value, cpu)
    ensures r.Ok? <==> cpu.registers.pc < MainMemory.RAM_SIZE
    ensures r.Ok? ==>
      r.value.registers == cpu.registers.(
        sp := (cpu.registers.sp + SignExtend(Byte(cpu, cpu.registers.pc))) % 0x1_0000,
        pc := cpu.registers.pc + 1)
    ensures r.Ok? ==> r.value.memory == cpu.memory
  {
    var sp := cpu.registers.sp;
    var offset :- LoadByteAndIncPc(cpu);
    Ok(WithSp(offset.cpu, AddSignedOffset(sp, offset.value)))
  }

  function Rlca(cpu: Cpu): Cpu { cpu.(registers := RlcaOp(cpu.registers)) }
  function Rrca(cpu: Cpu): Cpu { cpu.(registers := RrcaOp(cpu.registers)) }
  function Rla(cpu: Cpu): Cpu { cpu.(registers := RlaOp(cpu.registers)) }
  function Rra(cpu: Cpu): Cpu { cpu.(registers := RraOp(cpu.registers)) }
  function Cpl(cpu: Cpu): Cpu { cpu.(registers := CplOp(cpu.registers)) }
  function Scf(cpu: Cpu): Cpu { cpu.(registers := ScfOp(cpu.registers)) }
  function Ccf(cpu: Cpu): Cpu { cpu.(registers := CcfOp(cpu.registers)) }

  // ---- Control transfer ----------------------------------------------------

  /** JP nn. */
  function Jp(cpu: Cpu): (r: Result<Cpu>)
    ensures r.Ok? ==> SameControl(r.value, cpu)
    ensures r.Ok? <==> cpu.registers.pc + 1 < MainMemory.RAM_SIZE
    ensures r.Ok? ==> r.value.registers == cpu.registers.(pc := OperandWord(cpu))
    ensures r.Ok? ==> r.value == cpu.(registers := r.value.registers, cycles := r.value.cycles)
  {
    var address :- LoadWordAndIncPc(cpu);
    Ok(Tick(WithPc(address.cpu, address.value), 1))
  }

  /** JP (HL): PC takes the value of HL. */
  function JpHl(cpu: Cpu): (r: Cpu)
    ensures r.registers == cpu.registers.(pc := Load16(cpu.registers, HL))
    ensures r == cpu.(registers := r.registers, cycles := r.cycles)
  {
    Tick(WithPc(cpu, Load16(cpu.registers, HL)), 1)
  }

  /**
    Conditional JP: the operand word is always consumed; PC jumps to it only
    when the flag test matches the requested polarity.
   */
  function JpCond(cpu: Cpu, mask: u8, whenSet: bool): (r: Result<Cpu>)
    ensures r.Ok? ==> SameControl(r.value, cpu)
    ensures r.Ok? <==> cpu.registers.pc + 1 < MainMemory.RAM_SIZE
    ensures r.Ok? ==> r.value.registers == cpu.registers.(
      pc := if Taken(cpu.registers, mask, whenSet) then OperandWord(cpu) else cpu.registers.pc + 2)
    ensures r.Ok? ==> r.value == cpu.(registers := r.value.registers, cycles := r.value.cycles)
  {
    var address :- LoadWordAndIncPc(cpu);
    if TestFlag(address.cpu.registers, mask) == whenSet then
      Ok(Tick(WithPc(address.cpu, address.value), 1))
    else
      Ok(address.cpu)
  }

  /** `(pc as i16 + offset as i16) as u16`, with the sum wrapping. */
  function RelativeTarget(pc: u16, offset: u8): (target: u16)
    ensures target == (pc + SignExtend(offset)) % 0x1_0000
  {
    var signedPc := if pc < 0x8000 then pc else pc - 0x1_0000;
    (signedPc + SignExtend(offset)) % 0x1_0000
  }

  /** JR e: PC moves by the signed offset, counted from the byte after it. */
  function Jr(cpu: Cpu): (r: Result<Cpu>)
    ensures r.Ok? ==> SameControl(r.value, cpu)
    ensures r.Ok? <==> cpu.registers.pc < MainMemory.RAM_SIZE
    ensures r.Ok? ==> r.value.registers == cpu.registers.(
      pc := (cpu.registers.pc + 1 + SignExtend(Byte(cpu, cpu.registers.pc))) % 0x1_0000)
    ensures r.Ok? ==> r.value == cpu.(registers := r.value.registers, cycles := r.value.cycles)
  {
    var offset :- LoadByteAndIncPc(cpu);
    Ok(Tick(WithPc(offset.cpu, RelativeTarget(offset.cpu.registers.pc, offset.value)), 1))
  }

  /**
    Conditional JR: the offset byte is always consumed; the relative jump is
    made only when the flag test matches the requested polarity.
   */
  function JrCond(cpu: Cpu, mask: u8, whenSet: bool): (r: Result<Cpu>)
    ensures r.Ok? ==> SameControl(r.value, cpu)
    ensures r.Ok? <==> cpu.registers.pc < MainMemory.RAM_SIZE
    ensures r.Ok? ==> r.value.registers == cpu.registers.(
      pc := if Taken(cpu.registers, mask, whenSet)
            then (cpu.registers.pc + 1 + SignExtend(Byte(cpu, cpu.registers.pc))) % 0x1_0000
            else cpu.registers.pc + 1)
    ensures r.Ok? ==> r.value == cpu.(registers := r.value.registers, cycles := r.value.cycles)
  {
    var offset :- LoadByteAndIncPc(cpu);
    if TestFlag(offset.cpu.registers, mask) == whenSet then
      Ok(Tick(WithPc(offset.cpu, RelativeTarget(offset.cpu.registers.pc, offset.value)), 1))
    else
      Ok(offset.cpu)
  }

  /** Pushes the current PC and jumps. */
  function CallOp(cpu: Cpu, address: u16): (r: Result<Cpu>)
    ensures r.Ok? ==> SameControl(r.value, cpu)
    ensures r.Ok? <==> cpu.registers.sp >= 2 && cpu.registers.pc != PUSH_TRAP
    ensures r.Ok? ==>
      var sp := cpu.registers.sp;
      && r.value.registers == cpu.registers.(pc := address, sp := sp - 2)
      && Byte(r.value, sp - 2) == cpu.registers.pc % 0x100
      && Byte(r.value, sp - 1) == cpu.registers.pc / 0x100
      && SameMemoryExcept(r.value, cpu, {sp - 2, sp - 1})
      && r.value == cpu.(registers := r.value.registers, memory := r.value.memory, cycles := r.value.cycles)
  {
    var pushed :- PushWord(cpu, cpu.registers.pc);
    Ok(Tick(WithPc(pushed, address), 1))
  }

  /** CALL nn: pushes the address after the operand and jumps to the operand. */
  function Call(cpu: Cpu): (r: Result<Cpu>)
    ensures r.Ok? ==> SameControl(r.value, cpu)
    ensures r.Ok? <==>
      cpu.registers.pc + 1 < MainMemory.RAM_SIZE && cpu.registers.sp >= 2
      && cpu.registers.pc + 2 != PUSH_TRAP
    ensures r.Ok? ==>
      var sp := cpu.registers.sp;
      && r.value.registers == cpu.registers.(pc := OperandWord(cpu), sp := sp - 2)
      && Byte(r.value, sp - 2) + 0x100 * Byte(r.value, sp - 1) == cpu.registers.pc + 2
      && SameMemoryExcept(r.value, cpu, {sp - 2, sp - 1})
  {
    var address :- LoadWordAndIncPc(cpu);
    CallOp(address.cpu, address.value)
  }

  /**
    Conditional CALL: the operand word is always consumed; the push and the
    jump happen only when the flag test matches the requested polarity.
   */
  function CallCond(cpu: Cpu, mask: u8, whenSet: bool): (r: Result<Cpu>)
    ensures r.Ok? ==> SameControl(r.value, cpu)
    ensures r.Ok? <==>
      cpu.registers.pc + 1 < MainMemory.RAM_SIZE
      && (Taken(cpu.registers, mask, whenSet) ==>
            cpu.registers.sp >= 2 && cpu.registers.pc + 2 != PUSH_TRAP)
    ensures r.Ok? && !Taken(cpu.registers, mask, whenSet) ==>
      r.value == Tick(WithPc(cpu, cpu.registers.pc + 2), 2)
    ensures r.Ok? && Taken(cpu.registers, mask, whenSet) ==>
      var sp := cpu.registers.sp;
      && r.value.registers == cpu.registers.(pc := OperandWord(cpu), sp := sp - 2)
      && Byte(r.value, sp - 2) + 0x100 * Byte(r.value, sp - 1) == cpu.registers.pc + 2
      && SameMemoryExcept(r.value, cpu, {sp - 2, sp - 1})
  {
    var address :- LoadWordAndIncPc(cpu);
    if TestFlag(address.cpu.registers, mask) == whenSet then
      CallOp(address.cpu, address.value)
    else
      Ok(address.cpu)
  }

  /** RET: PC takes the word popped from the stack. */
  function Ret(cpu: Cpu): (r: Result<Cpu>)
    ensures r.Ok? ==> SameControl(r.value, cpu)
    ensures r.Ok? <==> cpu.registers.sp + 1 < MainMemory.RAM_SIZE
    ensures r.Ok? ==> r.value.registers == cpu.registers.(
      pc := Byte(cpu, cpu.registers.sp) + 0x100 * Byte(cpu, cpu.registers.sp + 1),
      sp := cpu.registers.sp + 2)
    ensures r.Ok? ==> r.value == cpu.(registers := r.value.registers, cycles := r.value.cycles)
  {
    var address :- PopWord(cpu);
    Ok(Tick(WithPc(address.cpu, address.value), 1))
  }

  /** Conditional RET: pops only when the flag test matches; otherwise nothing changes. */
  function RetCond(cpu: Cpu, mask: u8, whenSet: bool): (r: Result<Cpu>)
    ensures r.Ok? ==> SameControl(r.value, cpu)
    ensures !Taken(cpu.registers, mask, whenSet) ==> r == Ok(cpu)
    ensures Taken(cpu.registers, mask, whenSet) ==> r == Ret(cpu)
  {
    if TestFlag(cpu.registers, mask) == whenSet then Ret(cpu) else Ok(cpu)
  }

  /** RETI: as RET, and the interrupt master enable ends up cleared. */
  function Reti(cpu: Cpu): (r: Result<Cpu>)
    ensures r.Ok? ==> !r.value.interrupt
    ensures r == Ret(cpu.(interrupt := false))
  {
    Ret(cpu.(interrupt := false))
  }

  /**
    RST n: pushes PC and jumps to the fixed address.  SP drops by two, the
    return address sits little-endian at SP-2 and SP-1, and nothing else but
    the cycle counter changes.
   */
  function Rst(cpu: Cpu, address: u16): (r: Result<Cpu>)
    ensures r.Ok? ==> SameControl(r.value, cpu)
    ensures r.Ok? <==> cpu.registers.sp >= 2 && cpu.registers.pc != PUSH_TRAP
    ensures r.Ok? ==>
      var sp := cpu.registers.sp;
      && r.value.registers == cpu.registers.(pc := address, sp := sp - 2)
      && Byte(r.value, sp - 2) + 0x100 * Byte(r.value, sp - 1) == cpu.registers.pc
      && SameMemoryExcept(r.value, cpu, {sp - 2, sp - 1})
      && r.value == cpu.(registers := r.value.registers, memory := r.value.memory, cycles := r.value.cycles)
  {
    CallOp(cpu, address)
  }

  /** A CALL followed by a RET comes back to the instruction after the CALL with SP restored. */
  lemma CallThenRet(cpu: Cpu)
    requires Call(cpu).Ok?
    ensures Ret(Call(cpu).value).Ok?
    ensures Ret(Call(cpu).value).value.registers == cpu.registers.(pc := cpu.registers.pc + 2)
  {
  }

  function Ei(cpu: Cpu): (r: Cpu)
    ensures r.interrupt
    ensures r == cpu.(interrupt := r.interrupt)
  {
    cpu.(interrupt := true)
  }

  function Di(cpu: Cpu): (r: Cpu)
    ensures !r.interrupt
    ensures r == cpu.(interrupt := r.interrupt)
  {
    cpu.(interrupt := false)
  }

  function Halt(cpu: Cpu): (r: Cpu)
    ensures r.halt
    ensures r == cpu.(halt := r.halt)
  {
    cpu.(halt := true)
  }

  // ---- CB-prefixed operations ----------------------------------------------

  /**
    SWAP: exchanges the operand's nibbles (see SwapNibbles); F becomes
    ZERO_FLAG or 0.  On a register, that register and F are all that change.
   */
  function Swap(cpu: Cpu, s: Storage): (r: Result<Cpu>)
    ensures r.Ok? ==> SameControl(r.value, cpu)
    ensures s.Reg8? && s.reg != F ==>
      var before := Load8(cpu.registers, s.reg);
      && r == Ok(cpu.(registers := Store8(ClearFlagsSetZero(cpu.registers, SwapNibbles(before)), s.reg, SwapNibbles(before))))
      && Load8(r.value.registers, s.reg) == SwapNibbles(before)
      && r.value.registers.f == (if before == 0 then ZERO_FLAG else 0)
  {
    var loaded :- Load(s, cpu);
    var value := SwapNibbles(loaded.value);
    var flagged := loaded.cpu.(registers := ClearFlagsSetZero(loaded.cpu.registers, value));
    Store(s, flagged, value)
  }

  /** BIT n: Zero is set exactly when bit n of the operand is clear; the operand is not written. */
  function BitTest(cpu: Cpu, n: nat, s: Storage): (r: Result<Cpu>)
    requires n < 8
    ensures r.Ok? ==> SameControl(r.value, cpu)
    ensures r.Ok? <==> Load(s, cpu).Ok?
    ensures r.Ok? ==> (ZeroFlag(r.value.registers) <==> !Bit(Load(s, cpu).value.value, n))
    ensures r.Ok? ==> r.value == Load(s, cpu).value.cpu.(registers := r.value.registers)
    ensures r.Ok? ==> r.value.registers == Load(s, cpu).value.cpu.registers.(f := r.value.registers.f)
  {
    var loaded :- Load(s, cpu);
    Ok(loaded.cpu.(registers := BitTestOp(loaded.cpu.registers, n, loaded.value)))
  }

  /** RES n: clears bit n of the operand and keeps its other bits. */
  function Res(cpu: Cpu, n: nat, s: Storage): (r: Result<Cpu>)
    requires n < 8
    ensures r.Ok? ==> SameControl(r.value, cpu)
    ensures s.Reg8? ==>
      && r.Ok?
      && !Bit(Load8(r.value.registers, s.reg), n)
      && (forall i: nat :: i != n ==>
            (Bit(Load8(r.value.registers, s.reg), i) <==> Bit(Load8(cpu.registers, s.reg), i)))
      && (forall other :: other != s.reg ==> Load8(r.value.registers, other) == Load8(cpu.registers, other))
      && r == Ok(cpu.(registers := Store8(cpu.registers, s.reg, WithBit(Load8(cpu.registers, s.reg), n, false))))
  {
    var loaded :- Load(s, cpu);
    Store(s, loaded.cpu, WithBit(loaded.value, n, false))
  }

  /** SET n: sets bit n of the operand and keeps its other bits. */
  function Set(cpu: Cpu, n: nat, s: Storage): (r: Result<Cpu>)
    requires n < 8
    ensures r.Ok? ==> SameControl(r.value, cpu)
    ensures s.Reg8? ==>
      && r.Ok?
      && Bit(Load8(r.value.registers, s.reg), n)
      && (forall i: nat :: i != n ==>
            (Bit(Load8(r.value.registers, s.reg), i) <==> Bit(Load8(cpu.registers, s.reg), i)))
      && (forall other :: other != s.reg ==> Load8(r.value.registers, other) == Load8(cpu.registers, other))
      && r == Ok(cpu.(registers := Store8(cpu.registers, s.reg, WithBit(Load8(cpu.registers, s.reg), n, true))))
  {
    var loaded :- Load(s, cpu);
    Store(s, loaded.cpu, WithBit(loaded.value, n, true))
  }
}
