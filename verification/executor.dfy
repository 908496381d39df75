/**
  Dispatch and the processor loop: executing a decoded instruction, one
  fetch-execute step, and interrupt service.
 */
module Executor {
  import opened Bits
  import opened Faults
  import opened RegisterFile
  import MainMemory
  import opened Machine
  import opened Addressing
  import opened Alu
  import opened Decoder
  import opened TableStructure
  import I = Instructions

  /** Runs one decoded instruction of the main table. */
  function Exec(cpu: Cpu, instr: Instr): (r: Result<Cpu>)
    ensures r.Ok? ==>
      && r.value.interruptEnable == cpu.interruptEnable
      && r.value.interruptFlags == cpu.interruptFlags
    ensures r.Ok? ==>
      r.value.interrupt == if instr == Ei then true else if instr == Di || instr == Reti then false else cpu.interrupt
    ensures r.Ok? ==> r.value.halt == (cpu.halt || instr == Halt)
  {
    match instr
    case Nop => Ok(cpu)
    case LdWordImmediate(pair) => I.LdWordImmediate(cpu, pair)
    case Ld(dst, src) => I.Ld(cpu, dst, src)
    case Inc(target) => I.Inc(cpu, target)
    case Dec(target) => I.Dec(cpu, target)
    case Inc16(pair) => Ok(I.Inc16(cpu, pair))
    case Dec16(pair) => Ok(I.Dec16(cpu, pair))
    case Rlca => Ok(I.Rlca(cpu))
    case Rrca => Ok(I.Rrca(cpu))
    case Rla => Ok(I.Rla(cpu))
    case Rra => Ok(I.Rra(cpu))
    case LdIndirectSp => I.LdIndirectSp(cpu)
    case AddHl(pair) => Ok(I.AddHl(cpu, pair))
    case StopInstr => Fatal(Stop)
    case Daa => Fatal(DecimalAdjust)
    case Cpl => Ok(I.Cpl(cpu))
    case Scf => Ok(I.Scf(cpu))
    case Ccf => Ok(I.Ccf(cpu))
    case AluInstr(op, operand) => I.AluOnStorage(cpu, op, operand)
    case AddSp => I.AddSp(cpu)
    case LdHlSp => I.LdHlSp(cpu)
    case LdSpHl => Ok(I.LdSpHl(cpu))
    case Illegal(opcode) => Fatal(IllegalOpcode(opcode))
    case Unmodelled(opcode) => Fatal(Fault.Unmodelled(opcode))
    case _ => ExecControl(cpu, instr)
  }

  /** The instructions that jump, use the stack, or change the processor's control state. */
  predicate IsControl(instr: Instr)
  {
    || instr.Jr? || instr.JrCond? || instr.Jp? || instr.JpCond? || instr.JpHl?
    || instr.Call? || instr.CallCond? || instr.Ret? || instr.RetCond? || instr.Reti?
    || instr.Rst? || instr.Pop? || instr.Push? || instr.Prefix?
    || instr.Halt? || instr.Di? || instr.Ei?
  }

  /** The control-transfer half of Exec. */
  function ExecControl(cpu: Cpu, instr: Instr): (r: Result<Cpu>)
    requires IsControl(instr)
    ensures r.Ok? ==>
      && r.value.interruptEnable == cpu.interruptEnable
      && r.value.interruptFlags == cpu.interruptFlags
    ensures r.Ok? ==>
      r.value.interrupt == if instr == Ei then true else if instr == Di || instr == Reti then false else cpu.interrupt
    ensures r.Ok? ==> r.value.halt == (cpu.halt || instr == Halt)
  {
    match instr
    case Jr => I.Jr(cpu)
    case JrCond(cond) => I.JrCond(cpu, cond.mask, cond.whenSet)
    case Jp => I.Jp(cpu)
    case JpCond(cond) => I.JpCond(cpu, cond.mask, cond.whenSet)
    case JpHl => Ok(I.JpHl(cpu))
    case Call => I.Call(cpu)
    case CallCond(cond) => I.CallCond(cpu, cond.mask, cond.whenSet)
    case Ret => I.Ret(cpu)
    case RetCond(cond) => I.RetCond(cpu, cond.mask, cond.whenSet)
    case Reti => I.Reti(cpu)
    case Rst(vector) => I.Rst(cpu, vector)
    case Pop(pair) => I.Pop(cpu, pair)
    case Push(pair) => I.Push(cpu, pair)
    case Prefix =>
      var fetched :- LoadByteAndIncPc(cpu);
      ExecuteCb(fetched.cpu, fetched.value)
    case Halt => Ok(I.Halt(cpu))
    case Di => Ok(I.Di(cpu))
    case Ei => Ok(I.Ei(cpu))
  }

  /** Runs one decoded instruction of the CB-prefixed table. */
  function ExecCb(cpu: Cpu, instr: CbInstr): (r: Result<Cpu>)
    ensures r.Ok? ==> SameControl(r.value, cpu)
  {
    match instr
    case Swap(operand) => I.Swap(cpu, operand)
    case BitTest(n, operand) => I.BitTest(cpu, n, operand)
    case Res(n, operand) => I.Res(cpu, n, operand)
    case Set(n, operand) => I.Set(cpu, n, operand)
    case CbUnimplemented(opcode) => Fatal(Fault.CbUnimplemented(opcode))
  }

  /** Executes an opcode of the main table. */
  function Execute(cpu: Cpu, op: u8): (r: Result<Cpu>)
    ensures op in ILLEGAL_OPCODES ==> r == Fatal(IllegalOpcode(op))
    ensures op == 0x10 ==> r == Fatal(Stop)
    ensures op == 0x27 ==> r == Fatal(DecimalAdjust)
    ensures op == 0x00 ==> r == Ok(cpu)
  {
    SpecialOpcodes(op);
    Exec(cpu, Decode(op))
  }

  /** Executes an opcode of the CB-prefixed table. */
  function ExecuteCb(cpu: Cpu, op: u8): (r: Result<Cpu>)
    ensures op !in CB_IMPLEMENTED ==> r == Fatal(Fault.CbUnimplemented(op))
  {
    CbImplemented(op);
    ExecCb(cpu, DecodeCb(op))
  }

  /** The number of low-order zero bits of a non-zero byte. */
  function TrailingZeros(x: u8): (n: nat)
    requires x != 0
    ensures n < 8 && Bit(x, n)
    ensures forall i: nat :: i < n ==> !Bit(x, i)
  {
    if x % 2 == 1 then 0 else 1 + TrailingZeros(x / 2)
  }

  /**
    Interrupt service: among the requests both enabled and flagged, the one
    with the lowest bit number is acknowledged by clearing its flag, and the
    master enable is cleared.  Only the V-Blank request (bit 0) is serviced,
    as RST 0x40 is: the interrupted PC is pushed and PC jumps to 0x40.  The
    others are acknowledged without a jump.
   */
  function Interrupt(cpu: Cpu): (r: Result<Cpu>)
    ensures And8(cpu.interruptEnable, cpu.interruptFlags) == 0 ==> r == Ok(cpu)
    ensures And8(cpu.interruptEnable, cpu.interruptFlags) != 0 ==>
      var n := TrailingZeros(And8(cpu.interruptEnable, cpu.interruptFlags));
      && Bit(cpu.interruptEnable, n) && Bit(cpu.interruptFlags, n)
      && (r.Ok? <==> (n == 0 ==> cpu.registers.sp >= 2 && cpu.registers.pc != PUSH_TRAP))
      && (r.Ok? ==> !r.value.interrupt && r.value.interruptEnable == cpu.interruptEnable)
      && (r.Ok? ==> !Bit(r.value.interruptFlags, n))
      && (r.Ok? ==> forall i: nat :: i != n ==> (Bit(r.value.interruptFlags, i) <==> Bit(cpu.interruptFlags, i)))
      && (r.Ok? ==> r.value.registers.pc == if n == 0 then 0x40 else cpu.registers.pc)
      && (r.Ok? && n != 0 ==> r.value.registers == cpu.registers && r.value.memory == cpu.memory)
      && (r.Ok? && n == 0 ==>
            var sp := cpu.registers.sp;
            && r.value.registers == cpu.registers.(pc := 0x40, sp := sp - 2)
            && Byte(r.value, sp - 2) + 0x100 * Byte(r.value, sp - 1) == cpu.registers.pc
            && SameMemoryExcept(r.value, cpu, {sp - 2, sp - 1}))
  {
    var pending := And8(cpu.interruptEnable, cpu.interruptFlags);
    if pending == 0 then Ok(cpu)
    else
      var n := TrailingZeros(pending);
      // interrupt_flags &= !(1 << n)
      var acknowledged := cpu.(
        interruptFlags := WithBit(cpu.interruptFlags, n, false),
        interrupt := false);
      if n == 0 then I.Rst(acknowledged, 0x40) else Ok(acknowledged)
  }

  /**
    Servicing a V-Blank request and then returning with RETI comes back to
    the interrupted PC with SP and every other register restored.
   */
  lemma InterruptThenReti(cpu: Cpu)
    requires Bit(cpu.interruptEnable, 0) && Bit(cpu.interruptFlags, 0)
    requires cpu.registers.sp >= 2 && cpu.registers.pc != PUSH_TRAP
    ensures Interrupt(cpu).Ok? && Interrupt(cpu).value.registers.pc == 0x40
    ensures I.Reti(Interrupt(cpu).value).Ok?
    ensures I.Reti(Interrupt(cpu).value).value.registers == cpu.registers
  {
    var pending := And8(cpu.interruptEnable, cpu.interruptFlags);
    assert Bit(pending, 0);
    assert TrailingZeros(pending) == 0;
  }

  /**
    One step of the processor: fetch the opcode at PC and advance PC past it,
    execute it, then service an interrupt if the master enable is set.
   */
  function Step(cpu: Cpu): (r: Result<Cpu>)
    ensures cpu.registers.pc >= MainMemory.RAM_SIZE ==> r == Fatal(OutOfBounds(cpu.registers.pc))
    ensures r.Ok? ==> r.value.interruptEnable == cpu.interruptEnable
    // with the master enable clear, only EI can open the way to an interrupt
    ensures r.Ok? && !cpu.interrupt && Byte(cpu, cpu.registers.pc) != 0xFB ==>
      r.value.interruptFlags == cpu.interruptFlags && !r.value.interrupt
    // an enabled and requested interrupt is always acknowledged when the master enable is set
    ensures r.Ok? && r.value.interrupt ==> And8(r.value.interruptEnable, r.value.interruptFlags) == 0
  {
    var fetched :- LoadByteAndIncPc(cpu);
    var executed :- Execute(fetched.cpu, fetched.value);
    ControlOpcodes(fetched.value);
    if executed.interrupt then Interrupt(executed) else Ok(executed)
  }

  /**
    With the master enable clear and an opcode other than EI, a step is exactly
    the fetch (one cycle, PC past the opcode) followed by the opcode's
    execution: no interrupt is serviced afterwards.
   */
  lemma StepWithoutInterrupt(cpu: Cpu)
    requires cpu.registers.pc < MainMemory.RAM_SIZE
    requires !cpu.interrupt && Byte(cpu, cpu.registers.pc) != 0xFB
    ensures var pc := cpu.registers.pc;
      Step(cpu) == Execute(Tick(WithPc(cpu, pc + 1), 1), Byte(cpu, pc))
  {
    var op := Byte(cpu, cpu.registers.pc);
    var next := Tick(WithPc(cpu, cpu.registers.pc + 1), 1);
    assert LoadByteAndIncPc(cpu) == Ok(Loaded(op, next));
    ControlOpcodes(op);
    assert Decode(op) != Ei;
    assert Execute(next, op).Ok? ==> !Execute(next, op).value.interrupt;
  }

  /*
    The scenarios below follow the register-level tests of the program: each
    names the entry the opcode decodes to and what that instruction does.
   */

  /** LD B,n (0x06): B takes the byte at PC, PC moves past it, and one cycle is spent on the read. */
  lemma LoadImmediateB(cpu: Cpu)
    requires cpu.registers.pc < MainMemory.RAM_SIZE
    ensures Decode(0x06) == Ld(Reg8(B), Immediate)
    ensures var pc := cpu.registers.pc;
      I.Ld(cpu, Reg8(B), Immediate) == Ok(Tick(cpu, 1).(registers := cpu.registers.(b := Byte(cpu, pc), pc := pc + 1)))
  {
  }

  /** LD B,A (0x47): B takes the value of A and nothing else changes. */
  lemma LoadBFromA(cpu: Cpu)
    ensures Decode(0x47) == Ld(Reg8(B), Reg8(A))
    ensures I.Ld(cpu, Reg8(B), Reg8(A)) == Ok(cpu.(registers := cpu.registers.(b := cpu.registers.a)))
  {
  }

  /** ADD A,A (0x87): A doubles, wrapping, whatever the incoming carry; Carry ends set exactly on overflow. */
  lemma AddAccumulatorToItself(cpu: Cpu)
    ensures Decode(0x87) == AluInstr(AluAdd, Reg8(A))
    ensures I.AluOnStorage(cpu, AluAdd, Reg8(A)).Ok?
    ensures var a, r := cpu.registers.a, I.AluOnStorage(cpu, AluAdd, Reg8(A)).value.registers;
      r.a == (2 * a) % 0x100 && (CarryFlag(r) <==> 2 * a >= 0x100)
  {
  }

  /** ADC A,A (0x8F): A doubles plus the incoming carry, wrapping; Carry ends set exactly on overflow. */
  lemma AddAccumulatorToItselfWithCarry(cpu: Cpu)
    ensures Decode(0x8F) == AluInstr(AluAdc, Reg8(A))
    ensures I.AluOnStorage(cpu, AluAdc, Reg8(A)).Ok?
    ensures var a, r := cpu.registers.a, I.AluOnStorage(cpu, AluAdc, Reg8(A)).value.registers;
      var sum := 2 * a + Carry(cpu.registers);
      r.a == sum % 0x100 && (CarryFlag(r) <==> sum >= 0x100)
  {
  }
}
