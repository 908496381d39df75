/**
  The processor state and the bus helpers every instruction goes through:
  byte and word access with the cycle counter, operand fetch at PC, and the
  little-endian stack.  A Rust overflow on `pc += 1`, `pc += 2`, `sp += 1`,
  `sp += 2` or `address + 1` can only happen where the access it guards already
  indexes past the RAM array, so both build modes stop there; the model
  computes these sums modulo 0x10000 and reports the out-of-bounds index.
 */
module Machine {
  import opened Bits
  import opened Faults
  import opened RegisterFile
  import opened MainMemory

  /**
    The processor: registers, memory, the halt flag, the interrupt master
    enable (`interrupt` in the program), the bus-access counter and the
    interrupt-enable and interrupt-flag bytes.
   */
  datatype Cpu = Cpu(
    registers: Registers,
    memory: Memory,
    halt: bool,
    interrupt: bool,
    cycles: nat,
    interruptEnable: u8,
    interruptFlags: u8)

  /** The word whose push the program treats as a fatal debugging trap. */
  const PUSH_TRAP: u16 := 0xF0C9

  /** A value read by an operation together with the state after the read. */
  datatype Loaded<T> = Loaded(value: T, cpu: Cpu)

  /** The byte at an address, read without touching the cycle counter. */
  function Byte(cpu: Cpu, address: int): u8
    requires 0 <= address < RAM_SIZE
  {
    cpu.memory.ram.val[address]
  }

  /** Two states whose memories agree everywhere except on `written`. */
  ghost predicate SameMemoryExcept(c1: Cpu, c2: Cpu, written: set<int>)
  {
    forall i | 0 <= i < RAM_SIZE && i !in written :: Byte(c1, i) == Byte(c2, i)
  }

  /**
    Two states that agree on the halt flag, the interrupt master enable and
    the interrupt-enable and interrupt-flag bytes.
   */
  predicate SameControl(c1: Cpu, c2: Cpu)
  {
    && c1.halt == c2.halt
    && c1.interrupt == c2.interrupt
    && c1.interruptEnable == c2.interruptEnable
    && c1.interruptFlags == c2.interruptFlags
  }

  function WithPc(cpu: Cpu, pc: u16): Cpu
  {
    cpu.(registers := cpu.registers.(pc := pc))
  }

  function WithSp(cpu: Cpu, sp: u16): Cpu
  {
    cpu.(registers := cpu.registers.(sp := sp))
  }

  function Tick(cpu: Cpu, n: nat): Cpu
  {
    cpu.(cycles := cpu.cycles + n)
  }

  /** A new processor: every register zero, memory zero, interrupts off. */
  function NewCpu(): (cpu: Cpu)
    ensures cpu.registers == NewRegisters()
    ensures forall i | 0 <= i < RAM_SIZE :: Byte(cpu, i) == 0
    ensures !cpu.halt && !cpu.interrupt && cpu.cycles == 0
  {
    Cpu(NewRegisters(), NewMemory(), false, false, 0, 0, 0)
  }

  /**
    Reset clears the 8-bit registers, places the stack at the top of high RAM
    (0xFFFE) and starts execution at 0x0100.
   */
  function Reset(cpu: Cpu): (r: Cpu)
    ensures forall reg :: Load8(r.registers, reg) == 0
    ensures r.registers.pc == 0x100 && r.registers.sp == 0xFFFE
    ensures r == cpu.(registers := r.registers)
  {
    cpu.(registers := NewRegisters().(sp := 0xFFFE, pc := 0x100))
  }

  /** Right after a reset the stack has room: any word but the trap word can be pushed. */
  lemma PushAfterReset(cpu: Cpu, value: u16)
    requires value != PUSH_TRAP
    ensures PushWord(Reset(cpu), value).Ok?
    ensures PushWord(Reset(cpu), value).value.registers.sp == 0xFFFC
  {
  }

  /** One bus read: one cycle, fatal outside the RAM array. */
  function LoadByte(cpu: Cpu, address: u16): (r: Result<Loaded<u8>>)
    ensures r.Ok? <==> address < RAM_SIZE
    ensures r.Ok? ==> r.value == Loaded(Byte(cpu, address), Tick(cpu, 1))
    ensures r.Fatal? ==> r.fault == OutOfBounds(address)
  {
    if address < RAM_SIZE then Ok(Loaded(Load(cpu.memory, address), Tick(cpu, 1)))
    else Fatal(OutOfBounds(address))
  }

  /** One bus write: one cycle, one byte changed, fatal outside the RAM array. */
  function StoreByte(cpu: Cpu, address: u16, value: u8): (r: Result<Cpu>)
    ensures r.Ok? <==> address < RAM_SIZE
    ensures r.Ok? ==> Byte(r.value, address) == value
    ensures r.Ok? ==> SameMemoryExcept(r.value, cpu, {address})
    ensures r.Ok? ==> r.value == Tick(cpu, 1).(memory := r.value.memory)
    ensures r.Fatal? ==> r.fault == OutOfBounds(address)
  {
    if address < RAM_SIZE then Ok(Tick(cpu, 1).(memory := Store(cpu.memory, address, value)))
    else Fatal(OutOfBounds(address))
  }

  /** Fetches the operand byte at PC and advances PC by one. */
  function LoadByteAndIncPc(cpu: Cpu): (r: Result<Loaded<u8>>)
    ensures r.Ok? <==> cpu.registers.pc < RAM_SIZE
    ensures r.Ok? ==> r.value.value == Byte(cpu, cpu.registers.pc)
    ensures r.Ok? ==> r.value.cpu == Tick(WithPc(cpu, cpu.registers.pc + 1), 1)
  {
    var pc := cpu.registers.pc;
    LoadByte(WithPc(cpu, (pc + 1) % 0x1_0000), pc)
  }

  /** Reads the byte at SP and moves SP up by one. */
  function PopByte(cpu: Cpu): (r: Result<Loaded<u8>>)
    ensures r.Ok? <==> cpu.registers.sp < RAM_SIZE
    ensures r.Ok? ==> r.value.value == Byte(cpu, cpu.registers.sp)
    ensures r.Ok? ==> r.value.cpu == Tick(WithSp(cpu, cpu.registers.sp + 1), 1)
  {
    var sp := cpu.registers.sp;
    var loaded :- LoadByte(cpu, sp);
    Ok(Loaded(loaded.value, WithSp(loaded.cpu, (sp + 1) % 0x1_0000)))
  }

  /**
    Reads the little-endian word at an address (high byte first, two cycles).
    Both bytes must lie inside the RAM array.
   */
  function LoadWord(cpu: Cpu, address: u16): (r: Result<Loaded<u16>>)
    ensures r.Ok? <==> address + 1 < RAM_SIZE
    ensures r.Ok? ==> r.value.value == Byte(cpu, address) + 0x100 * Byte(cpu, address + 1)
    ensures r.Ok? ==> r.value.cpu == Tick(cpu, 2)
    ensures r.Fatal? ==> r.fault.OutOfBounds?
  {
    var next := (address + 1) % 0x1_0000;
    if next >= RAM_SIZE then Fatal(OutOfBounds(next))
    else if address >= RAM_SIZE then Fatal(OutOfBounds(address))
    else Ok(Loaded(Compose(Load(cpu.memory, next), Load(cpu.memory, address)), Tick(cpu, 2)))
  }

  /** Fetches the word operand at PC and advances PC by two. */
  function LoadWordAndIncPc(cpu: Cpu): (r: Result<Loaded<u16>>)
    ensures r.Ok? <==> cpu.registers.pc + 1 < RAM_SIZE
    ensures r.Ok? ==> r.value.value == Byte(cpu, cpu.registers.pc) + 0x100 * Byte(cpu, cpu.registers.pc + 1)
    ensures r.Ok? ==> r.value.cpu == Tick(WithPc(cpu, cpu.registers.pc + 2), 2)
  {
    var pc := cpu.registers.pc;
    LoadWord(WithPc(cpu, (pc + 2) % 0x1_0000), pc)
  }

  /**
    Writes a word little-endian: low byte at the address, high byte after it.
    The program counts two cycles for the word and one more for each byte.
   */
  function StoreWord(cpu: Cpu, address: u16, value: u16): (r: Result<Cpu>)
    ensures r.Ok? <==> address + 1 < RAM_SIZE
    ensures r.Ok? ==> Byte(r.value, address) == value % 0x100
    ensures r.Ok? ==> Byte(r.value, address + 1) == value / 0x100
    ensures r.Ok? ==> SameMemoryExcept(r.value, cpu, {address, address + 1})
    ensures r.Ok? ==> r.value == Tick(cpu, 4).(memory := r.value.memory)
    ensures r.Fatal? ==> r.fault.OutOfBounds?
  {
    var low, high := value % 0x100, value / 0x100;
    var c1 :- StoreByte(Tick(cpu, 2), address, low);
    StoreByte(c1, (address + 1) % 0x1_0000, high)
  }

  /**
    Pushes a word: SP drops by two (wrapping) and the word is stored
    little-endian at the new SP, so the low byte sits at SP-2 and the high
    byte at SP-1.  Fatal when SP is 0 or 1, where the store leaves RAM, and
    for the trap word, which stops the emulator before anything is written.
   */
  function PushWord(cpu: Cpu, value: u16): (r: Result<Cpu>)
    ensures value == PUSH_TRAP ==> r == Fatal(PushTrap)
    ensures r.Ok? <==> cpu.registers.sp >= 2 && value != PUSH_TRAP
    ensures r.Ok? ==> r.value.registers == cpu.registers.(sp := cpu.registers.sp - 2)
    ensures r.Ok? ==> Byte(r.value, cpu.registers.sp - 2) == value % 0x100
    ensures r.Ok? ==> Byte(r.value, cpu.registers.sp - 1) == value / 0x100
    ensures r.Ok? ==> SameMemoryExcept(r.value, cpu, {cpu.registers.sp - 2, cpu.registers.sp - 1})
    ensures r.Ok? ==> r.value == Tick(cpu, 4).(registers := r.value.registers, memory := r.value.memory)
    ensures r.Fatal? ==> r.fault.OutOfBounds? || r.fault == PushTrap
  {
    if value == PUSH_TRAP then Fatal(PushTrap) else
    var sp := (cpu.registers.sp - 2) % 0x1_0000;
    var stored :- StoreWord(cpu, sp, value);
    Ok(WithSp(stored, sp))
  }

  /** Pops a word: reads the little-endian word at SP, then SP rises by two. */
  function PopWord(cpu: Cpu): (r: Result<Loaded<u16>>)
    ensures r.Ok? <==> cpu.registers.sp + 1 < RAM_SIZE
    ensures r.Ok? ==> r.value.value == Byte(cpu, cpu.registers.sp) + 0x100 * Byte(cpu, cpu.registers.sp + 1)
    ensures r.Ok? ==> r.value.cpu == Tick(WithSp(cpu, cpu.registers.sp + 2), 2)
    ensures r.Fatal? ==> r.fault.OutOfBounds?
  {
    var sp := cpu.registers.sp;
    var loaded :- LoadWord(cpu, sp);
    Ok(Loaded(loaded.value, WithSp(loaded.cpu, (sp + 2) % 0x1_0000)))
  }

  /**
    A push followed by a pop returns the pushed word and restores SP and every
    other register; the push succeeds whenever SP is at least 2 and the word
    is not the trap word.
   */
  lemma PushThenPop(cpu: Cpu, value: u16)
    requires cpu.registers.sp >= 2 && value != PUSH_TRAP
    ensures PushWord(cpu, value).Ok?
    ensures PopWord(PushWord(cpu, value).value).Ok?
    ensures PopWord(PushWord(cpu, value).value).value.value == value
    ensures PopWord(PushWord(cpu, value).value).value.cpu.registers == cpu.registers
  {
    var pushed := PushWord(cpu, value).value;
    var sp := cpu.registers.sp;
    assert Byte(pushed, sp - 2) + 0x100 * Byte(pushed, sp - 1) == value;
  }

  /** A word stored at an address reads back unchanged. */
  lemma StoreWordThenLoadWord(cpu: Cpu, address: u16, value: u16)
    requires address + 1 < RAM_SIZE
    ensures StoreWord(cpu, address, value).Ok?
    ensures LoadWord(StoreWord(cpu, address, value).value, address).Ok?
    ensures LoadWord(StoreWord(cpu, address, value).value, address).value.value == value
  {
  }
}
