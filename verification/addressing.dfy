/**
  The storage abstraction: one load/store interface over the operand kinds an
  instruction can name — the immediate byte at PC, an 8-bit register, memory
  addressed by a register pair (or SP), and the indirect forms through BC, DE,
  HL, the zero page 0xFF00 | n with n fetched at PC, and 0xFF00 | C.
 */
module Addressing {
  import opened Bits
  import opened Faults
  import opened RegisterFile
  import MainMemory
  import opened Machine

  datatype IndirectMode = ViaBC | ViaDE | ViaHL | ZeroPage | ZeroPageRegC

  datatype Storage =
    | Immediate
    | Indirect(mode: IndirectMode)
    | Reg8(reg: Register8)
    | Reg16(pair: Register16)

  /** Storages whose address is the value of a register pair (or SP). */
  predicate UsesPair(s: Storage)
  {
    s.Reg16? || (s.Indirect? && s.mode in {ViaBC, ViaDE, ViaHL})
  }

  function PairOf(s: Storage): Register16
    requires UsesPair(s)
  {
    match s
    case Reg16(pair) => pair
    case Indirect(mode) =>
      match mode
      case ViaBC => BC
      case ViaDE => DE
      case _ => HL
  }

  /**
    The address an indirect operand names.  The zero-page form consumes its
    offset byte at PC, exactly once, whether the access is a load or a store.
   */
  function IndirectAddress(cpu: Cpu, mode: IndirectMode): (r: Result<Loaded<u16>>)
    ensures mode in {ViaBC, ViaDE, ViaHL} ==>
      r == Ok(Loaded(Load16(cpu.registers, PairOf(Indirect(mode))), cpu))
    ensures mode == ZeroPageRegC ==>
      && r.Ok? && r.value.cpu == cpu
      && r.value.value / 0x100 == 0xFF && r.value.value % 0x100 == cpu.registers.c
    ensures mode == ZeroPage ==>
      && (r.Ok? <==> cpu.registers.pc < MainMemory.RAM_SIZE)
      && (r.Ok? ==> r.value.value / 0x100 == 0xFF)
      && (r.Ok? ==> r.value.value % 0x100 == Byte(cpu, cpu.registers.pc))
      && (r.Ok? ==> r.value.cpu == Tick(WithPc(cpu, cpu.registers.pc + 1), 1))
  {
    var regs := cpu.registers;
    match mode
    case ViaBC => Ok(Loaded(Load16(regs, BC), cpu))
    case ViaDE => Ok(Loaded(Load16(regs, DE), cpu))
    case ViaHL => Ok(Loaded(Load16(regs, HL), cpu))
    case ZeroPage =>
      var offset :- LoadByteAndIncPc(cpu);
      // 0xFF00 | n: n occupies only the low byte
      Ok(Loaded(0xFF00 + offset.value, offset.cpu))
    case ZeroPageRegC => Ok(Loaded(0xFF00 + regs.c, cpu))
  }

  /** Reads the byte a storage names. */
  function Load(s: Storage, cpu: Cpu): (r: Result<Loaded<u8>>)
    ensures r.Ok? ==> SameControl(r.value.cpu, cpu) && r.value.cpu.memory == cpu.memory
    ensures s.Immediate? ==>
      && (r.Ok? <==> cpu.registers.pc < MainMemory.RAM_SIZE)
      && (r.Ok? ==> r.value.value == Byte(cpu, cpu.registers.pc))
      && (r.Ok? ==> r.value.cpu == Tick(WithPc(cpu, cpu.registers.pc + 1), 1))
    ensures s.Reg8? ==> r == Ok(Loaded(Load8(cpu.registers, s.reg), cpu))
    ensures UsesPair(s) ==>
      var address := Load16(cpu.registers, PairOf(s));
      && (r.Ok? <==> address < MainMemory.RAM_SIZE)
      && (r.Ok? ==> r.value == Loaded(Byte(cpu, address), Tick(cpu, 1)))
    ensures s == Indirect(ZeroPageRegC) ==>
      && (r.Ok? <==> 0xFF00 + cpu.registers.c < MainMemory.RAM_SIZE)
      && (r.Ok? ==> r.value == Loaded(Byte(cpu, 0xFF00 + cpu.registers.c), Tick(cpu, 1)))
    ensures s == Indirect(ZeroPage) ==>
      var pc := cpu.registers.pc;
      && (r.Ok? <==> pc < MainMemory.RAM_SIZE && 0xFF00 + Byte(cpu, pc) < MainMemory.RAM_SIZE)
      && (r.Ok? ==> r.value.value == Byte(cpu, 0xFF00 + Byte(cpu, pc)))
      && (r.Ok? ==> r.value.cpu == Tick(WithPc(cpu, pc + 1), 2))
  {
    match s
    case Immediate => LoadByteAndIncPc(cpu)
    case Indirect(mode) =>
      var address :- IndirectAddress(cpu, mode);
      LoadByte(address.cpu, address.value)
    case Reg8(reg) => Ok(Loaded(Load8(cpu.registers, reg), cpu))
    case Reg16(pair) => LoadByte(cpu, Load16(cpu.registers, pair))
  }

  /**
    Writes the byte a storage names.  The immediate operand is load-only, so
    storing into it is fatal.
   */
  function Store(s: Storage, cpu: Cpu, value: u8): (r: Result<Cpu>)
    ensures r.Ok? ==> SameControl(r.value, cpu)
    ensures s.Immediate? ==> r == Fatal(ImpossibleStorage)
    ensures s.Reg8? ==> r.Ok? && r.value == cpu.(registers := Store8(cpu.registers, s.reg, value))
    ensures UsesPair(s) ==>
      var address := Load16(cpu.registers, PairOf(s));
      && (r.Ok? <==> address < MainMemory.RAM_SIZE)
      && (r.Ok? ==> Byte(r.value, address) == value)
      && (r.Ok? ==> SameMemoryExcept(r.value, cpu, {address}))
      && (r.Ok? ==> r.value == Tick(cpu, 1).(memory := r.value.memory))
    ensures s == Indirect(ZeroPageRegC) ==>
      var address := 0xFF00 + cpu.registers.c;
      && (r.Ok? <==> address < MainMemory.RAM_SIZE)
      && (r.Ok? ==> Byte(r.value, address) == value)
      && (r.Ok? ==> SameMemoryExcept(r.value, cpu, {address}))
      && (r.Ok? ==> r.value == Tick(cpu, 1).(memory := r.value.memory))
    ensures s == Indirect(ZeroPage) ==>
      var pc := cpu.registers.pc;
      && (r.Ok? <==> pc < MainMemory.RAM_SIZE && 0xFF00 + Byte(cpu, pc) < MainMemory.RAM_SIZE)
      && (r.Ok? ==> Byte(r.value, 0xFF00 + Byte(cpu, pc)) == value)
      && (r.Ok? ==> SameMemoryExcept(r.value, cpu, {0xFF00 + Byte(cpu, pc)}))
      && (r.Ok? ==> r.value == Tick(WithPc(cpu, pc + 1), 2).(memory := r.value.memory))
  {
    match s
    case Immediate => Fatal(ImpossibleStorage)
    case Indirect(mode) =>
      var address :- IndirectAddress(cpu, mode);
      StoreByte(address.cpu, address.value, value)
    case Reg8(reg) => Ok(cpu.(registers := Store8(cpu.registers, reg, value)))
    case Reg16(pair) => StoreByte(cpu, Load16(cpu.registers, pair), value)
  }

  /**
    For every storage that fetches nothing at PC, a successful store followed
    by a load of the same storage returns the stored byte.  A register store
    changes only that register and no memory.
   */
  lemma StoreThenLoad(s: Storage, cpu: Cpu, value: u8)
    requires !s.Immediate? && s != Indirect(ZeroPage)
    requires Store(s, cpu, value).Ok?
    ensures Load(s, Store(s, cpu, value).value).Ok?
    ensures Load(s, Store(s, cpu, value).value).value.value == value
    ensures s.Reg8? ==> Store(s, cpu, value).value.memory == cpu.memory
  {
    var stored := Store(s, cpu, value).value;
    if UsesPair(s) {
      assert stored.registers == cpu.registers;
    }
  }
}
