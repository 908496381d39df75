/**
  The register file: eight 8-bit registers, the program counter and the stack
  pointer.  The pairs AF, BC, DE and HL are not stored; they are composed from
  their two halves on every access.  The top nibble of F holds the flags.
 */
module RegisterFile {
  import opened Bits

  const ZERO_FLAG: u8 := 0x80
  const SUB_FLAG: u8 := 0x40
  const HALF_CARRY_FLAG: u8 := 0x20
  const CARRY_FLAG: u8 := 0x10

  datatype Register8 = A | B | C | D | E | F | H | L

  datatype Register16 = AF | BC | DE | HL | SP

  datatype Registers = Registers(
    a: u8, b: u8, c: u8, d: u8, e: u8, f: u8, h: u8, l: u8,
    pc: u16, sp: u16)

  /** A freshly created register file. */
  function NewRegisters(): (r: Registers)
    ensures forall reg :: Load8(r, reg) == 0
    ensures r.pc == 0 && r.sp == 0
  {
    Registers(0, 0, 0, 0, 0, 0, 0, 0, 0, 0)
  }

  function Load8(regs: Registers, reg: Register8): u8
  {
    match reg
    case A => regs.a
    case B => regs.b
    case C => regs.c
    case D => regs.d
    case E => regs.e
    case F => regs.f
    case H => regs.h
    case L => regs.l
  }

  /** Writing one 8-bit register changes that register and nothing else. */
  function Store8(regs: Registers, reg: Register8, value: u8): (r: Registers)
    ensures Load8(r, reg) == value
    ensures forall other :: other != reg ==> Load8(r, other) == Load8(regs, other)
    ensures r.pc == regs.pc && r.sp == regs.sp
    ensures reg != F ==> r.f == regs.f
  {
    match reg
    case A => regs.(a := value)
    case B => regs.(b := value)
    case C => regs.(c := value)
    case D => regs.(d := value)
    case E => regs.(e := value)
    case F => regs.(f := value)
    case H => regs.(h := value)
    case L => regs.(l := value)
  }

  /**
    `((high as u16) << 8) | (low as u16)`: the two bytes occupy disjoint bit
    ranges, so the OR is a sum.  Splitting the word recovers both bytes.
   */
  function Compose(high: u8, low: u8): (w: u16)
    ensures w / 0x100 == high && w % 0x100 == low
  {
    high * 0x100 + low
  }

  /** The value of a pair (high register first), or of SP. */
  function Load16(regs: Registers, pair: Register16): (w: u16)
  {
    match pair
    case AF => Compose(regs.a, regs.f)
    case BC => Compose(regs.b, regs.c)
    case DE => Compose(regs.d, regs.e)
    case HL => Compose(regs.h, regs.l)
    case SP => regs.sp
  }

  /**
    Writing a pair assigns its high byte to the first register, its low byte
    to the second; the pair then reads back the value, and no other register
    (nor PC, nor SP unless it is the target) changes.
   */
  function Store16(regs: Registers, pair: Register16, value: u16): (r: Registers)
    ensures Load16(r, pair) == value
    ensures forall reg :: reg !in Halves(pair) ==> Load8(r, reg) == Load8(regs, reg)
    ensures r.pc == regs.pc
    ensures pair != SP ==> r.sp == regs.sp
  {
    var high, low := value / 0x100, value % 0x100;
    match pair
    case AF => regs.(a := high, f := low)
    case BC => regs.(b := high, c := low)
    case DE => regs.(d := high, e := low)
    case HL => regs.(h := high, l := low)
    case SP => regs.(sp := value)
  }

  /** The registers a pair is made of (SP is its own storage). */
  function Halves(pair: Register16): set<Register8>
  {
    match pair
    case AF => {A, F}
    case BC => {B, C}
    case DE => {D, E}
    case HL => {H, L}
    case SP => {}
  }

  /**
    A pair store followed by a load of the same pair returns the stored word;
    it writes exactly the pair's two backing registers (or SP) and keeps PC.
   */
  lemma StorePairRoundTrip(regs: Registers, pair: Register16, value: u16)
    ensures Load16(Store16(regs, pair, value), pair) == value
    ensures forall reg :: reg !in Halves(pair) ==>
      Load8(Store16(regs, pair, value), reg) == Load8(regs, reg)
    ensures Store16(regs, pair, value).pc == regs.pc
    ensures pair != SP ==> Store16(regs, pair, value).sp == regs.sp
  {
  }

  /** Storing a pair's own value back leaves the register file unchanged. */
  lemma StorePairOwnValue(regs: Registers, pair: Register16)
    ensures Store16(regs, pair, Load16(regs, pair)) == regs
  {
  }

  /** Rust `f & mask != 0`: for the Zero and Carry masks, whether bit 7 or bit 4 of F is set. */
  function TestFlag(regs: Registers, mask: u8): (isSet: bool)
    ensures mask == ZERO_FLAG ==> (isSet <==> Bit(regs.f, 7))
    ensures mask == CARRY_FLAG ==> (isSet <==> Bit(regs.f, 4))
  {
    assert Pow2(7) == ZERO_FLAG && Pow2(4) == CARRY_FLAG;
    AndPow2(regs.f, 7);
    AndPow2(regs.f, 4);
    And8(regs.f, mask) != 0
  }

  /** The Zero flag is bit 7 of F. */
  function ZeroFlag(regs: Registers): (z: bool)
    ensures z <==> Bit(regs.f, 7)
  {
    TestFlag(regs, ZERO_FLAG)
  }

  /** The Carry flag is bit 4 of F. */
  function CarryFlag(regs: Registers): (cy: bool)
    ensures cy <==> Bit(regs.f, 4)
  {
    TestFlag(regs, CARRY_FLAG)
  }

  /** The Carry flag as the number 0 or 1. */
  function Carry(regs: Registers): (n: u8)
    ensures n == 1 <==> CarryFlag(regs)
    ensures n <= 1
  {
    if CarryFlag(regs) then 1 else 0
  }

  /**
    `f |= ZERO_FLAG` when the condition holds, `f &= !ZERO_FLAG` otherwise:
    bit 7 of F becomes the condition and every other bit of F is kept.
   */
  function SetZero(regs: Registers, condition: bool): (r: Registers)
    ensures Bit(r.f, 7) == condition
    ensures forall i: nat :: i != 7 ==> (Bit(r.f, i) <==> Bit(regs.f, i))
    ensures r == regs.(f := r.f)
  {
    assert Pow2(7) == ZERO_FLAG;
    regs.(f := WithBit(regs.f, 7, condition))
  }

  /** The analogue of `SetZero` for the Carry flag, bit 4 of F. */
  function SetCarry(regs: Registers, condition: bool): (r: Registers)
    ensures Bit(r.f, 4) == condition
    ensures forall i: nat :: i != 4 ==> (Bit(r.f, i) <==> Bit(regs.f, i))
    ensures r == regs.(f := r.f)
  {
    assert Pow2(4) == CARRY_FLAG;
    regs.(f := WithBit(regs.f, 4, condition))
  }

  /** The four flag masks are distinct single bits of the upper nibble of F. */
  lemma FlagMasks()
    ensures forall i: nat :: Bit(ZERO_FLAG, i) <==> i == 7
    ensures forall i: nat :: Bit(SUB_FLAG, i) <==> i == 6
    ensures forall i: nat :: Bit(HALF_CARRY_FLAG, i) <==> i == 5
    ensures forall i: nat :: Bit(CARRY_FLAG, i) <==> i == 4
  {
    assert Pow2(7) == ZERO_FLAG && Pow2(6) == SUB_FLAG;
    assert Pow2(5) == HALF_CARRY_FLAG && Pow2(4) == CARRY_FLAG;
    forall i: nat ensures (Bit(ZERO_FLAG, i) <==> i == 7) && (Bit(SUB_FLAG, i) <==> i == 6) {
      BitOfPow2(7, i);
      BitOfPow2(6, i);
    }
    forall i: nat ensures (Bit(HALF_CARRY_FLAG, i) <==> i == 5) && (Bit(CARRY_FLAG, i) <==> i == 4) {
      BitOfPow2(5, i);
      BitOfPow2(4, i);
    }
  }

  /**
    Clearing F and then setting Zero from a condition (as AND, OR, XOR and
    SWAP do) leaves F equal to exactly ZERO_FLAG or 0.
   */
  lemma ZeroOnlyFlags(regs: Registers, condition: bool)
    ensures SetZero(regs.(f := 0), condition).f == if condition then ZERO_FLAG else 0
  {
    var r := SetZero(regs.(f := 0), condition);
    assert Pow2(8) == 0x100;
    var expected: u8 := if condition then ZERO_FLAG else 0;
    forall i: nat | i < 8 ensures Bit(r.f, i) <==> Bit(expected, i) {
      NoBitOfZero(i);
      FlagMasks();
    }
    BitsDetermineValue(r.f, expected, 8);
  }
}
