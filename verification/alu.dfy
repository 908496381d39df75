/**
  The arithmetic and logic core of the instruction set, as functions of the
  register file.  Only the Zero and Carry flags are computed; Subtract and
  Half-Carry are never written.
 */
module Alu {
  import opened Bits
  import opened RegisterFile

  /** The eight operations of the 0x80-0xBF block and of the 0xC6-0xFE immediates. */
  datatype AluOp = AluAdd | AluAdc | AluSub | AluSbc | AluAnd | AluXor | AluOr | AluCp

  /** The carry-in of ADC and SBC: the Carry flag as 0 or 1; 0 for ADD, SUB and CP. */
  function CarryIn(regs: Registers, withCarry: bool): nat
  {
    if withCarry then Carry(regs) else 0
  }

  /** The F bits other than the given ones are as before. */
  ghost predicate OtherFlagsKept(before: Registers, after: Registers, touched: set<nat>)
  {
    forall i: nat :: i !in touched ==> (Bit(after.f, i) <==> Bit(before.f, i))
  }

  /**
    ADD and ADC as the program computes them: A becomes the sum modulo 256
    and Carry is set exactly when the sum reaches 256.  Zero is computed on
    the sum before truncation, so it is set only when A, the operand and the
    carry-in are all zero (0xFF + 0x01 leaves A = 0 with Zero clear).
   */
  function AddOpAsWritten(regs: Registers, value: u8, withCarry: bool): (r: Registers)
    ensures r.a == (regs.a + value + CarryIn(regs, withCarry)) % 0x100
    ensures CarryFlag(r) <==> regs.a + value + CarryIn(regs, withCarry) >= 0x100
    ensures ZeroFlag(r) <==> regs.a + value + CarryIn(regs, withCarry) == 0
    ensures OtherFlagsKept(regs, r, {4, 7})
    ensures r == regs.(a := r.a, f := r.f)
  {
    var sum := (value + regs.a) % 0x1_0000;
    var result := if withCarry then (sum + Carry(regs)) % 0x1_0000 else sum;
    assert result == regs.a + value + CarryIn(regs, withCarry) < 0x200;
    assert result / 0x100 == if result >= 0x100 then 1 else 0;
    // result & 0x100 != 0
    var flagged := SetZero(SetCarry(regs, (result / 0x100) % 2 == 1), result == 0);
    flagged.(a := result % 0x100)
  }

  /**
    ADD and ADC with the Zero flag taken from the 8-bit result, as the
    processor defines it; otherwise the same computation as AddOpAsWritten.
   */
  function AddOp(regs: Registers, value: u8, withCarry: bool): (r: Registers)
    ensures r.a == (regs.a + value + CarryIn(regs, withCarry)) % 0x100
    ensures CarryFlag(r) <==> regs.a + value + CarryIn(regs, withCarry) >= 0x100
    ensures ZeroFlag(r) <==> r.a == 0
    ensures OtherFlagsKept(regs, r, {4, 7})
    ensures r == regs.(a := r.a, f := r.f)
    ensures AddResult(regs, value, CarryIn(regs, withCarry), r)
  {
    var sum := (value + regs.a) % 0x1_0000;
    var result := if withCarry then (sum + Carry(regs)) % 0x1_0000 else sum;
    assert result == regs.a + value + CarryIn(regs, withCarry) < 0x200;
    assert result / 0x100 == if result >= 0x100 then 1 else 0;
    var flagged := SetZero(SetCarry(regs, (result / 0x100) % 2 == 1), result % 0x100 == 0);
    flagged.(a := result % 0x100)
  }

  /**
    SUB, SBC and CP as the program computes them: the difference
    A - operand - carry-in modulo 256, with Carry set exactly on a borrow (A
    below operand + carry-in).  Zero is computed on the 16-bit difference, so
    it is set exactly when A equals operand + carry-in, and not when the
    difference is -256 (A = 0, operand 0xFF, carry-in 1), whose low byte is 0.
    Returns the flag-updated registers and the difference; A itself is not
    written here.
   */
  function SubOpAsWritten(regs: Registers, value: u8, withCarry: bool): (r: (Registers, u8))
    ensures r.1 == (regs.a - value - CarryIn(regs, withCarry)) % 0x100
    ensures CarryFlag(r.0) <==> regs.a < value + CarryIn(regs, withCarry)
    ensures ZeroFlag(r.0) <==> regs.a == value + CarryIn(regs, withCarry)
    ensures OtherFlagsKept(regs, r.0, {4, 7})
    ensures r.0 == regs.(f := r.0.f)
  {
    var result := WrappingDifference(regs.a, value, Carry(regs), withCarry);
    var exact := regs.a - value - CarryIn(regs, withCarry);
    assert exact < 0 ==> result / 0x100 == 0xFF;
    assert exact >= 0 ==> result / 0x100 == 0;
    assert result % 0x100 == exact % 0x100;
    // result & 0x100 != 0
    var flagged := SetZero(SetCarry(regs, (result / 0x100) % 2 == 1), result == 0);
    (flagged, result % 0x100)
  }

  /**
    SUB, SBC and CP with the Zero flag taken from the 8-bit difference, as
    the processor defines it; otherwise the same computation as
    SubOpAsWritten.
   */
  function SubOp(regs: Registers, value: u8, withCarry: bool): (r: (Registers, u8))
    ensures r.1 == (regs.a - value - CarryIn(regs, withCarry)) % 0x100
    ensures CarryFlag(r.0) <==> regs.a < value + CarryIn(regs, withCarry)
    ensures ZeroFlag(r.0) <==> r.1 == 0
    ensures OtherFlagsKept(regs, r.0, {4, 7})
    ensures r.0 == regs.(f := r.0.f)
  {
    var result := WrappingDifference(regs.a, value, Carry(regs), withCarry);
    var exact := regs.a - value - CarryIn(regs, withCarry);
    assert exact < 0 ==> result / 0x100 == 0xFF;
    assert exact >= 0 ==> result / 0x100 == 0;
    assert result % 0x100 == exact % 0x100;
    var flagged := SetZero(SetCarry(regs, (result / 0x100) % 2 == 1), result % 0x100 == 0);
    (flagged, result % 0x100)
  }

  /**
    The corrected ADD/ADC differs from the program's only in the Zero flag,
    and only when the sum is exactly 256: A wraps to 0 but the program leaves
    Zero clear.
   */
  lemma AddZeroFlagDiscrepancy(regs: Registers, value: u8, withCarry: bool)
    ensures AddOpAsWritten(regs, value, withCarry).a == AddOp(regs, value, withCarry).a
    ensures CarryFlag(AddOpAsWritten(regs, value, withCarry)) <==> CarryFlag(AddOp(regs, value, withCarry))
    ensures (ZeroFlag(AddOpAsWritten(regs, value, withCarry)) != ZeroFlag(AddOp(regs, value, withCarry)))
        <==> regs.a + value + CarryIn(regs, withCarry) == 0x100
  {
    var sum := regs.a + value + CarryIn(regs, withCarry);
    var written, corrected := AddOpAsWritten(regs, value, withCarry), AddOp(regs, value, withCarry);
    WrappedZero(sum, ZeroFlag(written), ZeroFlag(corrected), corrected.a);
  }

  /**
    Zero taken on a sum below 512 and Zero taken on its low byte disagree
    exactly when the sum is 256.
   */
  lemma WrappedZero(sum: nat, wideZero: bool, byteZero: bool, low: u8)
    requires sum < 0x200 && low == sum % 0x100
    requires wideZero <==> sum == 0
    requires byteZero <==> low == 0
    ensures wideZero != byteZero <==> sum == 0x100
  {
  }

  /**
    The corrected SUB/SBC/CP differs from the program's only in the Zero
    flag, and only when the exact difference is -256.
   */
  lemma SubZeroFlagDiscrepancy(regs: Registers, value: u8, withCarry: bool)
    ensures SubOpAsWritten(regs, value, withCarry).1 == SubOp(regs, value, withCarry).1
    ensures CarryFlag(SubOpAsWritten(regs, value, withCarry).0) <==> CarryFlag(SubOp(regs, value, withCarry).0)
    ensures (ZeroFlag(SubOpAsWritten(regs, value, withCarry).0) != ZeroFlag(SubOp(regs, value, withCarry).0))
        <==> regs.a - value - CarryIn(regs, withCarry) == -0x100
  {
    var exact := regs.a - value - CarryIn(regs, withCarry);
    var written, corrected := SubOpAsWritten(regs, value, withCarry), SubOp(regs, value, withCarry);
    WrappedDifferenceZero(exact, ZeroFlag(written.0), ZeroFlag(corrected.0), corrected.1);
  }

  /**
    Without a carry-in the difference cannot reach -256, so the program's
    SUB and CP compute exactly what the corrected ones do.
   */
  lemma SubWithoutCarryAgrees(regs: Registers, value: u8)
    ensures SubOpAsWritten(regs, value, false) == SubOp(regs, value, false)
  {
    var written, corrected := SubOpAsWritten(regs, value, false), SubOp(regs, value, false);
    SubZeroFlagDiscrepancy(regs, value, false);
    assert Pow2(8) == 0x100;
    forall i: nat | i < 8 ensures Bit(written.0.f, i) <==> Bit(corrected.0.f, i) {
      if i == 7 {
        assert ZeroFlag(written.0) <==> ZeroFlag(corrected.0);
      } else if i == 4 {
        assert CarryFlag(written.0) <==> CarryFlag(corrected.0);
      }
    }
    BitsDetermineValue(written.0.f, corrected.0.f, 8);
  }

  /**
    Zero taken on a difference above -257 and Zero taken on its low byte
    disagree exactly when the difference is -256.
   */
  lemma WrappedDifferenceZero(exact: int, wideZero: bool, byteZero: bool, low: u8)
    requires -0x100 <= exact < 0x100 && low == exact % 0x100
    requires wideZero <==> exact == 0
    requires byteZero <==> low == 0
    ensures wideZero != byteZero <==> exact == -0x100
  {
  }

  /**
    `(a as u16).wrapping_sub(value as u16)`, followed for SBC by a wrapping
    subtraction of the carry: the exact difference, plus 0x10000 when negative.
   */
  function WrappingDifference(a: u8, value: u8, carry: u8, withCarry: bool): (result: u16)
    requires carry <= 1
    ensures var exact := a - value - (if withCarry then carry else 0);
      result == if exact >= 0 then exact else exact + 0x1_0000
  {
    var difference := (a - value) % 0x1_0000;
    assert difference == if a >= value then a - value else a - value + 0x1_0000;
    if withCarry then (difference - carry) % 0x1_0000 else difference
  }

  /**
    The common tail of AND, OR, XOR and SWAP: A (or the operand) gets the
    result, F is cleared and then Zero is set from the result.
   */
  function ClearFlagsSetZero(regs: Registers, result: u8): (r: Registers)
    ensures r.f == if result == 0 then ZERO_FLAG else 0
    ensures r == regs.(f := r.f)
  {
    ZeroOnlyFlags(regs, result == 0);
    SetZero(regs.(f := 0), result == 0)
  }

  /**
    What ADD and ADC leave: A is the sum modulo 256, Carry says whether the
    sum reached 256, Zero says whether A is 0, and the other flag bits and
    registers are kept.
   */
  ghost predicate AddResult(regs: Registers, value: u8, carryIn: nat, r: Registers)
  {
    var sum := regs.a + value + carryIn;
    && r.a == sum % 0x100
    && (CarryFlag(r) <==> sum >= 0x100)
    && (ZeroFlag(r) <==> r.a == 0)
    && OtherFlagsKept(regs, r, {4, 7})
  }

  /**
    What SUB and SBC leave: A is the difference modulo 256, Carry says
    whether A was below the subtrahend (a borrow), Zero says whether A is 0,
    and the other flag bits and registers are kept.
   */
  ghost predicate SubResult(regs: Registers, value: u8, carryIn: nat, r: Registers)
  {
    var subtrahend := value + carryIn;
    && r.a == (regs.a - subtrahend) % 0x100
    && (CarryFlag(r) <==> regs.a < subtrahend)
    && (ZeroFlag(r) <==> r.a == 0)
    && OtherFlagsKept(regs, r, {4, 7})
  }

  /**
    What each accumulator operation leaves.  ADD, ADC, SUB, SBC and CP
    compute Zero and Carry and keep the other flag bits; CP is SUB without
    writing A; AND, XOR and OR act bit by bit on A and clear F before
    setting Zero.
   */
  ghost predicate AluResult(op: AluOp, regs: Registers, value: u8, r: Registers)
  {
    match op
    case AluAdd => AddResult(regs, value, CarryIn(regs, false), r)
    case AluAdc => AddResult(regs, value, CarryIn(regs, true), r)
    case AluSub => SubResult(regs, value, CarryIn(regs, false), r)
    case AluSbc => SubResult(regs, value, CarryIn(regs, true), r)
    case AluCp =>
      && r.a == regs.a
      && (CarryFlag(r) <==> regs.a < value)
      && (ZeroFlag(r) <==> regs.a == value)
      && OtherFlagsKept(regs, r, {4, 7})
    case AluAnd => r.a == And8(regs.a, value) && r.f == (if r.a == 0 then ZERO_FLAG else 0)
    case AluXor => r.a == Xor8(regs.a, value) && r.f == (if r.a == 0 then ZERO_FLAG else 0)
    case AluOr => r.a == Or8(regs.a, value) && r.f == (if r.a == 0 then ZERO_FLAG else 0)
  }

  /**
    The register file after one of the eight accumulator operations: only A
    and F change, as AluResults states.
   */
  function AluRegisters(op: AluOp, regs: Registers, value: u8): (r: Registers)
    ensures r == regs.(a := r.a, f := r.f)
  {
    match op
    case AluAdd => AddOp(regs, value, false)
    case AluAdc => AddOp(regs, value, true)
    case AluSub => Subtracted(regs, value, false)
    case AluSbc => Subtracted(regs, value, true)
    case AluAnd => LogicResult(regs, And8(regs.a, value))
    case AluXor => LogicResult(regs, Xor8(regs.a, value))
    case AluOr => LogicResult(regs, Or8(regs.a, value))
    case AluCp => Compared(regs, value)
  }

  /** SUB and SBC: SubOp's flags with its difference written to A. */
  function Subtracted(regs: Registers, value: u8, withCarry: bool): (r: Registers)
    ensures SubResult(regs, value, CarryIn(regs, withCarry), r)
    ensures r == regs.(a := r.a, f := r.f)
  {
    var (flagged, result) := SubOp(regs, value, withCarry);
    var r := flagged.(a := result);
    assert r.f == flagged.f && ZeroFlag(r) == ZeroFlag(flagged) && CarryFlag(r) == CarryFlag(flagged);
    r
  }

  /** CP: SubOp's flags, with A left as it was. */
  function Compared(regs: Registers, value: u8): (r: Registers)
    ensures r.a == regs.a
    ensures CarryFlag(r) <==> regs.a < value
    ensures ZeroFlag(r) <==> regs.a == value
    ensures OtherFlagsKept(regs, r, {4, 7})
    ensures r == regs.(f := r.f)
  {
    SubOp(regs, value, false).0
  }

  /** AND, XOR and OR: A gets the result, F is cleared and Zero set from it. */
  function LogicResult(regs: Registers, result: u8): (r: Registers)
    ensures r.a == result
    ensures r.f == if result == 0 then ZERO_FLAG else 0
    ensures r == regs.(a := r.a, f := r.f)
  {
    ClearFlagsSetZero(regs, result).(a := result)
  }

  /** Each accumulator operation leaves A and F as AluResult describes. */
  lemma AluResults(op: AluOp, regs: Registers, value: u8)
    ensures AluResult(op, regs, value, AluRegisters(op, regs, value))
  {
    match op
    case AluAdd =>
    case AluAdc =>
    case AluSub =>
    case AluSbc =>
    case AluAnd =>
    case AluXor =>
    case AluOr =>
    case AluCp =>
  }

  /** The accumulator operations neither read nor write PC. */
  lemma AluRegistersIgnorePc(op: AluOp, regs: Registers, value: u8, pc: u16)
    ensures AluRegisters(op, regs.(pc := pc), value) == AluRegisters(op, regs, value).(pc := pc)
  {
    match op
    case AluAdd =>
    case AluAdc =>
    case AluSub =>
    case AluSbc =>
    case AluAnd =>
    case AluXor =>
    case AluOr =>
    case AluCp =>
  }

  /**
    AND, OR and XOR act bit by bit on A and the operand, and leave F equal to
    exactly ZERO_FLAG (result zero) or 0.
   */
  lemma LogicOps(op: AluOp, regs: Registers, value: u8)
    requires op in {AluAnd, AluXor, AluOr}
    ensures var r := AluRegisters(op, regs, value);
      && (forall i: nat :: Bit(r.a, i) <==>
            match op
            case AluAnd => Bit(regs.a, i) && Bit(value, i)
            case AluOr => Bit(regs.a, i) || Bit(value, i)
            case _ => Bit(regs.a, i) != Bit(value, i))
      && r.f == (if r.a == 0 then ZERO_FLAG else 0)
  {
  }

  /** CP sets the flags exactly as SUB does and leaves A alone. */
  lemma CompareIsSubtractWithoutResult(regs: Registers, value: u8)
    ensures AluRegisters(AluCp, regs, value).f == AluRegisters(AluSub, regs, value).f
    ensures AluRegisters(AluCp, regs, value).a == regs.a
    ensures AluRegisters(AluSub, regs, value).a == (regs.a - value) % 0x100
    ensures ZeroFlag(AluRegisters(AluCp, regs, value)) <==> regs.a == value
  {
  }

  /** SUB undoes ADD on A. */
  lemma SubUndoesAdd(regs: Registers, value: u8)
    ensures AluRegisters(AluSub, AluRegisters(AluAdd, regs, value), value).a == regs.a
  {
    var sum := AluRegisters(AluAdd, regs, value);
    assert sum.a == (regs.a + value) % 0x100;
    WrappingRoundTrip(regs.a, value);
  }

  lemma WrappingRoundTrip(a: u8, value: u8)
    ensures ((a + value) % 0x100 - value) % 0x100 == a
  {
    if a + value >= 0x100 {
      assert (a + value) % 0x100 == a + value - 0x100;
    }
  }

  /**
    8-bit INC and DEC: the operand moves by one with wrap-around, Zero
    reflects the new value, and Carry (with every other F bit) is kept.
   */
  function IncOp(regs: Registers, value: u8): (r: (Registers, u8))
    ensures r.1 == (value + 1) % 0x100
    ensures ZeroFlag(r.0) <==> r.1 == 0
    ensures CarryFlag(r.0) <==> CarryFlag(regs)
    ensures OtherFlagsKept(regs, r.0, {7})
    ensures r.0 == regs.(f := r.0.f)
  {
    var result := (value + 1) % 0x100;
    var carry := CarryFlag(regs);
    (SetCarry(SetZero(regs, result == 0), carry), result)
  }

  /**
    From F clear, an 8-bit INC or DEC leaves F equal to exactly ZERO_FLAG or 0,
    depending on the result.
   */
  lemma CountingSetsOnlyZero(regs: Registers, value: u8)
    requires regs.f == 0
    ensures IncOp(regs, value).0.f == if value == 0xFF then ZERO_FLAG else 0
    ensures DecOp(regs, value).0.f == if value == 1 then ZERO_FLAG else 0
  {
    assert (value as int + 1) % 0x100 == 0 <==> value == 0xFF;
    OnlyZeroChanged(regs, IncOp(regs, value).0);
    assert (value as int - 1) % 0x100 == 0 <==> value == 1;
    OnlyZeroChanged(regs, DecOp(regs, value).0);
  }

  /** Starting from F clear, an update that touches only bit 7 leaves ZERO_FLAG or 0. */
  lemma OnlyZeroChanged(before: Registers, after: Registers)
    requires before.f == 0 && OtherFlagsKept(before, after, {7})
    ensures after.f == if ZeroFlag(after) then ZERO_FLAG else 0
  {
    assert Pow2(8) == 0x100;
    FlagMasks();
    var expected: u8 := if ZeroFlag(after) then ZERO_FLAG else 0;
    forall i: nat | i < 8 ensures Bit(after.f, i) <==> Bit(expected, i) {
      NoBitOfZero(i);
    }
    BitsDetermineValue(after.f, expected, 8);
  }

  function DecOp(regs: Registers, value: u8): (r: (Registers, u8))
    ensures r.1 == (value - 1) % 0x100
    ensures ZeroFlag(r.0) <==> r.1 == 0
    ensures CarryFlag(r.0) <==> CarryFlag(regs)
    ensures OtherFlagsKept(regs, r.0, {7})
    ensures r.0 == regs.(f := r.0.f)
  {
    var result := (value - 1) % 0x100;
    var carry := CarryFlag(regs);
    (SetCarry(SetZero(regs, result == 0), carry), result)
  }

  /** DEC undoes INC on the operand and keeps Carry. */
  lemma DecUndoesInc(regs: Registers, value: u8)
    ensures DecOp(IncOp(regs, value).0, IncOp(regs, value).1).1 == value
    ensures CarryFlag(DecOp(IncOp(regs, value).0, IncOp(regs, value).1).0) <==> CarryFlag(regs)
  {
    WrappingRoundTrip(value, 1);
  }

  /**
    16-bit INC and DEC of a pair (or SP): the pair moves by one with
    wrap-around, Zero reflects the new value, Carry is kept, and no register
    outside the pair changes.  (For AF the pair store overwrites the flags.)
   */
  function Inc16Op(regs: Registers, pair: Register16): (r: Registers)
    ensures Load16(r, pair) == (Load16(regs, pair) + 1) % 0x1_0000
    ensures pair != AF ==> (ZeroFlag(r) <==> Load16(r, pair) == 0)
    ensures pair != AF ==> (CarryFlag(r) <==> CarryFlag(regs))
    ensures pair != AF ==> OtherFlagsKept(regs, r, {7})
    ensures forall reg :: reg != F && reg !in Halves(pair) ==> Load8(r, reg) == Load8(regs, reg)
    ensures r.pc == regs.pc
    ensures pair != SP ==> r.sp == regs.sp
  {
    var value := (Load16(regs, pair) + 1) % 0x1_0000;
    var carry := CarryFlag(regs);
    var flagged := SetCarry(SetZero(regs, value == 0), carry);
    StorePairRoundTrip(flagged, pair, value);
    Store16(flagged, pair, value)
  }

  function Dec16Op(regs: Registers, pair: Register16): (r: Registers)
    ensures Load16(r, pair) == (Load16(regs, pair) - 1) % 0x1_0000
    ensures pair != AF ==> (ZeroFlag(r) <==> Load16(r, pair) == 0)
    ensures pair != AF ==> (CarryFlag(r) <==> CarryFlag(regs))
    ensures pair != AF ==> OtherFlagsKept(regs, r, {7})
    ensures forall reg :: reg != F && reg !in Halves(pair) ==> Load8(r, reg) == Load8(regs, reg)
    ensures r.pc == regs.pc
    ensures pair != SP ==> r.sp == regs.sp
  {
    var value := (Load16(regs, pair) - 1) % 0x1_0000;
    var carry := CarryFlag(regs);
    var flagged := SetCarry(SetZero(regs, value == 0), carry);
    StorePairRoundTrip(flagged, pair, value);
    Store16(flagged, pair, value)
  }

  /**
    ADD HL,rr: HL becomes HL + rr modulo 0x10000; F is not touched, nor is any
    register outside HL.
   */
  function AddHlOp(regs: Registers, pair: Register16): (r: Registers)
    ensures Load16(r, HL) == (Load16(regs, HL) + Load16(regs, pair)) % 0x1_0000
    ensures forall reg :: reg !in {H, L} ==> Load8(r, reg) == Load8(regs, reg)
    ensures r.pc == regs.pc && r.sp == regs.sp
  {
    var hl := Load16(regs, HL);
    var value := Load16(regs, pair);
    StorePairRoundTrip(regs, HL, (value + hl) % 0x1_0000);
    Store16(regs, HL, (value + hl) % 0x1_0000)
  }

  /** The two's-complement value of a byte (`b as i8`). */
  function SignExtend(b: u8): (v: int)
    ensures -0x80 <= v < 0x80
    ensures v % 0x100 == b
  {
    if b < 0x80 then b else b - 0x100
  }

  /**
    ADD SP,e: `e as i8 as i16 as u16` is e with its sign bit copied into the
    high byte; the wrapping sum is SP plus the signed offset, modulo 0x10000.
   */
  function AddSignedOffset(sp: u16, offset: u8): (r: u16)
    ensures r == (sp + SignExtend(offset)) % 0x1_0000
  {
    var widened := if offset < 0x80 then offset else offset + 0xFF00;
    (widened + sp) % 0x1_0000
  }

  /**
    RLCA: A rotates left by one; bits 6..0 move up and bit 7 wraps into bit 0
    and into Carry.  Zero is not touched.
   */
  function RlcaOp(regs: Registers): (r: Registers)
    ensures r.a / 2 == regs.a % 0x80 && r.a % 2 == regs.a / 0x80
    ensures CarryFlag(r) <==> regs.a >= 0x80
    ensures OtherFlagsKept(regs, r, {4})
    ensures r == regs.(a := r.a, f := r.f)
  {
    // a.rotate_left(1): the two parts occupy disjoint bits
    var value := (regs.a * 2) % 0x100 + regs.a / 0x80;
    ShiftLeftDropsTopBit(regs.a);
    SetCarry(regs, value % 2 == 1).(a := value)
  }

  /** `a << 1` on a byte: bit 7 falls off and the other bits move up. */
  lemma ShiftLeftDropsTopBit(a: u8)
    ensures (a * 2) % 0x100 == 2 * (a % 0x80)
  {
    assert a == 0x80 * (a / 0x80) + a % 0x80;
  }

  /** RRCA: A rotates right by one; bit 0 wraps into bit 7 and into Carry. */
  function RrcaOp(regs: Registers): (r: Registers)
    ensures r.a % 0x80 == regs.a / 2 && r.a / 0x80 == regs.a % 2
    ensures CarryFlag(r) <==> regs.a % 2 == 1
    ensures OtherFlagsKept(regs, r, {4})
    ensures r == regs.(a := r.a, f := r.f)
  {
    // a.rotate_right(1)
    var value := regs.a / 2 + (regs.a % 2) * 0x80;
    SetCarry(regs, value >= 0x80).(a := value)
  }

  /** RLA: a nine-bit rotation left through Carry. */
  function RlaOp(regs: Registers): (r: Registers)
    ensures r.a / 2 == regs.a % 0x80 && r.a % 2 == Carry(regs)
    ensures CarryFlag(r) <==> regs.a >= 0x80
    ensures OtherFlagsKept(regs, r, {4})
    ensures r == regs.(a := r.a, f := r.f)
  {
    // (a << 1) | carry()
    var value := (regs.a * 2) % 0x100 + Carry(regs);
    ShiftLeftDropsTopBit(regs.a);
    SetCarry(regs, regs.a >= 0x80).(a := value)
  }

  /** RRA: a nine-bit rotation right through Carry. */
  function RraOp(regs: Registers): (r: Registers)
    ensures r.a % 0x80 == regs.a / 2 && r.a / 0x80 == Carry(regs)
    ensures CarryFlag(r) <==> regs.a % 2 == 1
    ensures OtherFlagsKept(regs, r, {4})
    ensures r == regs.(a := r.a, f := r.f)
  {
    // (a >> 1) | (carry() << 7)
    var value := regs.a / 2 + Carry(regs) * 0x80;
    SetCarry(regs, regs.a % 2 == 1).(a := value)
  }

  /** RRCA undoes RLCA, and RRA undoes RLA including the Carry flag. */
  lemma RotationsInvert(regs: Registers)
    ensures RrcaOp(RlcaOp(regs)).a == regs.a
    ensures RraOp(RlaOp(regs)).a == regs.a
    ensures CarryFlag(RraOp(RlaOp(regs))) <==> CarryFlag(regs)
  {
  }

  /** SWAP: `(x >> 4) | (x << 4)` exchanges the two nibbles. */
  function SwapNibbles(x: u8): (r: u8)
    ensures r / 0x10 == x % 0x10 && r % 0x10 == x / 0x10
    ensures r == 0 <==> x == 0
  {
    var high, low := x / 0x10, x % 0x10;
    assert x * 0x10 == 0x100 * high + 0x10 * low;
    assert (x * 0x10) % 0x100 == 0x10 * low;
    x / 0x10 + (x * 0x10) % 0x100
  }

  /** Swapping twice gives the byte back. */
  lemma SwapInvolution(x: u8)
    ensures SwapNibbles(SwapNibbles(x)) == x
  {
  }

  /** BIT n: Zero is set exactly when bit n of the operand is clear. */
  function BitTestOp(regs: Registers, n: nat, value: u8): (r: Registers)
    requires n < 8
    ensures ZeroFlag(r) <==> !Bit(value, n)
    ensures OtherFlagsKept(regs, r, {7})
    ensures r == regs.(f := r.f)
  {
    AndPow2(value, n);
    SetZero(regs, And8(value, Pow2(n)) == 0)
  }

  /** CPL: A becomes its bitwise complement; F is not touched. */
  function CplOp(regs: Registers): (r: Registers)
    ensures forall i: nat :: i < 8 ==> (Bit(r.a, i) <==> !Bit(regs.a, i))
    ensures r == regs.(a := r.a)
  {
    regs.(a := Not8(regs.a))
  }

  /** SCF sets Carry; CCF flips it.  No other bit of F changes. */
  function ScfOp(regs: Registers): (r: Registers)
    ensures CarryFlag(r)
    ensures OtherFlagsKept(regs, r, {4})
    ensures r == regs.(f := r.f)
  {
    SetCarry(regs, true)
  }

  function CcfOp(regs: Registers): (r: Registers)
    ensures CarryFlag(r) <==> !CarryFlag(regs)
    ensures OtherFlagsKept(regs, r, {4})
    ensures r == regs.(f := r.f)
  {
    SetCarry(regs, !CarryFlag(regs))
  }
}
