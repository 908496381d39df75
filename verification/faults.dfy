/**
  The ways the emulator stops.  The program panics on each of these; the model
  returns them as the failure half of a `Result`, so no step can continue after
  one.
 */
module Faults {
  import opened Bits

  datatype Fault =
    /** One of the eleven opcodes the processor does not define. */
    | IllegalOpcode(opcode: u8)
    /** STOP (0x10) is not emulated. */
    | Stop
    /** DAA (0x27) is not emulated. */
    | DecimalAdjust
    /** A CB-prefixed opcode outside the handful the table implements. */
    | CbUnimplemented(opcode: u8)
    /** A store through a load-only storage (the immediate operand). */
    | ImpossibleStorage
    /** A debugging trap: pushing the word 0xF0C9 stops the emulator. */
    | PushTrap
    /** An index past the end of the 0xFFFF-entry RAM array. */
    | OutOfBounds(address: int)
    /** A load from a video register the video unit does not serve. */
    | VideoLoadUnsupported(register: u8)
    /** A store to a video register the video unit does not serve. */
    | VideoStoreUnsupported(register: u8)
    /**
      Not a behaviour of the program: the opcode needs an addressing variant
      (HL with increment or decrement, absolute immediate address) whose code
      is not part of this model.
     */
    | Unmodelled(opcode: u8)

  /** Either the value an operation produced or the fault that stopped it. */
  datatype Result<+T> = Ok(value: T) | Fatal(fault: Fault) {
    predicate IsFailure() {
      Fatal?
    }

    function PropagateFailure<U>(): Result<U>
      requires Fatal?
    {
      Fatal(fault)
    }

    function Extract(): T
      requires Ok?
    {
      value
    }
  }
}
