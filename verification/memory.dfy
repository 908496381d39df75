/**
  Main memory: one flat array of 0xFFFF bytes, indexed by the address.  The
  array has no entry for address 0xFFFF, so every access requires an address
  below RAM_SIZE (the processor-level accessors turn a violation into a fault).
 */
module MainMemory {
  import opened Bits

  const RAM_SIZE: nat := 0xFFFF

  type Bytes = s: seq<u8> | |s| == RAM_SIZE witness seq(RAM_SIZE, _ => 0)

  datatype Ram = Ram(val: Bytes)

  datatype Memory = Memory(ram: Ram)

  /** A new RAM holds zero everywhere. */
  function NewRam(): (r: Ram)
    ensures forall i | 0 <= i < RAM_SIZE :: r.val[i] == 0
  {
    Ram(seq(RAM_SIZE, _ => 0))
  }

  /** A load reads the byte at its address; the array has no byte at 0xFFFF. */
  function RamLoad(ram: Ram, address: u16): (v: u8)
    requires address < RAM_SIZE
    ensures v == ram.val[address]
  {
    ram.val[address]
  }

  /** A store sets the byte at its address and no other byte. */
  function RamStore(ram: Ram, address: u16, value: u8): (r: Ram)
    requires address < RAM_SIZE
    ensures RamLoad(r, address) == value
    ensures forall i | 0 <= i < RAM_SIZE && i != address :: r.val[i] == ram.val[i]
  {
    Ram(ram.val[address := value])
  }

  function NewMemory(): (m: Memory)
    ensures forall i | 0 <= i < RAM_SIZE :: m.ram.val[i] == 0
  {
    Memory(NewRam())
  }

  /** The memory load is the RAM load. */
  function Load(m: Memory, address: u16): (v: u8)
    requires address < RAM_SIZE
    ensures v == m.ram.val[address]
  {
    RamLoad(m.ram, address)
  }

  /** The memory store is the RAM store. */
  function Store(m: Memory, address: u16, value: u8): (r: Memory)
    requires address < RAM_SIZE
    ensures r.ram == RamStore(m.ram, address, value)
  {
    Memory(RamStore(m.ram, address, value))
  }

  /**
    Reading back an address returns the byte last stored there; a store at
    another address does not disturb it.
   */
  lemma LoadAfterStore(m: Memory, address: u16, value: u8, other: u16)
    requires address < RAM_SIZE && other < RAM_SIZE
    ensures Load(Store(m, address, value), other)
         == if other == address then value else Load(m, other)
  {
  }
}
