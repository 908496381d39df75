/**
  The byte interface of the video unit: its LCD registers, reached through the
  I/O register numbers 0x40-0x4B, and its 8 KiB of video RAM.  Rendering is not
  part of this model.
 */
module Video {
  import opened Bits
  import opened Faults

  const VRAM_SIZE: nat := 0x2000
  const OAM_SIZE: nat := 0xA0

  type Vram = s: seq<u8> | |s| == VRAM_SIZE witness seq(VRAM_SIZE, _ => 0)
  type Oam = s: seq<u8> | |s| == OAM_SIZE witness seq(OAM_SIZE, _ => 0)

  datatype Gpu = Gpu(
    lcdControl: u8,
    lcdStatus: u8,
    scrollX: u8,
    scrollY: u8,
    ly: u8,
    lyc: u8,
    bgPalette: u8,
    spritePalette0: u8,
    spritePalette1: u8,
    windowX: u8,
    windowY: u8,
    oam: Oam,
    vram: Vram)

  /** Registers a load serves. */
  const READABLE: set<u8> := {0x40, 0x41, 0x42, 0x43, 0x44, 0x47}

  /** Registers a store serves: the readable ones and the four write-only ones. */
  const WRITABLE: set<u8> := READABLE + {0x48, 0x49, 0x4A, 0x4B}

  /** The power-up state of the video unit. */
  function NewGpu(): (g: Gpu)
    ensures g.lcdControl == 0x91 && g.ly == 0x91 && g.bgPalette == 0xFC
    ensures g.spritePalette0 == 0xFF && g.spritePalette1 == 0xFF
    ensures g.lcdStatus == 0 && g.scrollX == 0 && g.scrollY == 0 && g.lyc == 0
    ensures g.windowX == 0 && g.windowY == 0
    ensures forall i | 0 <= i < OAM_SIZE :: g.oam[i] == 0
    ensures forall i | 0 <= i < VRAM_SIZE :: g.vram[i] == 0
  {
    Gpu(0x91, 0, 0, 0, 0x91, 0, 0xFC, 0xFF, 0xFF, 0, 0,
        seq(OAM_SIZE, _ => 0), seq(VRAM_SIZE, _ => 0))
  }

  /** The field each storable register number names. */
  function RegisterAt(g: Gpu, register: u8): u8
    requires register in WRITABLE
  {
    match register
    case 0x40 => g.lcdControl
    case 0x41 => g.lcdStatus
    case 0x42 => g.scrollX
    case 0x43 => g.scrollY
    case 0x44 => g.ly
    case 0x47 => g.bgPalette
    case 0x48 => g.spritePalette0
    case 0x49 => g.spritePalette1
    case 0x4A => g.windowX
    case _ => g.windowY
  }

  /** Reads an LCD register; any register outside READABLE is fatal. */
  function Load(g: Gpu, register: u8): (r: Result<u8>)
    ensures r.Ok? <==> register in READABLE
    ensures r.Ok? ==> r.value == RegisterAt(g, register)
    ensures r.Fatal? ==> r.fault == VideoLoadUnsupported(register)
  {
    match register
    case 0x40 => Ok(g.lcdControl)
    case 0x41 => Ok(g.lcdStatus)
    case 0x42 => Ok(g.scrollX)
    case 0x43 => Ok(g.scrollY)
    case 0x44 => Ok(g.ly)
    case 0x47 => Ok(g.bgPalette)
    case _ => Fatal(VideoLoadUnsupported(register))
  }

  /**
    Writes an LCD register.  Register 0x44 (the current line) is reset to 0
    whatever the value; any register outside WRITABLE is fatal.
   */
  function Store(g: Gpu, register: u8, value: u8): (r: Result<Gpu>)
    ensures r.Ok? <==> register in WRITABLE
    ensures r.Fatal? ==> r.fault == VideoStoreUnsupported(register)
  {
    match register
    case 0x40 => Ok(g.(lcdControl := value))
    case 0x41 => Ok(g.(lcdStatus := value))
    case 0x42 => Ok(g.(scrollX := value))
    case 0x43 => Ok(g.(scrollY := value))
    case 0x44 => Ok(g.(ly := 0))
    case 0x47 => Ok(g.(bgPalette := value))
    case 0x48 => Ok(g.(spritePalette0 := value))
    case 0x49 => Ok(g.(spritePalette1 := value))
    case 0x4A => Ok(g.(windowX := value))
    case 0x4B => Ok(g.(windowY := value))
    case _ => Fatal(VideoStoreUnsupported(register))
  }

  /**
    A successful store sets its own register (0 for the line register) and
    leaves every other register, LYC, OAM and video RAM as they were.
   */
  lemma StoreFrame(g: Gpu, register: u8, value: u8)
    requires register in WRITABLE
    ensures Store(g, register, value).Ok?
    ensures RegisterAt(Store(g, register, value).value, register)
         == if register == 0x44 then 0 else value
    ensures forall other | other in WRITABLE && other != register ::
      RegisterAt(Store(g, register, value).value, other) == RegisterAt(g, other)
    ensures Store(g, register, value).value.lyc == g.lyc
    ensures Store(g, register, value).value.oam == g.oam
    ensures Store(g, register, value).value.vram == g.vram
  {
  }

  /**
    Load after store: the value comes back for 0x40-0x43 and 0x47, the line
    register reads 0, and the write-only palette and window registers cannot
    be read back.
   */
  lemma LoadAfterStore(g: Gpu, register: u8, value: u8)
    requires register in WRITABLE
    ensures Store(g, register, value).Ok?
    ensures register in {0x40, 0x41, 0x42, 0x43, 0x47} ==>
      Load(Store(g, register, value).value, register) == Ok(value)
    ensures register == 0x44 ==> Load(Store(g, register, value).value, register) == Ok(0)
    ensures 0x48 <= register <= 0x4B ==> Load(Store(g, register, value).value, register).Fatal?
  {
    StoreFrame(g, register, value);
  }

  /** A video RAM load reads the byte at its offset into video RAM. */
  function VramLoad(g: Gpu, address: u16): (v: u8)
    requires address < VRAM_SIZE
    ensures v == g.vram[address]
  {
    g.vram[address]
  }

  /** A video RAM store sets its byte and no other byte of video RAM. */
  function VramStore(g: Gpu, address: u16, value: u8): (r: Gpu)
    requires address < VRAM_SIZE
    ensures VramLoad(r, address) == value
    ensures forall i | 0 <= i < VRAM_SIZE && i != address :: r.vram[i] == g.vram[i]
    ensures r == g.(vram := r.vram)
  {
    g.(vram := g.vram[address := value])
  }
}
