/**
 * ISPU-bank registers: addresses, bit-field layouts, the memory window
 * (a 16-bit address register followed by a one-byte data port) and the
 * enumerations the ISPU operations take.
 */
module IspuRegs {
  import opened Bits

  // Register addresses of the ISPU bank.
  const ISPU_CONFIG: nat := 0x02
  const ISPU_STATUS: nat := 0x04
  const ISPU_MEM_SEL: nat := 0x08
  const ISPU_MEM_ADDR0: nat := 0x09
  const ISPU_MEM_ADDR1: nat := 0x0A
  const ISPU_MEM_DATA: nat := 0x0B
  const ISPU_DOUT_00_L: nat := 0x10
  const ISPU_DOUT_31_H: nat := 0x4F
  const ISPU_INT1_CTRL0: nat := 0x50
  const ISPU_INT2_CTRL0: nat := 0x54
  const ISPU_INT_STATUS0: nat := 0x58

  /** The memory address register is two bytes just below the data port. */
  lemma MemoryWindow()
    ensures ISPU_MEM_ADDR1 == ISPU_MEM_ADDR0 + 1 && ISPU_MEM_DATA == ISPU_MEM_ADDR1 + 1
    ensures ISPU_DOUT_31_H - ISPU_DOUT_00_L + 1 == 64 && ISPU_DOUT_31_H + 1 == ISPU_INT1_CTRL0
  {
  }

  // ISPU_CONFIG.
  const ISPU_RST_N: Field := FieldDesc(0, 1)
  const CLK_DIS: Field := FieldDesc(1, 1)
  const LATCHED: Field := FieldDesc(4, 1)
  const ISPU_CONFIG_LAYOUT: seq<Field> := [ISPU_RST_N, CLK_DIS, FieldDesc(2, 2), LATCHED, FieldDesc(5, 3)]

  // ISPU_STATUS.
  const BOOT_END: Field := FieldDesc(2, 1)
  const ISPU_STATUS_LAYOUT: seq<Field> := [FieldDesc(0, 2), BOOT_END, FieldDesc(3, 5)]

  // ISPU_MEM_SEL.
  const MEM_SEL: Field := FieldDesc(0, 1)
  const READ_MEM_EN: Field := FieldDesc(6, 1)
  const ISPU_MEM_SEL_LAYOUT: seq<Field> := [MEM_SEL, FieldDesc(1, 5), READ_MEM_EN, FieldDesc(7, 1)]

  /**
   * The most significant byte of the 32-bit INT1_CTRL, INT2_CTRL and
   * INT_STATUS registers holds 6 flag bits, so each register carries 30 flags.
   */
  const INT_TOP_FLAGS: Field := FieldDesc(0, 6)
  const INT_TOP_LAYOUT: seq<Field> := [INT_TOP_FLAGS, FieldDesc(6, 2)]

  lemma IspuLayoutsTile()
    ensures Tiles(ISPU_CONFIG_LAYOUT) && Tiles(ISPU_STATUS_LAYOUT) && Tiles(ISPU_MEM_SEL_LAYOUT)
    ensures Tiles(INT_TOP_LAYOUT) && 3 * 8 + INT_TOP_FLAGS.width as nat == 30
  {
  }

  /** Boot control: On = 0 and Off = 1, the value written to both ISPU_CONFIG bits. */
  datatype IspuBootLatched = BootOn | BootOff

  function IspuBootCode(b: IspuBootLatched): (c: byte)
    ensures Fits(ISPU_RST_N, c) && Fits(CLK_DIS, c)
  {
    match b
    case BootOn => 0
    case BootOff => 1
  }

  /** Which ISPU memory the window reaches; the code is ISPU_MEM_SEL.mem_sel. */
  datatype IspuMemoryType = DataRam | ProgramRam

  function MemoryTypeCode(t: IspuMemoryType): (c: byte)
    ensures Fits(MEM_SEL, c)
    ensures c == 1 <==> t == ProgramRam
  {
    match t
    case DataRam => 0
    case ProgramRam => 1
  }

  /**
   * The two bytes of a 16-bit memory address as written to ISPU_MEM_ADDR0
   * and ISPU_MEM_ADDR1; least significant byte first is an assumption about
   * the register macro, which is not part of this model.
   */
  function AddrBytes(a: nat): (bs: seq<byte>)
    requires a < 0x10000
    ensures |bs| == 2
    ensures AddrOf(bs) == a
  {
    [ByteOf(a % 256), ByteOf(a / 256)]
  }

  /** The address held by the two address bytes. */
  function AddrOf(bs: seq<byte>): nat
    requires |bs| == 2
  {
    bs[0] as nat + 256 * bs[1] as nat
  }
}
