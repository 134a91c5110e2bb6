/**
 * The three register banks and how a bank is encoded in, and decoded from,
 * the two access bits of FUNC_CFG_ACCESS.
 */
module MemBanks {
  import opened Bits
  import opened MainRegs

  /** Main is the resting bank; the other two are entered for a scope only. */
  datatype MemBank = MainMemBank | SensorHubMemBank | IspuMemBank

  /** The enum discriminants of the banks. */
  function BankCode(b: MemBank): (c: byte)
    ensures c == 0 <==> b == MainMemBank
  {
    match b
    case MainMemBank => 0x0
    case SensorHubMemBank => 0x2
    case IspuMemBank => 0x3
  }

  lemma BankCodeInjective(a: MemBank, b: MemBank)
    requires BankCode(a) == BankCode(b)
    ensures a == b
  {
  }

  /** The bits of FUNC_CFG_ACCESS that select a bank. */
  const BANK_BITS: byte := Mask(SHUB_REG_ACCESS) | Mask(ISPU_REG_ACCESS)

  /**
   * The FUNC_CFG_ACCESS byte that selects bank `b`: the sensor-hub bit
   * alone for the sensor-hub bank, the ISPU bit alone for the ISPU bank,
   * neither for Main.
   */
  function SelectByte(b: MemBank): (r: byte)
    ensures Get(r, SHUB_REG_ACCESS) == 1 <==> b == SensorHubMemBank
    ensures Get(r, ISPU_REG_ACCESS) == 1 <==> b == IspuMemBank
    ensures r & !BANK_BITS == 0
    ensures Get(r, SW_RESET_ISPU) == 0
  {
    match b
    case MainMemBank => 0x00
    case SensorHubMemBank => 0x40
    case IspuMemBank => 0x80
  }

  /**
   * The bank a FUNC_CFG_ACCESS byte selects: the sensor-hub bit wins over
   * the ISPU bit, and with neither set the bank is Main.
   */
  function BankOf(r: byte): (b: MemBank)
    ensures b == SensorHubMemBank <==> Get(r, SHUB_REG_ACCESS) == 1
    ensures b == IspuMemBank <==> Get(r, SHUB_REG_ACCESS) == 0 && Get(r, ISPU_REG_ACCESS) == 1
  {
    if Get(r, SHUB_REG_ACCESS) == 1 then SensorHubMemBank
    else if Get(r, ISPU_REG_ACCESS) == 1 then IspuMemBank
    else MainMemBank
  }

  /** The same byte as the driver builds it: both access bits set, in turn, on a zero byte. */
  lemma SelectByteBuilt(b: MemBank)
    ensures var shub: byte := if b == SensorHubMemBank then 1 else 0;
      var ispu: byte := if b == IspuMemBank then 1 else 0;
      SelectByte(b) == Set(Set(0, SHUB_REG_ACCESS, shub), ISPU_REG_ACCESS, ispu)
  {
  }

  /** Decoding the byte written to select a bank yields that bank. */
  lemma BankRoundTrip(b: MemBank)
    ensures BankOf(SelectByte(b)) == b
  {
  }
}
