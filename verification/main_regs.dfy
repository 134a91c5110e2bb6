/**
 * Main-bank registers of the LSM6DSO16IS: addresses, bit-field layouts
 * (least-significant bit first) and the enumerations stored in them,
 * each with its register code and the fallible conversion back from a code.
 */
module MainRegs {
  import opened Bits
  import opened Wrappers

  // Register addresses of the main bank.
  const FUNC_CFG_ACCESS: nat := 0x01
  const PIN_CTRL: nat := 0x02
  const WHO_AM_I: nat := 0x0F
  const CTRL1_XL: nat := 0x10
  const CTRL2_G: nat := 0x11
  const CTRL3_C: nat := 0x12
  const CTRL6_C: nat := 0x15
  const CTRL7_G: nat := 0x16
  const CTRL9_C: nat := 0x18
  const ISPU_INT_STATUS0_MAINPAGE: nat := 0x1A
  const STATUS_REG: nat := 0x1E
  const OUTX_L_A: nat := 0x28
  const STATUS_MASTER_MAINPAGE: nat := 0x39
  const ISPU_DUMMY_CFG_1_L: nat := 0x73
  const ISPU_DUMMY_CFG_4_H: nat := 0x7A

  /** Identifier the device reports in WHO_AM_I. */
  const DEVICE_ID: byte := 0x22

  /** The two I2C addresses the device answers on, selected by its SA0 pin. */
  const I2C_ADD_L: nat := 0x6A
  const I2C_ADD_H: nat := 0x6B

  // FUNC_CFG_ACCESS: bank selection and ISPU reset; reachable from every bank.
  const SW_RESET_ISPU: Field := FieldDesc(1, 1)
  const SHUB_REG_ACCESS: Field := FieldDesc(6, 1)
  const ISPU_REG_ACCESS: Field := FieldDesc(7, 1)
  const FUNC_CFG_ACCESS_LAYOUT: seq<Field> :=
    [FieldDesc(0, 1), SW_RESET_ISPU, FieldDesc(2, 4), SHUB_REG_ACCESS, ISPU_REG_ACCESS]

  // CTRL1_XL: accelerometer full scale and output data rate.
  const FS_XL: Field := FieldDesc(2, 2)
  const ODR_XL: Field := FieldDesc(4, 4)
  const CTRL1_XL_LAYOUT: seq<Field> := [FieldDesc(0, 2), FS_XL, ODR_XL]

  // CTRL2_G: gyroscope full scale (with the separate 125 dps bit) and output data rate.
  const FS_125: Field := FieldDesc(1, 1)
  const FS_G: Field := FieldDesc(2, 2)
  const ODR_G: Field := FieldDesc(4, 4)
  const CTRL2_G_LAYOUT: seq<Field> := [FieldDesc(0, 1), FS_125, FS_G, ODR_G]

  // CTRL6_C and CTRL7_G: high-performance mode disable bits.
  const XL_HM_MODE: Field := FieldDesc(4, 1)
  const CTRL6_C_LAYOUT: seq<Field> := [FieldDesc(0, 4), XL_HM_MODE, FieldDesc(5, 3)]
  const G_HM_MODE: Field := FieldDesc(7, 1)
  const CTRL7_G_LAYOUT: seq<Field> := [FieldDesc(0, 7), G_HM_MODE]

  // CTRL9_C: ISPU block data update and ISPU rate.
  const ISPU_BDU: Field := FieldDesc(0, 2)
  const ISPU_RATE: Field := FieldDesc(4, 4)
  const CTRL9_C_LAYOUT: seq<Field> := [ISPU_BDU, FieldDesc(2, 2), ISPU_RATE]

  // STATUS_REG: data-ready flags.
  const XLDA: Field := FieldDesc(0, 1)
  const GDA: Field := FieldDesc(1, 1)
  const TDA: Field := FieldDesc(2, 1)
  const STATUS_REG_LAYOUT: seq<Field> := [XLDA, GDA, TDA, FieldDesc(3, 4), FieldDesc(7, 1)]

  // STATUS_MASTER_MAINPAGE (and STATUS_MASTER of the sensor-hub bank, same layout).
  const SENS_HUB_ENDOP: Field := FieldDesc(0, 1)
  const SLAVE0_NACK: Field := FieldDesc(3, 1)
  const SLAVE1_NACK: Field := FieldDesc(4, 1)
  const SLAVE2_NACK: Field := FieldDesc(5, 1)
  const SLAVE3_NACK: Field := FieldDesc(6, 1)
  const WR_ONCE_DONE: Field := FieldDesc(7, 1)
  const STATUS_MASTER_LAYOUT: seq<Field> :=
    [SENS_HUB_ENDOP, FieldDesc(1, 2), SLAVE0_NACK, SLAVE1_NACK, SLAVE2_NACK, SLAVE3_NACK, WR_ONCE_DONE]

  /** Every main-bank layout modelled covers its byte exactly. */
  lemma MainLayoutsTile()
    ensures Tiles(FUNC_CFG_ACCESS_LAYOUT) && Tiles(CTRL1_XL_LAYOUT) && Tiles(CTRL2_G_LAYOUT)
    ensures Tiles(CTRL6_C_LAYOUT) && Tiles(CTRL7_G_LAYOUT) && Tiles(CTRL9_C_LAYOUT)
    ensures Tiles(STATUS_REG_LAYOUT) && Tiles(STATUS_MASTER_LAYOUT)
  {
  }

  /** High-performance operating mode; the register bit is a *disable* bit. */
  datatype HighPerformanceMode = HmEnabled | HmDisabled

  function HmCode(m: HighPerformanceMode): (c: byte)
    ensures c <= 1
    ensures c == 1 <==> m == HmDisabled
  {
    match m
    case HmEnabled => 0
    case HmDisabled => 1
  }

  /**
   * A rate code with bits 5-7 clear is bit 4, as the high-performance
   * disable bit, above the low nibble: the split the rate setters perform
   * loses nothing.
   */
  lemma RateCodeSplit(c: byte)
    requires c & 0xE0 == 0
    ensures (HmCode(if c & 0x10 == 0x10 then HmDisabled else HmEnabled) << 4) | (c & 0x0F) == c
  {
    if c & 0x10 == 0x10 {
      assert (1 as byte << 4) | (c & 0x0F) == c;
    } else {
      assert (0 as byte << 4) | (c & 0x0F) == c;
    }
  }

  /** Accelerometer full scale; note the non-monotone codes. */
  datatype XlFullScale = Fs2g | Fs16g | Fs4g | Fs8g

  function XlFullScaleCode(s: XlFullScale): (c: byte)
    ensures c <= 3
  {
    match s
    case Fs2g => 0
    case Fs16g => 1
    case Fs4g => 2
    case Fs8g => 3
  }

  function XlFullScaleFrom(c: byte): (r: Option<XlFullScale>)
    ensures r.Some? ==> XlFullScaleCode(r.value) == c
    ensures r.Some? <==> c <= 3
  {
    if c == 0 then Some(Fs2g)
    else if c == 1 then Some(Fs16g)
    else if c == 2 then Some(Fs4g)
    else if c == 3 then Some(Fs8g)
    else None
  }

  /**
   * The ten output data rates from 12.5 Hz to 6667 Hz; their 4-bit codes
   * 1..10 are shared by the accelerometer, gyroscope and ISPU rate enums.
   */
  datatype Odr = Hz12_5 | Hz26 | Hz52 | Hz104 | Hz208 | Hz416 | Hz833 | Hz1667 | Hz3333 | Hz6667

  function OdrCode(o: Odr): (c: byte)
    ensures 1 <= c <= 10
  {
    match o
    case Hz12_5 => 1
    case Hz26 => 2
    case Hz52 => 3
    case Hz104 => 4
    case Hz208 => 5
    case Hz416 => 6
    case Hz833 => 7
    case Hz1667 => 8
    case Hz3333 => 9
    case Hz6667 => 10
  }

  function OdrFrom(c: byte): (r: Option<Odr>)
    ensures r.Some? ==> OdrCode(r.value) == c
    ensures r.Some? <==> 1 <= c <= 10
  {
    if c == 1 then Some(Hz12_5)
    else if c == 2 then Some(Hz26)
    else if c == 3 then Some(Hz52)
    else if c == 4 then Some(Hz104)
    else if c == 5 then Some(Hz208)
    else if c == 6 then Some(Hz416)
    else if c == 7 then Some(Hz833)
    else if c == 8 then Some(Hz1667)
    else if c == 9 then Some(Hz3333)
    else if c == 10 then Some(Hz6667)
    else None
  }

  lemma OdrRoundTrip(o: Odr)
    ensures OdrFrom(OdrCode(o)) == Some(o)
  {
  }

  /**
   * Accelerometer data rate: bit 4 of the code selects low-power mode (it
   * goes to CTRL6_C.xl_hm_mode) and the low nibble is the ODR field.
   */
  datatype XlDataRate = XlOff | XlHp(odr: Odr) | XlLp(odr: Odr) | Xl1_6HzLp

  function XlDataRateCode(r: XlDataRate): (c: byte)
    ensures c == 0 <==> r.XlOff?
    ensures c & 0xE0 == 0
    ensures (c & 0x10 == 0x10) <==> (r.XlLp? || r.Xl1_6HzLp?)
  {
    match r
    case XlOff => 0
    case XlHp(o) => OdrCode(o)
    case XlLp(o) => 0x10 | OdrCode(o)
    case Xl1_6HzLp => 0x1B
  }

  function XlDataRateFrom(c: byte): (r: Option<XlDataRate>)
    ensures r.Some? ==> XlDataRateCode(r.value) == c
  {
    if c == 0 then Some(XlOff)
    else if c == 0x1B then Some(Xl1_6HzLp)
    else if c & 0xF0 == 0 && OdrFrom(c).Some? then Some(XlHp(OdrFrom(c).value))
    else if c & 0xF0 == 0x10 && OdrFrom(c & 0x0F).Some? then Some(XlLp(OdrFrom(c & 0x0F).value))
    else None
  }

  /** Every rate survives the trip through its code, and the code splits into mode bit and nibble. */
  lemma XlDataRateRoundTrip(r: XlDataRate)
    ensures XlDataRateFrom(XlDataRateCode(r)) == Some(r)
    ensures XlDataRateCode(r) & 0xE0 == 0
    ensures (XlDataRateCode(r) & 0x10 == 0x10) <==> (r.XlLp? || r.Xl1_6HzLp?)
  {
    match r
    case XlOff =>
    case Xl1_6HzLp =>
    case XlHp(o) => OdrRoundTrip(o);
    case XlLp(o) =>
      OdrRoundTrip(o);
      assert (0x10 | OdrCode(o)) & 0x0F == OdrCode(o);
  }

  /** Gyroscope full scale; 125 dps is flagged by bit 4 of the code (CTRL2_G.fs_125). */
  datatype GyFullScale = Dps250 | Dps500 | Dps1000 | Dps2000 | Dps125

  function GyFullScaleCode(s: GyFullScale): (c: byte)
    ensures c <= 3 || c == 0x10
    ensures c == 0x10 <==> s == Dps125
  {
    match s
    case Dps250 => 0
    case Dps500 => 1
    case Dps1000 => 2
    case Dps2000 => 3
    case Dps125 => 0x10
  }

  function GyFullScaleFrom(c: byte): (r: Option<GyFullScale>)
    ensures r.Some? ==> GyFullScaleCode(r.value) == c
    ensures r.Some? <==> (c <= 3 || c == 0x10)
  {
    if c == 0 then Some(Dps250)
    else if c == 1 then Some(Dps500)
    else if c == 2 then Some(Dps1000)
    else if c == 3 then Some(Dps2000)
    else if c == 0x10 then Some(Dps125)
    else None
  }

  lemma GyFullScaleRoundTrip(s: GyFullScale)
    ensures GyFullScaleFrom(GyFullScaleCode(s)) == Some(s)
    ensures GyFullScaleCode(s) & 0xEC == 0
  {
  }

  /** Gyroscope data rate: like the accelerometer's, without the 1.6 Hz rate. */
  datatype GyDataRate = GyOff | GyHp(odr: Odr) | GyLp(odr: Odr)

  function GyDataRateCode(r: GyDataRate): (c: byte)
    ensures c == 0 <==> r.GyOff?
    ensures c & 0xE0 == 0
    ensures (c & 0x10 == 0x10) <==> r.GyLp?
  {
    match r
    case GyOff => 0
    case GyHp(o) => OdrCode(o)
    case GyLp(o) => 0x10 | OdrCode(o)
  }

  function GyDataRateFrom(c: byte): (r: Option<GyDataRate>)
    ensures r.Some? ==> GyDataRateCode(r.value) == c
  {
    if c == 0 then Some(GyOff)
    else if c & 0xF0 == 0 && OdrFrom(c).Some? then Some(GyHp(OdrFrom(c).value))
    else if c & 0xF0 == 0x10 && OdrFrom(c & 0x0F).Some? then Some(GyLp(OdrFrom(c & 0x0F).value))
    else None
  }

  lemma GyDataRateRoundTrip(r: GyDataRate)
    ensures GyDataRateFrom(GyDataRateCode(r)) == Some(r)
    ensures GyDataRateCode(r) & 0xE0 == 0
    ensures (GyDataRateCode(r) & 0x10 == 0x10) <==> r.GyLp?
  {
    match r
    case GyOff =>
    case GyHp(o) => OdrRoundTrip(o);
    case GyLp(o) =>
      OdrRoundTrip(o);
      assert (0x10 | OdrCode(o)) & 0x0F == OdrCode(o);
  }

  /** ISPU interrupt rate, stored in CTRL9_C.ispu_rate. */
  datatype IspuDataRate = IspuOff | IspuAt(odr: Odr)

  function IspuDataRateCode(r: IspuDataRate): (c: byte)
    ensures c <= 10
  {
    match r
    case IspuOff => 0
    case IspuAt(o) => OdrCode(o)
  }

  function IspuDataRateFrom(c: byte): (r: Option<IspuDataRate>)
    ensures r.Some? ==> IspuDataRateCode(r.value) == c
    ensures r.Some? <==> c <= 10
  {
    if c == 0 then Some(IspuOff)
    else if OdrFrom(c).Some? then Some(IspuAt(OdrFrom(c).value))
    else None
  }

  lemma IspuDataRateRoundTrip(r: IspuDataRate)
    ensures IspuDataRateFrom(IspuDataRateCode(r)) == Some(r)
  {
    if r.IspuAt? {
      OdrRoundTrip(r.odr);
    }
  }

  /** Frequency text of an ODR, without its unit. */
  function OdrText(o: Odr): string
  {
    match o
    case Hz12_5 => "12.5"
    case Hz26 => "26"
    case Hz52 => "52"
    case Hz104 => "104"
    case Hz208 => "208"
    case Hz416 => "416"
    case Hz833 => "833"
    case Hz1667 => "1667"
    case Hz3333 => "3333"
    case Hz6667 => "6667"
  }

  /** Human-readable name of an ISPU rate (`to_str`). */
  function IspuDataRateName(r: IspuDataRate): (s: string)
    ensures r.IspuOff? <==> s == "off"
    ensures r.IspuAt? ==> |s| >= 4 && s[|s| - 2..] == "hz"
  {
    match r
    case IspuOff => "off"
    case IspuAt(o) => OdrText(o) + "hz"
  }

  /** Distinct ISPU rates have distinct names. */
  lemma IspuDataRateNameInjective(a: IspuDataRate, b: IspuDataRate)
    requires IspuDataRateName(a) == IspuDataRateName(b)
    ensures a == b
  {
    if a.IspuAt? && b.IspuAt? {
      var sa, sb := OdrText(a.odr), OdrText(b.odr);
      assert sa == IspuDataRateName(a)[..|sa|];
      assert sb == IspuDataRateName(b)[..|sb|];
      assert |sa| == |sb|;
    }
  }

  /** Block data update of the ISPU output registers, stored in CTRL9_C.ispu_bdu. */
  datatype IspuBdu = BduOff | On2b4b | On2b2b | On4b4b

  function IspuBduCode(b: IspuBdu): (c: byte)
    ensures c <= 3
  {
    match b
    case BduOff => 0
    case On2b4b => 1
    case On2b2b => 2
    case On4b4b => 3
  }

  function IspuBduFrom(c: byte): (r: Option<IspuBdu>)
    ensures r.Some? ==> IspuBduCode(r.value) == c
    ensures r.Some? <==> c <= 3
  {
    if c == 0 then Some(BduOff)
    else if c == 1 then Some(On2b4b)
    else if c == 2 then Some(On2b2b)
    else if c == 3 then Some(On4b4b)
    else None
  }
}
