/**
 * Sensor-hub bank registers: addresses, the per-slot register triples,
 * bit-field layouts and the enumerations and configuration records the
 * sensor-hub operations take.
 */
module SensorHubRegs {
  import opened Bits
  import opened Wrappers

  // Register addresses of the sensor-hub bank.
  const SENSOR_HUB_1: nat := 0x02
  const SENSOR_HUB_18: nat := 0x13
  const MASTER_CONFIG: nat := 0x14
  const SLV0_ADD: nat := 0x15
  const SLV0_SUBADD: nat := 0x16
  const SLV0_CONFIG: nat := 0x17
  const SLV1_ADD: nat := 0x18
  const SLV1_SUBADD: nat := 0x19
  const SLV1_CONFIG: nat := 0x1A
  const SLV2_ADD: nat := 0x1B
  const SLV2_SUBADD: nat := 0x1C
  const SLV2_CONFIG: nat := 0x1D
  const SLV3_ADD: nat := 0x1E
  const SLV3_SUBADD: nat := 0x1F
  const SLV3_CONFIG: nat := 0x20
  const DATAWRITE_SLV0: nat := 0x21
  const STATUS_MASTER: nat := 0x22

  /** The output registers SENSOR_HUB_1 .. SENSOR_HUB_18 form one run of 18 bytes. */
  lemma OutputWindow()
    ensures SENSOR_HUB_18 - SENSOR_HUB_1 + 1 == 18
    ensures SENSOR_HUB_18 + 1 == MASTER_CONFIG
  {
  }

  // MASTER_CONFIG.
  const AUX_SENS_ON: Field := FieldDesc(0, 2)
  const MASTER_ON: Field := FieldDesc(2, 1)
  const SHUB_PU_EN: Field := FieldDesc(3, 1)
  const PASS_THROUGH_MODE: Field := FieldDesc(4, 1)
  const START_CONFIG: Field := FieldDesc(5, 1)
  const WRITE_ONCE: Field := FieldDesc(6, 1)
  const RST_MASTER_REGS: Field := FieldDesc(7, 1)
  const MASTER_CONFIG_LAYOUT: seq<Field> :=
    [AUX_SENS_ON, MASTER_ON, SHUB_PU_EN, PASS_THROUGH_MODE, START_CONFIG, WRITE_ONCE, RST_MASTER_REGS]

  // SLVx_ADD: read/write flag and 7-bit I2C address.
  const RW_0: Field := FieldDesc(0, 1)
  const SLAVE0_ADD: Field := FieldDesc(1, 7)
  const SLV0_ADD_LAYOUT: seq<Field> := [RW_0, SLAVE0_ADD]

  // SLVx_CONFIG: number of read operations; slot 0 also holds the hub rate.
  const SLAVE0_NUMOP: Field := FieldDesc(0, 3)
  const SHUB_ODR: Field := FieldDesc(6, 2)
  const SLV0_CONFIG_LAYOUT: seq<Field> := [SLAVE0_NUMOP, FieldDesc(3, 3), SHUB_ODR]

  lemma SensorHubLayoutsTile()
    ensures Tiles(MASTER_CONFIG_LAYOUT) && Tiles(SLV0_ADD_LAYOUT) && Tiles(SLV0_CONFIG_LAYOUT)
  {
  }

  /** The three registers that configure one external-sensor slot. */
  datatype SlotRegs = SlotRegs(add: nat, subadd: nat, config: nat)

  /**
   * The slot registers targeted for slave index `idx`; an index above 3
   * falls back to slot 0.
   */
  function SlotFor(idx: byte): (r: SlotRegs)
    ensures r.subadd == r.add + 1 && r.config == r.add + 2
    ensures SLV0_ADD <= r.add <= SLV3_ADD
  {
    if idx == 1 then SlotRegs(SLV1_ADD, SLV1_SUBADD, SLV1_CONFIG)
    else if idx == 2 then SlotRegs(SLV2_ADD, SLV2_SUBADD, SLV2_CONFIG)
    else if idx == 3 then SlotRegs(SLV3_ADD, SLV3_SUBADD, SLV3_CONFIG)
    else SlotRegs(SLV0_ADD, SLV0_SUBADD, SLV0_CONFIG)
  }

  /** Slot `idx` starts 3 * idx registers after slot 0; any index above 3 names slot 0. */
  lemma SlotForIndex(idx: byte)
    ensures SlotFor(idx).add == SLV0_ADD + 3 * (if idx <= 3 then idx as nat else 0)
  {
  }

  /** The slots' register triples never overlap, and slot 3 ends just below DATAWRITE_SLV0. */
  lemma SlotsDisjoint(i: byte, j: byte)
    requires i <= 3 && j <= 3 && i != j
    ensures SlotFor(i).config < SlotFor(j).add || SlotFor(j).config < SlotFor(i).add
    ensures SlotFor(i).config < DATAWRITE_SLV0
  {
  }

  /** Number of external sensors the hub cycles through, minus one. */
  datatype ShSlaveConnected = Slave0 | Slaves01 | Slaves012 | Slaves0123

  function ShSlaveConnectedCode(s: ShSlaveConnected): (c: byte)
    ensures c <= 3
  {
    match s
    case Slave0 => 0
    case Slaves01 => 1
    case Slaves012 => 2
    case Slaves0123 => 3
  }

  /** How many external sensors a setting connects. */
  function SensorCount(s: ShSlaveConnected): (n: nat)
    ensures 1 <= n <= 4
    ensures n == ShSlaveConnectedCode(s) as nat + 1
  {
    match s
    case Slave0 => 1
    case Slaves01 => 2
    case Slaves012 => 3
    case Slaves0123 => 4
  }

  /** Rate of the sensor-hub master, stored in SLV0_CONFIG.shub_odr. */
  datatype ShDataRate = Sh104Hz | Sh52Hz | Sh26Hz | Sh12_5Hz

  function ShDataRateCode(r: ShDataRate): (c: byte)
    ensures Fits(SHUB_ODR, c)
  {
    match r
    case Sh104Hz => 0
    case Sh52Hz => 1
    case Sh26Hz => 2
    case Sh12_5Hz => 3
  }

  function ShDataRateFrom(c: byte): (r: Option<ShDataRate>)
    ensures r.Some? ==> ShDataRateCode(r.value) == c
    ensures r.Some? <==> c <= 3
  {
    if c == 0 then Some(Sh104Hz)
    else if c == 1 then Some(Sh52Hz)
    else if c == 2 then Some(Sh26Hz)
    else if c == 3 then Some(Sh12_5Hz)
    else None
  }

  /** The default hub rate, reported for an unknown code. */
  const SH_DATA_RATE_DEFAULT: ShDataRate := Sh12_5Hz

  /** A write transaction for slot 0: device address, register, data byte. */
  datatype ShCfgWrite = ShCfgWrite(slv0Add: byte, slv0Subadd: byte, slv0Data: byte)

  /** A read transaction for one slot: device address, first register, byte count. */
  datatype ShCfgRead = ShCfgRead(slvAdd: byte, slvSubadd: byte, slvLen: byte)
}
