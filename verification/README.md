# LSM6DSO16IS driver core in Dafny

A Dafny model of the core of the Rust driver for the STMicroelectronics
LSM6DSO16IS inertial sensor. The sensor has an accelerometer, a gyroscope,
an I2C-master "sensor hub" and an embedded processing core (the ISPU). The
model covers the parts of the driver that do more than one register access:

- **Register banks** (`MemBanks`, `BankOps`). Three register address
  spaces (Main, SensorHub, Ispu) share one 8-bit bus, and FUNC_CFG_ACCESS
  selects between them. `mem_bank_set` and `mem_bank_get` are modelled, as
  are the scoped helpers `operate_over_sensor_hub` and `operate_over_ispu`.
  Each helper selects a bank, runs a closure, selects Main again and lets a
  failed restore mask the closure's result.
- **The sensor** (`Device`). A register store indexed by (bank, address),
  the trace of bus operations issued so far, and the set of trace positions
  at which the transport fails. Every operation is a pure function from a
  device to a device and a result, and `:-` stops at the first error like
  Rust's `?`.
- **Register layouts and codecs** (`Bits`, `MainRegs`, `SensorHubRegs`,
  `IspuRegs`). Each layout is a list of bit fields that tiles its byte. Each
  enumeration has its register code and the fallible conversion back.
- **Accelerometer and gyroscope configuration** (`SensorCtrl`). These are
  read-modify-write setters and decoding getters. A data rate is split over
  two registers: a high-performance disable bit and the ODR nibble.
- **Sensor hub** (`SensorHubOps`). This covers slot configuration
  (`sh_cfg_write`, `sh_slv_cfg_read`), the master enable, the number of
  connected sensors, the hub rate, the output registers, `sh_status_get`
  and `all_sources_get`.
- **ISPU** (`IspuOps`, `RamSegments`). This covers the rate and
  block-data-update fields, the ISPU_DUMMY_CFG window, boot control, and the
  program/data memory window. Program-RAM writes are cut into segments at
  0x2000, 0x4000 and 0x6000. `RamSegments.SplitProgramRam` follows the
  driver's loop with its two four-element arrays and is proved to compute
  the reference segmentation `RamSegments.Segments`.
- **The passthrough bridge** (`Passthrough`). Here the sensor acts as a bus
  for one external device behind its sensor hub. The bridge is modelled one
  level up: each driver call it makes (`sh_cfg_write`, `xl_data_rate_set`,
  a busy poll, ...) is one entry in a log, and a given set of log positions
  fails. `RunPlan` is the reference definition: make a list of calls in
  order and stop at the first failure that is not ignored. `write_bytes`
  and `write_byte_read_bytes` are each proved to behave exactly as their
  plan.

The driver exists in two equivalent forms: `src/lib.rs`, plain synchronous,
and `src/driver.rs`, synchronous or asynchronous with a bank type-state.
The model follows their common logic and cites either.

Some behaviour of the code is easy to miss. The model keeps it as written:

- **Undecodable register values.** A getter that reads a value naming no
  enumeration variant returns the variant's default, as `unwrap_or_default`
  does. It does not report `UnexpectedValue`.
- **Restore errors.** When both the closure and the restore of Main fail in
  `operate_over_*`, only the restore error is returned (`BankOps.OperateOver`).
- **Discarded results.** Two results are discarded, and no other error is
  swallowed:
  - the ISPU dummy read in `ispu_read_memory` (`IspuOps.IspuReadMemoryOk`);
  - the acceleration read in `write_bytes` (`Passthrough.WriteCycleIgnoresAccel`).
- **Empty first segment.** An empty program-RAM write, or one that starts on
  a boundary, emits an empty first segment: an address select followed by
  a write of nothing (`RamSegments.EmptyFirstSegment`).
- **Boot control.** `ispu_boot_set` followed by `ispu_boot_get` reports the
  opposite state (`IspuOps.IspuBootGetAfterSet`). This is stated as a
  property of the code, not as a finding. The encoding On = 0 / Off = 1 and
  the getter's "either bit set means On" are each as the register
  definitions give them.

## Model

| member | source | states |
|---|---|---|
| MemBanks.BankCode | src/register/mod.rs:18-28 | Main, the resting bank, is the only bank whose discriminant is 0. |
| MemBanks.BankCodeInjective | src/register/membank.rs:10-14 | Distinct banks have distinct discriminants. |
| MemBanks.SelectByte | src/driver.rs:113-122 | The FUNC_CFG_ACCESS byte that selects a bank: the sensor-hub bit is set exactly for SensorHub, the ISPU bit exactly for Ispu, and every other bit, `sw_reset_ispu` included, is 0. |
| MemBanks.SelectByteBuilt | src/driver.rs:114-122 | That byte equals the one the driver builds by setting both access fields, in turn, on a zero byte. |
| MemBanks.BankOf | src/driver.rs:137-143 | Decoding gives SensorHub exactly when the sensor-hub bit is set, and Ispu exactly when only the ISPU bit is set; otherwise Main. |
| MemBanks.BankRoundTrip | src/driver.rs:113-146 | Decoding the byte written to select a bank gives that bank back. |
| BankOps.MemBankSet | src/driver.rs:113-129 | One write of FUNC_CFG_ACCESS. It fails exactly when that bus operation fails, and then reports `FailedToSetMemBank(b)` with the store unchanged. On success bank `b` is active and no other register has changed. |
| BankOps.MemBankGet | src/driver.rs:132-146 | One read of FUNC_CFG_ACCESS, returning the active bank; a failed read is `FailedToReadMemBank`. The device changes only by the trace entry. |
| BankOps.SelectKeeps | src/driver.rs:113-129 | Selecting a bank leaves every register outside Main unchanged. |
| BankOps.MemBankGetAfterSet | src/driver.rs:113-146 | On a reliable bus, reading the bank back after selecting `b` gives `b`. |
| BankOps.OperateOver | src/register/membank.rs:18-38 | A failed bank selection returns at once: the closure never runs and Main is not restored. Otherwise the closure runs once in the target bank and Main is selected again whatever it returned. A failed restore masks the closure's result. Whenever the result is not a failed selection, Main is active. |
| BankOps.OperateOverOk | src/register/membank.rs:21-26 | When neither selection fails, the result is the closure's own and the trace ends with one selection of Main. |
| BankOps.OperateOverTrace | src/register/membank.rs:32-37 | When neither selection fails, the bus sees the selection of the target, the closure's operations, then the selection of Main, in that order. |
| BankOps.ReadOver | src/register/membank.rs:53-61 | A register read through the scoped lock reaches the target bank's register, and the lock forwards to the sensor unchanged. At the ISPU data port the byte comes from ISPU memory instead. |
| BankOps.ModifyOver | src/register/membank.rs:63-70 | A read-modify-write through the lock changes exactly the chosen field of the target bank's register, and Main is active afterwards. |
| BankOps.IspuSelMemoryAddr | src/register/membank.rs:72-74 | One two-byte write of the 16-bit address starting at ISPU_MEM_ADDR0. It fails exactly when that write fails and never changes the bank. |
| Device.Store | src/lib.rs:121-123 | An auto-incrementing multi-byte write: byte `i` lands in register `addr + i` of the bank, and nothing else changes. |
| Device.Write | src/lib.rs:121-123 | `write_to_register` is one bus operation in the bank the access reaches. It fails exactly at a failing position, leaving the store unchanged. The ISPU data port streams data into memory and stores nothing. |
| Device.Read | src/lib.rs:125-128 | `read_from_register` is one bus operation returning `len` bytes, and it changes no register. Away from the ISPU data port, byte `i` comes from register `reg + i`. At the port, the bytes are those ISPU memory delivers to that read. |
| Device.Read1 | src/lib.rs:125-128 | A one-byte read returns the register's current content, or at the ISPU data port the byte memory delivers. |
| Device.Write1 | src/lib.rs:121-123 | A one-byte write stores the byte in the register the access reaches. |
| Device.Wait | src/driver.rs:1494-1504 | A busy poll is one bus event. It changes no register and fails like any bus operation. |
| Device.Modify | src/lib.rs:224-231 | The register read-modify-write idiom: one read, then one write of the byte read with one field replaced. Other bits are kept, and a failed read prevents the write. The bus sees that read and that write except at the ISPU data port, where the byte read comes from memory. |
| Bits.ByteOf | src/driver.rs:1526-1526 | A count below 256 converted `as u8` keeps its value. |
| Bits.Get | src/register/main.rs:196-210 | A field's value fits the field's width. |
| Bits.Set | src/register/main.rs:196-210 | Setting a field keeps every bit outside that field. |
| Bits.GetSetSame | src/register/main.rs:196-210 | Reading a field after setting it gives the value set. |
| Bits.GetSetOther | src/register/main.rs:196-210 | Setting a field leaves every disjoint field as it was. |
| Bits.MaskedAgree | src/register/main.rs:218-237 | Two bytes that agree outside one field agree on every field disjoint from it. |
| MainRegs.MainLayoutsTile | src/register/main.rs:71-88 | The FUNC_CFG_ACCESS, CTRL1_XL, CTRL2_G, CTRL6_C, CTRL7_G, CTRL9_C, STATUS_REG and STATUS_MASTER_MAINPAGE layouts each cover their byte without gap or overlap. |
| MainRegs.RateCodeSplit | src/driver.rs:288-313 | A code with bits 5-7 clear is rebuilt exactly from its bit 4 and its low nibble. |
| MainRegs.HmCode | src/register/main.rs:717-723 | The mode fits one bit, and the bit is set exactly when high performance is disabled. |
| MainRegs.XlFullScaleCode | src/register/main.rs:731-741 | Every accelerometer full scale has a 2-bit code. |
| MainRegs.XlFullScaleFrom | src/register/main.rs:731-741 | A code converts back exactly when it is at most 3, and then to the scale with that code. |
| MainRegs.OdrCode | src/register/main.rs:749-771 | The ten shared output data rates have codes 1 to 10. |
| MainRegs.OdrFrom | src/register/main.rs:749-771 | A code converts back to an output data rate exactly when it is in 1..10, and then to the rate with that code. |
| MainRegs.OdrRoundTrip | src/register/main.rs:749-771 | Every output data rate converts back from its code. |
| MainRegs.XlDataRateCode | src/register/main.rs:749-795 | Only power-down has code 0. Every code has bits 5-7 clear, and bit 4 is set exactly for the low-power rates, 1.6 Hz included. |
| MainRegs.XlDataRateFrom | src/register/main.rs:749-795 | A code that converts back converts to the accelerometer rate with that code. |
| MainRegs.XlDataRateRoundTrip | src/register/main.rs:749-795 | Every accelerometer rate converts back from its code. The code has bits 5-7 clear, and its bit 4 is set exactly for the low-power rates, 1.6 Hz included. |
| MainRegs.GyFullScaleCode | src/register/main.rs:803-815 | A code is 0..3 or 0x10, and it is 0x10 exactly for 125 dps. |
| MainRegs.GyFullScaleFrom | src/register/main.rs:803-815 | A code converts back exactly when it is 0..3 or 0x10, and then to the scale with that code. |
| MainRegs.GyFullScaleRoundTrip | src/register/main.rs:803-815 | Every gyroscope full scale converts back from its code, and the code uses only the `fs_g` and `fs_125` bits. |
| MainRegs.GyDataRateCode | src/register/main.rs:823-867 | Only power-down has code 0. Every code has bits 5-7 clear, and bit 4 is set exactly for the low-power rates. |
| MainRegs.GyDataRateFrom | src/register/main.rs:823-867 | A code that converts back converts to the gyroscope rate with that code. |
| MainRegs.GyDataRateRoundTrip | src/register/main.rs:823-867 | Every gyroscope rate converts back from its code. The code has bits 5-7 clear, and its bit 4 is set exactly for the low-power rates. |
| MainRegs.IspuDataRateCode | src/register/main.rs:990-1013 | Every ISPU rate has a code of at most 10. |
| MainRegs.IspuDataRateFrom | src/register/main.rs:990-1013 | A code converts back exactly when it is at most 10, and then to the rate with that code. |
| MainRegs.IspuDataRateRoundTrip | src/register/main.rs:990-1013 | Every ISPU rate converts back from its code. |
| MainRegs.IspuDataRateName | src/register/main.rs:1015-1031 | `to_str` gives "off" exactly for Off, and every other name ends in "hz". |
| MainRegs.IspuDataRateNameInjective | src/register/main.rs:1015-1031 | Distinct ISPU rates have distinct names. |
| MainRegs.IspuBduCode | src/register/main.rs:1043-1053 | Every block-data-update mode has a 2-bit code. |
| MainRegs.IspuBduFrom | src/register/main.rs:1043-1053 | A code converts back exactly when it is at most 3, and then to the mode with that code. |
| SensorHubRegs.OutputWindow | src/register/sensor_hub.rs:13-31 | SENSOR_HUB_1 to SENSOR_HUB_18 form one run of 18 registers just below MASTER_CONFIG. |
| SensorHubRegs.SensorHubLayoutsTile | src/register/sensor_hub.rs:286-351 | The MASTER_CONFIG, SLV0_ADD and SLV0_CONFIG layouts each cover their byte. |
| SensorHubRegs.SlotFor | src/lib.rs:843-866 | A slot's address, register and configuration registers are consecutive, and its first register lies between SLV0_ADD and SLV3_ADD. |
| SensorHubRegs.SlotForIndex | src/register/sensor_hub.rs:32-44 | Slot `idx` starts `3 * idx` registers after SLV0_ADD, and any index above 3 names slot 0. |
| SensorHubRegs.SlotsDisjoint | src/register/sensor_hub.rs:32-44 | The four slots' register triples never overlap and all lie below DATAWRITE_SLV0. |
| SensorHubRegs.ShSlaveConnectedCode | src/register/sensor_hub.rs:527-537 | Every setting of the number of connected sensors has a 2-bit code. |
| SensorHubRegs.SensorCount | src/register/sensor_hub.rs:527-537 | A setting connects one more sensor than its code, between 1 and 4. |
| SensorHubRegs.ShDataRateCode | src/register/sensor_hub.rs:573-583 | Every hub rate code fits the 2-bit `shub_odr` field. |
| SensorHubRegs.ShDataRateFrom | src/register/sensor_hub.rs:573-583 | A code converts back exactly when it is at most 3, and then to the rate with that code. |
| IspuRegs.MemoryWindow | src/register/ispu.rs:15-17 | The two memory address registers are consecutive and the data port follows them. The 32 output words occupy 64 consecutive registers that end just below ISPU_INT1_CTRL0. |
| IspuRegs.IspuLayoutsTile | src/register/ispu.rs:115-168 | The ISPU_CONFIG, ISPU_STATUS, ISPU_MEM_SEL and interrupt top-byte layouts each cover their byte. Each 32-bit interrupt register carries 30 flags, three full bytes plus the top-byte field. |
| IspuRegs.IspuBootCode | src/register/ispu.rs:1080-1085 | Both boot codes fit the one-bit `ispu_rst_n` and `clk_dis` fields. |
| IspuRegs.MemoryTypeCode | src/register/ispu.rs:1120-1125 | A memory's code fits `mem_sel` and is 1 exactly for program RAM. |
| IspuRegs.AddrBytes | src/register/ispu.rs:176-176 | A 16-bit address is written as two bytes that give the address back. |
| SensorCtrl.XlHmModeSet | src/lib.rs:206-213 | Read-modify-write of CTRL6_C: afterwards `xl_hm_mode` holds the mode's bit and nothing else has changed. |
| SensorCtrl.GyHmModeSet | src/lib.rs:270-276 | Read-modify-write of CTRL7_G: afterwards `g_hm_mode` holds the mode's bit and nothing else has changed. |
| SensorCtrl.XlFullScaleSet | src/lib.rs:224-231 | Afterwards `fs_xl` holds the scale's code, and the other CTRL1_XL bits and all other registers are unchanged. |
| SensorCtrl.XlFullScaleGet | src/lib.rs:233-240 | Returns the scale whose code `fs_xl` holds, and changes nothing but the trace. |
| SensorCtrl.XlFullScaleGetAfterSet | src/lib.rs:224-240 | With no bus failure, the full scale read back is the one set. |
| SensorCtrl.XlDataRateSplit | src/driver.rs:288-302 | Every accelerometer rate code survives the split into high-performance bit and ODR nibble. |
| SensorCtrl.XlDataRateSet | src/driver.rs:288-302 | Reads CTRL1_XL, read-modify-writes CTRL6_C, then writes CTRL1_XL, and fails exactly when one of those four operations fails. |
| SensorCtrl.XlDataRateSetRegs | src/driver.rs:288-302 | A successful set stores exactly the two bytes it writes. |
| SensorCtrl.XlDataRateSetEffect | src/driver.rs:288-302 | After a successful set, the selection (the high-performance bit above the ODR nibble) is the rate's code. All other bits of the two registers, all other registers and the bank are as before. |
| SensorCtrl.XlDataRateGet | src/driver.rs:304-313 | Returns the rate whose code is the recombined selection, or Off when the selection names no rate, and changes no register. |
| SensorCtrl.XlDataRateGetAfterSet | src/driver.rs:288-313 | With no bus failure, the accelerometer rate read back is the one set, for every rate. |
| SensorCtrl.XlRateKeepsFullScale | src/driver.rs:288-302 | Setting the rate leaves the full scale read back unchanged, although both share CTRL1_XL. |
| SensorCtrl.XlFullScaleKeepsRate | src/driver.rs:270-278 | Setting the full scale leaves the rate read back unchanged. |
| SensorCtrl.XlDataRateGetSelection | src/driver.rs:304-313 | The rate read back depends on the recombined selection code alone. |
| SensorCtrl.GyFullScaleSet | src/driver.rs:334-342 | Afterwards `fs_125` above `fs_g` is the scale's code, and every other bit and register is unchanged. |
| SensorCtrl.GyFullScaleSplit | src/driver.rs:334-342 | Writing `fs_g` from the low two bits and `fs_125` from bit 4 stores exactly the code. |
| SensorCtrl.GyFullScaleGet | src/driver.rs:344-352 | Returns the scale whose code is the recombined fields, or 125 dps, the default, when they name none. |
| SensorCtrl.GyFullScaleGetAfterSet | src/driver.rs:334-352 | With no bus failure, the gyroscope full scale read back is the one set. |
| SensorCtrl.GyDataRateSplit | src/driver.rs:354-368 | Every gyroscope rate code survives the split into high-performance bit and ODR nibble. |
| SensorCtrl.GyDataRateSet | src/driver.rs:354-368 | Reads CTRL2_G, read-modify-writes CTRL7_G, then writes CTRL2_G, and fails exactly when one of those four operations fails. |
| SensorCtrl.GyDataRateSetRegs | src/driver.rs:354-368 | A successful set stores exactly the two bytes it writes. |
| SensorCtrl.GyDataRateSetEffect | src/driver.rs:354-368 | After a successful set, the selection (the high-performance bit above the ODR nibble) is the rate's code. All other bits of the two registers, all other registers and the bank are as before. |
| SensorCtrl.GyDataRateGet | src/driver.rs:370-379 | Returns the rate whose code is the recombined selection, or Off when it names none, and changes no register. |
| SensorCtrl.GyDataRateGetAfterSet | src/driver.rs:354-379 | With no bus failure, the gyroscope rate read back is the one set, for every rate. |
| SensorCtrl.GyRateKeepsFullScale | src/driver.rs:354-368 | Setting the gyroscope rate leaves the full scale read back unchanged, although both share CTRL2_G. |
| SensorCtrl.GyDataRateKeepsFsFields | src/driver.rs:354-368 | A successful rate set leaves `fs_g` and `fs_125` as they were. |
| SensorCtrl.GyFullScaleGetFields | src/driver.rs:344-352 | The full scale read back depends on `fs_g` and `fs_125` alone. |
| SensorCtrl.GyFullScaleKeepsRate | src/driver.rs:334-342 | Setting the gyroscope full scale leaves the rate read back unchanged. |
| SensorCtrl.GyDataRateGetSelection | src/driver.rs:370-379 | The gyroscope rate read back depends on the selection code alone. |
| SensorCtrl.AccelerationRawGet | src/lib.rs:554-559 | One six-byte read from OUTX_L_A: byte `i` is register `OUTX_L_A + i`. |
| SensorHubOps.AddByte | src/lib.rs:796-799 | The SLVx_ADD byte holds the 7-bit device address and the read/write flag. |
| SensorHubOps.CfgWriteInner | src/lib.rs:796-804 | The address byte (write flag 0), the register and the data byte are written in that order. The first failure stops the rest. |
| SensorHubOps.ShCfgWrite | src/lib.rs:795-805 | With no bus failure, the three writes happen inside the sensor-hub bank between the two selections, and Main is active afterwards. |
| SensorHubOps.ShCfgWriteEffect | src/lib.rs:795-805 | With no bus failure, slot 0 of the sensor-hub bank is left programmed for a write: SLV0_ADD holds the device address with the read flag clear, SLV0_SUBADD the register, and DATAWRITE_SLV0 the data byte. |
| SensorHubOps.SlotAddress | src/lib.rs:841-858 | The slot's address byte and register are written and stored, in the sensor-hub bank. |
| SensorHubOps.NumopUpdate | src/lib.rs:867-871 | Read-modify-write of the slot's configuration: only `slave0_numop` changes, to the length. |
| SensorHubOps.SlvCfgReadSlot | src/lib.rs:841-871 | The four slot accesses in order. Afterwards the slot holds the address byte and register, and its configuration has the new count with the other bits kept. |
| SensorHubOps.SlotThenNumopTrace | src/lib.rs:850-871 | Once the address and register writes succeed, the count update completes the four slot accesses in order, and they succeed exactly when no fault falls on them. |
| SensorHubOps.SlotThenNumopRegs | src/lib.rs:850-871 | Once the address and register writes succeed, a successful count update leaves the slot holding the address, the register, and the configuration with the new count and its other bits kept. |
| SensorHubOps.SlotThenMain | src/lib.rs:841-873 | The slot accesses followed by the selection of Main; it succeeds exactly when those five operations do. |
| SensorHubOps.SlotThenMainTrace | src/lib.rs:841-873 | A success issues the four slot accesses and then the selection of Main. |
| SensorHubOps.SlotThenMainAddress | src/lib.rs:841-850 | After a success the slot's address register holds the address byte with read flag 1. |
| SensorHubOps.SlotThenMainRegister | src/lib.rs:851-858 | After a success the slot's register byte holds the register to read. |
| SensorHubOps.SlotThenMainConfig | src/lib.rs:859-871 | After a success the slot's configuration holds the count in `slave0_numop`, with its other bits unchanged. |
| SensorHubOps.ShSlvCfgRead | src/lib.rs:836-877 | Succeeds exactly when none of its six operations fails. A failed first selection is `FailedToSetMemBank(SensorHub)`, and a success leaves Main active. |
| SensorHubOps.ShSlvCfgReadTrace | src/lib.rs:836-877 | A success issues the sensor-hub selection, the slot accesses of slot `idx` (slot 0 for any index above 3), and the selection of Main. |
| SensorHubOps.ShSlvCfgReadEffect | src/lib.rs:836-877 | With no bus failure, the slot `idx` names holds the read-flagged address and the register. Its count is set and its other configuration bits are kept. |
| SensorHubOps.ShSlvCfgReadLeavesBank | src/lib.rs:839-875 | A failure after the switch to the sensor-hub bank returns a bus error with that bank still selected, because the final selection of Main is skipped. |
| SensorHubOps.ShMasterSet | src/lib.rs:685-692 | A read-modify-write of MASTER_CONFIG in the sensor-hub bank sets `master_on` and keeps the other bits. |
| SensorHubOps.ShMasterGet | src/lib.rs:694-700 | Returns `master_on` of the sensor-hub bank's MASTER_CONFIG, with Main active afterwards. |
| SensorHubOps.ShMasterGetAfterSet | src/lib.rs:685-700 | With no bus failure, the master enable read back is the value set. |
| SensorHubOps.ShSlaveConnectedSet | src/lib.rs:665-672 | A read-modify-write of MASTER_CONFIG sets `aux_sens_on` to the setting's code and keeps the other bits. |
| SensorHubOps.SlaveConnectedOf | src/lib.rs:674-683 | Every 2-bit value names the setting with that code, so the getter's default is never used. |
| SensorHubOps.SlaveConnectedCodeInjective | src/register/sensor_hub.rs:527-537 | Distinct settings have distinct codes. |
| SensorHubOps.ShSlaveConnectedGet | src/lib.rs:674-683 | Returns the setting whose code `aux_sens_on` holds. |
| SensorHubOps.ShSlaveConnectedGetAfterSet | src/lib.rs:665-683 | With no bus failure, the number of connected sensors read back is the one set. |
| SensorHubOps.ShDataRateSet | src/lib.rs:808-815 | A read-modify-write of SLV0_CONFIG in the sensor-hub bank sets `shub_odr` to the rate's code and keeps the other bits. |
| SensorHubOps.ShDataRateGet | src/lib.rs:817-826 | Returns the rate whose code `shub_odr` holds. |
| SensorHubOps.ShDataRateGetAfterSet | src/lib.rs:808-826 | With no bus failure, the hub rate read back is the one set. |
| SensorHubOps.ShReadDataRawGet | src/lib.rs:661-663 | `n` bytes from SENSOR_HUB_1 on, read inside the sensor-hub bank; byte `i` is register `SENSOR_HUB_1 + i`, and Main is active afterwards. |
| SensorHubOps.ShStatusGet | src/lib.rs:879-882 | One read of STATUS_MASTER_MAINPAGE. Every STATUS_MASTER field reads the same in the byte returned as in that register. |
| SensorHubOps.Word | src/lib.rs:497-497 | The four ISPU status bytes form a value below 2^32. |
| SensorHubOps.SourcesRead | src/lib.rs:495-497 | Reads STATUS_REG, STATUS_MASTER_MAINPAGE and the four ISPU status bytes, in that order, returning their contents. |
| SensorHubOps.AllSourcesGetAsWritten | src/lib.rs:494-513 | As written: the end-of-operation flag fills all four nack flags and the write-once flag. |
| SensorHubOps.AllSourcesCounterexample | src/lib.rs:504-508 | With slave 0's nack set and end-of-operation clear, the report as written shows no nack. |
| SensorHubOps.AllSourcesGet | src/register/main.rs:496-511 | Corrected: every flag is read from its own bit of its status register. |
| SensorHubOps.AllSourcesAgreeElsewhere | src/lib.rs:494-513 | The corrected and as-written reports agree on everything but the nack and write-once flags. |
| IspuOps.IspuDataRateSet | src/lib.rs:914-921 | Afterwards `ispu_rate` holds the rate's code, and the other CTRL9_C bits and all other registers are unchanged. |
| IspuOps.IspuDataRateGet | src/lib.rs:923-928 | Returns the rate whose code `ispu_rate` holds, or Off for a value above 10. |
| IspuOps.IspuDataRateGetAfterSet | src/lib.rs:914-928 | With no bus failure, the ISPU rate read back is the one set. |
| IspuOps.IspuBduSet | src/lib.rs:931-937 | Afterwards `ispu_bdu` holds the mode's code, and the other CTRL9_C bits and all other registers are unchanged. |
| IspuOps.IspuBduGetAsWritten | src/lib.rs:940-944 | As written: the mode reported is decoded from `ispu_rate`, or Off when that value is above 3. |
| IspuOps.IspuBduGetAsWrittenIgnoresSet | src/lib.rs:931-944 | The as-written getter reports the same after setting any two modes. |
| IspuOps.IspuBduSetKeepsRate | src/lib.rs:931-944 | After a set, the as-written getter decodes the rate field the set left untouched. |
| IspuOps.IspuBduCounterexample | src/lib.rs:940-944 | On an all-zero sensor, setting On2b4b reads back as Off. |
| IspuOps.IspuBduGet | src/register/main.rs:374-405 | Corrected: returns the mode whose code `ispu_bdu` holds. |
| IspuOps.IspuBduGetAfterSet | src/lib.rs:931-937 | With the corrected getter and no bus failure, the mode read back is the one set. |
| IspuOps.DummyEndAsWritten | src/driver.rs:1049-1049 | The `u8` sum `0x73 + offset + len` is a byte; it is the true sum exactly when that fits, and otherwise 256 or 512 less. |
| IspuOps.DummyStartAsWritten | src/driver.rs:1053-1053 | The `u8` start register `0x73 + offset` is the true sum exactly when that fits in a byte. |
| IspuOps.DummyCfgPassesAsWritten | src/driver.rs:1049-1051 | On `u8` values the check agrees with the unwrapped check when the sum fits; when it wraps, it passes for sums up to 0x17A and for every sum from 0x200 on. |
| IspuOps.IspuWriteDummyCfgAsWritten | src/driver.rs:1043-1057 | As written, for every `u8` offset and length: a request the `u8` check refuses fails with `UnexpectedValue` and no bus operation; otherwise one write of `len` bytes at the `u8` register `0x73 + offset`. |
| IspuOps.IspuReadDummyCfgAsWritten | src/driver.rs:1066-1083 | As written, for every `u8` offset and length: the same check, then one read of `len` bytes from the `u8` register `0x73 + offset` on, returning those registers' contents, or at the ISPU data port the bytes memory delivers. |
| IspuOps.IspuReadDummyCfgAsWrittenInWindow | src/driver.rs:1066-1083 | Where the sum does not wrap, an admitted read returns the window registers `0x73 + offset + i`. |
| IspuOps.DummyCfgWrapCounterexample | src/driver.rs:1072-1079 | Offset 0x90 with length 0x10 passes the `u8` check and reads 16 bytes from register 0x03, although the corrected check refuses it. |
| IspuOps.DummyCfgFitsAsWritten | src/driver.rs:1049-1051 | As written, the check admits a transfer exactly when every register from its first through the one just after its last is in the window. |
| IspuOps.DummyCfgFits | src/driver.rs:1049-1051 | Corrected, the check admits a transfer exactly when it starts within the window's bounds and every register it touches is in the window. |
| IspuOps.DummyCfgLastRegisterUnreachable | src/driver.rs:1049-1051 | No transfer the check admits touches ISPU_DUMMY_CFG_4_H (0x7A), and neither a one-byte transfer to it nor the whole window is admitted. |
| IspuOps.DummyCfgCounterexample | src/driver.rs:1049-1051 | Writing one byte at offset 7 fails with `UnexpectedValue`, although that register is in the window. |
| IspuOps.IspuWriteDummyCfg | src/driver.rs:1043-1057 | Corrected: a request fails without bus operation exactly when it leaves the window; otherwise one write of `len` bytes. |
| IspuOps.IspuReadDummyCfg | src/driver.rs:1066-1083 | Corrected: the same check, then one read of `len` bytes. |
| IspuOps.DummyCfgReachesWindow | src/register/main.rs:55-62 | The corrected check admits a non-empty transfer exactly when its last register is in the window, and admits the whole window at once. |
| IspuOps.BootWrite | src/lib.rs:1001-1004 | Both `ispu_rst_n` and `clk_dis` receive the boot code, and only ISPU_CONFIG changes. |
| IspuOps.IspuBootSet | src/lib.rs:999-1008 | With no bus failure, ISPU_CONFIG is read and written back in the ISPU bank, with both bits set to the code. |
| IspuOps.BootOf | src/lib.rs:1014-1018 | The state reported is Off exactly when both bits are 0. |
| IspuOps.BootRead | src/lib.rs:1013-1020 | One read of ISPU_CONFIG, decoded by the rule above. |
| IspuOps.IspuBootGet | src/lib.rs:1011-1022 | With no bus failure, returns the decoded ISPU-bank ISPU_CONFIG with Main active afterwards. |
| IspuOps.Opposite | src/register/ispu.rs:1080-1085 | The other boot state differs from the given one. |
| IspuOps.IspuBootGetAfterSet | src/lib.rs:999-1022 | Boot control does not round-trip: with no bus failure the state read back is the opposite of the one set. |
| IspuOps.BootOfCode | src/lib.rs:1002-1018 | Both bits holding the code of a state decode to the other state. |
| IspuOps.MemSelByte | src/driver.rs:1164-1175 | The ISPU_MEM_SEL byte holds the memory's code and the read-enable bit, with every other bit 0. |
| IspuOps.MemSelByteBuilt | src/driver.rs:1164-1175 | That byte equals the one the driver builds by setting both fields on a zero byte. |
| IspuOps.ClockOff | src/driver.rs:1166-1170 | Reads ISPU_CONFIG, returns it, and writes it back with `clk_dis` = 1. |
| IspuOps.ClockRestored | src/driver.rs:1215-1217 | Restoring the saved `clk_dis` gives back exactly the byte first read. |
| IspuOps.ClockRestore | src/driver.rs:1215-1217 | One write of the saved configuration byte. |
| IspuOps.SegmentsAddressable | src/driver.rs:1177-1197 | For a transfer the 16-bit arithmetic admits, every program-RAM segment starts at a 16-bit address. |
| IspuOps.SegmentOps | src/driver.rs:1199-1208 | Two bus operations per segment. |
| IspuOps.SegmentOpsAt | src/driver.rs:1199-1208 | Operation `2i` selects segment `i`'s address and operation `2i+1` writes its chunk to the data port. |
| IspuOps.WriteSegments | src/driver.rs:1199-1208 | The segment loop succeeds exactly when its `2 * segments` operations do, and issues them in order. |
| IspuOps.WriteSegment | src/driver.rs:1201-1206 | One pass of the loop: an address select, then the chunk. |
| IspuOps.Plan | src/driver.rs:1177-1213 | The chunks concatenate to the first `len` bytes of the data, and each is as long as its segment. Program RAM uses the reference segmentation; data RAM is one segment holding everything. |
| IspuOps.SelectWriteRestore | src/driver.rs:1172-1217 | After the clock is off: select the memory, write the segments, restore the saved byte, stopping at the first failure. |
| IspuOps.WriteMemoryInner | src/driver.rs:1163-1220 | The closure succeeds exactly when its `2 * segments + 4` operations do, and issues them in planned order, restoring the byte read first. |
| IspuOps.IspuWriteMemory | src/driver.rs:1155-1223 | Whenever the result is not a failed bank selection, Main is active afterwards. |
| IspuOps.WriteMemoryInnerRuns | src/driver.rs:1163-1220 | With no bus failure, the closure run in the ISPU bank succeeds. It issues the planned operations using the configuration byte stored before the selection. |
| IspuOps.IspuWriteMemoryOk | src/driver.rs:1155-1223 | With no bus failure, a memory write succeeds and returns to Main. |
| IspuOps.IspuWriteMemoryTrace | src/driver.rs:1155-1223 | With no bus failure, the bus sees, in order: the ISPU selection, the clock off, the memory select, each segment's address and chunk, the restore, and Main. |
| IspuOps.WriteMemoryOpsLayout | src/driver.rs:1166-1217 | Write layout: the configuration byte is read and written back with only `clk_dis` set. The memory is selected with reading disabled, each address select precedes its chunk, and the byte first read is written back last. |
| IspuOps.ClockOffByte | src/driver.rs:1166-1170 | The clock-off byte differs from the saved one only in `clk_dis`, which is 1. |
| IspuOps.ReadAfterClockOff | src/driver.rs:1251-1265 | After the clock is off, the read succeeds exactly when every operation but the dummy read succeeds. It returns the `len` bytes memory delivers to the second port read, not the dummy's. |
| IspuOps.ReadMemoryInner | src/driver.rs:1242-1266 | The read closure succeeds exactly when all of its seven operations but the dummy read succeed, and issues them in order. Its data are what memory delivers to the `len`-byte read. |
| IspuOps.IspuReadMemory | src/driver.rs:1235-1268 | A success returns exactly the `len` bytes ISPU memory delivers to the second read of the data port, with the dummy read's byte dropped. Whenever the result is not a failed bank selection, Main is active afterwards. |
| IspuOps.ReadMemoryInnerRuns | src/driver.rs:1242-1266 | When every operation but the dummy read succeeds, the closure run in the ISPU bank succeeds and issues the planned operations. |
| IspuOps.IspuReadMemoryOk | src/driver.rs:1235-1268 | A memory read succeeds, and returns to Main, even when its dummy read fails. |
| IspuOps.IspuReadMemoryTrace | src/driver.rs:1235-1268 | The bus sees the ISPU selection, the clock off, the memory select with reading enabled, one address select, the dummy read, the `len`-byte read, the restore, and Main. |
| RamSegments.Cuts | src/driver.rs:1183-1195 | Segments start at `a` and then only at boundaries below `a + n`, in order, with one to four starts in all. |
| RamSegments.Segments | src/driver.rs:1183-1197 | There is one segment per start. |
| RamSegments.CutsStep | src/driver.rs:1185-1193 | One more byte adds a start exactly when that byte's address is a boundary. |
| RamSegments.SegmentsStep | src/driver.rs:1184-1195 | One more byte either opens a one-byte segment at a boundary or lengthens the last segment by one. |
| RamSegments.SegmentsShape | src/driver.rs:1177-1197 | There are one to four segments. The first starts at `a`, each later one at a boundary exactly where the previous one ends, and the last ends at `a + n`. |
| RamSegments.NoBoundaryInside | src/driver.rs:1185-1193 | No boundary lies strictly inside a segment. |
| RamSegments.EmptyFirstSegment | src/driver.rs:1183-1197 | An empty write, or one starting on a boundary, begins with an empty segment at `a`. |
| RamSegments.BoundaryStartsSegment | src/driver.rs:1185-1193 | Every boundary inside the range starts a segment of its own. |
| RamSegments.SegmentsCover | src/driver.rs:1177-1197 | The segment lengths add up to `n`. |
| RamSegments.LoopStepAtBoundary | src/driver.rs:1185-1193 | At a boundary the loop closes the open segment and opens a one-byte one, and there is room for it in the arrays. |
| RamSegments.LoopStepInside | src/driver.rs:1194-1194 | Elsewhere the loop lengthens the open segment by one byte. |
| RamSegments.SplitProgramRam | src/driver.rs:1177-1197 | The driver's loop, with its two four-element arrays, computes exactly the reference segments. |
| RamSegments.Chunks | src/driver.rs:1199-1208 | Segment `i` takes the `len_i` bytes after those of the segments before it, so the chunks concatenate to the data consumed. |
| Passthrough.Issue | src/driver.rs:1483-1508 | Each driver call is logged, and it fails with a bus error exactly at a failing position. |
| Passthrough.RunPlan | src/driver.rs:1474-1512 | The reference run of a call list never changes the fault plan and makes at most the planned calls. It succeeds exactly when no unignored call fails, and then makes all of them. |
| Passthrough.RunPlanLog | src/driver.rs:1474-1512 | Whatever happens, the calls made are a prefix of the plan. |
| Passthrough.RunPlanError | src/driver.rs:1474-1512 | On failure the last call made is the failing one: it is not ignored, it sits at a failing position, and the error is its bus error. |
| Passthrough.RunPlanErrorFirst | src/driver.rs:1474-1512 | On failure every call before the failing one succeeded or had its failure ignored. |
| Passthrough.RunPlanOkLog | src/driver.rs:1474-1512 | A successful run makes every call of the plan, in order. |
| Passthrough.RunPlanErrorLast | src/driver.rs:1474-1512 | On failure the last call logged belongs to the plan, is not ignored, and sits at a failing position. |
| Passthrough.TriggerCalls | src/driver.rs:1488-1508 | A hub cycle is seven calls. |
| Passthrough.StartTrigger | src/driver.rs:1488-1492 | The master is enabled, the accelerometer started at 26 Hz and one sample read. |
| Passthrough.StartTriggerFollowsPlan | src/driver.rs:1488-1492 | Starting a cycle is its plan, where the sample read's failure is ignored exactly when the caller is lenient. |
| Passthrough.AwaitCycle | src/driver.rs:1494-1504 | Wait for accelerometer data ready, then for the hub's end of operation. |
| Passthrough.AwaitCycleFollowsPlan | src/driver.rs:1494-1504 | Waiting for a cycle is its plan. |
| Passthrough.StopTrigger | src/driver.rs:1507-1508 | Disable the master, then switch the accelerometer off. |
| Passthrough.StopTriggerFollowsPlan | src/driver.rs:1507-1508 | Stopping a cycle is its plan. |
| Passthrough.RunTrigger | src/driver.rs:1488-1508 | A complete hub cycle makes its seven calls when it succeeds. |
| Passthrough.RunTriggerFollowsPlan | src/driver.rs:1488-1508 | A hub cycle is its plan: same calls, same stopping point, same error. |
| Passthrough.OverflowCounterexample | src/driver.rs:1478-1481 | Writing one byte to register 0xFF: every addressed register exists, yet the driver's `u8` addition overflows. |
| Passthrough.SubaddressesExact | src/driver.rs:1478-1481 | When every addressed register exists, cycle `k` addresses register `wbuf[0] + k` exactly, without wrapping. |
| Passthrough.RegisterAfterShift | src/driver.rs:1481-1481 | Counting on from the next register is counting one further from this one. |
| Passthrough.RegisterAfter | src/driver.rs:1481-1481 | Counting `k` registers on from `first` is addition modulo 256, the `u8` wrap of a release build. |
| Passthrough.Cycles | src/driver.rs:1478-1478 | The loop `1..wbuf.len() as u8` runs one cycle fewer than the buffer's length truncated to 8 bits, and none when that is below two, so it never runs past the buffer. |
| Passthrough.AddsFitAsWritten | src/driver.rs:1481-1481 | The `u8` sum `wbuf[0] + i` is in range for every cycle `i`. |
| Passthrough.SubaddressesFit | src/driver.rs:1478-1481 | Every register a cycle addresses, `wbuf[0] + i - 1`, is at most 0xFF. |
| Passthrough.ConsecutiveWrites | src/driver.rs:1478-1483 | One slot-0 write per data byte, write `k` carrying byte `k` to the register `k` places after the first. |
| Passthrough.WriteConfigs | src/driver.rs:1478-1483 | Cycle `k` (the loop's `i = k + 1`) writes `wbuf[k + 1]` to the register `k` places after `wbuf[0]`. There is one cycle per data byte the 8-bit loop bound admits. |
| Passthrough.CycleCalls | src/driver.rs:1483-1508 | One write cycle is nine calls. |
| Passthrough.WritePlan | src/driver.rs:1478-1509 | The write plan has nine calls per cycle. |
| Passthrough.WriteCycle | src/driver.rs:1479-1508 | A successful write cycle makes its nine calls in order. |
| Passthrough.WriteCycleFollowsPlan | src/driver.rs:1479-1508 | A write cycle is its plan run leniently: the acceleration read's failure is discarded and every other failure ends the cycle. |
| Passthrough.WriteCycles | src/driver.rs:1478-1509 | The cycles in order, stopping at the first failure, are the write plan run leniently. |
| Passthrough.WritePlanAt | src/driver.rs:1478-1509 | Cycle `k`'s calls occupy positions `9k` to `9k + 8` of the plan. |
| Passthrough.DataBytes | src/driver.rs:1482-1482 | There is one data byte per write. |
| Passthrough.ConsecutiveWritesData | src/driver.rs:1482-1482 | Consecutive writes give back the data they were built from. |
| Passthrough.WriteConfigsRecover | src/driver.rs:1478-1483 | For a buffer the 8-bit loop bound does not truncate, the first register and the data bytes of the cycles give back the whole buffer. |
| Passthrough.WriteBytesPlan | src/driver.rs:1478-1509 | `write_bytes` plans nine calls per cycle. |
| Passthrough.PassWriteBytes | src/driver.rs:1474-1512 | For every buffer and every 7-bit device address, `write_bytes` makes exactly the calls of its plan, run leniently, and stops where it stops. A buffer whose length, truncated to 8 bits, is below two makes no call and succeeds. |
| Passthrough.WriteBytesPlanAt | src/driver.rs:1478-1509 | Cycle `k` of `write_bytes` writes data byte `k + 1` to the register `k` places after `wbuf[0]`, with the calls of one write cycle. |
| Passthrough.PassReadBytes | src/driver.rs:1470-1472 | A plain read is refused with `UnexpectedValue` and makes no call. |
| Passthrough.ReadPlan | src/driver.rs:1514-1557 | `write_byte_read_bytes` plans eleven calls. |
| Passthrough.ReadSetup | src/driver.rs:1521-1529 | Switch the accelerometer off, program slot 0 to read the truncated count from the register, and connect sensors. |
| Passthrough.ReadSetupFollowsPlan | src/driver.rs:1521-1529 | Setting up a read is its plan run strictly. |
| Passthrough.PassWriteByteReadBytes | src/driver.rs:1514-1557 | A success makes exactly the planned calls and returns the first `n` bytes of the hub's output registers. |
| Passthrough.PassWriteByteReadBytesFollowsPlan | src/driver.rs:1514-1557 | `write_byte_read_bytes` leaves the bridge as its plan run strictly does, and succeeds exactly when the plan does. |
| Passthrough.WriteCycleIgnoresAccel | src/driver.rs:1492-1492 | A write cycle whose only failing call is the acceleration read still succeeds. |
| Passthrough.ReadStopsAtAccel | src/driver.rs:1535-1535 | In a read, the same failure ends the operation right after the acceleration read. |

## Left out

- I/O, timing and concurrency are not modelled:
  - the bus transport is not modelled; a failing operation is any trace position in the device's fault set, and every transport error is one `Bus` error;
  - the delays of the busy polls are not modelled;
  - each busy poll becomes one wait event, so an unbounded poll is modelled as one that terminates;
  - the `RefCell` borrow of the shared passthrough handle, the async form of `src/driver.rs`, and the `bit_order_msb` feature (only the least-significant-bit-first layouts are modelled) are not modelled.
- Register values are bytes, and a few conversions are not modelled:
  - the byte order of the 16-bit ISPU memory address is assumed to be least significant first; the register macro is not part of this model;
  - the 32-bit ISPU status is modelled as four bytes and a little-endian value.
- SensorCtrl.AccelerationRawGet: returns the six output bytes, not the three `i16` values built from them.
- IspuOps.IspuReadMemory: returns the bytes read instead of copying them into the caller's buffer; slicing panics are excluded by `len < 0x10000` and by the result's length.
- ISPU memory contents are not stored by the model. A device carries the bytes memory delivers to each read of the ISPU data port as a parameter, indexed by trace position. A write through the port is therefore not linked to a later read, and no write-then-read round trip of ISPU memory is stated.
- IspuOps.IspuWriteMemory: its own contract states only the bank and the fault plan; success and the exact bus operations are stated by `IspuOps.IspuWriteMemoryOk` and `IspuOps.IspuWriteMemoryTrace` for a bus without failures, not for every failure pattern.
- IspuOps.IspuReadMemory: likewise, success and the operations are stated by `IspuOps.IspuReadMemoryOk` and `IspuOps.IspuReadMemoryTrace` when only the dummy read may fail.
- SensorHubOps.ShStatusGet: returns the raw byte; the named-flag view is stated field by field through the shared layout.
- Panics of the source become preconditions:
  - an out-of-range value given to a bit-field setter, e.g. a 7-bit device address at most 127 or a count at most 7; this includes the device address of the passthrough (`Passthrough.PassWriteBytes`, `Passthrough.PassWriteByteReadBytes`), which reaches `set_slave0_add` through `sh_cfg_write` and `sh_slv_cfg_read`;
  - `u16` overflow of the ISPU memory address `mem_addr + i` in `ispu_write_memory`;
  - a slice past the end of a buffer.
- `u8` sums in register arithmetic are not preconditions. The model takes the wrap modulo 256 of a release build, and a debug build's overflow panic is characterised by a separate predicate:
  - Passthrough.PassWriteBytes: takes the release-build wrap of `wbuf[0] + i - 1` through `Passthrough.RegisterAfter`; the debug panic is characterised by `Passthrough.AddsFitAsWritten`, not made a precondition;
  - IspuOps.IspuWriteDummyCfgAsWritten and IspuOps.IspuReadDummyCfgAsWritten: take the release-build wrap of `0x73 + offset` and `0x73 + offset + len` for every `u8` offset and length; the debug panic is the case where `IspuOps.DummyEndAsWritten` differs from the true sum, not a precondition.
- Passthrough.PassWriteByteReadBytes: requires the count, truncated to 8 bits, to fit `slave0_numop`, because `sh_slv_cfg_read` would panic otherwise. The hub's output registers after the cycle are a parameter, as the external device's answer is outside the driver.
- The passthrough is modelled at the level of driver calls. Each call's own register traffic is modelled by the members above (`SensorCtrl.XlDataRateSet`, `SensorHubOps.ShCfgWrite`, `SensorHubOps.ShSlvCfgRead`, ...), but the two levels are not composed into one proof.
- Operations outside the core are not modelled: the remaining plain field accessors, such as interrupt routing, self-test, reset and timestamp; unit conversions on floating point; and construction of the driver over I2C or SPI.

## Findings

| source | as written | input that shows it | evidently intended | confidence | as-written member | corrected member |
|---|---|---|---|---|---|---|
| src/driver.rs:1049 | `ispu_write_dummy_cfg` and `ispu_read_dummy_cfg` refuse a request when `0x73 + offset + len > 0x7A`, so no transfer may reach ISPU_DUMMY_CFG_4_H (0x7A) | offset 7, len 1 (one byte to 0x7A) fails with `UnexpectedValue` | refuse only when the last register, `0x73 + offset + len - 1`, is past 0x7A | not executed | IspuOps.IspuWriteDummyCfgAsWritten, IspuOps.DummyCfgCounterexample | IspuOps.IspuWriteDummyCfg, IspuOps.DummyCfgReachesWindow |
| src/lib.rs:940-944 | `ispu_bdu_get` decodes CTRL9_C's `ispu_rate` field instead of `ispu_bdu` | all registers 0, `ispu_bdu_set(On2b4b)`, then `ispu_bdu_get` returns Off | decode `ispu_bdu`, so get-after-set returns the mode set | not executed | IspuOps.IspuBduGetAsWritten, IspuOps.IspuBduCounterexample | IspuOps.IspuBduGet, IspuOps.IspuBduGetAfterSet |
| src/lib.rs:504-508 | `all_sources_get` copies `sens_hub_endop` into the four nack flags and the write-once flag | STATUS_MASTER_MAINPAGE = 0x08 (slave 0 nack, no end of operation) reports no nack | read each flag from its own bit | not executed | SensorHubOps.AllSourcesGetAsWritten, SensorHubOps.AllSourcesCounterexample | SensorHubOps.AllSourcesGet, SensorHubOps.AllSourcesAgreeElsewhere |
| src/driver.rs:1072 | `ispu_read_dummy_cfg` (and `ispu_write_dummy_cfg` at line 1049) evaluate `0x73 + offset + len` in `u8`; in a release build the sum wraps, so a request far outside the window passes the check | offset 0x90, len 0x10: the sum 0x113 wraps to 0x13, the check passes, and 16 bytes are read from register 0x03 | refuse every request whose registers leave the window, computing the sum without overflow | not executed | IspuOps.IspuReadDummyCfgAsWritten, IspuOps.DummyCfgWrapCounterexample | IspuOps.IspuReadDummyCfg, IspuOps.IspuWriteDummyCfg, IspuOps.DummyCfgFits |
| src/driver.rs:1481 | `write_bytes` computes the register of cycle `i` as `wbuf[0] + i - 1` in `u8`, adding `i` first, which overflows (a panic in a debug build) when `wbuf[0] + i > 0xFF` | `wbuf = [0xFF, 0x2A]`: one byte to the existing register 0xFF | compute `wbuf[0] + (i - 1)`, which stays in range whenever every addressed register exists | not executed | Passthrough.AddsFitAsWritten, Passthrough.OverflowCounterexample | Passthrough.RegisterAfter, Passthrough.SubaddressesExact, Passthrough.PassWriteBytes |
