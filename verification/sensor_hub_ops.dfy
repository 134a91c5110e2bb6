/**
 * The sensor hub (I2C master) seen from the driver: slot configuration,
 * master enable, hub rate, number of connected sensors and its output
 * registers, all reached inside the sensor-hub bank, plus the status reads
 * the Main bank mirrors.
 */
module SensorHubOps {
  import opened Bits
  import opened Wrappers
  import opened MemBanks
  import opened Device
  import opened MainRegs
  import opened SensorHubRegs
  import opened BankOps

  /** A SLVx_ADD byte built from zero: the 7-bit device address and the read/write flag (1 = read). */
  function AddByte(add: byte, rw: byte): (r: byte)
    requires add < 128 && rw <= 1
    ensures Get(r, SLAVE0_ADD) == add && Get(r, RW_0) == rw
  {
    Set(Set(0, SLAVE0_ADD, add), RW_0, rw)
  }

  // ---------------------------------------------------------------------
  // Slot 0 write transaction
  // ---------------------------------------------------------------------

  /** The three writes that program slot 0 for a write transaction. */
  function CfgWriteOps(bank: MemBank, cfg: ShCfgWrite): seq<BusOp>
    requires cfg.slv0Add < 128
  {
    [WriteOp(bank, SLV0_ADD, [AddByte(cfg.slv0Add, 0)]), WriteOp(bank, SLV0_SUBADD, [cfg.slv0Subadd]),
      WriteOp(bank, DATAWRITE_SLV0, [cfg.slv0Data])]
  }

  /**
   * The closure of `sh_cfg_write`: the address byte, the register and the
   * data, in that order; the first failure stops the rest.
   */
  function CfgWriteInner(d: Dev, cfg: ShCfgWrite): (r: Out<()>)
    requires cfg.slv0Add < 128
    ensures r.dev.faults == d.faults
    ensures Extends(d, r.dev) && |d.trace| < |r.dev.trace| <= |d.trace| + 3
    ensures r.res.Ok? <==> ClearFor(d, 3)
    ensures r.res.Ok? ==> r.dev.trace == d.trace + CfgWriteOps(ActiveBank(d), cfg)
    ensures r.res.Err? ==> r.res.error == Bus
  {
    var o1 :- Write1(d, SLV0_ADD, AddByte(cfg.slv0Add, 0));
    var o2 :- Write1(o1.dev, SLV0_SUBADD, cfg.slv0Subadd);
    Write1(o2.dev, DATAWRITE_SLV0, cfg.slv0Data)
  }

  /**
   * `sh_cfg_write`: the closure inside the sensor-hub bank; with no bus
   * failure it issues its three writes there and returns to Main.
   */
  function ShCfgWrite(d: Dev, cfg: ShCfgWrite): (r: Out<()>)
    requires cfg.slv0Add < 128
    ensures r.dev.faults == d.faults
    ensures r.res.Ok? <==> ClearFor(d, 5)
    ensures r.res.Ok? ==>
      r.dev.trace == d.trace + [SelectOp(SensorHubMemBank)] + CfgWriteOps(SensorHubMemBank, cfg) + [SelectOp(MainMemBank)]
    ensures (r.res.Ok? || !r.res.error.FailedToSetMemBank?) ==> ActiveBank(r.dev) == MainMemBank
  {
    OperateOver(d, SensorHubMemBank, e => CfgWriteInner(e, cfg))
  }

  /**
   * With no bus failure, `sh_cfg_write` leaves slot 0 of the sensor-hub bank
   * programmed for a write: SLV0_ADD holds the device address with the
   * read/write flag clear, SLV0_SUBADD the register and DATAWRITE_SLV0 the
   * byte to write.
   */
  lemma ShCfgWriteEffect(d: Dev, cfg: ShCfgWrite)
    requires cfg.slv0Add < 128 && ClearFor(d, 5)
    ensures ShCfgWrite(d, cfg).res.Ok?
    ensures var a := Peek(ShCfgWrite(d, cfg).dev.regs, Key(SensorHubMemBank, SLV0_ADD));
      Get(a, SLAVE0_ADD) == cfg.slv0Add && Get(a, RW_0) == 0
    ensures Peek(ShCfgWrite(d, cfg).dev.regs, Key(SensorHubMemBank, SLV0_SUBADD)) == cfg.slv0Subadd
    ensures Peek(ShCfgWrite(d, cfg).dev.regs, Key(SensorHubMemBank, DATAWRITE_SLV0)) == cfg.slv0Data
  {
    var s := MemBankSet(d, SensorHubMemBank);
    var o1 := Write1(s.dev, SLV0_ADD, AddByte(cfg.slv0Add, 0));
    var o2 := Write1(o1.dev, SLV0_SUBADD, cfg.slv0Subadd);
    var o3 := Write1(o2.dev, DATAWRITE_SLV0, cfg.slv0Data);
    assert CfgWriteInner(s.dev, cfg) == o3;
    assert Peek(o3.dev.regs, Key(SensorHubMemBank, SLV0_ADD)) == AddByte(cfg.slv0Add, 0);
    SelectKeeps(o3.dev, MainMemBank, Key(SensorHubMemBank, SLV0_ADD));
    SelectKeeps(o3.dev, MainMemBank, Key(SensorHubMemBank, SLV0_SUBADD));
    SelectKeeps(o3.dev, MainMemBank, Key(SensorHubMemBank, DATAWRITE_SLV0));
  }

  // ---------------------------------------------------------------------
  // Slot read configuration (raw bank switching)
  // ---------------------------------------------------------------------

  /**
   * The slot-register accesses of `sh_slv_cfg_read`, all in the sensor-hub
   * bank: `newCfg` is the configuration byte written back.
   */
  function SlvCfgReadOps(slot: SlotRegs, add: byte, sub: byte, newCfg: byte): seq<BusOp>
  {
    [WriteOp(SensorHubMemBank, slot.add, [add]), WriteOp(SensorHubMemBank, slot.subadd, [sub]),
      ReadOp(SensorHubMemBank, slot.config, 1), WriteOp(SensorHubMemBank, slot.config, [newCfg])]
  }

  /** A slot's register triple: three consecutive sensor-hub registers between SLV0_ADD and SLV3_CONFIG. */
  predicate SlotShape(slot: SlotRegs)
  {
    SLV0_ADD <= slot.add <= SLV3_ADD && slot.subadd == slot.add + 1 && slot.config == slot.add + 2
  }

  /** The first two writes of `sh_slv_cfg_read`: the slot's address byte, then its register. */
  function SlotAddress(d: Dev, slot: SlotRegs, add: byte, sub: byte): (r: Out<()>)
    requires SlotShape(slot) && ActiveBank(d) == SensorHubMemBank
    ensures r.dev.faults == d.faults
    ensures Extends(d, r.dev) && |d.trace| < |r.dev.trace| <= |d.trace| + 2
    ensures r.res.Ok? <==> ClearFor(d, 2)
    ensures r.res.Err? ==> r.res.error == Bus
    ensures r.res.Ok? ==> r.dev.trace == d.trace + [WriteOp(SensorHubMemBank, slot.add, [add]), WriteOp(SensorHubMemBank, slot.subadd, [sub])]
    ensures r.res.Ok? ==> r.dev.regs == d.regs[Key(SensorHubMemBank, slot.add) := add][Key(SensorHubMemBank, slot.subadd) := sub]
    ensures ActiveBank(r.dev) == SensorHubMemBank
  {
    var o1 :- Write1(d, slot.add, add);
    Write1(o1.dev, slot.subadd, sub)
  }

  /** The read-modify-write of `sh_slv_cfg_read` that sets a slot's number of reads. */
  function NumopUpdate(d: Dev, reg: nat, len: byte): (r: Out<()>)
    requires SLV0_CONFIG <= reg <= SLV3_CONFIG && ActiveBank(d) == SensorHubMemBank
    ensures r.dev.faults == d.faults
    ensures Extends(d, r.dev) && |d.trace| < |r.dev.trace| <= |d.trace| + 2
    ensures r.res.Ok? <==> ClearFor(d, 2)
    ensures r.res.Err? ==> r.res.error == Bus
    ensures r.res.Ok? ==> r.dev.trace == d.trace + [ReadOp(SensorHubMemBank, reg, 1), WriteOp(SensorHubMemBank, reg, [Peek(r.dev.regs, Key(SensorHubMemBank, reg))])]
    ensures r.res.Ok? ==> r.dev.regs == d.regs[Key(SensorHubMemBank, reg) := Peek(r.dev.regs, Key(SensorHubMemBank, reg))]
    ensures r.res.Ok? ==> Peek(r.dev.regs, Key(SensorHubMemBank, reg)) == Set(Peek(d.regs, Key(SensorHubMemBank, reg)), SLAVE0_NUMOP, len)
    ensures ActiveBank(r.dev) == SensorHubMemBank
  {
    var c :- Read1(d, reg);
    Write1(c.dev, reg, Set(c.res.value, SLAVE0_NUMOP, len))
  }

  /**
   * The slot-register part of `sh_slv_cfg_read`: address byte, register,
   * then a read-modify-write of the slot's number of reads.
   */
  function SlvCfgReadSlot(d: Dev, slot: SlotRegs, add: byte, sub: byte, len: byte): (r: Out<()>)
    requires SlotShape(slot) && ActiveBank(d) == SensorHubMemBank
    ensures r.dev.faults == d.faults
    ensures Extends(d, r.dev) && |d.trace| < |r.dev.trace| <= |d.trace| + 4
    ensures r.res.Ok? <==> ClearFor(d, 4)
    ensures r.res.Err? ==> r.res.error == Bus
    ensures r.res.Ok? ==> r.dev.trace == d.trace + SlvCfgReadOps(slot, add, sub, Peek(r.dev.regs, Key(SensorHubMemBank, slot.config)))
    ensures r.res.Ok? ==> Peek(r.dev.regs, Key(SensorHubMemBank, slot.add)) == add
    ensures r.res.Ok? ==> Peek(r.dev.regs, Key(SensorHubMemBank, slot.subadd)) == sub
    ensures r.res.Ok? ==> Peek(r.dev.regs, Key(SensorHubMemBank, slot.config)) ==
                          Set(Peek(d.regs, Key(SensorHubMemBank, slot.config)), SLAVE0_NUMOP, len)
    ensures ActiveBank(r.dev) == SensorHubMemBank
  {
    var o := SlotAddress(d, slot, add, sub);
    if o.res.Err? then Out(o.dev, Err(o.res.error))
    else
      SlotThenNumopTrace(d, slot, add, sub, len);
      SlotThenNumopRegs(d, slot, add, sub, len);
      NumopUpdate(o.dev, slot.config, len)
  }

  /** After the two slot writes, the count update completes the four slot accesses in order. */
  lemma SlotThenNumopTrace(d: Dev, slot: SlotRegs, add: byte, sub: byte, len: byte)
    requires SlotShape(slot) && ActiveBank(d) == SensorHubMemBank && SlotAddress(d, slot, add, sub).res.Ok?
    ensures var r := NumopUpdate(SlotAddress(d, slot, add, sub).dev, slot.config, len);
      && Extends(d, r.dev) && |d.trace| < |r.dev.trace| <= |d.trace| + 4
      && (r.res.Ok? <==> ClearFor(d, 4))
      && (r.res.Ok? ==> r.dev.trace == d.trace + SlvCfgReadOps(slot, add, sub, Peek(r.dev.regs, Key(SensorHubMemBank, slot.config))))
  {
    var o := SlotAddress(d, slot, add, sub);
    ClearSplit(d, o.dev, 2, 2);
    ExtendsTrans(d, o.dev, NumopUpdate(o.dev, slot.config, len).dev);
  }

  /** After the two slot writes, the count update leaves the slot's three registers programmed. */
  lemma SlotThenNumopRegs(d: Dev, slot: SlotRegs, add: byte, sub: byte, len: byte)
    requires SlotShape(slot) && ActiveBank(d) == SensorHubMemBank && SlotAddress(d, slot, add, sub).res.Ok?
    ensures var r := NumopUpdate(SlotAddress(d, slot, add, sub).dev, slot.config, len);
      r.res.Ok? ==>
        && Peek(r.dev.regs, Key(SensorHubMemBank, slot.add)) == add
        && Peek(r.dev.regs, Key(SensorHubMemBank, slot.subadd)) == sub
        && Peek(r.dev.regs, Key(SensorHubMemBank, slot.config)) == Set(Peek(d.regs, Key(SensorHubMemBank, slot.config)), SLAVE0_NUMOP, len)
  {
    var o := SlotAddress(d, slot, add, sub);
    assert Peek(o.dev.regs, Key(SensorHubMemBank, slot.config)) == Peek(d.regs, Key(SensorHubMemBank, slot.config));
  }

  /** The part of `sh_slv_cfg_read` after the sensor-hub bank is selected: the slot accesses, then Main again. */
  function SlotThenMain(d: Dev, slot: SlotRegs, add: byte, sub: byte, len: byte): (r: Out<()>)
    requires SlotShape(slot) && ActiveBank(d) == SensorHubMemBank
    ensures r.dev.faults == d.faults
    ensures r.res.Ok? ==> ActiveBank(r.dev) == MainMemBank
    ensures r.res.Ok? <==> ClearFor(d, 5)
  {
    var o := SlvCfgReadSlot(d, slot, add, sub, len);
    if o.res.Err? then
      ClearMono(d, 4, 5);
      Out(o.dev, Err(o.res.error))
    else
      ClearSplit(d, o.dev, 4, 1);
      ClearOne(o.dev);
      MemBankSet(o.dev, MainMemBank)
  }

  /** The bus operations of a successful `SlotThenMain`. */
  lemma SlotThenMainTrace(d: Dev, slot: SlotRegs, add: byte, sub: byte, len: byte)
    requires SlotShape(slot) && ActiveBank(d) == SensorHubMemBank
    ensures var r := SlotThenMain(d, slot, add, sub, len);
      r.res.Ok? ==> r.dev.trace == d.trace + SlvCfgReadOps(slot, add, sub, Peek(r.dev.regs, Key(SensorHubMemBank, slot.config))) + [SelectOp(MainMemBank)]
  {
    var o := SlvCfgReadSlot(d, slot, add, sub, len);
    if o.res.Ok? {
      SelectKeeps(o.dev, MainMemBank, Key(SensorHubMemBank, slot.config));
    }
  }

  /** The slot's address byte after a successful `SlotThenMain`. */
  lemma SlotThenMainAddress(d: Dev, slot: SlotRegs, add: byte, sub: byte, len: byte)
    requires SlotShape(slot) && ActiveBank(d) == SensorHubMemBank
    ensures var r := SlotThenMain(d, slot, add, sub, len);
      r.res.Ok? ==> Peek(r.dev.regs, Key(SensorHubMemBank, slot.add)) == add
  {
    var o := SlvCfgReadSlot(d, slot, add, sub, len);
    if o.res.Ok? {
      SelectKeeps(o.dev, MainMemBank, Key(SensorHubMemBank, slot.add));
    }
  }

  /** The slot's register byte after a successful `SlotThenMain`. */
  lemma SlotThenMainRegister(d: Dev, slot: SlotRegs, add: byte, sub: byte, len: byte)
    requires SlotShape(slot) && ActiveBank(d) == SensorHubMemBank
    ensures var r := SlotThenMain(d, slot, add, sub, len);
      r.res.Ok? ==> Peek(r.dev.regs, Key(SensorHubMemBank, slot.subadd)) == sub
  {
    var o := SlvCfgReadSlot(d, slot, add, sub, len);
    if o.res.Ok? {
      SelectKeeps(o.dev, MainMemBank, Key(SensorHubMemBank, slot.subadd));
    }
  }

  /** The slot's configuration byte after a successful `SlotThenMain`. */
  lemma SlotThenMainConfig(d: Dev, slot: SlotRegs, add: byte, sub: byte, len: byte)
    requires SlotShape(slot) && ActiveBank(d) == SensorHubMemBank
    ensures var r := SlotThenMain(d, slot, add, sub, len);
      r.res.Ok? ==> Peek(r.dev.regs, Key(SensorHubMemBank, slot.config)) ==
                    Set(Peek(d.regs, Key(SensorHubMemBank, slot.config)), SLAVE0_NUMOP, len)
  {
    var o := SlvCfgReadSlot(d, slot, add, sub, len);
    if o.res.Ok? {
      SelectKeeps(o.dev, MainMemBank, Key(SensorHubMemBank, slot.config));
    }
  }

  /**
   * `sh_slv_cfg_read`: selects the sensor-hub bank by hand, programs the
   * slot `idx` names (any index above 3 means slot 0), and selects Main
   * again only if everything before succeeded.
   */
  function ShSlvCfgRead(d: Dev, idx: byte, cfg: ShCfgRead): (r: Out<()>)
    requires cfg.slvAdd < 128 && cfg.slvLen < 8
    ensures r.dev.faults == d.faults
    ensures r.res.Ok? <==> ClearFor(d, 6)
    ensures |d.trace| in d.faults ==> r.res == Err(FailedToSetMemBank(SensorHubMemBank))
    ensures r.res.Ok? ==> ActiveBank(r.dev) == MainMemBank
  {
    var s := MemBankSet(d, SensorHubMemBank);
    if s.res.Err? then Out(s.dev, Err(s.res.error))
    else
      ClearSplit(d, s.dev, 1, 5);
      SlotThenMain(s.dev, SlotFor(idx), AddByte(cfg.slvAdd, 1), cfg.slvSubadd, cfg.slvLen)
  }

  /**
   * A successful `sh_slv_cfg_read` issues, in order: the sensor-hub bank
   * selection, the slot's address and register writes, the read and write
   * back of its configuration byte, and the selection of Main.
   */
  lemma ShSlvCfgReadTrace(d: Dev, idx: byte, cfg: ShCfgRead)
    requires cfg.slvAdd < 128 && cfg.slvLen < 8
    ensures var r := ShSlvCfgRead(d, idx, cfg);
      r.res.Ok? ==> (r.dev.trace == d.trace + [SelectOp(SensorHubMemBank)] +
        SlvCfgReadOps(SlotFor(idx), AddByte(cfg.slvAdd, 1), cfg.slvSubadd,
          Peek(r.dev.regs, Key(SensorHubMemBank, SlotFor(idx).config))) + [SelectOp(MainMemBank)])
  {
    var s := MemBankSet(d, SensorHubMemBank);
    if s.res.Ok? {
      SlotThenMainTrace(s.dev, SlotFor(idx), AddByte(cfg.slvAdd, 1), cfg.slvSubadd, cfg.slvLen);
    }
  }

  /**
   * With no bus failure, `sh_slv_cfg_read` programs the slot in the
   * sensor-hub bank: the slot's address and register hold the values given,
   * its number of reads is set and its other configuration bits are kept.
   */
  lemma ShSlvCfgReadEffect(d: Dev, idx: byte, cfg: ShCfgRead)
    requires cfg.slvAdd < 128 && cfg.slvLen < 8 && ClearFor(d, 6)
    ensures ShSlvCfgRead(d, idx, cfg).res.Ok?
    ensures var a := Peek(ShSlvCfgRead(d, idx, cfg).dev.regs, Key(SensorHubMemBank, SlotFor(idx).add));
      Get(a, SLAVE0_ADD) == cfg.slvAdd && Get(a, RW_0) == 1
    ensures Peek(ShSlvCfgRead(d, idx, cfg).dev.regs, Key(SensorHubMemBank, SlotFor(idx).subadd)) == cfg.slvSubadd
    ensures var after := Peek(ShSlvCfgRead(d, idx, cfg).dev.regs, Key(SensorHubMemBank, SlotFor(idx).config));
      Get(after, SLAVE0_NUMOP) == cfg.slvLen
    ensures var before := Peek(d.regs, Key(SensorHubMemBank, SlotFor(idx).config));
      var after := Peek(ShSlvCfgRead(d, idx, cfg).dev.regs, Key(SensorHubMemBank, SlotFor(idx).config));
      after & !Mask(SLAVE0_NUMOP) == before & !Mask(SLAVE0_NUMOP)
  {
    var slot := SlotFor(idx);
    var s := MemBankSet(d, SensorHubMemBank);
    var before := Peek(d.regs, Key(SensorHubMemBank, slot.config));
    SelectKeeps(d, SensorHubMemBank, Key(SensorHubMemBank, slot.config));
    SlotThenMainAddress(s.dev, slot, AddByte(cfg.slvAdd, 1), cfg.slvSubadd, cfg.slvLen);
    SlotThenMainRegister(s.dev, slot, AddByte(cfg.slvAdd, 1), cfg.slvSubadd, cfg.slvLen);
    SlotThenMainConfig(s.dev, slot, AddByte(cfg.slvAdd, 1), cfg.slvSubadd, cfg.slvLen);
    GetSetSame(before, SLAVE0_NUMOP, cfg.slvLen);
  }

  /**
   * Unlike the scoped helpers, a failure after the switch to the sensor-hub
   * bank returns with that bank still selected.
   */
  lemma ShSlvCfgReadLeavesBank(d: Dev, idx: byte, cfg: ShCfgRead)
    requires cfg.slvAdd < 128 && cfg.slvLen < 8
    requires |d.trace| !in d.faults && !ClearFor(d, 5)
    ensures ShSlvCfgRead(d, idx, cfg).res == Err(Bus)
    ensures ActiveBank(ShSlvCfgRead(d, idx, cfg).dev) == SensorHubMemBank
  {
    var s := MemBankSet(d, SensorHubMemBank);
    ClearSplit(d, s.dev, 1, 4);
    var o := SlvCfgReadSlot(s.dev, SlotFor(idx), AddByte(cfg.slvAdd, 1), cfg.slvSubadd, cfg.slvLen);
    assert o.res.Err?;
  }

  // ---------------------------------------------------------------------
  // MASTER_CONFIG and SLV0_CONFIG settings
  // ---------------------------------------------------------------------

  /** `sh_master_set`: read-modify-write of MASTER_CONFIG.master_on inside the sensor-hub bank. */
  function ShMasterSet(d: Dev, v: byte): (r: Out<()>)
    requires v <= 1
    ensures r.dev.faults == d.faults
    ensures r.res.Ok? <==> ClearFor(d, 4)
    ensures r.res.Ok? ==> Extends(d, r.dev) && |r.dev.trace| == |d.trace| + 4
    ensures r.res.Ok? ==>
      && Get(Peek(r.dev.regs, Key(SensorHubMemBank, MASTER_CONFIG)), MASTER_ON) == v
      && Peek(r.dev.regs, Key(SensorHubMemBank, MASTER_CONFIG)) & !Mask(MASTER_ON) ==
         Peek(d.regs, Key(SensorHubMemBank, MASTER_CONFIG)) & !Mask(MASTER_ON)
      && ActiveBank(r.dev) == MainMemBank
  {
    GetSetSame(Peek(d.regs, Key(SensorHubMemBank, MASTER_CONFIG)), MASTER_ON, v);
    ModifyOver(d, SensorHubMemBank, MASTER_CONFIG, MASTER_ON, v)
  }

  /** `sh_master_get`: MASTER_CONFIG.master_on read inside the sensor-hub bank. */
  function ShMasterGet(d: Dev): (r: Out<byte>)
    ensures r.dev.faults == d.faults
    ensures r.res.Ok? <==> ClearFor(d, 3)
    ensures r.res.Ok? ==> r.res.value == Get(Peek(d.regs, Key(SensorHubMemBank, MASTER_CONFIG)), MASTER_ON)
    ensures r.res.Ok? ==> ActiveBank(r.dev) == MainMemBank
  {
    var o :- ReadOver(d, SensorHubMemBank, MASTER_CONFIG);
    Out(o.dev, Ok(Get(o.res.value, MASTER_ON)))
  }

  /** With no bus failure, reading the master enable back returns the value set. */
  lemma ShMasterGetAfterSet(d: Dev, v: byte)
    requires v <= 1 && ClearFor(d, 7)
    ensures ShMasterSet(d, v).res.Ok?
    ensures ShMasterGet(ShMasterSet(d, v).dev).res == Ok(v)
  {
    ClearPrefix(d, 4, 3);
    ClearShift(d, ShMasterSet(d, v).dev, 4, 3);
  }

  /** `sh_slave_connected_set`: read-modify-write of MASTER_CONFIG.aux_sens_on inside the sensor-hub bank. */
  function ShSlaveConnectedSet(d: Dev, s: ShSlaveConnected): (r: Out<()>)
    ensures r.dev.faults == d.faults
    ensures r.res.Ok? <==> ClearFor(d, 4)
    ensures r.res.Ok? ==> Extends(d, r.dev) && |r.dev.trace| == |d.trace| + 4
    ensures r.res.Ok? ==>
      && Get(Peek(r.dev.regs, Key(SensorHubMemBank, MASTER_CONFIG)), AUX_SENS_ON) == ShSlaveConnectedCode(s)
      && Peek(r.dev.regs, Key(SensorHubMemBank, MASTER_CONFIG)) & !Mask(AUX_SENS_ON) ==
         Peek(d.regs, Key(SensorHubMemBank, MASTER_CONFIG)) & !Mask(AUX_SENS_ON)
      && ActiveBank(r.dev) == MainMemBank
  {
    GetSetSame(Peek(d.regs, Key(SensorHubMemBank, MASTER_CONFIG)), AUX_SENS_ON, ShSlaveConnectedCode(s) & 3);
    ModifyOver(d, SensorHubMemBank, MASTER_CONFIG, AUX_SENS_ON, ShSlaveConnectedCode(s) & 3)
  }

  /** The number of connected sensors a 2-bit aux_sens_on value names. */
  function SlaveConnectedOf(c: byte): (s: ShSlaveConnected)
    requires c <= 3
    ensures ShSlaveConnectedCode(s) == c
  {
    if c == 0 then Slave0 else if c == 1 then Slaves01 else if c == 2 then Slaves012 else Slaves0123
  }

  /** Distinct settings have distinct codes. */
  lemma SlaveConnectedCodeInjective(a: ShSlaveConnected, b: ShSlaveConnected)
    requires ShSlaveConnectedCode(a) == ShSlaveConnectedCode(b)
    ensures a == b
  {
  }

  /** `sh_slave_connected_get`: MASTER_CONFIG read inside the sensor-hub bank, then aux_sens_on decoded. */
  function ShSlaveConnectedGet(d: Dev): (r: Out<ShSlaveConnected>)
    ensures r.dev.faults == d.faults
    ensures r.res.Ok? <==> ClearFor(d, 3)
    ensures r.res.Ok? ==> ShSlaveConnectedCode(r.res.value) == Get(Peek(d.regs, Key(SensorHubMemBank, MASTER_CONFIG)), AUX_SENS_ON)
  {
    var o :- ReadOver(d, SensorHubMemBank, MASTER_CONFIG);
    Out(o.dev, Ok(SlaveConnectedOf(Get(o.res.value, AUX_SENS_ON))))
  }

  /** With no bus failure, reading the number of connected sensors back returns the setting. */
  lemma ShSlaveConnectedGetAfterSet(d: Dev, s: ShSlaveConnected)
    requires ClearFor(d, 7)
    ensures ShSlaveConnectedSet(d, s).res.Ok?
    ensures ShSlaveConnectedGet(ShSlaveConnectedSet(d, s).dev).res == Ok(s)
  {
    ClearPrefix(d, 4, 3);
    var e := ShSlaveConnectedSet(d, s).dev;
    ClearShift(d, e, 4, 3);
    var g := ShSlaveConnectedGet(e).res.value;
    SlaveConnectedCodeInjective(g, s);
  }

  /** A hub-rate code is unchanged by the 3-bit mask the setter applies. */
  lemma LowBits(c: byte)
    requires c <= 3
    ensures c & 0x07 == c && Fits(SHUB_ODR, c)
  {
  }

  /** `sh_data_rate_set`: read-modify-write of SLV0_CONFIG.shub_odr inside the sensor-hub bank. */
  function ShDataRateSet(d: Dev, v: ShDataRate): (r: Out<()>)
    ensures r.dev.faults == d.faults
    ensures r.res.Ok? <==> ClearFor(d, 4)
    ensures r.res.Ok? ==> Extends(d, r.dev) && |r.dev.trace| == |d.trace| + 4
    ensures r.res.Ok? ==>
      && Get(Peek(r.dev.regs, Key(SensorHubMemBank, SLV0_CONFIG)), SHUB_ODR) == ShDataRateCode(v)
      && Peek(r.dev.regs, Key(SensorHubMemBank, SLV0_CONFIG)) & !Mask(SHUB_ODR) ==
         Peek(d.regs, Key(SensorHubMemBank, SLV0_CONFIG)) & !Mask(SHUB_ODR)
      && ActiveBank(r.dev) == MainMemBank
  {
    var c := ShDataRateCode(v);
    LowBits(c);
    GetSetSame(Peek(d.regs, Key(SensorHubMemBank, SLV0_CONFIG)), SHUB_ODR, c);
    ModifyOver(d, SensorHubMemBank, SLV0_CONFIG, SHUB_ODR, c & 0x07)
  }

  /** `sh_data_rate_get`: SLV0_CONFIG.shub_odr read inside the sensor-hub bank; every 2-bit value names a rate. */
  function ShDataRateGet(d: Dev): (r: Out<ShDataRate>)
    ensures r.dev.faults == d.faults
    ensures r.res.Ok? <==> ClearFor(d, 3)
    ensures r.res.Ok? ==> ShDataRateCode(r.res.value) == Get(Peek(d.regs, Key(SensorHubMemBank, SLV0_CONFIG)), SHUB_ODR)
  {
    var o :- ReadOver(d, SensorHubMemBank, SLV0_CONFIG);
    Out(o.dev, Ok(ShDataRateFrom(Get(o.res.value, SHUB_ODR)).GetOr(SH_DATA_RATE_DEFAULT)))
  }

  /** With no bus failure, reading the hub rate back returns the rate set. */
  lemma ShDataRateGetAfterSet(d: Dev, v: ShDataRate)
    requires ClearFor(d, 7)
    ensures ShDataRateSet(d, v).res.Ok?
    ensures ShDataRateGet(ShDataRateSet(d, v).dev).res == Ok(v)
  {
    ClearPrefix(d, 4, 3);
    var e := ShDataRateSet(d, v).dev;
    ClearShift(d, e, 4, 3);
    var g := ShDataRateGet(e);
    assert ShDataRateCode(g.res.value) == ShDataRateCode(v);
  }

  // ---------------------------------------------------------------------
  // Output and status
  // ---------------------------------------------------------------------

  /** `sh_read_data_raw_get`: `n` bytes from SENSOR_HUB_1 on, read inside the sensor-hub bank. */
  function ShReadDataRawGet(d: Dev, n: nat): (r: Out<seq<byte>>)
    ensures r.dev.faults == d.faults
    ensures r.res.Ok? <==> ClearFor(d, 3)
    ensures r.res.Ok? ==> |r.res.value| == n
    ensures r.res.Ok? ==> forall i :: 0 <= i < n ==> r.res.value[i] == Peek(d.regs, Key(SensorHubMemBank, SENSOR_HUB_1 + i))
    ensures r.res.Ok? ==> r.dev.trace == d.trace + [SelectOp(SensorHubMemBank), ReadOp(SensorHubMemBank, SENSOR_HUB_1, n), SelectOp(MainMemBank)]
    ensures r.res.Ok? ==> ActiveBank(r.dev) == MainMemBank
  {
    OperateOver(d, SensorHubMemBank, e => Read(e, SENSOR_HUB_1, n))
  }

  /**
   * `sh_status_get`: STATUS_MASTER_MAINPAGE read in place, reinterpreted as
   * STATUS_MASTER; the two share one layout, so every flag keeps its meaning.
   */
  function ShStatusGet(d: Dev): (r: Out<byte>)
    ensures r.dev == d.(trace := d.trace + [ReadOp(ActiveBank(d), STATUS_MASTER_MAINPAGE, 1)])
    ensures r.res.Err? <==> |d.trace| in d.faults
    ensures r.res.Ok? ==> forall i :: 0 <= i < |STATUS_MASTER_LAYOUT| ==>
      Get(r.res.value, STATUS_MASTER_LAYOUT[i]) == Get(RegValue(d, STATUS_MASTER_MAINPAGE), STATUS_MASTER_LAYOUT[i])
  {
    Read1(d, STATUS_MASTER_MAINPAGE)
  }

  // ---------------------------------------------------------------------
  // All interrupt sources
  // ---------------------------------------------------------------------

  /** The interrupt sources `all_sources_get` reports. */
  datatype AllSources = AllSources(
    drdyXl: byte, drdyGy: byte, drdyTemp: byte,
    shEndop: byte, shSlave0Nack: byte, shSlave1Nack: byte, shSlave2Nack: byte, shSlave3Nack: byte, shWrOnce: byte,
    ispu: nat)

  /** A little-endian 32-bit register value. */
  function Word(bs: seq<byte>): (w: nat)
    requires |bs| == 4
    ensures w < 0x1_0000_0000
  {
    ByteRange(bs[0]); ByteRange(bs[1]); ByteRange(bs[2]); ByteRange(bs[3]);
    bs[0] as nat + 0x100 * bs[1] as nat + 0x1_0000 * bs[2] as nat + 0x100_0000 * bs[3] as nat
  }

  /** The three reads of `all_sources_get`: STATUS_REG, STATUS_MASTER_MAINPAGE, then the 4-byte ISPU status. */
  function SourcesRead(d: Dev): (r: Out<(byte, byte, seq<byte>)>)
    ensures r.dev.regs == d.regs && r.dev.faults == d.faults
    ensures r.res.Ok? <==> ClearFor(d, 3)
    ensures r.res.Ok? ==> r.dev.trace == d.trace + [ReadOp(ActiveBank(d), STATUS_REG, 1),
      ReadOp(ActiveBank(d), STATUS_MASTER_MAINPAGE, 1), ReadOp(ActiveBank(d), ISPU_INT_STATUS0_MAINPAGE, 4)]
    ensures r.res.Ok? ==> r.res.value.0 == RegValue(d, STATUS_REG) && r.res.value.1 == RegValue(d, STATUS_MASTER_MAINPAGE)
    ensures r.res.Ok? ==> |r.res.value.2| == 4
    ensures r.res.Ok? ==> forall i :: 0 <= i < 4 ==> r.res.value.2[i] == RegValue(d, ISPU_INT_STATUS0_MAINPAGE + i)
  {
    var o1 :- Read1(d, STATUS_REG);
    var o2 :- Read1(o1.dev, STATUS_MASTER_MAINPAGE);
    var o3 :- Read(o2.dev, ISPU_INT_STATUS0_MAINPAGE, 4);
    Out(o3.dev, Ok((o1.res.value, o2.res.value, o3.res.value)))
  }

  /** `all_sources_get` as written: the four nack flags and the write-once flag are all copies of sens_hub_endop. */
  function AllSourcesGetAsWritten(d: Dev): (r: Out<AllSources>)
    ensures r.dev.regs == d.regs && r.dev.faults == d.faults
    ensures r.res.Ok? <==> ClearFor(d, 3)
    ensures r.res.Ok? ==> var sh := RegValue(d, STATUS_MASTER_MAINPAGE); var v := r.res.value;
      && v.shEndop == Get(sh, SENS_HUB_ENDOP)
      && v.shSlave0Nack == v.shSlave1Nack == v.shSlave2Nack == v.shSlave3Nack == v.shWrOnce == v.shEndop
  {
    var o :- SourcesRead(d);
    var (st, sh, isp) := o.res.value;
    var endop := Get(sh, SENS_HUB_ENDOP);
    Out(o.dev, Ok(AllSources(Get(st, XLDA), Get(st, GDA), Get(st, TDA), endop, endop, endop, endop, endop, endop, Word(isp))))
  }

  /** With slave 0's nack flag set and the end-of-operation flag clear, the as-written report shows no nack. */
  lemma AllSourcesCounterexample()
    ensures var d := Fresh(map[Key(MainMemBank, STATUS_MASTER_MAINPAGE) := 0x08]);
      var r := AllSourcesGetAsWritten(d);
      && Get(RegValue(d, STATUS_MASTER_MAINPAGE), SLAVE0_NACK) == 1
      && r.res.Ok? && r.res.value.shSlave0Nack == 0
  {
    var d := Fresh(map[Key(MainMemBank, STATUS_MASTER_MAINPAGE) := 0x08]);
    assert ActiveBank(d) == MainMemBank;
    assert ClearFor(d, 3);
  }

  /** `all_sources_get` corrected: every flag is read from its own bit. */
  function AllSourcesGet(d: Dev): (r: Out<AllSources>)
    ensures r.dev.regs == d.regs && r.dev.faults == d.faults
    ensures r.res.Ok? <==> ClearFor(d, 3)
    ensures r.res.Ok? ==> r.dev.trace == d.trace + [ReadOp(ActiveBank(d), STATUS_REG, 1),
      ReadOp(ActiveBank(d), STATUS_MASTER_MAINPAGE, 1), ReadOp(ActiveBank(d), ISPU_INT_STATUS0_MAINPAGE, 4)]
    ensures r.res.Ok? ==> var st := RegValue(d, STATUS_REG); var sh := RegValue(d, STATUS_MASTER_MAINPAGE); var v := r.res.value;
      && v.drdyXl == Get(st, XLDA) && v.drdyGy == Get(st, GDA) && v.drdyTemp == Get(st, TDA)
      && v.shEndop == Get(sh, SENS_HUB_ENDOP)
      && v.shSlave0Nack == Get(sh, SLAVE0_NACK) && v.shSlave1Nack == Get(sh, SLAVE1_NACK)
      && v.shSlave2Nack == Get(sh, SLAVE2_NACK) && v.shSlave3Nack == Get(sh, SLAVE3_NACK)
      && v.shWrOnce == Get(sh, WR_ONCE_DONE)
      && v.ispu == Word([RegValue(d, ISPU_INT_STATUS0_MAINPAGE), RegValue(d, ISPU_INT_STATUS0_MAINPAGE + 1),
                         RegValue(d, ISPU_INT_STATUS0_MAINPAGE + 2), RegValue(d, ISPU_INT_STATUS0_MAINPAGE + 3)])
  {
    var o :- SourcesRead(d);
    var (st, sh, isp) := o.res.value;
    assert isp == [RegValue(d, ISPU_INT_STATUS0_MAINPAGE), RegValue(d, ISPU_INT_STATUS0_MAINPAGE + 1),
                   RegValue(d, ISPU_INT_STATUS0_MAINPAGE + 2), RegValue(d, ISPU_INT_STATUS0_MAINPAGE + 3)];
    Out(o.dev, Ok(AllSources(Get(st, XLDA), Get(st, GDA), Get(st, TDA), Get(sh, SENS_HUB_ENDOP),
      Get(sh, SLAVE0_NACK), Get(sh, SLAVE1_NACK), Get(sh, SLAVE2_NACK), Get(sh, SLAVE3_NACK), Get(sh, WR_ONCE_DONE), Word(isp))))
  }

  /** The corrected report and the one as written agree on everything but the nack and write-once flags. */
  lemma AllSourcesAgreeElsewhere(d: Dev)
    requires ClearFor(d, 3)
    ensures var a, b := AllSourcesGet(d).res.value, AllSourcesGetAsWritten(d).res.value;
      a.(shSlave0Nack := 0, shSlave1Nack := 0, shSlave2Nack := 0, shSlave3Nack := 0, shWrOnce := 0) ==
      b.(shSlave0Nack := 0, shSlave1Nack := 0, shSlave2Nack := 0, shSlave3Nack := 0, shWrOnce := 0)
  {
  }
}
