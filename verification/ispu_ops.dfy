/**
 * ISPU control from the Main bank (data rate and block data update in
 * CTRL9_C, the general-purpose ISPU_DUMMY_CFG input window) and inside the
 * ISPU bank (boot control and the program/data memory window).
 */
module IspuOps {
  import opened Bits
  import opened Wrappers
  import opened MemBanks
  import opened Device
  import opened MainRegs
  import opened IspuRegs
  import opened BankOps
  import opened RamSegments

  // ---------------------------------------------------------------------
  // ISPU data rate and block data update (CTRL9_C)
  // ---------------------------------------------------------------------

  /** `ispu_data_rate_set`: read-modify-write of CTRL9_C.ispu_rate. */
  function IspuDataRateSet(d: Dev, v: IspuDataRate): (r: Out<()>)
    ensures r.dev.faults == d.faults
    ensures r.res.Ok? <==> ClearFor(d, 2)
    ensures r.res.Err? ==> r.res.error == Bus && r.dev.regs == d.regs
    ensures r.res.Ok? ==> r.dev.trace == d.trace + [ReadOp(ActiveBank(d), CTRL9_C, 1), WriteOp(ActiveBank(d), CTRL9_C, [RegValue(r.dev, CTRL9_C)])]
    ensures r.res.Ok? ==> Get(RegValue(r.dev, CTRL9_C), ISPU_RATE) == IspuDataRateCode(v)
    ensures r.res.Ok? ==> RegValue(r.dev, CTRL9_C) & !Mask(ISPU_RATE) == RegValue(d, CTRL9_C) & !Mask(ISPU_RATE)
    ensures r.res.Ok? ==> r.dev.regs == d.regs[Key(ActiveBank(d), CTRL9_C) := RegValue(r.dev, CTRL9_C)]
  {
    GetSetSame(RegValue(d, CTRL9_C), ISPU_RATE, IspuDataRateCode(v) & 0x0F);
    Modify(d, CTRL9_C, ISPU_RATE, IspuDataRateCode(v) & 0x0F)
  }

  /** `ispu_data_rate_get`: CTRL9_C.ispu_rate decoded; a value naming no rate reads as off. */
  function IspuDataRateGet(d: Dev): (r: Out<IspuDataRate>)
    ensures r.dev == d.(trace := d.trace + [ReadOp(ActiveBank(d), CTRL9_C, 1)])
    ensures r.res.Err? <==> |d.trace| in d.faults
    ensures r.res.Err? ==> r.res.error == Bus
    ensures r.res.Ok? && Get(RegValue(d, CTRL9_C), ISPU_RATE) <= 10 ==>
      IspuDataRateCode(r.res.value) == Get(RegValue(d, CTRL9_C), ISPU_RATE)
    ensures r.res.Ok? && Get(RegValue(d, CTRL9_C), ISPU_RATE) > 10 ==> r.res.value == IspuOff
  {
    var o :- Read1(d, CTRL9_C);
    Out(o.dev, Ok(IspuDataRateFrom(Get(o.res.value, ISPU_RATE)).GetOr(IspuOff)))
  }

  /** With no bus failure, reading the ISPU rate back returns the rate set. */
  lemma IspuDataRateGetAfterSet(d: Dev, v: IspuDataRate)
    requires ClearFor(d, 3)
    ensures IspuDataRateSet(d, v).res.Ok?
    ensures IspuDataRateGet(IspuDataRateSet(d, v).dev).res == Ok(v)
  {
    ClearShift(d, IspuDataRateSet(d, v).dev, 2, 1);
    IspuDataRateRoundTrip(v);
  }

  /** `ispu_bdu_set`: read-modify-write of CTRL9_C.ispu_bdu. */
  function IspuBduSet(d: Dev, b: IspuBdu): (r: Out<()>)
    ensures r.dev.faults == d.faults
    ensures r.res.Ok? <==> ClearFor(d, 2)
    ensures r.res.Err? ==> r.res.error == Bus && r.dev.regs == d.regs
    ensures r.res.Ok? ==> r.dev.trace == d.trace + [ReadOp(ActiveBank(d), CTRL9_C, 1), WriteOp(ActiveBank(d), CTRL9_C, [RegValue(r.dev, CTRL9_C)])]
    ensures r.res.Ok? ==> Get(RegValue(r.dev, CTRL9_C), ISPU_BDU) == IspuBduCode(b)
    ensures r.res.Ok? ==> RegValue(r.dev, CTRL9_C) & !Mask(ISPU_BDU) == RegValue(d, CTRL9_C) & !Mask(ISPU_BDU)
    ensures r.res.Ok? ==> r.dev.regs == d.regs[Key(ActiveBank(d), CTRL9_C) := RegValue(r.dev, CTRL9_C)]
  {
    GetSetSame(RegValue(d, CTRL9_C), ISPU_BDU, IspuBduCode(b) & 3);
    Modify(d, CTRL9_C, ISPU_BDU, IspuBduCode(b) & 3)
  }

  /**
   * `ispu_bdu_get` as written: it decodes CTRL9_C.ispu_rate, not
   * ispu_bdu, so the mode reported is determined by the ISPU rate.
   */
  function IspuBduGetAsWritten(d: Dev): (r: Out<IspuBdu>)
    ensures r.dev == d.(trace := d.trace + [ReadOp(ActiveBank(d), CTRL9_C, 1)])
    ensures r.res.Err? <==> |d.trace| in d.faults
    ensures r.res.Err? ==> r.res.error == Bus
    ensures r.res.Ok? && Get(RegValue(d, CTRL9_C), ISPU_RATE) <= 3 ==>
      IspuBduCode(r.res.value) == Get(RegValue(d, CTRL9_C), ISPU_RATE)
    ensures r.res.Ok? && Get(RegValue(d, CTRL9_C), ISPU_RATE) > 3 ==> r.res.value == BduOff
  {
    var o :- Read1(d, CTRL9_C);
    Out(o.dev, Ok(IspuBduFrom(Get(o.res.value, ISPU_RATE)).GetOr(BduOff)))
  }

  /** Setting the block data update mode does not change what the as-written getter reports. */
  lemma IspuBduGetAsWrittenIgnoresSet(d: Dev, a: IspuBdu, b: IspuBdu)
    requires ClearFor(d, 3)
    ensures IspuBduGetAsWritten(IspuBduSet(d, a).dev).res == IspuBduGetAsWritten(IspuBduSet(d, b).dev).res
  {
    IspuBduSetKeepsRate(d, a);
    IspuBduSetKeepsRate(d, b);
  }

  /**
   * Setting the block data update mode leaves CTRL9_C.ispu_rate as it was,
   * so the as-written getter, run next, decodes the rate it decoded before.
   */
  lemma IspuBduSetKeepsRate(d: Dev, a: IspuBdu)
    requires ClearFor(d, 3)
    ensures IspuBduGetAsWritten(IspuBduSet(d, a).dev).res == Ok(IspuBduFrom(Get(RegValue(d, CTRL9_C), ISPU_RATE)).GetOr(BduOff))
  {
    var e := IspuBduSet(d, a).dev;
    ClearShift(d, e, 2, 1);
    MaskedAgree(RegValue(e, CTRL9_C), RegValue(d, CTRL9_C), ISPU_BDU, ISPU_RATE);
  }

  /** On a sensor whose registers all hold 0, setting mode On2b4b reads back as BduOff. */
  lemma IspuBduCounterexample()
    ensures var d := IspuBduSet(Fresh(map[]), On2b4b).dev;
      IspuBduGetAsWritten(d).res == Ok(BduOff) != Ok(On2b4b)
  {
    var d0 := Fresh(map[]);
    var d := IspuBduSet(d0, On2b4b).dev;
    MaskedAgree(RegValue(d, CTRL9_C), RegValue(d0, CTRL9_C), ISPU_BDU, ISPU_RATE);
  }

  /** `ispu_bdu_get` corrected to decode CTRL9_C.ispu_bdu; every 2-bit value names a mode. */
  function IspuBduGet(d: Dev): (r: Out<IspuBdu>)
    ensures r.dev == d.(trace := d.trace + [ReadOp(ActiveBank(d), CTRL9_C, 1)])
    ensures r.res.Err? <==> |d.trace| in d.faults
    ensures r.res.Err? ==> r.res.error == Bus
    ensures r.res.Ok? ==> IspuBduCode(r.res.value) == Get(RegValue(d, CTRL9_C), ISPU_BDU)
  {
    var o :- Read1(d, CTRL9_C);
    Out(o.dev, Ok(IspuBduFrom(Get(o.res.value, ISPU_BDU)).GetOr(BduOff)))
  }

  /** With no bus failure, the corrected getter reads back the mode set. */
  lemma IspuBduGetAfterSet(d: Dev, b: IspuBdu)
    requires ClearFor(d, 3)
    ensures IspuBduSet(d, b).res.Ok?
    ensures IspuBduGet(IspuBduSet(d, b).dev).res == Ok(b)
  {
    ClearShift(d, IspuBduSet(d, b).dev, 2, 1);
  }

  // ---------------------------------------------------------------------
  // General-purpose ISPU input window ISPU_DUMMY_CFG_1_L .. ISPU_DUMMY_CFG_4_H
  // ---------------------------------------------------------------------

  /** The eight registers of the window. */
  predicate InDummyWindow(reg: nat)
  {
    ISPU_DUMMY_CFG_1_L <= reg <= ISPU_DUMMY_CFG_4_H
  }

  /** The range check as written: the end of the transfer may not pass ISPU_DUMMY_CFG_4_H's address. */
  predicate DummyCfgFitsAsWritten(offset: nat, len: nat)
    ensures DummyCfgFitsAsWritten(offset, len) <==>
      forall reg :: ISPU_DUMMY_CFG_1_L + offset <= reg <= ISPU_DUMMY_CFG_1_L + offset + len ==> InDummyWindow(reg)
  {
    assert InDummyWindow(ISPU_DUMMY_CFG_1_L + offset + len) ==> ISPU_DUMMY_CFG_1_L + offset + len <= ISPU_DUMMY_CFG_4_H;
    ISPU_DUMMY_CFG_1_L + offset + len <= ISPU_DUMMY_CFG_4_H
  }

  /** The range check corrected: the transfer ends at or before ISPU_DUMMY_CFG_4_H itself. */
  predicate DummyCfgFits(offset: nat, len: nat)
    ensures DummyCfgFits(offset, len) <==>
      offset <= 8 && forall reg :: ISPU_DUMMY_CFG_1_L + offset <= reg < ISPU_DUMMY_CFG_1_L + offset + len ==> InDummyWindow(reg)
  {
    assert len > 0 && InDummyWindow(ISPU_DUMMY_CFG_1_L + offset + len - 1) ==> ISPU_DUMMY_CFG_1_L + offset + len <= ISPU_DUMMY_CFG_4_H + 1;
    ISPU_DUMMY_CFG_1_L + offset + len <= ISPU_DUMMY_CFG_4_H + 1
  }

  /**
   * The driver's `u8` sum `0x73 + offset + len`, wrapping modulo 256 as in a
   * release build; it is the true sum exactly when that fits in a byte.
   */
  function DummyEndAsWritten(offset: nat, len: nat): (e: nat)
    requires offset < 0x100 && len < 0x100
    ensures e < 0x100
    ensures e == ISPU_DUMMY_CFG_1_L + offset + len <==> ISPU_DUMMY_CFG_1_L + offset + len < 0x100
    ensures ISPU_DUMMY_CFG_1_L + offset + len >= 0x100 ==>
      e + 0x100 == ISPU_DUMMY_CFG_1_L + offset + len || e + 0x200 == ISPU_DUMMY_CFG_1_L + offset + len
  {
    (ISPU_DUMMY_CFG_1_L + offset + len) % 0x100
  }

  /** The first register of an as-written transfer: `0x73 + offset` in `u8`, wrapping past 0xFF. */
  function DummyStartAsWritten(offset: nat): (reg: nat)
    requires offset < 0x100
    ensures reg < 0x100
    ensures reg == ISPU_DUMMY_CFG_1_L + offset <==> ISPU_DUMMY_CFG_1_L + offset < 0x100
  {
    (ISPU_DUMMY_CFG_1_L + offset) % 0x100
  }

  /**
   * The range check as the driver evaluates it on `u8` values: where the sum
   * does not wrap it is `DummyCfgFitsAsWritten`; where it wraps, a request
   * far outside the window passes.
   */
  predicate DummyCfgPassesAsWritten(offset: nat, len: nat)
    requires offset < 0x100 && len < 0x100
    ensures ISPU_DUMMY_CFG_1_L + offset + len < 0x100 ==>
      (DummyCfgPassesAsWritten(offset, len) <==> DummyCfgFitsAsWritten(offset, len))
    ensures ISPU_DUMMY_CFG_1_L + offset + len >= 0x100 ==>
      (DummyCfgPassesAsWritten(offset, len) <==>
        ISPU_DUMMY_CFG_1_L + offset + len <= 0x100 + ISPU_DUMMY_CFG_4_H || ISPU_DUMMY_CFG_1_L + offset + len >= 0x200)
  {
    DummyEndAsWritten(offset, len) <= ISPU_DUMMY_CFG_4_H
  }

  /**
   * `ispu_write_dummy_cfg` as written: a request the `u8` check refuses
   * fails with `UnexpectedValue` before any bus operation; otherwise one
   * write of `len` bytes of `val` from the `u8` register `0x73 + offset` on.
   * The slice must exist.
   */
  function IspuWriteDummyCfgAsWritten(d: Dev, offset: nat, val: seq<byte>, len: nat): (r: Out<()>)
    requires offset < 0x100 && len < 0x100
    requires DummyCfgPassesAsWritten(offset, len) ==> len <= |val|
    ensures !DummyCfgPassesAsWritten(offset, len) ==> r == Out(d, Err(UnexpectedValue))
    ensures DummyCfgPassesAsWritten(offset, len) ==>
      var start := DummyStartAsWritten(offset);
      && r.dev.trace == d.trace + [WriteOp(TargetBank(d, start), start, val[..len])]
      && (r.res.Ok? <==> ClearFor(d, 1))
      && (r.res.Err? ==> r.res.error == Bus)
  {
    if !DummyCfgPassesAsWritten(offset, len) then Out(d, Err(UnexpectedValue))
    else Write(d, DummyStartAsWritten(offset), val[..len])
  }

  /**
   * `ispu_read_dummy_cfg` as written: the same `u8` check, then one read of
   * `len` bytes from the `u8` register `0x73 + offset` on.
   */
  function IspuReadDummyCfgAsWritten(d: Dev, offset: nat, len: nat): (r: Out<seq<byte>>)
    requires offset < 0x100 && len < 0x100
    ensures !DummyCfgPassesAsWritten(offset, len) ==> r == Out(d, Err(UnexpectedValue))
    ensures DummyCfgPassesAsWritten(offset, len) ==>
      var start := DummyStartAsWritten(offset);
      && r.dev == d.(trace := d.trace + [ReadOp(TargetBank(d, start), start, len)])
      && (r.res.Ok? <==> ClearFor(d, 1))
      && (r.res.Err? ==> r.res.error == Bus)
      && (r.res.Ok? ==> |r.res.value| == len)
      && (r.res.Ok? && !IsPort(TargetBank(d, start), start) ==>
            forall i :: 0 <= i < len ==> r.res.value[i] == Peek(d.regs, Key(TargetBank(d, start), start + i)))
  {
    if !DummyCfgPassesAsWritten(offset, len) then Out(d, Err(UnexpectedValue))
    else Read(d, DummyStartAsWritten(offset), len)
  }

  /**
   * Where the sum does not wrap, the as-written read reaches the window's
   * registers `0x73 + offset + i`.
   */
  lemma IspuReadDummyCfgAsWrittenInWindow(d: Dev, offset: nat, len: nat)
    requires offset < 0x100 && len < 0x100 && DummyCfgFitsAsWritten(offset, len)
    ensures var r := IspuReadDummyCfgAsWritten(d, offset, len);
      r.res.Ok? ==> forall i :: 0 <= i < len ==> r.res.value[i] == RegValue(d, ISPU_DUMMY_CFG_1_L + offset + i)
  {
  }

  /**
   * The wrap lets a request far outside the window through: offset 0x90 and
   * length 0x10 sum to 0x113, which `u8` turns into 0x13, so the check passes
   * and the read starts at register 0x03. The corrected check refuses it.
   */
  lemma DummyCfgWrapCounterexample(d: Dev)
    ensures DummyCfgPassesAsWritten(0x90, 0x10) && DummyStartAsWritten(0x90) == 0x03
    ensures IspuReadDummyCfgAsWritten(d, 0x90, 0x10).dev.trace == d.trace + [ReadOp(ActiveBank(d), 0x03, 0x10)]
    ensures !DummyCfgFits(0x90, 0x10)
  {
  }

  /**
   * With the check as written no transfer the driver lets through touches
   * ISPU_DUMMY_CFG_4_H, and a one-byte transfer to it is refused.
   */
  lemma DummyCfgLastRegisterUnreachable(offset: nat, len: nat, i: nat)
    requires DummyCfgFitsAsWritten(offset, len) && i < len
    ensures ISPU_DUMMY_CFG_1_L + offset + i != ISPU_DUMMY_CFG_4_H
    ensures !DummyCfgFitsAsWritten(ISPU_DUMMY_CFG_4_H - ISPU_DUMMY_CFG_1_L, 1)
    ensures !DummyCfgFitsAsWritten(0, 8)
  {
  }

  /** The concrete refusal: writing one byte at offset 7 fails although that register exists. */
  lemma DummyCfgCounterexample(d: Dev, b: byte)
    ensures InDummyWindow(ISPU_DUMMY_CFG_1_L + 7)
    ensures IspuWriteDummyCfgAsWritten(d, 7, [b], 1).res == Err(UnexpectedValue)
  {
  }

  /** `ispu_write_dummy_cfg` with the corrected check. */
  function IspuWriteDummyCfg(d: Dev, offset: nat, val: seq<byte>, len: nat): (r: Out<()>)
    requires offset < 0x100 && len < 0x100
    requires DummyCfgFits(offset, len) ==> len <= |val|
    ensures !DummyCfgFits(offset, len) ==> r == Out(d, Err(UnexpectedValue))
    ensures DummyCfgFits(offset, len) ==>
      && r.dev.trace == d.trace + [WriteOp(ActiveBank(d), ISPU_DUMMY_CFG_1_L + offset, val[..len])]
      && (r.res.Ok? <==> ClearFor(d, 1))
      && (r.res.Err? ==> r.res.error == Bus)
  {
    if !DummyCfgFits(offset, len) then Out(d, Err(UnexpectedValue))
    else Write(d, ISPU_DUMMY_CFG_1_L + offset, val[..len])
  }

  /** `ispu_read_dummy_cfg` with the corrected check. */
  function IspuReadDummyCfg(d: Dev, offset: nat, len: nat): (r: Out<seq<byte>>)
    requires offset < 0x100 && len < 0x100
    ensures !DummyCfgFits(offset, len) ==> r == Out(d, Err(UnexpectedValue))
    ensures DummyCfgFits(offset, len) ==>
      && r.dev == d.(trace := d.trace + [ReadOp(ActiveBank(d), ISPU_DUMMY_CFG_1_L + offset, len)])
      && (r.res.Ok? <==> ClearFor(d, 1))
      && (r.res.Err? ==> r.res.error == Bus)
      && (r.res.Ok? ==> |r.res.value| == len)
      && (r.res.Ok? ==> forall i :: 0 <= i < len ==> r.res.value[i] == RegValue(d, ISPU_DUMMY_CFG_1_L + offset + i))
  {
    if !DummyCfgFits(offset, len) then Out(d, Err(UnexpectedValue))
    else Read(d, ISPU_DUMMY_CFG_1_L + offset, len)
  }

  /**
   * The corrected check accepts a non-empty transfer exactly when its last
   * register lies in the window, so every register of the window, and the
   * whole window at once, can be reached.
   */
  lemma DummyCfgReachesWindow(offset: nat, len: nat)
    requires len > 0
    ensures DummyCfgFits(offset, len) <==> InDummyWindow(ISPU_DUMMY_CFG_1_L + offset + len - 1)
    ensures DummyCfgFits(0, ISPU_DUMMY_CFG_4_H - ISPU_DUMMY_CFG_1_L + 1)
  {
  }

  // ---------------------------------------------------------------------
  // Boot control (ISPU_CONFIG, inside the ISPU bank)
  // ---------------------------------------------------------------------

  /** The closure of `ispu_boot_set`: both ISPU_CONFIG bits receive the boot code. */
  function BootWrite(d: Dev, v: IspuBootLatched): (r: Out<()>)
    ensures r.dev.faults == d.faults
    ensures r.res.Ok? <==> ClearFor(d, 2)
    ensures r.res.Err? ==> r.res.error == Bus && r.dev.regs == d.regs
    ensures |r.dev.trace| == |d.trace| + (if |d.trace| in d.faults then 1 else 2) && r.dev.trace[..|d.trace|] == d.trace
    ensures r.res.Ok? ==> r.dev.regs == d.regs[Key(ActiveBank(d), ISPU_CONFIG) := RegValue(r.dev, ISPU_CONFIG)]
    ensures r.res.Ok? ==>
      && Get(RegValue(r.dev, ISPU_CONFIG), ISPU_RST_N) == IspuBootCode(v)
      && Get(RegValue(r.dev, ISPU_CONFIG), CLK_DIS) == IspuBootCode(v)
      && ActiveBank(r.dev) == ActiveBank(d)
  {
    var o :- Read1(d, ISPU_CONFIG);
    var c := IspuBootCode(v);
    BootBits(o.res.value, c);
    Write1(o.dev, ISPU_CONFIG, Set(Set(o.res.value, ISPU_RST_N, c), CLK_DIS, c))
  }

  lemma BootBits(b: byte, c: byte)
    requires c <= 1
    ensures Get(Set(Set(b, ISPU_RST_N, c), CLK_DIS, c), ISPU_RST_N) == c
    ensures Get(Set(Set(b, ISPU_RST_N, c), CLK_DIS, c), CLK_DIS) == c
  {
  }

  /** `ispu_boot_set`: `BootWrite` inside the ISPU bank. */
  function IspuBootSet(d: Dev, v: IspuBootLatched): (r: Out<()>)
    ensures r.dev.faults == d.faults
    ensures r.res.Ok? <==> ClearFor(d, 4)
    ensures r.res.Ok? ==> Extends(d, r.dev) && |r.dev.trace| == |d.trace| + 4
    ensures r.res.Ok? ==> r.dev.trace == d.trace + [SelectOp(IspuMemBank), ReadOp(IspuMemBank, ISPU_CONFIG, 1),
      WriteOp(IspuMemBank, ISPU_CONFIG, [Peek(r.dev.regs, Key(IspuMemBank, ISPU_CONFIG))]), SelectOp(MainMemBank)]
    ensures r.res.Ok? ==>
      && Get(Peek(r.dev.regs, Key(IspuMemBank, ISPU_CONFIG)), ISPU_RST_N) == IspuBootCode(v)
      && Get(Peek(r.dev.regs, Key(IspuMemBank, ISPU_CONFIG)), CLK_DIS) == IspuBootCode(v)
      && ActiveBank(r.dev) == MainMemBank
  {
    OperateOver(d, IspuMemBank, e => BootWrite(e, v))
  }

  /** The boot state `ispu_boot_get` reports for an ISPU_CONFIG byte: On when either bit is 1. */
  function BootOf(b: byte): (v: IspuBootLatched)
    ensures v == BootOff <==> Get(b, ISPU_RST_N) == 0 && Get(b, CLK_DIS) == 0
  {
    if Get(b, ISPU_RST_N) == 1 || Get(b, CLK_DIS) == 1 then BootOn else BootOff
  }

  /** The closure of `ispu_boot_get`. */
  function BootRead(d: Dev): (r: Out<IspuBootLatched>)
    ensures r.dev == d.(trace := d.trace + [ReadOp(ActiveBank(d), ISPU_CONFIG, 1)])
    ensures r.res.Err? <==> |d.trace| in d.faults
    ensures r.res.Ok? ==> r.res.value == BootOf(RegValue(d, ISPU_CONFIG))
  {
    var o :- Read1(d, ISPU_CONFIG);
    Out(o.dev, Ok(BootOf(o.res.value)))
  }

  /** `ispu_boot_get`: `BootRead` inside the ISPU bank. */
  function IspuBootGet(d: Dev): (r: Out<IspuBootLatched>)
    ensures r.dev.faults == d.faults
    ensures r.res.Ok? <==> ClearFor(d, 3)
    ensures r.res.Ok? ==> r.res.value == BootOf(Peek(d.regs, Key(IspuMemBank, ISPU_CONFIG)))
    ensures r.res.Ok? ==> ActiveBank(r.dev) == MainMemBank
  {
    OperateOver(d, IspuMemBank, BootRead)
  }

  /** The other boot state. */
  function Opposite(v: IspuBootLatched): (w: IspuBootLatched)
    ensures w != v
  {
    if v == BootOn then BootOff else BootOn
  }

  /**
   * Boot control does not round-trip: On writes 0 to both bits, which the
   * getter reports as Off, and Off writes 1, which it reports as On.
   */
  lemma IspuBootGetAfterSet(d: Dev, v: IspuBootLatched)
    requires ClearFor(d, 7)
    ensures IspuBootSet(d, v).res.Ok?
    ensures IspuBootGet(IspuBootSet(d, v).dev).res == Ok(Opposite(v))
  {
    var e := IspuBootSet(d, v).dev;
    BootSetLeavesClear(d, v);
    BootOfCode(Peek(e.regs, Key(IspuMemBank, ISPU_CONFIG)), v);
  }

  lemma BootSetLeavesClear(d: Dev, v: IspuBootLatched)
    requires ClearFor(d, 7)
    ensures IspuBootSet(d, v).res.Ok? && ClearFor(IspuBootSet(d, v).dev, 3)
  {
    ClearPrefix(d, 4, 3);
    ClearShift(d, IspuBootSet(d, v).dev, 4, 3);
  }

  /** Both boot bits holding the code of `v` read as the other state. */
  lemma BootOfCode(x: byte, v: IspuBootLatched)
    requires Get(x, ISPU_RST_N) == IspuBootCode(v) && Get(x, CLK_DIS) == IspuBootCode(v)
    ensures BootOf(x) == Opposite(v)
  {
  }


  // ---------------------------------------------------------------------
  // ISPU memory window (inside the ISPU bank)
  // ---------------------------------------------------------------------

  /** The ISPU_MEM_SEL byte built from zero: `read_mem_en` = `readEn` and `mem_sel` = the memory's code. */
  function MemSelByte(t: IspuMemoryType, readEn: byte): (r: byte)
    requires readEn <= 1
    ensures Get(r, MEM_SEL) == MemoryTypeCode(t) && Get(r, READ_MEM_EN) == readEn
    ensures r & !(Mask(MEM_SEL) | Mask(READ_MEM_EN)) == 0
  {
    (if readEn == 1 then 0x40 else 0x00) | MemoryTypeCode(t)
  }

  /** The same byte as the driver builds it: both fields set, in turn, on a zero byte. */
  lemma MemSelByteBuilt(t: IspuMemoryType, readEn: byte)
    requires readEn <= 1
    ensures MemSelByte(t, readEn) == Set(Set(0, READ_MEM_EN, readEn), MEM_SEL, MemoryTypeCode(t))
  {
  }

  /**
   * The first half of the clock bracket: read ISPU_CONFIG and write it
   * back with `clk_dis` = 1. The byte read is returned for the restore.
   */
  function ClockOff(d: Dev): (r: Out<byte>)
    ensures r.dev.faults == d.faults
    ensures r.res.Ok? <==> ClearFor(d, 2)
    ensures r.res.Err? ==> r.res.error == Bus
    ensures r.res.Ok? ==> r.res.value == RegValue(d, ISPU_CONFIG)
    ensures r.res.Ok? ==> (r.dev.trace == d.trace +
      [ReadOp(ActiveBank(d), ISPU_CONFIG, 1), WriteOp(ActiveBank(d), ISPU_CONFIG, [Set(RegValue(d, ISPU_CONFIG), CLK_DIS, 1)])])
    ensures Extends(d, r.dev) && |r.dev.trace| <= |d.trace| + 2
    ensures ActiveBank(r.dev) == ActiveBank(d)
  {
    var o :- Read1(d, ISPU_CONFIG);
    var w :- Write1(o.dev, ISPU_CONFIG, Set(o.res.value, CLK_DIS, 1));
    Out(w.dev, Ok(o.res.value))
  }

  /** Restoring the saved `clk_dis` into the byte whose `clk_dis` was forced to 1 gives back the byte saved. */
  lemma ClockRestored(cfg: byte)
    ensures Set(Set(cfg, CLK_DIS, 1), CLK_DIS, Get(cfg, CLK_DIS)) == cfg
  {
  }

  /**
   * The second half of the clock bracket: ISPU_CONFIG is written with
   * `clk_dis` set back to its saved value, which is the byte first read.
   */
  function ClockRestore(d: Dev, cfg: byte): (r: Out<()>)
    ensures r.dev.faults == d.faults
    ensures r.dev.trace == d.trace + [WriteOp(ActiveBank(d), ISPU_CONFIG, [cfg])]
    ensures r.res.Ok? <==> ClearFor(d, 1)
    ensures r.res.Err? ==> r.res.error == Bus
    ensures ActiveBank(r.dev) == ActiveBank(d)
  {
    ClockRestored(cfg);
    Write(d, ISPU_CONFIG, [Set(Set(cfg, CLK_DIS, 1), CLK_DIS, Get(cfg, CLK_DIS))])
  }

  /** Every segment starts at a 16-bit address. */
  predicate Addressable(segs: seq<Seg>)
  {
    forall i :: 0 <= i < |segs| ==> segs[i].addr < 0x10000
  }

  /** The program-RAM segments of a transfer the 16-bit arithmetic admits start at 16-bit addresses. */
  lemma SegmentsAddressable(a: nat, n: nat)
    requires a < 0x10000 && a + n <= 0x10000
    ensures Addressable(Segments(a, n))
  {
  }

  /** The bus operations that write `chunks[i]` at `segs[i].addr`, segment by segment: an address select, then the data. */
  function SegmentOps(bank: MemBank, segs: seq<Seg>, chunks: seq<seq<byte>>): (ops: seq<BusOp>)
    requires |chunks| == |segs| && Addressable(segs)
    ensures |ops| == 2 * |segs|
  {
    if segs == [] then []
    else
      var first := [WriteOp(bank, ISPU_MEM_ADDR0, AddrBytes(segs[0].addr)), WriteOp(bank, ISPU_MEM_DATA, chunks[0])];
      first + SegmentOps(bank, segs[1..], chunks[1..])
  }

  /** Operation 2i selects the address of segment i and operation 2i+1 writes its chunk to the data port. */
  lemma {:induction false} SegmentOpsAt(bank: MemBank, segs: seq<Seg>, chunks: seq<seq<byte>>, i: nat)
    requires |chunks| == |segs| && Addressable(segs) && i < |segs|
    ensures SegmentOps(bank, segs, chunks)[2 * i] == WriteOp(bank, ISPU_MEM_ADDR0, AddrBytes(segs[i].addr))
    ensures SegmentOps(bank, segs, chunks)[2 * i + 1] == WriteOp(bank, ISPU_MEM_DATA, chunks[i])
  {
    var first := [WriteOp(bank, ISPU_MEM_ADDR0, AddrBytes(segs[0].addr)), WriteOp(bank, ISPU_MEM_DATA, chunks[0])];
    if i > 0 {
      AddressableTail(segs);
      var rest := SegmentOps(bank, segs[1..], chunks[1..]);
      SegmentOpsAt(bank, segs[1..], chunks[1..], i - 1);
      assert SegmentOps(bank, segs, chunks) == first + rest;
      assert segs[1..][i - 1] == segs[i] && chunks[1..][i - 1] == chunks[i];
    } else {
      assert SegmentOps(bank, segs, chunks)[..2] == first;
    }
  }

  /**
   * The program-RAM write loop: for each segment in order, select its
   * address, then write its chunk; the first failure stops the loop.
   */
  function WriteSegments(d: Dev, segs: seq<Seg>, chunks: seq<seq<byte>>): (r: Out<()>)
    requires |chunks| == |segs| && Addressable(segs)
    ensures r.dev.faults == d.faults
    ensures Extends(d, r.dev) && |r.dev.trace| <= |d.trace| + 2 * |segs|
    ensures r.res.Ok? <==> ClearFor(d, 2 * |segs|)
    ensures r.res.Err? ==> r.res.error == Bus
    ensures r.res.Ok? ==> r.dev.trace == d.trace + SegmentOps(ActiveBank(d), segs, chunks)
    ensures ActiveBank(r.dev) == ActiveBank(d)
    decreases |segs|
  {
    if segs == [] then Out(d, Ok(()))
    else
      var o :- WriteSegment(d, segs[0], chunks[0]);
      AddressableTail(segs);
      ClearSplit(d, o.dev, 2, 2 * (|segs| - 1));
      var r := WriteSegments(o.dev, segs[1..], chunks[1..]);
      ExtendsTrans(d, o.dev, r.dev);
      if r.res.Ok? then
        var bank := ActiveBank(d);
        var first := [WriteOp(bank, ISPU_MEM_ADDR0, AddrBytes(segs[0].addr)), WriteOp(bank, ISPU_MEM_DATA, chunks[0])];
        AppendAssoc(d.trace, first, SegmentOps(bank, segs[1..], chunks[1..]));
        r
      else r
  }

  /** One pass of the program-RAM write loop: select the segment's address, then write its chunk. */
  function WriteSegment(d: Dev, seg: Seg, chunk: seq<byte>): (r: Out<()>)
    requires seg.addr < 0x10000
    ensures r.dev.faults == d.faults
    ensures Extends(d, r.dev) && |r.dev.trace| <= |d.trace| + 2
    ensures r.res.Ok? <==> ClearFor(d, 2)
    ensures r.res.Err? ==> r.res.error == Bus
    ensures r.res.Ok? ==> (r.dev.trace == d.trace +
      [WriteOp(ActiveBank(d), ISPU_MEM_ADDR0, AddrBytes(seg.addr)), WriteOp(ActiveBank(d), ISPU_MEM_DATA, chunk)])
    ensures ActiveBank(r.dev) == ActiveBank(d)
  {
    var o1 :- IspuSelMemoryAddr(d, seg.addr);
    var o2 :- Write(o1.dev, ISPU_MEM_DATA, chunk);
    AppendAssoc(d.trace, [WriteOp(ActiveBank(d), ISPU_MEM_ADDR0, AddrBytes(seg.addr))], [WriteOp(ActiveBank(d), ISPU_MEM_DATA, chunk)]);
    o2
  }

  /** The segments after the first are addressable too. */
  lemma AddressableTail(segs: seq<Seg>)
    requires Addressable(segs) && segs != []
    ensures Addressable(segs[1..])
  {
    forall j | 0 <= j < |segs[1..]| ensures segs[1..][j].addr < 0x10000 {
      assert segs[1..][j] == segs[j + 1];
    }
  }

  /** What `ispu_write_memory` requires of its arguments: u16 values, a slice that exists, and no u16 overflow in the segmentation loop. */
  predicate WriteMemoryArgs(t: IspuMemoryType, a: nat, data: seq<byte>, len: nat)
  {
    a < 0x10000 && len < 0x10000 && len <= |data| && (t == ProgramRam ==> a + len <= 0x10000)
  }

  /**
   * The segments of a memory write and the chunk of `data` each carries:
   * program RAM is cut at the fixed boundaries, data RAM is one segment.
   */
  function Plan(t: IspuMemoryType, a: nat, data: seq<byte>, len: nat): (p: (seq<Seg>, seq<seq<byte>>))
    requires WriteMemoryArgs(t, a, data, len)
    ensures |p.1| == |p.0| && Addressable(p.0)
    ensures forall i :: 0 <= i < |p.1| ==> |p.1[i]| == p.0[i].len
    ensures Flatten(p.1) == data[..len]
    ensures t == ProgramRam ==> p.0 == Segments(a, len)
    ensures t == DataRam ==> p == ([Seg(a, len)], [data[..len]])
  {
    if t == ProgramRam then
      SegmentsCover(a, len);
      SegmentsAddressable(a, len);
      (Segments(a, len), Chunks(Segments(a, len), data))
    else
      assert Flatten([data[..len]]) == data[..len] by {
        assert Flatten([data[..len]]) == Flatten([]) + data[..len] by { FlattenSnoc([], data[..len]); }
      }
      ([Seg(a, len)], [data[..len]])
  }

  /**
   * Every bus operation of a memory write inside the bank: the clock is
   * disabled, the memory selected for writing, the segments written and the
   * configuration byte `cfg` read at the start written back.
   */
  function WriteMemoryOps(bank: MemBank, cfg: byte, t: IspuMemoryType, segs: seq<Seg>, chunks: seq<seq<byte>>): seq<BusOp>
    requires |chunks| == |segs| && Addressable(segs)
  {
    [ReadOp(bank, ISPU_CONFIG, 1), WriteOp(bank, ISPU_CONFIG, [Set(cfg, CLK_DIS, 1)])] +
      SelectWriteRestoreOps(bank, cfg, t, segs, chunks)
  }

  /** The operations of a memory write once the clock is off: select the memory, write the segments, restore `cfg`. */
  function SelectWriteRestoreOps(bank: MemBank, cfg: byte, t: IspuMemoryType, segs: seq<Seg>, chunks: seq<seq<byte>>): seq<BusOp>
    requires |chunks| == |segs| && Addressable(segs)
  {
    [WriteOp(bank, ISPU_MEM_SEL, [MemSelByte(t, 0)])] + SegmentOps(bank, segs, chunks) + [WriteOp(bank, ISPU_CONFIG, [cfg])]
  }

  /** The closure of `ispu_write_memory` after the clock has been disabled and `cfg` saved. */
  function SelectWriteRestore(d: Dev, cfg: byte, t: IspuMemoryType, segs: seq<Seg>, chunks: seq<seq<byte>>): (r: Out<()>)
    requires |chunks| == |segs| && Addressable(segs)
    ensures r.dev.faults == d.faults
    ensures Extends(d, r.dev)
    ensures r.res.Ok? <==> ClearFor(d, 2 * |segs| + 2)
    ensures r.res.Err? ==> r.res.error == Bus
    ensures r.res.Ok? ==> r.dev.trace == d.trace + SelectWriteRestoreOps(ActiveBank(d), cfg, t, segs, chunks)
  {
    ClearOne(d);
    var o2 :- Write1(d, ISPU_MEM_SEL, MemSelByte(t, 0));
    var o3 :- WriteSegments(o2.dev, segs, chunks);
    ClearSplit(d, o2.dev, 1, 2 * |segs| + 1);
    ClearSplit(o2.dev, o3.dev, 2 * |segs|, 1);
    var r := ClockRestore(o3.dev, cfg);
    ExtendsTrans(d, o2.dev, o3.dev);
    ExtendsTrans(d, o3.dev, r.dev);
    var sel, segOps, restore := [WriteOp(ActiveBank(d), ISPU_MEM_SEL, [MemSelByte(t, 0)])],
      SegmentOps(ActiveBank(d), segs, chunks), [WriteOp(ActiveBank(d), ISPU_CONFIG, [cfg])];
    AppendAssoc(d.trace, sel, segOps);
    AppendAssoc(d.trace, sel + segOps, restore);
    r
  }

  /** The closure of `ispu_write_memory`, given the plan of the write. */
  function WriteMemoryInner(d: Dev, t: IspuMemoryType, segs: seq<Seg>, chunks: seq<seq<byte>>): (r: Out<()>)
    requires |chunks| == |segs| && Addressable(segs)
    ensures r.dev.faults == d.faults
    ensures Extends(d, r.dev)
    ensures r.res.Ok? <==> ClearFor(d, 2 * |segs| + 4)
    ensures r.res.Err? ==> r.res.error == Bus
    ensures r.res.Ok? ==> r.dev.trace == d.trace + WriteMemoryOps(ActiveBank(d), RegValue(d, ISPU_CONFIG), t, segs, chunks)
    ensures r.res.Ok? ==> |r.dev.trace| == |d.trace| + 2 * |segs| + 4
  {
    var o1 :- ClockOff(d);
    ClearSplit(d, o1.dev, 2, 2 * |segs| + 2);
    var r := SelectWriteRestore(o1.dev, o1.res.value, t, segs, chunks);
    ExtendsTrans(d, o1.dev, r.dev);
    if r.res.Ok? then
      AppendAssoc(d.trace, o1.dev.trace[|d.trace|..], SelectWriteRestoreOps(ActiveBank(d), o1.res.value, t, segs, chunks));
      r
    else r
  }

  /**
   * `ispu_write_memory`: the closure inside the ISPU bank. The first
   * failure inside stops the closure; Main is selected again whatever
   * happened inside.
   */
  function IspuWriteMemory(d: Dev, t: IspuMemoryType, a: nat, data: seq<byte>, len: nat): (r: Out<()>)
    requires WriteMemoryArgs(t, a, data, len)
    ensures r.dev.faults == d.faults
    ensures (r.res.Ok? || !r.res.error.FailedToSetMemBank?) ==> ActiveBank(r.dev) == MainMemBank
  {
    var p := Plan(t, a, data, len);
    OperateOver(d, IspuMemBank, WriteMemoryClosure(t, p.0, p.1))
  }

  /** The closure `ispu_write_memory` runs inside the ISPU bank. */
  function WriteMemoryClosure(t: IspuMemoryType, segs: seq<Seg>, chunks: seq<seq<byte>>): Dev -> Out<()>
    requires |chunks| == |segs| && Addressable(segs)
  {
    e => WriteMemoryInner(e, t, segs, chunks)
  }

  /**
   * With no bus failure, the closure of a memory write, run once the ISPU
   * bank is selected, succeeds and issues the planned operations, reading
   * the configuration byte stored before the selection.
   */
  lemma WriteMemoryInnerRuns(d: Dev, t: IspuMemoryType, a: nat, data: seq<byte>, len: nat)
    requires WriteMemoryArgs(t, a, data, len)
    requires ClearFor(d, 2 * |Plan(t, a, data, len).0| + 6)
    ensures |d.trace| !in d.faults
    ensures var p := Plan(t, a, data, len);
      var inner := WriteMemoryInner(MemBankSet(d, IspuMemBank).dev, t, p.0, p.1);
      inner.res.Ok? && inner.dev.faults == d.faults && |inner.dev.trace| !in d.faults
    ensures var p := Plan(t, a, data, len);
      var s := MemBankSet(d, IspuMemBank).dev;
      WriteMemoryInner(s, t, p.0, p.1).dev.trace ==
        s.trace + WriteMemoryOps(IspuMemBank, Peek(d.regs, Key(IspuMemBank, ISPU_CONFIG)), t, p.0, p.1)
  {
    var p := Plan(t, a, data, len);
    var n := 2 * |p.0| + 4;
    var s := MemBankSet(d, IspuMemBank);
    ClearPrefix(d, 1, n + 1);
    ClearShift(d, s.dev, 1, n + 1);
    ClearPrefix(s.dev, n, 1);
    SelectKeeps(d, IspuMemBank, Key(IspuMemBank, ISPU_CONFIG));
    var inner := WriteMemoryInner(s.dev, t, p.0, p.1);
    ClearShift(s.dev, inner.dev, n, 1);
  }

  /** With no bus failure, a memory write succeeds and returns to Main. */
  lemma IspuWriteMemoryOk(d: Dev, t: IspuMemoryType, a: nat, data: seq<byte>, len: nat)
    requires WriteMemoryArgs(t, a, data, len)
    requires ClearFor(d, 2 * |Plan(t, a, data, len).0| + 6)
    ensures IspuWriteMemory(d, t, a, data, len).res.Ok?
    ensures ActiveBank(IspuWriteMemory(d, t, a, data, len).dev) == MainMemBank
  {
    WriteMemoryInnerRuns(d, t, a, data, len);
    var p := Plan(t, a, data, len);
    OperateOverOk(d, IspuMemBank, WriteMemoryClosure(t, p.0, p.1));
  }

  /** With no bus failure, a memory write issues exactly the planned operations inside the ISPU bank. */
  lemma IspuWriteMemoryTrace(d: Dev, t: IspuMemoryType, a: nat, data: seq<byte>, len: nat)
    requires WriteMemoryArgs(t, a, data, len)
    requires ClearFor(d, 2 * |Plan(t, a, data, len).0| + 6)
    ensures var p := Plan(t, a, data, len);
      IspuWriteMemory(d, t, a, data, len).dev.trace == d.trace + [SelectOp(IspuMemBank)] +
        WriteMemoryOps(IspuMemBank, Peek(d.regs, Key(IspuMemBank, ISPU_CONFIG)), t, p.0, p.1) + [SelectOp(MainMemBank)]
  {
    WriteMemoryInnerRuns(d, t, a, data, len);
    var p := Plan(t, a, data, len);
    var ops := WriteMemoryOps(IspuMemBank, Peek(d.regs, Key(IspuMemBank, ISPU_CONFIG)), t, p.0, p.1);
    OperateOverTrace(d, IspuMemBank, WriteMemoryClosure(t, p.0, p.1), ops);
  }

  /**
   * The shape of a memory write: the configuration byte is read and written
   * back with only `clk_dis` set, the memory is selected for writing, each
   * segment's address select is followed by its chunk, and the byte first
   * read is written back last.
   */
  lemma WriteMemoryOpsLayout(bank: MemBank, cfg: byte, t: IspuMemoryType, segs: seq<Seg>, chunks: seq<seq<byte>>)
    requires |chunks| == |segs| && Addressable(segs)
    ensures var ops := WriteMemoryOps(bank, cfg, t, segs, chunks);
      && |ops| == 2 * |segs| + 4
      && ops[0] == ReadOp(bank, ISPU_CONFIG, 1)
      && ops[1] == WriteOp(bank, ISPU_CONFIG, [Set(cfg, CLK_DIS, 1)])
      && ops[2] == WriteOp(bank, ISPU_MEM_SEL, [MemSelByte(t, 0)])
      && (forall i :: 0 <= i < |segs| ==>
            ops[3 + 2 * i] == WriteOp(bank, ISPU_MEM_ADDR0, AddrBytes(segs[i].addr)) &&
            ops[4 + 2 * i] == WriteOp(bank, ISPU_MEM_DATA, chunks[i]))
      && ops[|ops| - 1] == WriteOp(bank, ISPU_CONFIG, [cfg])
  {
    var ops := WriteMemoryOps(bank, cfg, t, segs, chunks);
    var mid := SegmentOps(bank, segs, chunks);
    assert ops == [ReadOp(bank, ISPU_CONFIG, 1), WriteOp(bank, ISPU_CONFIG, [Set(cfg, CLK_DIS, 1)]),
      WriteOp(bank, ISPU_MEM_SEL, [MemSelByte(t, 0)])] + mid + [WriteOp(bank, ISPU_CONFIG, [cfg])];
    forall i | 0 <= i < |segs|
      ensures ops[3 + 2 * i] == WriteOp(bank, ISPU_MEM_ADDR0, AddrBytes(segs[i].addr))
      ensures ops[4 + 2 * i] == WriteOp(bank, ISPU_MEM_DATA, chunks[i])
    {
      SegmentOpsAt(bank, segs, chunks, i);
      assert ops[3 + 2 * i] == mid[2 * i];
      assert ops[4 + 2 * i] == mid[2 * i + 1];
    }
  }

  /** The byte that disables the clock differs from the saved one in `clk_dis` only, and holds 1 there. */
  lemma ClockOffByte(cfg: byte)
    ensures Get(Set(cfg, CLK_DIS, 1), CLK_DIS) == 1
    ensures Set(cfg, CLK_DIS, 1) & !Mask(CLK_DIS) == cfg & !Mask(CLK_DIS)
  {
  }

  /** The operations of a memory read once the clock is off. */
  function ReadAfterClockOffOps(bank: MemBank, cfg: byte, t: IspuMemoryType, a: nat, len: nat): seq<BusOp>
    requires a < 0x10000
  {
    [WriteOp(bank, ISPU_MEM_SEL, [MemSelByte(t, 1)]), WriteOp(bank, ISPU_MEM_ADDR0, AddrBytes(a)),
      ReadOp(bank, ISPU_MEM_DATA, 1), ReadOp(bank, ISPU_MEM_DATA, len), WriteOp(bank, ISPU_CONFIG, [cfg])]
  }

  /**
   * Every bus operation of a memory read inside the bank: the clock bracket,
   * the memory selected for reading, one address select, a dummy one-byte
   * read, then the `len`-byte read.
   */
  function ReadMemoryOps(bank: MemBank, cfg: byte, t: IspuMemoryType, a: nat, len: nat): seq<BusOp>
    requires a < 0x10000
  {
    [ReadOp(bank, ISPU_CONFIG, 1), WriteOp(bank, ISPU_CONFIG, [Set(cfg, CLK_DIS, 1)])] + ReadAfterClockOffOps(bank, cfg, t, a, len)
  }

  /**
   * The closure of `ispu_read_memory` after the clock has been disabled:
   * the dummy read's result, failure included, is discarded.
   */
  function ReadAfterClockOff(d: Dev, cfg: byte, t: IspuMemoryType, a: nat, len: nat): (r: Out<seq<byte>>)
    requires a < 0x10000
    ensures r.dev.faults == d.faults
    ensures Extends(d, r.dev)
    ensures r.res.Ok? <==> ClearExcept(d, 5, 2)
    ensures r.res.Err? ==> r.res.error == Bus
    ensures r.res.Ok? ==> |r.res.value| == len
    ensures r.res.Ok? && ActiveBank(d) == IspuMemBank ==>
      forall i :: 0 <= i < len ==> r.res.value[i] == d.memOut(|d.trace| + 3, i)
    ensures r.res.Ok? ==> r.dev.trace == d.trace + ReadAfterClockOffOps(ActiveBank(d), cfg, t, a, len)
    ensures r.res.Ok? ==> |r.dev.trace| == |d.trace| + 5
  {
    var o2 :- Write1(d, ISPU_MEM_SEL, MemSelByte(t, 1));
    var o3 :- IspuSelMemoryAddr(o2.dev, a);
    var dummy := Read1(o3.dev, ISPU_MEM_DATA);
    var o4 :- Read(dummy.dev, ISPU_MEM_DATA, len);
    var o5 :- ClockRestore(o4.dev, cfg);
    var ops := ReadAfterClockOffOps(ActiveBank(d), cfg, t, a, len);
    AppendSingles(d.trace, ops[0], ops[1], ops[2], ops[3], ops[4]);
    Out(o5.dev, Ok(o4.res.value))
  }

  /** The closure of `ispu_read_memory`. */
  function ReadMemoryInner(d: Dev, t: IspuMemoryType, a: nat, len: nat): (r: Out<seq<byte>>)
    requires a < 0x10000
    ensures r.dev.faults == d.faults
    ensures Extends(d, r.dev)
    ensures r.res.Ok? <==> ClearExcept(d, 7, 4)
    ensures r.res.Err? ==> r.res.error == Bus
    ensures r.res.Ok? ==> |r.res.value| == len
    ensures r.res.Ok? && ActiveBank(d) == IspuMemBank ==>
      forall i :: 0 <= i < len ==> r.res.value[i] == d.memOut(|d.trace| + 5, i)
    ensures r.res.Ok? ==> r.dev.trace == d.trace + ReadMemoryOps(ActiveBank(d), RegValue(d, ISPU_CONFIG), t, a, len)
    ensures r.res.Ok? ==> |r.dev.trace| == |d.trace| + 7
  {
    var o1 :- ClockOff(d);
    var r := ReadAfterClockOff(o1.dev, o1.res.value, t, a, len);
    ExtendsTrans(d, o1.dev, r.dev);
    if r.res.Ok? then
      AppendAssoc(d.trace, o1.dev.trace[|d.trace|..], ReadAfterClockOffOps(ActiveBank(d), o1.res.value, t, a, len));
      r
    else r
  }

  /**
   * `ispu_read_memory`: the closure inside the ISPU bank. The bytes read
   * are returned rather than copied into a caller's buffer.
   */
  function IspuReadMemory(d: Dev, t: IspuMemoryType, a: nat, len: nat): (r: Out<seq<byte>>)
    requires a < 0x10000 && len < 0x10000
    ensures r.dev.faults == d.faults
    ensures r.res.Ok? ==> |r.res.value| == len
    ensures r.res.Ok? ==> forall i :: 0 <= i < len ==> r.res.value[i] == d.memOut(|d.trace| + 6, i)
    ensures (r.res.Ok? || !r.res.error.FailedToSetMemBank?) ==> ActiveBank(r.dev) == MainMemBank
  {
    OperateOver(d, IspuMemBank, ReadMemoryClosure(t, a, len))
  }

  /** The closure `ispu_read_memory` runs inside the ISPU bank. */
  function ReadMemoryClosure(t: IspuMemoryType, a: nat, len: nat): Dev -> Out<seq<byte>>
    requires a < 0x10000
  {
    e => ReadMemoryInner(e, t, a, len)
  }

  /**
   * When every operation but the dummy read succeeds, the closure of a
   * memory read, run once the ISPU bank is selected, succeeds and issues
   * the planned operations.
   */
  lemma ReadMemoryInnerRuns(d: Dev, t: IspuMemoryType, a: nat, len: nat)
    requires a < 0x10000
    requires ClearExcept(d, 9, 5)
    ensures |d.trace| !in d.faults
    ensures var inner := ReadMemoryInner(MemBankSet(d, IspuMemBank).dev, t, a, len);
      inner.res.Ok? && inner.dev.faults == d.faults && |inner.dev.trace| !in d.faults
    ensures var s := MemBankSet(d, IspuMemBank).dev;
      ReadMemoryInner(s, t, a, len).dev.trace ==
        s.trace + ReadMemoryOps(IspuMemBank, Peek(d.regs, Key(IspuMemBank, ISPU_CONFIG)), t, a, len)
  {
    var s := MemBankSet(d, IspuMemBank);
    ClearExceptHead(d, 9, 5, 1);
    ClearExceptShift(d, s.dev, 1, 8, 4);
    ClearExceptPrefix(s.dev, 8, 7, 4);
    SelectKeeps(d, IspuMemBank, Key(IspuMemBank, ISPU_CONFIG));
    var inner := ReadMemoryInner(s.dev, t, a, len);
    ClearExceptTail(s.dev, inner.dev, 7, 1, 4);
  }

  /**
   * A memory read succeeds and returns to Main when every operation but the
   * dummy read succeeds: a failed dummy read is ignored.
   */
  lemma IspuReadMemoryOk(d: Dev, t: IspuMemoryType, a: nat, len: nat)
    requires a < 0x10000 && len < 0x10000
    requires ClearExcept(d, 9, 5)
    ensures IspuReadMemory(d, t, a, len).res.Ok?
    ensures ActiveBank(IspuReadMemory(d, t, a, len).dev) == MainMemBank
  {
    ReadMemoryInnerRuns(d, t, a, len);
    OperateOverOk(d, IspuMemBank, ReadMemoryClosure(t, a, len));
  }

  /** Under the same condition, a memory read issues exactly its planned operations inside the ISPU bank. */
  lemma IspuReadMemoryTrace(d: Dev, t: IspuMemoryType, a: nat, len: nat)
    requires a < 0x10000 && len < 0x10000
    requires ClearExcept(d, 9, 5)
    ensures IspuReadMemory(d, t, a, len).dev.trace == d.trace + [SelectOp(IspuMemBank)] +
        ReadMemoryOps(IspuMemBank, Peek(d.regs, Key(IspuMemBank, ISPU_CONFIG)), t, a, len) + [SelectOp(MainMemBank)]
  {
    ReadMemoryInnerRuns(d, t, a, len);
    var ops := ReadMemoryOps(IspuMemBank, Peek(d.regs, Key(IspuMemBank, ISPU_CONFIG)), t, a, len);
    OperateOverTrace(d, IspuMemBank, ReadMemoryClosure(t, a, len), ops);
  }
}
