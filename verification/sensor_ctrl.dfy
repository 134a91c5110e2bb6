/**
 * Accelerometer and gyroscope configuration: high-performance mode, full
 * scale and output data rate. A data rate is split over two registers: its
 * bit 4 goes to the high-performance-mode *disable* bit (CTRL6_C for the
 * accelerometer, CTRL7_G for the gyroscope) and its low nibble to the ODR
 * field; the getters put the two back together.
 */
module SensorCtrl {
  import opened Bits
  import opened Wrappers
  import opened MemBanks
  import opened Device
  import opened MainRegs

  /** Every register whose address is outside `regs`, in any bank, holds the same in `d` and `e`. */
  ghost predicate OnlyChanged(d: Dev, e: Dev, regs: set<nat>)
  {
    forall k: Key :: k.addr !in regs ==> Peek(e.regs, k) == Peek(d.regs, k)
  }

  /** The high-performance mode a rate setter selects: bit 4 of the code set disables it. */
  function HmFor(c: byte): HighPerformanceMode
  {
    if c & 0x10 == 0x10 then HmDisabled else HmEnabled
  }

  /** `xl_hm_mode_set`: read-modify-write of CTRL6_C.xl_hm_mode. */
  function XlHmModeSet(d: Dev, m: HighPerformanceMode): (r: Out<()>)
    ensures r.dev.faults == d.faults
    ensures r.res.Ok? <==> ClearFor(d, 2)
    ensures r.res.Err? ==> r.res.error == Bus && r.dev.regs == d.regs
    ensures r.res.Ok? ==> r.dev.trace == d.trace + [ReadOp(ActiveBank(d), CTRL6_C, 1), WriteOp(ActiveBank(d), CTRL6_C, [Set(RegValue(d, CTRL6_C), XL_HM_MODE, HmCode(m))])]
    ensures r.res.Ok? ==> r.dev.regs == d.regs[Key(ActiveBank(d), CTRL6_C) := Set(RegValue(d, CTRL6_C), XL_HM_MODE, HmCode(m))]
    ensures r.res.Ok? ==> Get(RegValue(r.dev, CTRL6_C), XL_HM_MODE) == HmCode(m) && ActiveBank(r.dev) == ActiveBank(d)
  {
    assert HmCode(m) & 1 == HmCode(m);
    GetSetSame(RegValue(d, CTRL6_C), XL_HM_MODE, HmCode(m));
    Modify(d, CTRL6_C, XL_HM_MODE, HmCode(m) & 1)
  }

  /** `gy_hm_mode_set`: read-modify-write of CTRL7_G.g_hm_mode. */
  function GyHmModeSet(d: Dev, m: HighPerformanceMode): (r: Out<()>)
    ensures r.dev.faults == d.faults
    ensures r.res.Ok? <==> ClearFor(d, 2)
    ensures r.res.Err? ==> r.res.error == Bus && r.dev.regs == d.regs
    ensures r.res.Ok? ==> r.dev.trace == d.trace + [ReadOp(ActiveBank(d), CTRL7_G, 1), WriteOp(ActiveBank(d), CTRL7_G, [Set(RegValue(d, CTRL7_G), G_HM_MODE, HmCode(m))])]
    ensures r.res.Ok? ==> r.dev.regs == d.regs[Key(ActiveBank(d), CTRL7_G) := Set(RegValue(d, CTRL7_G), G_HM_MODE, HmCode(m))]
    ensures r.res.Ok? ==> Get(RegValue(r.dev, CTRL7_G), G_HM_MODE) == HmCode(m) && ActiveBank(r.dev) == ActiveBank(d)
  {
    assert HmCode(m) & 1 == HmCode(m);
    GetSetSame(RegValue(d, CTRL7_G), G_HM_MODE, HmCode(m));
    Modify(d, CTRL7_G, G_HM_MODE, HmCode(m) & 1)
  }

  /** `xl_full_scale_set`: read-modify-write of CTRL1_XL.fs_xl. */
  function XlFullScaleSet(d: Dev, s: XlFullScale): (r: Out<()>)
    ensures r.dev.faults == d.faults
    ensures r.res.Ok? <==> ClearFor(d, 2)
    ensures r.res.Err? ==> r.res.error == Bus && r.dev.regs == d.regs
    ensures r.res.Ok? ==> r.dev.trace == d.trace + [ReadOp(ActiveBank(d), CTRL1_XL, 1), WriteOp(ActiveBank(d), CTRL1_XL, [RegValue(r.dev, CTRL1_XL)])]
    ensures r.res.Ok? ==> Get(RegValue(r.dev, CTRL1_XL), FS_XL) == XlFullScaleCode(s)
    ensures r.res.Ok? ==> RegValue(r.dev, CTRL1_XL) & !Mask(FS_XL) == RegValue(d, CTRL1_XL) & !Mask(FS_XL)
    ensures r.res.Ok? ==> r.dev.regs == d.regs[Key(ActiveBank(d), CTRL1_XL) := RegValue(r.dev, CTRL1_XL)]
  {
    GetSetSame(RegValue(d, CTRL1_XL), FS_XL, XlFullScaleCode(s) & 3);
    Modify(d, CTRL1_XL, FS_XL, XlFullScaleCode(s) & 3)
  }

  /** `xl_full_scale_get`: CTRL1_XL.fs_xl decoded; every 2-bit value names a scale. */
  function XlFullScaleGet(d: Dev): (r: Out<XlFullScale>)
    ensures r.dev == d.(trace := d.trace + [ReadOp(ActiveBank(d), CTRL1_XL, 1)])
    ensures r.res.Err? <==> |d.trace| in d.faults
    ensures r.res.Err? ==> r.res.error == Bus
    ensures r.res.Ok? ==> XlFullScaleCode(r.res.value) == Get(RegValue(d, CTRL1_XL), FS_XL)
  {
    var o :- Read1(d, CTRL1_XL);
    Out(o.dev, Ok(XlFullScaleFrom(Get(o.res.value, FS_XL)).GetOr(Fs2g)))
  }

  /** With no bus failure, reading the accelerometer full scale back returns the scale set. */
  lemma XlFullScaleGetAfterSet(d: Dev, s: XlFullScale)
    requires ClearFor(d, 3)
    ensures XlFullScaleSet(d, s).res.Ok?
    ensures XlFullScaleGet(XlFullScaleSet(d, s).dev).res == Ok(s)
  {
    ClearShift(d, XlFullScaleSet(d, s).dev, 2, 1);
  }

  /** The accelerometer rate code the registers hold: the hm bit above the ODR nibble. */
  function XlSelection(d: Dev): byte
  {
    (Get(RegValue(d, CTRL6_C), XL_HM_MODE) << 4) | Get(RegValue(d, CTRL1_XL), ODR_XL)
  }

  /** Every accelerometer rate code survives the split into hm bit and ODR nibble. */
  lemma XlDataRateSplit(v: XlDataRate)
    ensures var c := XlDataRateCode(v);
      (HmCode(HmFor(c)) << 4) | (c & 0x0F) == c
  {
    XlDataRateRoundTrip(v);
    RateCodeSplit(XlDataRateCode(v));
  }

  /**
   * `xl_data_rate_set`: reads CTRL1_XL, sets the high-performance bit in CTRL6_C from
   * bit 4 of the rate code by read-modify-write, then writes back the
   * CTRL1_XL byte read first with its ODR field set to the low nibble.
   */
  function XlDataRateSet(d: Dev, v: XlDataRate): (r: Out<()>)
    ensures Extends(d, r.dev) && |r.dev.trace| <= |d.trace| + 4
    ensures r.res.Ok? <==> ClearFor(d, 4)
    ensures r.res.Err? ==> r.res.error == Bus
    ensures r.res.Ok? ==> r.dev.trace == d.trace + [
      ReadOp(ActiveBank(d), CTRL1_XL, 1),
      ReadOp(ActiveBank(d), CTRL6_C, 1),
      WriteOp(ActiveBank(d), CTRL6_C, [Set(RegValue(d, CTRL6_C), XL_HM_MODE, HmCode(HmFor(XlDataRateCode(v))))]),
      WriteOp(ActiveBank(d), CTRL1_XL, [Set(RegValue(d, CTRL1_XL), ODR_XL, XlDataRateCode(v) & 0x0F)])]
  {
    var c := XlDataRateCode(v);
    var o1 :- Read1(d, CTRL1_XL);
    var o2 :- XlHmModeSet(o1.dev, HmFor(c));
    Write1(o2.dev, CTRL1_XL, Set(o1.res.value, ODR_XL, c & 0x0F))
  }

  /** A successful `xl_data_rate_set` stores the two bytes it writes and nothing else. */
  lemma XlDataRateSetRegs(d: Dev, v: XlDataRate)
    requires XlDataRateSet(d, v).res.Ok?
    ensures XlDataRateSet(d, v).dev.regs == d.regs
      [Key(ActiveBank(d), CTRL6_C) := Set(RegValue(d, CTRL6_C), XL_HM_MODE, HmCode(HmFor(XlDataRateCode(v))))]
      [Key(ActiveBank(d), CTRL1_XL) := Set(RegValue(d, CTRL1_XL), ODR_XL, XlDataRateCode(v) & 0x0F)]
  {
  }

  /**
   * After a successful `xl_data_rate_set` the two registers hold the rate code,
   * every other bit of them is as before, and no other register (the bank
   * selection included) has changed.
   */
  lemma XlDataRateSetEffect(d: Dev, v: XlDataRate)
    requires XlDataRateSet(d, v).res.Ok?
    ensures XlSelection(XlDataRateSet(d, v).dev) == XlDataRateCode(v)
    ensures RegValue(XlDataRateSet(d, v).dev, CTRL1_XL) & !Mask(ODR_XL) == RegValue(d, CTRL1_XL) & !Mask(ODR_XL)
    ensures RegValue(XlDataRateSet(d, v).dev, CTRL6_C) & !Mask(XL_HM_MODE) == RegValue(d, CTRL6_C) & !Mask(XL_HM_MODE)
    ensures OnlyChanged(d, XlDataRateSet(d, v).dev, {CTRL1_XL, CTRL6_C}) && ActiveBank(XlDataRateSet(d, v).dev) == ActiveBank(d)
  {
    XlDataRateSetRegs(d, v);
    var e := XlDataRateSet(d, v).dev;
    var c := XlDataRateCode(v);
    assert ActiveBank(e) == ActiveBank(d);
    assert RegValue(e, CTRL1_XL) == Set(RegValue(d, CTRL1_XL), ODR_XL, c & 0x0F);
    assert RegValue(e, CTRL6_C) == Set(RegValue(d, CTRL6_C), XL_HM_MODE, HmCode(HmFor(c)));
    GetSetSame(RegValue(d, CTRL1_XL), ODR_XL, c & 0x0F);
    GetSetSame(RegValue(d, CTRL6_C), XL_HM_MODE, HmCode(HmFor(c)));
    XlDataRateSplit(v);
  }

  /**
   * `xl_data_rate_get`: reads CTRL1_XL then CTRL6_C and decodes the recombined code; a
   * code naming no rate reads as `XlOff`.
   */
  function XlDataRateGet(d: Dev): (r: Out<XlDataRate>)
    ensures r.dev.regs == d.regs && Extends(d, r.dev) && |r.dev.trace| <= |d.trace| + 2
    ensures r.res.Ok? <==> ClearFor(d, 2)
    ensures r.res.Err? ==> r.res.error == Bus
    ensures r.res.Ok? ==> r.dev.trace == d.trace + [ReadOp(ActiveBank(d), CTRL1_XL, 1), ReadOp(ActiveBank(d), CTRL6_C, 1)]
    ensures r.res.Ok? && XlDataRateFrom(XlSelection(d)).Some? ==> XlDataRateCode(r.res.value) == XlSelection(d)
    ensures r.res.Ok? && XlDataRateFrom(XlSelection(d)).None? ==> r.res.value == XlOff
  {
    var o1 :- Read1(d, CTRL1_XL);
    var o2 :- Read1(o1.dev, CTRL6_C);
    var sel := (Get(o2.res.value, XL_HM_MODE) << 4) | Get(o1.res.value, ODR_XL);
    Out(o2.dev, Ok(XlDataRateFrom(sel).GetOr(XlOff)))
  }

  /** With no bus failure, reading the accelerometer rate back returns the rate set. */
  lemma XlDataRateGetAfterSet(d: Dev, v: XlDataRate)
    requires ClearFor(d, 6)
    ensures XlDataRateSet(d, v).res.Ok?
    ensures XlDataRateGet(XlDataRateSet(d, v).dev).res == Ok(v)
  {
    ClearShift(d, XlDataRateSet(d, v).dev, 4, 2);
    XlDataRateSetEffect(d, v);
    XlDataRateRoundTrip(v);
  }

  /** Rate and full scale share CTRL1_XL, yet setting the rate leaves the full scale read back as it was. */
  lemma XlRateKeepsFullScale(d: Dev, v: XlDataRate)
    requires ClearFor(d, 5)
    ensures XlFullScaleGet(XlDataRateSet(d, v).dev).res == XlFullScaleGet(d).res
  {
    ClearShift(d, XlDataRateSet(d, v).dev, 4, 1);
    var e := XlDataRateSet(d, v).dev;
    XlDataRateSetEffect(d, v);
    MaskedAgree(RegValue(d, CTRL1_XL), RegValue(e, CTRL1_XL), ODR_XL, FS_XL);
    assert Get(RegValue(e, CTRL1_XL), FS_XL) == Get(RegValue(d, CTRL1_XL), FS_XL);
  }

  /** Setting the accelerometer full scale leaves the rate read back as it was. */
  lemma XlFullScaleKeepsRate(d: Dev, s: XlFullScale)
    requires ClearFor(d, 4)
    ensures XlDataRateGet(XlFullScaleSet(d, s).dev).res == XlDataRateGet(d).res
  {
    ClearShift(d, XlFullScaleSet(d, s).dev, 2, 2);
    var e := XlFullScaleSet(d, s).dev;
    MaskedAgree(RegValue(d, CTRL1_XL), RegValue(e, CTRL1_XL), FS_XL, ODR_XL);
    assert RegValue(e, CTRL6_C) == RegValue(d, CTRL6_C);
    XlDataRateGetSelection(d, e);
  }

  /** The accelerometer rate read back depends on the selection code alone. */
  lemma XlDataRateGetSelection(d: Dev, e: Dev)
    requires ClearFor(d, 2) && ClearFor(e, 2)
    requires XlSelection(e) == XlSelection(d)
    ensures XlDataRateGet(e).res == XlDataRateGet(d).res
  {
  }

  /** `gy_full_scale_set`: CTRL2_G read-modify-write of fs_g (the low two bits) and fs_125 (the code shifted down by 4). */
  function GyFullScaleSet(d: Dev, s: GyFullScale): (r: Out<()>)
    ensures r.dev.faults == d.faults
    ensures r.res.Ok? <==> ClearFor(d, 2)
    ensures r.res.Err? ==> r.res.error == Bus && r.dev.regs == d.regs
    ensures r.res.Ok? ==> r.dev.trace == d.trace + [ReadOp(ActiveBank(d), CTRL2_G, 1), WriteOp(ActiveBank(d), CTRL2_G, [RegValue(r.dev, CTRL2_G)])]
    ensures r.res.Ok? ==> (Get(RegValue(r.dev, CTRL2_G), FS_125) << 4) | Get(RegValue(r.dev, CTRL2_G), FS_G) == GyFullScaleCode(s)
    ensures r.res.Ok? ==> RegValue(r.dev, CTRL2_G) & !(Mask(FS_G) | Mask(FS_125)) == RegValue(d, CTRL2_G) & !(Mask(FS_G) | Mask(FS_125))
    ensures r.res.Ok? ==> r.dev.regs == d.regs[Key(ActiveBank(d), CTRL2_G) := RegValue(r.dev, CTRL2_G)]
  {
    var c := GyFullScaleCode(s);
    var o :- Read1(d, CTRL2_G);
    var r := Write1(o.dev, CTRL2_G, Set(Set(o.res.value, FS_G, c & 3), FS_125, c >> 4));
    GyFullScaleSplit(o.res.value, s);
    r
  }

  /** Writing fs_g and fs_125 from a full-scale code stores exactly that code and nothing else. */
  lemma GyFullScaleSplit(b: byte, s: GyFullScale)
    ensures var c := GyFullScaleCode(s); var n := Set(Set(b, FS_G, c & 3), FS_125, c >> 4);
      && (Get(n, FS_125) << 4) | Get(n, FS_G) == c
      && n & !(Mask(FS_G) | Mask(FS_125)) == b & !(Mask(FS_G) | Mask(FS_125))
  {
    var c := GyFullScaleCode(s);
    GyFullScaleRoundTrip(s);
    var n1 := Set(b, FS_G, c & 3);
    GetSetSame(b, FS_G, c & 3);
    GetSetSame(n1, FS_125, c >> 4);
    GetSetOther(n1, FS_125, c >> 4, FS_G);
  }

  /** `gy_full_scale_get`: fs_125 above fs_g decoded; a value naming no scale reads as 125 dps. */
  function GyFullScaleGet(d: Dev): (r: Out<GyFullScale>)
    ensures r.dev == d.(trace := d.trace + [ReadOp(ActiveBank(d), CTRL2_G, 1)])
    ensures r.res.Err? <==> |d.trace| in d.faults
    ensures r.res.Err? ==> r.res.error == Bus
    ensures r.res.Ok? ==> var sel := (Get(RegValue(d, CTRL2_G), FS_125) << 4) | Get(RegValue(d, CTRL2_G), FS_G);
      (GyFullScaleFrom(sel).Some? ==> GyFullScaleCode(r.res.value) == sel) && (GyFullScaleFrom(sel).None? ==> r.res.value == Dps125)
  {
    var o :- Read1(d, CTRL2_G);
    var sel := (Get(o.res.value, FS_125) << 4) | Get(o.res.value, FS_G);
    Out(o.dev, Ok(GyFullScaleFrom(sel).GetOr(Dps125)))
  }

  /** With no bus failure, reading the gyroscope full scale back returns the scale set. */
  lemma GyFullScaleGetAfterSet(d: Dev, s: GyFullScale)
    requires ClearFor(d, 3)
    ensures GyFullScaleSet(d, s).res.Ok?
    ensures GyFullScaleGet(GyFullScaleSet(d, s).dev).res == Ok(s)
  {
    ClearShift(d, GyFullScaleSet(d, s).dev, 2, 1);
    GyFullScaleRoundTrip(s);
  }

  /** The gyroscope rate code the registers hold: the hm bit above the ODR nibble. */
  function GySelection(d: Dev): byte
  {
    (Get(RegValue(d, CTRL7_G), G_HM_MODE) << 4) | Get(RegValue(d, CTRL2_G), ODR_G)
  }

  /** Every gyroscope rate code survives the split into hm bit and ODR nibble. */
  lemma GyDataRateSplit(v: GyDataRate)
    ensures var c := GyDataRateCode(v);
      (HmCode(HmFor(c)) << 4) | (c & 0x0F) == c
  {
    GyDataRateRoundTrip(v);
    RateCodeSplit(GyDataRateCode(v));
  }

  /**
   * `gy_data_rate_set`: reads CTRL2_G, sets the high-performance bit in CTRL7_G from
   * bit 4 of the rate code by read-modify-write, then writes back the
   * CTRL2_G byte read first with its ODR field set to the low nibble.
   */
  function GyDataRateSet(d: Dev, v: GyDataRate): (r: Out<()>)
    ensures Extends(d, r.dev) && |r.dev.trace| <= |d.trace| + 4
    ensures r.res.Ok? <==> ClearFor(d, 4)
    ensures r.res.Err? ==> r.res.error == Bus
    ensures r.res.Ok? ==> r.dev.trace == d.trace + [
      ReadOp(ActiveBank(d), CTRL2_G, 1),
      ReadOp(ActiveBank(d), CTRL7_G, 1),
      WriteOp(ActiveBank(d), CTRL7_G, [Set(RegValue(d, CTRL7_G), G_HM_MODE, HmCode(HmFor(GyDataRateCode(v))))]),
      WriteOp(ActiveBank(d), CTRL2_G, [Set(RegValue(d, CTRL2_G), ODR_G, GyDataRateCode(v) & 0x0F)])]
  {
    var c := GyDataRateCode(v);
    var o1 :- Read1(d, CTRL2_G);
    var o2 :- GyHmModeSet(o1.dev, HmFor(c));
    Write1(o2.dev, CTRL2_G, Set(o1.res.value, ODR_G, c & 0x0F))
  }

  /** A successful `gy_data_rate_set` stores the two bytes it writes and nothing else. */
  lemma GyDataRateSetRegs(d: Dev, v: GyDataRate)
    requires GyDataRateSet(d, v).res.Ok?
    ensures GyDataRateSet(d, v).dev.regs == d.regs
      [Key(ActiveBank(d), CTRL7_G) := Set(RegValue(d, CTRL7_G), G_HM_MODE, HmCode(HmFor(GyDataRateCode(v))))]
      [Key(ActiveBank(d), CTRL2_G) := Set(RegValue(d, CTRL2_G), ODR_G, GyDataRateCode(v) & 0x0F)]
  {
  }

  /**
   * After a successful `gy_data_rate_set` the two registers hold the rate code,
   * every other bit of them is as before, and no other register (the bank
   * selection included) has changed.
   */
  lemma GyDataRateSetEffect(d: Dev, v: GyDataRate)
    requires GyDataRateSet(d, v).res.Ok?
    ensures GySelection(GyDataRateSet(d, v).dev) == GyDataRateCode(v)
    ensures RegValue(GyDataRateSet(d, v).dev, CTRL2_G) & !Mask(ODR_G) == RegValue(d, CTRL2_G) & !Mask(ODR_G)
    ensures RegValue(GyDataRateSet(d, v).dev, CTRL7_G) & !Mask(G_HM_MODE) == RegValue(d, CTRL7_G) & !Mask(G_HM_MODE)
    ensures OnlyChanged(d, GyDataRateSet(d, v).dev, {CTRL2_G, CTRL7_G}) && ActiveBank(GyDataRateSet(d, v).dev) == ActiveBank(d)
  {
    GyDataRateSetRegs(d, v);
    var e := GyDataRateSet(d, v).dev;
    var c := GyDataRateCode(v);
    assert ActiveBank(e) == ActiveBank(d);
    assert RegValue(e, CTRL2_G) == Set(RegValue(d, CTRL2_G), ODR_G, c & 0x0F);
    assert RegValue(e, CTRL7_G) == Set(RegValue(d, CTRL7_G), G_HM_MODE, HmCode(HmFor(c)));
    GetSetSame(RegValue(d, CTRL2_G), ODR_G, c & 0x0F);
    GetSetSame(RegValue(d, CTRL7_G), G_HM_MODE, HmCode(HmFor(c)));
    GyDataRateSplit(v);
  }

  /**
   * `gy_data_rate_get`: reads CTRL2_G then CTRL7_G and decodes the recombined code; a
   * code naming no rate reads as `GyOff`.
   */
  function GyDataRateGet(d: Dev): (r: Out<GyDataRate>)
    ensures r.dev.regs == d.regs && Extends(d, r.dev) && |r.dev.trace| <= |d.trace| + 2
    ensures r.res.Ok? <==> ClearFor(d, 2)
    ensures r.res.Err? ==> r.res.error == Bus
    ensures r.res.Ok? ==> r.dev.trace == d.trace + [ReadOp(ActiveBank(d), CTRL2_G, 1), ReadOp(ActiveBank(d), CTRL7_G, 1)]
    ensures r.res.Ok? && GyDataRateFrom(GySelection(d)).Some? ==> GyDataRateCode(r.res.value) == GySelection(d)
    ensures r.res.Ok? && GyDataRateFrom(GySelection(d)).None? ==> r.res.value == GyOff
  {
    var o1 :- Read1(d, CTRL2_G);
    var o2 :- Read1(o1.dev, CTRL7_G);
    var sel := (Get(o2.res.value, G_HM_MODE) << 4) | Get(o1.res.value, ODR_G);
    Out(o2.dev, Ok(GyDataRateFrom(sel).GetOr(GyOff)))
  }

  /** With no bus failure, reading the gyroscope rate back returns the rate set. */
  lemma GyDataRateGetAfterSet(d: Dev, v: GyDataRate)
    requires ClearFor(d, 6)
    ensures GyDataRateSet(d, v).res.Ok?
    ensures GyDataRateGet(GyDataRateSet(d, v).dev).res == Ok(v)
  {
    ClearShift(d, GyDataRateSet(d, v).dev, 4, 2);
    GyDataRateSetEffect(d, v);
    GyDataRateRoundTrip(v);
  }

  /** Rate and full scale share CTRL2_G, yet setting the rate leaves the full scale read back as it was. */
  lemma GyRateKeepsFullScale(d: Dev, v: GyDataRate)
    requires ClearFor(d, 5)
    ensures GyFullScaleGet(GyDataRateSet(d, v).dev).res == GyFullScaleGet(d).res
  {
    ClearShift(d, GyDataRateSet(d, v).dev, 4, 1);
    var e := GyDataRateSet(d, v).dev;
    GyDataRateKeepsFsFields(d, v);
    GyFullScaleGetFields(d, e);
  }

  /** A successful gyroscope rate set leaves fs_g and fs_125 as they were. */
  lemma GyDataRateKeepsFsFields(d: Dev, v: GyDataRate)
    requires GyDataRateSet(d, v).res.Ok?
    ensures var a, b := RegValue(d, CTRL2_G), RegValue(GyDataRateSet(d, v).dev, CTRL2_G);
      Get(b, FS_G) == Get(a, FS_G) && Get(b, FS_125) == Get(a, FS_125)
  {
    GyDataRateSetEffect(d, v);
    OdrGKeepsFs(RegValue(d, CTRL2_G), RegValue(GyDataRateSet(d, v).dev, CTRL2_G));
  }

  /** Two CTRL2_G bytes that agree outside odr_g agree on fs_g and fs_125. */
  lemma OdrGKeepsFs(a: byte, b: byte)
    requires b & !Mask(ODR_G) == a & !Mask(ODR_G)
    ensures Get(b, FS_G) == Get(a, FS_G) && Get(b, FS_125) == Get(a, FS_125)
  {
    MaskedAgree(a, b, ODR_G, FS_G);
    MaskedAgree(a, b, ODR_G, FS_125);
  }

  /** The gyroscope full scale read back depends on fs_g and fs_125 alone. */
  lemma GyFullScaleGetFields(d: Dev, e: Dev)
    requires |d.trace| !in d.faults && |e.trace| !in e.faults
    requires Get(RegValue(e, CTRL2_G), FS_G) == Get(RegValue(d, CTRL2_G), FS_G)
    requires Get(RegValue(e, CTRL2_G), FS_125) == Get(RegValue(d, CTRL2_G), FS_125)
    ensures GyFullScaleGet(e).res == GyFullScaleGet(d).res
  {
  }

  /** Setting the gyroscope full scale leaves the rate read back as it was. */
  lemma GyFullScaleKeepsRate(d: Dev, s: GyFullScale)
    requires ClearFor(d, 4)
    ensures GyDataRateGet(GyFullScaleSet(d, s).dev).res == GyDataRateGet(d).res
  {
    ClearShift(d, GyFullScaleSet(d, s).dev, 2, 2);
    var e := GyFullScaleSet(d, s).dev;
    var a, c := RegValue(d, CTRL2_G), RegValue(e, CTRL2_G);
    assert Get(c, ODR_G) == Get(a, ODR_G) by {
      assert c & !(Mask(FS_G) | Mask(FS_125)) == a & !(Mask(FS_G) | Mask(FS_125));
      assert c & Mask(ODR_G) == a & Mask(ODR_G);
    }
    assert RegValue(e, CTRL7_G) == RegValue(d, CTRL7_G);
    GyDataRateGetSelection(d, e);
  }

  /** The gyroscope rate read back depends on the selection code alone. */
  lemma GyDataRateGetSelection(d: Dev, e: Dev)
    requires ClearFor(d, 2) && ClearFor(e, 2)
    requires GySelection(e) == GySelection(d)
    ensures GyDataRateGet(e).res == GyDataRateGet(d).res
  {
  }

  /** `acceleration_raw_get`: the six output bytes OUTX_L_A .. OUTZ_H_A in one read. */
  function AccelerationRawGet(d: Dev): (r: Out<seq<byte>>)
    ensures r.dev == d.(trace := d.trace + [ReadOp(ActiveBank(d), OUTX_L_A, 6)])
    ensures r.res.Err? <==> |d.trace| in d.faults
    ensures r.res.Ok? ==> |r.res.value| == 6
    ensures r.res.Ok? ==> forall i :: 0 <= i < 6 ==> r.res.value[i] == RegValue(d, OUTX_L_A + i)
  {
    Read(d, OUTX_L_A, 6)
  }
}
