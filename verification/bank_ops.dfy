/**
 * Bank selection and scoped bank access: `mem_bank_set`, `mem_bank_get`,
 * the `operate_over_*` helpers that run a closure inside the sensor-hub or
 * ISPU bank and return to Main, and the ISPU memory address select.
 *
 * The lock handed to the closure forwards reads and writes to the sensor
 * unchanged, so the closure is given the device itself.
 */
module BankOps {
  import opened Bits
  import opened MemBanks
  import opened Device
  import opened MainRegs
  import opened IspuRegs

  /** The one write that selects bank `b`. */
  function SelectOp(b: MemBank): BusOp
  {
    WriteOp(MainMemBank, FUNC_CFG_ACCESS, [SelectByte(b)])
  }

  /**
   * `mem_bank_set`: one write of FUNC_CFG_ACCESS; afterwards bank `b` is
   * active and no other register has changed. A failed write is reported
   * as `FailedToSetMemBank(b)` and leaves the store as it was.
   */
  function MemBankSet(d: Dev, b: MemBank): (r: Out<()>)
    ensures r.dev.trace == d.trace + [SelectOp(b)]
    ensures r.dev.faults == d.faults
    ensures r.res.Err? <==> |d.trace| in d.faults
    ensures r.res.Err? ==> r.res.error == FailedToSetMemBank(b) && r.dev.regs == d.regs
    ensures r.res.Ok? ==> ActiveBank(r.dev) == b
    ensures r.res.Ok? ==> forall k :: k != Key(MainMemBank, FUNC_CFG_ACCESS) ==> Peek(r.dev.regs, k) == Peek(d.regs, k)
  {
    var o := Write1(d, FUNC_CFG_ACCESS, SelectByte(b));
    if o.res.Err? then Out(o.dev, Err(FailedToSetMemBank(b))) else o
  }

  /**
   * `mem_bank_get`: one read of FUNC_CFG_ACCESS decoded into the active
   * bank; a failed read is reported as `FailedToReadMemBank`.
   */
  function MemBankGet(d: Dev): (r: Out<MemBank>)
    ensures r.dev == d.(trace := d.trace + [ReadOp(MainMemBank, FUNC_CFG_ACCESS, 1)])
    ensures r.res.Err? <==> |d.trace| in d.faults
    ensures r.res.Err? ==> r.res.error == FailedToReadMemBank
    ensures r.res.Ok? ==> r.res.value == ActiveBank(d)
  {
    var o := Read1(d, FUNC_CFG_ACCESS);
    if o.res.Err? then Out(o.dev, Err(FailedToReadMemBank)) else Out(o.dev, Ok(BankOf(o.res.value)))
  }

  /** Selecting a bank changes no register outside Main. */
  lemma SelectKeeps(d: Dev, b: MemBank, k: Key)
    requires k.bank != MainMemBank
    ensures Peek(MemBankSet(d, b).dev.regs, k) == Peek(d.regs, k)
  {
  }

  /** On a reliable bus, reading the bank back after selecting `b` yields `b`. */
  lemma MemBankGetAfterSet(d: Dev, b: MemBank)
    requires Reliable(d)
    ensures MemBankSet(d, b).res.Ok?
    ensures MemBankGet(MemBankSet(d, b).dev).res == Ok(b)
  {
  }

  /**
   * `operate_over_sensor_hub` (target = SensorHubMemBank) and
   * `operate_over_ispu` (target = IspuMemBank): select the target bank, run
   * `f` once, select Main again whatever `f` returned, and return `f`'s
   * result unless selecting Main failed.
   */
  function OperateOver<T>(d: Dev, target: MemBank, f: Dev -> Out<T>): (r: Out<T>)
    // Selecting the target fails: `f` never runs and Main is not restored.
    ensures MemBankSet(d, target).res.Err? ==>
      r.dev == MemBankSet(d, target).dev && r.res == Err(FailedToSetMemBank(target))
    // Otherwise `f` runs once in the target bank, and Main is selected after it.
    ensures MemBankSet(d, target).res.Ok? ==>
      && ActiveBank(MemBankSet(d, target).dev) == target
      && r.dev.trace == f(MemBankSet(d, target).dev).dev.trace + [SelectOp(MainMemBank)]
    // The restore's failure masks `f`'s result; its success returns it unchanged.
    ensures MemBankSet(d, target).res.Ok? ==>
      var inner := f(MemBankSet(d, target).dev);
      if |inner.dev.trace| in inner.dev.faults
      then r.res == Err(FailedToSetMemBank(MainMemBank))
      else r.res == inner.res && ActiveBank(r.dev) == MainMemBank
    // Whatever the result, unless it is a bank-selection failure Main is active.
    ensures (r.res.Ok? || !r.res.error.FailedToSetMemBank?) ==> ActiveBank(r.dev) == MainMemBank
  {
    var s := MemBankSet(d, target);
    if s.res.Err? then Out(s.dev, Err(FailedToSetMemBank(target)))
    else
      var inner := f(s.dev);
      var back := MemBankSet(inner.dev, MainMemBank);
      if back.res.Err? then Out(back.dev, Err(back.res.error)) else Out(back.dev, inner.res)
  }

  /**
   * When neither bank selection fails, `OperateOver` returns what `f`
   * returned, after `f`'s operations and one selection of Main.
   */
  lemma OperateOverOk<T>(d: Dev, target: MemBank, f: Dev -> Out<T>)
    requires |d.trace| !in d.faults
    requires f(MemBankSet(d, target).dev).dev.faults == d.faults
    requires |f(MemBankSet(d, target).dev).dev.trace| !in d.faults
    ensures MemBankSet(d, target).res.Ok? && ActiveBank(MemBankSet(d, target).dev) == target
    ensures OperateOver(d, target, f).res == f(MemBankSet(d, target).dev).res
    ensures OperateOver(d, target, f).dev.trace == f(MemBankSet(d, target).dev).dev.trace + [SelectOp(MainMemBank)]
    ensures ActiveBank(OperateOver(d, target, f).dev) == MainMemBank
  {
  }

  /**
   * When `f`, run in the selected bank, issues `ops` and neither bank
   * selection fails, `OperateOver` issues the selection, `ops`, and the
   * selection of Main, in that order.
   */
  lemma OperateOverTrace<T>(d: Dev, target: MemBank, f: Dev -> Out<T>, ops: seq<BusOp>)
    requires |d.trace| !in d.faults
    requires f(MemBankSet(d, target).dev).dev.faults == d.faults
    requires |f(MemBankSet(d, target).dev).dev.trace| !in d.faults
    requires f(MemBankSet(d, target).dev).dev.trace == MemBankSet(d, target).dev.trace + ops
    ensures OperateOver(d, target, f).dev.trace == d.trace + [SelectOp(target)] + ops + [SelectOp(MainMemBank)]
  {
    OperateOverOk(d, target, f);
  }

  /** One register of bank `target` read through `OperateOver`. */
  function ReadOver(d: Dev, target: MemBank, reg: nat): (r: Out<byte>)
    requires reg > FUNC_CFG_ACCESS
    ensures r.dev.faults == d.faults
    ensures r.res.Ok? <==> ClearFor(d, 3)
    ensures r.res.Ok? ==> r.dev.trace == d.trace + [SelectOp(target), ReadOp(target, reg, 1), SelectOp(MainMemBank)]
    ensures r.res.Ok? ==> ActiveBank(r.dev) == MainMemBank
    ensures r.res.Ok? && !IsPort(target, reg) ==> r.res.value == Peek(d.regs, Key(target, reg))
    ensures r.res.Ok? && IsPort(target, reg) ==> r.res.value == d.memOut(|d.trace| + 1, 0)
  {
    OperateOver(d, target, e => Read1(e, reg))
  }

  /** A read-modify-write of field `f` of a register of bank `target` through `OperateOver`. */
  function ModifyOver(d: Dev, target: MemBank, reg: nat, f: Field, v: byte): (r: Out<()>)
    requires reg > FUNC_CFG_ACCESS && !IsPort(target, reg)
    ensures r.dev.faults == d.faults
    ensures r.res.Ok? <==> ClearFor(d, 4)
    ensures r.res.Ok? ==> Extends(d, r.dev) && r.dev.trace == d.trace + [SelectOp(target), ReadOp(target, reg, 1),
      WriteOp(target, reg, [Set(Peek(d.regs, Key(target, reg)), f, v)]), SelectOp(MainMemBank)]
    ensures r.res.Ok? ==> Peek(r.dev.regs, Key(target, reg)) == Set(Peek(d.regs, Key(target, reg)), f, v)
    ensures r.res.Ok? ==> ActiveBank(r.dev) == MainMemBank
  {
    OperateOver(d, target, e => Modify(e, reg, f, v))
  }

  /** `ispu_sel_memory_addr`: one two-byte write of the memory address register. */
  function IspuSelMemoryAddr(d: Dev, a: nat): (r: Out<()>)
    requires a < 0x10000
    ensures |r.dev.trace| == |d.trace| + 1 && r.dev.trace[..|d.trace|] == d.trace
    ensures var op := r.dev.trace[|d.trace|];
      op.WriteOp? && op.reg == ISPU_MEM_ADDR0 && op.bank == TargetBank(d, ISPU_MEM_ADDR0) &&
      |op.data| == 2 && AddrOf(op.data) == a
    ensures r.dev.trace == d.trace + [WriteOp(ActiveBank(d), ISPU_MEM_ADDR0, AddrBytes(a))]
    ensures r.dev.faults == d.faults
    ensures r.res.Err? <==> |d.trace| in d.faults
    ensures r.res.Err? ==> r.res.error == Bus
    ensures ActiveBank(r.dev) == ActiveBank(d)
  {
    Write(d, ISPU_MEM_ADDR0, AddrBytes(a))
  }
}
