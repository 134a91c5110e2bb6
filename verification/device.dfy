/**
 * The sensor as the driver sees it through its bus: a register store
 * indexed by (bank, address), the trace of bus operations issued so far,
 * and the set of trace positions at which the transport fails.
 *
 * The bank a register access reaches is the one FUNC_CFG_ACCESS currently
 * selects, except FUNC_CFG_ACCESS itself, which every bank shares. A busy
 * poll is one `WaitOp` event that either sees its flag or fails like any
 * other bus operation.
 */
module Device {
  import opened Bits
  import opened MemBanks
  import MainRegs
  import IspuRegs

  /** The driver's error type; `Bus` stands for any transport error. */
  datatype Error = Bus | UnexpectedValue | FailedToReadMemBank | FailedToSetMemBank(bank: MemBank)

  datatype Result<T> = Ok(value: T) | Err(error: Error)

  /** One register: the bank and the address within it. */
  datatype Key = Key(bank: MemBank, addr: nat)

  /** The flags the driver busy-polls. */
  datatype Flag = XlDataReady | HubEndOp

  /** A bus operation, tagged with the bank its register lies in. */
  datatype BusOp =
    | WriteOp(bank: MemBank, reg: nat, data: seq<byte>)
    | ReadOp(bank: MemBank, reg: nat, len: nat)
    | WaitOp(flag: Flag)

  /**
   * `memOut(p, i)` is byte `i` of what ISPU memory delivers to a read of the
   * data port issued at trace position `p`. The register store does not hold
   * ISPU memory, so what the port delivers is given, not derived.
   */
  datatype Dev = Dev(regs: map<Key, byte>, trace: seq<BusOp>, faults: set<nat>, memOut: (nat, nat) -> byte)

  /**
   * The device after an operation together with its result. `:-` on an
   * `Out` stops at the first error and keeps the device reached so far.
   */
  datatype Out<T> = Out(dev: Dev, res: Result<T>)
  {
    predicate IsFailure()
    {
      res.Err?
    }

    function PropagateFailure<U>(): Out<U>
      requires IsFailure()
    {
      Out(dev, Err(res.error))
    }

    function Extract(): Out<T>
      requires !IsFailure()
    {
      this
    }
  }

  /** The content of a register; a register never written holds 0. */
  function Peek(regs: map<Key, byte>, k: Key): byte
  {
    if k in regs then regs[k] else 0
  }

  /** The bank FUNC_CFG_ACCESS currently selects. */
  function ActiveBank(d: Dev): MemBank
  {
    BankOf(Peek(d.regs, Key(MainMemBank, MainRegs.FUNC_CFG_ACCESS)))
  }

  /** The bank an access to `reg` reaches. */
  function TargetBank(d: Dev, reg: nat): MemBank
  {
    if reg == MainRegs.FUNC_CFG_ACCESS then MainMemBank else ActiveBank(d)
  }

  /** The content of register `reg` of the bank an access would reach now. */
  function RegValue(d: Dev, reg: nat): byte
  {
    Peek(d.regs, Key(TargetBank(d, reg), reg))
  }

  /** No operation from the current position on fails. */
  predicate Reliable(d: Dev)
  {
    forall n :: n in d.faults ==> n < |d.trace|
  }

  /** `e` is `d` after more operations: its trace extends `d`'s and the fault plan is the same. */
  predicate Extends(d: Dev, e: Dev)
  {
    |d.trace| <= |e.trace| && e.trace[..|d.trace|] == d.trace && e.faults == d.faults
  }

  /** The ISPU memory data port streams into ISPU memory; it is not a storage register. */
  predicate IsPort(bank: MemBank, reg: nat)
  {
    bank == IspuMemBank && reg == IspuRegs.ISPU_MEM_DATA
  }

  /** What register `k` holds once `data` has been written from `addr` on in `bank`. */
  function Written(regs: map<Key, byte>, bank: MemBank, addr: nat, data: seq<byte>, k: Key): byte
  {
    if k.bank == bank && addr <= k.addr < addr + |data| then data[k.addr - addr] else Peek(regs, k)
  }

  /** The store after an auto-incrementing write of `data` from `addr` on in `bank`. */
  function Store(regs: map<Key, byte>, bank: MemBank, addr: nat, data: seq<byte>): (r: map<Key, byte>)
    ensures forall k :: Peek(r, k) == Written(regs, bank, addr, data, k)
    decreases |data|
  {
    if data == [] then regs
    else Store(regs[Key(bank, addr) := data[0]], bank, addr + 1, data[1..])
  }

  /** A multi-byte register write starting at `reg`. */
  function Write(d: Dev, reg: nat, data: seq<byte>): (r: Out<()>)
    ensures r.dev.trace == d.trace + [WriteOp(TargetBank(d, reg), reg, data)]
    ensures r.dev.faults == d.faults
    ensures r.res.Err? <==> |d.trace| in d.faults
    ensures r.res.Err? ==> r.res.error == Bus && r.dev.regs == d.regs
    ensures r.res.Ok? && !IsPort(TargetBank(d, reg), reg) ==>
      forall k :: Peek(r.dev.regs, k) == Written(d.regs, TargetBank(d, reg), reg, data, k)
    ensures IsPort(TargetBank(d, reg), reg) ==> r.dev.regs == d.regs
    ensures reg > MainRegs.FUNC_CFG_ACCESS ==> ActiveBank(r.dev) == ActiveBank(d)
  {
    var bank := TargetBank(d, reg);
    var e := d.(trace := d.trace + [WriteOp(bank, reg, data)]);
    if |d.trace| in d.faults then Out(e, Err(Bus))
    else if IsPort(bank, reg) then Out(e, Ok(()))
    else Out(e.(regs := Store(d.regs, bank, reg, data)), Ok(()))
  }

  /**
   * A multi-byte register read starting at `reg`; it changes no register.
   * At the ISPU memory data port the bytes are what ISPU memory delivers.
   */
  function Read(d: Dev, reg: nat, len: nat): (r: Out<seq<byte>>)
    ensures r.dev == d.(trace := d.trace + [ReadOp(TargetBank(d, reg), reg, len)])
    ensures r.res.Err? <==> |d.trace| in d.faults
    ensures r.res.Err? ==> r.res.error == Bus
    ensures r.res.Ok? ==> |r.res.value| == len
    ensures r.res.Ok? && !IsPort(TargetBank(d, reg), reg) ==>
      forall i :: 0 <= i < len ==> r.res.value[i] == Peek(d.regs, Key(TargetBank(d, reg), reg + i))
    ensures r.res.Ok? && IsPort(TargetBank(d, reg), reg) ==>
      forall i :: 0 <= i < len ==> r.res.value[i] == d.memOut(|d.trace|, i)
  {
    var bank := TargetBank(d, reg);
    var e := d.(trace := d.trace + [ReadOp(bank, reg, len)]);
    if |d.trace| in d.faults then Out(e, Err(Bus))
    else if IsPort(bank, reg) then Out(e, Ok(seq(len, i requires 0 <= i < len => d.memOut(|d.trace|, i))))
    else Out(e, Ok(seq(len, i requires 0 <= i < len => Peek(d.regs, Key(bank, reg + i)))))
  }

  /** Reading one register: the value a read-modify-write starts from. */
  function Read1(d: Dev, reg: nat): (r: Out<byte>)
    ensures r.dev == d.(trace := d.trace + [ReadOp(TargetBank(d, reg), reg, 1)])
    ensures r.res.Err? <==> |d.trace| in d.faults
    ensures r.res.Err? ==> r.res.error == Bus
    ensures r.res.Ok? && !IsPort(TargetBank(d, reg), reg) ==> r.res.value == RegValue(d, reg)
    ensures r.res.Ok? && IsPort(TargetBank(d, reg), reg) ==> r.res.value == d.memOut(|d.trace|, 0)
  {
    var o := Read(d, reg, 1);
    if o.res.Err? then Out(o.dev, Err(o.res.error)) else Out(o.dev, Ok(o.res.value[0]))
  }

  /** Writing one register. */
  function Write1(d: Dev, reg: nat, v: byte): (r: Out<()>)
    ensures r.dev.trace == d.trace + [WriteOp(TargetBank(d, reg), reg, [v])]
    ensures r.dev.faults == d.faults
    ensures r.res.Err? <==> |d.trace| in d.faults
    ensures r.res.Err? ==> r.res.error == Bus && r.dev.regs == d.regs
    ensures r.res.Ok? ==>
      r.dev.regs == if IsPort(TargetBank(d, reg), reg) then d.regs else d.regs[Key(TargetBank(d, reg), reg) := v]
    ensures reg > MainRegs.FUNC_CFG_ACCESS ==> ActiveBank(r.dev) == ActiveBank(d)
  {
    var o := Write(d, reg, [v]);
    if o.res.Ok? && !IsPort(TargetBank(d, reg), reg) then
      assert Store(d.regs, TargetBank(d, reg), reg, [v]) == d.regs[Key(TargetBank(d, reg), reg) := v];
      o
    else o
  }

  /** A busy poll until `flag` is seen; it changes no register. */
  function Wait(d: Dev, flag: Flag): (r: Out<()>)
    ensures r.dev == d.(trace := d.trace + [WaitOp(flag)])
    ensures r.res.Err? <==> |d.trace| in d.faults
    ensures r.res.Err? ==> r.res.error == Bus
  {
    var e := d.(trace := d.trace + [WaitOp(flag)]);
    if |d.trace| in d.faults then Out(e, Err(Bus)) else Out(e, Ok(()))
  }

  /**
   * Read-modify-write of field `f` of register `reg`: one read, then (unless
   * it failed) one write of the byte read with `f` replaced by `v`.
   */
  function Modify(d: Dev, reg: nat, f: Field, v: byte): (r: Out<()>)
    ensures r.dev.faults == d.faults
    ensures !IsPort(TargetBank(d, reg), reg) ==> (r.dev.trace == d.trace + [ReadOp(TargetBank(d, reg), reg, 1)] +
      (if |d.trace| in d.faults then [] else [WriteOp(TargetBank(d, reg), reg, [Set(RegValue(d, reg), f, v)])]))
    ensures r.res.Ok? <==> |d.trace| !in d.faults && |d.trace| + 1 !in d.faults
    ensures r.res.Err? ==> r.res.error == Bus && r.dev.regs == d.regs
    ensures r.res.Ok? ==> (r.dev.regs ==
      if IsPort(TargetBank(d, reg), reg) then d.regs else d.regs[Key(TargetBank(d, reg), reg) := Set(RegValue(d, reg), f, v)])
  {
    var o :- Read1(d, reg);
    Write1(o.dev, reg, Set(o.res.value, f, v))
  }

  /** None of the next `n` operations fails. */
  predicate ClearFor(d: Dev, n: nat)
  {
    forall i :: |d.trace| <= i < |d.trace| + n ==> i !in d.faults
  }

  /** On a reliable bus every stretch of upcoming operations is clear. */
  lemma ReliableClear(d: Dev, n: nat)
    requires Reliable(d)
    ensures ClearFor(d, n)
  {
  }

  /** What is clear ahead of `d` is still clear, shortened, once `k` more operations have been issued. */
  lemma ClearShift(d: Dev, e: Dev, k: nat, n: nat)
    requires ClearFor(d, k + n) && Extends(d, e) && |e.trace| == |d.trace| + k
    ensures ClearFor(e, n)
  {
  }

  /** The start of a clear stretch is clear. */
  lemma ClearPrefix(d: Dev, k: nat, n: nat)
    requires ClearFor(d, k + n)
    ensures ClearFor(d, k)
  {
  }

  /** A stretch of `k + n` clear operations is a clear stretch of `k` followed, `k` operations later, by one of `n`. */
  lemma ClearSplit(d: Dev, e: Dev, k: nat, n: nat)
    requires Extends(d, e) && |e.trace| == |d.trace| + k
    ensures ClearFor(d, k + n) <==> ClearFor(d, k) && ClearFor(e, n)
  {
  }

  /** The next operation is clear exactly when its position is not a fault. */
  lemma ClearOne(d: Dev)
    ensures ClearFor(d, 1) <==> |d.trace| !in d.faults
  {
  }

  /** A clear stretch stays clear when shortened. */
  lemma ClearMono(d: Dev, k: nat, n: nat)
    requires k <= n
    ensures ClearFor(d, n) ==> ClearFor(d, k)
  {
  }

  /** Positions `0 .. n - 1` ahead of `d`, except position `skip`, do not fail. */
  predicate ClearExcept(d: Dev, n: nat, skip: nat)
  {
    forall i :: |d.trace| <= i < |d.trace| + n && i != |d.trace| + skip ==> i !in d.faults
  }

  /** The stretch before the skipped position is clear. */
  lemma ClearExceptHead(d: Dev, n: nat, skip: nat, k: nat)
    requires ClearExcept(d, n, skip) && k <= skip && k <= n
    ensures ClearFor(d, k)
  {
  }

  /** A stretch clear but for one position stays so, relative to the same position, `k` operations later. */
  lemma ClearExceptShift(d: Dev, e: Dev, k: nat, n: nat, skip: nat)
    requires ClearExcept(d, k + n, k + skip) && Extends(d, e) && |e.trace| == |d.trace| + k
    ensures ClearExcept(e, n, skip)
  {
  }

  /** A stretch clear but for one position stays so when shortened. */
  lemma ClearExceptPrefix(d: Dev, n: nat, m: nat, skip: nat)
    requires ClearExcept(d, n, skip) && m <= n
    ensures ClearExcept(d, m, skip)
  {
  }

  /** The part of such a stretch after the skipped position is clear. */
  lemma ClearExceptTail(d: Dev, e: Dev, k: nat, n: nat, skip: nat)
    requires ClearExcept(d, k + n, skip) && skip < k && Extends(d, e) && |e.trace| == |d.trace| + k
    ensures ClearFor(e, n)
  {
  }

  /** Extending is transitive. */
  lemma ExtendsTrans(a: Dev, b: Dev, c: Dev)
    requires Extends(a, b) && Extends(b, c)
    ensures Extends(a, c)
  {
    assert c.trace[..|a.trace|] == c.trace[..|b.trace|][..|a.trace|];
  }

  /** Appending two pieces one after the other appends their concatenation. */
  lemma AppendAssoc<T>(a: seq<T>, b: seq<T>, c: seq<T>)
    ensures a + b + c == a + (b + c)
  {
  }

  /** Five operations appended one at a time are the five appended at once. */
  lemma AppendSingles<T>(s: seq<T>, a: T, b: T, c: T, d: T, e: T)
    ensures s + [a] + [b] + [c] + [d] + [e] == s + [a, b, c, d, e]
  {
  }

  /**
   * A device whose store holds `regs`, with an empty trace, a transport that
   * never fails, and ISPU memory that reads as zero.
   */
  function Fresh(regs: map<Key, byte>): (d: Dev)
    ensures Reliable(d) && d.trace == []
  {
    Dev(regs, [], {}, (p, i) => 0)
  }
}
