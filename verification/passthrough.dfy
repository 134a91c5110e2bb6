/**
 * The passthrough bridge: the sensor, as sensor-hub master, acting as a bus
 * for one external device. A write of `wbuf` becomes one hub write cycle per
 * data byte; a register read becomes one hub read cycle followed by a read
 * of the hub's output registers.
 *
 * The bridge is modelled one level above the bus: each driver call it makes
 * (`sh_cfg_write`, `xl_data_rate_set`, ...) is one `HubCall` in a log, and
 * each busy poll is one `WaitCall`. Which calls fail is given up front as
 * a set of log positions; a failing call returns a bus error.
 */
module Passthrough {
  import opened Bits
  import opened Device
  import opened MainRegs
  import opened SensorHubRegs

  /** One driver call the bridge makes. */
  datatype HubCall =
    | CfgWriteCall(cfg: ShCfgWrite)                 // sh_cfg_write
    | SlvCfgReadCall(idx: byte, read: ShCfgRead)    // sh_slv_cfg_read
    | SlaveConnectedCall(count: ShSlaveConnected)   // sh_slave_connected_set
    | MasterCall(on: byte)                          // sh_master_set
    | XlRateCall(rate: XlDataRate)                  // xl_data_rate_set
    | AccelCall                                     // acceleration_raw_get
    | WaitCall(flag: Flag)                          // a busy poll until `flag`
    | RawReadCall(len: nat)                         // sh_read_data_raw_get

  /** The calls made so far, and the log positions at which a call fails. */
  datatype Bridge = Bridge(log: seq<HubCall>, fails: set<nat>)

  /** The bridge after a call together with its result; `:-` stops at the first error. */
  datatype Step<T> = Step(bridge: Bridge, res: Result<T>)
  {
    predicate IsFailure()
    {
      res.Err?
    }

    function PropagateFailure<U>(): Step<U>
      requires IsFailure()
    {
      Step(bridge, Err(res.error))
    }

    function Extract(): Step<T>
      requires !IsFailure()
    {
      this
    }
  }

  /** Making one call: it is logged, and fails with a bus error when its position is a failing one. */
  function Issue(b: Bridge, c: HubCall): (r: Step<()>)
    ensures r.bridge == b.(log := b.log + [c])
    ensures r.res.Err? <==> |b.log| in b.fails
    ensures r.res.Err? ==> r.res.error == Bus
  {
    var e := b.(log := b.log + [c]);
    if |b.log| in b.fails then Step(e, Err(Bus)) else Step(e, Ok(()))
  }

  // ---------------------------------------------------------------------
  // Plans
  // ---------------------------------------------------------------------

  /** A failure of call `c` that the caller ignores: `write_bytes` discards the acceleration read's result. */
  predicate Ignorable(c: HubCall, lenient: bool)
  {
    lenient && c == AccelCall
  }

  /** No call of `plan`, made from `b` on, fails unless its failure is ignored. */
  predicate PlanClear(b: Bridge, plan: seq<HubCall>, lenient: bool)
  {
    forall i :: 0 <= i < |plan| && !Ignorable(plan[i], lenient) ==> |b.log| + i !in b.fails
  }

  /**
   * The reference reading of a sequence of calls: make them in order and
   * stop at the first failure that is not ignored, returning its error.
   * Whatever happens, the calls made are a prefix of the plan.
   */
  function RunPlan(b: Bridge, plan: seq<HubCall>, lenient: bool): (r: Step<()>)
    ensures r.bridge.fails == b.fails
    ensures |b.log| <= |r.bridge.log| <= |b.log| + |plan|
    ensures r.res.Ok? <==> PlanClear(b, plan, lenient)
    ensures r.res.Ok? ==> |r.bridge.log| == |b.log| + |plan|
    decreases |plan|
  {
    if plan == [] then Step(b, Ok(()))
    else
      var o := Issue(b, plan[0]);
      PlanClearCons(b, plan, lenient);
      if o.res.Err? && !Ignorable(plan[0], lenient) then o
      else
        var r := RunPlan(o.bridge, plan[1..], lenient);
        if r.res.Ok? then
          assert b.log + [plan[0]] + plan[1..] == b.log + plan;
          r
        else r
  }

  /** Whatever happens, the calls a plan makes are a prefix of it. */
  lemma {:induction false} RunPlanLog(b: Bridge, plan: seq<HubCall>, lenient: bool)
    ensures var r := RunPlan(b, plan, lenient);
      r.bridge.log == b.log + plan[..|r.bridge.log| - |b.log|]
    decreases |plan|
  {
    if plan != [] {
      var o := Issue(b, plan[0]);
      if o.res.Err? && !Ignorable(plan[0], lenient) {
        assert plan[..1] == [plan[0]];
      } else {
        RunPlanLog(o.bridge, plan[1..], lenient);
        var r := RunPlan(o.bridge, plan[1..], lenient);
        assert RunPlan(b, plan, lenient) == r;
        var k := |r.bridge.log| - |o.bridge.log|;
        assert plan[1..][..k] == plan[1..k + 1];
        assert b.log + [plan[0]] + plan[1..k + 1] == b.log + plan[..k + 1];
      }
    }
  }

  /**
   * When a plan fails, the last call made is the one that failed: its
   * failure is not ignored and the error returned is its own.
   */
  lemma {:induction false} RunPlanError(b: Bridge, plan: seq<HubCall>, lenient: bool)
    requires RunPlan(b, plan, lenient).res.Err?
    ensures var r := RunPlan(b, plan, lenient); var k := |r.bridge.log| - |b.log| - 1;
      && 0 <= k < |plan|
      && !Ignorable(plan[k], lenient) && |b.log| + k in b.fails
      && r.res.error == Bus
    decreases |plan|
  {
    var o := Issue(b, plan[0]);
    if !(o.res.Err? && !Ignorable(plan[0], lenient)) {
      RunPlanError(o.bridge, plan[1..], lenient);
      assert RunPlan(b, plan, lenient) == RunPlan(o.bridge, plan[1..], lenient);
      var k := |RunPlan(b, plan, lenient).bridge.log| - |b.log| - 1;
      assert plan[1..][k - 1] == plan[k];
    }
  }

  /** When a plan fails, every call before the failing one succeeded or had its failure ignored. */
  lemma {:induction false} RunPlanErrorFirst(b: Bridge, plan: seq<HubCall>, lenient: bool)
    requires RunPlan(b, plan, lenient).res.Err?
    ensures var r := RunPlan(b, plan, lenient); var k := |r.bridge.log| - |b.log| - 1;
      0 <= k < |plan| && PlanClear(b, plan[..k], lenient)
    decreases |plan|
  {
    var o := Issue(b, plan[0]);
    if !(o.res.Err? && !Ignorable(plan[0], lenient)) {
      RunPlanErrorFirst(o.bridge, plan[1..], lenient);
      var r := RunPlan(o.bridge, plan[1..], lenient);
      assert RunPlan(b, plan, lenient) == r;
      var k := |r.bridge.log| - |o.bridge.log| - 1;
      var pre := plan[1..][..k];
      assert PlanClear(o.bridge, pre, lenient);
      forall i | 0 <= i <= k && !Ignorable(plan[i], lenient)
        ensures |b.log| + i !in b.fails
      {
        if i > 0 {
          assert plan[i] == pre[i - 1];
        }
      }
    }
  }

  /** A plan is clear when its first call is and the rest is, one position later. */
  lemma PlanClearCons(b: Bridge, plan: seq<HubCall>, lenient: bool)
    requires plan != []
    ensures PlanClear(b, plan, lenient) <==>
      (Ignorable(plan[0], lenient) || |b.log| !in b.fails) &&
      PlanClear(b.(log := b.log + [plan[0]]), plan[1..], lenient)
  {
    var e := b.(log := b.log + [plan[0]]);
    if PlanClear(e, plan[1..], lenient) && (Ignorable(plan[0], lenient) || |b.log| !in b.fails) {
      forall i | 0 <= i < |plan| && !Ignorable(plan[i], lenient)
        ensures |b.log| + i !in b.fails
      {
        if i > 0 {
          assert plan[1..][i - 1] == plan[i];
        }
      }
    }
    if PlanClear(b, plan, lenient) {
      forall i | 0 <= i < |plan[1..]| && !Ignorable(plan[1..][i], lenient)
        ensures |e.log| + i !in e.fails
      {
        assert plan[1..][i] == plan[i + 1];
      }
    }
  }

  /** A plan that succeeds made every one of its calls. */
  lemma RunPlanOkLog(b: Bridge, plan: seq<HubCall>, lenient: bool)
    requires RunPlan(b, plan, lenient).res.Ok?
    ensures RunPlan(b, plan, lenient).bridge.log == b.log + plan
  {
    RunPlanLog(b, plan, lenient);
  }

  /**
   * When a plan fails, the last call made is a call of the plan, its
   * failure is not ignored, and the error returned is its own.
   */
  lemma RunPlanErrorLast(b: Bridge, plan: seq<HubCall>, lenient: bool)
    requires RunPlan(b, plan, lenient).res.Err?
    ensures var r := RunPlan(b, plan, lenient); var last := |r.bridge.log| - 1;
      && |b.log| <= last < |b.log| + |plan|
      && !Ignorable(r.bridge.log[last], lenient)
      && last in b.fails && r.res.error == Bus
  {
    var r := RunPlan(b, plan, lenient);
    RunPlanLog(b, plan, lenient);
    RunPlanError(b, plan, lenient);
    var k := |r.bridge.log| - |b.log| - 1;
    assert r.bridge.log[|b.log| + k] == plan[k];
  }

  /** Running a plan whose first call is `c`: that call, then the rest unless it failed and is not ignored. */
  lemma RunPlanCons(b: Bridge, c: HubCall, rest: seq<HubCall>, lenient: bool)
    ensures RunPlan(b, [c] + rest, lenient) ==
      var o := Issue(b, c);
      if o.res.Err? && !Ignorable(c, lenient) then o else RunPlan(o.bridge, rest, lenient)
  {
    assert ([c] + rest)[0] == c && ([c] + rest)[1..] == rest;
  }

  /** Running `p + q` runs `p`, then `q` from where `p` left off unless `p` failed. */
  lemma {:induction false} RunPlanAppend(b: Bridge, p: seq<HubCall>, q: seq<HubCall>, lenient: bool)
    ensures RunPlan(b, p + q, lenient) ==
      var o := RunPlan(b, p, lenient);
      if o.res.Err? then o else RunPlan(o.bridge, q, lenient)
    decreases |p|
  {
    if p == [] {
      assert p + q == q;
    } else {
      assert p + q == [p[0]] + (p[1..] + q);
      assert p == [p[0]] + p[1..];
      RunPlanCons(b, p[0], p[1..] + q, lenient);
      RunPlanCons(b, p[0], p[1..], lenient);
      RunPlanAppend(Issue(b, p[0]).bridge, p[1..], q, lenient);
    }
  }

  // ---------------------------------------------------------------------
  // write_bytes
  // ---------------------------------------------------------------------

  /** The accelerometer rate that triggers a hub cycle: 26 Hz, high performance. */
  const TRIGGER_RATE: XlDataRate := XlHp(Hz26)

  /** Starting a hub cycle: enable the master, start the accelerometer, read one sample. */
  function StartCalls(): seq<HubCall>
  {
    [MasterCall(1), XlRateCall(TRIGGER_RATE), AccelCall]
  }

  /** Waiting for the cycle: accelerometer data ready, then the hub's end of operation. */
  function WaitCalls(): seq<HubCall>
  {
    [WaitCall(XlDataReady), WaitCall(HubEndOp)]
  }

  /** Ending the cycle: disable the master, switch the accelerometer off. */
  function StopCalls(): seq<HubCall>
  {
    [MasterCall(0), XlRateCall(XlOff)]
  }

  /** The calls of one hub cycle, from enabling the master to switching the trigger off again. */
  function TriggerCalls(): (p: seq<HubCall>)
    ensures |p| == 7
  {
    StartCalls() + WaitCalls() + StopCalls()
  }

  /**
   * Starting a hub cycle as the driver does it. The accelerometer read's
   * failure ends the cycle only when `lenient` is false: `write_bytes`
   * discards that result, `write_byte_read_bytes` propagates it.
   */
  function StartTrigger(b: Bridge, lenient: bool): (r: Step<()>)
    ensures r.bridge.fails == b.fails
    ensures r.res.Ok? ==> r.bridge.log == b.log + StartCalls()
  {
    var o1 :- Issue(b, MasterCall(1));
    var o2 :- Issue(o1.bridge, XlRateCall(TRIGGER_RATE));
    var o3 := Issue(o2.bridge, AccelCall);
    if o3.res.Err? && !lenient then o3 else Step(o3.bridge, Ok(()))
  }

  lemma StartTriggerFollowsPlan(b: Bridge, lenient: bool)
    ensures StartTrigger(b, lenient) == RunPlan(b, StartCalls(), lenient)
  {
    var p := StartCalls();
    RunPlanCons(b, p[0], p[1..], lenient);
    var b1 := Issue(b, p[0]).bridge;
    RunPlanCons(b1, p[1], p[2..], lenient);
    var b2 := Issue(b1, p[1]).bridge;
    RunPlanCons(b2, p[2], p[3..], lenient);
  }

  /** Waiting for the hub cycle to complete; each busy poll is one call. */
  function AwaitCycle(b: Bridge): (r: Step<()>)
    ensures r.bridge.fails == b.fails
    ensures r.res.Ok? ==> r.bridge.log == b.log + WaitCalls()
  {
    var o1 :- Issue(b, WaitCall(XlDataReady));
    Issue(o1.bridge, WaitCall(HubEndOp))
  }

  lemma AwaitCycleFollowsPlan(b: Bridge, lenient: bool)
    ensures AwaitCycle(b) == RunPlan(b, WaitCalls(), lenient)
  {
    var p := WaitCalls();
    RunPlanCons(b, p[0], p[1..], lenient);
    RunPlanCons(Issue(b, p[0]).bridge, p[1], p[2..], lenient);
  }

  /** Ending the hub cycle. */
  function StopTrigger(b: Bridge): (r: Step<()>)
    ensures r.bridge.fails == b.fails
    ensures r.res.Ok? ==> r.bridge.log == b.log + StopCalls()
  {
    var o1 :- Issue(b, MasterCall(0));
    Issue(o1.bridge, XlRateCall(XlOff))
  }

  lemma StopTriggerFollowsPlan(b: Bridge, lenient: bool)
    ensures StopTrigger(b) == RunPlan(b, StopCalls(), lenient)
  {
    var p := StopCalls();
    RunPlanCons(b, p[0], p[1..], lenient);
    RunPlanCons(Issue(b, p[0]).bridge, p[1], p[2..], lenient);
  }

  /** One complete hub cycle, triggered by the accelerometer. */
  function RunTrigger(b: Bridge, lenient: bool): (r: Step<()>)
    ensures r.bridge.fails == b.fails
    ensures r.res.Ok? ==> r.bridge.log == b.log + TriggerCalls()
  {
    var o1 :- StartTrigger(b, lenient);
    var o2 :- AwaitCycle(o1.bridge);
    StopTrigger(o2.bridge)
  }

  /** A hub cycle is its plan: same calls, same stopping point, same error. */
  lemma RunTriggerFollowsPlan(b: Bridge, lenient: bool)
    ensures RunTrigger(b, lenient) == RunPlan(b, TriggerCalls(), lenient)
  {
    var o1 := StartTrigger(b, lenient);
    StartTriggerFollowsPlan(b, lenient);
    RunPlanAppend(b, StartCalls(), WaitCalls(), lenient);
    RunPlanAppend(b, StartCalls() + WaitCalls(), StopCalls(), lenient);
    if o1.res.Ok? {
      AwaitCycleFollowsPlan(o1.bridge, lenient);
      var o2 := AwaitCycle(o1.bridge);
      if o2.res.Ok? {
        StopTriggerFollowsPlan(o2.bridge, lenient);
      }
    }
  }

  /** The number of hub cycles `write_bytes` runs: the loop bound is the length truncated to 8 bits. */
  function Cycles(wbuf: seq<byte>): (n: nat)
    ensures n == 0 <==> |wbuf| % 256 <= 1
    ensures n > 0 ==> n + 1 == |wbuf| % 256 && n < |wbuf|
  {
    var n := |wbuf| % 256;
    if n <= 1 then 0 else n - 1
  }

  /**
   * The driver computes cycle `i`'s register as `wbuf[0] + i - 1` in `u8`
   * arithmetic, adding `i` first; in a debug build that sum must stay at
   * most 0xFF in every cycle, the last one included.
   */
  predicate AddsFitAsWritten(wbuf: seq<byte>)
    ensures AddsFitAsWritten(wbuf) <==> forall i :: 1 <= i <= Cycles(wbuf) ==> SumAt(wbuf[0], i) <= 0xFF
  {
    assert Cycles(wbuf) > 0 ==> SumAt(wbuf[0], Cycles(wbuf)) == wbuf[0] as nat + Cycles(wbuf);
    Cycles(wbuf) == 0 || wbuf[0] as nat + Cycles(wbuf) <= 255
  }

  /** Every register the cycles address exists: the last one, `wbuf[0] + Cycles - 1`, is at most 0xFF. */
  predicate SubaddressesFit(wbuf: seq<byte>)
    ensures SubaddressesFit(wbuf) <==> forall i :: 1 <= i <= Cycles(wbuf) ==> SumAt(wbuf[0], i) - 1 <= 0xFF
  {
    assert Cycles(wbuf) > 0 ==> SumAt(wbuf[0], Cycles(wbuf)) == wbuf[0] as nat + Cycles(wbuf);
    Cycles(wbuf) == 0 || wbuf[0] as nat + Cycles(wbuf) <= 256
  }

  /** The value of the driver's sum `wbuf[0] + i` taken without a width limit. */
  function SumAt(first: byte, i: nat): nat
  {
    first as nat + i
  }

  /** Writing one byte to register 0xFF: the register exists, yet the driver's `u8` addition overflows. */
  lemma OverflowCounterexample()
    ensures Cycles([0xFF, 0x2A]) == 1
    ensures SubaddressesFit([0xFF, 0x2A]) && !AddsFitAsWritten([0xFF, 0x2A])
  {
  }

  /** With every register in range, cycle `k` addresses register `wbuf[0] + k` exactly: nothing wraps. */
  lemma SubaddressesExact(wbuf: seq<byte>, k: nat)
    requires SubaddressesFit(wbuf) && k < Cycles(wbuf)
    ensures RegisterAfter(wbuf[0], k) as nat == wbuf[0] as nat + k
  {
  }

  /** The register `k` places after `first`, wrapping past 0xFF like the driver's `u8` addition in a release build. */
  function RegisterAfter(first: byte, k: nat): (r: byte)
    ensures r as nat == (first as nat + k) % 256
  {
    if k == 0 then first
    else
      StepValue(RegisterAfter(first, k - 1), first as nat + k - 1);
      RegisterAfter(first, k - 1) + 1
  }

  /** Starting one register later shifts every following register by one. */
  lemma {:induction false} RegisterAfterShift(first: byte, k: nat)
    ensures RegisterAfter(first + 1, k) == RegisterAfter(first, k + 1)
  {
    if k > 0 {
      RegisterAfterShift(first, k - 1);
    }
  }

  /** A byte holding `a` modulo 256, plus one, holds `a + 1` modulo 256. */
  lemma StepValue(p: byte, a: nat)
    requires p as nat == a % 256
    ensures (p + 1) as nat == (a + 1) % 256
  {
    IncWraps(p);
    ModSucc(a);
  }

  /** Adding one to a byte is addition modulo 256. */
  lemma IncWraps(x: byte)
    ensures (x + 1) as nat == (x as nat + 1) % 256
  {
  }

  lemma ModSucc(a: nat)
    ensures (a % 256 + 1) % 256 == (a + 1) % 256
  {
  }

  /**
   * Slot-0 writes of consecutive registers of one device, starting at
   * register `sub`, one per data byte.
   */
  function ConsecutiveWrites(slave: byte, sub: byte, data: seq<byte>): (cs: seq<ShCfgWrite>)
    ensures |cs| == |data|
    ensures forall k :: 0 <= k < |cs| ==> cs[k] == ShCfgWrite(slave, RegisterAfter(sub, k), data[k])
    decreases |data|
  {
    if data == [] then []
    else
      var rest := ConsecutiveWrites(slave, sub + 1, data[1..]);
      assert forall k :: 0 < k <= |rest| ==> RegisterAfter(sub + 1, k - 1) == RegisterAfter(sub, k) by {
        forall k | 0 < k <= |rest|
          ensures RegisterAfter(sub + 1, k - 1) == RegisterAfter(sub, k)
        {
          RegisterAfterShift(sub, k - 1);
        }
      }
      [ShCfgWrite(slave, sub, data[0])] + rest
  }

  /**
   * The slot-0 write of each cycle: cycle `k` (the loop's `i = k + 1`)
   * writes `wbuf[k + 1]` to register `wbuf[0] + k` of the device.
   */
  function WriteConfigs(slave: byte, wbuf: seq<byte>): (cs: seq<ShCfgWrite>)
    ensures |cs| == Cycles(wbuf)
    ensures forall k :: 0 <= k < |cs| ==> cs[k] == ShCfgWrite(slave, RegisterAfter(wbuf[0], k), wbuf[k + 1])
  {
    if Cycles(wbuf) == 0 then [] else ConsecutiveWrites(slave, wbuf[0], wbuf[1..Cycles(wbuf) + 1])
  }

  /** The calls of one write cycle: program slot 0, switch the accelerometer off, run a hub cycle. */
  function CycleCalls(cfg: ShCfgWrite): (p: seq<HubCall>)
    ensures |p| == 9
  {
    [CfgWriteCall(cfg), XlRateCall(XlOff)] + TriggerCalls()
  }

  /** The calls of all write cycles, in order. */
  function WritePlan(cs: seq<ShCfgWrite>): (p: seq<HubCall>)
    ensures |p| == 9 * |cs|
  {
    if cs == [] then [] else CycleCalls(cs[0]) + WritePlan(cs[1..])
  }

  /**
   * One cycle of `write_bytes`, call by call as the driver makes them. A
   * failure of any call ends the cycle with that error, except the
   * accelerometer read, whose result the driver discards.
   */
  function WriteCycle(b: Bridge, cfg: ShCfgWrite): (r: Step<()>)
    ensures r.bridge.fails == b.fails
    ensures r.res.Ok? ==> r.bridge.log == b.log + CycleCalls(cfg)
  {
    var o1 :- Issue(b, CfgWriteCall(cfg));
    var o2 :- Issue(o1.bridge, XlRateCall(XlOff));
    RunTrigger(o2.bridge, true)
  }

  /** A write cycle is its plan run leniently: same calls, same stopping point, same error. */
  lemma WriteCycleFollowsPlan(b: Bridge, cfg: ShCfgWrite)
    ensures WriteCycle(b, cfg) == RunPlan(b, CycleCalls(cfg), true)
  {
    var head := [CfgWriteCall(cfg), XlRateCall(XlOff)];
    RunPlanAppend(b, head, TriggerCalls(), true);
    RunPlanCons(b, head[0], head[1..], true);
    var b1 := Issue(b, head[0]).bridge;
    RunPlanCons(b1, head[1], head[2..], true);
    RunTriggerFollowsPlan(Issue(b1, head[1]).bridge, true);
  }

  /** The write cycles in order, stopping at the first that fails. */
  function WriteCycles(b: Bridge, cs: seq<ShCfgWrite>): (r: Step<()>)
    ensures r == RunPlan(b, WritePlan(cs), true)
    decreases |cs|
  {
    if cs == [] then Step(b, Ok(()))
    else
      var o := WriteCycle(b, cs[0]);
      WriteCycleFollowsPlan(b, cs[0]);
      RunPlanAppend(b, CycleCalls(cs[0]), WritePlan(cs[1..]), true);
      if o.res.Err? then o else WriteCycles(o.bridge, cs[1..])
  }

  /** Cycle `k`'s calls sit at positions `9k` to `9k + 8` of the write plan. */
  lemma {:induction false} WritePlanAt(cs: seq<ShCfgWrite>, k: nat)
    requires k < |cs|
    ensures WritePlan(cs)[9 * k..9 * k + 9] == CycleCalls(cs[k])
    decreases k
  {
    var head := CycleCalls(cs[0]);
    assert WritePlan(cs) == head + WritePlan(cs[1..]);
    if k > 0 {
      WritePlanAt(cs[1..], k - 1);
      assert WritePlan(cs)[9 * k..9 * k + 9] == WritePlan(cs[1..])[9 * (k - 1)..9 * (k - 1) + 9];
    }
  }

  /** The data bytes the writes carry, in order. */
  function DataBytes(cs: seq<ShCfgWrite>): (data: seq<byte>)
    ensures |data| == |cs|
  {
    if cs == [] then [] else [cs[0].slv0Data] + DataBytes(cs[1..])
  }

  /** Consecutive writes give back the data they were built from. */
  lemma {:induction false} ConsecutiveWritesData(slave: byte, sub: byte, data: seq<byte>)
    ensures DataBytes(ConsecutiveWrites(slave, sub, data)) == data
    decreases |data|
  {
    if data != [] {
      ConsecutiveWritesData(slave, sub + 1, data[1..]);
    }
  }

  /**
   * For a buffer the 8-bit loop bound does not truncate, the cycles carry
   * the whole buffer: the first register and the data bytes give it back.
   */
  lemma WriteConfigsRecover(slave: byte, wbuf: seq<byte>)
    requires 2 <= |wbuf| < 256
    ensures var cs := WriteConfigs(slave, wbuf); [cs[0].slv0Subadd] + DataBytes(cs) == wbuf
  {
    assert |wbuf| % 256 == |wbuf|;
    assert wbuf[1..Cycles(wbuf) + 1] == wbuf[1..];
    ConsecutiveWritesData(slave, wbuf[0], wbuf[1..]);
  }

  /** The calls `write_bytes` plans: one write cycle per data byte the 8-bit loop bound admits. */
  function WriteBytesPlan(slave: byte, wbuf: seq<byte>): (p: seq<HubCall>)
    ensures |p| == 9 * Cycles(wbuf)
  {
    WritePlan(WriteConfigs(slave, wbuf))
  }

  /**
   * `write_bytes` on the bridge: one write cycle per data byte, stopping
   * at the first failure. It makes exactly the calls of its plan, run
   * leniently, and a buffer of fewer than two bytes (after the 8-bit
   * truncation of its length) makes no call at all. Past register 0xFF the
   * register numbers wrap, as the driver's `u8` arithmetic does in a
   * release build. The device address must fit the 7-bit `slave0_add`
   * field, whose setter rejects any larger value.
   */
  function PassWriteBytes(b: Bridge, slave: byte, wbuf: seq<byte>): (r: Step<()>)
    requires slave < 128
    ensures Cycles(wbuf) == 0 ==> r == Step(b, Ok(()))
    ensures r == RunPlan(b, WriteBytesPlan(slave, wbuf), true)
  {
    WriteCycles(b, WriteConfigs(slave, wbuf))
  }

  /**
   * Cycle `k` of `write_bytes` writes data byte `k + 1` to the register
   * `k` places after `wbuf[0]`, with the calls of one write cycle.
   */
  lemma WriteBytesPlanAt(slave: byte, wbuf: seq<byte>, k: nat)
    requires k < Cycles(wbuf)
    ensures WriteBytesPlan(slave, wbuf)[9 * k..9 * k + 9] ==
      CycleCalls(ShCfgWrite(slave, RegisterAfter(wbuf[0], k), wbuf[k + 1]))
  {
    WritePlanAt(WriteConfigs(slave, wbuf), k);
  }

  // ---------------------------------------------------------------------
  // read_bytes and write_byte_read_bytes
  // ---------------------------------------------------------------------

  /** A plain read is not supported by the bridge: it is refused without a call. */
  function PassReadBytes(b: Bridge, n: nat): (r: Step<seq<byte>>)
    ensures r.bridge == b
    ensures r.res.Err? && r.res.error == UnexpectedValue
  {
    Step(b, Err(UnexpectedValue))
  }

  /**
   * Setting up a hub read: switch the accelerometer off, program slot 0 to
   * read `n` bytes (the count truncated to 8 bits) from register `sub` of
   * the device, and connect slots 0 and 1.
   */
  function ReadSetupCalls(slave: byte, sub: byte, n: nat): seq<HubCall>
  {
    [XlRateCall(XlOff), SlvCfgReadCall(0, ShCfgRead(slave, sub, ByteOf(n % 256))), SlaveConnectedCall(Slaves01)]
  }

  /** The calls `write_byte_read_bytes` plans: set up, one hub cycle, read the hub's output registers. */
  function ReadPlan(slave: byte, sub: byte, n: nat): (p: seq<HubCall>)
    ensures |p| == 11
  {
    ReadSetupCalls(slave, sub, n) + TriggerCalls() + [RawReadCall(n)]
  }

  /** Setting up a hub read as the driver does it. */
  function ReadSetup(b: Bridge, slave: byte, sub: byte, n: nat): (r: Step<()>)
    ensures r.bridge.fails == b.fails
    ensures r.res.Ok? ==> r.bridge.log == b.log + ReadSetupCalls(slave, sub, n)
  {
    var o1 :- Issue(b, XlRateCall(XlOff));
    var o2 :- Issue(o1.bridge, SlvCfgReadCall(0, ShCfgRead(slave, sub, ByteOf(n % 256))));
    Issue(o2.bridge, SlaveConnectedCall(Slaves01))
  }

  lemma ReadSetupFollowsPlan(b: Bridge, slave: byte, sub: byte, n: nat)
    ensures ReadSetup(b, slave, sub, n) == RunPlan(b, ReadSetupCalls(slave, sub, n), false)
  {
    var p := ReadSetupCalls(slave, sub, n);
    RunPlanCons(b, p[0], p[1..], false);
    var b1 := Issue(b, p[0]).bridge;
    RunPlanCons(b1, p[1], p[2..], false);
    var b2 := Issue(b1, p[1]).bridge;
    RunPlanCons(b2, p[2], p[3..], false);
  }

  /**
   * `write_byte_read_bytes` on the bridge: read `n` bytes from register
   * `sub` of the device. `hub` is what the hub's output registers hold
   * once the cycle is over; the bytes returned are its first `n`. Every
   * failure, the accelerometer read's included, ends the operation. The
   * count, truncated to 8 bits, must fit the 3-bit `slave0_numop` field,
   * whose setter rejects any larger value, and the device address must fit
   * the 7-bit `slave0_add` field for the same reason.
   */
  function PassWriteByteReadBytes(b: Bridge, slave: byte, sub: byte, n: nat, hub: seq<byte>): (r: Step<seq<byte>>)
    requires slave < 128 && n <= |hub| && n % 256 < 8
    ensures r.bridge.fails == b.fails
    ensures r.res.Ok? ==> r.bridge.log == b.log + ReadPlan(slave, sub, n) && r.res.value == hub[..n]
  {
    var o1 :- ReadSetup(b, slave, sub, n);
    var o2 :- RunTrigger(o1.bridge, false);
    var o3 :- Issue(o2.bridge, RawReadCall(n));
    Step(o3.bridge, Ok(hub[..n]))
  }

  /**
   * `write_byte_read_bytes` makes exactly the calls of its plan, run
   * strictly: it succeeds exactly when the plan does, and stops where the
   * plan stops.
   */
  lemma PassWriteByteReadBytesFollowsPlan(b: Bridge, slave: byte, sub: byte, n: nat, hub: seq<byte>)
    requires slave < 128 && n <= |hub| && n % 256 < 8
    ensures var r := PassWriteByteReadBytes(b, slave, sub, n, hub); var p := RunPlan(b, ReadPlan(slave, sub, n), false);
      r.bridge == p.bridge && (r.res.Ok? <==> p.res.Ok?)
  {
    var setup := ReadSetupCalls(slave, sub, n);
    ReadSetupFollowsPlan(b, slave, sub, n);
    RunPlanAppend(b, setup, TriggerCalls(), false);
    RunPlanAppend(b, setup + TriggerCalls(), [RawReadCall(n)], false);
    var o1 := ReadSetup(b, slave, sub, n);
    if o1.res.Ok? {
      RunTriggerFollowsPlan(o1.bridge, false);
      var o2 := RunTrigger(o1.bridge, false);
      if o2.res.Ok? {
        RunPlanCons(o2.bridge, RawReadCall(n), [], false);
      }
    }
  }

  /** A write cycle whose only failing call is the accelerometer read still succeeds: its failure is discarded. */
  lemma WriteCycleIgnoresAccel(b: Bridge, cfg: ShCfgWrite)
    requires b.fails == {|b.log| + 4}
    ensures WriteCycle(b, cfg).res.Ok?
    ensures WriteCycle(b, cfg).bridge.log[|b.log| + 4] == AccelCall
  {
    WriteCycleFollowsPlan(b, cfg);
    var p := CycleCalls(cfg);
    assert forall i :: 0 <= i < |p| && !Ignorable(p[i], true) ==> |b.log| + i !in b.fails;
  }

  /** In `write_byte_read_bytes` the same failure of the accelerometer read ends the operation. */
  lemma ReadStopsAtAccel(b: Bridge, slave: byte, sub: byte, n: nat, hub: seq<byte>)
    requires slave < 128 && n <= |hub| && n % 256 < 8
    requires b.fails == {|b.log| + 5}
    ensures var r := PassWriteByteReadBytes(b, slave, sub, n, hub);
      r.res.Err? && r.bridge.log == b.log + ReadPlan(slave, sub, n)[..6]
  {
    PassWriteByteReadBytesFollowsPlan(b, slave, sub, n, hub);
    var p := ReadPlan(slave, sub, n);
    assert p[5] == AccelCall;
    RunPlanLog(b, p, false);
    RunPlanError(b, p, false);
  }
}
