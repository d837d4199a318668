/** The two-axis peripheral: configuration registers, stability events and the write-one-to-clear status. */
module PidStatus {
  import opened Bits
  import opened Obi
  import opened Words
  import opened RegFile
  import opened Fixed
  import Pid

  const CONFIG := RegConfig([W1C, RW, RW, RW, RW, RW, RW, RW, RW],
                            [ZERO, ZERO, ZERO, ZERO, ZERO, ZERO, ZERO, ZERO, ZERO], 8)

  datatype AxisName = X | Y

  /** A controller and the two-bit shift register that watches its stable line, newest first. */
  datatype Axis = Axis(pid: Pid.State, newest: bool, older: bool) {
    predicate Event() {
      newest && !older
    }
  }

  datatype Peripheral = Peripheral(regs: seq<Word>, x: Axis, y: Axis) {
    predicate Ok() {
      |regs| == 9 && x.pid.Ok() && y.pid.Ok()
    }

    function Of(name: AxisName): Axis {
      if name.X? then x else y
    }

    predicate Bit(name: AxisName)
      requires |regs| == 9
    {
      if name.X? then regs[0].b0[0] else regs[0].b0[1]
    }

    predicate Irq()
      requires |regs| == 9
    {
      regs[0].b0[0] || regs[0].b0[1]
    }
  }

  const RESET := Peripheral(CONFIG.reset, Axis(Pid.RESET, false, false), Axis(Pid.RESET, false, false))

  function GainsOf(regs: seq<Word>, name: AxisName): Pid.Gains
    requires |regs| == 9
  {
    var base := if name.X? then 1 else 5;
    Pid.Gains(Signed32(WordValue(regs[base])), Signed32(WordValue(regs[base + 1])),
              WordValue(regs[base + 2]) % 0x400_0000, Signed32(WordValue(regs[base + 3])))
  }

  /** The status word with the bits of this clock's events set. */
  function Raised(status: Word, eventX: bool, eventY: bool): Word {
    var b := status.b0;
    status.(b0 := b[0 := b[0] || eventX][1 := b[1] || eventY])
  }

  /** The hardware updates: only the status register has one, in clocks with an event. */
  function Hardware(p: Peripheral): (hw: seq<Option<Word>>)
    requires |p.regs| == 9
    ensures |hw| == 9
  {
    [if p.x.Event() || p.y.Event() then Some(Raised(p.regs[0], p.x.Event(), p.y.Event())) else None,
     None, None, None, None, None, None, None, None]
  }

  datatype Input = Input(req: Option<Request>, pvX: int, pvY: int) {
    function Pv(name: AxisName): int {
      if name.X? then pvX else pvY
    }
  }

  function AxisStep(a: Axis, g: Pid.Gains, pv: int): (a': Axis)
    requires a.pid.Ok()
    ensures a'.pid.Ok()
  {
    Axis(Pid.Step(a.pid, g, pv), a.pid.Stable(), a.newest)
  }

  function NextRegs(p: Peripheral, req: Option<Request>): (q: seq<Word>)
    requires |p.regs| == 9
    ensures |q| == 9
  {
    RegFile.Step(CONFIG, Regs(p.regs, None), req, Hardware(p)).q
  }

  function Step(p: Peripheral, i: Input): (p': Peripheral)
    requires p.Ok()
    ensures p'.Ok()
  {
    Peripheral(NextRegs(p, i.req), AxisStep(p.x, GainsOf(p.regs, X), i.pvX), AxisStep(p.y, GainsOf(p.regs, Y), i.pvY))
  }

  // ----- the status bits -----

  /** A write that names the axis's bit. */
  predicate Acks(req: Option<Request>, name: AxisName) {
    Writes(CONFIG, req, 0) && (if name.X? then req.value.wdata.b0[0] else req.value.wdata.b0[1])
  }

  lemma StatusStep(p: Peripheral, req: Option<Request>)
    requires |p.regs| == 9
    ensures var we := Writes(CONFIG, req, 0);
            var q := NextRegs(p, req)[0].b0;
            && (q[0] <==> (p.regs[0].b0[0] || p.x.Event()) && !(we && req.value.wdata.b0[0]))
            && (q[1] <==> (p.regs[0].b0[1] || p.y.Event()) && !(we && req.value.wdata.b0[1]))
  {
    var hw, we := Hardware(p), Writes(CONFIG, req, 0);
    var wd := if req.Some? then req.value.wdata else ZERO;
    var d := if hw[0].Some? then hw[0].value else ZERO;
    assert NextRegs(p, req)[0] == NextReg(W1C, hw[0].Some?, we, d, wd, p.regs[0]);
    hide NextReg, NextRegs, Writes;
    ClearBits(hw[0].Some?, we, d, wd, p.regs[0], 0);
    ClearBits(hw[0].Some?, we, d, wd, p.regs[0], 1);
  }

  lemma ClearBits(de: bool, we: bool, d: Word, wd: Word, q: Word, k: nat)
    requires k < 8
    ensures NextReg(W1C, de, we, d, wd, q).b0[k] == ((if de then d.b0[k] else q.b0[k]) && !(we && wd.b0[k]))
  {
  }

  /**
   Each axis has its own bit: it is set by that axis's event and cleared only by a write that names it.
   An acknowledgement of one axis leaves an event of the other alone, even in the same clock; an event of
   the axis that is being acknowledged in that clock leaves no trace.
   */
  lemma BitStep(p: Peripheral, i: Input, name: AxisName)
    requires p.Ok()
    ensures Step(p, i).Bit(name) <==> (p.Bit(name) || p.Of(name).Event()) && !Acks(i.req, name)
  {
    StatusStep(p, i.req);
    hide NextRegs, Writes, AxisStep, GainsOf;
  }

  function After(p: Peripheral, inputs: seq<Input>, n: nat): (p': Peripheral)
    requires p.Ok() && n <= |inputs|
    ensures p'.Ok()
  {
    if n == 0 then p else Step(After(p, inputs, n - 1), inputs[n - 1])
  }

  predicate EventAt(p: Peripheral, inputs: seq<Input>, name: AxisName, k: nat)
    requires p.Ok() && k <= |inputs|
  {
    After(p, inputs, k).Of(name).Event()
  }

  /** No clock from `k` up to `n` acknowledges the axis. */
  predicate Unacked(inputs: seq<Input>, name: AxisName, k: nat, n: nat)
    requires n <= |inputs|
  {
    forall j: nat :: k <= j < n ==> !Acks(inputs[j].req, name)
  }

  /** Some event, or the bit itself at the start, has not been acknowledged since. */
  ghost predicate Pending(p: Peripheral, inputs: seq<Input>, name: AxisName, n: nat)
    requires p.Ok() && n <= |inputs|
  {
    || (p.Bit(name) && Unacked(inputs, name, 0, n))
    || exists k: nat :: k < n && EventAt(p, inputs, name, k) && Unacked(inputs, name, k, n)
  }

  lemma PendingStep(p: Peripheral, inputs: seq<Input>, name: AxisName, n: nat)
    requires p.Ok() && 0 < n <= |inputs|
    ensures Pending(p, inputs, name, n)
            <==> (Pending(p, inputs, name, n - 1) || EventAt(p, inputs, name, n - 1)) && !Acks(inputs[n - 1].req, name)
  {
    hide EventAt, Acks;
    if Acks(inputs[n - 1].req, name) {
      assert forall k: nat :: k < n ==> !Unacked(inputs, name, k, n);
    } else {
      assert Unacked(inputs, name, n - 1, n);
      forall k: nat | k < n
        ensures Unacked(inputs, name, k, n) <==> Unacked(inputs, name, k, n - 1)
      {
      }
      hide Unacked;
      if Pending(p, inputs, name, n) && !(p.Bit(name) && Unacked(inputs, name, 0, n)) {
        var k: nat :| k < n && EventAt(p, inputs, name, k) && Unacked(inputs, name, k, n);
        assert k < n - 1 ==> EventAt(p, inputs, name, k) && Unacked(inputs, name, k, n - 1);
      }
    }
  }

  lemma EventNow(p: Peripheral, inputs: seq<Input>, name: AxisName, k: nat)
    requires p.Ok() && k <= |inputs|
    ensures EventAt(p, inputs, name, k) <==> After(p, inputs, k).Of(name).Event()
  {
    hide After;
  }

  /** The bit records exactly the events that nobody has acknowledged. */
  lemma {:induction false} BitHistory(p: Peripheral, inputs: seq<Input>, name: AxisName, n: nat)
    requires p.Ok() && n <= |inputs|
    ensures After(p, inputs, n).Bit(name) <==> Pending(p, inputs, name, n)
  {
    hide Step, Acks, EventAt;
    if n > 0 {
      BitHistory(p, inputs, name, n - 1);
      PendingStep(p, inputs, name, n);
      hide Pending;
      BitStep(After(p, inputs, n - 1), inputs[n - 1], name);
      EventNow(p, inputs, name, n - 1);
    }
  }

  /** The interrupt line is high exactly while some event of either axis has not been acknowledged. */
  lemma IrqMeansPending(p: Peripheral, inputs: seq<Input>, n: nat)
    requires p.Ok() && n <= |inputs|
    ensures After(p, inputs, n).Irq() <==> Pending(p, inputs, X, n) || Pending(p, inputs, Y, n)
  {
    hide After, Pending;
    BitHistory(p, inputs, X, n);
    BitHistory(p, inputs, Y, n);
  }

  const READ_STATUS := Request(0x00, false, Enables(true, true, true, true), ZERO)

  /** The low byte of what the bus reads at the peripheral's base. */
  function StatusByte(regs: seq<Word>): Byte
    requires |regs| == 9
  {
    Reply(CONFIG, regs, READ_STATUS).rdata.b0
  }

  /** Over runs from reset, what the bus reads as bits 0 and 1 of the status word are the pending events of X and Y. */
  lemma StatusReads(inputs: seq<Input>, n: nat)
    requires n <= |inputs|
    ensures var status := StatusByte(After(RESET, inputs, n).regs);
            && (status[0] <==> exists k: nat :: k < n && EventAt(RESET, inputs, X, k) && Unacked(inputs, X, k, n))
            && (status[1] <==> exists k: nat :: k < n && EventAt(RESET, inputs, Y, k) && Unacked(inputs, Y, k, n))
  {
    hide After, EventAt, Unacked;
    BitHistory(RESET, inputs, X, n);
    BitHistory(RESET, inputs, Y, n);
    AccessByAddress(CONFIG, After(RESET, inputs, n).regs, READ_STATUS, 0);
    BytePower();
    hide Power2, Reply;
  }

  // ----- where the gains come from -----

  /** A full word stored in the four bytes at `offset` from the peripheral's base. */
  predicate StoresAt(req: Option<Request>, offset: nat) {
    req.Some? && req.value.we && req.value.be.All() && offset <= req.value.addr as nat % 256 < offset + 4
  }

  /** The last word stored there, or `start` before any. */
  function LastStored(start: Word, inputs: seq<Input>, offset: nat, n: nat): Word
    requires n <= |inputs|
  {
    if n == 0 then start
    else if StoresAt(inputs[n - 1].req, offset) then inputs[n - 1].req.value.wdata
    else LastStored(start, inputs, offset, n - 1)
  }

  lemma RegisterStep(p: Peripheral, req: Option<Request>, i: nat)
    requires |p.regs| == 9 && 1 <= i < 9
    ensures NextRegs(p, req)[i] == if StoresAt(req, 4 * i) then req.value.wdata else p.regs[i]
  {
    if req.Some? {
      AccessByAddress(CONFIG, p.regs, req.value, i);
      BytePower();
      hide Writes, Power2, Reply;
    }
  }

  lemma RegistersAfter(p: Peripheral, inputs: seq<Input>, n: nat)
    requires p.Ok() && n <= |inputs|
    ensures After(p, inputs, n).regs == if n == 0 then p.regs else NextRegs(After(p, inputs, n - 1), inputs[n - 1].req)
  {
    hide NextRegs, AxisStep;
  }

  lemma {:induction false} RegisterHolds(p: Peripheral, inputs: seq<Input>, i: nat, n: nat)
    requires p.Ok() && n <= |inputs| && 1 <= i < 9
    ensures After(p, inputs, n).regs[i] == LastStored(p.regs[i], inputs, 4 * i, n)
  {
    hide After, NextRegs, StoresAt;
    RegistersAfter(p, inputs, n);
    if n > 0 {
      RegisterHolds(p, inputs, i, n - 1);
      RegisterStep(After(p, inputs, n - 1), inputs[n - 1].req, i);
    }
  }

  /** The four words of an axis in memory order: proportional and derivative gain, sampling exponent, set point. */
  function Block(name: AxisName): nat {
    if name.X? then 0x04 else 0x14
  }

  /** The number last stored at an offset behind the status word. */
  function Stored(p: Peripheral, inputs: seq<Input>, offset: nat, n: nat): nat
    requires |p.regs| == 9 && 4 <= offset < 36 && n <= |inputs|
  {
    WordValue(LastStored(p.regs[offset / 4], inputs, offset, n))
  }

  /** Each controller runs with what was last stored in its own block, whatever else the bus and the axes do. */
  lemma GainsInForce(p: Peripheral, inputs: seq<Input>, name: AxisName, n: nat)
    requires p.Ok() && n <= |inputs|
    ensures var g, at := GainsOf(After(p, inputs, n).regs, name), Block(name);
            && g.kp == Signed32(Stored(p, inputs, at, n)) && g.kd == Signed32(Stored(p, inputs, at + 4, n))
            && g.rate == Stored(p, inputs, at + 8, n) % 0x400_0000
            && g.setpoint == Signed32(Stored(p, inputs, at + 12, n))
  {
    hide After, LastStored, WordValue;
    var first := Block(name) / 4;
    RegisterHolds(p, inputs, first, n);
    RegisterHolds(p, inputs, first + 1, n);
    RegisterHolds(p, inputs, first + 2, n);
    RegisterHolds(p, inputs, first + 3, n);
  }

  // ----- where events come from -----

  function SightsOf(p: Peripheral, inputs: seq<Input>, name: AxisName): (s: seq<Pid.Sight>)
    requires p.Ok()
    ensures |s| == |inputs|
  {
    seq(|inputs|, n requires 0 <= n < |inputs| =>
      Pid.Sight(GainsOf(After(p, inputs, n).regs, name), inputs[n].Pv(name)))
  }

  lemma OneStep(p: Peripheral, inputs: seq<Input>, name: AxisName, n: nat)
    requires p.Ok() && 0 < n <= |inputs|
    ensures var sight := SightsOf(p, inputs, name)[n - 1];
            After(p, inputs, n).Of(name) == AxisStep(After(p, inputs, n - 1).Of(name), sight.gains, sight.pv)
  {
    hide GainsOf, NextRegs, AxisStep;
  }

  lemma Begins(inputs: seq<Input>, name: AxisName)
    ensures After(RESET, inputs, 0).Of(name) == Axis(Pid.RESET, false, false)
  {
  }

  lemma {:induction false} PidAfter(inputs: seq<Input>, name: AxisName, n: nat)
    requires n <= |inputs|
    ensures After(RESET, inputs, n).Of(name).pid == Pid.After(SightsOf(RESET, inputs, name), n)
  {
    hide SightsOf, After, Pid.Step;
    if n == 0 {
      Begins(inputs, name);
    } else {
      PidAfter(inputs, name, n - 1);
      OneStep(RESET, inputs, name, n);
    }
  }

  /** The shift register holds the stable lines of the last two clocks. */
  predicate Latched(a: Axis, sights: seq<Pid.Sight>, n: nat)
    requires n <= |sights|
  {
    && a.newest == (n >= 1 && Pid.After(sights, n - 1).Stable())
    && a.older == (n >= 2 && Pid.After(sights, n - 2).Stable())
  }

  lemma LatchesAfter(inputs: seq<Input>, name: AxisName, n: nat)
    requires n <= |inputs|
    ensures Latched(After(RESET, inputs, n).Of(name), SightsOf(RESET, inputs, name), n)
  {
    hide After, SightsOf, Pid.After, Pid.Step;
    Begins(inputs, name);
    if n >= 1 {
      OneStep(RESET, inputs, name, n);
      PidAfter(inputs, name, n - 1);
    }
    if n >= 2 {
      OneStep(RESET, inputs, name, n - 1);
      PidAfter(inputs, name, n - 2);
    }
  }

  /**
   From reset, whatever the gains and positions do: an axis raises an event exactly one clock after its run of
   zero responses reaches the stability period, hence once in every maximal run that gets there.
   */
  lemma EventIffRunReaches(inputs: seq<Input>, name: AxisName, n: nat)
    requires n <= |inputs|
    ensures EventAt(RESET, inputs, name, n)
            <==> n >= 1 && Pid.ZeroRun(SightsOf(RESET, inputs, name), n - 1) == Pid.MIN_PERIOD_FOR_STABILITY - 1
  {
    hide After, SightsOf, Pid.After, Pid.ZeroRun;
    LatchesAfter(inputs, name, n);
    if n >= 1 {
      Pid.StableRises(SightsOf(RESET, inputs, name), n - 1);
    }
  }
}
