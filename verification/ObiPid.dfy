/** The motor-control peripheral on the bus, and the firmware that serves its interrupt. */
module ObiPid {
  import opened Obi
  import opened RegFile
  import opened Spec = PidStatus
  import Pid

  lemma NextRegsAny(p: Peripheral, resp: Option<Response>, req: Option<Request>)
    requires |p.regs| == 9
    ensures RegFile.Step(CONFIG, Regs(p.regs, resp), req, Hardware(p)).q == NextRegs(p, req)
  {
    hide Hardware, NextReg;
  }

  class ObiPid {
    const regs: ObiReg
    const pidX: Pid.PidController
    const pidY: Pid.PidController
    var stableXL1: bool
    var stableXL0: bool
    var stableYL1: bool
    var stableYL0: bool

    predicate Valid()
      reads pidX, pidY
    {
      regs.Valid() && regs.rc == CONFIG && pidX != pidY && pidX.Valid() && pidY.Valid()
    }

    function AxisX(): Axis
      reads this, pidX
    {
      Axis(pidX.View(), stableXL1, stableXL0)
    }

    function AxisY(): Axis
      reads this, pidY
    {
      Axis(pidY.View(), stableYL1, stableYL0)
    }

    function State(): Peripheral
      reads this, regs, regs.q, pidX, pidY
    {
      Peripheral(regs.q[..], AxisX(), AxisY())
    }

    constructor ()
      ensures Valid() && fresh(regs) && fresh(regs.q) && fresh(pidX) && fresh(pidY) && State() == Spec.RESET
    {
      stableXL1, stableXL0, stableYL1, stableYL0 := false, false, false, false;
      var file := new ObiReg(CONFIG);
      var x := new Pid.PidController();
      var y := new Pid.PidController();
      regs, pidX, pidY := file, x, y;
    }

    /** The interrupt line. */
    method Irq() returns (irq: bool)
      requires Valid()
      ensures irq == State().Irq()
    {
      irq := regs.q[0].b0[0] || regs.q[0].b0[1];
    }

    method Clock(i: Input)
      requires Valid()
      modifies this, regs, regs.q, pidX, pidY
      ensures Valid() && State() == Spec.Step(old(State()), i)
      ensures regs.State().resp
              == match i.req case None => None case Some(r) => Some(Reply(CONFIG, old(regs.q[..]), r))
    {
      var gainsX, gainsY := GainsOf(regs.q[..], X), GainsOf(regs.q[..], Y);
      hide NextReg, AxisStep, NextRegs, RegFile.Step, Reply, Hardware, GainsOf, ObiReg.State;
      var hw := Events();
      NextRegsAny(State(), regs.State().resp, i.req);
      ClockFile(i.req, hw);
      ClockAxes(gainsX, gainsY, i);
    }

    /** The hardware side of the register file. */
    method Events() returns (hw: seq<Option<Word>>)
      requires Valid()
      ensures hw == Hardware(State())
    {
      var eventX, eventY := stableXL1 && !stableXL0, stableYL1 && !stableYL0;
      hw := [None, None, None, None, None, None, None, None, None];
      if eventX || eventY {
        hw := hw[0 := Some(Raised(regs.q[0], eventX, eventY))];
      }
    }

    method ClockAxes(gainsX: Pid.Gains, gainsY: Pid.Gains, i: Input)
      requires Valid()
      modifies this, pidX, pidY
      ensures Valid()
      ensures AxisX() == AxisStep(old(AxisX()), gainsX, i.pvX)
      ensures AxisY() == AxisStep(old(AxisY()), gainsY, i.pvY)
    {
      hide Pid.Step;
      stableXL1, stableXL0 := pidX.stabilityCounter == Pid.MIN_PERIOD_FOR_STABILITY - 1, stableXL1;
      stableYL1, stableYL0 := pidY.stabilityCounter == Pid.MIN_PERIOD_FOR_STABILITY - 1, stableYL1;
      pidX.Clock(gainsX, i.pvX);
      pidY.Clock(gainsY, i.pvY);
    }

    method ClockFile(req: Option<Request>, hw: seq<Option<Word>>)
      requires Valid() && |hw| == 9
      modifies regs, regs.q
      ensures regs.q[..] == RegFile.Step(CONFIG, old(regs.State()), req, hw).q
      ensures regs.State().resp
              == match req case None => None case Some(r) => Some(Reply(CONFIG, old(regs.q[..]), r))
    {
      hide NextReg, Reply;
      regs.Clock(req, hw);
    }
  }
}
