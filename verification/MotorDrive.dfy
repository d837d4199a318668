/** The motor-control peripheral with its two bridge drivers. */
module MotorDrive {
  import opened Obi
  import opened PidStatus
  import opened MotorPwm
  import Pid
  import Peripherals = ObiPid

  const CLOCK_RATE: nat := 50_000_000
  const PWM_FREQUENCY: nat := 25_000
  const PERIOD: nat := 2000

  /** What drives an axis's pins: the sign and the size of its response. */
  function Commanded(response: int, counter: nat): Pins
    requires counter < PERIOD
  {
    MotorPins(Pid.Direction(response), counter < Threshold(Pid.Duty(response), PERIOD))
  }

  function ResponseOf(p: Peripheral, name: AxisName, pv: int): int
    requires p.Ok()
  {
    Pid.Response(p.Of(name).pid, GainsOf(p.regs, name), pv)
  }

  class Motors {
    const pid: Peripherals.ObiPid
    const pwmX: Pwm
    const pwmY: Pwm

    predicate Valid()
      reads pid, pid.regs, pid.pidX, pid.pidY, pwmX, pwmY
    {
      && pid.Valid() && pwmX.Valid() && pwmY.Valid() && pwmX.period == pwmY.period == PERIOD && pwmX != pwmY
    }

    constructor ()
      ensures Valid() && fresh(pid) && fresh(pid.regs) && fresh(pid.regs.q) && fresh(pid.pidX) && fresh(pid.pidY)
      ensures fresh(pwmX) && fresh(pwmY) && pid.State() == PidStatus.RESET && pwmX.counter == pwmY.counter == 0
    {
      var p := new Peripherals.ObiPid();
      var x := new Pwm(CLOCK_RATE, PWM_FREQUENCY);
      var y := new Pwm(CLOCK_RATE, PWM_FREQUENCY);
      pid, pwmX, pwmY := p, x, y;
    }

    /** The pins are combinational on the registers and the positions. */
    method Drive(pvX: int, pvY: int) returns (x: Pins, y: Pins)
      requires Valid()
      ensures x == Commanded(ResponseOf(pid.State(), X, pvX), pwmX.counter)
      ensures y == Commanded(ResponseOf(pid.State(), Y, pvY), pwmY.counter)
    {
      hide GainsOf, Threshold, Pid.Response, Pid.Direction, Pid.Duty;
      var _, _, dirX, dutyX := pid.pidX.Drive(GainsOf(pid.regs.q[..], X), pvX);
      var _, _, dirY, dutyY := pid.pidY.Drive(GainsOf(pid.regs.q[..], Y), pvY);
      var outX := pwmX.Output(dutyX);
      var outY := pwmY.Output(dutyY);
      x, y := MotorPins(dirX, outX), MotorPins(dirY, outY);
    }

    method Clock(i: Input)
      requires Valid()
      modifies pid, pid.regs, pid.regs.q, pid.pidX, pid.pidY, pwmX, pwmY
      ensures Valid()
      ensures pid.State() == PidStatus.Step(old(pid.State()), i)
      ensures pwmX.counter == Turn(old(pwmX.counter), PERIOD) && pwmY.counter == Turn(old(pwmY.counter), PERIOD)
    {
      hide PidStatus.Step;
      pid.Clock(i);
      pwmX.Clock();
      pwmY.Clock();
    }
  }

  /** While a response stays, a full window of the bridge decoder shows its direction and its duty. */
  lemma WindowShowsResponse(x: int, y: int, counterX: nat, counterY: nat)
    requires counterX < PERIOD && counterY < PERIOD
    ensures var a := Motor(Pid.Direction(x), Pid.Duty(x), counterX);
            var b := Motor(Pid.Direction(y), Pid.Duty(y), counterY);
            var highsA, highsB := Pid.Duty(x) * PERIOD / 256, Pid.Duty(y) * PERIOD / 256;
            && (forall n: nat :: a.PinsAt(PERIOD, n) == Commanded(x, InPeriod(counterX, n)))
            && (forall n: nat :: b.PinsAt(PERIOD, n) == Commanded(y, InPeriod(counterY, n)))
            && highsA <= PERIOD && highsB <= PERIOD
            && Report(DecoderAfter(PERIOD, a, b, PERIOD - 1), PERIOD, a.PinsAt(PERIOD, PERIOD - 1),
                      b.PinsAt(PERIOD, PERIOD - 1))
               == Some((a.Expected(PERIOD, highsA), b.Expected(PERIOD, highsB)))
  {
    var a := Motor(Pid.Direction(x), Pid.Duty(x), counterX);
    var b := Motor(Pid.Direction(y), Pid.Duty(y), counterY);
    hide Pid.Direction, Pid.Duty, Threshold, DecoderAfter, Motor.Expected;
    FullWindow(PERIOD, a, b);
  }

  function InPeriod(counter: nat, n: nat): (c: nat)
    requires counter < PERIOD
    ensures c < PERIOD && c == CounterAfter(counter, PERIOD, n)
  {
    if n == 0 then counter else Turn(InPeriod(counter, n - 1), PERIOD)
  }
}
