/** The motor drive: a fixed-period duty generator, the mode encoding, and the simulation's window counter. */
module MotorPwm {
  import opened Obi
  import Pid

  // ----- generator -----

  /** Clocks per period; the product of a duty and a period must fit in 32 bits. */
  predicate PeriodOk(period: nat) {
    2 <= period <= 0x100_0000
  }

  lemma Scaled(duty: nat, period: nat)
    requires duty < 256 && period > 0
    ensures 0 <= duty * period / 256 < period
  {
    Product(duty, period);
    Part(duty * period, period);
  }

  lemma Product(duty: nat, period: nat)
    requires duty < 256
    ensures 0 <= duty * period <= 255 * period
  {
    assert duty * period + (255 - duty) * period == 255 * period;
  }

  lemma Part(product: int, period: nat)
    requires 0 <= product <= 255 * period && period > 0
    ensures 0 <= product / 256 < period
  {
  }

  function Threshold(duty: nat, period: nat): (t: nat)
    requires duty < 256 && PeriodOk(period)
    ensures t < period
  {
    Scaled(duty, period);
    duty * period / 256
  }

  function Turn(counter: nat, period: nat): nat {
    if counter == period - 1 then 0 else counter + 1
  }

  class Pwm {
    const period: nat
    var counter: nat

    predicate Valid()
      reads this
    {
      PeriodOk(period) && counter < period
    }

    constructor (clockRate: nat, frequency: nat)
      requires frequency > 0 && PeriodOk(clockRate / frequency)
      ensures Valid() && period == clockRate / frequency && counter == 0
    {
      period := clockRate / frequency;
      counter := 0;
    }

    method Output(duty: nat) returns (out: bool)
      requires Valid() && duty < 256
      ensures out <==> counter < Threshold(duty, period)
    {
      out := counter < duty * period / 256;
    }

    method Clock()
      requires Valid()
      modifies this
      ensures Valid() && counter == Turn(old(counter), period)
    {
      if counter == period - 1 {
        counter := 0;
      } else {
        counter := counter + 1;
      }
    }
  }

  // ----- mode encoding -----

  datatype Pins = Pins(in1: bool, in2: bool)

  function MotorPins(mode: Pid.Mode, pwm: bool): Pins {
    match mode
    case Forward => Pins(pwm, false)
    case Reverse => Pins(false, pwm)
    case Coast => Pins(false, false)
    case Brake => Pins(true, true)
  }

  // ----- window counter -----

  datatype Counts = Counts(fwd: nat, bwd: nat, cst: nat, brk: nat) {
    function Total(): nat {
      fwd + bwd + cst + brk
    }
  }

  const NO_COUNTS := Counts(0, 0, 0, 0)

  function Counted(c: Counts, p: Pins): Counts {
    if p.in1 then (if p.in2 then c.(brk := c.brk + 1) else c.(fwd := c.fwd + 1))
    else if p.in2 then c.(bwd := c.bwd + 1) else c.(cst := c.cst + 1)
  }

  datatype Decoder = Decoder(cycles: nat, a: Counts, b: Counts)

  function DecoderTick(d: Decoder, window: nat, a: Pins, b: Pins): Decoder {
    if d.cycles + 1 == window then Decoder(0, NO_COUNTS, NO_COUNTS)
    else Decoder(d.cycles + 1, Counted(d.a, a), Counted(d.b, b))
  }

  /** The counts reported in the tick that fills the window. */
  function Report(d: Decoder, window: nat, a: Pins, b: Pins): Option<(Counts, Counts)> {
    if d.cycles + 1 == window then Some((Counted(d.a, a), Counted(d.b, b))) else None
  }

  const FORWARD: nat := 0
  const BACKWARD: nat := 1
  const COAST: nat := 2
  const BRAKE: nat := 3

  class DRV8833Decoder {
    const cyclesForPeriod: nat
    const channel: array2<nat>
    var cycles: nat

    predicate Valid() {
      channel.Length0 == 2 && channel.Length1 == 4
    }

    function CountsOf(j: nat): Counts
      reads channel
      requires Valid() && j < 2
    {
      Counts(channel[j, FORWARD], channel[j, BACKWARD], channel[j, COAST], channel[j, BRAKE])
    }

    function State(): Decoder
      reads this, channel
      requires Valid()
    {
      Decoder(cycles, CountsOf(0), CountsOf(1))
    }

    constructor (cyclesForPeriod: nat)
      ensures Valid() && fresh(channel) && this.cyclesForPeriod == cyclesForPeriod
      ensures State() == Decoder(0, NO_COUNTS, NO_COUNTS)
    {
      this.cyclesForPeriod := cyclesForPeriod;
      cycles := 0;
      channel := new nat[2, 4]((_, _) => 0);
    }

    method Clear(j: nat)
      requires Valid() && j < 2
      modifies channel
      ensures CountsOf(j) == NO_COUNTS && CountsOf(1 - j) == old(CountsOf(1 - j))
    {
      channel[j, FORWARD] := 0;
      channel[j, BACKWARD] := 0;
      channel[j, COAST] := 0;
      channel[j, BRAKE] := 0;
    }

    method Reset()
      requires Valid()
      modifies this, channel
      ensures State() == Decoder(0, NO_COUNTS, NO_COUNTS)
    {
      cycles := 0;
      Clear(0);
      Clear(1);
    }

    method Count(j: nat, p: Pins)
      requires Valid() && j < 2
      modifies channel
      ensures CountsOf(j) == Counted(old(CountsOf(j)), p) && CountsOf(1 - j) == old(CountsOf(1 - j))
    {
      var mode := if p.in1 then (if p.in2 then BRAKE else FORWARD) else if p.in2 then BACKWARD else COAST;
      channel[j, mode] := channel[j, mode] + 1;
    }

    method Tick(a: Pins, b: Pins) returns (report: Option<(Counts, Counts)>)
      requires Valid()
      modifies this, channel
      ensures State() == DecoderTick(old(State()), cyclesForPeriod, a, b)
      ensures report == Report(old(State()), cyclesForPeriod, a, b)
    {
      Count(0, a);
      Count(1, b);
      report := None;
      if cycles + 1 == cyclesForPeriod {
        cycles := 0;
        report := Some((CountsOf(0), CountsOf(1)));
        Clear(0);
        Clear(1);
      } else {
        cycles := cycles + 1;
      }
    }
  }

  // ----- any window sees the duty -----

  /** The generator's counter after `n` clocks. */
  function CounterAfter(counter: nat, period: nat, n: nat): nat {
    if n == 0 then counter else Turn(CounterAfter(counter, period, n - 1), period)
  }

  /** High clocks among the first `n`. */
  function Highs(counter: nat, period: nat, threshold: nat, n: nat): nat {
    if n == 0 then 0
    else Highs(counter, period, threshold, n - 1) + if CounterAfter(counter, period, n - 1) < threshold then 1 else 0
  }

  function Min(x: int, y: int): int {
    if x < y then x else y
  }

  function Max(x: int, y: int): int {
    if x < y then y else x
  }

  /** Up to the wrap the counter climbs from `counter`; after it, from zero. */
  lemma {:induction false} HighsSplit(counter: nat, period: nat, threshold: nat, n: nat)
    requires counter < period && threshold <= period && n <= period
    ensures CounterAfter(counter, period, n) == if counter + n < period then counter + n else counter + n - period
    ensures Highs(counter, period, threshold, n)
            == Max(Min(threshold, Min(counter + n, period)) - counter, 0)
               + Min(threshold, Max(counter + n - period, 0))
  {
    if n > 0 {
      HighsSplit(counter, period, threshold, n - 1);
    }
  }

  /** Whatever the phase, one period of clocks is high for exactly the threshold. */
  lemma WindowIsDuty(counter: nat, period: nat, duty: nat)
    requires PeriodOk(period) && counter < period && duty < 256
    ensures Highs(counter, period, Threshold(duty, period), period) == duty * period / 256
  {
    HighsSplit(counter, period, Threshold(duty, period), period);
  }

  /** One motor: its mode and duty are constant over the window, its generator is in any phase. */
  datatype Motor = Motor(mode: Pid.Mode, duty: nat, counter: nat) {
    predicate Ok(period: nat) {
      PeriodOk(period) && duty < 256 && counter < period
    }

    function PinsAt(period: nat, n: nat): Pins
      requires Ok(period)
    {
      MotorPins(mode, CounterAfter(counter, period, n) < Threshold(duty, period))
    }

    /** The counts of the first `n` clocks. */
    function CountsAfter(period: nat, n: nat): Counts
      requires Ok(period)
    {
      if n == 0 then NO_COUNTS else Counted(CountsAfter(period, n - 1), PinsAt(period, n - 1))
    }

    /** The commanded direction for the high clocks, coasting for the rest. */
    function Expected(n: nat, highs: nat): Counts
      requires highs <= n
    {
      match mode
      case Forward => Counts(highs, 0, n - highs, 0)
      case Reverse => Counts(0, highs, n - highs, 0)
      case Coast => Counts(0, 0, n, 0)
      case Brake => Counts(0, 0, 0, n)
    }
  }

  lemma {:induction false} CountsAreHighs(m: Motor, period: nat, n: nat)
    requires m.Ok(period)
    ensures Highs(m.counter, period, Threshold(m.duty, period), n) <= n
    ensures m.CountsAfter(period, n) == m.Expected(n, Highs(m.counter, period, Threshold(m.duty, period), n))
  {
    hide Threshold;
    if n > 0 {
      CountsAreHighs(m, period, n - 1);
    }
  }

  function DecoderAfter(period: nat, a: Motor, b: Motor, n: nat): Decoder
    requires a.Ok(period) && b.Ok(period)
  {
    if n == 0 then Decoder(0, NO_COUNTS, NO_COUNTS)
    else DecoderTick(DecoderAfter(period, a, b, n - 1), period, a.PinsAt(period, n - 1), b.PinsAt(period, n - 1))
  }

  lemma {:induction false} CountsAccumulate(period: nat, a: Motor, b: Motor, n: nat)
    requires a.Ok(period) && b.Ok(period) && n < period
    ensures DecoderAfter(period, a, b, n) == Decoder(n, a.CountsAfter(period, n), b.CountsAfter(period, n))
  {
    hide Counted, Motor.PinsAt;
    if n > 0 {
      CountsAccumulate(period, a, b, n - 1);
    }
  }

  /**
   A full window as long as the period reports, for both motors at once and wherever their generators are,
   exactly the duty's share of clocks in the commanded direction and coasting otherwise.
   */
  lemma FullWindow(period: nat, a: Motor, b: Motor)
    requires a.Ok(period) && b.Ok(period)
    ensures a.duty * period / 256 <= period && b.duty * period / 256 <= period
    ensures Report(DecoderAfter(period, a, b, period - 1), period,
                   a.PinsAt(period, period - 1), b.PinsAt(period, period - 1))
            == Some((a.Expected(period, a.duty * period / 256), b.Expected(period, b.duty * period / 256)))
  {
    CountsAccumulate(period, a, b, period - 1);
    CountsAreHighs(a, period, period);
    CountsAreHighs(b, period, period);
    WindowIsDuty(a.counter, period, a.duty);
    WindowIsDuty(b.counter, period, b.duty);
    hide Counted, Motor.PinsAt, Motor.Expected, Threshold;
  }

  lemma CountedTotal(c: Counts, p: Pins)
    ensures Counted(c, p).Total() == c.Total() + 1
  {
    var Counts(f, b, z, k) := c;
    if p.in1 && p.in2 {
      assert Counted(c, p) == Counts(f, b, z, k + 1);
    } else if p.in1 {
      assert Counted(c, p) == Counts(f + 1, b, z, k);
    } else if p.in2 {
      assert Counted(c, p) == Counts(f, b + 1, z, k);
    } else {
      assert Counted(c, p) == Counts(f, b, z + 1, k);
    }
  }

  lemma NoneCounted()
    ensures NO_COUNTS.Total() == 0
  {
  }

  function DecoderRun(window: nat, pins: seq<(Pins, Pins)>, n: nat): Decoder
    requires n <= |pins|
  {
    if n == 0 then Decoder(0, NO_COUNTS, NO_COUNTS)
    else DecoderTick(DecoderRun(window, pins, n - 1), window, pins[n - 1].0, pins[n - 1].1)
  }

  /** Whatever the pins do, each channel's counts always sum to the ticks of its window, and a report to the window. */
  lemma {:induction false} TotalsAreCycles(window: nat, pins: seq<(Pins, Pins)>, n: nat)
    requires n <= |pins|
    ensures var d := DecoderRun(window, pins, n);
            && d.a.Total() == d.cycles == d.b.Total() && (0 < window ==> d.cycles < window)
            && (n < |pins| ==>
                  var report := Report(d, window, pins[n].0, pins[n].1);
                  report.Some? ==> report.value.0.Total() == window == report.value.1.Total())
  {
    hide Counted, Counts.Total;
    NoneCounted();
    if n > 0 {
      TotalsAreCycles(window, pins, n - 1);
      var d := DecoderRun(window, pins, n - 1);
      CountedTotal(d.a, pins[n - 1].0);
      CountedTotal(d.b, pins[n - 1].1);
    }
    if n < |pins| {
      var d := DecoderRun(window, pins, n);
      CountedTotal(d.a, pins[n].0);
      CountedTotal(d.b, pins[n].1);
    }
  }
}
