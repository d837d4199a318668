/** The programmable pulse generator and the simulation's pulse decoder. */
module ServoPwm {
  import opened Arithmetic
  import Window = MotorPwm

  // ----- generator -----

  predicate Enabled(period: nat) {
    period != 0
  }

  function Width(period: nat, width: nat): nat {
    if width > period then period else width
  }

  function NextCounter(counter: nat, period: nat): nat {
    if Enabled(period) && counter < period - 1 then counter + 1 else 0
  }

  predicate Pulse(counter: nat, period: nat, width: nat) {
    Enabled(period) && counter < Width(period, width)
  }

  class PrgmPwm {
    var counter: nat

    constructor ()
      ensures counter == 0
    {
      counter := 0;
    }

    method Output(period: nat, width: nat) returns (out: bool)
      ensures out == Pulse(counter, period, width)
    {
      var effective := if width > period then period else width;
      out := period != 0 && counter < effective;
    }

    /** The counter is inside the current period afterwards, even when the period has just been rewritten. */
    method Clock(period: nat)
      modifies this
      ensures counter == NextCounter(old(counter), period)
      ensures Enabled(period) ==> counter < period
    {
      if period != 0 && counter < period - 1 {
        counter := counter + 1;
      } else {
        counter := 0;
      }
    }
  }

  // ----- any period of the generator -----

  function CounterAfter(counter: nat, period: nat, n: nat): nat {
    if n == 0 then counter else NextCounter(CounterAfter(counter, period, n - 1), period)
  }

  /** High clocks among the first `n`. */
  function Highs(counter: nat, period: nat, width: nat, n: nat): nat {
    if n == 0 then 0
    else
      Highs(counter, period, width, n - 1)
      + if Pulse(CounterAfter(counter, period, n - 1), period, width) then 1 else 0
  }

  lemma {:induction false} CountsLikeMotor(counter: nat, period: nat, width: nat, n: nat)
    requires counter < period
    ensures CounterAfter(counter, period, n) == Window.CounterAfter(counter, period, n) < period
    ensures Highs(counter, period, width, n)
            == Window.Highs(counter, period, if width < period then width else period, n)
  {
    if n > 0 {
      CountsLikeMotor(counter, period, width, n - 1);
    }
  }

  /** Whatever the phase, one period is high for exactly the programmed width, or throughout if that is longer. */
  lemma PeriodShowsWidth(counter: nat, period: nat, width: nat)
    requires counter < period
    ensures Highs(counter, period, width, period) == if width < period then width else period
  {
    var threshold := if width < period then width else period;
    CountsLikeMotor(counter, period, width, period);
    Window.HighsSplit(counter, period, threshold, period);
  }

  /** With period zero the output is low for good. */
  lemma {:induction false} ZeroPeriodIsOff(counter: nat, width: nat, n: nat)
    ensures Highs(counter, 0, width, n) == 0
  {
    if n > 0 {
      ZeroPeriodIsOff(counter, width, n - 1);
    }
  }

  // ----- decoder -----

  datatype Report = Periodic(period: nat, on: nat, off: nat) | Stable(level: bool)

  datatype Decoder = Decoder(stableCounter: nat, prevRising: bool, onActive: bool, on: nat, off: nat, prev: bool)

  const RESET := Decoder(0, false, false, 0, 0, false)

  predicate Rising(d: Decoder, pwm: bool) {
    pwm && !d.prev
  }

  predicate Reports(d: Decoder, pwm: bool) {
    Rising(d, pwm) && !d.onActive && d.prevRising
  }

  function Edge(d: Decoder, pwm: bool): Decoder {
    if pwm == d.prev then d.(stableCounter := d.stableCounter + 1)
    else if !pwm then d.(onActive := false, stableCounter := 0)
    else if Reports(d, pwm) then Decoder(0, true, true, 0, 0, d.prev)
    else d.(prevRising := true, onActive := true, stableCounter := 0)
  }

  function Measured(d: Decoder): Decoder {
    if d.onActive then d.(on := d.on + 1) else d.(off := d.off + 1)
  }

  function DecoderTick(d: Decoder, timeout: nat, pwm: bool): (Decoder, seq<Report>) {
    var m := Measured(Edge(d, pwm));
    var pulse := if Reports(d, pwm) then [Periodic(d.on + d.off, d.on, d.off)] else [];
    if m.stableCounter >= timeout
    then (Decoder(0, false, m.onActive, 0, 0, pwm), pulse + [Stable(pwm)])
    else (m.(prev := pwm), pulse)
  }

  class PWMDecoder {
    var stableTimeout: nat
    var stableCounter: nat
    var prevRisingEdge: bool
    var onActive: bool
    var onDuration: nat
    var offDuration: nat
    var prevPwm: bool

    function State(): Decoder
      reads this
    {
      Decoder(stableCounter, prevRisingEdge, onActive, onDuration, offDuration, prevPwm)
    }

    constructor ()
      ensures State() == RESET && stableTimeout == 1000000
    {
      stableTimeout := 1000000;
      stableCounter, prevRisingEdge, onActive, onDuration, offDuration, prevPwm := 0, false, false, 0, 0, false;
    }

    method Reset()
      modifies this
      ensures State() == RESET && stableTimeout == old(stableTimeout)
    {
      prevRisingEdge := false;
      onActive := false;
      onDuration := 0;
      offDuration := 0;
      prevPwm := false;
      stableCounter := 0;
    }

    method Tick(pwm: bool) returns (reports: seq<Report>)
      modifies this
      ensures stableTimeout == old(stableTimeout)
      ensures (State(), reports) == DecoderTick(old(State()), stableTimeout, pwm)
    {
      reports := [];
      if pwm != prevPwm {
        if !pwm {
          onActive := false;
        } else {
          if !onActive && prevRisingEdge {
            reports := [Periodic(onDuration + offDuration, onDuration, offDuration)];
            offDuration := 0;
            onDuration := 0;
          }
          prevRisingEdge := true;
          onActive := true;
        }
        stableCounter := 0;
      } else {
        stableCounter := stableCounter + 1;
      }
      if onActive {
        onDuration := onDuration + 1;
      } else {
        offDuration := offDuration + 1;
      }
      if stableCounter >= stableTimeout {
        reports := reports + [Stable(pwm)];
        prevRisingEdge := false;
        onDuration := 0;
        offDuration := 0;
        stableCounter := 0;
      }
      prevPwm := pwm;
    }
  }

  // ----- constant period and width -----

  datatype Signal = Signal(period: nat, width: nat, timeout: nat) {
    /** A real pulse, neither phase long enough to look stable. */
    predicate Ok() {
      0 < width < period && width <= timeout && period - width <= timeout
    }
  }

  datatype Bench = Bench(decoder: Decoder, counter: nat, rises: nat)

  function Reported(b: Bench, s: Signal): seq<Report> {
    DecoderTick(b.decoder, s.timeout, Pulse(b.counter, s.period, s.width)).1
  }

  /** One clock; `rises` counts the rising edges the decoder has seen. */
  function Step(b: Bench, s: Signal): Bench {
    var pwm := Pulse(b.counter, s.period, s.width);
    Bench(DecoderTick(b.decoder, s.timeout, pwm).0, NextCounter(b.counter, s.period),
          b.rises + if Rising(b.decoder, pwm) then 1 else 0)
  }

  /** The decoder is in step with a generator about to output `counter`. */
  predicate InStep(d: Decoder, counter: nat, s: Signal)
    requires s.Ok()
  {
    var last := if counter == 0 then s.period - 1 else counter - 1;
    && d.prevRising && d.prev == (last < s.width) && d.onActive == d.prev
    && d.stableCounter <= (if last < s.width then last else last - s.width)
  }

  /** It has measured the current period from its rising edge on, the low part `lead` clocks too long. */
  predicate Measures(d: Decoder, counter: nat, s: Signal, lead: nat)
    requires s.Ok()
  {
    if counter == 0 then d.on == s.width && d.off == s.period - s.width + lead
    else if counter <= s.width then d.on == counter && d.off == lead
    else d.on == s.width && d.off == counter - s.width + lead
  }

  lemma InStepStays(d: Decoder, counter: nat, s: Signal)
    requires s.Ok() && counter < s.period && InStep(d, counter, s)
    ensures var pwm := Pulse(counter, s.period, s.width);
            && InStep(DecoderTick(d, s.timeout, pwm).0, NextCounter(counter, s.period), s)
            && DecoderTick(d, s.timeout, pwm).1 == (if counter == 0 then [Periodic(d.on + d.off, d.on, d.off)] else [])
            && (Rising(d, pwm) <==> counter == 0)
  {
  }

  lemma MeasuresStays(d: Decoder, counter: nat, s: Signal, lead: nat)
    requires s.Ok() && counter < s.period && InStep(d, counter, s)
    requires counter == 0 || Measures(d, counter, s, lead)
    ensures Measures(DecoderTick(d, s.timeout, Pulse(counter, s.period, s.width)).0, NextCounter(counter, s.period), s,
                     if counter == 0 then 0 else lead)
  {
  }

  /** The first rising edge puts any decoder in step. */
  lemma FirstEdge(d: Decoder, counter: nat, s: Signal)
    requires s.Ok() && counter < s.period && Rising(d, Pulse(counter, s.period, s.width))
    ensures InStep(DecoderTick(d, s.timeout, true).0, NextCounter(counter, s.period), s)
  {
  }

  ghost predicate Staged(b: Bench, s: Signal)
    requires s.Ok()
  {
    && b.counter < s.period
    && (b.rises >= 1 ==> InStep(b.decoder, b.counter, s))
    && (b.rises >= 2 ==> Measures(b.decoder, b.counter, s, 0))
  }

  lemma StagedStays(b: Bench, s: Signal)
    requires s.Ok() && Staged(b, s)
    ensures Staged(Step(b, s), s)
    ensures b.rises >= 1 && b.counter != 0 ==> Reported(b, s) == []
    ensures b.rises >= 2 && b.counter == 0 ==> Reported(b, s) == [Periodic(s.period, s.width, s.period - s.width)]
    ensures b.rises >= 1 ==> (Rising(b.decoder, Pulse(b.counter, s.period, s.width)) <==> b.counter == 0)
  {
    if b.rises == 0 {
      if Rising(b.decoder, Pulse(b.counter, s.period, s.width)) {
        FirstEdge(b.decoder, b.counter, s);
      }
    } else {
      InStepStays(b.decoder, b.counter, s);
      if b.rises >= 2 || b.counter == 0 {
        MeasuresStays(b.decoder, b.counter, s, 0);
      }
    }
    hide DecoderTick, InStep, Width;
  }

  function After(b: Bench, s: Signal, n: nat): Bench {
    if n == 0 then b else Step(After(b, s, n - 1), s)
  }

  /**
   From any decoder state and any phase of the generator: once a rising edge has been seen, reports come at
   rising edges only, and from the third rising edge on each is exactly the programmed period and width.
   */
  lemma {:induction false} ReportsAreExact(d: Decoder, counter: nat, s: Signal, n: nat)
    requires s.Ok() && counter < s.period
    ensures var b := After(Bench(d, counter, 0), s, n);
            var rising := Rising(b.decoder, Pulse(b.counter, s.period, s.width));
            && Staged(b, s)
            && (b.rises >= 1 && !rising ==> Reported(b, s) == [])
            && (b.rises >= 2 && rising ==> Reported(b, s) == [Periodic(s.period, s.width, s.period - s.width)])
  {
    hide Step, Reported, Pulse, Rising;
    if n > 0 {
      ReportsAreExact(d, counter, s, n - 1);
      StagedStays(After(Bench(d, counter, 0), s, n - 1), s);
    }
    assert Staged(After(Bench(d, counter, 0), s, n), s);
    StagedStays(After(Bench(d, counter, 0), s, n), s);
  }

  /** A decoder that has watched a low line for `n` clocks since reset. */
  function Idle(timeout: nat, n: nat): Decoder {
    if n == 0 then RESET else DecoderTick(Idle(timeout, n - 1), timeout, false).0
  }

  /** Every `timeout` clocks the decoder reports a stable line and starts measuring afresh. */
  lemma {:induction false} IdleCounts(timeout: nat, n: nat)
    requires timeout > 0
    ensures Idle(timeout, n) == Decoder(n % timeout, false, false, 0, n % timeout, false)
  {
    if n > 0 {
      IdleCounts(timeout, n - 1);
      NextQuotient(n - 1, timeout);
    }
  }

  /** The state while a decoder that idled for `lead` clocks from reset measures its first period. */
  lemma {:induction false} FirstPeriod(lead: nat, s: Signal, n: nat)
    requires s.Ok() && 0 < n <= s.period
    ensures var b := After(Bench(Idle(s.timeout, lead), 0, 0), s, n);
            && b.counter == (if n == s.period then 0 else n) && b.rises == 1
            && InStep(b.decoder, b.counter, s) && Measures(b.decoder, b.counter, s, lead % s.timeout)
  {
    hide Idle, DecoderTick, InStep, Measures;
    if n == 1 {
      FirstTick(lead, s);
    } else {
      FirstPeriod(lead, s, n - 1);
      var b := After(Bench(Idle(s.timeout, lead), 0, 0), s, n - 1);
      InStepStays(b.decoder, b.counter, s);
      MeasuresStays(b.decoder, b.counter, s, lead % s.timeout);
    }
  }

  lemma FirstTick(lead: nat, s: Signal)
    requires s.Ok()
    ensures var b := After(Bench(Idle(s.timeout, lead), 0, 0), s, 1);
            && b.counter == 1 && b.rises == 1
            && InStep(b.decoder, 1, s) && Measures(b.decoder, 1, s, lead % s.timeout)
  {
    IdleCounts(s.timeout, lead);
    hide Idle;
    assert After(Bench(Idle(s.timeout, lead), 0, 0), s, 1) == Step(Bench(Idle(s.timeout, lead), 0, 0), s);
  }

  /**
   After a low line of any length the first report is too long by what is left of that length since the last
   report of a stable line, so it is exact if and only if the length is a multiple of the timeout.
   */
  lemma FirstReport(lead: nat, s: Signal)
    requires s.Ok()
    ensures var b := After(Bench(Idle(s.timeout, lead), 0, 0), s, s.period);
            var extra := lead % s.timeout;
            && Reported(b, s) == [Periodic(s.period + extra, s.width, s.period - s.width + extra)]
            && (Reported(b, s) == [Periodic(s.period, s.width, s.period - s.width)] <==> extra == 0)
  {
    FirstPeriod(lead, s, s.period);
    var b := After(Bench(Idle(s.timeout, lead), 0, 0), s, s.period);
    InStepStays(b.decoder, b.counter, s);
    hide DecoderTick, After, Idle;
  }

  // ----- a steady line -----

  /** The decoder after `n` ticks at one level. */
  function Steady(d: Decoder, timeout: nat, level: bool, n: nat): Decoder {
    if n == 0 then d else DecoderTick(Steady(d, timeout, level, n - 1), timeout, level).0
  }

  /** What is measured on a steady line since it was last reported goes to the account of its level. */
  predicate Afresh(d: Decoder, level: bool) {
    !d.prevRising && d.on == (if level then d.stableCounter else 0) && d.off == (if level then 0 else d.stableCounter)
  }

  lemma SteadyStep(d: Decoder, timeout: nat, level: bool)
    requires d.prev == d.onActive == level && d.stableCounter < timeout
    ensures var (next, reports) := DecoderTick(d, timeout, level);
            var full := d.stableCounter + 1 == timeout;
            && next.prev == next.onActive == level && next.stableCounter == (if full then 0 else d.stableCounter + 1)
            && (full || Afresh(d, level) ==> Afresh(next, level))
            && reports == if full then [Stable(level)] else []
  {
  }

  /**
   On a line that stays as it is, whatever the decoder was measuring: it reports that level once in every
   `timeout` ticks without an edge, and nothing else; from the first such report on it measures afresh.
   */
  lemma {:induction false} SteadyReports(d: Decoder, timeout: nat, level: bool, n: nat)
    requires d.prev == d.onActive == level && d.stableCounter < timeout
    ensures var now, count := Steady(d, timeout, level, n), d.stableCounter + n;
            && now.prev == now.onActive == level && now.stableCounter == count % timeout
            && (count >= timeout ==> Afresh(now, level))
            && DecoderTick(now, timeout, level).1 == if (count + 1) % timeout == 0 then [Stable(level)] else []
  {
    hide DecoderTick, Afresh;
    if n > 0 {
      SteadyReports(d, timeout, level, n - 1);
      SteadyStep(Steady(d, timeout, level, n - 1), timeout, level);
      NextQuotient(d.stableCounter + n - 1, timeout);
      Quotient(timeout - 1, timeout, 0, timeout - 1);
    } else {
      Quotient(d.stableCounter, timeout, 0, d.stableCounter);
    }
    SteadyStep(Steady(d, timeout, level, n), timeout, level);
    NextQuotient(d.stableCounter + n, timeout);
  }
}
