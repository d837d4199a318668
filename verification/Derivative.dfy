/** The derivative term when the decoder's position is the controller's process variable. */
module Derivative {
  import opened Bits
  import opened Fixed
  import Quad
  import Pid

  /** What the pins and the constants are, clock by clock; only the sampling exponent is fixed. */
  datatype Stimulus = Stimulus(a: nat -> bool, b: nat -> bool, gains: nat -> Pid.Gains, rate: nat) {
    ghost predicate FixedRate() {
      rate <= 26 && forall n: nat :: gains(n).rate == rate
    }
  }

  datatype Axis = Axis(decoder: Quad.Decoder, pid: Pid.State) {
    predicate Ok() {
      pid.Ok() && Fits32(decoder.position)
    }
  }

  /** `n` clocks without a clear. */
  function After(start: Axis, w: Stimulus, n: nat): (s: Axis)
    requires start.Ok()
    ensures s.Ok()
  {
    if n == 0 then start
    else
      var s := After(start, w, n - 1);
      Axis(Quad.DecoderStep(s.decoder, false, w.a(n - 1), w.b(n - 1)),
           Pid.Step(s.pid, w.gains(n - 1), s.decoder.position))
  }

  /** The position without its 32-bit wrap. */
  function Unwrapped(start: Axis, w: Stimulus, n: nat): int
    requires start.Ok()
  {
    if n == 0 then start.decoder.position
    else Unwrapped(start, w, n - 1) + Quad.Tick(After(start, w, n - 1).decoder)
  }

  /** One more clock, seen from the controller. */
  lemma NextClock(start: Axis, w: Stimulus, n: nat)
    requires start.Ok()
    ensures var s := After(start, w, n);
            && After(start, w, n + 1).pid == Pid.Step(s.pid, w.gains(n), s.decoder.position)
            && Unwrapped(start, w, n + 1) == Unwrapped(start, w, n) + Quad.Tick(s.decoder)
  {
    hide Pid.Step, Quad.DecoderStep, Quad.Tick;
  }

  lemma NoClock(start: Axis, w: Stimulus)
    requires start.Ok()
    ensures After(start, w, 0) == start && Unwrapped(start, w, 0) == start.decoder.position
  {
  }

  lemma {:induction false} PositionWraps(start: Axis, w: Stimulus, n: nat)
    requires start.Ok()
    ensures After(start, w, n).decoder.position == Signed32(Unwrapped(start, w, n))
  {
    hide Quad.Tick, Quad.DecoderStep, Signed32, Pid.Step;
    if n == 0 {
      Unchanged(start.decoder.position);
    } else {
      PositionWraps(start, w, n - 1);
      var d := After(start, w, n - 1).decoder;
      var tick := Quad.Tick(d);
      WrapOnce(Unwrapped(start, w, n - 1), tick);
      assert Quad.DecoderStep(d, false, w.a(n - 1), w.b(n - 1)).position == Signed32(d.position + tick);
    }
  }

  /** The position strays no further from the last sample than the clocks passed since. */
  predicate Near(s: Pid.State, position: int, sample: int) {
    s.prev0 == Signed32(sample) && sample - position <= s.counter + 1 && position - sample <= s.counter + 1
  }

  predicate Apart(s: Pid.State, sample: int, before: int, period: int) {
    s.prev1 == Signed32(before) && -period <= sample - before <= period
  }

  /** Successive samples lie within one sampling period of each other. */
  ghost predicate Close(s: Pid.State, position: int, period: int) {
    exists sample: int, before: int :: Near(s, position, sample) && Apart(s, sample, before, period)
  }

  lemma LimitIsPeriod(rate: nat)
    requires rate <= 26
    ensures Pid.Limit(rate) == Power2(rate) - 1 && Power2(rate) <= 0x400_0000
  {
    assert Power2(26) == 0x400_0000 by {
      assert Power2(13) == 0x2000;
      PowerSum(13, 13);
    }
    PowerGrows(rate, 26);
  }

  lemma {:induction false} PowerGrows(m: nat, n: nat)
    requires m <= n
    ensures Power2(m) <= Power2(n)
  {
    if m < n {
      PowerGrows(m, n - 1);
    }
  }

  lemma {:induction false} PowerSum(m: nat, n: nat)
    ensures Power2(m + n) == Power2(m) * Power2(n)
  {
    if n > 0 {
      PowerSum(m, n - 1);
      assert Power2(m + n) == 2 * Power2(m + (n - 1));
    }
  }

  /** One clock keeps the position near its sample, and a sample taken a full period after the last one close. */
  lemma SampleStep(s: Pid.State, g: Pid.Gains, position: int, tick: int, period: int, sample: int)
    requires s.Ok() && -1 <= tick <= 1 && s.counter < period && Pid.Limit(g.rate) == period - 1 && period <= 0x400_0000
    ensures var s' := Pid.Step(s, g, Signed32(position));
            && s'.counter == (if s.counter == period - 1 then 0 else s.counter + 1)
            && (s.counter == period - 1 ==> Near(s', position + tick, position))
            && (Near(s, position, sample) && s.counter == period - 1 ==> Apart(s', position, sample, period))
            && (Near(s, position, sample) && s.counter < period - 1 ==> Near(s', position + tick, sample))
            && (s.counter < period - 1 ==> s'.prev1 == s.prev1)
  {
    hide Pid.Response, Pid.Limit, Signed32;
  }

  lemma CloseStays(s: Pid.State, g: Pid.Gains, position: int, tick: int, period: int)
    requires s.Ok() && -1 <= tick <= 1 && s.counter < period && Pid.Limit(g.rate) == period - 1 && period <= 0x400_0000
    requires Close(s, position, period)
    ensures Close(Pid.Step(s, g, Signed32(position)), position + tick, period)
  {
    var sample: int, before: int :| Near(s, position, sample) && Apart(s, sample, before, period);
    SampleStep(s, g, position, tick, period, sample);
    var s' := Pid.Step(s, g, Signed32(position));
    hide Pid.Step, Near, Pid.Limit;
    if s.counter == period - 1 {
      assert Near(s', position + tick, position) && Apart(s', position, sample, period);
    } else {
      assert Near(s', position + tick, sample) && Apart(s', sample, before, period);
    }
  }

  /** What is known `at` clocks after the counter was last zero, or would have been. */
  ghost predicate Stage(s: Pid.State, position: int, at: nat, period: nat) {
    if at < period then s.counter == at
    else if at < 2 * period then s.counter == at - period && exists sample: int :: Near(s, position, sample)
    else s.counter < period && Close(s, position, period)
  }

  lemma StageStep(s: Pid.State, g: Pid.Gains, position: int, tick: int, at: nat, period: nat)
    requires s.Ok() && -1 <= tick <= 1 && Pid.Limit(g.rate) == period - 1 && 0 < period <= 0x400_0000
    requires Stage(s, position, at, period)
    ensures Stage(Pid.Step(s, g, Signed32(position)), position + tick, at + 1, period)
  {
    hide Pid.Step, Near, Close, Pid.Limit;
    if at >= 2 * period {
      SampleStep(s, g, position, tick, period, 0);
      CloseStays(s, g, position, tick, period);
    } else if at >= period {
      var sample: int :| Near(s, position, sample);
      SampleStep(s, g, position, tick, period, sample);
      if s.counter == period - 1 {
        SecondSample(s, g, position, tick, period, sample);
      }
    } else {
      SampleStep(s, g, position, tick, period, 0);
    }
  }

  lemma SecondSample(s: Pid.State, g: Pid.Gains, position: int, tick: int, period: int, sample: int)
    requires s.Ok() && -1 <= tick <= 1 && s.counter == period - 1 && Pid.Limit(g.rate) == period - 1
    requires period <= 0x400_0000 && Near(s, position, sample)
    ensures Close(Pid.Step(s, g, Signed32(position)), position + tick, period)
  {
    var s' := Pid.Step(s, g, Signed32(position));
    SampleStep(s, g, position, tick, period, sample);
    hide Pid.Step, Near, Pid.Limit;
    assert Near(s', position + tick, position) && Apart(s', position, sample, period);
  }

  /** Whatever was sampled before, two full periods are enough. */
  lemma {:induction false} TwoSamples(start: Axis, w: Stimulus, n: nat)
    requires start.Ok() && w.FixedRate() && start.pid.counter < Power2(w.rate)
    ensures Stage(After(start, w, n).pid, Unwrapped(start, w, n), start.pid.counter + n, Power2(w.rate))
  {
    hide Power2, Pid.Limit, Pid.Step, Stage, Quad.Tick, After, Unwrapped;
    LimitIsPeriod(w.rate);
    if n == 0 {
      NoClock(start, w);
      StageBegins(start.pid, start.decoder.position, Power2(w.rate));
    } else {
      TwoSamples(start, w, n - 1);
      PositionWraps(start, w, n - 1);
      NextClock(start, w, n - 1);
      var s := After(start, w, n - 1);
      StageStep(s.pid, w.gains(n - 1), Unwrapped(start, w, n - 1), Quad.Tick(s.decoder),
                start.pid.counter + n - 1, Power2(w.rate));
    }
  }

  lemma StageBegins(s: Pid.State, position: int, period: nat)
    requires s.counter < period
    ensures Stage(s, position, s.counter, period)
  {
  }

  /** Starting from reset the samples are close at any rate. */
  lemma ResetClose(period: int)
    requires period >= 0
    ensures Close(Pid.RESET, 0, period)
  {
    Unchanged(0);
    assert Near(Pid.RESET, 0, 0) && Apart(Pid.RESET, 0, 0, period);
  }

  /** Close samples differ by one shifted unit at most, through any 32-bit wrap of the position. */
  lemma DeltaBounds(s: Pid.State, rate: nat, position: int)
    requires rate <= 26 && Close(s, position, Power2(rate))
    ensures -1 <= Pid.Delta(s, rate) <= 1
  {
    LimitIsPeriod(rate);
    var period := Power2(rate);
    hide Power2, Pid.Limit, Signed32;
    var sample: int, before: int :| Near(s, position, sample) && Apart(s, sample, before, period);
    WrapOnce(sample, before);
    Unchanged(sample - before);
    ShiftedUnit(sample - before, period);
  }

  lemma ShiftedUnit(x: int, period: int)
    requires period > 0 && -period <= x <= period
    ensures -1 <= x / period <= 1
  {
    var q := x / period;
    assert q * period <= x < (q + 1) * period;
    assert q >= 2 ==> q * period >= 2 * period;
    assert q <= -2 ==> (q + 1) * period <= -1 * period;
  }

  lemma DTermBounds(s: Pid.State, g: Pid.Gains)
    requires -1 <= Pid.Delta(s, g.rate) <= 1 && Fits32(g.kd)
    ensures var kd := if g.kd < 0 then -g.kd else g.kd;
            -((kd + 0xFFFF) / 0x1_0000) <= Pid.DTerm(s, g) <= (kd + 0xFFFF) / 0x1_0000
  {
    var delta := Pid.Delta(s, g.rate);
    hide Pid.Delta;
    assert delta * g.kd == if delta == 0 then 0 else if delta == 1 then g.kd else -g.kd;
    Unchanged(delta * g.kd / 0x1_0000);
  }

  /**
   For any fixed exponent up to 26, any pins and any gains, from a counter within its period and without a
   clear: from two periods on the derivative sees -1, 0 or 1, and its term is bounded by the scaled gain.
   */
  lemma DerivativeBounded(start: Axis, w: Stimulus, n: nat)
    requires start.Ok() && w.FixedRate() && start.pid.counter < Power2(w.rate)
    requires n >= 2 * Power2(w.rate) || Close(start.pid, start.decoder.position, Power2(w.rate))
    requires Fits32(w.gains(n).kd)
    ensures var s, g := After(start, w, n).pid, w.gains(n);
            var kd := if g.kd < 0 then -g.kd else g.kd;
            && -1 <= Pid.Delta(s, g.rate) <= 1
            && -((kd + 0xFFFF) / 0x1_0000) <= Pid.DTerm(s, g) <= (kd + 0xFFFF) / 0x1_0000
  {
    TwoSamples(start, w, n);
    if n < 2 * Power2(w.rate) {
      StaysClose(start, w, n);
    }
    var s := After(start, w, n).pid;
    DeltaBounds(s, w.rate, Unwrapped(start, w, n));
    DTermBounds(s, w.gains(n));
  }

  lemma CounterBelow(start: Axis, w: Stimulus, n: nat)
    requires start.Ok() && w.FixedRate() && start.pid.counter < Power2(w.rate)
    ensures After(start, w, n).pid.counter < Power2(w.rate)
  {
    TwoSamples(start, w, n);
    hide Power2, Close, After;
  }

  lemma {:induction false} StaysClose(start: Axis, w: Stimulus, n: nat)
    requires start.Ok() && w.FixedRate() && start.pid.counter < Power2(w.rate)
    requires Close(start.pid, start.decoder.position, Power2(w.rate))
    ensures Close(After(start, w, n).pid, Unwrapped(start, w, n), Power2(w.rate))
  {
    hide Power2, Pid.Limit, Pid.Step, Close, Quad.Tick, After, Unwrapped;
    LimitIsPeriod(w.rate);
    NoClock(start, w);
    if n > 0 {
      StaysClose(start, w, n - 1);
      NextClock(start, w, n - 1);
      CounterBelow(start, w, n - 1);
      PositionWraps(start, w, n - 1);
      var s := After(start, w, n - 1);
      CloseStays(s.pid, w.gains(n - 1), Unwrapped(start, w, n - 1), Quad.Tick(s.decoder), Power2(w.rate));
    }
  }
}
