/** What the derivative term does over runs: which motion it sees, and which way it pushes. */
module Damping {
  import opened Bits
  import opened Fixed
  import opened Derivative
  import Quad
  import Pid

  /** The samples held at clock `n` are the positions of the last two sampling clocks, a period apart. */
  ghost predicate Held(start: Axis, w: Stimulus, n: nat)
    requires start.Ok()
  {
    var s, period := After(start, w, n).pid, Power2(w.rate);
    && s.counter < period
    && (start.pid.counter + n < period ==> s.counter == start.pid.counter + n)
    && (period <= start.pid.counter + n < 2 * period ==> s.counter == start.pid.counter + n - period)
    && (start.pid.counter + n >= period ==>
          s.counter < n && s.prev0 == Signed32(Unwrapped(start, w, n - 1 - s.counter)))
    && (start.pid.counter + n >= 2 * period ==>
          s.counter + period < n && s.prev1 == Signed32(Unwrapped(start, w, n - 1 - s.counter - period)))
  }

  lemma ClockSamples(start: Axis, w: Stimulus, n: nat)
    requires start.Ok() && w.FixedRate()
    ensures Pid.Limit(w.rate) == Power2(w.rate) - 1 && Power2(w.rate) <= 0x400_0000
    ensures var s, s' := After(start, w, n).pid, After(start, w, n + 1).pid;
            if s.counter == Power2(w.rate) - 1 then
              s'.counter == 0 && s'.prev0 == Signed32(Unwrapped(start, w, n)) && s'.prev1 == s.prev0
            else s.counter < Power2(w.rate) - 1 ==>
              s'.counter == s.counter + 1 && s'.prev0 == s.prev0 && s'.prev1 == s.prev1
  {
    LimitIsPeriod(w.rate);
    PositionWraps(start, w, n);
    hide Power2, Pid.Limit, Pid.Response, Quad.DecoderStep, Unwrapped;
  }

  lemma {:induction false} SamplesHeld(start: Axis, w: Stimulus, n: nat)
    requires start.Ok() && w.FixedRate() && start.pid.counter < Power2(w.rate)
    ensures Held(start, w, n)
  {
    hide After, Unwrapped, Power2;
    if n > 0 {
      SamplesHeld(start, w, n - 1);
      ClockSamples(start, w, n - 1);
    } else {
      AtStart(start, w);
    }
  }

  lemma AtStart(start: Axis, w: Stimulus)
    requires start.Ok()
    ensures After(start, w, 0) == start
  {
  }

  /** In `n` clocks the position moves at most `n` ticks. */
  lemma {:induction false} MovesSlowly(start: Axis, w: Stimulus, m: nat, n: nat)
    requires start.Ok()
    ensures m - n <= Unwrapped(start, w, m + n) - Unwrapped(start, w, m) + m <= m + n
  {
    hide After;
    if n > 0 {
      MovesSlowly(start, w, m, n - 1);
    }
  }

  /** Ticks moved between the last two sampling clocks before clock `n`. */
  ghost function Moved(start: Axis, w: Stimulus, n: nat): int
    requires start.Ok()
  {
    var last, period := n - 1 - After(start, w, n).pid.counter, Power2(w.rate);
    if last < period then 0 else Unwrapped(start, w, last) - Unwrapped(start, w, last - period)
  }

  /** The unit of the derivative: only a tick in every clock counts as forward, any tick counts as backward. */
  function Seen(moved: int, period: int): int {
    if moved < 0 then -1 else if moved == period then 1 else 0
  }

  lemma FloorOfMotion(moved: int, period: int)
    requires period > 0 && -period <= moved <= period
    ensures moved / period == Seen(moved, period)
  {
    var q := moved / period;
    assert q * period <= moved < (q + 1) * period;
    ShiftedUnit(moved, period);
    if q == 0 {
      assert 0 <= moved < period;
    } else if q == 1 {
      assert period <= moved;
    } else {
      assert moved < 0;
    }
  }

  lemma HeldPositions(start: Axis, w: Stimulus, n: nat) returns (sample: int, before: int)
    requires start.Ok() && w.FixedRate() && start.pid.counter < Power2(w.rate) && n >= 2 * Power2(w.rate)
    ensures var s := After(start, w, n).pid; s.prev0 == Signed32(sample) && s.prev1 == Signed32(before)
    ensures sample - before == Moved(start, w, n) && -1 * Power2(w.rate) <= sample - before <= Power2(w.rate)
  {
    hide After, Unwrapped, Power2, Signed32;
    SamplesHeld(start, w, n);
    var period, last: nat := Power2(w.rate), n - 1 - After(start, w, n).pid.counter;
    MovesSlowly(start, w, last - period, period);
    sample, before := Unwrapped(start, w, last), Unwrapped(start, w, last - period);
  }

  lemma DeltaIsMotion(start: Axis, w: Stimulus, n: nat)
    requires start.Ok() && w.FixedRate() && start.pid.counter < Power2(w.rate) && n >= 2 * Power2(w.rate)
    ensures -1 * Power2(w.rate) <= Moved(start, w, n) <= Power2(w.rate)
    ensures Pid.Delta(After(start, w, n).pid, w.rate) == Seen(Moved(start, w, n), Power2(w.rate))
  {
    hide After, Moved, Power2, Pid.Limit, Signed32, Seen;
    LimitIsPeriod(w.rate);
    var sample, before := HeldPositions(start, w, n);
    WrapOnce(sample, before);
    Unchanged(sample - before);
    FloorOfMotion(sample - before, Power2(w.rate));
  }

  /** The derivative gain applied to the unit seen, rounded toward minus infinity. */
  function Brake(kd: int, seen: int): int {
    if seen == 0 then 0 else if seen > 0 then kd / 0x1_0000 else -kd / 0x1_0000
  }

  /**
   Over every run without a clear, from two periods on, for any pins and any gains: the response is the low 32 bits
   of the proportional term less the gain applied to the motion seen; and it is that number itself if neither term
   nor their difference leaves 32 bits.
   */
  lemma ResponseOverRuns(start: Axis, w: Stimulus, n: nat)
    requires start.Ok() && w.FixedRate() && start.pid.counter < Power2(w.rate) && n >= 2 * Power2(w.rate)
    ensures var a, g := After(start, w, n), w.gains(n);
            var brake := Brake(g.kd, Seen(Moved(start, w, n), Power2(w.rate)));
            var due := g.kp * (g.setpoint - a.decoder.position) / 0x1_0000 - brake;
            && Pid.Response(a.pid, g, a.decoder.position) == Signed32(Pid.PTerm(g, a.decoder.position) - brake)
            && (Fits32(g.setpoint - a.decoder.position) && Fits32(due) ==>
                  Pid.Response(a.pid, g, a.decoder.position) == due)
  {
    hide After, Unwrapped, Power2, Moved;
    DeltaIsMotion(start, w, n);
    TermsOnly(After(start, w, n).pid, w.gains(n), After(start, w, n).decoder.position,
              Seen(Moved(start, w, n), Power2(w.rate)));
  }

  lemma TermsOnly(s: Pid.State, g: Pid.Gains, pv: int, seen: int)
    requires Pid.Delta(s, g.rate) == seen && -1 <= seen <= 1
    ensures var due := g.kp * (g.setpoint - pv) / 0x1_0000 - Brake(g.kd, seen);
            && Pid.Response(s, g, pv) == Signed32(Pid.PTerm(g, pv) - Brake(g.kd, seen))
            && (Fits32(g.setpoint - pv) && Fits32(due) ==> Pid.Response(s, g, pv) == due)
  {
    hide Pid.Delta, Signed32;
    assert seen * g.kd == if seen == 0 then 0 else if seen == 1 then g.kd else -g.kd;
    assert Pid.DTerm(s, g) == Signed32(Brake(g.kd, seen));
    var p := g.kp * Signed32(g.setpoint - pv) / 0x1_0000;
    WrapOnce(p, Brake(g.kd, seen));
    Unchanged(Pid.PTerm(g, pv));
    WrapOnce(Pid.PTerm(g, pv), Brake(g.kd, seen));
    if Fits32(g.setpoint - pv) {
      Unchanged(g.setpoint - pv);
      if Fits32(p - Brake(g.kd, seen)) {
        Unchanged(p - Brake(g.kd, seen));
      }
    }
  }

  /**
   With no proportional term and a derivative gain of at least one the motor is driven against the motion, but not
   alike in both directions: backward motion is braked however slow, forward motion only at a tick in every clock.
   */
  lemma BrakesMotion(start: Axis, w: Stimulus, n: nat)
    requires start.Ok() && w.FixedRate() && start.pid.counter < Power2(w.rate) && n >= 2 * Power2(w.rate)
    requires w.gains(n).kp == 0 && 0x1_0000 <= w.gains(n).kd <= MAX32
    ensures var a, moved := After(start, w, n), Moved(start, w, n);
            Pid.Direction(Pid.Response(a.pid, w.gains(n), a.decoder.position))
            == if moved < 0 then Pid.Forward else if moved == Power2(w.rate) then Pid.Reverse else Pid.Coast
  {
    hide After, Unwrapped, Power2, Moved, Pid.Response;
    ResponseOverRuns(start, w, n);
    Unchanged(0);
    var brake := Brake(w.gains(n).kd, Seen(Moved(start, w, n), Power2(w.rate)));
    assert Pid.PTerm(w.gains(n), After(start, w, n).decoder.position) == 0 by {
      assert w.gains(n).kp * Signed32(w.gains(n).setpoint - After(start, w, n).decoder.position) == 0;
    }
    Unchanged(-brake);
  }

  // ----- sampling exponents -----

  /** An exponent above 26 is never reached by the 26-bit counter: no sample is taken and the derivative is off. */
  lemma {:induction false} NeverSamples(sights: seq<Pid.Sight>, n: nat)
    requires n <= |sights| && forall i :: 0 <= i < |sights| ==> 26 < sights[i].gains.rate
    ensures Pid.After(sights, n).prev0 == Pid.After(sights, n).prev1 == 0
    ensures n < |sights| ==> Pid.DTerm(Pid.After(sights, n), sights[n].gains) == 0
  {
    hide Power2, Pid.Response, Pid.DTerm, Pid.Limit;
    if n > 0 {
      NeverSamples(sights, n - 1);
      BeyondCounter(sights[n - 1].gains.rate);
    }
    if n < |sights| {
      NoDifference(Pid.After(sights, n), sights[n].gains);
    }
  }

  lemma NoDifference(s: Pid.State, g: Pid.Gains)
    requires s.prev0 == s.prev1
    ensures Pid.DTerm(s, g) == 0
  {
    hide Power2;
    Unchanged(0);
    ZeroOver(Power2(g.rate));
    assert Pid.Delta(s, g.rate) == 0;
  }

  lemma ZeroOver(p: int)
    requires p > 0
    ensures 0 / p == 0
  {
  }

  lemma BeyondCounter(rate: nat)
    requires rate > 26
    ensures Pid.Limit(rate) > 0x3FF_FFFF
  {
    hide Power2;
    PowerOf27();
    PowerGrows(27, rate);
  }

  lemma PowerOf27()
    ensures Power2(27) == 0x800_0000
  {
    assert Power2(13) == 0x2000 && Power2(14) == 0x4000;
    hide Power2;
    PowerSum(13, 14);
  }

  /**
   An exponent lowered while the counter is past the new period: no sample is taken until the counter has wrapped
   at 2^26; it is zero then, and sampling is as after a fresh start.
   */
  lemma {:induction false} RateLowered(start: Axis, w: Stimulus, n: nat)
    requires start.Ok() && w.FixedRate() && Power2(w.rate) <= start.pid.counter && start.pid.counter + n <= 0x400_0000
    ensures var s := After(start, w, n).pid;
            && s.counter == (if start.pid.counter + n < 0x400_0000 then start.pid.counter + n else 0)
            && s.prev0 == start.pid.prev0 && s.prev1 == start.pid.prev1
  {
    LimitIsPeriod(w.rate);
    hide Power2, Pid.Limit, Pid.Response, Quad.DecoderStep;
    if n > 0 {
      RateLowered(start, w, n - 1);
    }
  }
}
