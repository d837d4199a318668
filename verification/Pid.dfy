/** One axis of the motor controller: Q16.16 terms, sampling, stability, drive. */
module Pid {
  import opened Bits
  import opened Fixed

  const MIN_PERIOD_FOR_STABILITY: nat := 100000
  const BASE_PWM: nat := 179

  datatype Mode = Coast | Reverse | Forward | Brake

  /** The constants the bus supplies; `rate` is the 26-bit sampling exponent. */
  datatype Gains = Gains(kp: int, kd: int, rate: nat, setpoint: int)

  datatype State = State(counter: nat, prev0: int, prev1: int, stability: nat) {
    predicate Ok() {
      counter < 0x400_0000 && stability < MIN_PERIOD_FOR_STABILITY
    }

    predicate Stable() {
      stability == MIN_PERIOD_FOR_STABILITY - 1
    }
  }

  const RESET := State(0, 0, 0, 0)

  function PTerm(g: Gains, pv: int): int {
    Signed32(g.kp * Signed32(g.setpoint - pv) / 0x1_0000)
  }

  /** The arithmetic shift rounds toward minus infinity. */
  function Delta(s: State, rate: nat): int {
    Signed32(s.prev0 - s.prev1) / Power2(rate)
  }

  function DTerm(s: State, g: Gains): int {
    Signed32(Delta(s, g.rate) * g.kd / 0x1_0000)
  }

  function Response(s: State, g: Gains, pv: int): (r: int)
    ensures Fits32(r)
  {
    Signed32(PTerm(g, pv) - DTerm(s, g))
  }

  /** The comparison is made in 32 bits, so exponents past 31 give the all-ones value. */
  function Limit(rate: nat): nat {
    if rate < 32 then Power2(rate) - 1 else 0xFFFF_FFFF
  }

  predicate Samples(s: State, rate: nat) {
    s.counter == Limit(rate)
  }

  function Step(s: State, g: Gains, pv: int): (s': State)
    requires s.Ok()
    ensures s'.Ok()
  {
    var sampled := if Samples(s, g.rate) then s.(counter := 0, prev0 := pv, prev1 := s.prev0)
                   else s.(counter := if s.counter == 0x3FF_FFFF then 0 else s.counter + 1);
    sampled.(stability := if Response(s, g, pv) != 0 then 0 else if s.Stable() then s.stability else s.stability + 1)
  }

  function Direction(response: int): Mode {
    if response < 0 then Reverse else if response > 0 then Forward else Coast
  }

  function Duty(response: int): (duty: nat)
    ensures duty <= 255
  {
    var magnitude := if response < 0 then -response else response;
    var contrib := if magnitude < 1024 then magnitude / 4 else 255;
    if response == 0 then 0 else if BASE_PWM + contrib < 255 then BASE_PWM + contrib else 255
  }

  function Magnitude(response: int): nat {
    if response < 0 then -response else response
  }

  /** No drive without a response; otherwise the base duty and one more for every four units, up to the full duty. */
  lemma DutyGrows(r: int, s: int)
    requires Magnitude(r) <= Magnitude(s)
    ensures Duty(r) <= Duty(s) && (Duty(r) == 0 <==> r == 0) && (r != 0 ==> BASE_PWM <= Duty(r))
    ensures Duty(r) == 255 <==> Magnitude(r) >= 4 * (255 - BASE_PWM)
    ensures 0 < Magnitude(r) < 4 * (255 - BASE_PWM) ==> 0 <= Magnitude(r) - 4 * (Duty(r) - BASE_PWM) < 4
  {
  }

  class PidController {
    var pvPrev0: int
    var pvPrev1: int
    var counter: nat
    var stabilityCounter: nat

    predicate Valid()
      reads this
    {
      View().Ok()
    }

    function View(): State
      reads this
    {
      State(counter, pvPrev0, pvPrev1, stabilityCounter)
    }

    constructor ()
      ensures Valid() && View() == RESET
    {
      pvPrev0, pvPrev1, counter, stabilityCounter := 0, 0, 0, 0;
    }

    /** The combinational outputs. */
    method Drive(g: Gains, pv: int) returns (response: int, stable: bool, dir: Mode, duty: nat)
      requires Valid()
      ensures response == Response(View(), g, pv) && stable == View().Stable()
      ensures dir == Direction(response) && duty == Duty(response)
    {
      var error := Signed32(g.setpoint - pv);
      var pTerm := Signed32(g.kp * error / 0x1_0000);
      var delta := Signed32(pvPrev0 - pvPrev1) / Power2(g.rate);
      var dTerm := Signed32(delta * g.kd / 0x1_0000);
      response := Signed32(pTerm - dTerm);
      stable := stabilityCounter == MIN_PERIOD_FOR_STABILITY - 1;
      var magnitude: nat := if response < 0 then -response else response;
      var contrib := if magnitude < 1024 then magnitude / 4 else 255;
      var val := BASE_PWM + contrib;
      duty := if val < 255 then val else 255;
      if response < 0 {
        dir := Reverse;
      } else if response > 0 {
        dir := Forward;
      } else {
        dir := Coast;
        duty := 0;
      }
    }

    method Clock(g: Gains, pv: int)
      requires Valid()
      modifies this
      ensures Valid() && View() == Step(old(View()), g, pv)
    {
      var response, stable, _, _ := Drive(g, pv);
      if counter == Limit(g.rate) {
        counter := 0;
        pvPrev0, pvPrev1 := pv, pvPrev0;
      } else {
        counter := if counter == 0x3FF_FFFF then 0 else counter + 1;
      }
      if response == 0 {
        if !stable {
          stabilityCounter := stabilityCounter + 1;
        }
      } else {
        stabilityCounter := 0;
      }
    }
  }

  // ----- stability -----

  /** What one clock sees. */
  datatype Sight = Sight(gains: Gains, pv: int)

  function After(sights: seq<Sight>, n: nat): (s: State)
    requires n <= |sights|
    ensures s.Ok()
  {
    if n == 0 then RESET else Step(After(sights, n - 1), sights[n - 1].gains, sights[n - 1].pv)
  }

  predicate ZeroAt(sights: seq<Sight>, n: nat)
    requires n < |sights|
  {
    Response(After(sights, n), sights[n].gains, sights[n].pv) == 0
  }

  /** The number of consecutive zero-response clocks that end with clock `n - 1`. */
  function ZeroRun(sights: seq<Sight>, n: nat): (run: nat)
    requires n <= |sights|
    ensures run <= n && forall i: nat :: n - run <= i < n ==> ZeroAt(sights, i)
    ensures run < n ==> !ZeroAt(sights, n - run - 1)
  {
    if n == 0 || !ZeroAt(sights, n - 1) then 0 else ZeroRun(sights, n - 1) + 1
  }

  /** The counter saturates at the run length; the axis is stable exactly after a long enough run. */
  lemma {:induction false} StabilityCountsRun(sights: seq<Sight>, n: nat)
    requires n <= |sights|
    ensures var run := ZeroRun(sights, n);
            && After(sights, n).stability
               == (if run < MIN_PERIOD_FOR_STABILITY - 1 then run else MIN_PERIOD_FOR_STABILITY - 1)
            && (After(sights, n).Stable() <==> run >= MIN_PERIOD_FOR_STABILITY - 1)
  {
    hide Response, Samples;
    if n > 0 {
      StabilityCountsRun(sights, n - 1);
    }
  }

  /** The stable line rises exactly when the run reaches the stability period. */
  lemma StableRises(sights: seq<Sight>, n: nat)
    requires n <= |sights|
    ensures After(sights, n).Stable() && (n == 0 || !After(sights, n - 1).Stable())
            <==> ZeroRun(sights, n) == MIN_PERIOD_FOR_STABILITY - 1
  {
    hide After, ZeroAt;
    StabilityCountsRun(sights, n);
    if n > 0 {
      StabilityCountsRun(sights, n - 1);
    }
  }

  // ----- what the response is -----

  /** What the two gains ask for, without any loss of bits: scaled error less scaled motion between the samples. */
  function Due(s: State, g: Gains, pv: int): int {
    g.kp * (g.setpoint - pv) / 0x1_0000 - g.kd * Motion(s, g.rate) / 0x1_0000
  }

  function Motion(s: State, rate: nat): int {
    (s.prev0 - s.prev1) / Power2(rate)
  }

  /** What an error outside 32 bits adds: a whole turn, scaled by the gain. */
  function LostError(g: Gains, pv: int): int {
    var e := g.setpoint - pv;
    (if e > MAX32 then -g.kp else if e < MIN32 then g.kp else 0) * 0x1_0000
  }

  /** What a difference of samples outside 32 bits adds, shifted and scaled. */
  function LostMotion(s: State, g: Gains): int {
    g.kd * Motion(s, g.rate) / 0x1_0000 - g.kd * Delta(s, g.rate) / 0x1_0000
  }

  lemma NoneLost(s: State, g: Gains, pv: int)
    ensures Fits32(g.setpoint - pv) ==> LostError(g, pv) == 0
    ensures Fits32(s.prev0 - s.prev1) ==> LostMotion(s, g) == 0
  {
    if Fits32(s.prev0 - s.prev1) {
      Unchanged(s.prev0 - s.prev1);
    }
  }

  /** For any gains: the response is the low 32 bits of what is due plus what wrapping has added. */
  lemma ResponseIsScaled(s: State, g: Gains, pv: int)
    requires Fits32(g.setpoint) && Fits32(pv)
    ensures Response(s, g, pv) == Signed32(Due(s, g, pv) + LostError(g, pv) + LostMotion(s, g))
  {
    var e := g.setpoint - pv;
    hide Signed32;
    var scaled, damping := g.kp * Signed32(e) / 0x1_0000, g.kd * Delta(s, g.rate) / 0x1_0000;
    ScaledError(g, pv);
    WrapOnce(scaled, damping);
    assert Delta(s, g.rate) * g.kd == g.kd * Delta(s, g.rate);
    assert Response(s, g, pv) == Signed32(scaled - damping);
    hide Delta, Motion;
  }

  lemma ScaledError(g: Gains, pv: int)
    requires Fits32(g.setpoint) && Fits32(pv)
    ensures g.kp * Signed32(g.setpoint - pv) / 0x1_0000 == g.kp * (g.setpoint - pv) / 0x1_0000 + LostError(g, pv)
  {
    var e := g.setpoint - pv;
    if Fits32(e) {
      Unchanged(e);
    } else {
      var shift := if e > MAX32 then -g.kp else g.kp;
      OneTurn(e);
      hide Signed32;
      WrappedProduct(g.kp, e, Signed32(e));
      ShiftedQuotient(g.kp * e, shift);
    }
  }

  lemma OneTurn(e: int)
    requires !Fits32(e) && -0xFFFF_FFFF <= e <= 0xFFFF_FFFF
    ensures Signed32(e) == if e > MAX32 then e - 0x1_0000_0000 else e + 0x1_0000_0000
  {
  }

  lemma WrappedProduct(kp: int, e: int, wrapped: int)
    ensures wrapped == e - 0x1_0000_0000 ==> kp * wrapped == kp * e + -kp * 0x1_0000_0000
    ensures wrapped == e + 0x1_0000_0000 ==> kp * wrapped == kp * e + kp * 0x1_0000_0000
  {
  }

  lemma ShiftedQuotient(product: int, shift: int)
    ensures (product + shift * 0x1_0000_0000) / 0x1_0000 == product / 0x1_0000 + shift * 0x1_0000
  {
  }

  lemma SameLowBits(x: int, added: int)
    ensures Signed32(x + added) == x <==> Fits32(x) && added % 0x1_0000_0000 == 0
  {
    Congruent(x + added);
    if Fits32(x) && added % 0x1_0000_0000 == 0 {
      Shift(x, added / 0x1_0000_0000);
      Unchanged(x);
    }
  }

  /**
   For all gains and samples and all 32-bit set points and positions: the response is what is due exactly if that
   fits in 32 bits and what wrapping has added is a multiple of 2^32. While neither the error nor the motion
   wraps, it is what is due exactly if that fits.
   */
  lemma ExactResponse(s: State, g: Gains, pv: int)
    requires Fits32(g.setpoint) && Fits32(pv)
    ensures Response(s, g, pv) == Due(s, g, pv)
            <==> Fits32(Due(s, g, pv)) && (LostError(g, pv) + LostMotion(s, g)) % 0x1_0000_0000 == 0
    ensures Fits32(g.setpoint - pv) && Fits32(s.prev0 - s.prev1) ==>
              (Response(s, g, pv) == Due(s, g, pv) <==> Fits32(Due(s, g, pv)))
  {
    hide Response, Due, LostError, LostMotion, Signed32;
    ResponseIsScaled(s, g, pv);
    var due, lost := Due(s, g, pv), LostError(g, pv) + LostMotion(s, g);
    assert due + LostError(g, pv) + LostMotion(s, g) == due + lost;
    SameLowBits(due, lost);
    NoneLost(s, g, pv);
  }

  /** An error that wraps does no harm exactly if the proportional gain is a whole number. */
  lemma WrappedError(s: State, g: Gains, pv: int)
    requires Fits32(g.setpoint) && Fits32(pv) && !Fits32(g.setpoint - pv) && Fits32(s.prev0 - s.prev1)
    ensures Response(s, g, pv) == Due(s, g, pv) <==> Fits32(Due(s, g, pv)) && g.kp % 0x1_0000 == 0
  {
    hide Response, Due, LostMotion;
    ExactResponse(s, g, pv);
    NoneLost(s, g, pv);
    WholeTurns(g.kp);
    WholeTurns(-g.kp);
  }

  lemma WholeTurns(k: int)
    ensures k * 0x1_0000 % 0x1_0000_0000 == 0 <==> k % 0x1_0000 == 0
    ensures -k % 0x1_0000 == 0 <==> k % 0x1_0000 == 0
  {
  }

  /**
   The same for the direction, overflow or not: the motor is driven the way it is due exactly if the low 32 bits
   are zero when nothing is due, and otherwise not zero and in the half of their range that stands for the sign.
   */
  lemma DirectionExact(s: State, g: Gains, pv: int)
    requires Fits32(g.setpoint) && Fits32(pv)
    ensures var due := Due(s, g, pv);
            var low := (due + LostError(g, pv) + LostMotion(s, g)) % 0x1_0000_0000;
            Direction(Response(s, g, pv)) == Direction(due)
            <==> (due == 0 <==> low == 0) && (due != 0 ==> (due > 0 <==> low <= MAX32))
  {
    hide Response, Due, LostError, LostMotion;
    ResponseIsScaled(s, g, pv);
  }

  /** The premise matters: a gain of two and an error of 2^30 ticks drive the motor the wrong way. */
  lemma OverflowReverses()
    ensures Direction(Response(RESET, Gains(0x2_0000, 0, 0, 0x4000_0000), 0)) == Reverse
  {
    assert PTerm(Gains(0x2_0000, 0, 0, 0x4000_0000), 0) == MIN32;
  }

  // ----- the two terms alone -----

  /** Neither the error nor the scaled term leaves 32 bits. */
  predicate NoOverflow(g: Gains, pv: int) {
    Fits32(g.setpoint - pv) && -0x8000_0000_0000 <= g.kp * (g.setpoint - pv) < 0x8000_0000_0000
  }

  /** With no derivative gain the response is zero exactly in the band, and otherwise points toward it. */
  lemma ProportionalBand(s: State, g: Gains, pv: int)
    requires g.kd == 0 && NoOverflow(g, pv)
    ensures var push := g.kp * (g.setpoint - pv);
            && (Response(s, g, pv) == 0 <==> 0 <= push < 0x1_0000)
            && (Direction(Response(s, g, pv)) == Forward <==> push >= 0x1_0000)
            && (Direction(Response(s, g, pv)) == Reverse <==> push < 0)
  {
    var push := g.kp * (g.setpoint - pv);
    Unchanged(g.setpoint - pv);
    assert MIN32 <= push / 0x1_0000 <= MAX32;
    Unchanged(push / 0x1_0000);
    assert DTerm(s, g) == 0 by {
      assert Delta(s, g.rate) * g.kd == 0;
      Unchanged(0);
    }
  }

  /** Neither the motion nor the negative of its scaled term leaves 32 bits. */
  predicate NoMotionOverflow(s: State, g: Gains) {
    Fits32(s.prev0 - s.prev1) && -0x7FFF_FFFF_0000 <= g.kd * Motion(s, g.rate) < 0x8000_0001_0000
  }

  /** With no proportional term the response opposes the motion between the samples, or is zero in the band. */
  lemma DampingBand(s: State, g: Gains, pv: int)
    requires Fits32(g.setpoint) && Fits32(pv) && g.kp * (g.setpoint - pv) == 0 && NoMotionOverflow(s, g)
    requires Fits32(g.setpoint - pv)
    ensures var pull := g.kd * Motion(s, g.rate);
            && (Response(s, g, pv) == 0 <==> 0 <= pull < 0x1_0000)
            && (Direction(Response(s, g, pv)) == Reverse <==> pull >= 0x1_0000)
            && (Direction(Response(s, g, pv)) == Forward <==> pull < 0)
  {
    ExactResponse(s, g, pv);
    hide Response, Motion;
  }
}
