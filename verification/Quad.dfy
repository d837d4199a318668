/** The quadrature decoder against the simulation's phase generator. */
module Quad {
  import opened Obi
  import opened Fixed
  import opened Arithmetic

  // ----- generator -----

  datatype Phase = ABZero | AB | BA | ABOne

  datatype Injector = Injector(phase: Phase, ticks: nat)

  const INJECTOR_RESET := Injector(ABZero, 0)

  function Forward(p: Phase): Phase {
    match p
    case ABZero => AB
    case AB => ABOne
    case ABOne => BA
    case BA => ABZero
  }

  function Backward(p: Phase): Phase {
    match p
    case ABZero => BA
    case BA => ABOne
    case ABOne => AB
    case AB => ABZero
  }

  predicate PinA(p: Phase) {
    p.AB? || p.ABOne?
  }

  predicate PinB(p: Phase) {
    p.BA? || p.ABOne?
  }

  /** The 64-bit call counter. */
  function NextTicks(ticks: nat): nat {
    if ticks >= 0xFFFF_FFFF_FFFF_FFFF then 0 else ticks + 1
  }

  predicate Due(i: Injector, threshold: nat) {
    NextTicks(i.ticks) >= threshold
  }

  function Increase(i: Injector, threshold: nat): Injector {
    if Due(i, threshold) then Injector(Forward(i.phase), 0) else i.(ticks := NextTicks(i.ticks))
  }

  function Decrease(i: Injector, threshold: nat): Injector {
    if Due(i, threshold) then Injector(Backward(i.phase), 0) else i.(ticks := NextTicks(i.ticks))
  }

  class QuadInjector {
    var phase: Phase
    var ticks: nat

    function State(): Injector
      reads this
    {
      Injector(phase, ticks)
    }

    constructor ()
      ensures State() == INJECTOR_RESET
    {
      phase, ticks := ABZero, 0;
    }

    method Reset()
      modifies this
      ensures State() == INJECTOR_RESET
    {
      phase, ticks := ABZero, 0;
    }

    method IncreaseTicks(ticksForNext: nat)
      modifies this
      ensures State() == Increase(old(State()), ticksForNext)
    {
      ticks := NextTicks(ticks);
      if ticks >= ticksForNext {
        ticks := 0;
        match phase {
          case ABZero => phase := AB;
          case AB => phase := ABOne;
          case ABOne => phase := BA;
          case BA => phase := ABZero;
        }
      }
    }

    method DecreaseTicks(ticksForNext: nat)
      modifies this
      ensures State() == Decrease(old(State()), ticksForNext)
    {
      ticks := NextTicks(ticks);
      if ticks >= ticksForNext {
        ticks := 0;
        match phase {
          case ABZero => phase := BA;
          case BA => phase := ABOne;
          case ABOne => phase := AB;
          case AB => phase := ABZero;
        }
      }
    }
  }

  // ----- decoder -----

  datatype Lead = AbZero | ALeadsB | AbOne | BLeadsA

  datatype Decoder = Decoder(a0: bool, a1: bool, b0: bool, b1: bool, lead: Lead, position: int)

  const DECODER_RESET := Decoder(false, false, false, false, AbZero, 0)

  /** The state machine's table: the next state and the tick; two-step jumps fall to the default row. */
  function Table(lead: Lead, a: bool, b: bool): (Lead, int) {
    match (lead, a, b)
    case (AbZero, false, false) => (AbZero, 0)
    case (AbZero, true, false) => (ALeadsB, 1)
    case (AbZero, false, true) => (BLeadsA, -1)
    case (ALeadsB, false, false) => (AbZero, -1)
    case (ALeadsB, true, false) => (ALeadsB, 0)
    case (ALeadsB, true, true) => (AbOne, 1)
    case (BLeadsA, false, false) => (AbZero, 1)
    case (BLeadsA, false, true) => (BLeadsA, 0)
    case (BLeadsA, true, true) => (AbOne, -1)
    case (AbOne, true, true) => (AbOne, 0)
    case (AbOne, true, false) => (ALeadsB, -1)
    case (AbOne, false, true) => (BLeadsA, 1)
    case _ => (AbZero, 0)
  }

  function DecoderStep(d: Decoder, clr: bool, a: bool, b: bool): Decoder {
    var (lead, tick) := Table(d.lead, d.a0, d.b0);
    Decoder(d.a1, a, d.b1, b, lead, if clr then 0 else Signed32(d.position + tick))
  }

  class QuadDecoder {
    var aLatch0: bool
    var aLatch1: bool
    var bLatch0: bool
    var bLatch1: bool
    var lead: Lead
    var tickPosition: int

    function State(): Decoder
      reads this
    {
      Decoder(aLatch0, aLatch1, bLatch0, bLatch1, lead, tickPosition)
    }

    constructor ()
      ensures State() == DECODER_RESET
    {
      aLatch0, aLatch1, bLatch0, bLatch1, lead, tickPosition := false, false, false, false, AbZero, 0;
    }

    method Clock(clr: bool, a: bool, b: bool)
      modifies this
      ensures State() == DecoderStep(old(State()), clr, a, b)
    {
      var (nextLead, tickVal) := Table(lead, aLatch0, bLatch0);
      aLatch0, aLatch1 := aLatch1, a;
      bLatch0, bLatch1 := bLatch1, b;
      lead := nextLead;
      if clr {
        tickPosition := 0;
      } else {
        tickPosition := Signed32(tickPosition + tickVal);
      }
    }
  }

  // ----- the two together -----

  /** The calls made before one clock, increase first, and the decoder's clear line. */
  datatype Input = Input(increase: Option<nat>, decrease: Option<nat>, clr: bool)

  function Calls(i: Injector, input: Input): Injector {
    var up := if input.increase.Some? then Increase(i, input.increase.value) else i;
    if input.decrease.Some? then Decrease(up, input.decrease.value) else up
  }

  /** Forward steps less backward steps. */
  function Moved(i: Injector, input: Input): int {
    var up := if input.increase.Some? then Increase(i, input.increase.value) else i;
    (if input.increase.Some? && Due(i, input.increase.value) then 1 else 0)
    - (if input.decrease.Some? && Due(up, input.decrease.value) then 1 else 0)
  }

  function InjectorAfter(inputs: seq<Input>, n: nat): Injector
    requires n <= |inputs|
  {
    if n == 0 then INJECTOR_RESET else Calls(InjectorAfter(inputs, n - 1), inputs[n - 1])
  }

  function DecoderAfter(inputs: seq<Input>, n: nat): Decoder
    requires n <= |inputs|
  {
    if n == 0 then DECODER_RESET
    else
      var p := InjectorAfter(inputs, n).phase;
      DecoderStep(DecoderAfter(inputs, n - 1), inputs[n - 1].clr, PinA(p), PinB(p))
  }

  /** Net steps made by the calls of the first `n` clocks. */
  function Net(inputs: seq<Input>, n: nat): int
    requires n <= |inputs|
  {
    if n == 0 then 0 else Net(inputs, n - 1) + Moved(InjectorAfter(inputs, n - 1), inputs[n - 1])
  }

  /** The net steps `lag` clocks ago. */
  function Ago(inputs: seq<Input>, n: nat, lag: nat): int
    requires n <= |inputs|
  {
    if n < lag then 0 else Net(inputs, n - lag)
  }

  /** The count that the latest clear made zero; a step that reaches the counter in the same clock is absorbed. */
  function Origin(inputs: seq<Input>, n: nat): int
    requires n <= |inputs|
  {
    if n == 0 then 0 else if inputs[n - 1].clr then Ago(inputs, n, 2) else Origin(inputs, n - 1)
  }

  function PhaseAt(net: int): Phase {
    if net % 4 == 0 then ABZero else if net % 4 == 1 then AB else if net % 4 == 2 then ABOne else BA
  }

  function LeadAt(net: int): Lead {
    if net % 4 == 0 then AbZero else if net % 4 == 1 then ALeadsB else if net % 4 == 2 then AbOne else BLeadsA
  }

  lemma TableFollows(was: int, now: int)
    requires was - 1 <= now <= was + 1
    ensures Table(LeadAt(was), PinA(PhaseAt(now)), PinB(PhaseAt(now))) == (LeadAt(now), now - was)
  {
  }

  /** The position in the Gray cycle that the pins show. */
  function Shown(a: bool, b: bool): nat {
    if !a && !b then 0 else if a && !b then 1 else if a && b then 2 else 3
  }

  function Place(lead: Lead): nat {
    match lead
    case AbZero => 0
    case ALeadsB => 1
    case AbOne => 2
    case BLeadsA => 3
  }

  /**
   For any pins: the state follows the pins and counts the way it went if they are at most one place apart; a jump
   of two places is not counted and puts the state at zero, from where it is right in the next clock unless the
   pins are both high.
   */
  lemma AnyPins(lead: Lead, a: bool, b: bool)
    ensures var (next, tick), ahead := Table(lead, a, b), (Shown(a, b) + 4 - Place(lead)) % 4;
            && tick == (if ahead == 1 then 1 else if ahead == 3 then -1 else 0)
            && Place(next) == (if ahead == 2 then 0 else Shown(a, b))
            && (ahead == 2 ==> (Place(Table(next, a, b).0) == Shown(a, b) <==> !(a && b)))
  {
  }

  function Increased(i: Injector, threshold: nat, n: nat): Injector {
    if n == 0 then i else Increase(Increased(i, threshold, n - 1), threshold)
  }

  function Decreased(i: Injector, threshold: nat, n: nat): Injector {
    if n == 0 then i else Decrease(Decreased(i, threshold, n - 1), threshold)
  }

  /** With one threshold, every so many calls make one step, forward or backward, whatever was counted before. */
  lemma {:induction false} CallsPerStep(i: Injector, threshold: nat, net: int, n: nat)
    requires i.ticks < threshold <= 0xFFFF_FFFF_FFFF_FFFF && i.phase == PhaseAt(net)
    ensures var calls := i.ticks + n;
            && Increased(i, threshold, n) == Injector(PhaseAt(net + calls / threshold), calls % threshold)
            && Decreased(i, threshold, n) == Injector(PhaseAt(net - calls / threshold), calls % threshold)
  {
    if n == 0 {
      Quotient(i.ticks, threshold, 0, i.ticks);
    } else {
      CallsPerStep(i, threshold, net, n - 1);
      var calls := i.ticks + n - 1;
      NextQuotient(calls, threshold);
      OneStep(Increased(i, threshold, n - 1), threshold, net + calls / threshold);
      OneStep(Decreased(i, threshold, n - 1), threshold, net - calls / threshold);
      hide Increase, Decrease, PhaseAt;
    }
  }

  lemma OneStep(i: Injector, threshold: nat, net: int)
    requires i.ticks < threshold <= 0xFFFF_FFFF_FFFF_FFFF && i.phase == PhaseAt(net)
    ensures Increase(i, threshold)
            == if i.ticks + 1 == threshold then Injector(PhaseAt(net + 1), 0) else i.(ticks := i.ticks + 1)
    ensures Decrease(i, threshold)
            == if i.ticks + 1 == threshold then Injector(PhaseAt(net - 1), 0) else i.(ticks := i.ticks + 1)
  {
  }

  /** Slow enough calls make at most one Gray step a clock, even with one call in each direction. */
  lemma OneStepPerClock(i: Injector, input: Input)
    requires input.increase.Some? ==> input.increase.value >= 2
    requires input.decrease.Some? ==> input.decrease.value >= 2
    ensures input.increase.Some? && input.decrease.Some? && Due(i, input.increase.value)
            ==> !Due(Increase(i, input.increase.value), input.decrease.value)
    ensures Calls(i, input).phase in {i.phase, Forward(i.phase), Backward(i.phase)}
  {
  }

  lemma {:induction false} InjectorFollows(inputs: seq<Input>, n: nat)
    requires n <= |inputs|
    ensures InjectorAfter(inputs, n).phase == PhaseAt(Net(inputs, n))
    ensures n > 0 ==> Net(inputs, n - 1) - 1 <= Net(inputs, n) <= Net(inputs, n - 1) + 1
  {
    if n > 0 {
      InjectorFollows(inputs, n - 1);
    }
  }

  /** The decoder's pipeline holds the last three counts. */
  lemma {:induction false} PipelineFollows(inputs: seq<Input>, n: nat)
    requires n <= |inputs|
    ensures var d := DecoderAfter(inputs, n);
            && d.a1 == PinA(PhaseAt(Ago(inputs, n, 0))) && d.b1 == PinB(PhaseAt(Ago(inputs, n, 0)))
            && d.a0 == PinA(PhaseAt(Ago(inputs, n, 1))) && d.b0 == PinB(PhaseAt(Ago(inputs, n, 1)))
            && d.lead == LeadAt(Ago(inputs, n, 2))
  {
    hide Signed32, InjectorAfter, Table;
    StartsAtZero(inputs);
    if n > 0 {
      PipelineFollows(inputs, n - 1);
      InjectorFollows(inputs, n);
      CloseCounts(inputs, n - 1);
      TableFollows(Ago(inputs, n - 1, 2), Ago(inputs, n - 1, 1));
    }
  }

  lemma StartsAtZero(inputs: seq<Input>)
    ensures PinA(PhaseAt(0)) == PinB(PhaseAt(0)) == false && LeadAt(0) == AbZero && Net(inputs, 0) == 0
  {
  }

  lemma CloseCounts(inputs: seq<Input>, n: nat)
    requires n <= |inputs|
    ensures Ago(inputs, n, 2) - 1 <= Ago(inputs, n, 1) <= Ago(inputs, n, 2) + 1
  {
    if n >= 1 {
      InjectorFollows(inputs, n - 1);
    }
  }

  /** One clock adds the difference of two successive counts. */
  lemma StepAdds(d: Decoder, clr: bool, a: bool, b: bool, was: int, now: int, origin: int)
    requires was - 1 <= now <= was + 1 && d.lead == LeadAt(was)
    requires d.a0 == PinA(PhaseAt(now)) && d.b0 == PinB(PhaseAt(now)) && d.position == Signed32(was - origin)
    ensures DecoderStep(d, clr, a, b).position == Signed32(now - if clr then now else origin)
  {
    TableFollows(was, now);
    WrapOnce(was - origin, now - was);
    hide Table, PinA, PinB, PhaseAt, LeadAt;
    Unchanged(0);
  }

  /**
   For every interleaving of calls, with any thresholds, and any clears: the position is the net count of two
   clocks ago measured from the last clear, as a signed 32-bit number.
   */
  lemma {:induction false} PositionTracksNet(inputs: seq<Input>, n: nat)
    requires n <= |inputs|
    ensures DecoderAfter(inputs, n).position == Signed32(Ago(inputs, n, 2) - Origin(inputs, n))
  {
    hide Table, Signed32, PinA, PinB, PhaseAt, LeadAt, DecoderStep, Net;
    if n == 0 {
      Unchanged(0);
    } else {
      PositionTracksNet(inputs, n - 1);
      PipelineFollows(inputs, n - 1);
      CloseCounts(inputs, n - 1);
      var p := InjectorAfter(inputs, n).phase;
      StepAdds(DecoderAfter(inputs, n - 1), inputs[n - 1].clr, PinA(p), PinB(p),
               Ago(inputs, n - 1, 2), Ago(inputs, n - 1, 1), Origin(inputs, n - 1));
    }
  }

  /** Whatever the pins do, one clock moves the position at most one tick unless it is cleared. */
  function Tick(d: Decoder): (tick: int)
    ensures -1 <= tick <= 1
    ensures forall a: bool, b: bool :: DecoderStep(d, false, a, b).position == Signed32(d.position + tick)
  {
    Table(d.lead, d.a0, d.b0).1
  }
}
