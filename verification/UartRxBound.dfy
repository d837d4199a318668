/**
 Why the receiver needs 25 clocks per bit. A single zero byte, sent while a stale baud counter is out of the
 way, is enough: below 25 its last bit is sampled after the serializer has gone on to the stop bit.
 */
module UartRxBound {
  import opened Obi
  import opened Bits
  import opened UartSpec
  import opened SimUart
  import opened UartRx

  /** Whatever is offered and read, from whatever stale counter: what completes is a prefix of what was sent. */
  ghost predicate InOrder(bit: nat, capacity: nat) {
    forall k: Link, events: seq<Event> :: Quiet(k) ==> RunsInOrder(k, bit, capacity, events)
  }

  ghost predicate RunsInOrder(k: Link, bit: nat, capacity: nat, events: seq<Event>) {
    k.Ok() && Run(k, bit, capacity, events, |events|).landed <= Run(k, bit, capacity, events, |events|).taken
  }

  // ----- the run that fails -----

  /** An idle link whose baud counter is past its period. */
  function Stale(bit: nat): Link {
    Link(INJECTOR_RESET, Rx(Idle, bit, false, true, true, CLEAR, 0, []), [], [], [], [])
  }

  /** One zero byte and nothing else. */
  function ZeroByte(n: nat): (events: seq<Event>)
    ensures |events| == n && forall i :: 0 <= i < n ==> events[i] == Event(if i == 0 then Some(CLEAR) else None, false)
  {
    seq(n, i => Event(if i == 0 then Some(CLEAR) else None, false))
  }

  /** `n` parts of `width` clocks, for the ten parts of a frame. */
  function Parts(n: nat, width: nat): nat {
    if n == 0 then 0 else if n == 1 then width else if n == 2 then 2 * width else if n == 3 then 3 * width
    else if n == 4 then 4 * width else if n == 5 then 5 * width else if n == 6 then 6 * width
    else if n == 7 then 7 * width else if n == 8 then 8 * width else if n == 9 then 9 * width else 10 * width
  }

  /** The first clock of the receiver's first full bit; with two clocks per bit it takes a sample too early. */
  function FirstBit(bit: nat): nat {
    if bit == 2 then 5 else bit / 2 + 6
  }

  /** The injector `n` clocks after the byte was offered. */
  predicate Sending(inj: Injector, n: nat, bit: nat)
    requires bit > 0
  {
    && InjectorOk(inj) && !inj.ready && inj.data == CLEAR
    && if inj.phase.Idle? then n > 10 * (bit - 1)
       else Parts(Slot(inj), bit - 1) + inj.ticks + 1 == n && inj.ticks < bit - 1
  }

  /** The pin in clock `n`: low for nine parts of the frame. */
  predicate PinHigh(n: nat, bit: nat) {
    n == 0 || n >= 9 * (bit - 1)
  }

  /** The receiver `n` clocks after the byte was offered, until the byte has completed. */
  predicate Receiving(rx: Rx, n: nat, bit: nat) {
    && rx.Ok() && (rx.sync1 <==> n == 0 || PinHigh(n - 1, bit)) && (rx.sync0 <==> n <= 1 || PinHigh(n - 2, bit))
    && if n <= 3 then rx.phase.Idle? && !rx.restart && rx.counter == bit + n
       else if n == 4 then rx.phase.Start? && rx.restart && rx.counter == bit + 4
       else if n <= bit / 2 + 4 then rx.phase.Start? && !rx.restart && rx.counter == n - 5
       else if n == bit / 2 + 5 then rx.phase.Data? && rx.restart && rx.count == 0 && rx.counter == bit / 2
       else if n < FirstBit(bit) + 8 * bit then
         && rx.phase.Data? && !rx.restart && rx.counter < bit
         && n == FirstBit(bit) + Parts(rx.count, bit) + rx.counter
       else n < FirstBit(bit) + 9 * bit ==>
         rx.phase.Stop? && !rx.restart && n == FirstBit(bit) + 8 * bit + rx.counter && rx.collecting[7]
  }

  lemma SendingStays(inj: Injector, n: nat, bit: nat)
    requires 2 <= bit && 0 < n && Sending(inj, n, bit)
    ensures var (inj', line) := InjectorTick(inj, bit);
            Sending(inj', n + 1, bit) && (line <==> PinHigh(n, bit))
  {
  }

  lemma ReceivingStays(rx: Rx, n: nat, bit: nat, capacity: nat, line: bool)
    requires 2 <= bit < MIN_BIT && n < FirstBit(bit) + 9 * bit && Receiving(rx, n, bit) && (line <==> PinHigh(n, bit))
    ensures Receiving(RxStep(rx, bit, capacity, line, false), n + 1, bit)
    ensures RxLands(rx, bit) <==> n == FirstBit(bit) + 9 * bit - 1
  {
  }

  ghost predicate Failing(k: Link, n: nat, bit: nat)
    requires bit > 0
  {
    && (if n == 0 then k.inj == INJECTOR_RESET else Sending(k.inj, n, bit)) && Receiving(k.rx, n, bit)
    && k.taken == (if n == 0 then [] else [CLEAR])
    && if n < FirstBit(bit) + 9 * bit then k.landed == [] else |k.landed| == 1 && k.landed[0][7]
  }

  lemma FailingStays(k: Link, n: nat, bit: nat, capacity: nat)
    requires 2 <= bit < MIN_BIT && n < FirstBit(bit) + 9 * bit && Failing(k, n, bit)
    ensures Failing(LinkStep(k, bit, capacity, Event(if n == 0 then Some(CLEAR) else None, false)), n + 1, bit)
  {
    var e := Event(if n == 0 then Some(CLEAR) else None, false);
    var line := InjectorTick(Driven(k.inj, e), bit).1;
    if n == 0 {
      FirstTick(bit);
    } else {
      SendingStays(k.inj, n, bit);
    }
    LandsHigh(k.rx, n, bit);
    hide InjectorTick, Sending, Receiving, RxStep, PinHigh, RxLands, FirstBit;
    ReceivingStays(k.rx, n, bit, capacity, line);
  }

  lemma FirstTick(bit: nat)
    requires 2 <= bit
    ensures var (inj, line) := InjectorTick(Offered(INJECTOR_RESET, CLEAR), bit);
            Sending(inj, 1, bit) && line && PinHigh(0, bit) && Takes(INJECTOR_RESET)
  {
  }

  lemma LandsHigh(rx: Rx, n: nat, bit: nat)
    requires 2 <= bit && Receiving(rx, n, bit)
    ensures n == FirstBit(bit) + 9 * bit - 1 ==> rx.collecting[7]
  {
  }

  lemma {:induction false} RunFails(bit: nat, capacity: nat, events: seq<Event>, n: nat)
    requires 2 <= bit < MIN_BIT && n <= |events| <= FirstBit(bit) + 9 * bit && events == ZeroByte(|events|)
    ensures Failing(Run(Stale(bit), bit, capacity, events, n), n, bit)
  {
    hide LinkStep, FirstBit;
    if n == 0 {
      StartsIdle(bit);
    } else {
      RunFails(bit, capacity, events, n - 1);
      hide Failing;
      FailingStays(Run(Stale(bit), bit, capacity, events, n - 1), n - 1, bit, capacity);
    }
  }

  lemma StartsIdle(bit: nat)
    requires 2 <= bit
    ensures Stale(bit).Ok() && Quiet(Stale(bit)) && Failing(Stale(bit), 0, bit)
  {
  }

  /** From two clocks per bit up to 24 the zero byte comes out with its last bit set. */
  lemma LastBitMissed(bit: nat, capacity: nat)
    requires 2 <= bit < MIN_BIT
    ensures var events := ZeroByte(FirstBit(bit) + 9 * bit);
            var k := Run(Stale(bit), bit, capacity, events, |events|);
            Quiet(Stale(bit)) && k.taken == [CLEAR] && |k.landed| == 1 && k.landed[0][7]
  {
    StartsIdle(bit);
    var events := ZeroByte(FirstBit(bit) + 9 * bit);
    RunFails(bit, capacity, events, |events|);
    hide Run, Sending, Receiving, FirstBit;
  }

  // ----- rates at which no bit ever ends -----

  /** With one clock per bit or none the serializer never gets past its start bit. */
  predicate Stuck(k: Link) {
    && k.Ok() && k.landed == [] && !k.inj.ready
    && (k.inj.phase.Idle? ==> k.rx.phase.Idle? && k.rx.sync0 && k.rx.sync1)
    && (k.inj.phase.Idle? || k.inj.phase.Start?)
    && (k.inj.phase.Start? && k.inj.ticks <= 1 ==> k.rx.phase.Idle? && k.rx.sync0 && (k.rx.sync1 <==> k.inj.ticks == 0))
    && (k.inj.phase.Start? && k.inj.ticks >= 2 ==> !k.rx.sync0 && !k.rx.sync1)
  }

  lemma StuckStays(k: Link, bit: nat, capacity: nat, e: Event)
    requires bit <= 1 && Stuck(k)
    ensures Stuck(LinkStep(k, bit, capacity, e))
  {
    hide SetBit;
  }

  lemma {:induction false} NothingArrives(k: Link, bit: nat, capacity: nat, events: seq<Event>, n: nat)
    requires bit <= 1 && Quiet(k) && n <= |events|
    ensures k.Ok() && Stuck(Run(k, bit, capacity, events, n))
  {
    hide LinkStep;
    if n > 0 {
      NothingArrives(k, bit, capacity, events, n - 1);
      StuckStays(Run(k, bit, capacity, events, n - 1), bit, capacity, events[n - 1]);
      hide Stuck;
    }
  }

  /**
   The bound is exact: what completes is always a prefix of what was sent if and only if there are at least 25
   clocks per bit, or so few that nothing ever completes.
   */
  lemma ExactlyFrom25(bit: nat, capacity: nat)
    requires bit <= COUNTER_MAX
    ensures InOrder(bit, capacity) <==> bit <= 1 || bit >= MIN_BIT
  {
    hide Run;
    if bit <= 1 {
      forall k: Link, events: seq<Event> | Quiet(k)
        ensures RunsInOrder(k, bit, capacity, events)
      {
        NothingArrives(k, bit, capacity, events, |events|);
      }
    } else if bit >= MIN_BIT {
      forall k: Link, events: seq<Event> | Quiet(k)
        ensures RunsInOrder(k, bit, capacity, events)
      {
        ReceivesInOrder(k, bit, capacity, events);
      }
    } else {
      LastBitMissed(bit, capacity);
      assert !RunsInOrder(Stale(bit), bit, capacity, ZeroByte(FirstBit(bit) + 9 * bit));
    }
  }
}
