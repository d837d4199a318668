/**
 The receive round trip: bytes handed to the simulation's injector come out of the receive ring.
 The injector spends `bit - 1` clocks on a bit and the receiver `bit`, two clocks behind the pin;
 a stale baud counter may even make the receiver sample in the first clock of the start bit. From
 25 clocks per bit on, every sample still falls inside its bit; `UartRxBound` shows that fewer do not do.
 */
module UartRx {
  import opened Obi
  import opened Bits
  import opened UartSpec
  import opened SimUart
  import opened Arithmetic

  const MIN_BIT := 25

  /**
   Injector and receiver with what happened so far: bytes the injector took, bytes that completed
   in the receiver, those of them that found room in the ring, bytes read from the ring.
   */
  datatype Link = Link(inj: Injector, rx: Rx, taken: seq<Byte>, landed: seq<Byte>, stored: seq<Byte>, read: seq<Byte>) {
    predicate Ok() {
      InjectorOk(inj) && rx.Ok()
    }
  }

  /** In each clock a byte may be offered to the injector and the bus may read the receive lane. */
  datatype Event = Event(offer: Option<Byte>, pop: bool)

  function Driven(inj: Injector, e: Event): Injector {
    match e.offer case None => inj case Some(b) => Offered(inj, b)
  }

  function LinkStep(k: Link, bit: nat, capacity: nat, e: Event): (k': Link)
    requires k.Ok()
    ensures k'.Ok()
  {
    var (inj, line) := InjectorTick(Driven(k.inj, e), bit);
    var lands := RxLands(k.rx, bit);
    Link(inj, RxStep(k.rx, bit, capacity, line, e.pop),
         k.taken + (if e.offer.Some? && Takes(k.inj) then [e.offer.value] else []),
         k.landed + (if lands then [k.rx.collecting] else []),
         k.stored + (if lands && |k.rx.queue| < capacity then [k.rx.collecting] else []),
         k.read + (if e.pop && k.rx.queue != [] then [k.rx.queue[0]] else []))
  }

  // ----- the line -----

  /** Which part of the frame the injector is in: 0 the start bit, 1 to 8 the data, 9 the stop bit. */
  function Slot(inj: Injector): nat {
    match inj.phase
    case Idle => 0
    case Start => 0
    case Data => 1 + inj.bit
    case Stop => 9
  }

  predicate Level(data: Byte, slot: nat) {
    if slot == 0 then false else if slot <= 8 then data[slot - 1] else true
  }

  /** The pin one clock ago: the injector switches to the next data bit one tick early. */
  predicate Pin1(inj: Injector) {
    if inj.phase.Idle? then true
    else if Slot(inj) == 0 then inj.ticks == 0
    else if Slot(inj) == 1 && inj.ticks == 0 then false
    else Level(inj.data, Slot(inj))
  }

  /** The pin two clocks ago: what the receiver sees. */
  predicate Pin2(inj: Injector) {
    if inj.phase.Idle? then true
    else if Slot(inj) == 0 then inj.ticks <= 1
    else if Slot(inj) == 1 then (if inj.ticks >= 2 then Level(inj.data, 1) else false)
    else if inj.ticks == 0 then Level(inj.data, Slot(inj) - 1)
    else Level(inj.data, Slot(inj))
  }

  /** The injector is between ticks of a frame, and the synchronizer holds the last two pin levels. */
  ghost predicate LineOk(inj: Injector, rx: Rx, bit: nat) {
    && InjectorOk(inj) && rx.Ok() && !inj.ready
    && (!inj.phase.Idle? ==> inj.ticks < bit - 1)
    && (rx.sync1 <==> Pin1(inj)) && (rx.sync0 <==> Pin2(inj))
  }

  /** Within a frame each tick advances one position, through the ten parts and back to idle. */
  ghost predicate Advances(inj: Injector, inj': Injector, bit: nat) {
    && InjectorOk(inj') && inj'.data == inj.data && inj'.ready == inj.ready
    && if inj.ticks + 1 < bit - 1 then inj'.phase == inj.phase && Slot(inj') == Slot(inj) && inj'.ticks == inj.ticks + 1
       else if inj.phase.Stop? then inj'.phase.Idle?
       else !inj'.phase.Idle? && !inj'.phase.Start? && Slot(inj') == Slot(inj) + 1 && inj'.ticks == 0
  }

  lemma TickAdvances(inj: Injector, bit: nat)
    requires InjectorOk(inj) && !inj.phase.Idle? && inj.ticks < bit - 1
    ensures Advances(inj, InjectorTick(inj, bit).0, bit)
    ensures InjectorTick(inj, bit).1
            == Level(inj.data, if 1 <= Slot(inj) <= 8 && inj.ticks + 1 == bit - 1 then Slot(inj) + 1 else Slot(inj))
  {
  }

  /** What one clock does to the injector: start a frame, wait, or advance. */
  ghost predicate Moves(inj: Injector, inj': Injector, bit: nat, e: Event) {
    if !inj.phase.Idle? then Advances(inj, inj', bit)
    else if e.offer.Some? then inj'.phase.Start? && inj'.ticks == 0 && inj'.data == e.offer.value && !inj'.ready
    else inj'.phase.Idle? && !inj'.ready
  }

  lemma LineStays(inj: Injector, rx: Rx, bit: nat, capacity: nat, e: Event)
    requires MIN_BIT <= bit && LineOk(inj, rx, bit)
    ensures InjectorOk(Driven(inj, e))
    ensures var (inj', line) := InjectorTick(Driven(inj, e), bit);
            && LineOk(inj', RxStep(rx, bit, capacity, line, e.pop), bit)
            && Moves(inj, inj', bit, e)
  {
    hide Level, RxStep;
    if !inj.phase.Idle? {
      TickAdvances(inj, bit);
      ShiftStays(inj, InjectorTick(inj, bit).0, InjectorTick(inj, bit).1, bit);
      hide InjectorTick, Advances, Pin1, Pin2;
      Shifts(rx, bit, capacity, InjectorTick(Driven(inj, e), bit).1, e.pop);
    } else {
      Shifts(rx, bit, capacity, true, e.pop);
    }
  }

  lemma Shifts(rx: Rx, bit: nat, capacity: nat, line: bool, pop: bool)
    requires rx.Ok()
    ensures RxStep(rx, bit, capacity, line, pop).sync0 == rx.sync1
    ensures RxStep(rx, bit, capacity, line, pop).sync1 == line
  {
    hide SetBit;
  }

  lemma ShiftStays(inj: Injector, inj': Injector, line: bool, bit: nat)
    requires MIN_BIT <= bit && InjectorOk(inj) && !inj.phase.Idle? && inj.ticks < bit - 1 && Advances(inj, inj', bit)
    requires line
             == Level(inj.data, if 1 <= Slot(inj) <= 8 && inj.ticks + 1 == bit - 1 then Slot(inj) + 1 else Slot(inj))
    ensures Pin2(inj') == Pin1(inj) && Pin1(inj') == line
    ensures !inj'.phase.Idle? ==> inj'.ticks < bit - 1
  {
  }

  // ----- where the receiver is -----

  /**
   `count` bits after its first full bit, the receiver has fallen `count` ticks behind the
   injector; `off` is where that first bit began: 6 after an early sample, half a bit more otherwise.
   */
  predicate Aligned(inj: Injector, count: nat, counter: nat, off: nat, bit: nat) {
    var y := off - 1 + count + counter;
    && !inj.phase.Idle?
    && ((Slot(inj) == count && inj.ticks == y)
        || (Slot(inj) == count + 1 && inj.ticks == y - (bit - 1))
        || (Slot(inj) == count + 2 && inj.ticks == y - 2 * (bit - 1)))
  }

  predicate EitherAligned(inj: Injector, count: nat, counter: nat, bit: nat) {
    Aligned(inj, count, counter, 6, bit) || Aligned(inj, count, counter, bit / 2 + 6, bit)
  }

  /** The injector may finish, and even restart, before the receiver has seen the stop bit out. */
  predicate Tail(inj: Injector, rx: Rx, bit: nat) {
    if inj.phase.Idle? then rx.counter >= bit - 2
    else inj.phase.Start? && inj.ticks == 0 && rx.counter == bit - 1
  }

  ghost predicate Follows(inj: Injector, rx: Rx, bit: nat)
    requires rx.Ok()
  {
    match rx.phase
    case Idle => inj.phase.Idle? || (inj.phase.Start? && inj.ticks <= 2) || (inj.phase.Stop? && inj.ticks >= 1)
    case Start =>
      && inj.phase.Start?
      && (if rx.restart then inj.ticks == 3 else rx.counter == inj.ticks - 4 && rx.counter < bit / 2)
    case Data =>
      if rx.restart then
        && inj.phase.Start? && rx.count == 0
        && ((inj.ticks == 4 && rx.counter == 0) || (inj.ticks == bit / 2 + 4 && rx.counter == bit / 2))
      else
        && rx.counter < bit && EitherAligned(inj, rx.count, rx.counter, bit)
        && forall j :: 0 <= j < rx.count ==> rx.collecting[j] == inj.data[j]
    case Stop =>
      && !rx.restart && rx.counter < bit
      && (Tail(inj, rx, bit) || (EitherAligned(inj, 8, rx.counter, bit) && rx.collecting == inj.data))
  }

  /** The bytes taken by the injector that have not completed in the receiver. */
  function InFlight(inj: Injector, rx: Rx, bit: nat): seq<Byte> {
    match rx.phase
    case Idle => if inj.phase.Start? then [inj.data] else []
    case Start => [inj.data]
    case Data => [inj.data]
    case Stop => if Tail(inj, rx, bit) && inj.phase.Start? then [rx.collecting, inj.data] else [rx.collecting]
  }

  ghost predicate LinkOk(k: Link, bit: nat) {
    && LineOk(k.inj, k.rx, bit) && Follows(k.inj, k.rx, bit)
    && k.taken == k.landed + InFlight(k.inj, k.rx, bit)
    && k.stored == k.read + k.rx.queue
  }

  lemma AlignedAdvances(inj: Injector, inj': Injector, count: nat, counter: nat, off: nat, bit: nat)
    requires MIN_BIT <= bit && InjectorOk(inj) && inj.ticks < bit - 1 && Advances(inj, inj', bit)
    requires count <= 8 && counter < bit && (off == 6 || off == bit / 2 + 6)
    requires Aligned(inj, count, counter, off, bit)
    ensures if inj'.phase.Idle? then count == 8 && counter + 1 >= bit - 2
            else if counter + 1 < bit then Aligned(inj', count, counter + 1, off, bit)
            else count < 8 ==> Aligned(inj', count + 1, 0, off, bit)
    ensures count == 8 && counter == bit - 1 ==> inj.phase.Stop? && inj.ticks >= 1
  {
  }

  /** One clock of the receiver when the injector moves from `inj` to `inj'`. */
  ghost predicate Clocks(inj: Injector, inj': Injector, rx: Rx, rx': Rx, bit: nat, capacity: nat, e: Event) {
    && MIN_BIT <= bit <= COUNTER_MAX
    && LineOk(inj, rx, bit) && InjectorOk(inj') && Moves(inj, inj', bit, e)
    && exists line: bool :: rx' == RxStep(rx, bit, capacity, line, e.pop)
  }

  function Taken(inj: Injector, e: Event): seq<Byte> {
    if e.offer.Some? && Takes(inj) then [e.offer.value] else []
  }

  function Landed(rx: Rx, bit: nat): seq<Byte> {
    if RxLands(rx, bit) then [rx.collecting] else []
  }

  lemma IdleFollows(inj: Injector, inj': Injector, rx: Rx, rx': Rx, bit: nat, capacity: nat, e: Event)
    requires Clocks(inj, inj', rx, rx', bit, capacity, e) && Follows(inj, rx, bit) && rx.phase.Idle?
    ensures rx'.Ok() && Follows(inj', rx', bit)
    ensures Landed(rx, bit) + InFlight(inj', rx', bit) == InFlight(inj, rx, bit) + Taken(inj, e)
  {
    hide SetBit;
  }

  lemma StartFollows(inj: Injector, inj': Injector, rx: Rx, rx': Rx, bit: nat, capacity: nat, e: Event)
    requires Clocks(inj, inj', rx, rx', bit, capacity, e) && Follows(inj, rx, bit) && rx.phase.Start?
    ensures rx'.Ok() && Follows(inj', rx', bit)
    ensures Landed(rx, bit) + InFlight(inj', rx', bit) == InFlight(inj, rx, bit) + Taken(inj, e)
  {
    hide SetBit;
  }

  lemma DataFollows(inj: Injector, inj': Injector, rx: Rx, rx': Rx, bit: nat, capacity: nat, e: Event)
    requires Clocks(inj, inj', rx, rx', bit, capacity, e) && Follows(inj, rx, bit)
    requires rx.phase.Data? && !AtBaud(rx.counter, bit)
    ensures rx'.Ok() && Follows(inj', rx', bit)
    ensures Landed(rx, bit) + InFlight(inj', rx', bit) == InFlight(inj, rx, bit) + Taken(inj, e)
  {
    hide SetBit, Level, Pin1, Pin2;
    if !rx.restart {
      if Aligned(inj, rx.count, rx.counter, 6, bit) {
        AlignedAdvances(inj, inj', rx.count, rx.counter, 6, bit);
      } else {
        AlignedAdvances(inj, inj', rx.count, rx.counter, bit / 2 + 6, bit);
      }
      hide Aligned, Advances;
    }
  }

  /** The sample for bit `count` falls inside that bit, in either alignment. */
  lemma SampleInsideBit(inj: Injector, rx: Rx, bit: nat)
    requires MIN_BIT <= bit <= COUNTER_MAX && LineOk(inj, rx, bit)
    requires rx.counter == bit - 1 && EitherAligned(inj, rx.count, rx.counter, bit)
    ensures rx.sync0 == inj.data[rx.count]
  {
  }

  lemma SampleAligned(inj: Injector, inj': Injector, count: nat, bit: nat)
    requires MIN_BIT <= bit && InjectorOk(inj) && inj.ticks < bit - 1 && Advances(inj, inj', bit) && count < 8
    requires EitherAligned(inj, count, bit - 1, bit)
    ensures !inj'.phase.Idle? && EitherAligned(inj', count + 1, 0, bit)
  {
    if Aligned(inj, count, bit - 1, 6, bit) {
      AlignedAdvances(inj, inj', count, bit - 1, 6, bit);
    } else {
      AlignedAdvances(inj, inj', count, bit - 1, bit / 2 + 6, bit);
    }
  }

  lemma SampleStep(rx: Rx, bit: nat, capacity: nat, line: bool, pop: bool)
    requires rx.Ok() && rx.phase.Data? && AtBaud(rx.counter, bit)
    ensures var rx' := RxStep(rx, bit, capacity, line, pop);
            && rx'.counter == 0 && !rx'.restart
            && rx'.collecting == SetBit(rx.collecting, rx.count, rx.sync0)
            && (if rx.count == 7 then rx'.phase.Stop? && rx'.count == 0
                else rx'.phase.Data? && rx'.count == rx.count + 1)
  {
  }

  lemma SampledFollows(inj': Injector, rx': Rx, count: nat, bit: nat)
    requires bit >= MIN_BIT && count < 8 && rx'.Ok() && rx'.counter == 0 && !rx'.restart
    requires if count == 7 then rx'.phase.Stop? else rx'.phase.Data? && rx'.count == count + 1
    requires EitherAligned(inj', count + 1, 0, bit)
    requires forall j :: 0 <= j <= count ==> rx'.collecting[j] == inj'.data[j]
    requires count == 7 ==> rx'.collecting == inj'.data
    ensures Follows(inj', rx', bit) && InFlight(inj', rx', bit) == [inj'.data]
  {
  }

  lemma SampleFacts(inj: Injector, inj': Injector, rx: Rx, rx': Rx, bit: nat, capacity: nat, e: Event)
    requires Clocks(inj, inj', rx, rx', bit, capacity, e) && Follows(inj, rx, bit)
    requires rx.phase.Data? && AtBaud(rx.counter, bit)
    ensures MIN_BIT <= bit <= COUNTER_MAX && LineOk(inj, rx, bit) && InjectorOk(inj) && Advances(inj, inj', bit)
    ensures !inj.phase.Idle? && inj.ticks < bit - 1 && rx.Ok() && rx.counter == bit - 1 && !rx.restart
    ensures EitherAligned(inj, rx.count, bit - 1, bit)
    ensures forall j :: 0 <= j < rx.count ==> rx.collecting[j] == inj.data[j]
    ensures InFlight(inj, rx, bit) == [inj.data] && Taken(inj, e) == [] && Landed(rx, bit) == []
  {
    hide Advances, RxStep, Pin1, Pin2;
  }

  lemma SampleFollows(inj: Injector, inj': Injector, rx: Rx, rx': Rx, bit: nat, capacity: nat, e: Event)
    requires Clocks(inj, inj', rx, rx', bit, capacity, e) && Follows(inj, rx, bit)
    requires rx.phase.Data? && AtBaud(rx.counter, bit)
    ensures rx'.Ok() && Follows(inj', rx', bit)
    ensures Landed(rx, bit) + InFlight(inj', rx', bit) == InFlight(inj, rx, bit) + Taken(inj, e)
  {
    var line: bool :| rx' == RxStep(rx, bit, capacity, line, e.pop);
    hide SetBit, EitherAligned, LineOk, RxStep, Follows, Clocks, Landed, InFlight, Taken;
    SampleFacts(inj, inj', rx, rx', bit, capacity, e);
    SampleInsideBit(inj, rx, bit);
    SampleCollects(rx.collecting, inj.data, rx.count, rx.sync0);
    SampleAligned(inj, inj', rx.count, bit);
    SampleStep(rx, bit, capacity, line, e.pop);
    SampledFollows(inj', rx', rx.count, bit);
  }

  lemma SampleCollects(collecting: Byte, data: Byte, count: nat, level: bool)
    requires count < 8 && level == data[count]
    requires forall j :: 0 <= j < count ==> collecting[j] == data[j]
    ensures forall j :: 0 <= j <= count ==> SetBit(collecting, count, level)[j] == data[j]
    ensures count == 7 ==> SetBit(collecting, count, level) == data
  {
    forall j | 0 <= j <= count
      ensures SetBit(collecting, count, level)[j] == data[j]
    {
    }
    if count == 7 {
      assert SetBit(collecting, count, level) == data;
    }
  }

  lemma StopFollows(inj: Injector, inj': Injector, rx: Rx, rx': Rx, bit: nat, capacity: nat, e: Event)
    requires Clocks(inj, inj', rx, rx', bit, capacity, e) && Follows(inj, rx, bit) && rx.phase.Stop?
    ensures rx'.Ok() && Follows(inj', rx', bit)
    ensures Landed(rx, bit) + InFlight(inj', rx', bit) == InFlight(inj, rx, bit) + Taken(inj, e)
  {
    hide SetBit;
    if !Tail(inj, rx, bit) {
      if Aligned(inj, 8, rx.counter, 6, bit) {
        AlignedAdvances(inj, inj', 8, rx.counter, 6, bit);
      } else {
        AlignedAdvances(inj, inj', 8, rx.counter, bit / 2 + 6, bit);
      }
      hide Aligned;
    }
  }

  lemma RxFollows(inj: Injector, inj': Injector, rx: Rx, rx': Rx, bit: nat, capacity: nat, e: Event)
    requires Clocks(inj, inj', rx, rx', bit, capacity, e) && Follows(inj, rx, bit)
    ensures rx'.Ok() && Follows(inj', rx', bit)
    ensures Landed(rx, bit) + InFlight(inj', rx', bit) == InFlight(inj, rx, bit) + Taken(inj, e)
  {
    match rx.phase {
      case Idle => IdleFollows(inj, inj', rx, rx', bit, capacity, e);
      case Start => StartFollows(inj, inj', rx, rx', bit, capacity, e);
      case Data =>
        if AtBaud(rx.counter, bit) {
          SampleFollows(inj, inj', rx, rx', bit, capacity, e);
        } else {
          DataFollows(inj, inj', rx, rx', bit, capacity, e);
        }
      case Stop => StopFollows(inj, inj', rx, rx', bit, capacity, e);
    }
    hide Follows, Clocks, InFlight;
  }

  lemma RingStores(rx: Rx, bit: nat, capacity: nat, line: bool, pop: bool)
    requires rx.Ok()
    ensures RxStep(rx, bit, capacity, line, pop).queue
            == (if pop && rx.queue != [] then rx.queue[1..] else rx.queue)
               + if RxLands(rx, bit) && |rx.queue| < capacity then [rx.collecting] else []
  {
    hide SetBit;
  }

  /** What one clock does to the two ends and to the four logs. */
  lemma StepParts(k: Link, bit: nat, capacity: nat, e: Event)
    requires MIN_BIT <= bit <= COUNTER_MAX && LineOk(k.inj, k.rx, bit)
    ensures var k' := LinkStep(k, bit, capacity, e);
            && Clocks(k.inj, k'.inj, k.rx, k'.rx, bit, capacity, e) && LineOk(k'.inj, k'.rx, bit)
            && k'.taken == k.taken + Taken(k.inj, e) && k'.landed == k.landed + Landed(k.rx, bit)
  {
    LineStays(k.inj, k.rx, bit, capacity, e);
    var k', line := LinkStep(k, bit, capacity, e), InjectorTick(Driven(k.inj, e), bit).1;
    hide RxStep, InjectorTick, LineOk, RxLands, Moves;
    assert k'.rx == RxStep(k.rx, bit, capacity, line, e.pop);
  }

  lemma LogsStep(k: Link, bit: nat, capacity: nat, e: Event)
    requires MIN_BIT <= bit <= COUNTER_MAX && LineOk(k.inj, k.rx, bit) && k.stored == k.read + k.rx.queue
    ensures var k' := LinkStep(k, bit, capacity, e); k'.stored == k'.read + k'.rx.queue
  {
    RingStores(k.rx, bit, capacity, InjectorTick(Driven(k.inj, e), bit).1, e.pop);
    hide RxStep, InjectorTick, LineOk, RxLands;
  }

  /** The invariant is kept by every clock, whatever is offered and read in it. */
  lemma LinkStays(k: Link, bit: nat, capacity: nat, e: Event)
    requires MIN_BIT <= bit <= COUNTER_MAX && LinkOk(k, bit)
    ensures LinkOk(LinkStep(k, bit, capacity, e), bit)
  {
    var k' := LinkStep(k, bit, capacity, e);
    StepParts(k, bit, capacity, e);
    LogsStep(k, bit, capacity, e);
    hide LinkStep, LineOk, Follows, InFlight, Clocks, Taken, Landed;
    RxFollows(k.inj, k'.inj, k.rx, k'.rx, bit, capacity, e);
    Rebracket(k.landed, InFlight(k.inj, k.rx, bit), Taken(k.inj, e), Landed(k.rx, bit), InFlight(k'.inj, k'.rx, bit));
  }

  lemma Rebracket(landed: seq<Byte>, flight: seq<Byte>, taken: seq<Byte>, lands: seq<Byte>, flight': seq<Byte>)
    requires lands + flight' == flight + taken
    ensures (landed + flight) + taken == (landed + lands) + flight'
  {
    assert (landed + flight) + taken == landed + (flight + taken);
  }

  // ----- runs -----

  ghost function Run(k: Link, bit: nat, capacity: nat, events: seq<Event>, n: nat): (k': Link)
    requires k.Ok() && n <= |events|
    ensures k'.Ok()
  {
    if n == 0 then k else LinkStep(Run(k, bit, capacity, events, n - 1), bit, capacity, events[n - 1])
  }

  lemma {:induction false} RunStays(k: Link, bit: nat, capacity: nat, events: seq<Event>, n: nat)
    requires MIN_BIT <= bit <= COUNTER_MAX && LinkOk(k, bit) && n <= |events|
    ensures LinkOk(Run(k, bit, capacity, events, n), bit)
  {
    assert k.Ok();
    hide LinkOk, LinkStep;
    if n > 0 {
      RunStays(k, bit, capacity, events, n - 1);
      LinkStays(Run(k, bit, capacity, events, n - 1), bit, capacity, events[n - 1]);
    }
  }

  /** Nothing received or sent yet, the line idle long enough to be seen high; any baud counter. */
  ghost predicate Quiet(k: Link) {
    && k.inj.phase.Idle? && !k.inj.ready && k.rx.phase.Idle? && k.rx.sync0 && k.rx.sync1 && k.rx.count < 8
    && k.rx.queue == [] && k.taken == k.landed == k.stored == k.read == []
  }

  /**
   Receive round trip: for every schedule of offered bytes and bus reads, and any stale baud
   counter, the bytes completed in the receiver are a prefix of those the injector took, at most
   two behind; and the bytes read, followed by the ring, are exactly those that found room.
   */
  lemma ReceivesInOrder(k: Link, bit: nat, capacity: nat, events: seq<Event>)
    requires MIN_BIT <= bit <= COUNTER_MAX && Quiet(k)
    ensures var k' := Run(k, bit, capacity, events, |events|);
            && k'.landed <= k'.taken && |k'.taken| <= |k'.landed| + 2
            && k'.stored == k'.read + k'.rx.queue
  {
    RunStays(k, bit, capacity, events, |events|);
    hide LinkStep, LineOk, Follows;
  }

  /** The ring has room whenever a byte completes. */
  ghost predicate NeverFull(k: Link, bit: nat, capacity: nat, events: seq<Event>)
    requires k.Ok()
  {
    forall n :: 0 <= n < |events| ==>
      var now := Run(k, bit, capacity, events, n).rx;
      RxLands(now, bit) ==> |now.queue| < capacity
  }

  /** Then nothing is dropped: what is read, followed by the ring, is what the injector sent. */
  lemma {:induction false} NothingDropped(k: Link, bit: nat, capacity: nat, events: seq<Event>, n: nat)
    requires MIN_BIT <= bit <= COUNTER_MAX && Quiet(k) && NeverFull(k, bit, capacity, events) && n <= |events|
    ensures var k' := Run(k, bit, capacity, events, n);
            && k'.read + k'.rx.queue == k'.landed && k'.landed <= k'.taken
  {
    assert LinkOk(k, bit) && k.Ok();
    RunStays(k, bit, capacity, events, n);
    assert LinkOk(Run(k, bit, capacity, events, n), bit);
    StoredIsLanded(k, bit, capacity, events, n);
    hide Run, LineOk, Follows, NeverFull;
  }

  lemma {:induction false} StoredIsLanded(k: Link, bit: nat, capacity: nat, events: seq<Event>, n: nat)
    requires k.Ok() && k.stored == k.landed && NeverFull(k, bit, capacity, events) && n <= |events|
    ensures Run(k, bit, capacity, events, n).stored == Run(k, bit, capacity, events, n).landed
  {
    if n > 0 {
      StoredIsLanded(k, bit, capacity, events, n - 1);
      var now := Run(k, bit, capacity, events, n - 1).rx;
      assert RxLands(now, bit) ==> |now.queue| < capacity;
      hide RxStep, InjectorTick, RxLands;
    }
  }

  // ----- and every byte completes -----

  /** Clocks until both ends are idle, if nothing more is offered. */
  function Remaining(inj: Injector, rx: Rx, bit: nat): int {
    if !inj.phase.Idle? then Times(10 - Slot(inj), if bit > 0 then bit - 1 else 0) - inj.ticks + 2
    else if rx.phase.Stop? then bit - rx.counter else 0
  }

  lemma RemainingStep(k: Link, bit: nat, capacity: nat, pop: bool)
    requires MIN_BIT <= bit <= COUNTER_MAX && LinkOk(k, bit)
    ensures var k' := LinkStep(k, bit, capacity, Event(None, pop));
            && k'.taken == k.taken && LinkOk(k', bit)
            && 0 <= Remaining(k.inj, k.rx, bit) && 0 <= Remaining(k'.inj, k'.rx, bit)
            && Remaining(k'.inj, k'.rx, bit)
               <= if Remaining(k.inj, k.rx, bit) > 0 then Remaining(k.inj, k.rx, bit) - 1 else 0
  {
    var e := Event(None, pop);
    var k' := LinkStep(k, bit, capacity, e);
    StepParts(k, bit, capacity, e);
    LinkStays(k, bit, capacity, e);
    var line := InjectorTick(Driven(k.inj, e), bit).1;
    assert k'.rx == RxStep(k.rx, bit, capacity, line, pop);
    IdleTailCounts(k.rx, bit, capacity, line, pop);
    hide SetBit, Level, Pin1, RxStep, InjectorTick, EitherAligned, LinkStep, InFlight, Remaining;
    if k.inj.phase.Idle? {
      hide Slot;
      QuietRemaining(k.inj, k.rx, k'.inj, k'.rx, bit);
    } else {
      BusyRemaining(k.inj, k.rx, k'.inj, k'.rx, bit);
    }
  }

  lemma QuietRemaining(inj: Injector, rx: Rx, inj': Injector, rx': Rx, bit: nat)
    requires inj.phase.Idle? && inj'.phase.Idle?
    requires rx.phase.Stop? ==> rx.counter < bit
    requires rx.phase.Stop? ==> if rx.counter == bit - 1 then rx'.phase.Idle? else rx'.counter == rx.counter + 1
    requires rx'.phase.Stop? ==> rx.phase.Stop? && rx'.counter < bit
    ensures 0 <= Remaining(inj, rx, bit) && 0 <= Remaining(inj', rx', bit)
    ensures Remaining(inj', rx', bit) <= if Remaining(inj, rx, bit) > 0 then Remaining(inj, rx, bit) - 1 else 0
  {
  }

  lemma BusyRemaining(inj: Injector, rx: Rx, inj': Injector, rx': Rx, bit: nat)
    requires bit >= MIN_BIT && InjectorOk(inj) && !inj.phase.Idle? && inj.ticks < bit - 1 && Advances(inj, inj', bit)
    requires inj'.phase.Idle? && rx'.phase.Stop? ==> bit - 2 <= rx'.counter < bit
    ensures 0 <= Remaining(inj, rx, bit) && 0 <= Remaining(inj', rx', bit)
    ensures Remaining(inj', rx', bit) <= if Remaining(inj, rx, bit) > 0 then Remaining(inj, rx, bit) - 1 else 0
  {
    TimesFacts(9 - Slot(inj), bit - 1);
    TimesFacts(8 - Slot(inj), bit - 1);
    TimesFacts(0, bit - 1);
    hide Times;
  }

  /** With the line high, the stop bit ends at the baud tick and not before. */
  lemma IdleTailCounts(rx: Rx, bit: nat, capacity: nat, line: bool, pop: bool)
    requires 0 < bit <= COUNTER_MAX && rx.Ok()
    ensures rx.phase.Stop? && rx.sync0 && !rx.restart && rx.counter < bit ==>
      var rx' := RxStep(rx, bit, capacity, line, pop);
      if rx.counter == bit - 1 then rx'.phase.Idle? else rx'.phase.Stop? && rx'.counter == rx.counter + 1
    ensures !rx.phase.Stop? && RxStep(rx, bit, capacity, line, pop).phase.Stop? ==>
      rx.phase.Data? && AtBaud(rx.counter, bit)
  {
  }

  lemma {:induction false} RemainingRuns(k: Link, bit: nat, capacity: nat, events: seq<Event>, n: nat)
    requires MIN_BIT <= bit <= COUNTER_MAX && LinkOk(k, bit) && n <= |events|
    requires forall i :: 0 <= i < |events| ==> events[i].offer.None?
    ensures var k', r := Run(k, bit, capacity, events, n), Remaining(k.inj, k.rx, bit);
            && LinkOk(k', bit) && k'.taken == k.taken
            && 0 <= Remaining(k'.inj, k'.rx, bit) <= if r > n then r - n else 0
  {
    assert k.Ok();
    hide LinkOk, LinkStep, Remaining;
    if n == 0 {
      RemainingStep(k, bit, capacity, false);
    } else {
      RemainingRuns(k, bit, capacity, events, n - 1);
      var before, e := Run(k, bit, capacity, events, n - 1), events[n - 1];
      assert e == Event(None, e.pop);
      RemainingStep(before, bit, capacity, e.pop);
    }
  }

  /** From any state of a run: ten bit times without new bytes, and every byte taken has completed. */
  lemma EveryByteCompletes(k: Link, bit: nat, capacity: nat, events: seq<Event>)
    requires MIN_BIT <= bit <= COUNTER_MAX && LinkOk(k, bit) && |events| >= 10 * bit
    requires forall i :: 0 <= i < |events| ==> events[i].offer.None?
    ensures Run(k, bit, capacity, events, |events|).landed == k.taken
  {
    RemainingRuns(k, bit, capacity, events, |events|);
    RemainingBound(k, bit);
    var k' := Run(k, bit, capacity, events, |events|);
    assert k'.landed == k'.taken by {
      RemainingZero(k', bit);
    }
  }

  lemma RemainingBound(k: Link, bit: nat)
    requires MIN_BIT <= bit && LinkOk(k, bit)
    ensures Remaining(k.inj, k.rx, bit) <= 10 * bit
  {
    hide Level, Pin1, Pin2, EitherAligned;
    assert Times(10 - Slot(k.inj), bit - 1) <= 10 * (bit - 1);
  }

  lemma RemainingZero(k: Link, bit: nat)
    requires MIN_BIT <= bit && LinkOk(k, bit) && Remaining(k.inj, k.rx, bit) <= 0
    ensures k.landed == k.taken
  {
    TimesFacts(9 - Slot(k.inj), bit - 1);
    TimesFacts(0, bit - 1);
    hide Level, Pin1, Pin2, Times;
  }

  // ----- the bytes the bus reads -----

  /** The whole peripheral with the injector on its pin; `returned` lists the bytes handed to the bus. */
  datatype Station = Station(u: Uart, link: Link, returned: seq<Byte>) {
    predicate Ok() {
      u.Ok() && link.Ok()
    }
  }

  function StationStep(s: Station, clockRate: nat, capacity: nat, offer: Option<Byte>, req: Option<Request>)
    : (s': Station)
    requires s.Ok()
    ensures s'.Ok()
  {
    var bit := ClocksPerBit(clockRate, s.u.device.baud);
    var line := InjectorTick(Driven(s.link.inj, Event(offer, Pop(s.u.device))), bit).1;
    var u := Step(s.u, clockRate, capacity, line, req);
    Station(u, LinkStep(s.link, bit, capacity, Event(offer, Pop(s.u.device))),
            s.returned + if AnswersRead(s.u.device) && s.u.rx.queue != [] then [u.device.rdata.b0] else [])
  }

  /** A read of the receive lane is answered in this clock. */
  predicate AnswersRead(d: Device) {
    d.state.ReadLane? && !d.we && d.addr == RX_LANE
  }

  ghost predicate StationOk(s: Station, bit: nat) {
    && s.Ok() && LinkOk(s.link, bit) && s.u.rx == s.link.rx && s.returned == s.link.read
    && !(s.u.device.state.WriteLane? && s.u.device.we && s.u.device.addr == BAUD_LANE)
  }

  lemma DeviceKeepsBaud(d: Device, tx: Tx, rx: Rx, capacity: nat, req: Option<Request>)
    requires d.Ok() && !WritesBaud(req) && !(d.state.WriteLane? && d.we && d.addr == BAUD_LANE)
    ensures var d' := DeviceStep(d, tx, rx, capacity, req);
            && d'.baud == d.baud && !(d'.state.WriteLane? && d'.we && d'.addr == BAUD_LANE)
            && (Pop(d) ==>
                  d'.rvalid && d'.rdata == if rx.queue == [] then ZERO else Word(rx.queue[0], CLEAR, CLEAR, CLEAR))
  {
  }

  lemma StationStays(s: Station, clockRate: nat, capacity: nat, offer: Option<Byte>, req: Option<Request>)
    requires MIN_BIT <= ClocksPerBit(clockRate, s.u.device.baud) <= COUNTER_MAX && !WritesBaud(req)
    requires StationOk(s, ClocksPerBit(clockRate, s.u.device.baud))
    ensures var s' := StationStep(s, clockRate, capacity, offer, req);
            s'.u.device.baud == s.u.device.baud && StationOk(s', ClocksPerBit(clockRate, s.u.device.baud))
  {
    var bit := ClocksPerBit(clockRate, s.u.device.baud);
    LinkStays(s.link, bit, capacity, Event(offer, Pop(s.u.device)));
    DeviceKeepsBaud(s.u.device, s.u.tx, s.u.rx, capacity, req);
    hide ClocksPerBit, LinkOk, RxStep, TxStep, DeviceStep, InjectorTick, WritesBaud, RxLands;
  }

  datatype Cycle = Cycle(offer: Option<Byte>, req: Option<Request>)

  ghost function StationRun(s: Station, clockRate: nat, capacity: nat, trace: seq<Cycle>): (s': Station)
    requires s.Ok()
    ensures s'.Ok()
  {
    if trace == [] then s
    else
      var c := trace[|trace| - 1];
      StationStep(StationRun(s, clockRate, capacity, trace[..|trace| - 1]), clockRate, capacity, c.offer, c.req)
  }

  lemma {:induction false} StationRunStays(s: Station, clockRate: nat, capacity: nat, trace: seq<Cycle>)
    requires MIN_BIT <= ClocksPerBit(clockRate, s.u.device.baud) <= COUNTER_MAX
    requires StationOk(s, ClocksPerBit(clockRate, s.u.device.baud))
    requires forall i :: 0 <= i < |trace| ==> !WritesBaud(trace[i].req)
    ensures StationRun(s, clockRate, capacity, trace).u.device.baud == s.u.device.baud
    ensures StationOk(StationRun(s, clockRate, capacity, trace), ClocksPerBit(clockRate, s.u.device.baud))
  {
    assert s.Ok();
    hide StationOk, StationStep, WritesBaud, ClocksPerBit;
    if trace != [] {
      StationRunStays(s, clockRate, capacity, trace[..|trace| - 1]);
      var c := trace[|trace| - 1];
      StationStays(StationRun(s, clockRate, capacity, trace[..|trace| - 1]), clockRate, capacity, c.offer, c.req);
    }
  }

  /**
   The receive round trip at the bus: whatever else the bus does, short of changing the baud rate,
   the bytes its receive-lane reads return, followed by those in the ring, are the completed bytes
   that found room, and the completed bytes are a prefix of those sent.
   */
  lemma BusReceives(s: Station, clockRate: nat, capacity: nat, trace: seq<Cycle>)
    requires MIN_BIT <= ClocksPerBit(clockRate, s.u.device.baud) <= COUNTER_MAX
    requires s.Ok() && Quiet(s.link) && s.u.rx == s.link.rx && s.returned == [] && s.u.device.state.WaitRequest?
    requires forall i :: 0 <= i < |trace| ==> !WritesBaud(trace[i].req)
    ensures var s' := StationRun(s, clockRate, capacity, trace);
            && s'.returned + s'.u.rx.queue == s'.link.stored
            && s'.link.landed <= s'.link.taken && |s'.link.taken| <= |s'.link.landed| + 2
  {
    hide ClocksPerBit, WritesBaud, StationRun;
    StationRunStays(s, clockRate, capacity, trace);
    hide LineOk, Follows;
  }
}
