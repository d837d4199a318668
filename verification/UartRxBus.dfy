/** The receive round trip from the injector to the bus, with nothing dropped and nothing left on the line. */
module UartRxBus {
  import opened Obi
  import opened Bits
  import opened UartSpec
  import opened UartRx

  /** A station as it starts: nothing received, the line idle, no bus access in progress. */
  ghost predicate Fresh(s: Station, clockRate: nat) {
    && s.Ok() && Quiet(s.link) && s.u.rx == s.link.rx && s.returned == [] && s.u.device.state.WaitRequest?
    && MIN_BIT <= ClocksPerBit(clockRate, s.u.device.baud) <= COUNTER_MAX
  }

  predicate KeepsRate(trace: seq<Cycle>) {
    forall i :: 0 <= i < |trace| ==> !WritesBaud(trace[i].req)
  }

  /** What the injector is offered and the receive lane's reads, cycle by cycle. */
  ghost function EventsOf(s: Station, clockRate: nat, capacity: nat, trace: seq<Cycle>): (events: seq<Event>)
    requires s.Ok()
    ensures |events| == |trace|
  {
    if trace == [] then []
    else
      var before := trace[..|trace| - 1];
      EventsOf(s, clockRate, capacity, before)
      + [EventIn(StationRun(s, clockRate, capacity, before), trace[|trace| - 1])]
  }

  function EventIn(s: Station, c: Cycle): Event {
    Event(c.offer, Pop(s.u.device))
  }

  lemma {:induction false} EventsOffer(s: Station, clockRate: nat, capacity: nat, trace: seq<Cycle>)
    requires s.Ok()
    ensures forall i :: 0 <= i < |trace| ==> EventsOf(s, clockRate, capacity, trace)[i].offer == trace[i].offer
  {
    hide StationRun, Pop;
    if trace != [] {
      EventsOffer(s, clockRate, capacity, trace[..|trace| - 1]);
    }
  }

  lemma {:induction false} RunPrefix(k: Link, bit: nat, capacity: nat, events: seq<Event>, more: seq<Event>, n: nat)
    requires k.Ok() && n <= |events|
    ensures Run(k, bit, capacity, events + more, n) == Run(k, bit, capacity, events, n)
  {
    hide LinkStep;
    if n > 0 {
      RunPrefix(k, bit, capacity, events, more, n - 1);
    }
  }

  /** While the baud rate stays, the station's link goes through a run of its own. */
  lemma {:induction false} StationIsRun(s: Station, clockRate: nat, capacity: nat, trace: seq<Cycle>)
    requires s.Ok() && KeepsRate(trace) && MIN_BIT <= ClocksPerBit(clockRate, s.u.device.baud) <= COUNTER_MAX
    requires StationOk(s, ClocksPerBit(clockRate, s.u.device.baud))
    ensures StationRun(s, clockRate, capacity, trace).link
            == Run(s.link, ClocksPerBit(clockRate, s.u.device.baud), capacity,
                   EventsOf(s, clockRate, capacity, trace), |trace|)
  {
    var bit := ClocksPerBit(clockRate, s.u.device.baud);
    hide LinkStep, StationOk, ClocksPerBit, WritesBaud, Step;
    if trace != [] {
      var before := trace[..|trace| - 1];
      StationIsRun(s, clockRate, capacity, before);
      StationRunStays(s, clockRate, capacity, before);
      var last := EventsOf(s, clockRate, capacity, trace)[|before|];
      RunPrefix(s.link, bit, capacity, EventsOf(s, clockRate, capacity, before), [last], |before|);
    }
  }

  lemma {:induction false} StationJoins(s: Station, clockRate: nat, capacity: nat, a: seq<Cycle>, b: seq<Cycle>)
    requires s.Ok()
    ensures StationRun(s, clockRate, capacity, a + b)
            == StationRun(StationRun(s, clockRate, capacity, a), clockRate, capacity, b)
    decreases |b|
  {
    hide StationStep;
    if b == [] {
      assert a + b == a;
    } else {
      StationJoins(s, clockRate, capacity, a, b[..|b| - 1]);
      assert (a + b)[..|a + b| - 1] == a + b[..|b| - 1];
    }
  }

  /** The ring has room whenever a byte completes. */
  ghost predicate Room(s: Station, clockRate: nat, capacity: nat, trace: seq<Cycle>)
    requires s.Ok()
  {
    forall n: nat :: n < |trace| ==> HasRoom(StationRun(s, clockRate, capacity, trace[..n]), clockRate, capacity)
  }

  predicate HasRoom(s: Station, clockRate: nat, capacity: nat) {
    RxLands(s.link.rx, ClocksPerBit(clockRate, s.u.device.baud)) ==> |s.link.rx.queue| < capacity
  }

  lemma {:induction false} AllStored(s: Station, clockRate: nat, capacity: nat, trace: seq<Cycle>)
    requires s.Ok() && s.link.stored == s.link.landed && Room(s, clockRate, capacity, trace)
    ensures StationRun(s, clockRate, capacity, trace).link.stored
            == StationRun(s, clockRate, capacity, trace).link.landed
  {
    if trace != [] {
      var before := trace[..|trace| - 1];
      forall n: nat | n < |before|
        ensures before[..n] == trace[..n]
      {
      }
      assert Room(s, clockRate, capacity, before);
      AllStored(s, clockRate, capacity, before);
      assert HasRoom(StationRun(s, clockRate, capacity, trace[..|before|]), clockRate, capacity);
      StoresWhenRoom(StationRun(s, clockRate, capacity, before), clockRate, capacity, trace[|before|]);
      hide StationStep, Room, HasRoom;
    }
  }

  lemma StoresWhenRoom(s: Station, clockRate: nat, capacity: nat, c: Cycle)
    requires s.Ok() && s.link.stored == s.link.landed && HasRoom(s, clockRate, capacity)
    ensures var next := StationStep(s, clockRate, capacity, c.offer, c.req); next.link.stored == next.link.landed
  {
    hide RxLands, ClocksPerBit, Step, UartSpec.RxStep;
  }

  /**
   Nothing is lost between the injector and the bus: if the ring has room whenever a byte completes, then ten
   bit times after the last offer the bytes returned by reads, followed by those in the ring, are exactly the
   bytes sent, whatever else the bus did short of changing the baud rate.
   */
  lemma BusReceivesAll(s: Station, clockRate: nat, capacity: nat, busy: seq<Cycle>, quiet: seq<Cycle>)
    requires Fresh(s, clockRate) && KeepsRate(busy + quiet) && Room(s, clockRate, capacity, busy + quiet)
    requires forall i :: 0 <= i < |quiet| ==> quiet[i].offer.None?
    requires |quiet| >= 10 * ClocksPerBit(clockRate, s.u.device.baud)
    ensures var s' := StationRun(s, clockRate, capacity, busy + quiet);
            s'.returned + s'.u.rx.queue == s'.link.taken
  {
    hide ClocksPerBit, WritesBaud, StationRun, StationOk, Room;
    FreshIsOk(s, clockRate);
    AllArrive(s, clockRate, capacity, busy, quiet);
  }

  /** The same from any state in which nothing has been dropped so far. */
  lemma AllArrive(s: Station, clockRate: nat, capacity: nat, busy: seq<Cycle>, quiet: seq<Cycle>)
    requires StationOk(s, ClocksPerBit(clockRate, s.u.device.baud)) && s.link.stored == s.link.landed
    requires MIN_BIT <= ClocksPerBit(clockRate, s.u.device.baud) <= COUNTER_MAX
    requires KeepsRate(busy + quiet) && Room(s, clockRate, capacity, busy + quiet)
    requires forall i :: 0 <= i < |quiet| ==> quiet[i].offer.None?
    requires |quiet| >= 10 * ClocksPerBit(clockRate, s.u.device.baud)
    ensures var s' := StationRun(s, clockRate, capacity, busy + quiet);
            s'.returned + s'.u.rx.queue == s'.link.taken
  {
    assert s.Ok();
    hide ClocksPerBit, WritesBaud, StationRun, StationOk, Run, Room, LinkOk, EventsOf;
    var bit := ClocksPerBit(clockRate, s.u.device.baud);
    RateKept(busy, quiet);
    StationRunStays(s, clockRate, capacity, busy);
    StationRunStays(s, clockRate, capacity, busy + quiet);
    AllStored(s, clockRate, capacity, busy + quiet);
    var mid := StationRun(s, clockRate, capacity, busy);
    StationJoins(s, clockRate, capacity, busy, quiet);
    StationIsRun(mid, clockRate, capacity, quiet);
    var events := EventsOf(mid, clockRate, capacity, quiet);
    EventsOffer(mid, clockRate, capacity, quiet);
    StationLink(mid, bit);
    EveryByteCompletes(mid.link, bit, capacity, events);
    KeepsTaken(mid.link, bit, capacity, events, |events|);
    StoredIsHeld(StationRun(s, clockRate, capacity, busy + quiet), bit);
  }

  lemma StationLink(s: Station, bit: nat)
    requires StationOk(s, bit)
    ensures s.Ok() && LinkOk(s.link, bit)
  {
    hide LinkOk;
  }

  lemma FreshIsOk(s: Station, clockRate: nat)
    requires Fresh(s, clockRate)
    ensures StationOk(s, ClocksPerBit(clockRate, s.u.device.baud)) && s.link.stored == s.link.landed
    ensures MIN_BIT <= ClocksPerBit(clockRate, s.u.device.baud) <= COUNTER_MAX
  {
    hide ClocksPerBit;
  }

  lemma RateKept(busy: seq<Cycle>, quiet: seq<Cycle>)
    requires KeepsRate(busy + quiet)
    ensures KeepsRate(busy) && KeepsRate(quiet)
  {
    assert forall i :: 0 <= i < |busy| ==> busy[i] == (busy + quiet)[i];
    assert forall i :: 0 <= i < |quiet| ==> quiet[i] == (busy + quiet)[|busy| + i];
  }

  /** What is completed and kept is what was read and is held. */
  lemma StoredIsHeld(s: Station, bit: nat)
    requires StationOk(s, bit)
    ensures s.returned + s.u.rx.queue == s.link.stored
  {
    hide LineOk, Follows;
  }

  lemma {:induction false} KeepsTaken(k: Link, bit: nat, capacity: nat, events: seq<Event>, n: nat)
    requires k.Ok() && n <= |events| && forall i :: 0 <= i < |events| ==> events[i].offer.None?
    ensures Run(k, bit, capacity, events, n).taken == k.taken
  {
    if n > 0 {
      KeepsTaken(k, bit, capacity, events, n - 1);
      TakenStep(Run(k, bit, capacity, events, n - 1), bit, capacity, events[n - 1]);
      hide LinkStep;
    }
  }

  lemma TakenStep(k: Link, bit: nat, capacity: nat, e: Event)
    requires k.Ok() && e.offer.None?
    ensures LinkStep(k, bit, capacity, e).taken == k.taken
  {
    hide UartSpec.RxStep;
  }
}
