/**
 Receiving from reset. The synchronizer resets to low, so the receiver begins in a start bit that is not there and
 leaves it when its baud counter, which runs from then on, is next in the middle of a bit of the selected rate.
 */
module UartWake {
  import opened Obi
  import opened Bits
  import opened UartSpec
  import opened SimUart
  import opened UartRx
  import opened UartRxBus
  import Start = UartStart

  const POWER_ON :=
    Station(Uart(DEVICE_RESET, TX_RESET, RX_RESET), Link(INJECTOR_RESET, RX_RESET, [], [], [], []), [])

  /** Nothing on the line and no access of the bus. */
  predicate Idle(trace: seq<Cycle>) {
    forall i :: 0 <= i < |trace| ==> trace[i] == Cycle(None, None)
  }

  predicate NoOffers(trace: seq<Cycle>) {
    forall i :: 0 <= i < |trace| ==> trace[i].offer.None?
  }

  // ----- before the rate is selected -----

  /** The receiver `t` clocks after reset while no rate is selected. */
  predicate Dozing(rx: Rx, t: nat) {
    && rx.Ok() && rx.queue == []
    && if t == 0 then rx == RX_RESET
       else if t == 1 then rx == RX_RESET.(phase := UartSpec.Start, restart := true, counter := 1, sync1 := true)
       else rx.sync0 && rx.sync1 && !rx.restart && rx.counter == (t - 2) % Start.TURN
            && (if t - 2 < Start.TURN then rx.phase.Start? else rx.phase.Idle?)
  }

  lemma DozingStep(rx: Rx, capacity: nat, t: nat, pop: bool)
    requires Dozing(rx, t)
    ensures Dozing(RxStep(rx, 0, capacity, true, pop), t + 1)
  {
    if t >= 2 {
      Start.TickIsNext(t - 2);
    }
    hide SetBit;
  }

  /** Nothing sent, nothing received. */
  predicate Untouched(s: Station) {
    && s.Ok() && s.u.rx == s.link.rx && s.link.inj.phase.Idle? && !s.link.inj.ready
    && s.link.taken == s.link.landed == s.link.stored == s.link.read == s.returned == []
  }

  lemma StationDozes(s: Station, clockRate: nat, capacity: nat, c: Cycle, t: nat)
    requires Untouched(s) && Dozing(s.link.rx, t) && s.u.device.baud == CLEAR && !Pop(s.u.device) && c.offer.None?
    ensures var s' := StationStep(s, clockRate, capacity, c.offer, c.req);
            && Untouched(s') && Dozing(s'.link.rx, t + 1)
            && s'.u.device == DeviceStep(s.u.device, s.u.tx, s.u.rx, capacity, c.req)
  {
    Start.NoRate(clockRate);
    DozingStep(s.link.rx, capacity, t, false);
    assert !RxLands(s.link.rx, 0);
    hide ClocksPerBit, RxStep, TxStep, DeviceStep, RxLands, Dozing;
  }

  lemma {:induction false} StaysDozing(clockRate: nat, capacity: nat, idle: seq<Cycle>)
    requires Idle(idle)
    ensures var s := StationRun(POWER_ON, clockRate, capacity, idle);
            && Untouched(s) && Dozing(s.link.rx, |idle|)
            && s.u.device.state.WaitRequest? && s.u.device.baud == CLEAR
  {
    hide StationStep, Dozing;
    if idle != [] {
      var before := idle[..|idle| - 1];
      StaysDozing(clockRate, capacity, before);
      StationDozes(StationRun(POWER_ON, clockRate, capacity, before), clockRate, capacity, idle[|before|], |before|);
    } else {
      DozesFirst();
    }
  }

  lemma DozesFirst()
    ensures Untouched(POWER_ON) && Dozing(POWER_ON.link.rx, 0)
  {
  }

  /** The two clocks of the store that selects the rate. */
  lemma Selects(clockRate: nat, capacity: nat, idle: seq<Cycle>, c: Cycle, c': Cycle, w: Word)
    requires Idle(idle) && c == Cycle(None, Some(Start.SelectRate(w))) && c'.offer.None?
    ensures var s := StationRun(POWER_ON, clockRate, capacity, idle + [c, c']);
            Untouched(s) && Dozing(s.link.rx, |idle| + 2) && s.u.device.state.WaitRequest? && s.u.device.baud == w.b0
  {
    hide StationStep, Dozing;
    StaysDozing(clockRate, capacity, idle);
    var s := StationRun(POWER_ON, clockRate, capacity, idle);
    StationDozes(s, clockRate, capacity, c, |idle|);
    StationDozes(StationStep(s, clockRate, capacity, c.offer, c.req), clockRate, capacity, c', |idle| + 1);
    assert (idle + [c, c'])[..|idle| + 1] == idle + [c] && (idle + [c])[..|idle|] == idle;
  }

  // ----- until the receiver is idle -----

  /** Clocks until the receiver leaves the start bit it woke up in, from its counter. */
  function Deaf(c: nat, bit: nat): nat
    requires c < Start.TURN
  {
    if c < bit / 2 then bit / 2 - c
    else if c < bit then bit - c + bit / 2
    else Start.TURN - c + bit / 2
  }

  /** In that start bit, the line high. */
  predicate Waking(rx: Rx) {
    rx.Ok() && rx.phase.Start? && !rx.restart && rx.sync0 && rx.sync1 && rx.queue == [] && rx.counter < Start.TURN
  }

  predicate Awake(rx: Rx) {
    rx.Ok() && rx.phase.Idle? && rx.sync0 && rx.sync1 && rx.queue == []
  }

  lemma WakingStep(rx: Rx, bit: nat, capacity: nat, pop: bool)
    requires Waking(rx) && MIN_BIT <= bit <= COUNTER_MAX
    ensures var rx' := RxStep(rx, bit, capacity, true, pop);
            && !RxLands(rx, bit)
            && if Deaf(rx.counter, bit) == 1 then Awake(rx')
               else Waking(rx') && Deaf(rx'.counter, bit) == Deaf(rx.counter, bit) - 1
  {
  }

  lemma AwakeStep(rx: Rx, bit: nat, capacity: nat, pop: bool)
    requires Awake(rx)
    ensures Awake(RxStep(rx, bit, capacity, true, pop)) && !RxLands(rx, bit)
  {
  }

  /** `left` clocks before the receiver is idle; none once it is. */
  ghost predicate Wakes(s: Station, bit: nat, left: nat) {
    && Untouched(s)
    && !(s.u.device.state.WriteLane? && s.u.device.we && s.u.device.addr == BAUD_LANE)
    && if left == 0 then Awake(s.link.rx) else Waking(s.link.rx) && Deaf(s.link.rx.counter, bit) == left
  }

  lemma WakesStep(s: Station, clockRate: nat, capacity: nat, c: Cycle, left: nat)
    requires Wakes(s, ClocksPerBit(clockRate, s.u.device.baud), left) && c.offer.None? && !WritesBaud(c.req)
    requires MIN_BIT <= ClocksPerBit(clockRate, s.u.device.baud) <= COUNTER_MAX
    ensures var s' := StationStep(s, clockRate, capacity, c.offer, c.req);
            && s'.u.device.baud == s.u.device.baud
            && Wakes(s', ClocksPerBit(clockRate, s.u.device.baud), if left > 0 then left - 1 else 0)
  {
    var bit, pop := ClocksPerBit(clockRate, s.u.device.baud), Pop(s.u.device);
    if left > 0 {
      WakingStep(s.link.rx, bit, capacity, pop);
    } else {
      AwakeStep(s.link.rx, bit, capacity, pop);
    }
    DeviceKeepsBaud(s.u.device, s.u.tx, s.u.rx, capacity, c.req);
    hide ClocksPerBit, RxStep, TxStep, DeviceStep, RxLands, WritesBaud, Deaf, Pop;
  }

  lemma {:induction false} WakesUp(s: Station, clockRate: nat, capacity: nat, warm: seq<Cycle>, left: nat)
    requires Wakes(s, ClocksPerBit(clockRate, s.u.device.baud), left) && NoOffers(warm) && KeepsRate(warm)
    requires MIN_BIT <= ClocksPerBit(clockRate, s.u.device.baud) <= COUNTER_MAX
    ensures var s', bit := StationRun(s, clockRate, capacity, warm), ClocksPerBit(clockRate, s.u.device.baud);
            && s'.u.device.baud == s.u.device.baud
            && Wakes(s', bit, if left > |warm| then left - |warm| else 0)
  {
    assert s.Ok();
    hide StationStep, Wakes, ClocksPerBit, WritesBaud;
    if warm != [] {
      var before := warm[..|warm| - 1];
      WakesUp(s, clockRate, capacity, before, left);
      WakesStep(StationRun(s, clockRate, capacity, before), clockRate, capacity, warm[|before|],
                if left > |before| then left - |before| else 0);
    }
  }

  // ----- from reset -----

  /** Clocks the receiver is deaf after a rate is selected, `idle` clocks after reset. */
  function DeafFor(idle: nat, bit: nat): nat {
    if idle < Start.TURN then Deaf(idle, bit) else 0
  }

  lemma SelectedWakes(s: Station, idle: nat, bit: nat)
    requires Untouched(s) && Dozing(s.link.rx, idle + 2) && s.u.device.state.WaitRequest?
    requires MIN_BIT <= bit <= COUNTER_MAX
    ensures Wakes(s, bit, DeafFor(idle, bit))
  {
  }

  /** An idle receiver is where every guarantee starts from. */
  lemma AwakeIsOk(s: Station, bit: nat)
    requires Wakes(s, bit, 0)
    ensures StationOk(s, bit) && s.link.stored == s.link.landed
  {
  }

  /**
   From reset, with the rate selected by the first store, `idle` clocks late: after `DeafFor` clocks without a byte
   on the line, whatever the bus does in them, nothing sent is lost, as long as the rate is kept and the ring has
   room whenever a byte completes.
   */
  lemma ReceivesFromReset(clockRate: nat, capacity: nat, idle: seq<Cycle>, select: seq<Cycle>, w: Word,
                          warm: seq<Cycle>, busy: seq<Cycle>, quiet: seq<Cycle>)
    requires Idle(idle) && |select| == 2 && select[0] == Cycle(None, Some(Start.SelectRate(w)))
    requires select[1].offer.None? && NoOffers(warm) && NoOffers(quiet) && KeepsRate(warm) && KeepsRate(busy + quiet)
    requires MIN_BIT <= ClocksPerBit(clockRate, w.b0) <= COUNTER_MAX
    requires |warm| >= DeafFor(|idle|, ClocksPerBit(clockRate, w.b0))
    requires |quiet| >= 10 * ClocksPerBit(clockRate, w.b0)
    requires Room(StationRun(POWER_ON, clockRate, capacity, idle + select + warm), clockRate, capacity, busy + quiet)
    ensures var s := StationRun(POWER_ON, clockRate, capacity, idle + select + warm + (busy + quiet));
            s.returned + s.u.rx.queue == s.link.taken
  {
    hide ClocksPerBit, StationStep, StationRun, Room, WritesBaud, StationOk, Dozing, Wakes, Untouched, DeafFor;
    var bit := ClocksPerBit(clockRate, w.b0);
    assert select == [select[0], select[1]];
    Selects(clockRate, capacity, idle, select[0], select[1], w);
    var chosen := StationRun(POWER_ON, clockRate, capacity, idle + select);
    SelectedWakes(chosen, |idle|, bit);
    WakesUp(chosen, clockRate, capacity, warm, DeafFor(|idle|, bit));
    StationJoins(POWER_ON, clockRate, capacity, idle + select, warm);
    var awake := StationRun(POWER_ON, clockRate, capacity, idle + select + warm);
    AwakeIsOk(awake, bit);
    StationJoins(POWER_ON, clockRate, capacity, idle + select + warm, busy + quiet);
    AllArrive(awake, clockRate, capacity, busy, quiet);
  }

  // ----- a rate selected late -----

  /** The counter is past its period and nothing has completed. */
  predicate Stuck(s: Station, c: nat) {
    && s.Ok() && s.u.rx == s.link.rx && s.link.rx.phase.Start? && !s.link.rx.restart && s.link.rx.counter == c
    && s.link.rx.queue == [] && s.link.landed == s.link.read == s.returned == []
    && !(s.u.device.state.WriteLane? && s.u.device.we && s.u.device.addr == BAUD_LANE)
  }

  lemma StuckStep(s: Station, clockRate: nat, capacity: nat, c: Cycle, counter: nat)
    requires Stuck(s, counter) && !WritesBaud(c.req)
    requires MIN_BIT <= ClocksPerBit(clockRate, s.u.device.baud) <= counter < Start.TURN
    ensures var s' := StationStep(s, clockRate, capacity, c.offer, c.req);
            s'.u.device.baud == s.u.device.baud && Stuck(s', Start.Tick(counter))
  {
    DeviceKeepsBaud(s.u.device, s.u.tx, s.u.rx, capacity, c.req);
    hide ClocksPerBit, TxStep, DeviceStep, InjectorTick, WritesBaud, Pop, SetBit;
  }

  lemma {:induction false} StaysStuck(s: Station, clockRate: nat, capacity: nat, trace: seq<Cycle>, counter: nat)
    requires Stuck(s, counter) && KeepsRate(trace) && counter + |trace| <= Start.TURN
    requires MIN_BIT <= ClocksPerBit(clockRate, s.u.device.baud) <= counter < Start.TURN
    ensures var s' := StationRun(s, clockRate, capacity, trace);
            && s'.u.device.baud == s.u.device.baud
            && Stuck(s', if counter + |trace| < Start.TURN then counter + |trace| else 0)
  {
    assert s.Ok();
    hide StationStep, Stuck, ClocksPerBit, WritesBaud;
    if trace != [] {
      var before := trace[..|trace| - 1];
      StaysStuck(s, clockRate, capacity, before, counter);
      StuckStep(StationRun(s, clockRate, capacity, before), clockRate, capacity, trace[|before|], counter + |before|);
    }
  }

  lemma DozingIsStuck(s: Station, idle: nat)
    requires Untouched(s) && Dozing(s.link.rx, idle + 2) && s.u.device.state.WaitRequest? && idle < Start.TURN
    ensures Stuck(s, idle)
  {
  }

  /**
   A rate selected more than a bit time after reset, and before the counter's first wrap: until it wraps, nothing
   that is sent is ever received.
   */
  lemma DeafFromReset(clockRate: nat, capacity: nat, idle: seq<Cycle>, select: seq<Cycle>, w: Word, trace: seq<Cycle>)
    requires Idle(idle) && |select| == 2 && select[0] == Cycle(None, Some(Start.SelectRate(w)))
    requires select[1].offer.None? && KeepsRate(trace)
    requires MIN_BIT <= ClocksPerBit(clockRate, w.b0) <= |idle| < Start.TURN
    requires |idle| + |trace| <= Start.TURN
    ensures var s := StationRun(POWER_ON, clockRate, capacity, idle + select + trace);
            s.link.landed == [] && s.returned + s.u.rx.queue == []
  {
    hide ClocksPerBit, StationStep, StationRun, WritesBaud, Dozing, Untouched;
    assert select == [select[0], select[1]];
    Selects(clockRate, capacity, idle, select[0], select[1], w);
    var chosen := StationRun(POWER_ON, clockRate, capacity, idle + select);
    StationJoins(POWER_ON, clockRate, capacity, idle + select, trace);
    DozingIsStuck(chosen, |idle|);
    StaysStuck(chosen, clockRate, capacity, trace, |idle|);
  }
}
