/**
 Transmitting from reset. The transmit counter runs while no rate is selected, and selecting one does not restart
 it: a rate selected more than a bit time after reset takes effect only when the counter has wrapped.
 */
module UartStart {
  import opened Obi
  import opened Bits
  import opened Words
  import opened UartSpec
  import opened SimUart
  import opened UartTx

  const ALL := Enables(true, true, true, true)

  const POWER_ON := System(Uart(DEVICE_RESET, TX_RESET, RX_RESET), DECODER_RESET, [], [], [])

  /** The store that selects a rate. */
  function SelectRate(w: Word): Request {
    Request(0x4, true, ALL, w)
  }

  predicate Silent(trace: seq<Cycle>) {
    forall i :: 0 <= i < |trace| ==> trace[i].req.None?
  }

  predicate KeepsRate(trace: seq<Cycle>) {
    forall i :: 0 <= i < |trace| ==> !WritesBaud(trace[i].req)
  }

  const TURN := 0x1_0000_0000

  /** The firmware's first store selects 9600 baud. */
  lemma FirmwareRate(clockRate: nat)
    ensures ClocksPerBit(clockRate, WordOf(2).b0) == clockRate / 9600
  {
    BytePower();
    ValueRoundTrip(2, 8);
  }

  lemma NoRate(clockRate: nat)
    ensures ClocksPerBit(clockRate, CLEAR) == 0
  {
    ByteResetValues();
    hide Value;
  }

  // ----- before and after the rate is selected -----

  /** No rate, nothing enqueued, the transmit counter at `c`. */
  predicate Off(s: System, c: nat) {
    && s.Ok() && s.u.device.baud == CLEAR && s.u.device.byteIdx == 0 && s.u.tx.phase.Idle? && s.u.tx.queue == []
    && s.u.tx.counter == c && c < TURN && s.dec.phase.Idle? && s.offered == s.pushed == s.reported == []
  }

  function Tick(c: nat): nat {
    if c + 1 == TURN then 0 else c + 1
  }

  lemma OffStep(s: System, clockRate: nat, capacity: nat, c: Cycle, counter: nat, w: Word)
    requires Off(s, counter) && s.u.device.state.WaitRequest?
    requires c.req.None? || c.req == Some(SelectRate(w))
    ensures var s' := SystemStep(s, clockRate, capacity, c);
            && Off(s', Tick(counter))
            && (c.req.None? ==> s'.u.device.state.WaitRequest?)
            && (c.req.Some? ==> s'.u.device.state.WriteLane? && s'.u.device.we && s'.u.device.addr == BAUD_LANE
                                && s'.u.device.wdata == w)
  {
    NoRate(clockRate);
    hide ClocksPerBit, RxStep;
  }

  lemma SelectStep(s: System, clockRate: nat, capacity: nat, c: Cycle, counter: nat)
    requires Off(s, counter) && s.u.device.state.WriteLane? && s.u.device.we && s.u.device.addr == BAUD_LANE
    ensures var s' := SystemStep(s, clockRate, capacity, c);
            && s'.u.device.baud == s.u.device.wdata.b0 && s'.u.device.state.WaitRequest?
            && Off(s'.(u := s'.u.(device := s'.u.device.(baud := CLEAR))), Tick(counter))
  {
    NoRate(clockRate);
    hide ClocksPerBit, RxStep;
  }

  lemma TickIsNext(n: nat)
    ensures (n + 1) % TURN == Tick(n % TURN)
  {
  }

  lemma {:induction false} StaysOff(clockRate: nat, capacity: nat, idle: seq<Cycle>)
    requires Silent(idle)
    ensures var s := Run(POWER_ON, clockRate, capacity, idle);
            Off(s, |idle| % TURN) && s.u.device.state.WaitRequest?
  {
    hide SystemStep;
    if idle != [] {
      var before := idle[..|idle| - 1];
      StaysOff(clockRate, capacity, before);
      TickIsNext(|before|);
      OffStep(Run(POWER_ON, clockRate, capacity, before), clockRate, capacity, idle[|before|], |before| % TURN, ZERO);
    }
  }

  lemma {:induction false} Joins(s: System, clockRate: nat, capacity: nat, a: seq<Cycle>, b: seq<Cycle>)
    requires s.Ok()
    ensures Run(s, clockRate, capacity, a + b) == Run(Run(s, clockRate, capacity, a), clockRate, capacity, b)
    decreases |b|
  {
    hide SystemStep;
    if b == [] {
      assert a + b == a;
    } else {
      Joins(s, clockRate, capacity, a, b[..|b| - 1]);
      assert (a + b)[..|a + b| - 1] == a + b[..|b| - 1];
    }
  }

  /** The rate has just been selected. */
  lemma Selected(clockRate: nat, capacity: nat, idle: seq<Cycle>, c: Cycle, c': Cycle, w: Word)
    requires Silent(idle) && c.req == Some(SelectRate(w))
    ensures var s := Run(POWER_ON, clockRate, capacity, idle + [c, c']);
            && s.Ok() && s.u.device.baud == w.b0 && s.u.device.state.WaitRequest?
            && Off(s.(u := s.u.(device := s.u.device.(baud := CLEAR))), (|idle| + 2) % TURN)
  {
    hide SystemStep, Off;
    StaysOff(clockRate, capacity, idle);
    Joins(POWER_ON, clockRate, capacity, idle, [c, c']);
    var s := Run(POWER_ON, clockRate, capacity, idle);
    OffStep(s, clockRate, capacity, c, |idle| % TURN, w);
    SelectStep(SystemStep(s, clockRate, capacity, c), clockRate, capacity, c', Tick(|idle| % TURN));
    TickIsNext(|idle|);
    TickIsNext(|idle| + 1);
    assert [c, c'][..1] == [c] && [c][..0] == [];
    assert Run(s, clockRate, capacity, [c]) == SystemStep(Run(s, clockRate, capacity, []), clockRate, capacity, c);
  }

  // ----- the wait for the counter -----

  /** The counter `c` is past its period: nothing moves, what is written stays in the ring. */
  ghost predicate Stalled(s: System, bit: nat, c: nat) {
    && s.Ok() && s.u.tx.phase.Idle? && s.u.tx.counter == c && bit <= c < TURN && s.dec.phase.Idle?
    && s.reported == [] && s.pushed == s.u.tx.queue
    && s.offered == s.pushed + Unwritten(s.u.device)
    && (!InTxWrite(s.u.device) ==> s.u.device.byteIdx == 0)
    && !(s.u.device.state.WriteLane? && s.u.device.we && s.u.device.addr == BAUD_LANE)
  }

  lemma StalledStep(s: System, clockRate: nat, capacity: nat, c: Cycle, counter: nat)
    requires Stalled(s, ClocksPerBit(clockRate, s.u.device.baud), counter) && !WritesBaud(c.req)
    requires MIN_BIT <= ClocksPerBit(clockRate, s.u.device.baud) <= COUNTER_MAX
    ensures var s', bit := SystemStep(s, clockRate, capacity, c), ClocksPerBit(clockRate, s.u.device.baud);
            && s'.u.device.baud == s.u.device.baud
            && if counter + 1 < TURN then Stalled(s', bit, counter + 1) else SystemOk(s', bit)
  {
    var bit := ClocksPerBit(clockRate, s.u.device.baud);
    var push := Push(s.u.device, s.u.tx, capacity);
    StepParts(s, clockRate, capacity, c);
    WriteStep(s.u.device, s.u.tx, s.u.rx, capacity, c.req);
    LinkWaits(s.OnLine(), bit, push, counter);
    hide ClocksPerBit, SystemStep, LinkStep, DeviceStep, Unwritten, StartsTxWrite, WritesBaud, Push, LinkOk;
    hide EnabledFrom;
    var s' := SystemStep(s, clockRate, capacity, c);
    Rebracket(s.pushed, Unwritten(s.u.device),
              if StartsTxWrite(s.u.device, c.req) then EnabledFrom(c.req.value.wdata, c.req.value.be, 0) else [],
              match push case None => [] case Some(b) => [b], Unwritten(s'.u.device));
  }

  lemma LinkWaits(k: Link, bit: nat, push: Option<Byte>, c: nat)
    requires k.Ok() && k.tx.phase.Idle? && k.tx.counter == c && MIN_BIT <= bit <= c < TURN && k.dec.phase.Idle?
    requires k.reported == [] && k.pushed == k.tx.queue && bit <= COUNTER_MAX
    ensures var k' := LinkStep(k, bit, push);
            && k'.Ok() && k'.tx.phase.Idle? && k'.dec.phase.Idle? && k'.reported == [] && k'.pushed == k'.tx.queue
            && k'.tx.counter == Tick(c) && (c + 1 == TURN ==> LinkOk(k', bit))
  {
  }

  lemma {:induction false} Waits(s: System, clockRate: nat, capacity: nat, trace: seq<Cycle>, counter: nat)
    requires Stalled(s, ClocksPerBit(clockRate, s.u.device.baud), counter) && KeepsRate(trace)
    requires MIN_BIT <= ClocksPerBit(clockRate, s.u.device.baud) <= COUNTER_MAX
    ensures var s', bit := Run(s, clockRate, capacity, trace), ClocksPerBit(clockRate, s.u.device.baud);
            && s'.u.device.baud == s.u.device.baud
            && if counter + |trace| < TURN then Stalled(s', bit, counter + |trace|) else SystemOk(s', bit)
  {
    assert s.Ok();
    hide Stalled, SystemOk, SystemStep, ClocksPerBit, WritesBaud;
    if trace != [] {
      var before, c := trace[..|trace| - 1], trace[|trace| - 1];
      Waits(s, clockRate, capacity, before, counter);
      var mid := Run(s, clockRate, capacity, before);
      if counter + |before| < TURN {
        StalledStep(mid, clockRate, capacity, c, counter + |before|);
      } else {
        SystemStays(mid, clockRate, capacity, c);
      }
    }
  }

  // ----- from reset -----

  /** The rate is selected in time: before the counter has passed one bit of the new rate. */
  predicate InTime(idle: nat, bit: nat) {
    (idle + 2) % TURN < bit
  }

  /** Clocks the transmitter still loses. */
  function Lost(idle: nat, bit: nat): nat {
    if InTime(idle, bit) then 0 else TURN - (idle + 2) % TURN
  }

  /**
   From reset, with the rate selected by the first store, `idle` clocks late, and any requests after it that keep
   that rate: what the decoder reports is always a prefix of what the bus wrote. If the store was in time the
   transmitter is in step from then on; if not, nothing at all is reported until the counter has wrapped, and it
   is in step from then on.
   */
  lemma TransmitsFromReset(clockRate: nat, capacity: nat, idle: seq<Cycle>, select: seq<Cycle>, w: Word,
                           trace: seq<Cycle>)
    requires Silent(idle) && |select| == 2 && select[0].req == Some(SelectRate(w)) && KeepsRate(trace)
    requires MIN_BIT <= ClocksPerBit(clockRate, w.b0) <= COUNTER_MAX
    ensures var s, bit := Run(POWER_ON, clockRate, capacity, idle + select + trace), ClocksPerBit(clockRate, w.b0);
            && s.u.device.baud == w.b0 && s.reported <= s.offered
            && (|trace| < Lost(|idle|, bit) ==> s.reported == [])
            && (|trace| >= Lost(|idle|, bit) ==> SystemOk(s, bit))
  {
    var bit := ClocksPerBit(clockRate, w.b0);
    hide ClocksPerBit, SystemStep, Run, WritesBaud, SystemOk;
    assert select == [select[0], select[1]];
    Selected(clockRate, capacity, idle, select[0], select[1], w);
    Joins(POWER_ON, clockRate, capacity, idle + select, trace);
    var mid, c := Run(POWER_ON, clockRate, capacity, idle + select), (|idle| + 2) % TURN;
    var s := Run(mid, clockRate, capacity, trace);
    if InTime(|idle|, bit) {
      assert Idling(mid, clockRate);
      IdlingIsOk(mid, clockRate);
      RunStays(mid, clockRate, capacity, trace);
      LogsBehind(s, bit);
    } else {
      assert Stalled(mid, bit, c);
      Waits(mid, clockRate, capacity, trace, c);
      if c + |trace| >= TURN {
        LogsBehind(s, bit);
      }
    }
  }

  /** And once the bus is quiet for the backlog's number of clocks everything written has been reported. */
  lemma AllReportedFromReset(clockRate: nat, capacity: nat, idle: seq<Cycle>, select: seq<Cycle>, w: Word,
                             trace: seq<Cycle>, quiet: seq<Cycle>)
    requires Silent(idle) && |select| == 2 && select[0].req == Some(SelectRate(w)) && KeepsRate(trace)
    requires MIN_BIT <= ClocksPerBit(clockRate, w.b0) <= COUNTER_MAX && capacity > 0
    requires |trace| >= Lost(|idle|, ClocksPerBit(clockRate, w.b0)) && Silent(quiet)
    requires |quiet|
             >= Backlog(Run(POWER_ON, clockRate, capacity, idle + select + trace), ClocksPerBit(clockRate, w.b0))
    ensures Run(POWER_ON, clockRate, capacity, idle + select + trace + quiet).reported
            == Run(POWER_ON, clockRate, capacity, idle + select + trace).offered
  {
    hide ClocksPerBit, SystemStep, Run, WritesBaud, SystemOk, Backlog;
    TransmitsFromReset(clockRate, capacity, idle, select, w, trace);
    Joins(POWER_ON, clockRate, capacity, idle + select + trace, quiet);
    EventuallyReported(Run(POWER_ON, clockRate, capacity, idle + select + trace), clockRate, capacity, quiet);
  }
}
