/**
 The transmit round trip: what the simulation's decoder reports is what the bus wrote, although
 the transmitter spends `bit` clocks on each bit and the decoder `bit - 1` (half that on the start
 bit). The two stay in step within a frame from 17 clocks per bit on; `UartTxBound` shows that fewer do not do.
 */
module UartTx {
  import opened Obi
  import opened Bits
  import opened UartSpec
  import opened SimUart
  import opened Arithmetic

  const MIN_BIT := 17

  /** Transmitter and decoder, with every byte enqueued and every byte reported so far. */
  datatype Link = Link(tx: Tx, dec: Decoder, pushed: seq<Byte>, reported: seq<Byte>) {
    predicate Ok() {
      tx.Ok() && DecoderOk(dec)
    }
  }

  /** The decoder reads the line before the clock edge. */
  function LinkStep(k: Link, bit: nat, push: Option<Byte>): (k': Link)
    requires k.Ok()
    ensures k'.Ok()
  {
    var (dec, report) := DecoderTick(k.dec, bit, TxLine(k.tx));
    Link(TxStep(k.tx, bit, push), dec,
         k.pushed + (match push case None => [] case Some(b) => [b]),
         k.reported + (match report case None => [] case Some(b) => [b]))
  }

  // ----- the invariant -----

  /** Which bit of the frame is on the line: 0 the start bit, 1 to 8 the data, 9 the stop bit. */
  function Slot(tx: Tx): nat {
    match tx.phase
    case Idle => 0
    case Start => 0
    case Data => 1 + tx.count
    case Stop => 9
  }

  /** The decoder has finished with the frame on the line. */
  predicate Past(tx: Tx, bit: nat) {
    tx.phase.Stop? && tx.counter >= Half(bit) - 8
  }

  /** Outside IDLE the ring is not empty and the latch holds its oldest byte. */
  ghost predicate Running(tx: Tx, bit: nat) {
    && tx.Ok() && tx.counter < bit
    && (!tx.phase.Idle? ==> tx.queue != [] && tx.latch == tx.queue[0])
  }

  /** The ring is the tail of what was pushed; what is ahead of it, and at most its head, was reported. */
  ghost predicate Logs(pushed: seq<Byte>, reported: seq<Byte>, queue: seq<Byte>, past: bool) {
    && |queue| <= |pushed| && queue == pushed[|pushed| - |queue|..]
    && (past ==> queue != [])
    && reported == pushed[..|pushed| - |queue|] + if past then [queue[0]] else []
  }

  ghost predicate Logged(k: Link, bit: nat) {
    Logs(k.pushed, k.reported, k.tx.queue, Past(k.tx, bit))
  }

  /** The decoder samples `b` bits after the start bit with its clock running `b` ahead of the line. */
  ghost predicate InStep(tx: Tx, b: nat, ticks: nat, bit: nat) {
    var x := Half(bit) - b + ticks + 1;
    (Slot(tx) == b && tx.counter == x) || (Slot(tx) == b + 1 && tx.counter == x - bit)
  }

  ghost predicate DecodesFrame(tx: Tx, dec: Decoder, bit: nat)
    requires DecoderOk(dec)
  {
    match dec.phase
    case Idle => tx.phase.Idle? || (tx.phase.Start? && tx.counter == 0) || Past(tx, bit)
    case Start => tx.phase.Start? && tx.counter == dec.ticks + 1 && dec.ticks < Half(bit) && dec.val == CLEAR
    case Data =>
      && !tx.phase.Idle? && dec.ticks < bit - 1 && InStep(tx, dec.bit, dec.ticks, bit)
      && forall j :: 0 <= j < 8 ==> (dec.val[j] <==> j < dec.bit && tx.latch[j])
    case Stop => !tx.phase.Idle? && dec.ticks < bit - 1 && InStep(tx, 8, dec.ticks, bit) && dec.val == tx.latch
  }

  ghost predicate LinkOk(k: Link, bit: nat) {
    Running(k.tx, bit) && DecoderOk(k.dec) && Logged(k, bit) && DecodesFrame(k.tx, k.dec, bit)
  }

  lemma OrBitReads(val: Byte, i: nat, level: bool, latch: Byte)
    requires i < 8 && (forall j :: 0 <= j < 8 ==> (val[j] <==> j < i && latch[j]))
    requires level == latch[i]
    ensures forall j :: 0 <= j < 8 ==> (OrBit(val, i, level)[j] <==> j < i + 1 && latch[j])
  {
    forall j | 0 <= j < 8
      ensures OrBit(val, i, level)[j] <==> j < i + 1 && latch[j]
    {
    }
  }

  lemma IdleDecoderStays(k: Link, bit: nat, push: Option<Byte>)
    requires MIN_BIT <= bit <= COUNTER_MAX && LinkOk(k, bit) && (k.dec.phase.Idle? || k.dec.phase.Start?)
    ensures DecodesFrame(LinkStep(k, bit, push).tx, LinkStep(k, bit, push).dec, bit)
  {
    hide Half;
    assert forall j :: 0 <= j < 8 ==> !CLEAR[j];
    hide Logged;
  }

  lemma SamplingDecoderStays(k: Link, bit: nat, push: Option<Byte>)
    requires MIN_BIT <= bit <= COUNTER_MAX && LinkOk(k, bit) && k.dec.phase.Data?
    ensures DecodesFrame(LinkStep(k, bit, push).tx, LinkStep(k, bit, push).dec, bit)
  {
    hide Half, Logged;
    var k' := LinkStep(k, bit, push);
    if k.dec.ticks + 1 == bit - 1 {
      OrBitReads(k.dec.val, k.dec.bit, TxLine(k.tx), k.tx.latch);
      if k.dec.bit == 7 {
        assert k'.dec.val == k.tx.latch;
      }
    }
    hide OrBit;
  }

  lemma StoppingDecoderStays(k: Link, bit: nat, push: Option<Byte>)
    requires MIN_BIT <= bit <= COUNTER_MAX && LinkOk(k, bit) && k.dec.phase.Stop?
    ensures DecodesFrame(LinkStep(k, bit, push).tx, LinkStep(k, bit, push).dec, bit)
  {
    hide Half, Logged;
  }

  predicate Pops(tx: Tx, bit: nat) {
    tx.phase.Stop? && AtBaud(tx.counter, bit) && tx.queue != []
  }

  /** A byte is reported exactly when the decoder gets past its frame, and popped after that. */
  lemma ReportIsHead(k: Link, bit: nat, push: Option<Byte>)
    requires MIN_BIT <= bit <= COUNTER_MAX && LinkOk(k, bit)
    ensures var tx', report := TxStep(k.tx, bit, push), DecoderTick(k.dec, bit, TxLine(k.tx)).1;
            && (Pops(k.tx, bit) ==> Past(k.tx, bit) && !Past(tx', bit))
            && (!Pops(k.tx, bit) && Past(k.tx, bit) ==> Past(tx', bit))
            && (if Past(tx', bit) && !Past(k.tx, bit) then k.tx.queue != [] && report == Some(k.tx.queue[0])
                else report == None)
  {
    hide OrBit, Half, Logged;
  }

  lemma RunningStays(tx: Tx, bit: nat, push: Option<Byte>)
    requires 0 < bit <= COUNTER_MAX && Running(tx, bit)
    ensures Running(TxStep(tx, bit, push), bit)
    ensures TxStep(tx, bit, push).queue
            == (if Pops(tx, bit) then tx.queue[1..] else tx.queue) + match push case None => [] case Some(b) => [b]
  {
  }

  lemma ReportsStay(k: Link, bit: nat, push: Option<Byte>)
    requires MIN_BIT <= bit <= COUNTER_MAX && LinkOk(k, bit)
    ensures Logged(LinkStep(k, bit, push), bit)
  {
    ReportIsHead(k, bit, push);
    RunningStays(k.tx, bit, push);
    hide Half, Past, DecodesFrame, DecoderTick, TxStep, TxLine, Logs, Running;
    LogsStep(k.pushed, k.reported, k.tx.queue, Past(k.tx, bit), match push case None => [] case Some(b) => [b],
             Pops(k.tx, bit), Past(TxStep(k.tx, bit, push), bit), DecoderTick(k.dec, bit, TxLine(k.tx)).1);
  }

  lemma LogsStep(pushed: seq<Byte>, reported: seq<Byte>, queue: seq<Byte>, past: bool, push: seq<Byte>,
                 pops: bool, past': bool, report: Option<Byte>)
    requires Logs(pushed, reported, queue, past)
    requires pops ==> past && !past'
    requires !pops && past ==> past'
    requires if past' && !past then queue != [] && report == Some(queue[0]) else report == None
    ensures pops ==> queue != []
    ensures Logs(pushed + push, reported + (match report case None => [] case Some(b) => [b]),
                 (if pops then queue[1..] else queue) + push, past')
  {
    var pushed', queue' := pushed + push, (if pops then queue[1..] else queue) + push;
    assert pushed'[..|pushed'| - |queue'|] == pushed[..|pushed| - |queue|] + if pops then [queue[0]] else [];
  }

  lemma LinkStays(k: Link, bit: nat, push: Option<Byte>)
    requires MIN_BIT <= bit <= COUNTER_MAX && LinkOk(k, bit)
    ensures LinkOk(LinkStep(k, bit, push), bit)
  {
    match k.dec.phase {
      case Idle => IdleDecoderStays(k, bit, push);
      case Start => IdleDecoderStays(k, bit, push);
      case Data => SamplingDecoderStays(k, bit, push);
      case Stop => StoppingDecoderStays(k, bit, push);
    }
    RunningStays(k.tx, bit, push);
    ReportsStay(k, bit, push);
    hide DecodesFrame, Logged, Running;
  }

  // ----- the bus side: which bytes a run enqueues -----

  /** The enabled bytes of a write, from lane `i` up. */
  function EnabledFrom(w: Word, be: Enables, i: nat): seq<Byte>
    requires i <= 4
    decreases 4 - i
  {
    if i == 4 then []
    else (if be.Lane(i) then [w.Lane(i)] else []) + EnabledFrom(w, be, i + 1)
  }

  /** A request the device accepts in this cycle and that writes the transmit lane. */
  predicate StartsTxWrite(d: Device, req: Option<Request>) {
    Granted(d, req) && req.value.we && req.value.addr as nat % 256 == TX_LANE
  }

  predicate InTxWrite(d: Device) {
    d.state.WriteLane? && d.we && d.addr == TX_LANE
  }

  /** The peripheral with the simulation's decoder on its line; `offered` lists the bytes of all TX writes. */
  datatype System = System(u: Uart, dec: Decoder, offered: seq<Byte>, pushed: seq<Byte>, reported: seq<Byte>) {
    predicate Ok() {
      u.Ok() && DecoderOk(dec)
    }

    function OnLine(): Link {
      Link(u.tx, dec, pushed, reported)
    }
  }

  datatype Cycle = Cycle(line: bool, req: Option<Request>)

  function SystemStep(s: System, clockRate: nat, capacity: nat, c: Cycle): (s': System)
    requires s.Ok()
    ensures s'.Ok()
  {
    var d, bit := s.u.device, ClocksPerBit(clockRate, s.u.device.baud);
    var k := LinkStep(s.OnLine(), bit, Push(d, s.u.tx, capacity));
    System(Step(s.u, clockRate, capacity, c.line, c.req), k.dec,
           s.offered + (if StartsTxWrite(d, c.req) then EnabledFrom(c.req.value.wdata, c.req.value.be, 0) else []),
           k.pushed, k.reported)
  }

  /** The bytes of the write in progress that are not yet in the ring. */
  function Unwritten(d: Device): seq<Byte>
    requires d.Ok()
  {
    if InTxWrite(d) then EnabledFrom(d.wdata, d.be, d.byteIdx) else []
  }

  ghost predicate SystemOk(s: System, bit: nat) {
    && s.Ok() && LinkOk(s.OnLine(), bit)
    && s.offered == s.pushed + Unwritten(s.u.device)
    && (!InTxWrite(s.u.device) ==> s.u.device.byteIdx == 0)
    && !(s.u.device.state.WriteLane? && s.u.device.we && s.u.device.addr == BAUD_LANE)
  }

  lemma WriteStep(d: Device, tx: Tx, rx: Rx, capacity: nat, req: Option<Request>)
    requires d.Ok() && !WritesBaud(req) && (!InTxWrite(d) ==> d.byteIdx == 0)
    requires !(d.state.WriteLane? && d.we && d.addr == BAUD_LANE)
    ensures var d' := DeviceStep(d, tx, rx, capacity, req);
            && d'.Ok() && d'.baud == d.baud && (!InTxWrite(d') ==> d'.byteIdx == 0)
            && !(d'.state.WriteLane? && d'.we && d'.addr == BAUD_LANE)
            && Unwritten(d) + (if StartsTxWrite(d, req) then EnabledFrom(req.value.wdata, req.value.be, 0) else [])
               == (match Push(d, tx, capacity) case None => [] case Some(b) => [b]) + Unwritten(d')
  {
    hide ReadData;
  }

  lemma SystemStays(s: System, clockRate: nat, capacity: nat, c: Cycle)
    requires SystemOk(s, ClocksPerBit(clockRate, s.u.device.baud)) && !WritesBaud(c.req)
    requires MIN_BIT <= ClocksPerBit(clockRate, s.u.device.baud) <= COUNTER_MAX
    ensures SystemStep(s, clockRate, capacity, c).u.device.baud == s.u.device.baud
    ensures SystemOk(SystemStep(s, clockRate, capacity, c), ClocksPerBit(clockRate, s.u.device.baud))
  {
    var bit := ClocksPerBit(clockRate, s.u.device.baud);
    LinkStays(s.OnLine(), bit, Push(s.u.device, s.u.tx, capacity));
    WriteStep(s.u.device, s.u.tx, s.u.rx, capacity, c.req);
    StepParts(s, clockRate, capacity, c);
    hide LinkOk, ClocksPerBit, SystemStep, LinkStep, DeviceStep, Unwritten, StartsTxWrite, WritesBaud, Push;
    hide EnabledFrom, InTxWrite;
    var s' := SystemStep(s, clockRate, capacity, c);
    Rebracket(s.pushed, Unwritten(s.u.device),
              if StartsTxWrite(s.u.device, c.req) then EnabledFrom(c.req.value.wdata, c.req.value.be, 0) else [],
              match Push(s.u.device, s.u.tx, capacity) case None => [] case Some(b) => [b],
              Unwritten(s'.u.device));
  }

  lemma Rebracket(pushed: seq<Byte>, rest: seq<Byte>, started: seq<Byte>, push: seq<Byte>, rest': seq<Byte>)
    requires rest + started == push + rest'
    ensures (pushed + rest) + started == (pushed + push) + rest'
  {
    assert (pushed + rest) + started == pushed + (rest + started);
  }

  lemma StepParts(s: System, clockRate: nat, capacity: nat, c: Cycle)
    requires s.Ok()
    ensures var s', bit := SystemStep(s, clockRate, capacity, c), ClocksPerBit(clockRate, s.u.device.baud);
            && s'.OnLine() == LinkStep(s.OnLine(), bit, Push(s.u.device, s.u.tx, capacity))
            && s'.pushed == s.pushed + (match Push(s.u.device, s.u.tx, capacity) case None => [] case Some(b) => [b])
            && s'.u.device == DeviceStep(s.u.device, s.u.tx, s.u.rx, capacity, c.req)
            && s'.offered == s.offered
               + if StartsTxWrite(s.u.device, c.req) then EnabledFrom(c.req.value.wdata, c.req.value.be, 0) else []
  {
    hide ClocksPerBit, DeviceStep, TxStep, RxStep, DecoderTick, StartsTxWrite, Push;
  }

  ghost function Run(s: System, clockRate: nat, capacity: nat, trace: seq<Cycle>): (s': System)
    requires s.Ok()
    ensures s'.Ok()
  {
    if trace == [] then s
    else SystemStep(Run(s, clockRate, capacity, trace[..|trace| - 1]), clockRate, capacity, trace[|trace| - 1])
  }

  lemma {:induction false} RunStays(s: System, clockRate: nat, capacity: nat, trace: seq<Cycle>)
    requires SystemOk(s, ClocksPerBit(clockRate, s.u.device.baud))
    requires MIN_BIT <= ClocksPerBit(clockRate, s.u.device.baud) <= COUNTER_MAX
    requires forall i :: 0 <= i < |trace| ==> !WritesBaud(trace[i].req)
    ensures Run(s, clockRate, capacity, trace).u.device.baud == s.u.device.baud
    ensures SystemOk(Run(s, clockRate, capacity, trace), ClocksPerBit(clockRate, s.u.device.baud))
  {
    assert s.Ok();
    hide SystemOk, SystemStep, WritesBaud, ClocksPerBit;
    if trace != [] {
      RunStays(s, clockRate, capacity, trace[..|trace| - 1]);
      SystemStays(Run(s, clockRate, capacity, trace[..|trace| - 1]), clockRate, capacity, trace[|trace| - 1]);
    }
  }

  /** Both ends idle, nothing sent yet, a baud rate selected and the baud counter in range. */
  ghost predicate Idling(s: System, clockRate: nat) {
    && s.Ok() && s.u.device.state.WaitRequest? && s.u.device.byteIdx == 0
    && s.u.tx.phase.Idle? && s.u.tx.queue == [] && s.dec.phase.Idle?
    && s.offered == s.pushed == s.reported == []
    && s.u.tx.counter < ClocksPerBit(clockRate, s.u.device.baud)
  }

  /**
   Transmit round trip: for every sequence of bus requests that leaves the baud rate alone, the
   bytes reported by the decoder are a prefix of the enabled bytes of the TX writes, in order,
   across ring-full stalls and while the ring drains; only the ring and the write in progress lag.
   */
  lemma ReportsInWriteOrder(s: System, clockRate: nat, capacity: nat, trace: seq<Cycle>)
    requires Idling(s, clockRate)
    requires MIN_BIT <= ClocksPerBit(clockRate, s.u.device.baud) <= COUNTER_MAX
    requires forall i :: 0 <= i < |trace| ==> !WritesBaud(trace[i].req)
    ensures var s' := Run(s, clockRate, capacity, trace);
            && s'.reported <= s'.offered
            && |s'.offered| - |s'.reported| <= |s'.u.tx.queue| + |Unwritten(s'.u.device)|
  {
    hide ClocksPerBit, WritesBaud, Run, Unwritten;
    IdlingIsOk(s, clockRate);
    RunStays(s, clockRate, capacity, trace);
    LogsBehind(Run(s, clockRate, capacity, trace), ClocksPerBit(clockRate, s.u.device.baud));
  }

  lemma IdlingIsOk(s: System, clockRate: nat)
    requires Idling(s, clockRate)
    ensures SystemOk(s, ClocksPerBit(clockRate, s.u.device.baud))
  {
    hide ClocksPerBit;
    assert s.offered == s.pushed + Unwritten(s.u.device);
  }

  lemma LogsBehind(s: System, bit: nat)
    requires SystemOk(s, bit)
    ensures s.reported <= s.offered
    ensures |s.offered| - |s.reported| <= |s.u.tx.queue| + |Unwritten(s.u.device)|
  {
    hide Past, Unwritten, Running, DecodesFrame;
    assert Logged(s.OnLine(), bit);
  }

  // ----- and all of them arrive -----

  /** Clocks until the ring is empty and its last byte reported, if nothing more is enqueued. */
  function Work(tx: Tx, bit: nat): int {
    var all := 11 * Times(|tx.queue|, bit);
    match tx.phase
    case Idle => if tx.queue == [] then 0 else all - tx.counter
    case Start => all - bit - tx.counter
    case Data => all - 2 * bit - Times(tx.count, bit) - tx.counter
    case Stop => all - 10 * bit - tx.counter
  }

  lemma WorkStep(tx: Tx, bit: nat, push: Option<Byte>)
    requires 0 < bit <= COUNTER_MAX && Running(tx, bit)
    ensures Work(tx, bit) >= 0 && (Work(tx, bit) == 0 <==> tx.phase.Idle? && tx.queue == [])
    ensures Work(TxStep(tx, bit, push), bit)
            <= (if Work(tx, bit) > 0 then Work(tx, bit) - 1 else 0) + if push.Some? then 11 * bit else 0
  {
    hide Times;
    RunningStays(tx, bit, push);
    TimesFacts(|tx.queue| - 1, bit);
    TimesFacts(|tx.queue|, bit);
    TimesFacts(0, bit);
    TimesFacts(1, bit);
    TimesFacts(2, bit);
    TimesFacts(3, bit);
    TimesFacts(4, bit);
    TimesFacts(5, bit);
    TimesFacts(6, bit);
    TimesFacts(tx.count, bit);
  }

  /** A write in progress costs at most a whole frame, and a clock, for each lane left. */
  function Lanes(d: Device, bit: nat): int {
    if InTxWrite(d) then Times(4 - d.byteIdx, 11 * bit + 1) else 0
  }

  /** An upper bound on the clocks until everything offered has been reported. */
  function Backlog(s: System, bit: nat): int {
    Work(s.u.tx, bit) + Lanes(s.u.device, bit)
  }

  lemma LanesStep(d: Device, tx: Tx, rx: Rx, capacity: nat, bit: nat)
    requires d.Ok() && !(d.state.WriteLane? && d.we && d.addr == BAUD_LANE)
    ensures var d', cost := DeviceStep(d, tx, rx, capacity, None), if Push(d, tx, capacity).Some? then 11 * bit else 0;
            && Lanes(d, bit) >= 0 && (Lanes(d, bit) == 0 <==> !InTxWrite(d))
            && Lanes(d', bit) + cost <= Lanes(d, bit) - (if LaneMoves(d, tx, capacity) then 1 else 0)
            && (InTxWrite(d) && !LaneMoves(d, tx, capacity) ==> |tx.queue| >= capacity)
  {
    TimesFacts(3 - d.byteIdx, 11 * bit + 1);
    hide Times, ReadData;
  }

  lemma BacklogStep(s: System, clockRate: nat, capacity: nat, line: bool)
    requires SystemOk(s, ClocksPerBit(clockRate, s.u.device.baud)) && capacity > 0
    requires 0 < ClocksPerBit(clockRate, s.u.device.baud) <= COUNTER_MAX
    ensures var bit := ClocksPerBit(clockRate, s.u.device.baud);
            && Backlog(s, bit) >= 0
            && Backlog(SystemStep(s, clockRate, capacity, Cycle(line, None)), bit)
               <= if Backlog(s, bit) > 0 then Backlog(s, bit) - 1 else 0
  {
    var bit, d := ClocksPerBit(clockRate, s.u.device.baud), s.u.device;
    StepParts(s, clockRate, capacity, Cycle(line, None));
    WorkStep(s.u.tx, bit, Push(d, s.u.tx, capacity));
    LanesStep(d, s.u.tx, s.u.rx, capacity, bit);
    hide Times, ClocksPerBit, Work, Lanes, SystemStep, EnabledFrom, TxStep, DeviceStep, DecodesFrame, Logged, Push;
  }

  /** With no backlog the ring is empty, the line idle, no write in progress: all has been reported. */
  lemma NoBacklog(s: System, bit: nat)
    requires 0 < bit <= COUNTER_MAX && SystemOk(s, bit) && Backlog(s, bit) == 0
    ensures s.reported == s.offered
  {
    WorkStep(s.u.tx, bit, None);
    LanesStep(s.u.device, s.u.tx, s.u.rx, 1, bit);
    hide Lanes, Work, EnabledFrom, TxStep, DeviceStep, DecodesFrame;
  }

  lemma {:induction false} BacklogShrinks(s: System, clockRate: nat, capacity: nat, trace: seq<Cycle>)
    requires SystemOk(s, ClocksPerBit(clockRate, s.u.device.baud)) && capacity > 0
    requires MIN_BIT <= ClocksPerBit(clockRate, s.u.device.baud) <= COUNTER_MAX
    requires forall i :: 0 <= i < |trace| ==> trace[i].req.None?
    ensures var s', bit := Run(s, clockRate, capacity, trace), ClocksPerBit(clockRate, s.u.device.baud);
            && s'.u.device.baud == s.u.device.baud && SystemOk(s', bit) && s'.offered == s.offered
            && 0 <= Backlog(s', bit)
            && Backlog(s', bit) <= if Backlog(s, bit) > |trace| then Backlog(s, bit) - |trace| else 0
  {
    assert s.Ok();
    hide SystemOk, SystemStep, ClocksPerBit, Backlog;
    if trace == [] {
      BacklogStep(s, clockRate, capacity, true);
    } else {
      var before, c := trace[..|trace| - 1], trace[|trace| - 1];
      BacklogShrinks(s, clockRate, capacity, before);
      var s1 := Run(s, clockRate, capacity, before);
      BacklogStep(s1, clockRate, capacity, c.line);
      SystemStays(s1, clockRate, capacity, c);
      StepParts(s1, clockRate, capacity, c);
      BacklogStep(SystemStep(s1, clockRate, capacity, c), clockRate, capacity, true);
    }
  }

  /**
   From any state of a run, once the bus stays quiet for the backlog's number of clocks, every
   enabled byte of every TX write has been reported: no byte is lost, even by a stalled write.
   */
  lemma EventuallyReported(s: System, clockRate: nat, capacity: nat, trace: seq<Cycle>)
    requires SystemOk(s, ClocksPerBit(clockRate, s.u.device.baud)) && capacity > 0
    requires MIN_BIT <= ClocksPerBit(clockRate, s.u.device.baud) <= COUNTER_MAX
    requires forall i :: 0 <= i < |trace| ==> trace[i].req.None?
    requires |trace| >= Backlog(s, ClocksPerBit(clockRate, s.u.device.baud))
    ensures Run(s, clockRate, capacity, trace).reported == s.offered
  {
    assert s.Ok();
    hide SystemOk, SystemStep, ClocksPerBit, Backlog, Run;
    BacklogShrinks(s, clockRate, capacity, trace);
    NoBacklog(Run(s, clockRate, capacity, trace), ClocksPerBit(clockRate, s.u.device.baud));
  }

  /** Every selectable baud rate at 50 MHz leaves room for both round trips. */
  lemma EveryRateFits(baud: Byte)
    requires 1 <= Value(baud) <= 7
    ensures 217 <= ClocksPerBit(50_000_000, baud) <= 10416
  {
  }
}
