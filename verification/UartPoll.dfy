/** What the firmware may conclude from the status flags it polls before it writes or reads a byte. */
module UartPoll {
  import opened Obi
  import opened Bits
  import opened UartSpec
  import opened UartBaud

  const ALL := Enables(true, true, true, true)
  const ONE_BYTE := Enables(true, false, false, false)

  const READ_STATUS := Request(0x0, false, ALL, ZERO)
  const READ_BYTE := Request(0xC, false, ONE_BYTE, ZERO)

  function StoreByte(w: Word): Request {
    Request(0x8, true, ONE_BYTE, w)
  }

  /** Between two accesses. */
  predicate Free(u: Uart) {
    u.Ok() && u.device.state.WaitRequest? && u.device.byteIdx == 0
  }

  function Clocked(u: Uart, k: Setup, cycles: seq<Cycle>): (u': Uart)
    requires u.Ok()
    ensures u'.Ok()
    decreases |cycles|
  {
    if cycles == [] then u
    else Clocked(Step(u, k.clockRate, k.capacity, cycles[0].line, cycles[0].req), k, cycles[1..])
  }

  predicate Silent(cycles: seq<Cycle>) {
    forall i :: 0 <= i < |cycles| ==> cycles[i].req.None?
  }

  /** Left alone, the transmit ring only drains and the receive ring only grows at its end. */
  predicate Since(u: Uart, u': Uart) {
    |u'.tx.queue| <= |u.tx.queue| && u.rx.queue <= u'.rx.queue
  }

  /** The ring is what was left, and what has arrived since. */
  predicate Follows(left: seq<Byte>, queue: seq<Byte>) {
    left <= queue
  }

  lemma Grants(u: Uart, k: Setup, c: Cycle)
    requires Free(u)
    ensures var next := Step(u, k.clockRate, k.capacity, c.line, c.req);
            && Since(u, next) && !next.device.rvalid
            && (if c.req.None? then Free(next)
                else
                  && next.Ok() && next.device.byteIdx == 0 && next.device.we == c.req.value.we
                  && next.device.addr == c.req.value.addr as nat % 256 && next.device.be == c.req.value.be
                  && next.device.wdata == c.req.value.wdata
                  && next.device.state == (if c.req.value.we then WriteLane else ReadLane))
  {
    hide ClocksPerBit, SetBit;
  }

  lemma {:induction false} SilentKeeps(u: Uart, k: Setup, cycles: seq<Cycle>)
    requires Free(u) && Silent(cycles)
    ensures Free(Clocked(u, k, cycles)) && Since(u, Clocked(u, k, cycles))
    decreases |cycles|
  {
    hide Step;
    if cycles != [] {
      Grants(u, k, cycles[0]);
      SilentKeeps(Step(u, k.clockRate, k.capacity, cycles[0].line, cycles[0].req), k, cycles[1..]);
    }
  }

  /** A read is answered one clock after it is taken. */
  lemma Answers(u: Uart, k: Setup, c: Cycle)
    requires u.Ok() && u.device.state.ReadLane? && !u.device.we && u.device.byteIdx == 0
    ensures var next := Step(u, k.clockRate, k.capacity, c.line, c.req);
            && Free(next) && next.device.rvalid
            && (u.device.addr == RX_LANE && u.rx.queue != [] ==>
                  next.device.rdata == Word(u.rx.queue[0], CLEAR, CLEAR, CLEAR) && u.rx.queue[1..] <= next.rx.queue)
            && (u.device.addr == STATUS_LANE ==>
                  && Since(u, next)
                  && (next.device.rdata.b0[7] <==> u.rx.queue == [])
                  && (next.device.rdata.b0[6] <==> |u.rx.queue| >= k.capacity)
                  && (next.device.rdata.b0[5] <==> u.tx.queue == [])
                  && (next.device.rdata.b0[4] <==> |u.tx.queue| >= k.capacity))
  {
    hide ClocksPerBit, SetBit;
  }

  /** A status read, then no access for a while: the flags and how things stand at the end. */
  lemma Polled(u: Uart, k: Setup, c: Cycle, c': Cycle, wait: seq<Cycle>)
    requires Free(u) && c.req == Some(READ_STATUS) && Silent(wait)
    ensures var answered := Clocked(u, k, [c, c']);
            var later := Clocked(answered, k, wait);
            && answered.device.rvalid && Free(later)
            && (!answered.device.rdata.b0[4] ==> |later.tx.queue| < k.capacity)
            && (!answered.device.rdata.b0[7] ==>
                  later.rx.queue != [] && (u.rx.queue != [] ==> later.rx.queue[0] == u.rx.queue[0]))
            && (answered.device.rdata.b0[7] ==> u.rx.queue == [])
            && (answered.device.rdata.b0[4] ==> |u.tx.queue| >= k.capacity)
  {
    hide Step;
    TwoClocked(u, k, c, c');
    Grants(u, k, c);
    var taken := Step(u, k.clockRate, k.capacity, c.line, c.req);
    Answers(taken, k, c');
    SilentKeeps(Clocked(u, k, [c, c']), k, wait);
  }

  lemma TwoClocked(u: Uart, k: Setup, c: Cycle, c': Cycle)
    requires u.Ok()
    ensures var next := Step(u, k.clockRate, k.capacity, c.line, c.req);
            Clocked(u, k, [c, c']) == Step(next, k.clockRate, k.capacity, c'.line, c'.req)
  {
    hide Step;
    var next := Step(u, k.clockRate, k.capacity, c.line, c.req);
    assert [c, c'][1..] == [c'] && [c'][1..] == [];
    assert Clocked(next, k, [c']) == Clocked(Step(next, k.clockRate, k.capacity, c'.line, c'.req), k, []);
  }

  /**
   `uart_putc`: once a poll has shown the transmit-full flag clear, the store of one byte enqueues it in its first
   clock and is answered after its four lanes, however long the firmware waits before it.
   */
  lemma StoreNeverStalls(u: Uart, k: Setup, poll: seq<Cycle>, wait: seq<Cycle>, store: seq<Cycle>, w: Word)
    requires Free(u) && |poll| == 2 && poll[0].req == Some(READ_STATUS) && Silent(wait)
    requires |store| == 5 && store[0].req == Some(StoreByte(w))
    requires !Clocked(u, k, poll).device.rdata.b0[4]
    ensures var ready := Clocked(Clocked(u, k, poll), k, wait);
            && Clocked(u, k, poll).device.rvalid
            && Push(Clocked(ready, k, store[..1]).device, Clocked(ready, k, store[..1]).tx, k.capacity) == Some(w.b0)
            && (forall i :: 1 <= i < 5 ==> !Clocked(ready, k, store[..i]).device.rvalid)
            && Clocked(ready, k, store).device.rvalid
  {
    assert poll == [poll[0], poll[1]];
    Polled(u, k, poll[0], poll[1], wait);
    hide Clocked, Push, Silent;
    FiveClocks(Clocked(Clocked(u, k, poll), k, wait), k, store, w);
  }

  lemma FiveClocks(ready: Uart, k: Setup, store: seq<Cycle>, w: Word)
    requires Free(ready) && |ready.tx.queue| < k.capacity && |store| == 5 && store[0].req == Some(StoreByte(w))
    ensures Push(Clocked(ready, k, store[..1]).device, Clocked(ready, k, store[..1]).tx, k.capacity) == Some(w.b0)
    ensures forall i :: 1 <= i < 5 ==> !Clocked(ready, k, store[..i]).device.rvalid
    ensures Clocked(ready, k, store).device.rvalid
  {
    hide Clocked, Step;
    forall i: nat | 1 <= i < 5
      ensures !Clocked(ready, k, store[..i]).device.rvalid
    {
      LaneReached(ready, k, store, w, i);
    }
    LaneReached(ready, k, store, w, 1);
    LaneReached(ready, k, store, w, 4);
    Snoc(ready, k, store, 4);
    LaneDone(Clocked(ready, k, store[..4]), k, store[4], 3, w);
    assert store[..5] == store;
  }

  /** The store is at lane `j` and has not been answered; the first lane finds room. */
  predicate AtLane(u: Uart, k: Setup, j: nat, w: Word) {
    && u.Ok() && u.device.state.WriteLane? && u.device.we && u.device.addr == TX_LANE && u.device.byteIdx == j
    && u.device.be == ONE_BYTE && u.device.wdata == w && !u.device.rvalid && (j == 0 ==> |u.tx.queue| < k.capacity)
  }

  lemma LaneDone(u: Uart, k: Setup, c: Cycle, j: nat, w: Word)
    requires AtLane(u, k, j, w) && j < 4
    ensures var next := Step(u, k.clockRate, k.capacity, c.line, c.req);
            if j == 3 then next.device.rvalid else AtLane(next, k, j + 1, w)
  {
    hide ClocksPerBit, TxStep, RxStep;
  }

  lemma {:induction false} LaneReached(ready: Uart, k: Setup, store: seq<Cycle>, w: Word, i: nat)
    requires Free(ready) && |ready.tx.queue| < k.capacity && |store| == 5 && store[0].req == Some(StoreByte(w))
    requires 1 <= i <= 4
    ensures AtLane(Clocked(ready, k, store[..i]), k, i - 1, w)
  {
    hide Step;
    Snoc(ready, k, store, i - 1);
    if i == 1 {
      assert store[..0] == [];
      Grants(ready, k, store[0]);
    } else {
      LaneReached(ready, k, store, w, i - 1);
      LaneDone(Clocked(ready, k, store[..i - 1]), k, store[i - 1], i - 2, w);
    }
  }

  lemma {:induction false} Snoc(u: Uart, k: Setup, cycles: seq<Cycle>, n: nat)
    requires u.Ok() && n < |cycles|
    ensures Clocked(u, k, cycles[..n + 1])
            == var before, c := Clocked(u, k, cycles[..n]), cycles[n];
               Step(before, k.clockRate, k.capacity, c.line, c.req)
    decreases n
  {
    hide Step;
    var next := Step(u, k.clockRate, k.capacity, cycles[0].line, cycles[0].req);
    assert cycles[..n + 1][1..] == cycles[1..][..n];
    if n > 0 {
      Snoc(next, k, cycles[1..], n - 1);
      assert cycles[..n][1..] == cycles[1..][..n - 1];
    }
  }

  /**
   Once a poll has shown the receive-empty flag clear, the read of the receive lane returns a byte that has been
   received, the oldest one at the time of the poll if there was one, and takes just that byte out of the ring.
   */
  lemma ReadGetsByte(u: Uart, k: Setup, poll: seq<Cycle>, wait: seq<Cycle>, c: Cycle, c': Cycle)
    requires Free(u) && |poll| == 2 && poll[0].req == Some(READ_STATUS) && Silent(wait) && c.req == Some(READ_BYTE)
    requires !Clocked(u, k, poll).device.rdata.b0[7]
    ensures var ready := Clocked(Clocked(u, k, poll), k, wait);
            var after := Clocked(ready, k, [c, c']);
            && ready.rx.queue != [] && after.device.rvalid
            && after.device.rdata == Word(ready.rx.queue[0], CLEAR, CLEAR, CLEAR)
            && (u.rx.queue != [] ==> after.device.rdata.b0 == u.rx.queue[0])
            && Follows(ready.rx.queue[1..], after.rx.queue)
  {
    assert poll == [poll[0], poll[1]];
    Polled(u, k, poll[0], poll[1], wait);
    hide Clocked, Silent;
    Reads(Clocked(Clocked(u, k, poll), k, wait), k, c, c');
  }

  lemma Reads(ready: Uart, k: Setup, c: Cycle, c': Cycle)
    requires Free(ready) && ready.rx.queue != [] && c.req == Some(READ_BYTE)
    ensures var after := Clocked(ready, k, [c, c']);
            && after.device.rvalid && after.device.rdata == Word(ready.rx.queue[0], CLEAR, CLEAR, CLEAR)
            && Follows(ready.rx.queue[1..], after.rx.queue)
  {
    hide Step;
    Grants(ready, k, c);
    TwoClocked(ready, k, c, c');
    Answers(Step(ready, k.clockRate, k.capacity, c.line, c.req), k, c');
  }
}
