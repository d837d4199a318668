/** The baud selector, over every sequence of bus requests from reset. */
module UartBaud {
  import opened Obi
  import opened Bits
  import opened UartSpec

  /** The receive pin and the request in one clock. */
  datatype Cycle = Cycle(line: bool, req: Option<Request>)

  datatype Setup = Setup(clockRate: nat, capacity: nat)

  const RESET := Uart(DEVICE_RESET, TX_RESET, RX_RESET)

  function After(k: Setup, cycles: seq<Cycle>, n: nat): (u: Uart)
    requires n <= |cycles|
    ensures u.Ok()
  {
    if n == 0 then RESET
    else Step(After(k, cycles, n - 1), k.clockRate, k.capacity, cycles[n - 1].line, cycles[n - 1].req)
  }

  /** The request is taken in clock `n`. */
  predicate TakenIn(k: Setup, cycles: seq<Cycle>, n: nat)
    requires n < |cycles|
  {
    Granted(After(k, cycles, n).device, cycles[n].req)
  }

  /** Byte 0 of the last store to the baud lane taken before clock `n`. */
  function LastSelected(k: Setup, cycles: seq<Cycle>, n: nat): Byte
    requires n <= |cycles|
  {
    if n == 0 then CLEAR
    else if TakenIn(k, cycles, n - 1) && WritesBaud(cycles[n - 1].req) then cycles[n - 1].req.value.wdata.b0
    else LastSelected(k, cycles, n - 1)
  }

  predicate Storing(d: Device) {
    d.state.WriteLane? && d.addr == BAUD_LANE
  }

  /** The selector, or what it is about to become. */
  predicate Selects(d: Device, b: Byte) {
    && (d.state.WriteLane? ==> d.we) && (d.state.ReadLane? ==> !d.we)
    && (if Storing(d) then d.wdata.b0 else d.baud) == b
  }

  lemma SelectsStep(u: Uart, k: Setup, c: Cycle, b: Byte)
    requires u.Ok() && Selects(u.device, b)
    ensures Selects(Step(u, k.clockRate, k.capacity, c.line, c.req).device,
                    if Granted(u.device, c.req) && WritesBaud(c.req) then c.req.value.wdata.b0 else b)
  {
    hide TxStep, RxStep, ClocksPerBit;
  }

  lemma {:induction false} SelectsLast(k: Setup, cycles: seq<Cycle>, n: nat)
    requires n <= |cycles|
    ensures Selects(After(k, cycles, n).device, LastSelected(k, cycles, n))
  {
    hide Step, Selects, WritesBaud;
    if n > 0 {
      SelectsLast(k, cycles, n - 1);
      SelectsStep(After(k, cycles, n - 1), k, cycles[n - 1], LastSelected(k, cycles, n - 1));
    } else {
      SelectsReset();
    }
  }

  lemma SelectsReset()
    ensures Selects(RESET.device, CLEAR)
  {
  }

  /** Whenever no access is in progress, the bit length is that of the last store taken. */
  lemma RateInForce(k: Setup, cycles: seq<Cycle>, n: nat)
    requires n <= |cycles| && After(k, cycles, n).device.state.WaitRequest?
    ensures After(k, cycles, n).device.baud == LastSelected(k, cycles, n)
  {
    SelectsLast(k, cycles, n);
    hide After, LastSelected;
  }

  /** Two clocks on: a read taken in the first is answered after the second. */
  function Answered(u: Uart, k: Setup, c: Cycle, c': Cycle): (u': Uart)
    requires u.Ok()
    ensures u'.Ok()
  {
    Step(Step(u, k.clockRate, k.capacity, c.line, c.req), k.clockRate, k.capacity, c'.line, c'.req)
  }

  lemma TwoClocks(u: Uart, k: Setup, c: Cycle, c': Cycle)
    requires u.Ok() && u.device.state.WaitRequest? && c.req.Some?
    requires !c.req.value.we && c.req.value.addr as nat % 256 == BAUD_LANE
    ensures var last := Answered(u, k, c, c');
            last.device.rvalid && last.device.rdata == Word(u.device.baud, CLEAR, CLEAR, CLEAR) && !Err(last.device)
  {
    hide TxStep, RxStep, ClocksPerBit, Status;
  }

  /** A read of the baud lane returns, two clocks after it is taken, byte 0 of the last store to it, or zero. */
  lemma BaudReadsBack(k: Setup, cycles: seq<Cycle>, n: nat)
    requires n + 2 <= |cycles| && TakenIn(k, cycles, n)
    requires !cycles[n].req.value.we && cycles[n].req.value.addr as nat % 256 == BAUD_LANE
    ensures var d := After(k, cycles, n + 2).device;
            d.rvalid && d.rdata == Word(LastSelected(k, cycles, n), CLEAR, CLEAR, CLEAR) && !Err(d)
  {
    RateInForce(k, cycles, n);
    TwoClocks(After(k, cycles, n), k, cycles[n], cycles[n + 1]);
    hide Step, LastSelected, Err;
    assert After(k, cycles, n + 1) == Step(After(k, cycles, n), k.clockRate, k.capacity, cycles[n].line, cycles[n].req);
  }

  predicate Unreadable(r: Request) {
    !r.we && r.addr as nat % 256 !in {STATUS_LANE, BAUD_LANE, RX_LANE}
  }

  /** A read of any other lane but the status and the receive lane returns zero; it fails unless it was the TX lane. */
  lemma OtherReadsAreZero(u: Uart, k: Setup, c: Cycle, c': Cycle)
    requires u.Ok() && u.device.state.WaitRequest? && c.req.Some? && Unreadable(c.req.value)
    ensures Answered(u, k, c, c').device.rvalid && Answered(u, k, c, c').device.rdata == ZERO
    ensures Err(Answered(u, k, c, c').device) <==> c.req.value.addr as nat % 256 != TX_LANE
  {
    hide TxStep, RxStep, ClocksPerBit, Status;
  }

  // ----- what the selector means -----

  /** The seven standard rates: 4800 doubled up to 38400, then 57600 doubled up to 230400. */
  function Rate(selector: nat): nat
    requires 1 <= selector <= 7
  {
    if selector <= 4 then 4800 * Power2(selector - 1) else 57600 * Power2(selector - 5)
  }

  /** A bit is the whole clocks of its rate's period; other selectors stop the line. */
  lemma BitLength(clockRate: nat, baud: Byte)
    ensures 1 <= Value(baud) <= 7 ==>
      var bit := ClocksPerBit(clockRate, baud); bit * Rate(Value(baud)) <= clockRate < (bit + 1) * Rate(Value(baud))
    ensures !(1 <= Value(baud) <= 7) ==> ClocksPerBit(clockRate, baud) == 0
  {
    assert Power2(1) == 2 && Power2(2) == 4 && Power2(3) == 8;
    hide Value;
  }
}
