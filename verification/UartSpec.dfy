/**
 The UART with its two rings seen as queues. `Uart.UartObi` keeps the rings in arrays and is
 proved to step like this; `UartTx` and `UartRx` prove the two round trips.
 */
module UartSpec {
  import opened Obi
  import opened Bits

  const COUNTER_MAX := 0xFFFF_FFFF

  datatype Phase = Idle | Start | Data | Stop

  /** The 32-bit baud counters wrap. */
  function Next32(n: nat): nat {
    if n >= COUNTER_MAX then 0 else n + 1
  }

  function Minus1(n: nat): nat {
    if n == 0 then COUNTER_MAX else n - 1
  }

  predicate AtBaud(counter: nat, bit: nat) {
    counter == Minus1(bit)
  }

  predicate AtSample(counter: nat, bit: nat) {
    counter == Minus1(bit / 2)
  }

  // ----- transmitter -----

  datatype Tx = Tx(phase: Phase, count: nat, latch: Byte, counter: nat, queue: seq<Byte>) {
    predicate Ok() {
      count < 8
    }
  }

  const TX_RESET := Tx(Idle, 0, CLEAR, 0, [])

  predicate TxLine(tx: Tx)
    requires tx.Ok()
  {
    match tx.phase
    case Idle => true
    case Start => false
    case Data => tx.latch[tx.count]
    case Stop => true
  }

  /** One clock with `bit` clocks per bit; `push` is the byte the bus side enqueues. */
  function TxStep(tx: Tx, bit: nat, push: Option<Byte>): (tx': Tx)
    requires tx.Ok()
    ensures tx'.Ok()
  {
    var baud := AtBaud(tx.counter, bit);
    var counter := if baud then 0 else Next32(tx.counter);
    var pushed := match push case None => [] case Some(b) => [b];
    var stay := tx.(counter := counter, queue := tx.queue + pushed);
    if !baud then stay
    else match tx.phase
      case Idle => if tx.queue == [] then stay else stay.(latch := tx.queue[0], phase := Start)
      case Start => stay.(count := 0, phase := Data)
      case Data => if tx.count == 7 then stay.(phase := Stop) else stay.(count := tx.count + 1)
      case Stop => stay.(phase := Idle, queue := (if tx.queue == [] then [] else tx.queue[1..]) + pushed)
  }

  // ----- receiver -----

  datatype Rx = Rx(phase: Phase, counter: nat, restart: bool, sync0: bool, sync1: bool,
                   collecting: Byte, count: nat, queue: seq<Byte>) {
    predicate Ok() {
      count < 8
    }
  }

  const RX_RESET := Rx(Idle, 0, false, false, false, CLEAR, 0, [])

  /** The byte is complete and the stop bit is high: it is stored, or dropped when the ring is full. */
  predicate RxLands(rx: Rx, bit: nat) {
    rx.phase.Stop? && AtBaud(rx.counter, bit) && rx.sync0
  }

  /** One clock; `line` is the receive pin, `pop` a bus read of the receive lane. */
  function RxStep(rx: Rx, bit: nat, capacity: nat, line: bool, pop: bool): (rx': Rx)
    requires rx.Ok()
    ensures rx'.Ok()
  {
    var baud, sample := AtBaud(rx.counter, bit), AtSample(rx.counter, bit);
    var base := rx.(counter := if baud || rx.restart then 0 else Next32(rx.counter),
                    restart := false, sync0 := rx.sync1, sync1 := line,
                    queue := if pop && rx.queue != [] then rx.queue[1..] else rx.queue);
    match rx.phase
    case Idle => if rx.sync0 then base else base.(restart := true, phase := Start)
    case Start =>
      if !sample then base
      else if rx.sync0 then base.(phase := Idle)
      else base.(restart := true, count := 0, phase := Data)
    case Data =>
      if !baud then base
      else
        var next := base.(collecting := SetBit(rx.collecting, rx.count, rx.sync0),
                          count := if rx.count == 7 then 0 else rx.count + 1);
        if rx.count == 7 then next.(phase := Stop) else next
    case Stop =>
      if !RxLands(rx, bit) then base
      else base.(collecting := CLEAR, phase := Idle,
                 queue := if |rx.queue| < capacity then base.queue + [rx.collecting] else base.queue)
  }

  // ----- bus side -----

  datatype DeviceState = WaitRequest | ReadLane | WriteLane

  const STATUS_LANE: nat := 0x0
  const BAUD_LANE: nat := 0x4
  const TX_LANE: nat := 0x8
  const RX_LANE: nat := 0xC

  datatype Device = Device(state: DeviceState, wdata: Word, addr: nat, we: bool, be: Enables, byteIdx: nat,
                           rvalid: bool, rdata: Word, baud: Byte) {
    predicate Ok() {
      byteIdx < 4
    }
  }

  const DEVICE_RESET := Device(WaitRequest, ZERO, 0, false, Enables(false, false, false, false), 0, false, ZERO, CLEAR)

  datatype Uart = Uart(device: Device, tx: Tx, rx: Rx) {
    predicate Ok() {
      device.Ok() && tx.Ok() && rx.Ok()
    }
  }

  function ClocksPerBit(clockRate: nat, baud: Byte): nat {
    if Value(baud) == 1 then clockRate / 4800
    else if Value(baud) == 2 then clockRate / 9600
    else if Value(baud) == 3 then clockRate / 19200
    else if Value(baud) == 4 then clockRate / 38400
    else if Value(baud) == 5 then clockRate / 57600
    else if Value(baud) == 6 then clockRate / 115200
    else if Value(baud) == 7 then clockRate / 230400
    else 0
  }

  /** The bus error line: combinational on the latched address. */
  predicate Err(d: Device) {
    d.addr != STATUS_LANE && d.addr != BAUD_LANE && d.addr != TX_LANE && d.addr != RX_LANE
  }

  predicate Granted(d: Device, req: Option<Request>) {
    d.state.WaitRequest? && req.Some?
  }

  /** A request that would change the baud rate. */
  predicate WritesBaud(req: Option<Request>) {
    req.Some? && req.value.we && req.value.addr as nat % 256 == BAUD_LANE
  }

  /** rx_empty, rx_full, tx_empty, tx_full from bit 7 down. */
  function Status(tx: Tx, rx: Rx, capacity: nat): Byte {
    [false, false, false, false,
     |tx.queue| >= capacity, tx.queue == [], |rx.queue| >= capacity, rx.queue == []]
  }

  /** The write FSM handles one byte lane per clock and stalls only on an enabled byte with a full ring. */
  predicate LaneMoves(d: Device, tx: Tx, capacity: nat)
    requires d.Ok()
  {
    && d.state.WriteLane? && d.we && d.addr == TX_LANE
    && (!d.be.Lane(d.byteIdx) || |tx.queue| < capacity)
  }

  function Push(d: Device, tx: Tx, capacity: nat): Option<Byte>
    requires d.Ok()
  {
    if LaneMoves(d, tx, capacity) && d.be.Lane(d.byteIdx) then Some(d.wdata.Lane(d.byteIdx)) else None
  }

  predicate Pop(d: Device) {
    d.state.ReadLane? && !d.we && d.addr == RX_LANE
  }

  function ReadData(d: Device, tx: Tx, rx: Rx, capacity: nat): Word {
    if d.we then ZERO
    else if d.addr == RX_LANE then (if rx.queue == [] then ZERO else Word(rx.queue[0], CLEAR, CLEAR, CLEAR))
    else if d.addr == BAUD_LANE then Word(d.baud, CLEAR, CLEAR, CLEAR)
    else if d.addr == STATUS_LANE then Word(Status(tx, rx, capacity), CLEAR, CLEAR, CLEAR)
    else ZERO
  }

  function DeviceStep(d: Device, tx: Tx, rx: Rx, capacity: nat, req: Option<Request>): (d': Device)
    requires d.Ok()
    ensures d'.Ok()
  {
    match d.state
    case WaitRequest =>
      if req.None? then d.(rvalid := false)
      else
        var r := req.value;
        d.(rvalid := false, state := if r.we then WriteLane else ReadLane,
           wdata := r.wdata, addr := r.addr as nat % 256, we := r.we, be := r.be)
    case ReadLane => d.(rdata := ReadData(d, tx, rx, capacity), rvalid := true, state := WaitRequest)
    case WriteLane =>
      if d.we && d.addr == TX_LANE then
        if !LaneMoves(d, tx, capacity) then d
        else if d.byteIdx == 3 then d.(byteIdx := 0, rvalid := true, state := WaitRequest)
        else d.(byteIdx := d.byteIdx + 1)
      else
        d.(baud := if d.we && d.addr == BAUD_LANE then d.wdata.b0 else d.baud, rvalid := true, state := WaitRequest)
  }

  /** One clock of the whole peripheral; each ring holds at most `capacity` bytes. */
  function Step(u: Uart, clockRate: nat, capacity: nat, line: bool, req: Option<Request>): (u': Uart)
    requires u.Ok()
    ensures u'.Ok()
  {
    var bit := ClocksPerBit(clockRate, u.device.baud);
    Uart(DeviceStep(u.device, u.tx, u.rx, capacity, req),
         TxStep(u.tx, bit, Push(u.device, u.tx, capacity)),
         RxStep(u.rx, bit, capacity, line, Pop(u.device)))
  }
}
