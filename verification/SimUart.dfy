/** The simulation's ends of the serial lines: the injector drives `rx_i`, the decoder watches `tx_o`. */
module SimUart {
  import opened Obi
  import opened Bits
  import opened UartSpec

  // ----- injector -----

  datatype Injector = Injector(phase: Phase, ready: bool, data: Byte, ticks: nat, bit: nat)

  const INJECTOR_RESET := Injector(Idle, false, CLEAR, 0, 0)

  /** Offer a byte; it is taken only between frames. */
  predicate Takes(i: Injector) {
    !i.ready && i.phase.Idle?
  }

  function Offered(i: Injector, val: Byte): Injector {
    if Takes(i) then i.(ready := true, data := val) else i
  }

  predicate InjectorOk(i: Injector) {
    i.phase.Data? ==> i.bit < 8
  }

  /** One tick: the new state and the level driven on the line. */
  function InjectorTick(i: Injector, perBaud: nat): (r: (Injector, bool))
    requires InjectorOk(i)
    ensures InjectorOk(r.0)
  {
    var t := i.ticks + 1;
    var last := t == perBaud - 1;
    match i.phase
    case Idle => (if i.ready then i.(ready := false, ticks := 0, phase := Start) else i.(ticks := t), true)
    case Start => (if last then i.(bit := 0, ticks := 0, phase := Data) else i.(ticks := t), false)
    case Data =>
      if last then
        if i.bit + 1 >= 8 then (i.(ticks := 0, bit := i.bit + 1, phase := Stop), true)
        else (i.(ticks := 0, bit := i.bit + 1), i.data[i.bit + 1])
      else (i.(ticks := t), i.data[i.bit])
    case Stop => (if last then i.(ticks := t, phase := Idle) else i.(ticks := t), true)
  }

  class UARTInjector {
    var state: Phase
    var dataReady: bool
    var data: Byte
    var ticks: nat
    var bit: nat
    const ticksPerBaud: nat

    function State(): Injector
      reads this
    {
      Injector(state, dataReady, data, ticks, bit)
    }

    constructor (ticksPerBaud: nat)
      ensures State() == INJECTOR_RESET && this.ticksPerBaud == ticksPerBaud
    {
      this.ticksPerBaud := ticksPerBaud;
      state, dataReady, data, ticks, bit := Idle, false, CLEAR, 0, 0;
    }

    method Reset()
      modifies this
      ensures State() == INJECTOR_RESET
    {
      state, dataReady, data, ticks, bit := Idle, false, CLEAR, 0, 0;
    }

    method Inject(val: Byte) returns (taken: bool)
      modifies this
      ensures taken <==> Takes(old(State()))
      ensures State() == Offered(old(State()), val)
    {
      if dataReady || state != Idle {
        return false;
      }
      dataReady := true;
      data := val;
      return true;
    }

    method Tick() returns (level: bool)
      requires InjectorOk(State())
      modifies this
      ensures InjectorOk(State())
      ensures (State(), level) == InjectorTick(old(State()), ticksPerBaud)
    {
      ticks := ticks + 1;
      match state {
        case Idle =>
          if dataReady {
            dataReady := false;
            ticks := 0;
            state := Start;
          }
          return true;
        case Start =>
          if ticks == ticksPerBaud - 1 {
            bit := 0;
            ticks := 0;
            state := Data;
          }
          return false;
        case Data =>
          if ticks == ticksPerBaud - 1 {
            ticks := 0;
            bit := bit + 1;
            if bit >= 8 {
              state := Stop;
              return true;
            }
          }
          return data[bit];
        case Stop =>
          if ticks == ticksPerBaud - 1 {
            state := Idle;
          }
          return true;
      }
    }
  }

  // ----- decoder -----

  datatype Decoder = Decoder(phase: Phase, ticks: nat, val: Byte, bit: nat)

  const DECODER_RESET := Decoder(Idle, 0, CLEAR, 0)

  predicate DecoderOk(d: Decoder) {
    d.phase.Data? ==> d.bit < 8
  }

  function OrBit(val: Byte, bit: nat, level: bool): Byte
    requires bit < 8
  {
    if level then SetBit(val, bit, true) else val
  }

  /** Half a bit, rounded down: where the decoder expects the middle of the start bit. */
  function Half(perBaud: nat): (h: int)
    ensures perBaud > 0 ==> 2 * h <= perBaud - 1 <= 2 * h + 1
  {
    (perBaud - 1) / 2
  }

  /** One tick on the transmit line: the new state and the byte reported, if any. */
  function DecoderTick(d: Decoder, perBaud: nat, level: bool): (r: (Decoder, Option<Byte>))
    requires DecoderOk(d)
    ensures DecoderOk(r.0)
  {
    var t := d.ticks + 1;
    match d.phase
    case Idle => (if !level then d.(phase := Start, ticks := 0, val := CLEAR) else d.(ticks := t), None)
    case Start =>
      (if t == Half(perBaud) then d.(bit := 0, ticks := 0, phase := Data) else d.(ticks := t), None)
    case Data =>
      if t == perBaud - 1 then
        var next := d.(val := OrBit(d.val, d.bit, level), ticks := 0, bit := d.bit + 1);
        (if d.bit + 1 >= 8 then next.(phase := Stop) else next, None)
      else (d.(ticks := t), None)
    case Stop =>
      if t == perBaud - 1 then (d.(ticks := t, phase := Idle), Some(d.val)) else (d.(ticks := t), None)
  }

  class UARTDecoder {
    var state: Phase
    var ticks: nat
    var val: Byte
    var bit: nat
    const ticksPerBaud: nat

    function State(): Decoder
      reads this
    {
      Decoder(state, ticks, val, bit)
    }

    constructor (ticksPerBaud: nat)
      ensures State() == DECODER_RESET && this.ticksPerBaud == ticksPerBaud
    {
      this.ticksPerBaud := ticksPerBaud;
      state, ticks, val, bit := Idle, 0, CLEAR, 0;
    }

    /** `report` is the argument of the notification, when there is one. */
    method Tick(txIn: bool) returns (report: Option<Byte>)
      requires DecoderOk(State())
      modifies this
      ensures DecoderOk(State())
      ensures (State(), report) == DecoderTick(old(State()), ticksPerBaud, txIn)
    {
      report := None;
      ticks := ticks + 1;
      match state {
        case Idle =>
          if !txIn {
            state := Start;
            ticks := 0;
            val := CLEAR;
          }
        case Start =>
          if ticks == Half(ticksPerBaud) {
            bit := 0;
            ticks := 0;
            state := Data;
          }
        case Data =>
          if ticks == ticksPerBaud - 1 {
            val := OrBit(val, bit, txIn);
            ticks := 0;
            bit := bit + 1;
            if bit >= 8 {
              state := Stop;
            }
          }
        case Stop =>
          if ticks == ticksPerBaud - 1 {
            state := Idle;
            report := Some(val);
          }
      }
    }
  }
}
