/**
 The UART as the hardware keeps it: two rings in arrays, three state machines, two baud counters.
 The registers are grouped by the clocked block that writes most of them; the bus side writes one
 pointer of each ring.
 */
module Uart {
  import opened Obi
  import opened Bits
  import opened Ring
  import Spec = UartSpec

  class Transmitter {
    const buf: array<Byte>
    var bufStart: nat
    var bufEnd: nat
    var baudCounter: nat
    var dataLatch: Byte
    var dataCount: nat
    var phase: Spec.Phase

    predicate Valid()
      reads this
    {
      2 <= buf.Length && bufStart < buf.Length && bufEnd < buf.Length && dataCount < 8
    }

    function State(): Spec.Tx
      reads this, buf
      requires Valid()
    {
      Spec.Tx(phase, dataCount, dataLatch, baudCounter, Contents(buf[..], bufStart, bufEnd))
    }

    constructor (bufferLength: nat)
      requires bufferLength >= 2
      ensures Valid() && fresh(buf) && buf.Length == bufferLength && State() == Spec.TX_RESET
    {
      baudCounter, bufStart, bufEnd, dataLatch, dataCount, phase := 0, 0, 0, CLEAR, 0, Spec.Idle;
      buf := new Byte[bufferLength](_ => CLEAR);
    }

    predicate Empty()
      reads this
    {
      bufStart == bufEnd
    }

    predicate Full()
      reads this
      requires Valid()
    {
      Wrap(buf.Length, bufEnd + 1) == bufStart
    }

    /** What the registers load at the next clock edge. */
    method Next(bit: nat) returns (next: Spec.Phase, count: nat, latch: Byte, counter: nat, start: nat)
      requires Valid()
      ensures start < buf.Length && count < 8
      ensures Spec.Tx(next, count, latch, counter, Contents(buf[..], start, bufEnd)) == Spec.TxStep(State(), bit, None)
    {
      var baud := baudCounter == Spec.Minus1(bit);
      counter := if baud then 0 else Spec.Next32(baudCounter);
      start, latch, count, next := bufStart, dataLatch, dataCount, phase;
      if !Empty() {
        PopContents(buf[..], bufStart, bufEnd);
      }
      hide Contents;
      match phase {
        case Idle =>
          if !Empty() && baud {
            latch := buf[bufStart];
            next := Spec.Start;
          }
        case Start =>
          if baud {
            count := 0;
            next := Spec.Data;
          }
        case Data =>
          if baud {
            if dataCount == 7 {
              next := Spec.Stop;
            } else {
              count := dataCount + 1;
            }
          }
        case Stop =>
          if baud {
            if !Empty() {
              start := Wrap(buf.Length, bufStart + 1);
            }
            next := Spec.Idle;
          }
      }
    }

    method Clock(bit: nat)
      requires Valid()
      modifies this
      ensures Valid() && State() == Spec.TxStep(old(State()), bit, None)
    {
      hide Spec.TxStep, Contents;
      phase, dataCount, dataLatch, baudCounter, bufStart := Next(bit);
    }

    /** The bus side's write to the ring. */
    method Enqueue(b: Byte)
      requires Valid() && |State().queue| < buf.Length - 1
      modifies this, buf
      ensures Valid() && State() == old(State()).(queue := old(State().queue) + [b])
    {
      ghost var was := buf[..];
      PushContents(was, bufStart, bufEnd, b);
      hide Contents;
      buf[bufEnd] := b;
      assert buf[..] == was[bufEnd := b];
      bufEnd := Wrap(buf.Length, bufEnd + 1);
    }
  }

  class Receiver {
    const buf: array<Byte>
    var bufStart: nat
    var bufEnd: nat
    var baudCounter: nat
    var restartBaud: bool
    var sync0: bool
    var sync1: bool
    var collecting: Byte
    var collectingCount: nat
    var phase: Spec.Phase

    predicate Valid()
      reads this
    {
      2 <= buf.Length && bufStart < buf.Length && bufEnd < buf.Length && collectingCount < 8
    }

    function State(): Spec.Rx
      reads this, buf
      requires Valid()
    {
      Spec.Rx(phase, baudCounter, restartBaud, sync0, sync1, collecting, collectingCount,
              Contents(buf[..], bufStart, bufEnd))
    }

    constructor (bufferLength: nat)
      requires bufferLength >= 2
      ensures Valid() && fresh(buf) && buf.Length == bufferLength && State() == Spec.RX_RESET
    {
      baudCounter, restartBaud, sync0, sync1 := 0, false, false, false;
      bufStart, bufEnd, collecting, collectingCount, phase := 0, 0, CLEAR, 0, Spec.Idle;
      buf := new Byte[bufferLength](_ => CLEAR);
    }

    predicate Empty()
      reads this
    {
      bufStart == bufEnd
    }

    predicate Full()
      reads this
      requires Valid()
    {
      Wrap(buf.Length, bufEnd + 1) == bufStart
    }

    /** What the registers load at the next clock edge; `store` writes the collected byte to the ring. */
    method Next(bit: nat, line: bool)
      returns (next: Spec.Phase, counter: nat, restart: bool, bits: Byte, count: nat, store: bool)
      requires Valid()
      ensures count < 8
      ensures Spec.RxStep(State(), bit, buf.Length - 1, line, false)
              == Spec.Rx(next, counter, restart, sync1, line, bits, count,
                         State().queue + if store && !Full() then [collecting] else [])
    {
      Flags(buf.Length, bufStart, bufEnd);
      ghost var queue := Contents(buf[..], bufStart, bufEnd);
      assert queue + [] == queue;
      hide Contents, SetBit;
      var baud := baudCounter == Spec.Minus1(bit);
      var sample := baudCounter == Spec.Minus1(bit / 2);
      counter := if baud || restartBaud then 0 else Spec.Next32(baudCounter);
      restart, bits, count, next, store := false, collecting, collectingCount, phase, false;
      match phase {
        case Idle =>
          if !sync0 {
            restart := true;
            next := Spec.Start;
          }
        case Start =>
          if sample {
            if !sync0 {
              restart := true;
              count := 0;
              next := Spec.Data;
            } else {
              next := Spec.Idle;
            }
          }
        case Data =>
          if baud {
            bits := SetBit(collecting, collectingCount, sync0);
            count := if collectingCount == 7 then 0 else collectingCount + 1;
            if collectingCount == 7 {
              next := Spec.Stop;
            }
          }
        case Stop =>
          if baud && sync0 {
            store := true;
            bits := CLEAR;
            next := Spec.Idle;
          }
      }
    }

    method Clock(bit: nat, line: bool)
      requires Valid()
      modifies this, buf
      ensures Valid() && State() == Spec.RxStep(old(State()), bit, buf.Length - 1, line, false)
    {
      hide Spec.RxStep, Contents;
      var next, counter, restart, bits, count, store := Next(bit, line);
      if store {
        Store();
      }
      sync0, sync1, restartBaud, baudCounter := sync1, line, restart, counter;
      collecting, collectingCount, phase := bits, count, next;
    }

    /** The completed byte is written to the free slot in any case; only a ring with room keeps it. */
    method Store()
      requires Valid()
      modifies `bufEnd, buf
      ensures Valid()
      ensures State() == var rx := old(State()); if old(Full()) then rx else rx.(queue := rx.queue + [rx.collecting])
    {
      ghost var was := buf[..];
      var full := Full();
      Flags(buf.Length, bufStart, bufEnd);
      ScratchContents(was, bufStart, bufEnd, collecting);
      if !full {
        PushContents(was, bufStart, bufEnd, collecting);
      }
      hide Contents;
      buf[bufEnd] := collecting;
      assert buf[..] == was[bufEnd := collecting];
      if !full {
        bufEnd := Wrap(buf.Length, bufEnd + 1);
      }
    }

    /** The bus side's read from the ring. */
    method Dequeue()
      requires Valid() && State().queue != []
      modifies this
      ensures Valid() && State() == old(State()).(queue := old(State().queue)[1..])
    {
      Flags(buf.Length, bufStart, bufEnd);
      PopContents(buf[..], bufStart, bufEnd);
      hide Contents;
      bufStart := Wrap(buf.Length, bufStart + 1);
    }
  }

  class UartObi {
    const clockRate: nat
    const tx: Transmitter
    const rx: Receiver

    var deviceState: Spec.DeviceState
    var wdataLatch: Word
    var addrLatch: nat
    var weLatch: bool
    var beLatch: Enables
    var wdataByteIdx: nat
    var rvalid: bool
    var rdata: Word
    var baudSelector: Byte

    predicate Valid()
      reads this, tx, rx
    {
      tx.Valid() && rx.Valid() && tx.buf.Length == rx.buf.Length && tx.buf != rx.buf && wdataByteIdx < 4
    }

    /** One slot of each ring always stays free. */
    function Capacity(): nat
      reads this, tx, rx
      requires Valid()
    {
      tx.buf.Length - 1
    }

    function Device(): Spec.Device
      reads this
    {
      Spec.Device(deviceState, wdataLatch, addrLatch, weLatch, beLatch, wdataByteIdx, rvalid, rdata, baudSelector)
    }

    function State(): Spec.Uart
      reads this, tx, tx.buf, rx, rx.buf
      requires Valid()
    {
      Spec.Uart(Device(), tx.State(), rx.State())
    }

    constructor (clockRate: nat, bufferLength: nat)
      requires bufferLength >= 2
      ensures Valid() && fresh(tx) && fresh(tx.buf) && fresh(rx) && fresh(rx.buf)
      ensures this.clockRate == clockRate && Capacity() == bufferLength - 1
      ensures State() == Spec.Uart(Spec.DEVICE_RESET, Spec.TX_RESET, Spec.RX_RESET)
    {
      this.clockRate := clockRate;
      deviceState, wdataLatch, addrLatch, weLatch := Spec.WaitRequest, ZERO, 0, false;
      beLatch, wdataByteIdx, rvalid, rdata, baudSelector := Enables(false, false, false, false), 0, false, ZERO, CLEAR;
      var transmitter := new Transmitter(bufferLength);
      var receiver := new Receiver(bufferLength);
      tx, rx := transmitter, receiver;
    }

    /** The read data for the latched address, and whether the read takes a byte from the receive ring. */
    method ReadLatched() returns (data: Word, dequeue: bool)
      requires Valid()
      ensures data == Spec.ReadData(Device(), tx.State(), rx.State(), Capacity())
      ensures dequeue <==> !weLatch && addrLatch == Spec.RX_LANE && rx.State().queue != []
    {
      Flags(rx.buf.Length, rx.bufStart, rx.bufEnd);
      Flags(tx.buf.Length, tx.bufStart, tx.bufEnd);
      if !rx.Empty() {
        PopContents(rx.buf[..], rx.bufStart, rx.bufEnd);
      }
      assert rx.Empty() <==> rx.State().queue == [];
      assert tx.Empty() <==> tx.State().queue == [];
      hide Contents;
      data, dequeue := ZERO, false;
      if !weLatch {
        if addrLatch == Spec.RX_LANE {
          if !rx.Empty() {
            data := Word(rx.buf[rx.bufStart], CLEAR, CLEAR, CLEAR);
            dequeue := true;
          }
        } else if addrLatch == Spec.BAUD_LANE {
          data := Word(baudSelector, CLEAR, CLEAR, CLEAR);
        } else if addrLatch == Spec.STATUS_LANE {
          var status := [false, false, false, false, tx.Full(), tx.Empty(), rx.Full(), rx.Empty()];
          data := Word(status, CLEAR, CLEAR, CLEAR);
        }
      }
    }

    /** What the bus side's registers load, and whether it puts a byte in the one ring or takes one from the other. */
    method Next(req: Option<Request>) returns (next: Spec.Device, enqueue: bool, dequeue: bool)
      requires Valid()
      ensures next.Ok() && next == Spec.DeviceStep(Device(), tx.State(), rx.State(), Capacity(), req)
      ensures Spec.Push(Device(), tx.State(), Capacity())
              == if enqueue then Some(wdataLatch.Lane(wdataByteIdx)) else None
      ensures dequeue <==> Spec.Pop(Device()) && rx.State().queue != []
    {
      Flags(tx.buf.Length, tx.bufStart, tx.bufEnd);
      var data, take := ReadLatched();
      hide Contents, Spec.ReadData;
      next, enqueue, dequeue := Device(), false, false;
      match deviceState {
        case WaitRequest =>
          next := next.(rvalid := false);
          if req.Some? {
            var r := req.value;
            next := next.(state := if r.we then Spec.WriteLane else Spec.ReadLane,
                          wdata := r.wdata, addr := r.addr as nat % 256, we := r.we, be := r.be);
          }
        case ReadLane =>
          dequeue := take;
          next := next.(rdata := data, rvalid := true, state := Spec.WaitRequest);
        case WriteLane =>
          if weLatch && addrLatch == Spec.TX_LANE {
            if !beLatch.Lane(wdataByteIdx) || !tx.Full() {
              enqueue := beLatch.Lane(wdataByteIdx);
              next := next.(byteIdx := if wdataByteIdx == 3 then 0 else wdataByteIdx + 1);
              if wdataByteIdx == 3 {
                next := next.(rvalid := true, state := Spec.WaitRequest);
              }
            }
          } else {
            if weLatch && addrLatch == Spec.BAUD_LANE {
              next := next.(baud := wdataLatch.b0);
            }
            next := next.(rvalid := true, state := Spec.WaitRequest);
          }
      }
    }

    method Load(next: Spec.Device)
      requires next.Ok()
      modifies this
      ensures Device() == next
    {
      deviceState, wdataLatch, addrLatch, weLatch := next.state, next.wdata, next.addr, next.we;
      beLatch, wdataByteIdx, rvalid, rdata, baudSelector := next.be, next.byteIdx, next.rvalid, next.rdata, next.baud;
    }

    method ClockTransmitter(bit: nat, sent: Option<Byte>)
      requires Valid() && (sent.Some? ==> |tx.State().queue| < Capacity())
      modifies tx, tx.buf
      ensures Valid() && tx.State() == Spec.TxStep(old(tx.State()), bit, sent)
    {
      TxPushSplits(tx.State(), bit, if sent.Some? then sent.value else CLEAR);
      hide Contents, Spec.TxStep;
      tx.Clock(bit);
      if sent.Some? {
        tx.Enqueue(sent.value);
      }
    }

    method ClockReceiver(bit: nat, line: bool, dequeue: bool)
      requires Valid() && (dequeue ==> rx.State().queue != [])
      modifies rx, rx.buf
      ensures Valid() && rx.State() == Spec.RxStep(old(rx.State()), bit, Capacity(), line, dequeue)
    {
      RxPopSplits(rx.State(), bit, Capacity(), line);
      hide Contents, Spec.RxStep;
      rx.Clock(bit, line);
      if dequeue {
        rx.Dequeue();
      }
    }

    /** One clock: every block reads the registers as they were before the edge. */
    method Clock(line: bool, req: Option<Request>)
      requires Valid()
      modifies this, tx, tx.buf, rx, rx.buf
      ensures Valid() && State() == Spec.Step(old(State()), clockRate, Capacity(), line, req)
    {
      var bit := Spec.ClocksPerBit(clockRate, baudSelector);
      var sent := wdataLatch.Lane(wdataByteIdx);
      var next, enqueue, dequeue := Next(req);
      RxPopSplits(rx.State(), bit, Capacity(), line);
      assert enqueue ==> |tx.State().queue| < Capacity();
      hide Contents, Spec.TxStep, Spec.RxStep, Spec.DeviceStep, Spec.Push, Spec.Pop;
      hide Transmitter.State, Receiver.State, Device;
      ClockTransmitter(bit, if enqueue then Some(sent) else None);
      ClockReceiver(bit, line, dequeue);
      Load(next);
    }

    /** The grant, error and transmit pins, combinational on the registers. */
    method Pins(req: Option<Request>) returns (gnt: bool, err: bool, line: bool)
      requires Valid()
      ensures gnt == Spec.Granted(Device(), req) && err == Spec.Err(Device()) && line == Spec.TxLine(tx.State())
    {
      gnt := deviceState.WaitRequest? && req.Some?;
      err := addrLatch !in {Spec.STATUS_LANE, Spec.BAUD_LANE, Spec.TX_LANE, Spec.RX_LANE};
      match tx.phase {
        case Idle => line := true;
        case Start => line := false;
        case Data => line := tx.dataLatch[tx.dataCount];
        case Stop => line := true;
      }
    }
  }

  /** The bus side and the transmitter work opposite ends of the ring, so their moves commute. */
  lemma TxPushSplits(tx: Spec.Tx, bit: nat, b: Byte)
    requires tx.Ok()
    ensures |Spec.TxStep(tx, bit, None).queue| <= |tx.queue|
    ensures Spec.TxStep(tx, bit, Some(b))
            == var next := Spec.TxStep(tx, bit, None); next.(queue := next.queue + [b])
  {
    assert tx.queue + [] == tx.queue;
  }

  lemma RxPopSplits(rx: Spec.Rx, bit: nat, capacity: nat, line: bool)
    requires rx.Ok()
    ensures rx.queue == [] ==> Spec.RxStep(rx, bit, capacity, line, true) == Spec.RxStep(rx, bit, capacity, line, false)
    ensures rx.queue != [] ==>
              var next := Spec.RxStep(rx, bit, capacity, line, false);
              next.queue != [] && Spec.RxStep(rx, bit, capacity, line, true) == next.(queue := next.queue[1..])
  {
    hide SetBit;
    if rx.queue != [] {
      assert (rx.queue + [rx.collecting])[1..] == rx.queue[1..] + [rx.collecting];
    }
  }
}
