/** The UART as a device on the interconnect: one answer for every request, and the error line belongs to it. */
module UartBus {
  import opened Obi
  import opened BusSpec
  import opened BusHistory
  import opened BusRuns
  import Spec = UartSpec

  /** Where the UART sits, its parameters, and its receive pin cycle by cycle. */
  datatype Socket = Socket(d: nat, clockRate: nat, capacity: nat, line: nat -> bool)

  const RESET := Spec.Uart(Spec.DEVICE_RESET, Spec.TX_RESET, Spec.RX_RESET)

  /** The UART at the start of cycle `n`, clocked with what the interconnect presents to it. */
  ghost function UartAt(cfg: Config, trace: seq<Inputs>, k: Socket, n: nat): (u: Spec.Uart)
    requires Fits(cfg, trace) && k.d < cfg.Devices() && n <= |trace|
    ensures u.Ok()
  {
    if n == 0 then RESET
    else
      Spec.Step(UartAt(cfg, trace, k, n - 1), k.clockRate, k.capacity, k.line(n - 1),
                Presented(cfg, At(cfg, trace, n - 1).queue, trace[n - 1], k.d))
  }

  /** The UART's side of the bus in one cycle. */
  predicate Drives(device: Spec.Device, req: Option<Request>, inp: Inputs, d: nat)
    requires d < |inp.deviceGnt| && d < |inp.deviceResp|
  {
    && inp.deviceGnt[d] == Spec.Granted(device, req)
    && inp.deviceResp[d] == if device.rvalid then Some(Response(device.rdata, Spec.Err(device))) else None
  }

  /** Device `k.d` of the trace is the UART. */
  ghost predicate Attached(cfg: Config, trace: seq<Inputs>, k: Socket)
    requires Fits(cfg, trace) && k.d < cfg.Devices()
  {
    forall n: nat :: n < |trace| ==>
      Drives(UartAt(cfg, trace, k, n).device, Presented(cfg, At(cfg, trace, n).queue, trace[n], k.d), trace[n], k.d)
  }

  // ----- what it owes -----

  /** Requests taken and not yet answered. */
  function Owed(device: Spec.Device): nat {
    (if device.state.WaitRequest? then 0 else 1) + if device.rvalid then 1 else 0
  }

  /** The latches hold a granted request as the UART saw it. */
  predicate Holds(device: Spec.Device, r: Request, mask: bv32) {
    && device.addr == Offset(r.addr, mask) as nat % 256
    && device.we == r.we && device.be == r.be && device.wdata == r.wdata
  }

  /** At most one request is owed an answer, and the latches hold it. */
  ghost predicate Owes(cfg: Config, l: Ledger, device: Spec.Device, d: nat)
    requires |l.answers| == cfg.Devices() == |cfg.mask| && d < cfg.Devices()
  {
    && (device.rvalid ==> device.state.WaitRequest?)
    && CountTo(l.grants, d) == |l.answers[d]| + Owed(device)
    && forall k: nat :: k < |l.grants| && l.grants[k].route == Some(d) && Rank(l.grants, k, d) == |l.answers[d]| ==>
         Holds(device, l.grants[k].request, cfg.mask[d])
  }

  lemma Presents(cfg: Config, q: seq<Slot>, inp: Inputs, d: nat, device: Spec.Device)
    requires cfg.Valid() && inp.Fits(cfg) && d < cfg.Devices() && Drives(device, Presented(cfg, q, inp, d), inp, d)
    ensures var g := Accepted(cfg, q, inp);
            if g.Some? && g.value.route == Some(d)
            then Presented(cfg, q, inp, d) == Some(g.value.request.(addr := Offset(g.value.request.addr, cfg.mask[d])))
                 && device.state.WaitRequest?
            else Presented(cfg, q, inp, d).None? || !device.state.WaitRequest?
  {
    hide Offset;
  }

  lemma DeviceMoves(device: Spec.Device, tx: Spec.Tx, rx: Spec.Rx, capacity: nat, req: Option<Request>)
    requires device.Ok() && (device.rvalid ==> device.state.WaitRequest?)
    ensures var next := Spec.DeviceStep(device, tx, rx, capacity, req);
            && (next.rvalid ==> next.state.WaitRequest?)
            && Owed(next) + (if device.rvalid then 1 else 0)
               == Owed(device) + (if Spec.Granted(device, req) then 1 else 0)
            && (if Spec.Granted(device, req) then
                  next.addr == req.value.addr as nat % 256 && next.we == req.value.we && next.be == req.value.be
                  && next.wdata == req.value.wdata
                else next.addr == device.addr && next.we == device.we && next.be == device.be
                     && next.wdata == device.wdata)
  {
  }

  lemma OwesStays(cfg: Config, l: Ledger, q: seq<Slot>, inp: Inputs, d: nat,
                  u: Spec.Uart, clockRate: nat, capacity: nat, line: bool)
    requires cfg.Valid() && inp.Fits(cfg) && d < cfg.Devices() && |l.answers| == cfg.Devices() && u.Ok()
    requires Owes(cfg, l, u.device, d) && Drives(u.device, Presented(cfg, q, inp, d), inp, d)
    ensures Solicited(l, inp, d) <==> inp.deviceResp[d].Some?
    ensures var l' := Record(cfg, l, q, inp);
            |l'.answers| == cfg.Devices()
            && Owes(cfg, l', Spec.Step(u, clockRate, capacity, line, Presented(cfg, q, inp, d)).device, d)
  {
    hide Spec.TxStep, Spec.RxStep, Spec.ClocksPerBit, Spec.DeviceStep, Presented, Accepted, Offset, Delivered, Spec.Err;
    var req := Presented(cfg, q, inp, d);
    var l' := Record(cfg, l, q, inp);
    Presents(cfg, q, inp, d, u.device);
    DeviceMoves(u.device, u.tx, u.rx, capacity, req);
    RankExtends(l.grants, l'.grants, |l.grants|, d);
    var next := Spec.DeviceStep(u.device, u.tx, u.rx, capacity, req);
    forall k: nat | k < |l'.grants| && l'.grants[k].route == Some(d) && Rank(l'.grants, k, d) == |l'.answers[d]|
      ensures Holds(next, l'.grants[k].request, cfg.mask[d])
    {
      if k < |l.grants| {
        RankExtends(l.grants, l'.grants, k, d);
        RankOrder(l.grants, k, |l.grants|, d);
      }
    }
  }

  lemma NothingOwed(cfg: Config, trace: seq<Inputs>, k: Socket)
    requires Fits(cfg, trace) && k.d < cfg.Devices()
    ensures |At(cfg, trace, 0).ledger.answers| == cfg.Devices()
    ensures Owes(cfg, At(cfg, trace, 0).ledger, UartAt(cfg, trace, k, 0).device, k.d)
  {
    AtReset(cfg, trace);
    hide At, Run;
  }

  lemma {:induction false} RunOwes(cfg: Config, trace: seq<Inputs>, k: Socket, n: nat)
    requires Fits(cfg, trace) && k.d < cfg.Devices() && Attached(cfg, trace, k) && n <= |trace|
    ensures |At(cfg, trace, n).ledger.answers| == cfg.Devices()
    ensures Owes(cfg, At(cfg, trace, n).ledger, UartAt(cfg, trace, k, n).device, k.d)
  {
    hide At, UartAt, Attached, Owes;
    if n == 0 {
      NothingOwed(cfg, trace, k);
    } else {
      RunOwes(cfg, trace, k, n - 1);
      OneMore(cfg, trace, k, n - 1);
    }
  }

  lemma OneMore(cfg: Config, trace: seq<Inputs>, k: Socket, n: nat)
    requires Fits(cfg, trace) && k.d < cfg.Devices() && Attached(cfg, trace, k) && n < |trace|
    requires |At(cfg, trace, n).ledger.answers| == cfg.Devices()
    requires Owes(cfg, At(cfg, trace, n).ledger, UartAt(cfg, trace, k, n).device, k.d)
    ensures |At(cfg, trace, n + 1).ledger.answers| == cfg.Devices()
    ensures Owes(cfg, At(cfg, trace, n + 1).ledger, UartAt(cfg, trace, k, n + 1).device, k.d)
    ensures trace[n].deviceResp[k.d].Some? ==> Solicited(At(cfg, trace, n).ledger, trace[n], k.d)
  {
    hide Record, Step, Spec.Step, Solicited, Owes, Drives;
    AtNext(cfg, trace, n);
    var s := At(cfg, trace, n);
    OwesStays(cfg, s.ledger, s.queue, trace[n], k.d, UartAt(cfg, trace, k, n), k.clockRate, k.capacity, k.line(n));
  }

  // ----- the protocol -----

  /** The UART never answers unasked, so none of its answers is lost or invented. */
  lemma KeepsBusProtocol(cfg: Config, trace: seq<Inputs>, k: Socket)
    requires Fits(cfg, trace) && k.d < cfg.Devices() && Attached(cfg, trace, k)
    ensures KeepsProtocol(cfg, trace, k.d)
  {
    hide Attached, Owes, Solicited, At;
    forall n: nat | n < |trace| && trace[n].deviceResp[k.d].Some?
      ensures |At(cfg, trace, n).ledger.answers| == cfg.Devices()
      ensures Solicited(At(cfg, trace, n).ledger, trace[n], k.d)
    {
      RunOwes(cfg, trace, k, n);
      OneMore(cfg, trace, k, n);
    }
  }

  /** In every cycle it has presented one answer for each request granted to it, but for the one in progress. */
  lemma OneAnswerPerGrant(cfg: Config, trace: seq<Inputs>, k: Socket, n: nat)
    requires Fits(cfg, trace) && k.d < cfg.Devices() && Attached(cfg, trace, k) && n <= |trace|
    ensures var device := UartAt(cfg, trace, k, n).device;
            && CountTo(At(cfg, trace, n).ledger.grants, k.d) == |Emitted(cfg, trace, n, k.d)| + Owed(device)
            && Owed(device) <= 1
  {
    hide Attached, At, Emitted;
    KeepsBusProtocol(cfg, trace, k);
    RunOwes(cfg, trace, k, n);
    NothingLost(cfg, trace, n, k.d);
  }

  /** An answer fails exactly if the request it answers named none of the four lanes. */
  lemma ErrorBelongsToRequest(cfg: Config, trace: seq<Inputs>, k: Socket, n: nat, j: nat)
    requires Fits(cfg, trace) && k.d < cfg.Devices() && Attached(cfg, trace, k) && n < |trace|
    requires trace[n].deviceResp[k.d].Some?
    requires |At(cfg, trace, n).ledger.answers| == cfg.Devices()
    requires j < |At(cfg, trace, n).ledger.grants| && At(cfg, trace, n).ledger.grants[j].route == Some(k.d)
    requires Rank(At(cfg, trace, n).ledger.grants, j, k.d) == |At(cfg, trace, n).ledger.answers[k.d]|
    ensures var lane := Offset(At(cfg, trace, n).ledger.grants[j].request.addr, cfg.mask[k.d]) as nat % 256;
            trace[n].deviceResp[k.d].value.err
            <==> lane !in {Spec.STATUS_LANE, Spec.BAUD_LANE, Spec.TX_LANE, Spec.RX_LANE}
  {
    hide At, UartAt, Offset;
    RunOwes(cfg, trace, k, n);
    var presented := Presented(cfg, At(cfg, trace, n).queue, trace[n], k.d);
    assert Drives(UartAt(cfg, trace, k, n).device, presented, trace[n], k.d);
    hide Attached, Presented;
  }
}
