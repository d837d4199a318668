/**
 The interconnect without its ring: a queue of outstanding transactions, oldest first.
 `Bus.Interconnect` (the ring of slots) is proved to step exactly like this queue, and
 `BusHistory` proves what the queue promises over whole runs.
 */
module BusSpec {
  import opened Masks
  import opened Obi

  /** One outstanding transaction, as a host will see it. */
  datatype Slot =
    | Waiting(host: nat, device: nat)
    | Ready(host: nat, response: Response)

  /** One compare (base, mask) per device; the ring holds at most `capacity` transactions. */
  datatype Config = Config(hosts: nat, base: seq<bv32>, mask: seq<bv32>, capacity: nat) {
    predicate Valid() {
      0 < hosts && 0 < |base| == |mask| && 0 < capacity
    }

    function Devices(): nat {
      |base|
    }
  }

  /** The input pins in one clock cycle; `None` is a low request or valid line. */
  datatype Inputs = Inputs(hostReq: seq<Option<Request>>, deviceGnt: seq<bool>, deviceResp: seq<Option<Response>>) {
    predicate Fits(cfg: Config) {
      |hostReq| == cfg.hosts && |deviceGnt| == |deviceResp| == cfg.Devices()
    }
  }

  /** A transaction accepted from a host: `route` is `None` when no device owns the address. */
  datatype Grant = Grant(host: nat, route: Option<nat>, request: Request)

  datatype Delivery = Delivery(host: nat, response: Response)

  const ERROR_RESPONSE := Response(ZERO, true)

  /** An error response reaches the host with its data forced to zero. */
  function ToHost(r: Response): Response {
    if r.err then ERROR_RESPONSE else r
  }

  // ----- arbitration and address decode -----

  predicate Matches(cfg: Config, d: nat, addr: bv32)
    requires cfg.Valid() && d < cfg.Devices()
  {
    Masked(addr, cfg.mask[d], cfg.base[d])
  }

  /** The lowest-numbered requesting host at or after `i`. */
  function WinnerFrom(reqs: seq<Option<Request>>, i: nat): (w: Option<nat>)
    requires i <= |reqs|
    ensures w.Some? ==> i <= w.value < |reqs| && reqs[w.value].Some?
    ensures w.Some? ==> forall j :: i <= j < w.value ==> reqs[j].None?
    ensures w.None? ==> forall j :: i <= j < |reqs| ==> reqs[j].None?
    decreases |reqs| - i
  {
    if i == |reqs| then None
    else if reqs[i].Some? then Some(i)
    else WinnerFrom(reqs, i + 1)
  }

  /** The highest-numbered device below `n` whose compare matches. */
  function DecodeBelow(cfg: Config, addr: bv32, n: nat): (d: Option<nat>)
    requires cfg.Valid() && n <= cfg.Devices()
    ensures d.Some? ==> d.value < n && Matches(cfg, d.value, addr)
    ensures d.Some? ==> forall j :: d.value < j < n ==> !Matches(cfg, j, addr)
    ensures d.None? ==> forall j :: 0 <= j < n ==> !Matches(cfg, j, addr)
  {
    if n == 0 then None
    else if Matches(cfg, n - 1, addr) then Some(n - 1)
    else DecodeBelow(cfg, addr, n - 1)
  }

  // ----- one clock cycle -----

  /** The transaction accepted in this cycle, if any. */
  function Accepted(cfg: Config, q: seq<Slot>, inp: Inputs): (g: Option<Grant>)
    requires cfg.Valid() && inp.Fits(cfg)
    ensures g.Some? ==> |q| < cfg.capacity && g.value.host < cfg.hosts
    ensures g.Some? && g.value.route.Some? ==> g.value.route.value < cfg.Devices()
  {
    var w := WinnerFrom(inp.hostReq, 0);
    if w.None? || |q| >= cfg.capacity then None
    else
      var request := inp.hostReq[w.value].value;
      var route := DecodeBelow(cfg, request.addr, cfg.Devices());
      if route.Some? && !inp.deviceGnt[route.value] then None
      else Some(Grant(w.value, route, request))
  }

  /** The response handed to a host in this cycle, if any. */
  function Delivered(q: seq<Slot>): Option<Delivery> {
    if |q| > 0 && q[0].Ready? then Some(Delivery(q[0].host, q[0].response)) else None
  }

  predicate WaitsFor(s: Slot, d: nat) {
    s.Waiting? && s.device == d
  }

  /** Slot `i` is the oldest transaction still waiting for a device that answers now. */
  predicate Captures(q: seq<Slot>, inp: Inputs, i: nat) {
    && i < |q| && q[i].Waiting?
    && q[i].device < |inp.deviceResp| && inp.deviceResp[q[i].device].Some?
    && forall j :: 0 <= j < i ==> !WaitsFor(q[j], q[i].device)
  }

  function Captured(q: seq<Slot>, inp: Inputs, i: nat): (s: Slot)
    requires i < |q|
    ensures q[i].Ready? ==> s == q[i]
  {
    if Captures(q, inp, i) then Ready(q[i].host, ToHost(inp.deviceResp[q[i].device].value)) else q[i]
  }

  function CaptureAll(q: seq<Slot>, inp: Inputs): (r: seq<Slot>) {
    seq(|q|, i requires 0 <= i < |q| => Captured(q, inp, i))
  }

  function Enter(g: Option<Grant>): seq<Slot> {
    match g
    case None => []
    case Some(g) => [if g.route.None? then Ready(g.host, ERROR_RESPONSE) else Waiting(g.host, g.route.value)]
  }

  function Step(cfg: Config, q: seq<Slot>, inp: Inputs): seq<Slot>
    requires cfg.Valid() && inp.Fits(cfg)
  {
    (if Delivered(q).Some? then CaptureAll(q, inp)[1..] else CaptureAll(q, inp)) + Enter(Accepted(cfg, q, inp))
  }

  // ----- output pins -----

  function Offset(addr: bv32, mask: bv32): bv32 {
    addr & !mask
  }

  /** The request presented to device `d`: the winner's, with the device's base stripped off. */
  function Presented(cfg: Config, q: seq<Slot>, inp: Inputs, d: nat): Option<Request>
    requires cfg.Valid() && inp.Fits(cfg) && d < cfg.Devices()
  {
    var w := WinnerFrom(inp.hostReq, 0);
    if w.None? || |q| >= cfg.capacity then None
    else
      var request := inp.hostReq[w.value].value;
      if DecodeBelow(cfg, request.addr, cfg.Devices()) == Some(d)
      then Some(request.(addr := Offset(request.addr, cfg.mask[d]))) else None
  }

  ghost predicate DrivesRequests(cfg: Config, q: seq<Slot>, inp: Inputs,
                                 hostGnt: seq<bool>, deviceReq: seq<Option<Request>>)
    requires cfg.Valid() && inp.Fits(cfg)
  {
    && |hostGnt| == cfg.hosts && |deviceReq| == cfg.Devices()
    && (forall h :: 0 <= h < cfg.hosts ==>
         (hostGnt[h] <==> Accepted(cfg, q, inp).Some? && Accepted(cfg, q, inp).value.host == h))
    && (forall d :: 0 <= d < cfg.Devices() ==> deviceReq[d] == Presented(cfg, q, inp, d))
  }

  ghost predicate DrivesResponses(cfg: Config, q: seq<Slot>, hostResp: seq<Option<Response>>) {
    && |hostResp| == cfg.hosts
    && forall h :: 0 <= h < cfg.hosts ==>
      hostResp[h] == (match Delivered(q)
                      case None => None
                      case Some(r) => if r.host == h then Some(r.response) else None)
  }
}
