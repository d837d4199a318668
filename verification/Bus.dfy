/** The interconnect: the ring of outstanding transactions as the hardware keeps it. */
module Bus {
  import opened Obi
  import opened BusSpec
  import opened Ring

  /** One slot of the ring. Its fields are independent flip-flops and may hold stale values. */
  datatype Entry = Entry(host: nat, device: nat, rdata: Word, done: bool, err: bool) {
    function View(): Slot {
      if done then Ready(host, ToHost(Response(rdata, err))) else Waiting(host, device)
    }
  }

  const CLEARED := Entry(0, 0, ZERO, false, false)

  /** The occupied slots, oldest first. */
  function View(slots: seq<Entry>, front: nat, back: nat): (q: seq<Slot>)
    requires front < |slots| && back < |slots|
    ensures |q| == Occupancy(|slots|, front, back)
  {
    seq(Occupancy(|slots|, front, back), i requires 0 <= i < Occupancy(|slots|, front, back) =>
      slots[Wrap(|slots|, front + i)].View())
  }

  /** The unwritten rule the hardware rests on: a free slot has `done` and `err` clear. */
  ghost predicate RingValid(cfg: Config, slots: seq<Entry>, front: nat, back: nat) {
    && cfg.Valid() && |slots| == cfg.capacity + 1
    && front < |slots| && back < |slots|
    && (forall s :: 0 <= s < |slots| ==> slots[s].host < cfg.hosts && slots[s].device < cfg.Devices())
    && (forall s :: 0 <= s < |slots| && slots[s].err ==> slots[s].done)
    && (forall s :: 0 <= s < |slots| && slots[s].done ==>
         Occupancy(|slots|, front, s) < Occupancy(|slots|, front, back))
  }

  lemma SlotView(slots: seq<Entry>, front: nat, back: nat, s: nat)
    requires front < |slots| && back < |slots| && s < |slots|
    requires Occupancy(|slots|, front, s) < Occupancy(|slots|, front, back)
    ensures View(slots, front, back)[Occupancy(|slots|, front, s)] == slots[s].View()
  {
    assert Wrap(|slots|, front + Occupancy(|slots|, front, s)) == s;
  }

  lemma RingFlags(cfg: Config, slots: seq<Entry>, front: nat, back: nat)
    requires RingValid(cfg, slots, front, back)
    ensures Wrap(|slots|, back + 1) == front <==> |View(slots, front, back)| >= cfg.capacity
    ensures var r := slots[front];
            Delivered(View(slots, front, back)) ==
            if front != back && r.done then Some(Delivery(r.host, ToHost(Response(r.rdata, r.err)))) else None
  {
    if front != back {
      SlotView(slots, front, back, front);
    }
  }

  lemma CaptureReads(cfg: Config, slots: seq<Entry>, front: nat, back: nat, inp: Inputs, s: nat)
    requires RingValid(cfg, slots, front, back) && inp.Fits(cfg) && s < |slots|
    requires Captures(View(slots, front, back), inp, Occupancy(|slots|, front, s))
    ensures slots[s].device < |inp.deviceResp| && inp.deviceResp[slots[s].device].Some?
    ensures s != back && !slots[s].done
  {
    SlotView(slots, front, back, s);
  }

  /** `done` is written only for an unmapped address. */
  function Fill(e: Entry, g: Grant): Entry {
    if g.route.Some? then e.(host := g.host, device := g.route.value, err := false)
    else e.(host := g.host, device := 0, err := true, done := true)
  }

  /** The value clocked into slot `s`: accept, capture and pop each touch a different slot. */
  ghost function NextEntry(cfg: Config, slots: seq<Entry>, front: nat, back: nat, inp: Inputs, s: nat): Entry
    requires RingValid(cfg, slots, front, back) && inp.Fits(cfg) && s < |slots|
  {
    var q := View(slots, front, back);
    var g, i := Accepted(cfg, q, inp), Occupancy(|slots|, front, s);
    if g.Some? && s == back then Fill(slots[s], g.value)
    else if Captures(q, inp, i) then
      CaptureReads(cfg, slots, front, back, inp, s);
      var r := inp.deviceResp[slots[s].device].value;
      slots[s].(rdata := r.rdata, err := r.err, done := true)
    else if Delivered(q).Some? && s == front then slots[s].(done := false, err := false)
    else slots[s]
  }

  function NextFront(slots: seq<Entry>, front: nat, back: nat): (f: nat)
    requires front < |slots| && back < |slots|
    ensures f < |slots|
  {
    if Delivered(View(slots, front, back)).Some? then Wrap(|slots|, front + 1) else front
  }

  function NextBack(cfg: Config, slots: seq<Entry>, front: nat, back: nat, inp: Inputs): (b: nat)
    requires cfg.Valid() && inp.Fits(cfg) && front < |slots| && back < |slots|
    ensures b < |slots|
  {
    if Accepted(cfg, View(slots, front, back), inp).Some? then Wrap(|slots|, back + 1) else back
  }

  ghost predicate Clocks(cfg: Config, slots: seq<Entry>, front: nat, back: nat, inp: Inputs, slots': seq<Entry>)
    requires RingValid(cfg, slots, front, back) && inp.Fits(cfg)
  {
    |slots'| == |slots| && forall s :: 0 <= s < |slots| ==> slots'[s] == NextEntry(cfg, slots, front, back, inp, s)
  }

  /** A captured slot is occupied, so it is not the one being filled, and it is not being popped. */
  lemma NextEntryView(cfg: Config, slots: seq<Entry>, front: nat, back: nat, inp: Inputs, i: nat)
    requires RingValid(cfg, slots, front, back) && inp.Fits(cfg)
    requires i < Occupancy(|slots|, front, back)
    ensures var q, s := View(slots, front, back), Wrap(|slots|, front + i);
            (i == 0 && Delivered(q).Some?) || NextEntry(cfg, slots, front, back, inp, s).View() == Captured(q, inp, i)
  {
    hide Accepted;
    var q, s := View(slots, front, back), Wrap(|slots|, front + i);
    assert q[i] == slots[s].View();
    assert Occupancy(|slots|, front, s) == i;
  }

  /** Accepting for a mapped device never clears `done`: the slot is right because it was free. */
  lemma EnteringView(cfg: Config, slots: seq<Entry>, front: nat, back: nat, inp: Inputs)
    requires RingValid(cfg, slots, front, back) && inp.Fits(cfg)
    requires Accepted(cfg, View(slots, front, back), inp).Some?
    ensures [NextEntry(cfg, slots, front, back, inp, back).View()]
            == Enter(Accepted(cfg, View(slots, front, back), inp))
  {
    hide Accepted;
    assert !slots[back].done;
  }

  /** The slot a position of the next queue is read from, and what it holds. */
  lemma PositionSteps(cfg: Config, slots: seq<Entry>, front: nat, back: nat, inp: Inputs, i: nat)
    requires RingValid(cfg, slots, front, back) && inp.Fits(cfg)
    requires i < |Step(cfg, View(slots, front, back), inp)|
    ensures i < |slots|
    ensures NextEntry(cfg, slots, front, back, inp, Wrap(|slots|, NextFront(slots, front, back) + i)).View()
            == Step(cfg, View(slots, front, back), inp)[i]
  {
    assert |slots| == cfg.capacity + 1;
    hide Accepted, Captures, NextEntry, RingValid;
    var q := View(slots, front, back);
    var k := if Delivered(q).Some? then i + 1 else i;
    assert Wrap(|slots|, NextFront(slots, front, back) + i) == Wrap(|slots|, front + k);
    if k < |q| {
      assert Step(cfg, q, inp)[i] == Captured(q, inp, k);
      NextEntryView(cfg, slots, front, back, inp, k);
    } else {
      assert Wrap(|slots|, front + k) == back;
      EnteringView(cfg, slots, front, back, inp);
    }
  }

  lemma RingSteps(cfg: Config, slots: seq<Entry>, front: nat, back: nat, inp: Inputs, slots': seq<Entry>)
    requires RingValid(cfg, slots, front, back) && inp.Fits(cfg)
    requires Clocks(cfg, slots, front, back, inp, slots')
    ensures View(slots', NextFront(slots, front, back), NextBack(cfg, slots, front, back, inp))
            == Step(cfg, View(slots, front, back), inp)
  {
    assert |slots| == cfg.capacity + 1;
    var q := View(slots, front, back);
    var q' := View(slots', NextFront(slots, front, back), NextBack(cfg, slots, front, back, inp));
    var next := Step(cfg, q, inp);
    hide Accepted, Captures, NextEntry, RingValid, Captured;
    assert |q'| == |next|;
    forall i | 0 <= i < |q'|
      ensures q'[i] == next[i]
    {
      PositionSteps(cfg, slots, front, back, inp, i);
    }
  }

  lemma NextEntryValid(cfg: Config, slots: seq<Entry>, front: nat, back: nat, inp: Inputs, s: nat)
    requires RingValid(cfg, slots, front, back) && inp.Fits(cfg) && s < |slots|
    ensures var e := NextEntry(cfg, slots, front, back, inp, s);
            && e.host < cfg.hosts && e.device < cfg.Devices() && (e.err ==> e.done)
            && (e.done ==> Occupancy(|slots|, NextFront(slots, front, back), s)
                           < Occupancy(|slots|, NextFront(slots, front, back), NextBack(cfg, slots, front, back, inp)))
  {
    hide Accepted;
    if Captures(View(slots, front, back), inp, Occupancy(|slots|, front, s)) {
      CaptureReads(cfg, slots, front, back, inp, s);
    }
    RingFlags(cfg, slots, front, back);
  }

  lemma RingStaysValid(cfg: Config, slots: seq<Entry>, front: nat, back: nat, inp: Inputs, slots': seq<Entry>)
    requires RingValid(cfg, slots, front, back) && inp.Fits(cfg)
    requires Clocks(cfg, slots, front, back, inp, slots')
    ensures RingValid(cfg, slots', NextFront(slots, front, back), NextBack(cfg, slots, front, back, inp))
  {
    forall s | 0 <= s < |slots|
      ensures var e := slots'[s];
              && e.host < cfg.hosts && e.device < cfg.Devices() && (e.err ==> e.done)
              && (e.done ==> Occupancy(|slots|, NextFront(slots, front, back), s)
                             < Occupancy(|slots|, NextFront(slots, front, back),
                                         NextBack(cfg, slots, front, back, inp)))
    {
      NextEntryValid(cfg, slots, front, back, inp, s);
    }
    hide Accepted, NextEntry, NextFront, NextBack, Occupancy;
  }

  class Interconnect {
    const cfg: Config
    const outstanding: array<Entry>
    var front: nat
    var back: nat

    ghost predicate Valid()
      reads this, outstanding
    {
      RingValid(cfg, outstanding[..], front, back)
    }

    function Queue(): seq<Slot>
      reads this, outstanding
      requires front < outstanding.Length && back < outstanding.Length
    {
      View(outstanding[..], front, back)
    }

    constructor (cfg: Config)
      requires cfg.Valid()
      ensures Valid() && Queue() == [] && this.cfg == cfg && fresh(outstanding)
    {
      this.cfg := cfg;
      outstanding := new Entry[cfg.capacity + 1](_ => CLEARED);
      front, back := 0, 0;
    }

    /** Fixed priority: scanning downwards leaves the lowest-numbered requesting host. */
    method Arbitrate(reqs: seq<Option<Request>>) returns (valid: bool, host: nat)
      ensures valid <==> WinnerFrom(reqs, 0).Some?
      ensures valid ==> WinnerFrom(reqs, 0) == Some(host)
    {
      valid, host := false, 0;
      var i: nat := |reqs|;
      while i > 0
        invariant i <= |reqs|
        invariant valid <==> WinnerFrom(reqs, i).Some?
        invariant valid ==> WinnerFrom(reqs, i) == Some(host)
      {
        i := i - 1;
        if reqs[i].Some? {
          valid, host := true, i;
        }
      }
    }

    /** Scanning upwards leaves the highest-numbered matching device. */
    method Decode(addr: bv32) returns (valid: bool, device: nat)
      requires cfg.Valid()
      ensures valid <==> DecodeBelow(cfg, addr, cfg.Devices()).Some?
      ensures valid ==> DecodeBelow(cfg, addr, cfg.Devices()) == Some(device)
    {
      hide Matches;
      valid, device := false, 0;
      for i := 0 to |cfg.base|
        invariant valid <==> DecodeBelow(cfg, addr, i).Some?
        invariant valid ==> DecodeBelow(cfg, addr, i) == Some(device)
      {
        if Matches(cfg, i, addr) {
          valid, device := true, i;
        }
      }
    }

    /** Which slots take a device answer at the end of this cycle. */
    method SelectCaptures(inp: Inputs) returns (enable: seq<bool>)
      requires Valid() && inp.Fits(cfg)
      ensures |enable| == outstanding.Length
      ensures forall s :: 0 <= s < outstanding.Length ==>
        (enable[s] <==> Captures(Queue(), inp, Occupancy(outstanding.Length, front, s)))
    {
      var n := outstanding.Length;
      var occ := Occupancy(n, front, back);
      ghost var q := Queue();
      var claimed := seq(cfg.Devices(), _ => false);
      enable := seq(n, _ => false);
      for i := 0 to n
        invariant |enable| == n && |claimed| == cfg.Devices()
        invariant forall s :: 0 <= s < n ==>
          (enable[s] <==> Occupancy(n, front, s) < i && Captures(q, inp, Occupancy(n, front, s)))
        invariant forall d :: 0 <= d < cfg.Devices() ==>
          (claimed[d] <==> inp.deviceResp[d].Some? && exists j :: 0 <= j < i && j < |q| && WaitsFor(q[j], d))
      {
        var idx := Wrap(n, front + i);
        var dev := outstanding[idx].device;
        if i < occ {
          assert q[i] == outstanding[idx].View();
          if inp.deviceResp[dev].Some? && !outstanding[idx].done && !outstanding[idx].err && !claimed[dev] {
            enable := enable[idx := true];
            claimed := claimed[dev := true];
          }
        }
      }
    }

    /** The A channel: grant the winner, present its request to the device that owns the address. */
    method DriveRequests(inp: Inputs, hostValid: bool, host: nat, deviceValid: bool, device: nat)
      returns (hostGnt: seq<bool>, deviceReq: seq<Option<Request>>)
      requires Valid() && inp.Fits(cfg)
      requires hostValid <==> WinnerFrom(inp.hostReq, 0).Some?
      requires hostValid ==> WinnerFrom(inp.hostReq, 0) == Some(host)
      requires hostValid ==>
        var route := DecodeBelow(cfg, inp.hostReq[host].value.addr, cfg.Devices());
        if deviceValid then route == Some(device) else route == None
      ensures DrivesRequests(cfg, Queue(), inp, hostGnt, deviceReq)
    {
      RingFlags(cfg, outstanding[..], front, back);
      hide View, WinnerFrom, DecodeBelow, RingValid, Offset;
      hostGnt := seq(cfg.hosts, _ => false);
      deviceReq := seq(cfg.Devices(), _ => None);
      var full := Wrap(outstanding.Length, back + 1) == front;
      if hostValid && !full {
        if deviceValid {
          hostGnt := hostGnt[host := inp.deviceGnt[device]];
          var request := inp.hostReq[host].value;
          deviceReq := deviceReq[device := Some(request.(addr := Offset(request.addr, cfg.mask[device])))];
        } else {
          hostGnt := hostGnt[host := true];
        }
      }
    }

    /** The R channel: the oldest transaction answers its host as soon as it is done. */
    method DriveResponses() returns (hostResp: seq<Option<Response>>)
      requires Valid()
      ensures DrivesResponses(cfg, Queue(), hostResp)
    {
      RingFlags(cfg, outstanding[..], front, back);
      hide View;
      hostResp := seq(cfg.hosts, _ => None);
      var response := outstanding[front];
      if front != back && response.done {
        var rdata := if response.err then ZERO else response.rdata;
        hostResp := hostResp[response.host := Some(Response(rdata, response.err))];
      }
    }

    /** One clock cycle: read the pins, drive the outputs, clock the ring. */
    method Clock(inp: Inputs)
      returns (hostGnt: seq<bool>, deviceReq: seq<Option<Request>>, hostResp: seq<Option<Response>>)
      requires Valid() && inp.Fits(cfg)
      modifies this, outstanding
      ensures Valid()
      ensures Queue() == Step(cfg, old(Queue()), inp)
      ensures DrivesRequests(cfg, old(Queue()), inp, hostGnt, deviceReq)
      ensures DrivesResponses(cfg, old(Queue()), hostResp)
    {
      hide View, WinnerFrom, DecodeBelow, Captures, Step, DrivesRequests, DrivesResponses, Clocks;
      var hostReqValid, host := Arbitrate(inp.hostReq);
      var deviceReqValid, device := false, 0;
      if hostReqValid {
        deviceReqValid, device := Decode(inp.hostReq[host].value.addr);
      }
      hostGnt, deviceReq := DriveRequests(inp, hostReqValid, host, deviceReqValid, device);
      hostResp := DriveResponses();
      var captureEn := SelectCaptures(inp);

      ghost var pre, preFront, preBack := outstanding[..], front, back;
      ClockRing(inp, hostReqValid, host, deviceReqValid, device, captureEn);
      RingSteps(cfg, pre, preFront, preBack, inp, outstanding[..]);
      RingStaysValid(cfg, pre, preFront, preBack, inp, outstanding[..]);
    }

    /** The clocked block: accept into the free slot, capture answers, pop the oldest transaction. */
    method ClockRing(inp: Inputs, hostReqValid: bool, host: nat, deviceReqValid: bool, device: nat,
                     captureEn: seq<bool>)
      requires Valid() && inp.Fits(cfg)
      requires hostReqValid <==> WinnerFrom(inp.hostReq, 0).Some?
      requires hostReqValid ==> WinnerFrom(inp.hostReq, 0) == Some(host)
      requires hostReqValid ==>
        var route := DecodeBelow(cfg, inp.hostReq[host].value.addr, cfg.Devices());
        if deviceReqValid then route == Some(device) else route == None
      requires |captureEn| == outstanding.Length
      requires forall s :: 0 <= s < outstanding.Length ==>
        (captureEn[s] <==> Captures(Queue(), inp, Occupancy(outstanding.Length, front, s)))
      modifies this, outstanding
      ensures Clocks(cfg, old(outstanding[..]), old(front), old(back), inp, outstanding[..])
      ensures front == NextFront(old(outstanding[..]), old(front), old(back))
      ensures back == NextBack(cfg, old(outstanding[..]), old(front), old(back), inp)
    {
      // Non-blocking assignments: every right-hand side reads the state before the clock edge.
      var pre, preFront, preBack := outstanding[..], front, back;
      RingFlags(cfg, pre, preFront, preBack);
      forall s | 0 <= s < |pre| && captureEn[s]
        ensures pre[s].device < |inp.deviceResp| && inp.deviceResp[pre[s].device].Some?
        ensures s != preBack && !pre[s].done
      {
        CaptureReads(cfg, pre, preFront, preBack, inp, s);
      }
      ClockAccept(inp, hostReqValid, host, deviceReqValid, device);
      hide View, Accepted, Captures, RingValid, Fill;
      ClockCaptures(pre, captureEn, inp);
      var response := pre[preFront];
      if preFront != preBack && response.done {
        outstanding[preFront] := outstanding[preFront].(done := false, err := false);
        front := Wrap(outstanding.Length, preFront + 1);
      }
    }

    method ClockAccept(inp: Inputs, hostReqValid: bool, host: nat, deviceReqValid: bool, device: nat)
      requires Valid() && inp.Fits(cfg)
      requires hostReqValid <==> WinnerFrom(inp.hostReq, 0).Some?
      requires hostReqValid ==> WinnerFrom(inp.hostReq, 0) == Some(host)
      requires hostReqValid ==>
        var route := DecodeBelow(cfg, inp.hostReq[host].value.addr, cfg.Devices());
        if deviceReqValid then route == Some(device) else route == None
      modifies this`back, outstanding
      ensures back == NextBack(cfg, old(outstanding[..]), front, old(back), inp)
      ensures forall s :: 0 <= s < outstanding.Length ==>
        outstanding[s] ==
          var g := Accepted(cfg, old(Queue()), inp);
          if g.Some? && s == old(back) then Fill(old(outstanding[s]), g.value) else old(outstanding[s])
    {
      RingFlags(cfg, outstanding[..], front, back);
      hide View, WinnerFrom, DecodeBelow, RingValid;
      var full := Wrap(outstanding.Length, back + 1) == front;
      if hostReqValid && !full {
        if deviceReqValid && inp.deviceGnt[device] {
          outstanding[back] := outstanding[back].(host := host, device := device, err := false);
          back := Wrap(outstanding.Length, back + 1);
        }
        if !deviceReqValid {
          outstanding[back] := outstanding[back].(host := host, device := 0, err := true, done := true);
          back := Wrap(outstanding.Length, back + 1);
        }
      }
    }

    method ClockCaptures(pre: seq<Entry>, enable: seq<bool>, inp: Inputs)
      requires |pre| == |enable| == outstanding.Length
      requires forall s :: 0 <= s < |pre| && enable[s] ==>
        pre[s].device < |inp.deviceResp| && inp.deviceResp[pre[s].device].Some?
      modifies outstanding
      ensures forall s :: 0 <= s < |pre| ==>
        outstanding[s] ==
          if !enable[s] then old(outstanding[s])
          else
            var r := inp.deviceResp[pre[s].device].value;
            old(outstanding[s]).(rdata := r.rdata, err := r.err, done := true)
    {
      for i := 0 to outstanding.Length
        invariant forall s :: i <= s < |pre| ==> outstanding[s] == old(outstanding[s])
        invariant forall s :: 0 <= s < i ==>
          outstanding[s] ==
            if !enable[s] then old(outstanding[s])
            else
              var r := inp.deviceResp[pre[s].device].value;
              old(outstanding[s]).(rdata := r.rdata, err := r.err, done := true)
      {
        if enable[i] {
          var r := inp.deviceResp[pre[i].device].value;
          outstanding[i] := outstanding[i].(rdata := r.rdata, err := r.err, done := true);
        }
      }
    }
  }
}
