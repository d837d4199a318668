/**
 The interconnect with register files as its devices. However requests of many hosts overlap in
 the ring, the whole behaves as one memory that executes the granted requests one after another.
 */
module Memory {
  import opened Obi
  import opened BusSpec
  import opened BusHistory
  import RegFile

  datatype SystemConfig = SystemConfig(bus: Config, regs: seq<RegFile.RegConfig>) {
    predicate Valid() {
      bus.Valid() && |regs| == bus.Devices() && forall d :: 0 <= d < |regs| ==> regs[d].Valid()
    }
  }

  /** Interconnect queue, its history, and the devices. */
  datatype System = System(ledger: Ledger, queue: seq<Slot>, devices: seq<RegFile.Regs>)

  // ----- the sequential reference: registers of every device, one request at a time -----

  type Store = seq<seq<Word>>

  function ResetStore(sc: SystemConfig): Store {
    seq(|sc.regs|, d requires 0 <= d < |sc.regs| => sc.regs[d].reset)
  }

  ghost predicate Shaped(sc: SystemConfig, m: Store) {
    |m| == |sc.regs| && forall d :: 0 <= d < |m| ==> |m[d]| == sc.regs[d].Count()
  }

  function Quiet(n: nat): seq<Option<Word>> {
    seq(n, _ => None)
  }

  /** The request as the device sees it: the base of its window stripped off. */
  function AtDevice(sc: SystemConfig, d: nat, r: Request): Request
    requires sc.Valid() && d < |sc.regs|
  {
    r.(addr := Offset(r.addr, sc.bus.mask[d]))
  }

  ghost predicate Routed(sc: SystemConfig, g: Grant) {
    g.route.Some? ==> g.route.value < |sc.regs|
  }

  ghost function Execute(sc: SystemConfig, m: Store, g: Grant): (m': Store)
    requires sc.Valid() && Shaped(sc, m) && Routed(sc, g)
    ensures Shaped(sc, m')
  {
    if g.route.None? then m
    else
      var d := g.route.value;
      m[d := RegFile.Step(sc.regs[d], RegFile.Regs(m[d], None), Some(AtDevice(sc, d, g.request)), Quiet(|m[d]|)).q]
  }

  ghost predicate AllRouted(sc: SystemConfig, grants: seq<Grant>) {
    forall k :: 0 <= k < |grants| ==> Routed(sc, grants[k])
  }

  /** The store after executing the first `n` grants in order. */
  ghost function Replay(sc: SystemConfig, grants: seq<Grant>, n: nat): (m: Store)
    requires sc.Valid() && AllRouted(sc, grants) && n <= |grants|
    ensures Shaped(sc, m)
  {
    if n == 0 then ResetStore(sc) else Execute(sc, Replay(sc, grants, n - 1), grants[n - 1])
  }

  /** What device `d` answers to grant `k` when every earlier grant has been executed. */
  ghost function DeviceReply(sc: SystemConfig, grants: seq<Grant>, k: nat): Response
    requires sc.Valid() && AllRouted(sc, grants) && k < |grants| && grants[k].route.Some?
  {
    var d := grants[k].route.value;
    RegFile.Reply(sc.regs[d], Replay(sc, grants, k)[d], AtDevice(sc, d, grants[k].request))
  }

  ghost function SequentialResponse(sc: SystemConfig, grants: seq<Grant>, k: nat): Response
    requires sc.Valid() && AllRouted(sc, grants) && k < |grants|
  {
    if grants[k].route.None? then ERROR_RESPONSE else ToHost(DeviceReply(sc, grants, k))
  }

  // ----- the clocked system -----

  /** The pins of the interconnect: grants and answers come from the register files. */
  function Pins(sc: SystemConfig, s: System, hostReq: seq<Option<Request>>): (inp: Inputs)
    requires sc.Valid() && |hostReq| == sc.bus.hosts && |s.devices| == |sc.regs|
    ensures inp.Fits(sc.bus)
  {
    var idle := Inputs(hostReq, seq(|sc.regs|, _ => false), seq(|sc.regs|, _ => None));
    Inputs(hostReq,
           seq(|sc.regs|, d requires 0 <= d < |sc.regs| => Presented(sc.bus, s.queue, idle, d).Some?),
           seq(|sc.regs|, d requires 0 <= d < |sc.regs| => s.devices[d].resp))
  }

  ghost predicate SystemShaped(sc: SystemConfig, s: System) {
    && |s.devices| == |sc.regs| && |s.ledger.answers| == |sc.regs|
    && forall d :: 0 <= d < |sc.regs| ==> |s.devices[d].q| == sc.regs[d].Count()
  }

  ghost function Clock(sc: SystemConfig, s: System, hostReq: seq<Option<Request>>): (s': System)
    requires sc.Valid() && SystemShaped(sc, s) && |hostReq| == sc.bus.hosts
    ensures SystemShaped(sc, s')
  {
    var inp := Pins(sc, s, hostReq);
    System(
      Record(sc.bus, s.ledger, s.queue, inp),
      Step(sc.bus, s.queue, inp),
      seq(|sc.regs|, d requires 0 <= d < |sc.regs| =>
        RegFile.Step(sc.regs[d], s.devices[d], Presented(sc.bus, s.queue, inp, d), Quiet(sc.regs[d].Count()))))
  }

  function PowerOn(sc: SystemConfig): System
    requires sc.Valid()
  {
    System(Ledger([], seq(|sc.regs|, _ => []), []), [],
           seq(|sc.regs|, d requires 0 <= d < |sc.regs| => RegFile.Regs(sc.regs[d].reset, None)))
  }

  ghost predicate Fits(sc: SystemConfig, trace: seq<seq<Option<Request>>>) {
    sc.Valid() && forall i :: 0 <= i < |trace| ==> |trace[i]| == sc.bus.hosts
  }

  /** The system after the cycles of `trace`: the request lines of all hosts, cycle by cycle. */
  ghost function Run(sc: SystemConfig, trace: seq<seq<Option<Request>>>): (s: System)
    requires Fits(sc, trace)
    ensures SystemShaped(sc, s)
  {
    if trace == [] then PowerOn(sc)
    else Clock(sc, Run(sc, trace[..|trace| - 1]), trace[|trace| - 1])
  }

  // ----- the invariant -----

  /** Device `d` holds what the replay says and owes at most the answer to its latest grant. */
  ghost predicate DeviceAgrees(sc: SystemConfig, s: System, d: nat)
    requires sc.Valid() && SystemShaped(sc, s) && AllRouted(sc, s.ledger.grants) && d < |sc.regs|
  {
    && s.devices[d].q == Replay(sc, s.ledger.grants, |s.ledger.grants|)[d]
    && |s.ledger.answers[d]| + (if s.devices[d].resp.Some? then 1 else 0) == CountTo(s.ledger.grants, d)
  }

  /** Grant `k` has been, or is about to be, answered as in the sequential execution. */
  ghost predicate ReplyAgrees(sc: SystemConfig, s: System, k: nat)
    requires sc.Valid() && SystemShaped(sc, s) && AllRouted(sc, s.ledger.grants) && k < |s.ledger.grants|
  {
    var l := s.ledger;
    l.grants[k].route.Some? ==>
      var d := l.grants[k].route.value;
      var j := Rank(l.grants, k, d);
      if j < |l.answers[d]| then l.answers[d][j] == DeviceReply(sc, l.grants, k)
      else s.devices[d].resp == Some(DeviceReply(sc, l.grants, k))
  }

  ghost predicate Agrees(sc: SystemConfig, s: System) {
    && sc.Valid() && SystemShaped(sc, s)
    && Consistent(sc.bus, s.ledger, s.queue)
    && AllRouted(sc, s.ledger.grants)
    && (forall d :: 0 <= d < |sc.regs| ==> DeviceAgrees(sc, s, d))
    && (forall k :: 0 <= k < |s.ledger.grants| ==> ReplyAgrees(sc, s, k))
  }

  // ----- one clock keeps the invariant -----

  lemma {:induction false} ReplayExtends(sc: SystemConfig, grants: seq<Grant>, grants': seq<Grant>, n: nat)
    requires sc.Valid() && AllRouted(sc, grants) && AllRouted(sc, grants') && grants <= grants' && n <= |grants|
    ensures Replay(sc, grants', n) == Replay(sc, grants, n)
  {
    if n > 0 {
      ReplayExtends(sc, grants, grants', n - 1);
    }
  }

  /** What the interconnect accepts is exactly what it presents to one device. */
  lemma AcceptedIsPresented(sc: SystemConfig, s: System, hostReq: seq<Option<Request>>, d: nat)
    requires sc.Valid() && SystemShaped(sc, s) && |hostReq| == sc.bus.hosts && d < |sc.regs|
    ensures var inp := Pins(sc, s, hostReq);
            var g := Accepted(sc.bus, s.queue, inp);
            Presented(sc.bus, s.queue, inp, d)
            == if g.Some? && g.value.route == Some(d) then Some(AtDevice(sc, d, g.value.request)) else None
  {
    hide Offset;
  }

  lemma SolicitedIsPresent(sc: SystemConfig, s: System, hostReq: seq<Option<Request>>, d: nat)
    requires Agrees(sc, s) && |hostReq| == sc.bus.hosts && d < |sc.regs|
    ensures Solicited(s.ledger, Pins(sc, s, hostReq), d) <==> s.devices[d].resp.Some?
  {
    assert DeviceAgrees(sc, s, d);
  }

  lemma IdleKeeps(rc: RegFile.RegConfig, s: RegFile.Regs)
    requires rc.Valid() && |s.q| == rc.Count()
    ensures RegFile.Step(rc, s, None, Quiet(rc.Count())).q == s.q
  {
  }

  lemma GrantsStayRouted(sc: SystemConfig, s: System, hostReq: seq<Option<Request>>)
    requires Agrees(sc, s) && |hostReq| == sc.bus.hosts
    ensures AllRouted(sc, Clock(sc, s, hostReq).ledger.grants)
    ensures s.ledger.grants <= Clock(sc, s, hostReq).ledger.grants
  {
  }

  lemma RegistersStep(sc: SystemConfig, s: System, hostReq: seq<Option<Request>>, d: nat)
    requires Agrees(sc, s) && |hostReq| == sc.bus.hosts && d < |sc.regs|
    ensures var s' := Clock(sc, s, hostReq);
            AllRouted(sc, s'.ledger.grants) && s'.devices[d].q == Replay(sc, s'.ledger.grants, |s'.ledger.grants|)[d]
  {
    hide Consistent, ReplyAgrees, Presented, Accepted, RegFile.Reply, RegFile.NextReg;
    GrantsStayRouted(sc, s, hostReq);
    var l, l' := s.ledger, Clock(sc, s, hostReq).ledger;
    assert DeviceAgrees(sc, s, d);
    ReplayExtends(sc, l.grants, l'.grants, |l.grants|);
    AcceptedIsPresented(sc, s, hostReq, d);
    IdleKeeps(sc.regs[d], s.devices[d]);
  }

  lemma DebtStep(sc: SystemConfig, s: System, hostReq: seq<Option<Request>>, d: nat)
    requires Agrees(sc, s) && |hostReq| == sc.bus.hosts && d < |sc.regs|
    ensures var s' := Clock(sc, s, hostReq);
            && |s'.ledger.answers[d]| == CountTo(s.ledger.grants, d)
            && |s'.ledger.answers[d]| + (if s'.devices[d].resp.Some? then 1 else 0) == CountTo(s'.ledger.grants, d)
  {
    hide Consistent, ReplyAgrees, Presented, Accepted, Solicited, Replay, RegFile.Reply, RegFile.NextReg;
    var l, l' := s.ledger, Clock(sc, s, hostReq).ledger;
    assert DeviceAgrees(sc, s, d);
    SolicitedIsPresent(sc, s, hostReq, d);
    AcceptedIsPresented(sc, s, hostReq, d);
    GrantsStayRouted(sc, s, hostReq);
    RankExtends(l.grants, l'.grants, |l.grants|, d);
  }

  lemma OldReplyStep(sc: SystemConfig, s: System, hostReq: seq<Option<Request>>, k: nat)
    requires Agrees(sc, s) && |hostReq| == sc.bus.hosts && k < |s.ledger.grants|
    ensures var s' := Clock(sc, s, hostReq);
            AllRouted(sc, s'.ledger.grants) && k < |s'.ledger.grants| && ReplyAgrees(sc, s', k)
  {
    var l, l' := s.ledger, Clock(sc, s, hostReq).ledger;
    GrantsStayRouted(sc, s, hostReq);
    if l.grants[k].route.Some? {
      var d := l.grants[k].route.value;
      assert ReplyAgrees(sc, s, k);
      DebtStep(sc, s, hostReq, d);
      SolicitedIsPresent(sc, s, hostReq, d);
      RankOrder(l.grants, k, |l.grants|, d);
      RankExtends(l.grants, l'.grants, k, d);
      ReplayExtends(sc, l.grants, l'.grants, k);
      hide Consistent, Presented, Accepted, Solicited, Replay, Rank, RegFile.Reply, RegFile.NextReg;
    }
  }

  lemma NewReplyStep(sc: SystemConfig, s: System, hostReq: seq<Option<Request>>)
    requires Agrees(sc, s) && |hostReq| == sc.bus.hosts
    requires |Clock(sc, s, hostReq).ledger.grants| > |s.ledger.grants|
    ensures var s' := Clock(sc, s, hostReq);
            AllRouted(sc, s'.ledger.grants) && ReplyAgrees(sc, s', |s.ledger.grants|)
  {
    var l, l' := s.ledger, Clock(sc, s, hostReq).ledger;
    GrantsStayRouted(sc, s, hostReq);
    var g := l'.grants[|l.grants|];
    if g.route.Some? {
      var d := g.route.value;
      assert DeviceAgrees(sc, s, d);
      DebtStep(sc, s, hostReq, d);
      AcceptedIsPresented(sc, s, hostReq, d);
      RankExtends(l.grants, l'.grants, |l.grants|, d);
      ReplayExtends(sc, l.grants, l'.grants, |l.grants|);
      hide Consistent, Presented, Accepted, Solicited, Replay, Rank, RegFile.Reply, RegFile.NextReg;
    }
  }

  lemma ClockAgrees(sc: SystemConfig, s: System, hostReq: seq<Option<Request>>)
    requires Agrees(sc, s) && |hostReq| == sc.bus.hosts
    ensures Agrees(sc, Clock(sc, s, hostReq))
  {
    hide Consistent, DeviceAgrees, ReplyAgrees, RegFile.Step;
    var s' := Clock(sc, s, hostReq);
    StepConsistent(sc.bus, s.ledger, s.queue, Pins(sc, s, hostReq));
    GrantsStayRouted(sc, s, hostReq);
    forall d | 0 <= d < |sc.regs|
      ensures DeviceAgrees(sc, s', d)
    {
      DeviceStep(sc, s, hostReq, d);
    }
    forall k | 0 <= k < |s'.ledger.grants|
      ensures ReplyAgrees(sc, s', k)
    {
      ReplyStep(sc, s, hostReq, k);
    }
  }

  lemma DeviceStep(sc: SystemConfig, s: System, hostReq: seq<Option<Request>>, d: nat)
    requires Agrees(sc, s) && |hostReq| == sc.bus.hosts && d < |sc.regs|
    ensures AllRouted(sc, Clock(sc, s, hostReq).ledger.grants) && DeviceAgrees(sc, Clock(sc, s, hostReq), d)
  {
    hide Agrees, Clock;
    RegistersStep(sc, s, hostReq, d);
    DebtStep(sc, s, hostReq, d);
  }

  lemma ReplyStep(sc: SystemConfig, s: System, hostReq: seq<Option<Request>>, k: nat)
    requires Agrees(sc, s) && |hostReq| == sc.bus.hosts && k < |Clock(sc, s, hostReq).ledger.grants|
    ensures AllRouted(sc, Clock(sc, s, hostReq).ledger.grants) && ReplyAgrees(sc, Clock(sc, s, hostReq), k)
  {
    hide ReplyAgrees, DeviceAgrees, Consistent;
    if k < |s.ledger.grants| {
      OldReplyStep(sc, s, hostReq, k);
    } else {
      NewReplyStep(sc, s, hostReq);
    }
  }

  // ----- the theorems -----

  lemma {:induction false} RunAgrees(sc: SystemConfig, trace: seq<seq<Option<Request>>>)
    requires Fits(sc, trace)
    ensures Agrees(sc, Run(sc, trace))
  {
    if trace != [] {
      RunAgrees(sc, trace[..|trace| - 1]);
      ClockAgrees(sc, Run(sc, trace[..|trace| - 1]), trace[|trace| - 1]);
    }
  }

  /**
   Sequential memory: however requests of many hosts and devices overlap in the ring, the k-th
   response is the one obtained by executing the granted requests one after another.
   */
  lemma ActsSequentially(sc: SystemConfig, trace: seq<seq<Option<Request>>>, k: nat)
    requires Fits(sc, trace) && k < |Run(sc, trace).ledger.deliveries|
    ensures var l := Run(sc, trace).ledger;
            && k < |l.grants| && AllRouted(sc, l.grants)
            && l.deliveries[k] == Delivery(l.grants[k].host, SequentialResponse(sc, l.grants, k))
  {
    RunAgrees(sc, trace);
    var s := Run(sc, trace);
    assert Expected(s.ledger, k) == Ready(s.ledger.deliveries[k].host, s.ledger.deliveries[k].response);
    assert ReplyAgrees(sc, s, k);
    hide Replay, Rank;
  }

  // ----- what the sequential memory remembers -----

  /** A full word stored somewhere in the four bytes of register `r` of device `d`. */
  ghost predicate StoresAt(sc: SystemConfig, g: Grant, d: nat, r: nat)
    requires sc.Valid() && d < |sc.regs|
  {
    && g.route == Some(d) && g.request.we && g.request.be.All()
    && RegFile.InCell(sc.regs[d], AtDevice(sc, d, g.request).addr, r)
  }

  /** The last full word stored there among the first `n` grants. */
  ghost function LastStored(sc: SystemConfig, grants: seq<Grant>, n: nat, d: nat, r: nat): Word
    requires sc.Valid() && d < |sc.regs| && r < sc.regs[d].Count() && n <= |grants|
  {
    if n == 0 then sc.regs[d].reset[r]
    else if StoresAt(sc, grants[n - 1], d, r) then grants[n - 1].request.wdata
    else LastStored(sc, grants, n - 1, d, r)
  }

  lemma ExecuteStores(sc: SystemConfig, m: Store, g: Grant, d: nat, r: nat)
    requires sc.Valid() && Shaped(sc, m) && Routed(sc, g)
    requires d < |sc.regs| && r < sc.regs[d].Count() && sc.regs[d].modes[r].RW?
    ensures Execute(sc, m, g)[d][r] == if StoresAt(sc, g, d, r) then g.request.wdata else m[d][r]
  {
    if g.route == Some(d) {
      RegFile.AccessByAddress(sc.regs[d], m[d], AtDevice(sc, d, g.request), r);
      hide RegFile.Writes, RegFile.InCell, Offset, RegFile.Reply;
    }
  }

  lemma {:induction false} RemembersLastWrite(sc: SystemConfig, grants: seq<Grant>, n: nat, d: nat, r: nat)
    requires sc.Valid() && AllRouted(sc, grants) && n <= |grants|
    requires d < |sc.regs| && r < sc.regs[d].Count() && sc.regs[d].modes[r].RW?
    ensures Replay(sc, grants, n)[d][r] == LastStored(sc, grants, n, d, r)
  {
    hide Execute, StoresAt;
    if n > 0 {
      RemembersLastWrite(sc, grants, n - 1, d, r);
      ExecuteStores(sc, Replay(sc, grants, n - 1), grants[n - 1], d, r);
    }
  }

  /** Behind the last register, a write with a byte disabled, or an unmapped address. */
  ghost predicate Rejected(sc: SystemConfig, g: Grant)
    requires sc.Valid() && Routed(sc, g)
  {
    g.route.Some? ==>
      var rc, r := sc.regs[g.route.value], AtDevice(sc, g.route.value, g.request);
      RegFile.Beyond(rc, r.addr) || (r.we && !r.be.All())
  }

  /** Nothing changes then, and the host gets an error exactly then. */
  lemma RefusedChangesNothing(sc: SystemConfig, m: Store, g: Grant)
    requires sc.Valid() && Shaped(sc, m) && Routed(sc, g)
    ensures Rejected(sc, g) ==> Execute(sc, m, g) == m
    ensures g.route.Some? ==>
              (RegFile.Reply(sc.regs[g.route.value], m[g.route.value], AtDevice(sc, g.route.value, g.request)).err
               <==> Rejected(sc, g))
  {
    if g.route.Some? {
      var d := g.route.value;
      var rc, r := sc.regs[d], AtDevice(sc, d, g.request);
      RegFile.AccessByAddress(rc, m[d], r, 0);
      if Rejected(sc, g) {
        RejectedWritesNothing(rc, m[d], r);
        hide RegFile.Writes, RegFile.Reply;
        assert Execute(sc, m, g)[d] == m[d];
      }
    }
  }

  lemma RejectedWritesNothing(rc: RegFile.RegConfig, q: seq<Word>, r: Request)
    requires rc.Valid() && |q| == rc.Count() && (RegFile.Beyond(rc, r.addr) || (r.we && !r.be.All()))
    ensures forall i: nat :: i < rc.Count() ==> !RegFile.Writes(rc, Some(r), i)
  {
    forall i: nat | i < rc.Count()
      ensures !RegFile.Writes(rc, Some(r), i)
    {
      RegFile.AccessByAddress(rc, q, r, i);
      hide RegFile.Writes, RegFile.Reply;
    }
  }

  /**
   Every response of device `d` to a host: an error exactly behind the last register or for a partial write, then
   and after every write with zero data; and a read anywhere in the four bytes of a read-write register returns
   the enabled bytes of the last full word stored anywhere in those four bytes before.
   */
  lemma ReadsLastWrite(sc: SystemConfig, trace: seq<seq<Option<Request>>>, k: nat, d: nat)
    requires Fits(sc, trace) && k < |Run(sc, trace).ledger.deliveries| <= |Run(sc, trace).ledger.grants|
    requires d < |sc.regs| && Run(sc, trace).ledger.grants[k].route == Some(d)
    ensures var l := Run(sc, trace).ledger;
            var g, rc, addr := l.grants[k], sc.regs[d], AtDevice(sc, d, l.grants[k].request).addr;
            && l.deliveries[k].host == g.host
            && (l.deliveries[k].response.err <==> RegFile.Beyond(rc, addr) || (g.request.we && !g.request.be.All()))
            && (l.deliveries[k].response.err || g.request.we ==> l.deliveries[k].response.rdata == ZERO)
            && forall r: nat :: r < rc.Count() && RegFile.InCell(rc, addr, r) && rc.modes[r].RW? && !g.request.we ==>
                 l.deliveries[k].response.rdata
                 == RegFile.ByteMasked(LastStored(sc, l.grants, k, d, r), g.request.be)
  {
    ActsSequentially(sc, trace, k);
    var l := Run(sc, trace).ledger;
    var g, rc, at := l.grants[k], sc.regs[d], AtDevice(sc, d, l.grants[k].request);
    var q := Replay(sc, l.grants, k)[d];
    hide Run, LastStored, Replay, RegFile.ByteMasked, RegFile.InCell, RegFile.Beyond, RegFile.Reply, Offset;
    RegFile.AccessByAddress(rc, q, at, 0);
    forall r: nat | r < rc.Count() && RegFile.InCell(rc, at.addr, r) && rc.modes[r].RW? && !g.request.we
      ensures l.deliveries[k].response.rdata == RegFile.ByteMasked(LastStored(sc, l.grants, k, d, r), g.request.be)
    {
      RegFile.AccessByAddress(rc, q, at, r);
      CellIsInside(rc, at.addr, r);
      RemembersLastWrite(sc, l.grants, k, d, r);
    }
  }

  lemma CellIsInside(rc: RegFile.RegConfig, addr: bv32, r: nat)
    requires r < rc.Count() && RegFile.InCell(rc, addr, r)
    ensures !RegFile.Beyond(rc, addr)
  {
  }
}
