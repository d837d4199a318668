/** When a request is granted, over runs: from the request lines, the address windows and the history alone. */
module BusGrants {
  import opened Obi
  import opened BusSpec
  import opened BusHistory
  import opened BusRuns

  /** Host `h` requests and no lower-numbered host does. */
  predicate Wins(inp: Inputs, h: nat) {
    h < |inp.hostReq| && inp.hostReq[h].Some? && forall j :: 0 <= j < h ==> inp.hostReq[j].None?
  }

  /** Device `d` is the highest-numbered one whose window holds the address. */
  predicate Owns(cfg: Config, d: nat, addr: bv32)
    requires cfg.Valid()
  {
    d < cfg.Devices() && Matches(cfg, d, addr) && forall j: nat :: d < j < cfg.Devices() ==> !Matches(cfg, j, addr)
  }

  predicate Unmapped(cfg: Config, addr: bv32)
    requires cfg.Valid()
  {
    forall j: nat :: j < cfg.Devices() ==> !Matches(cfg, j, addr)
  }

  /** The request belongs to no device, or to one that takes it now. */
  predicate Open(cfg: Config, inp: Inputs, route: Option<nat>, addr: bv32)
    requires cfg.Valid() && inp.Fits(cfg)
  {
    match route
    case None => Unmapped(cfg, addr)
    case Some(d) => Owns(cfg, d, addr) && inp.deviceGnt[d]
  }

  /** The ring holds less than it can: granted, not yet delivered. */
  predicate HasRoom(cfg: Config, l: Ledger) {
    |l.grants| - |l.deliveries| < cfg.capacity
  }

  /** Everything that has to be so for host `h` to be granted with that route in this cycle. */
  ghost predicate Admits(cfg: Config, l: Ledger, inp: Inputs, h: nat, route: Option<nat>)
    requires cfg.Valid() && inp.Fits(cfg)
  {
    Wins(inp, h) && HasRoom(cfg, l) && Open(cfg, inp, route, inp.hostReq[h].value.addr)
  }

  lemma StepGrants(cfg: Config, l: Ledger, q: seq<Slot>, inp: Inputs, h: nat, route: Option<nat>)
    requires Consistent(cfg, l, q) && inp.Fits(cfg)
    ensures var g := Accepted(cfg, q, inp);
            && (Admits(cfg, l, inp, h, route) <==> g.Some? && g.value.host == h && g.value.route == route)
            && (g.Some? ==> g.value.host < cfg.hosts && inp.hostReq[g.value.host] == Some(g.value.request))
  {
    hide Matches, Expected, Rank;
  }

  /** The transaction, if any, that the history gains in cycle `n`. */
  ghost predicate Gains(cfg: Config, trace: seq<Inputs>, n: nat, g: Grant)
    requires Fits(cfg, trace) && n < |trace|
  {
    At(cfg, trace, n + 1).ledger.grants == At(cfg, trace, n).ledger.grants + [g]
  }

  /**
   In every cycle of every run: host `h` is granted, with its own request and for this device, if and only if it
   is the lowest requesting host, the ring has room, and either no device has the address or the highest-numbered
   one that has it takes the request. Otherwise nothing is granted.
   */
  lemma GrantedExactly(cfg: Config, trace: seq<Inputs>, n: nat, h: nat, route: Option<nat>)
    requires Fits(cfg, trace) && n < |trace|
    ensures Admits(cfg, At(cfg, trace, n).ledger, trace[n], h, route)
            <==> && h < cfg.hosts && trace[n].hostReq[h].Some?
                 && Gains(cfg, trace, n, Grant(h, route, trace[n].hostReq[h].value))
    ensures At(cfg, trace, n + 1).ledger.grants == At(cfg, trace, n).ledger.grants
            || exists g :: Gains(cfg, trace, n, g) && Admits(cfg, At(cfg, trace, n).ledger, trace[n], g.host, g.route)
  {
    hide Run, Consistent, Admits, Accepted, Gains;
    RunConsistent(cfg, trace[..n]);
    var s := At(cfg, trace, n);
    StepGrants(cfg, s.ledger, s.queue, trace[n], h, route);
    var g := Accepted(cfg, s.queue, trace[n]);
    GainsAccepted(cfg, trace, n);
    if g.Some? {
      StepGrants(cfg, s.ledger, s.queue, trace[n], g.value.host, g.value.route);
    }
  }

  lemma GainsAccepted(cfg: Config, trace: seq<Inputs>, n: nat)
    requires Fits(cfg, trace) && n < |trace|
    ensures var g := Accepted(cfg, At(cfg, trace, n).queue, trace[n]);
            && (g.None? ==> At(cfg, trace, n + 1).ledger.grants == At(cfg, trace, n).ledger.grants)
            && forall g' :: Gains(cfg, trace, n, g') <==> g == Some(g')
  {
    hide Run, Accepted, Step;
    AtNext(cfg, trace, n);
    var l := At(cfg, trace, n).ledger;
    forall g'
      ensures Gains(cfg, trace, n, g') <==> Accepted(cfg, At(cfg, trace, n).queue, trace[n]) == Some(g')
    {
      assert (l.grants + [g'])[|l.grants|] == g';
      assert |l.grants + [g']| > |l.grants|;
    }
  }

  /** The grant pin says so in the same cycle. */
  lemma GrantPin(cfg: Config, trace: seq<Inputs>, n: nat, h: nat, gnt: seq<bool>, deviceReq: seq<Option<Request>>)
    requires Fits(cfg, trace) && n < |trace| && h < cfg.hosts
    requires DrivesRequests(cfg, At(cfg, trace, n).queue, trace[n], gnt, deviceReq)
    ensures gnt[h] <==> exists route :: Admits(cfg, At(cfg, trace, n).ledger, trace[n], h, route)
  {
    hide Run, Admits, Accepted, Consistent;
    RunConsistent(cfg, trace[..n]);
    var s := At(cfg, trace, n);
    var g := Accepted(cfg, s.queue, trace[n]);
    forall route: Option<nat>
      ensures Admits(cfg, s.ledger, trace[n], h, route) <==> g.Some? && g.value.host == h && g.value.route == route
    {
      StepGrants(cfg, s.ledger, s.queue, trace[n], h, route);
    }
    if gnt[h] {
      assert Admits(cfg, s.ledger, trace[n], h, g.value.route);
    }
  }

  /** The owner of the winner's address sees its request, less the base, while the ring has room; no one else does. */
  lemma RequestPin(cfg: Config, trace: seq<Inputs>, n: nat, d: nat, gnt: seq<bool>, deviceReq: seq<Option<Request>>)
    requires Fits(cfg, trace) && n < |trace| && d < cfg.Devices()
    requires DrivesRequests(cfg, At(cfg, trace, n).queue, trace[n], gnt, deviceReq)
    ensures var l, inp := At(cfg, trace, n).ledger, trace[n];
            && (forall h: nat :: Shows(cfg, l, inp, h, d) ==>
                  var r := inp.hostReq[h].value; deviceReq[d] == Some(r.(addr := r.addr & !cfg.mask[d])))
            && (deviceReq[d].Some? ==> exists h: nat :: Shows(cfg, l, inp, h, d))
  {
    hide Run, Shows, Presented, Consistent;
    RunConsistent(cfg, trace[..n]);
    var s := At(cfg, trace, n);
    PresentsWinner(cfg, s.ledger, s.queue, trace[n], d);
  }

  ghost predicate Shows(cfg: Config, l: Ledger, inp: Inputs, h: nat, d: nat)
    requires cfg.Valid() && inp.Fits(cfg)
  {
    Wins(inp, h) && HasRoom(cfg, l) && Owns(cfg, d, inp.hostReq[h].value.addr)
  }

  lemma PresentsWinner(cfg: Config, l: Ledger, q: seq<Slot>, inp: Inputs, d: nat)
    requires Consistent(cfg, l, q) && inp.Fits(cfg) && d < cfg.Devices()
    ensures forall h: nat :: Shows(cfg, l, inp, h, d) ==>
              var r := inp.hostReq[h].value; Presented(cfg, q, inp, d) == Some(r.(addr := r.addr & !cfg.mask[d]))
    ensures Presented(cfg, q, inp, d).Some? ==> exists h: nat :: Shows(cfg, l, inp, h, d)
  {
    hide Matches, Expected, Rank;
    var w := WinnerFrom(inp.hostReq, 0);
    assert Presented(cfg, q, inp, d).Some? ==> Shows(cfg, l, inp, w.value, d);
    assert forall h: nat :: Wins(inp, h) ==> w == Some(h);
  }

  // ----- the ring always gets room -----

  /** If every device answers within `latency` cycles, a ring that is full in cycle `n` has room soon after. */
  lemma RoomComes(cfg: Config, trace: seq<Inputs>, latency: nat, n: nat) returns (m: nat)
    requires Fits(cfg, trace) && Prompt(cfg, trace, latency) && n + latency + 1 < |trace|
    ensures n <= m <= n + latency + 1 && HasRoom(cfg, At(cfg, trace, m).ledger)
    ensures forall j :: n <= j < m ==> !HasRoom(cfg, At(cfg, trace, j).ledger)
  {
    hide Run, Record, Settled, Prompt, Extends;
    m := n;
    while !HasRoom(cfg, At(cfg, trace, m).ledger)
      invariant n <= m <= n + latency + 1
      invariant forall j :: n <= j < m ==> !HasRoom(cfg, At(cfg, trace, j).ledger)
      decreases n + latency + 1 - m
    {
      if m == n + latency + 1 {
        HeadLeavesInTime(cfg, trace, latency, n);
        NothingEnters(cfg, trace, n, m);
        FullRing(cfg, trace, n);
        assert false;
      }
      m := m + 1;
    }
  }

  lemma FullRing(cfg: Config, trace: seq<Inputs>, n: nat)
    requires Fits(cfg, trace) && n <= |trace|
    ensures |At(cfg, trace, n).ledger.grants| <= |At(cfg, trace, n).ledger.deliveries| + cfg.capacity
  {
    RunConsistent(cfg, trace[..n]);
  }

  /** A full ring accepts nothing. */
  lemma {:induction false} NothingEnters(cfg: Config, trace: seq<Inputs>, n: nat, m: nat)
    requires Fits(cfg, trace) && n <= m <= |trace|
    requires forall j :: n <= j < m ==> !HasRoom(cfg, At(cfg, trace, j).ledger)
    ensures At(cfg, trace, m).ledger.grants == At(cfg, trace, n).ledger.grants
    decreases m
  {
    hide Run, HasRoom, Wins, Open, At;
    if n < m {
      NothingEnters(cfg, trace, n, m - 1);
      GrantedExactly(cfg, trace, m - 1, 0, None);
    }
  }

  lemma HeadLeavesInTime(cfg: Config, trace: seq<Inputs>, latency: nat, n: nat)
    requires Fits(cfg, trace) && Prompt(cfg, trace, latency) && n + latency + 1 < |trace|
    requires !HasRoom(cfg, At(cfg, trace, n).ledger)
    ensures |At(cfg, trace, n + latency + 1).ledger.deliveries| > |At(cfg, trace, n).ledger.deliveries|
  {
    hide Run, Record, Step, Settled;
    var head, t := |At(cfg, trace, n).ledger.deliveries|, n + latency;
    var c := GrantCycle(cfg, trace, n, head);
    assert Settled(At(cfg, trace, c + latency + 1).ledger, head);
    HistoryGrows(cfg, trace, c + latency + 1, t);
    HistoryGrows(cfg, trace, n, t);
    HistoryGrows(cfg, trace, t, t + 1);
    AtNext(cfg, trace, t);
    RunConsistent(cfg, trace[..t]);
    if |At(cfg, trace, t).ledger.deliveries| == head {
      HeadLeaves(cfg, At(cfg, trace, t).ledger, At(cfg, trace, t).queue, trace[t]);
    }
  }

  // ----- an address nobody has -----

  /** Host `h` wins with `request` from cycle `n` on for as long as the ring has had no room. */
  ghost predicate Holds(cfg: Config, trace: seq<Inputs>, n: nat, last: nat, h: nat, request: Request)
    requires Fits(cfg, trace) && last < |trace|
  {
    forall m :: n <= m <= last && (forall j :: n <= j < m ==> !HasRoom(cfg, At(cfg, trace, j).ledger)) ==>
      Wins(trace[m], h) && trace[m].hostReq[h] == Some(request)
  }

  /**
   A request for an address that no device has is never left hanging: held by the winning host, it is granted in
   the first cycle with room, no more than `latency + 1` cycles later, and answered with an error, to that host,
   no more than `latency + capacity` cycles after that.
   */
  lemma UnmappedIsAnswered(cfg: Config, trace: seq<Inputs>, latency: nat, n: nat, h: nat, request: Request)
    returns (m: nat)
    requires Fits(cfg, trace) && Prompt(cfg, trace, latency) && n + 2 * latency + cfg.capacity + 1 < |trace|
    requires Unmapped(cfg, request.addr) && Holds(cfg, trace, n, n + latency + 1, h, request)
    ensures n <= m <= n + latency + 1 && Gains(cfg, trace, m, Grant(h, None, request))
    ensures var k, late := |At(cfg, trace, m).ledger.grants|, At(cfg, trace, m + latency + cfg.capacity + 1).ledger;
            k < |late.deliveries| && late.deliveries[k] == Delivery(h, Response(ZERO, true))
  {
    hide Run, Record, Settled, Prompt, HasRoom, Wins, Extends;
    m := RoomComes(cfg, trace, latency, n);
    GrantedExactly(cfg, trace, m, h, None);
    var k, late := |At(cfg, trace, m).ledger.grants|, m + latency + cfg.capacity + 1;
    BoundedResponse(cfg, trace, latency, m, k);
    DeliveriesFollowGrants(cfg, trace[..late], k);
    HistoryGrows(cfg, trace, m + 1, late);
    StillThere(cfg, trace, m + 1, late, k);
  }

  lemma StillThere(cfg: Config, trace: seq<Inputs>, m: nat, n: nat, k: nat)
    requires Fits(cfg, trace) && m <= n <= |trace| && k < |At(cfg, trace, m).ledger.grants|
    ensures k < |At(cfg, trace, n).ledger.grants|
    ensures At(cfg, trace, n).ledger.grants[k] == At(cfg, trace, m).ledger.grants[k]
  {
    HistoryGrows(cfg, trace, m, n);
    hide Run, Settled;
  }
}
