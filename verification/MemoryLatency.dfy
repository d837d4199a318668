/** Register files answer in the next clock, so the composed system answers every host in bounded time. */
module MemoryLatency {
  import opened Obi
  import opened BusSpec
  import opened BusHistory
  import opened Memory
  import BusRuns

  /** What the interconnect's pins were in each cycle of a run of the composed system. */
  ghost function PinsAlong(sc: SystemConfig, trace: seq<seq<Option<Request>>>): (pins: seq<Inputs>)
    requires Fits(sc, trace)
    ensures |pins| == |trace|
  {
    seq(|trace|, n requires 0 <= n < |trace| => Pins(sc, Run(sc, trace[..n]), trace[n]))
  }

  lemma PinsFit(sc: SystemConfig, trace: seq<seq<Option<Request>>>)
    requires Fits(sc, trace)
    ensures BusRuns.Fits(sc.bus, PinsAlong(sc, trace))
  {
  }

  lemma RunNext(sc: SystemConfig, trace: seq<seq<Option<Request>>>, n: nat)
    requires Fits(sc, trace) && n < |trace|
    ensures Run(sc, trace[..n + 1]) == Clock(sc, Run(sc, trace[..n]), trace[n])
  {
    hide Clock;
    assert trace[..n + 1][..n] == trace[..n];
  }

  /** Seen from the bus, a run of the composed system is a run of the interconnect on those pins. */
  lemma {:induction false} BusView(sc: SystemConfig, trace: seq<seq<Option<Request>>>, n: nat)
    requires Fits(sc, trace) && n <= |trace| && BusRuns.Fits(sc.bus, PinsAlong(sc, trace))
    ensures BusRuns.At(sc.bus, PinsAlong(sc, trace), n)
            == BusRuns.State(Run(sc, trace[..n]).ledger, Run(sc, trace[..n]).queue)
  {
    hide Record, Step;
    var pins := PinsAlong(sc, trace);
    if n == 0 {
      BusRuns.AtReset(sc.bus, pins);
    } else {
      BusView(sc, trace, n - 1);
      BusRuns.AtNext(sc.bus, pins, n - 1);
      RunNext(sc, trace, n - 1);
      hide Run, BusRuns.At;
    }
  }

  /** What was granted before a clock has been answered after it. */
  lemma AnsweredNext(sc: SystemConfig, s: System, hostReq: seq<Option<Request>>, k: nat)
    requires Agrees(sc, s) && |hostReq| == sc.bus.hosts && k < |s.ledger.grants|
    ensures BusRuns.Settled(Clock(sc, s, hostReq).ledger, k)
  {
    var l, l' := s.ledger, Clock(sc, s, hostReq).ledger;
    GrantsStayRouted(sc, s, hostReq);
    if l.grants[k].route.Some? {
      var d := l.grants[k].route.value;
      DebtStep(sc, s, hostReq, d);
      RankOrder(l.grants, k, |l.grants|, d);
      RankExtends(l.grants, l'.grants, k, d);
    }
    hide Clock, Agrees, Rank;
  }

  lemma AnswersNextClock(sc: SystemConfig, trace: seq<seq<Option<Request>>>)
    requires Fits(sc, trace)
    ensures BusRuns.Fits(sc.bus, PinsAlong(sc, trace)) && BusRuns.Prompt(sc.bus, PinsAlong(sc, trace), 1)
  {
    hide Run, Clock, Agrees, PinsAlong, BusRuns.At, BusRuns.Settled;
    PinsFit(sc, trace);
    var pins := PinsAlong(sc, trace);
    forall t: nat, k: nat | BusRuns.GrantedIn(sc.bus, pins, t, k) && t + 1 < |pins|
      ensures BusRuns.Settled(BusRuns.At(sc.bus, pins, t + 2).ledger, k)
    {
      BusView(sc, trace, t + 1);
      BusView(sc, trace, t + 2);
      RunNext(sc, trace, t + 1);
      RunAgrees(sc, trace[..t + 1]);
      AnsweredNext(sc, Run(sc, trace[..t + 1]), trace[t + 1], k);
    }
  }

  /**
   In every run of the composed system a request granted in cycle `t` has been answered to its host by the end
   of cycle `t + 1 + capacity`, however many hosts and devices are busy.
   */
  lemma AnsweredInTime(sc: SystemConfig, trace: seq<seq<Option<Request>>>, t: nat, k: nat)
    requires Fits(sc, trace) && t + 1 + sc.bus.capacity < |trace|
    requires |Run(sc, trace[..t]).ledger.grants| <= k < |Run(sc, trace[..t + 1]).ledger.grants|
    ensures k < |Run(sc, trace[..t + sc.bus.capacity + 2]).ledger.deliveries|
  {
    hide Run, PinsAlong, BusRuns.At, BusRuns.Prompt;
    AnswersNextClock(sc, trace);
    var pins := PinsAlong(sc, trace);
    BusView(sc, trace, t);
    BusView(sc, trace, t + 1);
    BusView(sc, trace, t + sc.bus.capacity + 2);
    BusRuns.BoundedResponse(sc.bus, pins, 1, t, k);
  }
}
