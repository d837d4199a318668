/** The interconnect from reset, over every sequence of input pins. */
module BusRuns {
  import opened Obi
  import opened BusSpec
  import opened BusHistory

  datatype State = State(ledger: Ledger, queue: seq<Slot>)

  ghost predicate Fits(cfg: Config, trace: seq<Inputs>) {
    cfg.Valid() && forall i :: 0 <= i < |trace| ==> trace[i].Fits(cfg)
  }

  function Reset(cfg: Config): State
    requires cfg.Valid()
  {
    State(Ledger([], seq(cfg.Devices(), _ => []), []), [])
  }

  /** The state after the cycles of `trace`. */
  ghost function Run(cfg: Config, trace: seq<Inputs>): (s: State)
    requires Fits(cfg, trace)
    ensures |s.ledger.answers| == cfg.Devices()
  {
    if trace == [] then Reset(cfg)
    else
      var s, inp := Run(cfg, trace[..|trace| - 1]), trace[|trace| - 1];
      State(Record(cfg, s.ledger, s.queue, inp), Step(cfg, s.queue, inp))
  }

  /** Every reachable queue is the one its history prescribes. */
  lemma {:induction false} RunConsistent(cfg: Config, trace: seq<Inputs>)
    requires Fits(cfg, trace)
    ensures Consistent(cfg, Run(cfg, trace).ledger, Run(cfg, trace).queue)
  {
    if trace != [] {
      var before := trace[..|trace| - 1];
      RunConsistent(cfg, before);
      StepConsistent(cfg, Run(cfg, before).ledger, Run(cfg, before).queue, trace[|trace| - 1]);
    }
  }

  /** The state at the start of cycle `n`. */
  ghost function At(cfg: Config, trace: seq<Inputs>, n: nat): State
    requires Fits(cfg, trace) && n <= |trace|
  {
    Run(cfg, trace[..n])
  }

  lemma AtReset(cfg: Config, trace: seq<Inputs>)
    requires Fits(cfg, trace)
    ensures At(cfg, trace, 0) == Reset(cfg)
  {
  }

  lemma AtNext(cfg: Config, trace: seq<Inputs>, n: nat)
    requires Fits(cfg, trace) && n < |trace|
    ensures At(cfg, trace, n + 1).queue == Step(cfg, At(cfg, trace, n).queue, trace[n])
    ensures At(cfg, trace, n + 1).ledger == Record(cfg, At(cfg, trace, n).ledger, At(cfg, trace, n).queue, trace[n])
  {
    assert trace[..n + 1][..n] == trace[..n];
  }

  /**
   Hosts are answered once per grant, in grant order, at the host that asked; the answer to the
   j-th grant of device `d` is the j-th answer of `d`, however devices interleave, with zero data on an error.
   */
  lemma DeliveriesFollowGrants(cfg: Config, trace: seq<Inputs>, k: nat)
    requires Fits(cfg, trace) && k < |Run(cfg, trace).ledger.deliveries|
    ensures var l := Run(cfg, trace).ledger;
            && |l.deliveries| <= |l.grants|
            && l.deliveries[k].host == l.grants[k].host
            && (l.grants[k].route.None? ==> l.deliveries[k].response == Response(ZERO, true))
            && (forall d :: l.grants[k].route == Some(d) ==>
                 && d < |l.answers|
                 && Rank(l.grants, k, d) < |l.answers[d]|
                 && var answer := l.answers[d][Rank(l.grants, k, d)];
                    && l.deliveries[k].response.err == answer.err
                    && l.deliveries[k].response.rdata == if answer.err then ZERO else answer.rdata)
  {
    RunConsistent(cfg, trace);
    var l := Run(cfg, trace).ledger;
    assert Expected(l, k) == Ready(l.deliveries[k].host, l.deliveries[k].response);
  }

  // ----- devices that keep the protocol -----

  /** Everything device `d` presented in the first `n` cycles. */
  ghost function Emitted(cfg: Config, trace: seq<Inputs>, n: nat, d: nat): seq<Response>
    requires Fits(cfg, trace) && n <= |trace| && d < cfg.Devices()
  {
    if n == 0 then []
    else
      Emitted(cfg, trace, n - 1, d)
      + match trace[n - 1].deviceResp[d] case None => [] case Some(r) => [r]
  }

  /** Device `d` answers only requests granted in earlier cycles and not yet answered. */
  ghost predicate KeepsProtocol(cfg: Config, trace: seq<Inputs>, d: nat)
    requires Fits(cfg, trace) && d < cfg.Devices()
  {
    forall n :: 0 <= n < |trace| && trace[n].deviceResp[d].Some? ==> Solicited(At(cfg, trace, n).ledger, trace[n], d)
  }

  /** Then no answer is lost or invented: what the bus captured is what the device presented. */
  lemma {:induction false} NothingLost(cfg: Config, trace: seq<Inputs>, n: nat, d: nat)
    requires Fits(cfg, trace) && d < cfg.Devices() && KeepsProtocol(cfg, trace, d) && n <= |trace|
    ensures At(cfg, trace, n).ledger.answers[d] == Emitted(cfg, trace, n, d)
  {
    hide Run, Record, Step, Solicited;
    if n == 0 {
      AtReset(cfg, trace);
    } else {
      NothingLost(cfg, trace, n - 1, d);
      AtNext(cfg, trace, n - 1);
      var s := At(cfg, trace, n - 1);
      AnswersNext(cfg, s.ledger, s.queue, trace[n - 1], d);
    }
  }

  lemma AnswersNext(cfg: Config, l: Ledger, q: seq<Slot>, inp: Inputs, d: nat)
    requires cfg.Valid() && inp.Fits(cfg) && |l.answers| == cfg.Devices() && d < cfg.Devices()
    requires inp.deviceResp[d].Some? ==> Solicited(l, inp, d)
    ensures Record(cfg, l, q, inp).answers[d]
            == l.answers[d] + match inp.deviceResp[d] case None => [] case Some(r) => [r]
  {
  }

  // ----- bounded response -----

  /** Transaction `k` is granted in cycle `t`. */
  ghost predicate GrantedIn(cfg: Config, trace: seq<Inputs>, t: nat, k: nat)
    requires Fits(cfg, trace)
  {
    t < |trace| && |At(cfg, trace, t).ledger.grants| <= k < |At(cfg, trace, t + 1).ledger.grants|
  }

  /** The device has answered transaction `k` (unmapped ones need no device). */
  ghost predicate Settled(l: Ledger, k: nat) {
    && k < |l.grants|
    && (l.grants[k].route.Some? ==> l.grants[k].route.value < |l.answers|)
    && Expected(l, k).Ready?
  }

  /** Every device answers within `latency` cycles of each grant. */
  ghost predicate Prompt(cfg: Config, trace: seq<Inputs>, latency: nat)
    requires Fits(cfg, trace)
  {
    forall t: nat, k: nat :: GrantedIn(cfg, trace, t, k) && t + latency < |trace| ==>
      Settled(At(cfg, trace, t + latency + 1).ledger, k)
  }

  /** Histories only grow, and a settled transaction stays settled. */
  ghost predicate Extends(l: Ledger, l': Ledger) {
    && l.grants <= l'.grants
    && |l.deliveries| <= |l'.deliveries|
    && forall k: nat :: Settled(l, k) ==> Settled(l', k)
  }

  lemma RecordExtends(cfg: Config, l: Ledger, q: seq<Slot>, inp: Inputs)
    requires Consistent(cfg, l, q) && inp.Fits(cfg)
    ensures Extends(l, Record(cfg, l, q, inp))
  {
    var l' := Record(cfg, l, q, inp);
    forall k: nat | Settled(l, k)
      ensures Settled(l', k)
    {
      ExpectedExtends(l'.(grants := l.grants), l', k);
    }
  }

  lemma {:induction false} HistoryGrows(cfg: Config, trace: seq<Inputs>, m: nat, n: nat)
    requires Fits(cfg, trace) && m <= n <= |trace|
    ensures Extends(At(cfg, trace, m).ledger, At(cfg, trace, n).ledger)
    decreases n
  {
    hide Settled, Record, Step, Consistent;
    if m < n {
      HistoryGrows(cfg, trace, m, n - 1);
      AtNext(cfg, trace, n - 1);
      RunConsistent(cfg, trace[..n - 1]);
      RecordExtends(cfg, At(cfg, trace, n - 1).ledger, At(cfg, trace, n - 1).queue, trace[n - 1]);
    }
  }

  lemma {:induction false} GrantCycle(cfg: Config, trace: seq<Inputs>, t: nat, k: nat) returns (c: nat)
    requires Fits(cfg, trace) && t <= |trace| && k < |At(cfg, trace, t).ledger.grants|
    ensures c < t && GrantedIn(cfg, trace, c, k)
    decreases t
  {
    if k < |At(cfg, trace, t - 1).ledger.grants| {
      c := GrantCycle(cfg, trace, t - 1, k);
    } else {
      c := t - 1;
    }
  }

  ghost predicate SettledUpTo(l: Ledger, k: nat) {
    forall j: nat :: j <= k ==> Settled(l, j)
  }

  lemma HeadLeaves(cfg: Config, l: Ledger, q: seq<Slot>, inp: Inputs)
    requires Consistent(cfg, l, q) && inp.Fits(cfg) && Settled(l, |l.deliveries|)
    ensures |Record(cfg, l, q, inp).deliveries| == |l.deliveries| + 1
  {
    assert q[0] == Expected(l, |l.deliveries|);
  }

  /** Once everything up to `k` is settled, one transaction leaves the queue in every cycle. */
  lemma {:induction false} Drains(cfg: Config, trace: seq<Inputs>, s: nat, i: nat, k: nat)
    requires Fits(cfg, trace) && s + i <= |trace|
    requires SettledUpTo(At(cfg, trace, s).ledger, k)
    ensures |At(cfg, trace, s + i).ledger.deliveries| > k
            || |At(cfg, trace, s + i).ledger.deliveries| >= |At(cfg, trace, s).ledger.deliveries| + i
    decreases i
  {
    hide Settled, Record, Step, Consistent;
    if i > 0 {
      Drains(cfg, trace, s, i - 1, k);
      AtNext(cfg, trace, s + i - 1);
      HistoryGrows(cfg, trace, s, s + i - 1);
      var now := At(cfg, trace, s + i - 1);
      if |now.ledger.deliveries| <= k {
        RunConsistent(cfg, trace[..s + i - 1]);
        HeadLeaves(cfg, now.ledger, now.queue, trace[s + i - 1]);
      }
      assert Extends(now.ledger, At(cfg, trace, s + i).ledger) by {
        HistoryGrows(cfg, trace, s + i - 1, s + i);
      }
    }
  }

  lemma OneSettled(cfg: Config, trace: seq<Inputs>, latency: nat, t: nat, j: nat)
    requires Fits(cfg, trace) && Prompt(cfg, trace, latency)
    requires t + latency < |trace| && j < |At(cfg, trace, t + 1).ledger.grants|
    ensures Settled(At(cfg, trace, t + latency + 1).ledger, j)
  {
    hide Settled;
    var c := GrantCycle(cfg, trace, t + 1, j);
    assert Settled(At(cfg, trace, c + latency + 1).ledger, j);
    HistoryGrows(cfg, trace, c + latency + 1, t + latency + 1);
  }

  lemma AllSettled(cfg: Config, trace: seq<Inputs>, latency: nat, t: nat, k: nat)
    requires Fits(cfg, trace) && Prompt(cfg, trace, latency) && GrantedIn(cfg, trace, t, k)
    requires t + latency < |trace|
    ensures SettledUpTo(At(cfg, trace, t + latency + 1).ledger, k)
  {
    hide Settled;
    var s := t + latency + 1;
    var l := At(cfg, trace, s).ledger;
    forall j: nat | j <= k
      ensures Settled(l, j)
    {
      OneSettled(cfg, trace, latency, t, j);
    }
  }

  /**
   If every device answers within `latency` cycles, a request granted in cycle `t` is answered to
   its host no later than cycle `t + latency + capacity`, despite waiting behind older ones.
   */
  lemma BoundedResponse(cfg: Config, trace: seq<Inputs>, latency: nat, t: nat, k: nat)
    requires Fits(cfg, trace) && Prompt(cfg, trace, latency) && GrantedIn(cfg, trace, t, k)
    requires t + latency + cfg.capacity < |trace|
    ensures k < |At(cfg, trace, t + latency + cfg.capacity + 1).ledger.deliveries|
  {
    hide Settled, Record, Step;
    var s := t + latency + 1;
    AllSettled(cfg, trace, latency, t, k);
    HistoryGrows(cfg, trace, t + 1, s);
    var granted := At(cfg, trace, t + 1);
    assert |granted.ledger.grants| <= |granted.ledger.deliveries| + cfg.capacity by {
      RunConsistent(cfg, trace[..t + 1]);
    }
    Drains(cfg, trace, s, cfg.capacity, k);
  }
}
