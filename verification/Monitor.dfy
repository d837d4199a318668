/**
 The simulation's transaction monitor: it queues every grant it sees at a host and pairs each
 response with the oldest queued one, aborting the simulation if none is queued.
 */
module Monitor {
  import opened Obi
  import opened BusSpec
  import opened BusHistory
  import opened BusRuns

  const SEQUENCE_MODULUS := 0x1_0000_0000_0000_0000
  const SHOWN: nat := 20

  datatype Transaction = Transaction(sequence: nat, request: Request, response: Response)

  datatype Log = Log(pending: seq<Transaction>, transactions: seq<Transaction>, nextSequence: nat)

  const EMPTY := Log([], [], 0)
  const NO_RESPONSE := Response(ZERO, false)

  /** The monitor's sequence numbers are 64 bits wide. */
  function Sequence(n: nat): nat {
    n % SEQUENCE_MODULUS
  }

  function OnGrant(log: Log, request: Request): Log {
    log.(pending := log.pending + [Transaction(log.nextSequence, request, NO_RESPONSE)],
         nextSequence := Sequence(log.nextSequence + 1))
  }

  /** `None` is the abort: a response arrived and nothing was pending. */
  function OnResponse(log: Log, response: Response): Option<Log> {
    if log.pending == [] then None
    else
      var done := log.transactions + [log.pending[0].(response := response)];
      Some(log.(pending := log.pending[1..],
                transactions := if |done| > SHOWN then done[1..] else done))
  }

  class SimMonitor {
    var pending: seq<Transaction>
    var transactions: seq<Transaction>
    var nextSequence: nat

    constructor ()
      ensures State() == EMPTY
    {
      pending, transactions, nextSequence := [], [], 0;
    }

    function State(): Log
      reads this
    {
      Log(pending, transactions, nextSequence)
    }

    method HostGntReceived(request: Request)
      modifies this
      ensures State() == OnGrant(old(State()), request)
    {
      pending := pending + [Transaction(nextSequence, request, NO_RESPONSE)];
      nextSequence := Sequence(nextSequence + 1);
    }

    method HostRvalidReceived(response: Response) returns (aborted: bool)
      modifies this
      ensures aborted <==> OnResponse(old(State()), response).None?
      ensures !aborted ==> OnResponse(old(State()), response) == Some(State())
    {
      if pending == [] {
        return true;
      }
      var completed := pending[0];
      pending := pending[1..];
      completed := completed.(response := response);
      transactions := transactions + [completed];
      if |transactions| > SHOWN {
        transactions := transactions[1..];
      }
      aborted := false;
    }
  }

  // ----- one host's view of the history -----

  /** The requests host `h` was granted among the first `n` grants. */
  function Asked(grants: seq<Grant>, n: nat, h: nat): seq<Request>
    requires n <= |grants|
  {
    if n == 0 then []
    else Asked(grants, n - 1, h) + if grants[n - 1].host == h then [grants[n - 1].request] else []
  }

  /** The responses host `h` received among the first `n` deliveries. */
  function Answered(deliveries: seq<Delivery>, n: nat, h: nat): seq<Response>
    requires n <= |deliveries|
  {
    if n == 0 then []
    else Answered(deliveries, n - 1, h) + if deliveries[n - 1].host == h then [deliveries[n - 1].response] else []
  }

  function Outstanding(q: seq<Slot>, n: nat, h: nat): nat
    requires n <= |q|
  {
    if n == 0 then 0 else Outstanding(q, n - 1, h) + if q[n - 1].host == h then 1 else 0
  }

  lemma {:induction false} AskedOrder(grants: seq<Grant>, i: nat, k: nat, h: nat)
    requires i <= k <= |grants|
    ensures Asked(grants, i, h) <= Asked(grants, k, h)
    ensures i < k && grants[i].host == h ==>
      |Asked(grants, i, h)| < |Asked(grants, k, h)| && Asked(grants, k, h)[|Asked(grants, i, h)|] == grants[i].request
  {
    if i < k {
      AskedOrder(grants, i, k - 1, h);
    }
  }

  lemma {:induction false} AnsweredOrder(deliveries: seq<Delivery>, i: nat, k: nat, h: nat)
    requires i <= k <= |deliveries|
    ensures Answered(deliveries, i, h) <= Answered(deliveries, k, h)
    ensures i < k && deliveries[i].host == h ==>
      |Answered(deliveries, i, h)| < |Answered(deliveries, k, h)|
      && Answered(deliveries, k, h)[|Answered(deliveries, i, h)|] == deliveries[i].response
  {
    if i < k {
      AnsweredOrder(deliveries, i, k - 1, h);
    }
  }

  lemma {:induction false} AskedExtends(grants: seq<Grant>, grants': seq<Grant>, n: nat, h: nat)
    requires grants <= grants' && n <= |grants|
    ensures Asked(grants', n, h) == Asked(grants, n, h)
  {
    if n > 0 {
      AskedExtends(grants, grants', n - 1, h);
    }
  }

  lemma {:induction false} AnsweredExtends(ds: seq<Delivery>, ds': seq<Delivery>, n: nat, h: nat)
    requires ds <= ds' && n <= |ds|
    ensures Answered(ds', n, h) == Answered(ds, n, h)
  {
    if n > 0 {
      AnsweredExtends(ds, ds', n - 1, h);
    }
  }

  /** Each host has had as many answers as it had grants among the transactions delivered so far. */
  lemma {:induction false} AnsweredInStep(cfg: Config, l: Ledger, q: seq<Slot>, n: nat, h: nat)
    requires Consistent(cfg, l, q) && n <= |l.deliveries|
    ensures n <= |l.grants|
    ensures |Answered(l.deliveries, n, h)| == |Asked(l.grants, n, h)|
  {
    if n > 0 {
      AnsweredInStep(cfg, l, q, n - 1, h);
      assert Expected(l, n - 1) == Ready(l.deliveries[n - 1].host, l.deliveries[n - 1].response);
    }
  }

  lemma {:induction false} OutstandingInStep(cfg: Config, l: Ledger, q: seq<Slot>, i: nat, h: nat)
    requires Consistent(cfg, l, q) && i <= |q|
    ensures |l.deliveries| + i <= |l.grants|
    ensures |Asked(l.grants, |l.deliveries| + i, h)|
            == |Answered(l.deliveries, |l.deliveries|, h)| + Outstanding(q, i, h)
  {
    if i == 0 {
      AnsweredInStep(cfg, l, q, |l.deliveries|, h);
    } else {
      OutstandingInStep(cfg, l, q, i - 1, h);
      assert q[i - 1] == Expected(l, |l.deliveries| + i - 1);
    }
  }

  /** Conservation in every reachable state: per host, grants = responses + outstanding transactions. */
  lemma Conservation(cfg: Config, trace: seq<Inputs>, h: nat)
    requires Fits(cfg, trace)
    ensures var s := Run(cfg, trace);
            |Asked(s.ledger.grants, |s.ledger.grants|, h)|
            == |Answered(s.ledger.deliveries, |s.ledger.deliveries|, h)| + Outstanding(s.queue, |s.queue|, h)
  {
    hide Consistent, Asked, Answered, Outstanding, Run;
    RunConsistent(cfg, trace);
    OutstandingInStep(cfg, Run(cfg, trace).ledger, Run(cfg, trace).queue, |Run(cfg, trace).queue|, h);
  }

  /** The n-th request and the n-th response of a host belong to the same transaction. */
  lemma SameTransaction(cfg: Config, trace: seq<Inputs>, k: nat)
    requires Fits(cfg, trace) && k < |Run(cfg, trace).ledger.deliveries|
    ensures var l := Run(cfg, trace).ledger;
            && k < |l.grants|
            && var h := l.grants[k].host;
            var c := |Asked(l.grants, k, h)|;
            && c < |Asked(l.grants, |l.grants|, h)| && c < |Answered(l.deliveries, |l.deliveries|, h)|
            && Asked(l.grants, |l.grants|, h)[c] == l.grants[k].request
            && Answered(l.deliveries, |l.deliveries|, h)[c] == l.deliveries[k].response
  {
    RunConsistent(cfg, trace);
    var l := Run(cfg, trace).ledger;
    AnsweredInStep(cfg, l, Run(cfg, trace).queue, k, l.grants[k].host);
    assert Expected(l, k) == Ready(l.deliveries[k].host, l.deliveries[k].response);
    AskedOrder(l.grants, k, |l.grants|, l.grants[k].host);
    AnsweredOrder(l.deliveries, k, |l.deliveries|, l.grants[k].host);
  }

  // ----- the monitor attached to host `h` -----

  /** In each clock the monitor is told of the response first, then of the grant. */
  function Observe(log: Log, r: Option<Delivery>, g: Option<Grant>, h: nat): Option<Log> {
    var afterResponse :=
      if r.Some? && r.value.host == h then OnResponse(log, r.value.response) else Some(log);
    if afterResponse.Some? && g.Some? && g.value.host == h then Some(OnGrant(afterResponse.value, g.value.request))
    else afterResponse
  }

  function RequestOf(g: Option<Grant>, h: nat): seq<Request> {
    if g.Some? && g.value.host == h then [g.value.request] else []
  }

  function ResponseOf(r: Option<Delivery>, h: nat): seq<Response> {
    if r.Some? && r.value.host == h then [r.value.response] else []
  }

  /** The i-th transaction of a host, with its own request and its own response. */
  function Completed(asked: seq<Request>, answered: seq<Response>, i: nat): Transaction
    requires i < |asked|
  {
    Transaction(Sequence(i), asked[i], if i < |answered| then answered[i] else NO_RESPONSE)
  }

  /** The transactions from number `lo` up to `hi`. */
  function Range(asked: seq<Request>, answered: seq<Response>, lo: nat, hi: nat): (r: seq<Transaction>)
    requires lo <= hi <= |asked|
    ensures |r| == hi - lo
    ensures forall i :: 0 <= i < hi - lo ==> r[i] == Completed(asked, answered, lo + i)
  {
    seq(hi - lo, i requires 0 <= i < hi - lo => Completed(asked, answered, lo + i))
  }

  function FirstShown(answered: seq<Response>): nat {
    if |answered| < SHOWN then 0 else |answered| - SHOWN
  }

  ghost predicate Shows(log: Log, asked: seq<Request>, answered: seq<Response>) {
    && |answered| <= |asked|
    && log.nextSequence == Sequence(|asked|)
    && log.pending == Range(asked, answered, |answered|, |asked|)
    && log.transactions == Range(asked, answered, FirstShown(answered), |answered|)
  }

  lemma ShowsGrant(log: Log, asked: seq<Request>, answered: seq<Response>, request: Request)
    requires Shows(log, asked, answered)
    ensures Shows(OnGrant(log, request), asked + [request], answered)
  {
    assert Sequence(Sequence(|asked|) + 1) == Sequence(|asked| + 1);
    hide Sequence;
    var asked', n := asked + [request], |asked|;
    RangeAgrees(asked, answered, asked', answered, |answered|, n);
    RangeAgrees(asked, answered, asked', answered, FirstShown(answered), |answered|);
    assert Range(asked', answered, |answered|, n + 1)
           == Range(asked', answered, |answered|, n) + [Completed(asked', answered, n)];
  }

  lemma ShowsResponse(log: Log, asked: seq<Request>, answered: seq<Response>, response: Response)
    requires Shows(log, asked, answered) && |answered| < |asked|
    ensures OnResponse(log, response).Some?
    ensures Shows(OnResponse(log, response).value, asked, answered + [response])
  {
    hide Sequence;
    var answered', lo, n := answered + [response], FirstShown(answered), |answered|;
    RangeAgrees(asked, answered, asked, answered', lo, n);
    RangeAgrees(asked, answered, asked, answered', n + 1, |asked|);
    RangeHead(asked, answered, n, |asked|);
    RangeHead(asked, answered', lo, n + 1);
    assert Range(asked, answered', lo, n + 1) == Range(asked, answered', lo, n) + [Completed(asked, answered', n)];
  }

  lemma RangeHead(asked: seq<Request>, answered: seq<Response>, lo: nat, hi: nat)
    requires lo < hi <= |asked|
    ensures Range(asked, answered, lo, hi) == [Completed(asked, answered, lo)] + Range(asked, answered, lo + 1, hi)
  {
    hide Completed;
    var tail := Range(asked, answered, lo + 1, hi);
    forall i | 0 < i < hi - lo
      ensures Range(asked, answered, lo, hi)[i] == tail[i - 1]
    {
    }
  }

  lemma RangeAgrees(asked: seq<Request>, answered: seq<Response>, asked': seq<Request>, answered': seq<Response>,
                    lo: nat, hi: nat)
    requires lo <= hi <= |asked| && asked <= asked'
    requires forall i :: lo <= i < hi ==> Completed(asked, answered, i) == Completed(asked', answered', i)
    ensures Range(asked, answered, lo, hi) == Range(asked', answered', lo, hi)
  {
    hide Completed;
  }

  ghost predicate Tracks(log: Log, l: Ledger, h: nat) {
    Shows(log, Asked(l.grants, |l.grants|, h), Answered(l.deliveries, |l.deliveries|, h))
  }

  lemma HeadWasAsked(cfg: Config, l: Ledger, q: seq<Slot>, h: nat)
    requires Consistent(cfg, l, q) && Delivered(q).Some? && Delivered(q).value.host == h
    ensures |Answered(l.deliveries, |l.deliveries|, h)| < |Asked(l.grants, |l.grants|, h)|
  {
    assert q[0] == Expected(l, |l.deliveries|);
    AnsweredInStep(cfg, l, q, |l.deliveries|, h);
    AskedOrder(l.grants, |l.deliveries|, |l.grants|, h);
  }

  lemma RecordAsked(cfg: Config, l: Ledger, q: seq<Slot>, inp: Inputs, h: nat)
    requires Consistent(cfg, l, q) && inp.Fits(cfg)
    ensures var l' := Record(cfg, l, q, inp);
            && Asked(l'.grants, |l'.grants|, h) == Asked(l.grants, |l.grants|, h) + RequestOf(Accepted(cfg, q, inp), h)
            && Answered(l'.deliveries, |l'.deliveries|, h)
               == Answered(l.deliveries, |l.deliveries|, h) + ResponseOf(Delivered(q), h)
  {
    hide Expected, Accepted, Solicited;
    var l' := Record(cfg, l, q, inp);
    AskedExtends(l.grants, l'.grants, |l.grants|, h);
    AnsweredExtends(l.deliveries, l'.deliveries, |l.deliveries|, h);
  }

  lemma ObserveShows(log: Log, asked: seq<Request>, answered: seq<Response>,
                     r: Option<Delivery>, g: Option<Grant>, h: nat)
    requires Shows(log, asked, answered)
    requires r.Some? && r.value.host == h ==> |answered| < |asked|
    ensures Observe(log, r, g, h).Some?
    ensures Shows(Observe(log, r, g, h).value, asked + RequestOf(g, h), answered + ResponseOf(r, h))
  {
    hide Shows, OnGrant, OnResponse;
    var log1, answered1 := log, answered + ResponseOf(r, h);
    if r.Some? && r.value.host == h {
      ShowsResponse(log, asked, answered, r.value.response);
      log1 := OnResponse(log, r.value.response).value;
    } else {
      assert answered1 == answered;
    }
    if g.Some? && g.value.host == h {
      ShowsGrant(log1, asked, answered1, g.value.request);
    } else {
      assert asked + RequestOf(g, h) == asked;
    }
  }

  lemma ObserveTracks(log: Log, cfg: Config, l: Ledger, q: seq<Slot>, inp: Inputs, h: nat)
    requires Consistent(cfg, l, q) && inp.Fits(cfg) && Tracks(log, l, h)
    ensures |l.answers| == cfg.Devices()
    ensures Observe(log, Delivered(q), Accepted(cfg, q, inp), h).Some?
    ensures Tracks(Observe(log, Delivered(q), Accepted(cfg, q, inp), h).value, Record(cfg, l, q, inp), h)
  {
    assert |l.answers| == cfg.Devices();
    hide Consistent, Record, Asked, Answered, Accepted, Delivered, Shows, Observe;
    RecordAsked(cfg, l, q, inp, h);
    if Delivered(q).Some? && Delivered(q).value.host == h {
      HeadWasAsked(cfg, l, q, h);
    }
    ObserveShows(log, Asked(l.grants, |l.grants|, h), Answered(l.deliveries, |l.deliveries|, h),
                 Delivered(q), Accepted(cfg, q, inp), h);
  }

  /** The monitor's log after the cycles of `trace`, or `None` once it has aborted. */
  ghost function Watch(cfg: Config, trace: seq<Inputs>, n: nat, h: nat): Option<Log>
    requires Fits(cfg, trace) && n <= |trace|
  {
    if n == 0 then Some(EMPTY)
    else match Watch(cfg, trace, n - 1, h)
      case None => None
      case Some(log) =>
        var q := At(cfg, trace, n - 1).queue;
        Observe(log, Delivered(q), Accepted(cfg, q, trace[n - 1]), h)
  }

  /** The monitor never reaches its abort and pairs every response with its own request. */
  lemma {:induction false} NeverAborts(cfg: Config, trace: seq<Inputs>, n: nat, h: nat)
    requires Fits(cfg, trace) && n <= |trace|
    ensures Watch(cfg, trace, n, h).Some?
    ensures Tracks(Watch(cfg, trace, n, h).value, At(cfg, trace, n).ledger, h)
  {
    hide Tracks, Observe, Record, Step, Run;
    if n == 0 {
      AtReset(cfg, trace);
      assert Tracks(EMPTY, Reset(cfg).ledger, h) by {
        StartTracks(cfg, h);
      }
    } else {
      NeverAborts(cfg, trace, n - 1, h);
      AtNext(cfg, trace, n - 1);
      RunConsistent(cfg, trace[..n - 1]);
      ObserveTracks(Watch(cfg, trace, n - 1, h).value, cfg,
                    At(cfg, trace, n - 1).ledger, At(cfg, trace, n - 1).queue, trace[n - 1], h);
    }
  }

  lemma StartTracks(cfg: Config, h: nat)
    requires cfg.Valid()
    ensures Tracks(EMPTY, Reset(cfg).ledger, h)
  {
  }
}
