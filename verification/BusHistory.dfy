/**
 What the interconnect promises over whole runs. A `Ledger` is the complete history:
 every grant, every answer a device gave to a request it had been granted, every response
 delivered to a host. The contents of the queue are a function of the ledger alone.
 */
module BusHistory {
  import opened Obi
  import opened BusSpec

  datatype Ledger = Ledger(grants: seq<Grant>, answers: seq<seq<Response>>, deliveries: seq<Delivery>)

  /** How many of the first `k` grants went to device `d`. */
  function Rank(grants: seq<Grant>, k: nat, d: nat): (n: nat)
    requires k <= |grants|
  {
    if k == 0 then 0 else Rank(grants, k - 1, d) + (if grants[k - 1].route == Some(d) then 1 else 0)
  }

  function CountTo(grants: seq<Grant>, d: nat): nat {
    Rank(grants, |grants|, d)
  }

  /** A device answers a request it was granted in an earlier cycle and has not answered yet. */
  predicate Solicited(l: Ledger, inp: Inputs, d: nat)
    requires |l.answers| == |inp.deviceResp| && d < |l.answers|
  {
    inp.deviceResp[d].Some? && |l.answers[d]| < CountTo(l.grants, d)
  }

  function Record(cfg: Config, l: Ledger, q: seq<Slot>, inp: Inputs): Ledger
    requires cfg.Valid() && inp.Fits(cfg) && |l.answers| == cfg.Devices()
  {
    Ledger(
      l.grants + (match Accepted(cfg, q, inp) case None => [] case Some(g) => [g]),
      seq(|l.answers|, d requires 0 <= d < |l.answers| =>
        if Solicited(l, inp, d) then l.answers[d] + [inp.deviceResp[d].value] else l.answers[d]),
      l.deliveries + (match Delivered(q) case None => [] case Some(r) => [r]))
  }

  /**
   What transaction `k` must look like after history `l`: unmapped ones are errors at once;
   the one that was the j-th grant to device `d` carries the j-th answer of `d`.
   */
  function Expected(l: Ledger, k: nat): Slot
    requires k < |l.grants|
    requires l.grants[k].route.Some? ==> l.grants[k].route.value < |l.answers|
  {
    var g := l.grants[k];
    if g.route.None? then Ready(g.host, ERROR_RESPONSE)
    else
      var d, j := g.route.value, Rank(l.grants, k, g.route.value);
      if j < |l.answers[d]| then Ready(g.host, ToHost(l.answers[d][j])) else Waiting(g.host, d)
  }

  ghost predicate Sane(cfg: Config, l: Ledger) {
    && |l.answers| == cfg.Devices()
    && (forall k :: 0 <= k < |l.grants| ==> l.grants[k].host < cfg.hosts)
    && (forall k :: 0 <= k < |l.grants| && l.grants[k].route.Some? ==> l.grants[k].route.value < cfg.Devices())
    && (forall d :: 0 <= d < cfg.Devices() ==> |l.answers[d]| <= CountTo(l.grants, d))
  }

  /** The invariant: queue and deliveries are exactly what the history says they must be. */
  ghost predicate Consistent(cfg: Config, l: Ledger, q: seq<Slot>) {
    && cfg.Valid() && Sane(cfg, l)
    && |q| <= cfg.capacity
    && |l.deliveries| + |q| == |l.grants|
    && (forall k :: 0 <= k < |l.deliveries| ==> Expected(l, k) == Ready(l.deliveries[k].host, l.deliveries[k].response))
    && (forall i :: 0 <= i < |q| ==> q[i] == Expected(l, |l.deliveries| + i))
  }

  // ----- ranks -----

  lemma {:induction false} RankOrder(grants: seq<Grant>, i: nat, k: nat, d: nat)
    requires i <= k <= |grants|
    ensures Rank(grants, i, d) <= Rank(grants, k, d)
    ensures i < k && grants[i].route == Some(d) ==> Rank(grants, i, d) < Rank(grants, k, d)
  {
    if i < k {
      RankOrder(grants, i, k - 1, d);
    }
  }

  /** Later grants do not change the rank of earlier ones. */
  lemma {:induction false} RankExtends(grants: seq<Grant>, grants': seq<Grant>, k: nat, d: nat)
    requires grants <= grants' && k <= |grants|
    ensures Rank(grants', k, d) == Rank(grants, k, d)
  {
    if k > 0 {
      RankExtends(grants, grants', k - 1, d);
    }
  }

  /** The j-th grant to `d` exists when `d` has more than j grants. */
  lemma {:induction false} NthGrant(grants: seq<Grant>, n: nat, d: nat, j: nat) returns (k: nat)
    requires n <= |grants| && j < Rank(grants, n, d)
    ensures k < n && grants[k].route == Some(d) && Rank(grants, k, d) == j
  {
    k := n - 1;
    if !(grants[k].route == Some(d) && Rank(grants, k, d) == j) {
      k := NthGrant(grants, n - 1, d, j);
    }
  }

  // ----- who waits for whom -----

  /** Which transactions wait for `d`: those whose rank among the grants to `d` is unanswered. */
  lemma Unanswered(cfg: Config, l: Ledger, q: seq<Slot>, k: nat, d: nat)
    requires Consistent(cfg, l, q) && k < |l.grants| && d < cfg.Devices()
    ensures |l.deliveries| + |q| == |l.grants| && |l.answers| == cfg.Devices()
    ensures l.grants[k].route == Some(d) && Rank(l.grants, k, d) >= |l.answers[d]|
            <==> k >= |l.deliveries| && WaitsFor(q[k - |l.deliveries|], d)
  {
    hide Rank;
    if k < |l.deliveries| {
      assert Expected(l, k).Ready?;
    } else {
      assert q[k - |l.deliveries|] == Expected(l, k);
    }
  }

  lemma WaitingSlot(cfg: Config, l: Ledger, q: seq<Slot>, i: nat)
    requires Consistent(cfg, l, q) && i < |q|
    ensures |l.deliveries| + |q| == |l.grants| && |l.answers| == cfg.Devices()
    ensures q[i].Waiting? ==> q[i].device < cfg.Devices()
  {
    hide Rank;
    assert q[i] == Expected(l, |l.deliveries| + i);
  }

  /** A waiting slot is next in line for its device exactly when its rank is the next answer. */
  lemma NextInLine(cfg: Config, l: Ledger, q: seq<Slot>, inp: Inputs, i: nat)
    requires Consistent(cfg, l, q) && inp.Fits(cfg) && i < |q|
    requires q[i].Waiting? && q[i].device < cfg.Devices() && inp.deviceResp[q[i].device].Some?
    ensures |l.deliveries| + i < |l.grants| && q[i].device < |l.answers|
    ensures Captures(q, inp, i) <==> Rank(l.grants, |l.deliveries| + i, q[i].device) == |l.answers[q[i].device]|
    ensures |l.answers[q[i].device]| <= Rank(l.grants, |l.deliveries| + i, q[i].device) < CountTo(l.grants, q[i].device)
  {
    hide Expected, Rank, Consistent;
    var base, d := |l.deliveries|, q[i].device;
    WaitingSlot(cfg, l, q, i);
    Unanswered(cfg, l, q, base + i, d);
    RankOrder(l.grants, base + i, |l.grants|, d);
    forall j | 0 <= j < i && WaitsFor(q[j], d)
      ensures Rank(l.grants, base + i, d) > |l.answers[d]|
    {
      Unanswered(cfg, l, q, base + j, d);
      RankOrder(l.grants, base + j, base + i, d);
    }
    if Rank(l.grants, base + i, d) > |l.answers[d]| {
      var older := NthGrant(l.grants, base + i, d, |l.answers[d]|);
      Unanswered(cfg, l, q, older, d);
    }
  }

  /** A solicited answer is captured by exactly one slot, an unsolicited one by none. */
  lemma CapturedOnce(cfg: Config, l: Ledger, q: seq<Slot>, inp: Inputs, d: nat)
    requires Consistent(cfg, l, q) && inp.Fits(cfg) && d < cfg.Devices()
    ensures |l.answers| == |inp.deviceResp|
    ensures Solicited(l, inp, d) <==> exists i: nat :: Captures(q, inp, i) && WaitsFor(q[i], d)
    ensures forall i: nat, j: nat ::
      Captures(q, inp, i) && Captures(q, inp, j) && WaitsFor(q[i], d) && WaitsFor(q[j], d) ==> i == j
  {
    assert |l.answers| == cfg.Devices();
    hide Expected, Rank, Consistent;
    if Solicited(l, inp, d) {
      var i := Capturer(cfg, l, q, inp, d);
    }
    forall i: nat | Captures(q, inp, i) && WaitsFor(q[i], d)
      ensures Solicited(l, inp, d)
    {
      NextInLine(cfg, l, q, inp, i);
    }
  }

  lemma Capturer(cfg: Config, l: Ledger, q: seq<Slot>, inp: Inputs, d: nat) returns (i: nat)
    requires Consistent(cfg, l, q) && inp.Fits(cfg) && d < cfg.Devices() && Solicited(l, inp, d)
    ensures Captures(q, inp, i) && WaitsFor(q[i], d)
  {
    assert |l.answers| == cfg.Devices();
    hide Expected, Rank, Consistent, Captures;
    var k := NthGrant(l.grants, |l.grants|, d, |l.answers[d]|);
    Unanswered(cfg, l, q, k, d);
    i := k - |l.deliveries|;
    NextInLine(cfg, l, q, inp, i);
  }

  // ----- one cycle keeps the invariant -----

  lemma CaptureMatches(cfg: Config, l: Ledger, q: seq<Slot>, inp: Inputs, i: nat)
    requires Consistent(cfg, l, q) && inp.Fits(cfg) && i < |q|
    ensures Captured(q, inp, i) == Expected(Record(cfg, l, q, inp).(grants := l.grants), |l.deliveries| + i)
  {
    hide Rank, CountTo, Accepted;
    assert q[i] == Expected(l, |l.deliveries| + i);
    if q[i].Waiting? && inp.deviceResp[q[i].device].Some? {
      NextInLine(cfg, l, q, inp, i);
    } else {
      assert Captured(q, inp, i) == q[i];
    }
  }

  /** `Expected` looks only at older grants, so accepting another one changes nothing. */
  lemma ExpectedExtends(l: Ledger, l': Ledger, k: nat)
    requires k < |l.grants| && l.grants <= l'.grants && l'.answers == l.answers
    requires l.grants[k].route.Some? ==> l.grants[k].route.value < |l.answers|
    ensures Expected(l', k) == Expected(l, k)
  {
    if l.grants[k].route.Some? {
      RankExtends(l.grants, l'.grants, k, l.grants[k].route.value);
    }
  }

  lemma RecordSane(cfg: Config, l: Ledger, q: seq<Slot>, inp: Inputs)
    requires Consistent(cfg, l, q) && inp.Fits(cfg)
    ensures Sane(cfg, Record(cfg, l, q, inp))
  {
    hide Expected;
    var l' := Record(cfg, l, q, inp);
    forall d | 0 <= d < cfg.Devices()
      ensures |l'.answers[d]| <= CountTo(l'.grants, d)
    {
      RankExtends(l.grants, l'.grants, |l.grants|, d);
      RankOrder(l'.grants, |l.grants|, |l'.grants|, d);
    }
  }

  lemma ExpectedAfter(cfg: Config, l: Ledger, q: seq<Slot>, inp: Inputs, k: nat)
    requires Consistent(cfg, l, q) && inp.Fits(cfg) && k < |l.grants|
    ensures Expected(Record(cfg, l, q, inp), k)
            == if k < |l.deliveries| then Expected(l, k) else Captured(q, inp, k - |l.deliveries|)
  {
    hide Rank, Captures, Accepted;
    var l' := Record(cfg, l, q, inp);
    ExpectedExtends(l'.(grants := l.grants), l', k);
    if k >= |l.deliveries| {
      CaptureMatches(cfg, l, q, inp, k - |l.deliveries|);
    } else {
      assert Expected(l, k).Ready?;
    }
  }

  lemma ExpectedEntering(cfg: Config, l: Ledger, q: seq<Slot>, inp: Inputs)
    requires Consistent(cfg, l, q) && inp.Fits(cfg) && Accepted(cfg, q, inp).Some?
    ensures [Expected(Record(cfg, l, q, inp), |l.grants|)] == Enter(Accepted(cfg, q, inp))
  {
    var g, l' := Accepted(cfg, q, inp).value, Record(cfg, l, q, inp);
    if g.route.Some? {
      RankExtends(l.grants, l'.grants, |l.grants|, g.route.value);
    }
  }

  lemma QueueAfter(cfg: Config, l: Ledger, q: seq<Slot>, inp: Inputs, i: nat)
    requires Consistent(cfg, l, q) && inp.Fits(cfg) && i < |Step(cfg, q, inp)|
    ensures |Record(cfg, l, q, inp).deliveries| + i < |Record(cfg, l, q, inp).grants|
    ensures Sane(cfg, Record(cfg, l, q, inp))
    ensures Step(cfg, q, inp)[i] == Expected(Record(cfg, l, q, inp), |Record(cfg, l, q, inp).deliveries| + i)
  {
    hide Expected, Captures, Rank, Accepted;
    RecordSane(cfg, l, q, inp);
    var k := |Record(cfg, l, q, inp).deliveries| + i;
    if k < |l.grants| {
      ExpectedAfter(cfg, l, q, inp, k);
    } else {
      ExpectedEntering(cfg, l, q, inp);
    }
  }

  lemma DeliveryAfter(cfg: Config, l: Ledger, q: seq<Slot>, inp: Inputs, k: nat)
    requires Consistent(cfg, l, q) && inp.Fits(cfg) && k < |Record(cfg, l, q, inp).deliveries|
    ensures k < |l.grants| && Sane(cfg, Record(cfg, l, q, inp))
    ensures var l' := Record(cfg, l, q, inp);
            Expected(l', k) == Ready(l'.deliveries[k].host, l'.deliveries[k].response)
  {
    hide Expected, Captures, Rank, Accepted;
    RecordSane(cfg, l, q, inp);
    ExpectedAfter(cfg, l, q, inp, k);
  }

  /** Every clock cycle keeps queue, deliveries and history in agreement. */
  lemma StepConsistent(cfg: Config, l: Ledger, q: seq<Slot>, inp: Inputs)
    requires Consistent(cfg, l, q) && inp.Fits(cfg)
    ensures Consistent(cfg, Record(cfg, l, q, inp), Step(cfg, q, inp))
  {
    hide Expected, Captures, Rank, Accepted;
    var l', q' := Record(cfg, l, q, inp), Step(cfg, q, inp);
    RecordSane(cfg, l, q, inp);
    forall i | 0 <= i < |q'|
      ensures q'[i] == Expected(l', |l'.deliveries| + i)
    {
      QueueAfter(cfg, l, q, inp, i);
    }
    forall k | 0 <= k < |l'.deliveries|
      ensures Expected(l', k) == Ready(l'.deliveries[k].host, l'.deliveries[k].response)
    {
      DeliveryAfter(cfg, l, q, inp, k);
    }
  }
}
