/** The timer peripheral: five registers of an `obi_reg` file, two of them counting. */
module Timer {
  import opened Bits
  import opened Obi
  import opened Words
  import opened RegFile
  import Spec = TimerSpec

  const CONFIG := RegConfig([RW, RW, RW, RW, RW], [ZERO, ZERO, ZERO, ONES, ONES], 8)

  function Decode(q: seq<Word>): (t: Spec.Timer)
    requires |q| == 5
    ensures t.Ok()
  {
    Spec.Halves(WordValue(q[2]), WordValue(q[1]));
    Spec.Halves(WordValue(q[4]), WordValue(q[3]));
    Spec.Timer(q[0].b0[0], q[0].b0[1],
               Spec.Join(WordValue(q[2]), WordValue(q[1])), Spec.Join(WordValue(q[4]), WordValue(q[3])))
  }

  /** The store a bus request makes, if it is accepted. */
  function StoreOf(req: Option<Request>): Option<Spec.Store> {
    if req.Some? && req.value.we && !Refused(CONFIG, req.value)
    then Some(Spec.Store(WordIndex(CONFIG, req.value.addr), req.value.wdata)) else None
  }

  /** The hardware side of the register file: the next count, unless software is writing either half. */
  function Hardware(q: seq<Word>, req: Option<Request>): (hw: seq<Option<Word>>)
    requires |q| == 5
    ensures |hw| == 5
  {
    var next := Spec.Next(Spec.Join(WordValue(q[2]), WordValue(q[1])));
    if q[0].b0[0] && !Writes(CONFIG, req, Spec.MTIME_LO_LANE) && !Writes(CONFIG, req, Spec.MTIME_HI_LANE)
    then [None, Some(WordOf(Spec.Lo(next))), Some(WordOf(Spec.Hi(next))), None, None]
    else [None, None, None, None, None]
  }

  /** What the read-write cells load. */
  lemma Loads(s: Regs, req: Option<Request>, hw: seq<Option<Word>>, i: nat)
    requires |s.q| == |hw| == 5 && i < 5
    ensures RegFile.Step(CONFIG, s, req, hw).q[i]
            == if Writes(CONFIG, req, i) then req.value.wdata else if hw[i].Some? then hw[i].value else s.q[i]
  {
  }

  /** The registers' next values, lane by lane, in terms of the store. */
  predicate Loaded(q: seq<Word>, q': seq<Word>, store: Option<Spec.Store>)
    requires |q| == |q'| == 5
  {
    var next := Spec.Next(Spec.Join(WordValue(q[2]), WordValue(q[1])));
    var lane := if store.None? then 5 else store.value.lane;
    var counts := q[0].b0[0] && lane != 1 && lane != 2;
    && q'[0] == (if lane == 0 then store.value.word else q[0])
    && q'[1] == (if lane == 1 then store.value.word else if counts then WordOf(Spec.Lo(next)) else q[1])
    && q'[2] == (if lane == 2 then store.value.word else if counts then WordOf(Spec.Hi(next)) else q[2])
    && q'[3] == (if lane == 3 then store.value.word else q[3])
    && q'[4] == (if lane == 4 then store.value.word else q[4])
  }

  lemma StoreTargets(req: Option<Request>)
    ensures forall i: nat :: Writes(CONFIG, req, i) <==> StoreOf(req).Some? && StoreOf(req).value.lane == i
    ensures StoreOf(req).Some? ==> StoreOf(req).value.word == req.value.wdata && StoreOf(req).value.lane < 5
  {
    hide WordIndex;
  }

  lemma StepLoads(s: Regs, req: Option<Request>)
    requires |s.q| == 5
    ensures Loaded(s.q, RegFile.Step(CONFIG, s, req, Hardware(s.q, req)).q, StoreOf(req))
  {
    StoreTargets(req);
    hide Writes, StoreOf, WordValue, WordOf, RegFile.Step, Spec.Lo, Spec.Hi, Spec.Join;
    var hw := Hardware(s.q, req);
    Loads(s, req, hw, 0);
    Loads(s, req, hw, 1);
    Loads(s, req, hw, 2);
    Loads(s, req, hw, 3);
    Loads(s, req, hw, 4);
  }

  lemma CountsAsNumbers(q: seq<Word>, q': seq<Word>, store: Option<Spec.Store>)
    requires |q| == |q'| == 5 && (store.Some? ==> store.value.lane < 5) && Loaded(q, q', store)
    ensures Decode(q') == Spec.Step(Decode(q), store)
  {
    var next := Spec.Next(Spec.Join(WordValue(q[2]), WordValue(q[1])));
    Spec.Joined(next);
    WordRoundTrip(Spec.Lo(next));
    WordRoundTrip(Spec.Hi(next));
    Spec.Halves(WordValue(q[2]), WordValue(q[1]));
    Spec.Halves(WordValue(q[4]), WordValue(q[3]));
    hide Spec.Hi, Spec.Lo, Spec.Join, WordValue, WordOf;
  }

  lemma ResetValues()
    ensures WordValue(ZERO) == 0 && WordValue(ONES) == RANGE - 1
  {
    hide Value;
    ByteResetValues();
  }

  lemma ResetDecodes()
    ensures Decode(CONFIG.reset) == Spec.Timer(false, false, 0, Spec.WRAP - 1)
  {
    hide WordValue;
    ResetValues();
  }

  class SysTimer {
    const regs: ObiReg
    /** The timer after every clock since it was made. */
    ghost var history: seq<Spec.Timer>

    predicate Valid() {
      regs.Valid() && regs.rc == CONFIG
    }

    function State(): Spec.Timer
      reads regs, regs.q
      requires Valid()
    {
      Decode(regs.q[..])
    }

    constructor ()
      ensures Valid() && fresh(regs) && fresh(regs.q)
      ensures State() == Spec.Timer(false, false, 0, Spec.WRAP - 1) && history == []
    {
      ResetDecodes();
      hide Decode;
      var file := new ObiReg(CONFIG);
      regs := file;
      history := [];
    }

    method Clock(req: Option<Request>)
      requires Valid()
      modifies `history, regs, regs.q
      ensures State() == Spec.Step(old(State()), StoreOf(req)) && history == old(history) + [State()]
      ensures regs.State().resp == match req case None => None case Some(r) => Some(Reply(CONFIG, old(regs.q[..]), r))
    {
      var hw := Hardware(regs.q[..], req);
      ghost var was := regs.State();
      StepLoads(was, req);
      CountsAsNumbers(was.q, RegFile.Step(CONFIG, was, req, hw).q, StoreOf(req));
      hide Hardware, NextReg, Spec.Step, Decode, Reply;
      regs.Clock(req, hw);
      history := history + [State()];
    }
  }
}
