/** The register file shared by the peripherals: one-cycle responses, full-word writes only. */
module RegFile {
  import opened Bits
  import opened Obi

  datatype AccessMode = RW | WO | RO | W1S | W1C | W0C

  datatype RegConfig = RegConfig(modes: seq<AccessMode>, reset: seq<Word>, addrWidth: nat) {
    predicate Valid() {
      0 < |modes| == |reset| && 2 <= addrWidth <= 32
    }

    function Count(): nat {
      |modes|
    }
  }

  /** The register cell: software write `we`/`wd` against hardware write `de`/`d`. */
  function NextReg(mode: AccessMode, de: bool, we: bool, d: Word, wd: Word, q: Word): Word {
    match mode
    case RW | WO => if we then wd else if de then d else q
    case RO => if de then d else q
    case W1S => if we || de then WordOr(if de then d else q, if we then wd else ZERO) else q
    case W1C => if we || de then WordAnd(if de then d else q, if we then WordNot(wd) else ONES) else q
    case W0C => if we || de then WordAnd(if de then d else q, if we then wd else ONES) else q
  }

  /** The enabled lanes of `q`, disabled ones zero. */
  function ByteMasked(q: Word, be: Enables): (r: Word)
    ensures forall k :: 0 <= k < 4 ==> r.Lane(k) == if be.Lane(k) then q.Lane(k) else CLEAR
  {
    Word(if be.e0 then q.b0 else CLEAR, if be.e1 then q.b1 else CLEAR,
         if be.e2 then q.b2 else CLEAR, if be.e3 then q.b3 else CLEAR)
  }

  // ----- one access -----

  function WordIndex(rc: RegConfig, addr: bv32): nat {
    (addr as nat % Power2(rc.addrWidth)) / 4
  }

  /** Outside the file, or a write with a byte disabled. */
  predicate Refused(rc: RegConfig, r: Request) {
    WordIndex(rc, r.addr) >= rc.Count() || (r.we && !r.be.All())
  }

  predicate Writes(rc: RegConfig, r: Option<Request>, i: nat) {
    r.Some? && r.value.we && !Refused(rc, r.value) && WordIndex(rc, r.value.addr) == i
  }

  function Reply(rc: RegConfig, q: seq<Word>, r: Request): Response
    requires rc.Valid() && |q| == rc.Count()
  {
    Response(if r.we || Refused(rc, r) then ZERO else ByteMasked(q[WordIndex(rc, r.addr)], r.be), Refused(rc, r))
  }

  /** The registers and the response flip-flops. */
  datatype Regs = Regs(q: seq<Word>, resp: Option<Response>)

  /** One clock: `hw[i]` is the hardware update of register `i`, if its enable is high. */
  function Step(rc: RegConfig, s: Regs, req: Option<Request>, hw: seq<Option<Word>>): (s': Regs)
    requires rc.Valid() && |s.q| == |hw| == rc.Count()
    ensures |s'.q| == rc.Count()
  {
    Regs(
      seq(rc.Count(), i requires 0 <= i < rc.Count() =>
        NextReg(rc.modes[i], hw[i].Some?, Writes(rc, req, i),
                if hw[i].Some? then hw[i].value else ZERO, if req.Some? then req.value.wdata else ZERO, s.q[i])),
      match req case None => None case Some(r) => Some(Reply(rc, s.q, r)))
  }

  /**
   Bit by bit, software against hardware in the same clock: a read-write bit takes what is written, a read-only bit
   what the hardware gives; a write can only set the bits it names, or only clear them, over the hardware's update.
   */
  lemma EveryMode(mode: AccessMode, de: bool, we: bool, d: Word, wd: Word, q: Word, lane: nat, k: nat)
    requires lane < 4 && k < 8
    ensures var bit, hw := NextReg(mode, de, we, d, wd, q).Lane(lane)[k], (if de then d else q).Lane(lane)[k];
            var one, zero := we && wd.Lane(lane)[k], we && !wd.Lane(lane)[k];
            match mode
            case RW | WO => bit <==> one || (hw && !zero)
            case RO => bit <==> hw
            case W1S => bit <==> hw || one
            case W1C => bit <==> hw && !one
            case W0C => bit <==> hw && !zero
  {
  }

  // ----- registers by byte address -----

  /** The address lies in the four bytes of register `i`; the file repeats every 2^addrWidth bytes. */
  predicate InCell(rc: RegConfig, addr: bv32, i: nat) {
    4 * i <= addr as nat % Power2(rc.addrWidth) < 4 * i + 4
  }

  /** The address lies behind the last register. */
  predicate Beyond(rc: RegConfig, addr: bv32) {
    addr as nat % Power2(rc.addrWidth) >= 4 * rc.Count()
  }

  /**
   One access, for every address: it fails exactly behind the last register or on a partial write; a full write
   goes to the register whose four bytes hold the address and to no other; a read returns that register.
   */
  lemma AccessByAddress(rc: RegConfig, q: seq<Word>, r: Request, i: nat)
    requires rc.Valid() && |q| == rc.Count() && i < rc.Count()
    ensures Reply(rc, q, r).err <==> Beyond(rc, r.addr) || (r.we && !r.be.All())
    ensures Writes(rc, Some(r), i) <==> r.we && r.be.All() && InCell(rc, r.addr, i)
    ensures !r.we && InCell(rc, r.addr, i) ==> Reply(rc, q, r) == Response(ByteMasked(q[i], r.be), false)
    ensures r.we || Beyond(rc, r.addr) ==> Reply(rc, q, r).rdata == ZERO
  {
    CellIsQuotient(r.addr as nat % Power2(rc.addrWidth), i);
    CellIsQuotient(r.addr as nat % Power2(rc.addrWidth), WordIndex(rc, r.addr));
    hide ByteMasked, Power2;
  }

  lemma CellIsQuotient(addr: nat, i: nat)
    ensures addr / 4 == i <==> 4 * i <= addr < 4 * i + 4
  {
  }

  class ObiReg {
    const rc: RegConfig
    const q: array<Word>
    var rvalid: bool
    var rdata: Word
    var err: bool

    predicate Valid() {
      rc.Valid() && q.Length == rc.Count()
    }

    function State(): Regs
      reads this, q
    {
      Regs(q[..], if rvalid then Some(Response(rdata, err)) else None)
    }

    constructor (rc: RegConfig)
      requires rc.Valid()
      ensures Valid() && fresh(q) && this.rc == rc && State() == Regs(rc.reset, None)
    {
      this.rc := rc;
      q := new Word[rc.Count()](i requires 0 <= i < rc.Count() => rc.reset[i]);
      rvalid, rdata, err := false, ZERO, false;
    }

    method ReadLanes(word: Word, be: Enables) returns (r: Word)
      ensures r == ByteMasked(word, be)
    {
      r := ZERO;
      for k := 0 to 4
        invariant forall j :: 0 <= j < 4 ==> r.Lane(j) == if j < k && be.Lane(j) then word.Lane(j) else CLEAR
      {
        if be.Lane(k) {
          r := r.With(k, word.Lane(k));
        }
      }
      assert r.Lane(0) == r.b0 && r.Lane(1) == r.b1 && r.Lane(2) == r.b2 && r.Lane(3) == r.b3;
    }

    /** One clock; the grant line is the request line. */
    method Clock(req: Option<Request>, hw: seq<Option<Word>>)
      requires Valid() && |hw| == rc.Count()
      modifies this, q
      ensures State() == Step(rc, old(State()), req, hw)
    {
      hide NextReg, ByteMasked, WordIndex;
      var pre := q[..];
      rvalid, rdata, err := false, ZERO, false;
      if req.Some? {
        var r := req.value;
        if !r.we && !Refused(rc, r) {
          rdata := ReadLanes(pre[WordIndex(rc, r.addr)], r.be);
        }
        rvalid, err := true, Refused(rc, r);
      }
      for i := 0 to q.Length
        modifies q
        invariant forall j :: i <= j < q.Length ==> q[j] == pre[j]
        invariant forall j :: 0 <= j < i ==> q[j] == Step(rc, old(State()), req, hw).q[j]
      {
        q[i] := NextReg(rc.modes[i], hw[i].Some?, Writes(rc, req, i),
                        if hw[i].Some? then hw[i].value else ZERO, if req.Some? then req.value.wdata else ZERO, pre[i]);
      }
    }
  }
}
