/**
 The firmware's 32-bit accesses to the 64-bit timer. `waits(k)` is the number of clocks the processor
 spends before its k-th bus access; the timer counts through all of them.
 */
module TimerDriver {
  import Bits
  import opened Obi
  import opened Words
  import opened RegFile
  import opened Timer
  import Spec = TimerSpec

  const PERIOD := 500000

  const ALL_LANES := Enables(true, true, true, true)

  // ----- what the accesses see -----

  /** Clocks taken by the first `n` accesses. */
  function Elapsed(waits: nat -> nat, n: nat): nat {
    if n == 0 then 0 else Elapsed(waits, n - 1) + waits(n - 1) + 1
  }

  /** The waits before the accesses from the k-th on. */
  function From(waits: nat -> nat, k: nat): nat -> nat {
    (n: nat) => waits(k + n)
  }

  /** Clocks before the n-th access samples its register. */
  function Instant(waits: nat -> nat, n: nat): nat {
    Elapsed(waits, n) + waits(n)
  }

  lemma {:induction false} ElapsedGrows(waits: nat -> nat, m: nat, n: nat)
    requires m <= n
    ensures Elapsed(waits, m) + (n - m) <= Elapsed(waits, n)
  {
    if m < n {
      ElapsedGrows(waits, m, n - 1);
    }
  }

  /** The time `n` clocks on, without a 64-bit wrap. */
  function Time(t: Spec.Timer, n: nat): nat {
    if t.enable then t.mtime + n else t.mtime
  }

  /** The two reads of the high word in the given iteration agree. */
  predicate Settles(t: Spec.Timer, waits: nat -> nat, iteration: nat) {
    Spec.Hi(Time(t, Instant(waits, 3 * iteration))) == Spec.Hi(Time(t, Instant(waits, 3 * iteration + 2)))
  }

  /** The low word may be joined to a high word that reads the same before and after it. */
  lemma NotTorn(before: nat, at: nat, after: nat)
    requires before <= at <= after && Spec.Hi(before) == Spec.Hi(after)
    ensures Spec.Join(Spec.Hi(after), Spec.Lo(at)) == at
  {
  }

  /** The first two iterations cannot both straddle a carry into the high word if they take under 2^32 ticks. */
  lemma WithinTwoIterations(t: Spec.Timer, waits: nat -> nat)
    requires Elapsed(waits, 6) <= RANGE
    ensures Settles(t, waits, 0) || Settles(t, waits, 1)
  {
    var a, b := Instant(waits, 0), Instant(waits, 2);
    var c, d := Instant(waits, 3), Instant(waits, 5);
    assert Elapsed(waits, 1) == waits(0) + 1;
    assert Elapsed(waits, 3) == Elapsed(waits, 2) + waits(2) + 1;
    assert Elapsed(waits, 6) == d + 1;
    ElapsedGrows(waits, 0, 2);
    ElapsedGrows(waits, 3, 5);
    assert a <= b < c <= d < RANGE;
    if t.enable {
      CarriesApart(t.mtime, a, b, c, d);
    }
  }

  lemma CarriesApart(m: nat, a: nat, b: nat, c: nat, d: nat)
    requires a <= b <= c <= d < RANGE
    ensures Spec.Hi(m + a) == Spec.Hi(m + b) || Spec.Hi(m + c) == Spec.Hi(m + d)
  {
    assert Spec.Hi(m + a) <= Spec.Hi(m + b) <= Spec.Hi(m + c) <= Spec.Hi(m + d) <= Spec.Hi(m + a) + 1;
  }

  // ----- single accesses -----

  function Load(lane: nat): Request
    requires lane < 5
  {
    Request((4 * lane) as bv32, false, ALL_LANES, ZERO)
  }

  function Write(lane: nat, value: nat): Request
    requires lane < 5 && value < RANGE
  {
    Request((4 * lane) as bv32, true, ALL_LANES, WordOf(value))
  }

  function LaneValue(t: Spec.Timer, lane: nat): nat
    requires 1 <= lane < 5
  {
    if lane == Spec.MTIME_LO_LANE then Spec.Lo(t.mtime) else if lane == Spec.MTIME_HI_LANE then Spec.Hi(t.mtime)
    else if lane == Spec.CMP_LO_LANE then Spec.Lo(t.cmp) else Spec.Hi(t.cmp)
  }

  lemma LoadReads(q: seq<Word>, lane: nat)
    requires |q| == 5 && 1 <= lane < 5
    ensures StoreOf(Some(Load(lane))) == None
    ensures WordValue(Reply(CONFIG, q, Load(lane)).rdata) == LaneValue(Decode(q), lane)
  {
    LaneAddress(lane);
    Spec.Halves(WordValue(q[2]), WordValue(q[1]));
    Spec.Halves(WordValue(q[4]), WordValue(q[3]));
    hide WordValue, Spec.Hi, Spec.Lo, Spec.Join, WordIndex;
    assert ByteMasked(q[lane], ALL_LANES) == q[lane];
  }

  lemma WriteStores(lane: nat, value: nat)
    requires lane < 5 && value < RANGE
    ensures StoreOf(Some(Write(lane, value))) == Some(Spec.Store(lane, WordOf(value)))
  {
    LaneAddress(lane);
    hide WordIndex;
  }

  lemma LaneAddress(lane: nat)
    requires lane < 5
    ensures WordIndex(CONFIG, (4 * lane) as bv32) == lane
  {
    ByteAddress(lane);
    BytePower();
    hide Bits.Power2;
  }

  lemma ByteAddress(lane: nat)
    requires lane < 5
    ensures ((4 * lane) as bv32) as nat == 4 * lane
  {
    match lane {
      case 0 =>
      case 1 =>
      case 2 =>
      case 3 =>
      case 4 =>
    }
  }

  /** The timer after a full-word store at a byte address. */
  function Poked(t: Spec.Timer, addr: bv32, word: Word): (t': Spec.Timer)
    requires t.Ok()
    ensures t'.Ok()
  {
    Spec.Step(t, StoreOf(Some(Request(addr, true, ALL_LANES, word))))
  }

  lemma PokesLane(t: Spec.Timer, lane: nat, word: Word)
    requires t.Ok() && lane < 5
    ensures Poked(t, (4 * lane) as bv32, word) == Spec.Step(t, Some(Spec.Store(lane, word)))
  {
    LaneAddress(lane);
    hide WordIndex, Spec.Step;
  }

  lemma PokesHalf(t: Spec.Timer, lane: nat, word: Word)
    requires t.Ok() && 1 <= lane < 5
    ensures Spec.LaneOf(Poked(t, (4 * lane) as bv32, word), lane) == WordValue(word)
  {
    PokesLane(t, lane, word);
    hide Poked, Spec.Step, Spec.LaneOf;
    Spec.StoreReplacesHalf(t, lane, word, lane);
  }

  /** The words as the firmware's header lays them out: control, time low and high, compare low and high. */
  lemma RegisterMap(t: Spec.Timer, word: Word)
    requires t.Ok()
    ensures Poked(t, 0x00, word).enable == word.b0[0] && Poked(t, 0x00, word).irqEnable == word.b0[1]
    ensures Spec.Lo(Poked(t, 0x04, word).mtime) == WordValue(word)
    ensures Spec.Hi(Poked(t, 0x08, word).mtime) == WordValue(word)
    ensures Spec.Lo(Poked(t, 0x0C, word).cmp) == WordValue(word)
    ensures Spec.Hi(Poked(t, 0x10, word).cmp) == WordValue(word)
  {
    hide Poked, WordValue, Spec.Hi, Spec.Lo;
    PokesLane(t, 0, word);
    PokesHalf(t, 1, word);
    PokesHalf(t, 2, word);
    PokesHalf(t, 3, word);
    PokesHalf(t, 4, word);
  }

  lemma {:induction false} LaterKeeps(t: Spec.Timer, n: nat, c: nat)
    requires t.Ok() && c < Spec.WRAP
    ensures Spec.Later(t.(cmp := c), n) == Spec.Later(t, n).(cmp := c)
    ensures Spec.Later(t, n) == t.(mtime := Spec.Later(t, n).mtime)
  {
    if n > 0 {
      LaterKeeps(t, n - 1, c);
    }
  }

  lemma NoStore()
    ensures StoreOf(None) == None
  {
  }

  lemma LastState(t: Spec.Timer, store: Option<Spec.Store>)
    requires t.Ok()
    ensures Spec.States(t, [store]) == [Spec.Step(t, store)] && Spec.Final(t, [store]) == Spec.Step(t, store)
  {
    hide Spec.Step;
  }

  /** One clock of the timer is one entry of the schedule. */
  lemma ClockRuns(was: Spec.Timer, before: seq<Spec.Timer>, store: Option<Spec.Store>)
    requires was.Ok()
    ensures Spec.Ran(was, before, [store], Spec.Step(was, store), before + [Spec.Step(was, store)])
    ensures Spec.Ran(was, before, [], was, before)
  {
    hide Spec.Step;
    LastState(was, store);
    assert before + [] == before;
  }

  /** `n` clocks with no access. */
  method Idle(timer: SysTimer, n: nat)
    requires timer.Valid()
    modifies timer, timer.regs, timer.regs.q
    ensures Spec.Ran(old(timer.State()), old(timer.history), Spec.Quiet(n), timer.State(), timer.history)
  {
    hide Spec.Step, Spec.Ran, Spec.Quiet, Decode, Reply, StoreOf;
    ghost var was, before := timer.State(), timer.history;
    QuietGrows(n);
    ClockRuns(was, before, None);
    if n > 0 {
      Idle(timer, n - 1);
      ghost var mid, between := timer.State(), timer.history;
      NoStore();
      ClockRuns(mid, between, None);
      timer.Clock(None);
      Spec.RanJoins(was, before, Spec.Quiet(n - 1), mid, between, [None], timer.State(), timer.history);
    }
  }

  lemma QuietGrows(n: nat)
    ensures Spec.Quiet(0) == [] && (n > 0 ==> Spec.Quiet(n) == Spec.Quiet(n - 1) + [None])
  {
  }

  method ReadLane(timer: SysTimer, wait: nat, lane: nat) returns (value: nat)
    requires timer.Valid() && 1 <= lane < 5
    modifies timer, timer.regs, timer.regs.q
    ensures value == LaneValue(Spec.Later(old(timer.State()), wait), lane)
    ensures Spec.Ran(old(timer.State()), old(timer.history), Spec.Quiet(wait + 1), timer.State(), timer.history)
  {
    hide Spec.Step, Spec.Quiet, Spec.Final, Spec.States, Decode, LaneValue, StoreOf, Reply, Load;
    ghost var was, before := timer.State(), timer.history;
    Idle(timer, wait);
    Spec.QuietStates(was, wait);
    ghost var mid, between := timer.State(), timer.history;
    LoadReads(timer.regs.q[..], lane);
    ClockRuns(mid, between, None);
    timer.Clock(Some(Load(lane)));
    QuietGrows(wait + 1);
    Spec.RanJoins(was, before, Spec.Quiet(wait), mid, between, [None], timer.State(), timer.history);
    value := WordValue(timer.regs.rdata);
  }

  /** A wait and a store. */
  function Storing(wait: nat, lane: nat, value: nat): seq<Option<Spec.Store>>
    requires value < RANGE
  {
    Spec.Quiet(wait) + [Some(Spec.Store(lane, WordOf(value)))]
  }

  method StoreLane(timer: SysTimer, wait: nat, lane: nat, value: nat)
    requires timer.Valid() && lane < 5 && value < RANGE
    modifies timer, timer.regs, timer.regs.q
    ensures Spec.Ran(old(timer.State()), old(timer.history), Storing(wait, lane, value), timer.State(), timer.history)
  {
    hide Spec.Step, Spec.Ran, Spec.Quiet, Decode, StoreOf, Reply, Write, WordOf;
    ghost var was, before := timer.State(), timer.history;
    Idle(timer, wait);
    ghost var mid, between := timer.State(), timer.history;
    WriteStores(lane, value);
    ghost var store := Some(Spec.Store(lane, WordOf(value)));
    ClockRuns(mid, between, store);
    timer.Clock(Some(Write(lane, value)));
    Spec.RanJoins(was, before, Spec.Quiet(wait), mid, between, [store], timer.State(), timer.history);
  }

  // ----- reading the time -----

  /** Reads the high word, the low word and the high word again until the high words agree. */
  method TimerReadMtime(timer: SysTimer, waits: nat -> nat, ghost last: nat) returns (value: nat, accesses: nat)
    requires timer.Valid() && Settles(timer.State(), waits, last)
    requires timer.State().mtime + Elapsed(waits, 3 * last + 3) < Spec.WRAP
    modifies timer, timer.regs, timer.regs.q
    ensures 3 <= accesses <= 3 * last + 3 && accesses % 3 == 0
    ensures value == Time(old(timer.State()), Instant(waits, accesses - 2))
    ensures Spec.Ran(old(timer.State()), old(timer.history), Spec.Quiet(Elapsed(waits, accesses)),
                     timer.State(), timer.history)
  {
    hide Spec.Ran, Spec.Quiet, Spec.Later, Spec.Hi, Spec.Lo, Spec.Join, Elapsed, Instant, Time, Decode;
    ghost var was, before := timer.State(), timer.history;
    var k, hi0, lo, hi1 := 0, 0, 0, 0;
    Begins(was, before, waits);
    while true
      invariant Spec.Ran(was, before, Spec.Quiet(Elapsed(waits, k)), timer.State(), timer.history)
      invariant k % 3 == 0 && k <= 3 * last
      decreases 3 * last + 3 - k
    {
      hi0, lo, hi1 := ReadThrice(timer, waits, k, was, before, 3 * last + 3);
      k := k + 3;
      if hi0 == hi1 {
        Joins(was, waits, k - 3);
        break;
      }
    }
    accesses := k;
    value := Spec.Join(hi1, lo);
  }

  /** When two iterations take under 2^32 clocks it ends within two, whatever the timer does. */
  method TimerReadMtimeTwice(timer: SysTimer, waits: nat -> nat) returns (value: nat, accesses: nat)
    requires timer.Valid() && Elapsed(waits, 6) <= RANGE && timer.State().mtime + Elapsed(waits, 6) < Spec.WRAP
    modifies timer, timer.regs, timer.regs.q
    ensures accesses == 3 || accesses == 6
    ensures value == Time(old(timer.State()), Instant(waits, accesses - 2))
    ensures Spec.Ran(old(timer.State()), old(timer.history), Spec.Quiet(Elapsed(waits, accesses)),
                     timer.State(), timer.history)
  {
    hide Spec.Ran, Elapsed, Settles, Decode, Instant, Time;
    ghost var last := SettlesWithin(timer.State(), waits);
    value, accesses := TimerReadMtime(timer, waits, last);
  }

  lemma SettlesWithin(t: Spec.Timer, waits: nat -> nat) returns (last: nat)
    requires Elapsed(waits, 6) <= RANGE
    ensures last <= 1 && Settles(t, waits, last) && Elapsed(waits, 3 * last + 3) <= Elapsed(waits, 6)
  {
    hide Settles, Elapsed;
    WithinTwoIterations(t, waits);
    ElapsedGrows(waits, 3, 6);
    last := if Settles(t, waits, 0) then 0 else 1;
  }

  lemma Begins(was: Spec.Timer, before: seq<Spec.Timer>, waits: nat -> nat)
    requires was.Ok()
    ensures Spec.Ran(was, before, Spec.Quiet(Elapsed(waits, 0)), was, before)
  {
    assert before + [] == before;
  }

  lemma Joins(was: Spec.Timer, waits: nat -> nat, k: nat)
    requires Spec.Hi(Time(was, Instant(waits, k))) == Spec.Hi(Time(was, Instant(waits, k + 2)))
    ensures Spec.Join(Spec.Hi(Time(was, Instant(waits, k + 2))), Spec.Lo(Time(was, Instant(waits, k + 1))))
            == Time(was, Instant(waits, k + 1))
  {
    ElapsedGrows(waits, k, k + 1);
    ElapsedGrows(waits, k + 1, k + 2);
    NotTorn(Time(was, Instant(waits, k)), Time(was, Instant(waits, k + 1)), Time(was, Instant(waits, k + 2)));
  }

  method ReadThrice(timer: SysTimer, waits: nat -> nat, k: nat,
                    ghost was: Spec.Timer, ghost before: seq<Spec.Timer>, ghost bound: nat)
    returns (hi0: nat, lo: nat, hi1: nat)
    requires timer.Valid() && was.Ok() && k + 2 < bound && was.mtime + Elapsed(waits, bound) < Spec.WRAP
    requires Spec.Ran(was, before, Spec.Quiet(Elapsed(waits, k)), timer.State(), timer.history)
    modifies timer, timer.regs, timer.regs.q
    ensures hi0 == Spec.Hi(Time(was, Instant(waits, k)))
    ensures lo == Spec.Lo(Time(was, Instant(waits, k + 1)))
    ensures hi1 == Spec.Hi(Time(was, Instant(waits, k + 2)))
    ensures Spec.Ran(was, before, Spec.Quiet(Elapsed(waits, k + 3)), timer.State(), timer.history)
  {
    hide Spec.Ran, Spec.Quiet, Spec.Hi, Spec.Lo, Elapsed, Decode, Instant, Time;
    hi0 := ReadNext(timer, waits, k, was, before, bound, Spec.MTIME_HI_LANE);
    lo := ReadNext(timer, waits, k + 1, was, before, bound, Spec.MTIME_LO_LANE);
    hi1 := ReadNext(timer, waits, k + 2, was, before, bound, Spec.MTIME_HI_LANE);
  }

  /** Access `k` samples the time of its instant. */
  method ReadNext(timer: SysTimer, waits: nat -> nat, k: nat,
                  ghost was: Spec.Timer, ghost before: seq<Spec.Timer>, ghost bound: nat, lane: nat)
    returns (value: nat)
    requires timer.Valid() && was.Ok() && k < bound && was.mtime + Elapsed(waits, bound) < Spec.WRAP
    requires lane == Spec.MTIME_LO_LANE || lane == Spec.MTIME_HI_LANE
    requires Spec.Ran(was, before, Spec.Quiet(Elapsed(waits, k)), timer.State(), timer.history)
    modifies timer, timer.regs, timer.regs.q
    ensures var time := Time(was, Instant(waits, k));
            value == if lane == Spec.MTIME_LO_LANE then Spec.Lo(time) else Spec.Hi(time)
    ensures Spec.Ran(was, before, Spec.Quiet(Elapsed(waits, k + 1)), timer.State(), timer.history)
  {
    hide Spec.Ran, Spec.Quiet, Spec.Hi, Spec.Lo, Spec.Later, Elapsed, Decode, Instant, Time;
    ghost var mid, between := timer.State(), timer.history;
    Sampled(was, before, waits, k, bound, mid, between);
    value := ReadLane(timer, waits(k), lane);
    Spec.RanJoins(was, before, Spec.Quiet(Elapsed(waits, k)), mid, between, Spec.Quiet(waits(k) + 1),
                  timer.State(), timer.history);
  }

  lemma Sampled(was: Spec.Timer, before: seq<Spec.Timer>, waits: nat -> nat, k: nat, bound: nat,
                mid: Spec.Timer, between: seq<Spec.Timer>)
    requires was.Ok() && k < bound && was.mtime + Elapsed(waits, bound) < Spec.WRAP
    requires Spec.Ran(was, before, Spec.Quiet(Elapsed(waits, k)), mid, between)
    ensures mid.Ok() && Spec.Later(mid, waits(k)).mtime == Time(was, Instant(waits, k))
    ensures Spec.Quiet(Elapsed(waits, k)) + Spec.Quiet(waits(k) + 1) == Spec.Quiet(Elapsed(waits, k + 1))
  {
    hide Spec.Final, Spec.States, Spec.Later;
    ElapsedGrows(waits, k + 1, bound);
    Spec.QuietStates(was, Elapsed(waits, k));
    Spec.LaterLater(was, Elapsed(waits, k), waits(k));
    Spec.LaterCounts(was, Instant(waits, k));
    Spec.QuietJoins(Elapsed(waits, k), waits(k) + 1);
  }

  // ----- arming the comparator -----

  /** At every clock, an interrupt means that the time has reached one of the two compare values. */
  ghost predicate NoSpuriousIrq(trace: seq<Spec.Timer>, before: nat, after: nat) {
    forall i: nat :: i < |trace| && trace[i].Irq() ==> trace[i].mtime >= before || trace[i].mtime >= after
  }

  /** With the low word all ones the compare value is no earlier than the one whose high word it has. */
  lemma Raised(x: nat)
    requires x < Spec.WRAP
    ensures x <= Spec.Join(Spec.Hi(x), RANGE - 1) < Spec.WRAP
  {
  }

  /** A store to a compare lane leaves the count alone. */
  lemma StoresCompare(t: Spec.Timer, lane: nat, value: nat)
    requires t.Ok() && value < RANGE && (lane == Spec.CMP_LO_LANE || lane == Spec.CMP_HI_LANE)
    ensures var cmp := if lane == Spec.CMP_LO_LANE then Spec.Join(Spec.Hi(t.cmp), value)
                       else Spec.Join(value, Spec.Lo(t.cmp));
            cmp < Spec.WRAP && Spec.Step(t, Some(Spec.Store(lane, WordOf(value)))) == Spec.Step(t, None).(cmp := cmp)
  {
    WordRoundTrip(value);
    Spec.Joined(t.cmp);
    Spec.Halves(Spec.Hi(t.cmp), value);
    Spec.Halves(value, Spec.Lo(t.cmp));
    hide Spec.Join, Spec.Hi, Spec.Lo, WordValue, WordOf;
  }

  /** The timer after a wait and a store to a compare lane. */
  function Armed(t: Spec.Timer, wait: nat, lane: nat, value: nat): (t': Spec.Timer)
    requires t.Ok() && value < RANGE
    ensures t'.Ok()
  {
    Raised(t.cmp);
    Spec.Joined(t.cmp);
    Spec.Halves(Spec.Hi(t.cmp), value);
    Spec.Halves(value, Spec.Lo(t.cmp));
    Spec.Later(t, wait + 1).(cmp := if lane == Spec.CMP_LO_LANE then Spec.Join(Spec.Hi(t.cmp), value)
                                    else Spec.Join(value, Spec.Lo(t.cmp)))
  }

  lemma StoreArms(was: Spec.Timer, wait: nat, lane: nat, value: nat)
    requires was.Ok() && value < RANGE && (lane == Spec.CMP_LO_LANE || lane == Spec.CMP_HI_LANE)
    ensures Spec.Step(Spec.Later(was, wait), Some(Spec.Store(lane, WordOf(value)))) == Armed(was, wait, lane, value)
  {
    LaterKeeps(was, wait, was.cmp);
    StoresCompare(Spec.Later(was, wait), lane, value);
    assert Spec.Later(was, wait + 1) == Spec.Step(Spec.Later(was, wait), None);
    hide Spec.Later, Spec.Step, Spec.Join, Spec.Hi, Spec.Lo, WordOf;
  }

  lemma WaitKeeps(t: Spec.Timer, n: nat)
    requires t.Ok()
    ensures forall i: nat :: i < n ==> Spec.States(t, Spec.Quiet(n))[i].cmp == t.cmp
  {
    hide Spec.Later, Spec.States, Spec.Quiet, Spec.Final;
    Spec.QuietStates(t, n);
    forall i: nat | i < n
      ensures Spec.States(t, Spec.Quiet(n))[i].cmp == t.cmp
    {
      LaterKeeps(t, i + 1, t.cmp);
    }
  }

  /** The compare value changes in the last clock of the wait only. */
  lemma StoringStates(was: Spec.Timer, wait: nat, lane: nat, value: nat)
    requires was.Ok() && value < RANGE && (lane == Spec.CMP_LO_LANE || lane == Spec.CMP_HI_LANE)
    ensures var now := Armed(was, wait, lane, value);
            && Spec.Final(was, Storing(wait, lane, value)) == now
            && NoSpuriousIrq(Spec.States(was, Storing(wait, lane, value)), was.cmp, now.cmp)
  {
    var store := Some(Spec.Store(lane, WordOf(value)));
    var quiet := Spec.States(was, Spec.Quiet(wait));
    hide Spec.Later, Spec.Step, Spec.Quiet, Armed, WordOf;
    WaitKeeps(was, wait);
    Spec.QuietStates(was, wait);
    StoreArms(was, wait, lane, value);
    Spec.Appends(was, Spec.Quiet(wait), [store]);
    LastState(Spec.Later(was, wait), store);
    hide Spec.States, Spec.Final;
    assert Spec.States(was, Storing(wait, lane, value)) == quiet + [Armed(was, wait, lane, value)];
  }

  /** Both intermediate compare values are no earlier than the old one and the new one respectively. */
  lemma ThreeStores(was: Spec.Timer, waits: nat -> nat, value: nat)
    requires was.Ok() && value < Spec.WRAP
    ensures Spec.Hi(value) < RANGE && Elapsed(waits, 3) == waits(0) + waits(1) + waits(2) + 3
    ensures var first := Armed(was, waits(0), Spec.CMP_LO_LANE, RANGE - 1);
            var second := Armed(first, waits(1), Spec.CMP_HI_LANE, Spec.Hi(value));
            && was.cmp <= first.cmp && value <= second.cmp
            && Armed(second, waits(2), Spec.CMP_LO_LANE, Spec.Lo(value))
               == Spec.Later(was, Elapsed(waits, 3)).(cmp := value)
  {
    Raised(was.cmp);
    Raised(value);
    Spec.Joined(value);
    Spec.Joined(was.cmp);
    Spec.Halves(Spec.Hi(was.cmp), RANGE - 1);
    Spec.Halves(Spec.Hi(value), RANGE - 1);
    var a, b, c := waits(0) + 1, waits(1) + 1, waits(2) + 1;
    var first := Armed(was, waits(0), Spec.CMP_LO_LANE, RANGE - 1);
    var second := Armed(first, waits(1), Spec.CMP_HI_LANE, Spec.Hi(value));
    assert Elapsed(waits, 3) == a + b + c;
    Spec.LaterLater(was, a, b);
    Spec.LaterLater(was, a + b, c);
    LaterKeeps(Spec.Later(was, a), b, first.cmp);
    LaterKeeps(Spec.Later(was, a + b), c, second.cmp);
    hide Spec.Later, Spec.Join, Spec.Hi, Spec.Lo, Elapsed;
  }

  lemma TracesJoin(first: seq<Spec.Timer>, second: seq<Spec.Timer>, third: seq<Spec.Timer>,
                   before: nat, raised: nat, moved: nat, after: nat)
    requires NoSpuriousIrq(first, before, raised) && NoSpuriousIrq(second, raised, moved)
    requires NoSpuriousIrq(third, moved, after) && before <= raised && after <= moved
    ensures NoSpuriousIrq(first + second + third, before, after)
  {
    var all := first + second + third;
    forall i: nat | i < |all| && all[i].Irq()
      ensures all[i].mtime >= before || all[i].mtime >= after
    {
      assert all[i] == if i < |first| then first[i] else if i < |first| + |second| then second[i - |first|]
                       else third[i - |first| - |second|];
    }
  }

  /** Low word all ones, then the new high word, then the new low word. */
  function Arming(waits: nat -> nat, value: nat): seq<Option<Spec.Store>>
    requires value < Spec.WRAP
  {
    Spec.Joined(value);
    Storing(waits(0), Spec.CMP_LO_LANE, RANGE - 1) + Storing(waits(1), Spec.CMP_HI_LANE, Spec.Hi(value))
    + Storing(waits(2), Spec.CMP_LO_LANE, Spec.Lo(value))
  }

  /**
   For all old and new values and any ticks between the three stores: in every clock the interrupt is high only
   if the time has reached the old or the new value, and the new one is in force at the end.
   */
  lemma ArmingIsClean(was: Spec.Timer, waits: nat -> nat, value: nat)
    requires was.Ok() && value < Spec.WRAP
    ensures |Arming(waits, value)| == Elapsed(waits, 3)
    ensures Spec.Final(was, Arming(waits, value)) == Spec.Later(was, Elapsed(waits, 3)).(cmp := value)
    ensures NoSpuriousIrq(Spec.States(was, Arming(waits, value)), was.cmp, value)
  {
    ThreeStores(was, waits, value);
    var a := Storing(waits(0), Spec.CMP_LO_LANE, RANGE - 1);
    var b := Storing(waits(1), Spec.CMP_HI_LANE, Spec.Hi(value));
    var c := Storing(waits(2), Spec.CMP_LO_LANE, Spec.Lo(value));
    assert |a| + |b| + |c| == Elapsed(waits, 3);
    hide Storing, Armed, Elapsed, Spec.Later, Spec.Final, Spec.States, Spec.Hi, Spec.Lo, NoSpuriousIrq;
    var first := Armed(was, waits(0), Spec.CMP_LO_LANE, RANGE - 1);
    var second := Armed(first, waits(1), Spec.CMP_HI_LANE, Spec.Hi(value));
    StoringStates(was, waits(0), Spec.CMP_LO_LANE, RANGE - 1);
    StoringStates(first, waits(1), Spec.CMP_HI_LANE, Spec.Hi(value));
    StoringStates(second, waits(2), Spec.CMP_LO_LANE, Spec.Lo(value));
    Spec.Appends(was, a, b);
    Spec.Appends(was, a + b, c);
    TracesJoin(Spec.States(was, a), Spec.States(first, b), Spec.States(second, c),
               was.cmp, first.cmp, second.cmp, value);
  }

  method TimerWriteMtimecmp(timer: SysTimer, waits: nat -> nat, value: nat)
    requires timer.Valid() && value < Spec.WRAP
    modifies timer, timer.regs, timer.regs.q
    ensures Spec.Ran(old(timer.State()), old(timer.history), Arming(waits, value), timer.State(), timer.history)
    ensures timer.State() == Spec.Later(old(timer.State()), Elapsed(waits, 3)).(cmp := value)
    ensures |timer.history| == |old(timer.history)| + Elapsed(waits, 3)
    ensures NoSpuriousIrq(timer.history[|old(timer.history)|..], old(timer.State()).cmp, value)
  {
    hide Spec.Later, Spec.Ran, Storing, Spec.Hi, Spec.Lo, Decode, Elapsed, NoSpuriousIrq;
    ghost var was, before := timer.State(), timer.history;
    Spec.Joined(value);
    StoreLane(timer, waits(0), Spec.CMP_LO_LANE, RANGE - 1);
    ghost var first, h1 := timer.State(), timer.history;
    StoreLane(timer, waits(1), Spec.CMP_HI_LANE, Spec.Hi(value));
    ghost var second, h2 := timer.State(), timer.history;
    StoreLane(timer, waits(2), Spec.CMP_LO_LANE, Spec.Lo(value));
    ghost var a := Storing(waits(0), Spec.CMP_LO_LANE, RANGE - 1);
    ghost var b := Storing(waits(1), Spec.CMP_HI_LANE, Spec.Hi(value));
    ghost var c := Storing(waits(2), Spec.CMP_LO_LANE, Spec.Lo(value));
    Spec.RanJoins(was, before, a, first, h1, b, second, h2);
    Spec.RanJoins(was, before, a + b, second, h2, c, timer.State(), timer.history);
    ArmingIsClean(was, waits, value);
    Recorded(was, before, Arming(waits, value), timer.State(), timer.history);
  }

  lemma Recorded(was: Spec.Timer, before: seq<Spec.Timer>, schedule: seq<Option<Spec.Store>>,
                 now: Spec.Timer, history: seq<Spec.Timer>)
    requires was.Ok() && Spec.Ran(was, before, schedule, now, history)
    ensures now == Spec.Final(was, schedule) && |history| == |before| + |schedule|
    ensures history[|before|..] == Spec.States(was, schedule)
  {
    hide Spec.Final, Spec.States;
  }

  // ----- starting the timer -----

  /** Both control bits: enable, and interrupt enable. */
  const CONTROL_BITS: nat := 3

  /** What `timer_init` does to a stopped timer, after its read. */
  function Starting(waits: nat -> nat, deadline: nat): seq<Option<Spec.Store>>
    requires deadline < Spec.WRAP
  {
    Arming(waits, deadline) + Storing(waits(3), Spec.CONTROL_LANE, CONTROL_BITS)
  }

  lemma ControlWord()
    ensures WordOf(CONTROL_BITS).b0[0] && WordOf(CONTROL_BITS).b0[1]
  {
    hide WordOf;
    LowestBits(CONTROL_BITS);
  }

  lemma LowestBits(n: nat)
    ensures WordOf(n).b0[0] == (n % 256 % 2 == 1) && WordOf(n).b0[1] == (n % 256 / 2 % 2 == 1)
  {
    hide Bits.OfValue;
    LowBits(n % 256);
  }

  lemma LowBits(n: nat)
    ensures Bits.OfValue(n, 8)[0] == (n % 2 == 1) && Bits.OfValue(n, 8)[1] == (n / 2 % 2 == 1)
  {
    assert Bits.OfValue(n, 8)[1..] == Bits.OfValue(n / 2, 7);
  }

  lemma NoInterrupt(t: Spec.Timer, schedule: seq<Option<Spec.Store>>)
    requires t.Ok() && !t.enable
    requires forall i :: 0 <= i < |schedule| && schedule[i].Some? ==> schedule[i].value.lane != Spec.CONTROL_LANE
    ensures !Spec.Final(t, schedule).enable
    ensures forall i :: 0 <= i < |schedule| ==> !Spec.States(t, schedule)[i].Irq()
    decreases |schedule|
  {
    if schedule != [] {
      NoInterrupt(Spec.Step(t, schedule[0]), schedule[1..]);
    }
  }

  /** The timer before the last store. */
  lemma ArmsStopped(was: Spec.Timer, waits: nat -> nat, deadline: nat)
    requires was.Ok() && !was.enable && deadline < Spec.WRAP
    ensures Spec.Final(was, Arming(waits, deadline) + Spec.Quiet(waits(3))) == was.(cmp := deadline)
  {
    var armed := was.(cmp := deadline);
    hide Spec.Later, Spec.Final, Spec.States, Arming, Elapsed, Spec.Quiet, NoSpuriousIrq;
    ArmingIsClean(was, waits, deadline);
    Spec.Frozen(was, Elapsed(waits, 3));
    Spec.Frozen(armed, waits(3));
    Spec.QuietStates(armed, waits(3));
    Spec.Appends(was, Arming(waits, deadline), Spec.Quiet(waits(3)));
  }

  lemma ArmingIsNoControl(waits: nat -> nat, deadline: nat)
    requires deadline < Spec.WRAP
    ensures forall i :: 0 <= i < |Arming(waits, deadline)| && Arming(waits, deadline)[i].Some? ==>
              Arming(waits, deadline)[i].value.lane != Spec.CONTROL_LANE
  {
    hide WordOf;
  }

  /**
   A timer that is stopped stays silent through all the stores; the last one starts it with its time as it was
   and the deadline in force.
   */
  lemma StartingIsSilent(was: Spec.Timer, waits: nat -> nat, deadline: nat)
    requires was.Ok() && !was.enable && was.mtime < deadline < Spec.WRAP
    ensures Spec.Final(was, Starting(waits, deadline))
            == was.(enable := true, irqEnable := true, cmp := deadline)
    ensures forall i: nat :: i < |Starting(waits, deadline)| ==> !Spec.States(was, Starting(waits, deadline))[i].Irq()
  {
    var a, wait := Arming(waits, deadline), Spec.Quiet(waits(3));
    var store := Some(Spec.Store(Spec.CONTROL_LANE, WordOf(CONTROL_BITS)));
    ControlWord();
    hide Spec.Later, Spec.Final, Spec.States, Arming, WordOf, Elapsed;
    ArmsStopped(was, waits, deadline);
    ArmingIsNoControl(waits, deadline);
    NoInterrupt(was, a + wait);
    Spec.Appends(was, a + wait, [store]);
    LastState(was.(cmp := deadline), store);
    assert Starting(waits, deadline) == a + wait + [store];
  }

  // ----- the interrupt -----

  class Firmware {
    var timerInterruptCount: nat
    var printDue: bool

    constructor ()
      ensures timerInterruptCount == 0 && !printDue
    {
      timerInterruptCount, printDue := 0, false;
    }

    /** Starts a stopped timer: the first deadline, then both control bits. */
    method TimerInit(timer: SysTimer, waits: nat -> nat)
      requires timer.Valid() && !timer.State().enable && timer.State().mtime + Elapsed(waits, 3) + PERIOD < Spec.WRAP
      modifies timer, timer.regs, timer.regs.q
      ensures var was := old(timer.State());
              timer.State() == was.(enable := true, irqEnable := true, cmp := was.mtime + PERIOD)
      ensures |timer.history| == |old(timer.history)| + Elapsed(waits, 7)
      ensures forall i :: |old(timer.history)| <= i < |timer.history| ==> !timer.history[i].Irq()
    {
      hide Spec.Ran, Spec.Quiet, Arming, Storing, Spec.Later, Elapsed, Instant, Decode;
      ghost var was, before := timer.State(), timer.history;
      ghost var rest, deadline := From(waits, 3), was.mtime + PERIOD;
      StoppedReads(was, waits);
      var mtime, accesses := TimerReadMtime(timer, waits, 0);
      ghost var mid, between := timer.State(), timer.history;
      TimerWriteMtimecmp(timer, From(waits, 3), (mtime + PERIOD) % Spec.WRAP);
      ghost var armed, armedHistory := timer.State(), timer.history;
      StoreLane(timer, waits(6), Spec.CONTROL_LANE, CONTROL_BITS);
      Spec.RanJoins(mid, between, Arming(rest, deadline), armed, armedHistory,
                    Storing(rest(3), Spec.CONTROL_LANE, CONTROL_BITS), timer.State(), timer.history);
      StartingIsSilent(was, rest, deadline);
      Started(was, before, waits, deadline, mid, between, timer.State(), timer.history);
    }

    /** Programs the next deadline: `PERIOD` ticks after the instant the low word was read. */
    method MachineTimerHandler(timer: SysTimer, waits: nat -> nat, ghost last: nat) returns (accesses: nat)
      requires timer.Valid() && Settles(timer.State(), waits, last)
      requires timer.State().mtime + Elapsed(waits, 3 * last + 6) + PERIOD < Spec.WRAP
      modifies this, timer, timer.regs, timer.regs.q
      ensures timerInterruptCount == (old(timerInterruptCount) + 1) % RANGE && printDue
      ensures 3 <= accesses <= 3 * last + 3
      ensures var was := old(timer.State());
              var deadline := Time(was, Instant(waits, accesses - 2)) + PERIOD;
              && deadline < Spec.WRAP
              && Spec.Ran(was, old(timer.history), Handling(waits, accesses, deadline), timer.State(), timer.history)
              && timer.State() == was.(mtime := Time(was, Elapsed(waits, accesses + 3)), cmp := deadline)
              && |timer.history| == |old(timer.history)| + Elapsed(waits, accesses + 3)
              && NoSpuriousIrq(timer.history[|old(timer.history)|..], was.cmp, deadline)
    {
      hide Spec.Ran, Spec.Quiet, Arming, Spec.Later, Elapsed, Instant, Time, NoSpuriousIrq, Decode, Settles;
      timerInterruptCount := (timerInterruptCount + 1) % RANGE;
      printDue := true;
      ghost var was, before := timer.State(), timer.history;
      ElapsedGrows(waits, 3 * last + 3, 3 * last + 6);
      var mtime;
      mtime, accesses := TimerReadMtime(timer, waits, last);
      ghost var mid, between := timer.State(), timer.history;
      Rearms(was, waits, accesses, 3 * last + 6);
      TimerWriteMtimecmp(timer, From(waits, accesses), (mtime + PERIOD) % Spec.WRAP);
      Spec.RanJoins(was, before, Spec.Quiet(Elapsed(waits, accesses)), mid, between,
                    Arming(From(waits, accesses), mtime + PERIOD), timer.State(), timer.history);
      HandlingIsClean(was, waits, accesses, mtime + PERIOD);
      Recorded(was, before, Handling(waits, accesses, mtime + PERIOD), timer.State(), timer.history);
      HandlingEnds(was, waits, accesses, 3 * last + 6);
    }
  }

  lemma StoppedReads(was: Spec.Timer, waits: nat -> nat)
    requires was.Ok() && !was.enable
    ensures Settles(was, waits, 0) && Time(was, Instant(waits, 1)) == was.mtime
  {
  }

  /** The silent reads and the silent stores together. */
  lemma Started(was: Spec.Timer, before: seq<Spec.Timer>, waits: nat -> nat, deadline: nat,
                mid: Spec.Timer, between: seq<Spec.Timer>, now: Spec.Timer, history: seq<Spec.Timer>)
    requires was.Ok() && !was.enable && was.mtime < deadline < Spec.WRAP
    requires Spec.Ran(was, before, Spec.Quiet(Elapsed(waits, 3)), mid, between)
    requires mid.Ok() && Spec.Ran(mid, between, Starting(From(waits, 3), deadline), now, history)
    ensures now == was.(enable := true, irqEnable := true, cmp := deadline)
    ensures |history| == |before| + Elapsed(waits, 7)
    ensures forall i :: |before| <= i < |history| ==> !history[i].Irq()
  {
    var rest := From(waits, 3);
    assert |Starting(rest, deadline)| == Elapsed(waits, 7) - Elapsed(waits, 3) by {
      StartingLength(waits, deadline);
    }
    hide Elapsed, Starting, Spec.Final, Spec.States, From;
    Spec.QuietStates(was, Elapsed(waits, 3));
    Spec.Frozen(was, Elapsed(waits, 3));
    StartingIsSilent(was, rest, deadline);
    SilentQuiet(was, Elapsed(waits, 3));
  }

  lemma SilentQuiet(was: Spec.Timer, n: nat)
    requires was.Ok() && !was.enable
    ensures forall i: nat :: i < n ==> !Spec.States(was, Spec.Quiet(n))[i].Irq()
  {
    NoInterrupt(was, Spec.Quiet(n));
  }

  lemma StartingLength(waits: nat -> nat, deadline: nat)
    requires deadline < Spec.WRAP
    ensures |Starting(From(waits, 3), deadline)| == Elapsed(waits, 7) - Elapsed(waits, 3)
  {
    hide Arming, From, Elapsed, Spec.States, Spec.Final, Spec.Later, NoSpuriousIrq;
    ArmingIsClean(Spec.Timer(false, false, 0, 0), From(waits, 3), deadline);
    ElapsedFrom(waits, 3, 4);
    FourthAccess(From(waits, 3));
  }

  lemma FourthAccess(waits: nat -> nat)
    ensures Elapsed(waits, 4) == Elapsed(waits, 3) + waits(3) + 1
  {
  }

  lemma {:induction false} ElapsedFrom(waits: nat -> nat, k: nat, n: nat)
    ensures Elapsed(waits, k) + Elapsed(From(waits, k), n) == Elapsed(waits, k + n)
  {
    if n > 0 {
      ElapsedFrom(waits, k, n - 1);
    }
  }

  /** From a started timer the first interrupt comes exactly one period later. */
  lemma FirstInterrupt(was: Spec.Timer, n: nat)
    requires was.Ok() && was.mtime + PERIOD + n < Spec.WRAP
    ensures Spec.Later(was.(enable := true, irqEnable := true, cmp := was.mtime + PERIOD), n).Irq() <==> n >= PERIOD
  {
    Spec.NextInterrupt(was.(enable := true, irqEnable := true, cmp := was.mtime + PERIOD), n);
  }

  /** The read loop and the three stores. */
  function Handling(waits: nat -> nat, accesses: nat, deadline: nat): seq<Option<Spec.Store>>
    requires deadline < Spec.WRAP
  {
    Spec.Quiet(Elapsed(waits, accesses)) + Arming(From(waits, accesses), deadline)
  }

  /** From the first clock of the read loop to the last store no interrupt is spurious. */
  lemma HandlingIsClean(was: Spec.Timer, waits: nat -> nat, accesses: nat, deadline: nat)
    requires was.Ok() && deadline < Spec.WRAP
    ensures |Handling(waits, accesses, deadline)| == Elapsed(waits, accesses + 3)
    ensures Spec.Final(was, Handling(waits, accesses, deadline))
            == Spec.Later(was, Elapsed(waits, accesses + 3)).(cmp := deadline)
    ensures NoSpuriousIrq(Spec.States(was, Handling(waits, accesses, deadline)), was.cmp, deadline)
  {
    var n, rest := Elapsed(waits, accesses), From(waits, accesses);
    var quiet := Spec.Quiet(n);
    Continues(was, waits, accesses);
    hide Spec.Later, Spec.Final, Spec.States, Spec.Quiet, Arming, Elapsed, From;
    Spec.QuietStates(was, n);
    LaterKeeps(was, n, was.cmp);
    WaitKeeps(was, n);
    ArmingIsClean(Spec.Later(was, n), rest, deadline);
    Spec.Appends(was, quiet, Arming(rest, deadline));
    TracesJoin(Spec.States(was, quiet), Spec.States(Spec.Later(was, n), Arming(rest, deadline)), [],
               was.cmp, was.cmp, deadline, deadline);
    assert Spec.States(was, quiet) + Spec.States(Spec.Later(was, n), Arming(rest, deadline)) + []
           == Spec.States(was, quiet + Arming(rest, deadline));
  }

  lemma Continues(was: Spec.Timer, waits: nat -> nat, accesses: nat)
    requires was.Ok()
    ensures Spec.Later(Spec.Later(was, Elapsed(waits, accesses)), Elapsed(From(waits, accesses), 3))
            == Spec.Later(was, Elapsed(waits, accesses + 3))
    ensures Elapsed(waits, accesses) + Elapsed(From(waits, accesses), 3) == Elapsed(waits, accesses + 3)
  {
    var rest := From(waits, accesses);
    hide Elapsed, From;
    ElapsedFrom(waits, accesses, 3);
    Spec.LaterLater(was, Elapsed(waits, accesses), Elapsed(rest, 3));
  }

  /** The deadline fits in 64 bits. */
  lemma Rearms(was: Spec.Timer, waits: nat -> nat, accesses: nat, bound: nat)
    requires was.Ok() && 3 <= accesses && accesses + 3 <= bound
    requires was.mtime + Elapsed(waits, bound) + PERIOD < Spec.WRAP
    ensures Time(was, Instant(waits, accesses - 2)) + PERIOD < Spec.WRAP
  {
    assert Elapsed(waits, accesses - 1) == Instant(waits, accesses - 2) + 1;
    hide Elapsed, Instant;
    ElapsedGrows(waits, accesses - 1, bound);
  }

  lemma HandlingEnds(was: Spec.Timer, waits: nat -> nat, accesses: nat, bound: nat)
    requires was.Ok() && accesses + 3 <= bound && was.mtime + Elapsed(waits, bound) < Spec.WRAP
    ensures Spec.Later(was, Elapsed(waits, accesses + 3)) == was.(mtime := Time(was, Elapsed(waits, accesses + 3)))
  {
    hide Elapsed, Spec.Later;
    ElapsedGrows(waits, accesses + 3, bound);
    Spec.LaterCounts(was, Elapsed(waits, accesses + 3));
  }

  /**
   `n` clocks after the handler ends the interrupt is high exactly if a period has passed since its low-word
   read: with `n == 0`, it leaves the line low exactly when it ends within a period of that read.
   */
  lemma NextPeriod(was: Spec.Timer, now: Spec.Timer, waits: nat -> nat, accesses: nat, n: nat)
    requires 3 <= accesses && was.Ok() && now.Ok() && was.enable && was.irqEnable && now.mtime + n < Spec.WRAP
    requires now == was.(mtime := Time(was, Elapsed(waits, accesses + 3)),
                         cmp := Time(was, Instant(waits, accesses - 2)) + PERIOD)
    ensures Spec.Later(now, n).Irq()
            <==> Elapsed(waits, accesses + 3) + n >= Instant(waits, accesses - 2) + PERIOD
  {
    Spec.NextInterrupt(now, n);
  }
}
