/** The 64-bit machine timer as two numbers. */
module TimerSpec {
  import opened Obi
  import opened Words

  const WRAP := 0x1_0000_0000_0000_0000

  const CONTROL_LANE: nat := 0
  const MTIME_LO_LANE: nat := 1
  const MTIME_HI_LANE: nat := 2
  const CMP_LO_LANE: nat := 3
  const CMP_HI_LANE: nat := 4

  function Join(hi: nat, lo: nat): nat {
    hi * 0x1_0000_0000 + lo
  }

  function Hi(x: nat): nat {
    x / 0x1_0000_0000
  }

  function Lo(x: nat): (lo: nat)
    ensures lo < RANGE
  {
    x % 0x1_0000_0000
  }

  function Next(x: nat): (y: nat)
    requires x < WRAP
    ensures y < WRAP
  {
    if x + 1 == WRAP then 0 else x + 1
  }

  lemma Halves(hi: nat, lo: nat)
    requires hi < RANGE && lo < RANGE
    ensures Join(hi, lo) < WRAP && Hi(Join(hi, lo)) == hi && Lo(Join(hi, lo)) == lo
  {
  }

  lemma Joined(x: nat)
    requires x < WRAP
    ensures Hi(x) < RANGE && Join(Hi(x), Lo(x)) == x
  {
  }

  datatype Timer = Timer(enable: bool, irqEnable: bool, mtime: nat, cmp: nat) {
    predicate Ok() {
      mtime < WRAP && cmp < WRAP
    }

    predicate Irq() {
      irqEnable && enable && mtime >= cmp
    }
  }

  /** A full-word software write. */
  datatype Store = Store(lane: nat, word: Word)

  /** One clock. A store to either half of the time takes the place of that clock's tick. */
  function Step(t: Timer, store: Option<Store>): (t': Timer)
    requires t.Ok()
    ensures t'.Ok()
  {
    var ticked := if t.enable then t.(mtime := Next(t.mtime)) else t;
    if store.None? then ticked
    else
      var value := WordValue(store.value.word);
      var lane := store.value.lane;
      if lane == CONTROL_LANE then
        ticked.(enable := store.value.word.b0[0], irqEnable := store.value.word.b0[1])
      else if lane == MTIME_LO_LANE then
        Joined(t.mtime); Halves(Hi(t.mtime), value);
        t.(mtime := Join(Hi(t.mtime), value))
      else if lane == MTIME_HI_LANE then
        Joined(t.mtime); Halves(value, Lo(t.mtime));
        t.(mtime := Join(value, Lo(t.mtime)))
      else if lane == CMP_LO_LANE then
        Joined(t.cmp); Halves(Hi(t.cmp), value);
        ticked.(cmp := Join(Hi(t.cmp), value))
      else if lane == CMP_HI_LANE then
        Joined(t.cmp); Halves(value, Lo(t.cmp));
        ticked.(cmp := Join(value, Lo(t.cmp)))
      else ticked
  }

  /** The timer after `n` clocks with no store. */
  function Later(t: Timer, n: nat): (t': Timer)
    requires t.Ok()
    ensures t'.Ok()
  {
    if n == 0 then t else Step(Later(t, n - 1), None)
  }

  lemma {:induction false} LaterCounts(t: Timer, n: nat)
    requires t.Ok() && t.mtime + n < WRAP
    ensures Later(t, n) == if t.enable then t.(mtime := t.mtime + n) else t
  {
    if n > 0 {
      LaterCounts(t, n - 1);
    }
  }

  lemma {:induction false} LaterLater(t: Timer, n: nat, m: nat)
    requires t.Ok()
    ensures Later(Later(t, n), m) == Later(t, n + m)
  {
    if m > 0 {
      LaterLater(t, n, m - 1);
    }
  }

  /** With no stores the interrupt rises exactly when the time reaches the compare value, if both bits are set. */
  lemma NextInterrupt(t: Timer, n: nat)
    requires t.Ok() && t.mtime + n < WRAP
    ensures Later(t, n).Irq() <==> t.enable && t.irqEnable && t.mtime + n >= t.cmp
  {
    LaterCounts(t, n);
  }

  /** A timer that is not enabled stands still and never interrupts. */
  lemma {:induction false} Frozen(t: Timer, n: nat)
    requires t.Ok() && !t.enable
    ensures Later(t, n) == t && !t.Irq()
  {
    if n > 0 {
      Frozen(t, n - 1);
    }
  }

  /** The half of a 64-bit register that a lane holds. */
  function LaneOf(t: Timer, lane: nat): nat
    requires 1 <= lane < 5
  {
    if lane == MTIME_LO_LANE then Lo(t.mtime) else if lane == MTIME_HI_LANE then Hi(t.mtime)
    else if lane == CMP_LO_LANE then Lo(t.cmp) else Hi(t.cmp)
  }

  /** A store replaces one half and leaves the others as without it; one to the time displaces that clock's tick. */
  lemma StoreReplacesHalf(t: Timer, lane: nat, word: Word, other: nat)
    requires t.Ok() && 1 <= lane < 5 && 1 <= other < 5
    ensures var t' := Step(t, Some(Store(lane, word)));
            && t'.enable == t.enable && t'.irqEnable == t.irqEnable
            && LaneOf(t', lane) == WordValue(word)
            && (other != lane ==> LaneOf(t', other) == LaneOf(if lane <= 2 then t else Step(t, None), other))
  {
    Halves(Hi(t.mtime), WordValue(word));
    Halves(WordValue(word), Lo(t.mtime));
    Halves(Hi(t.cmp), WordValue(word));
    Halves(WordValue(word), Lo(t.cmp));
    Joined(t.mtime);
    Joined(t.cmp);
    hide WordValue, Join, Hi, Lo;
  }

  // ----- stores on a schedule -----

  function Quiet(n: nat): (schedule: seq<Option<Store>>)
    ensures |schedule| == n
  {
    seq(n, _ => None)
  }

  /** The timer after a clock for each entry of the schedule. */
  function Final(t: Timer, schedule: seq<Option<Store>>): (t': Timer)
    requires t.Ok()
    ensures t'.Ok()
    decreases |schedule|
  {
    if schedule == [] then t else Final(Step(t, schedule[0]), schedule[1..])
  }

  /** The timer after each of those clocks. */
  function States(t: Timer, schedule: seq<Option<Store>>): (states: seq<Timer>)
    requires t.Ok()
    ensures |states| == |schedule|
    decreases |schedule|
  {
    if schedule == [] then [] else var next := Step(t, schedule[0]); [next] + States(next, schedule[1..])
  }

  /** A timer with history `before` has gone through the schedule and recorded every clock of it. */
  ghost predicate Ran(was: Timer, before: seq<Timer>, schedule: seq<Option<Store>>, now: Timer, history: seq<Timer>)
    requires was.Ok()
  {
    now == Final(was, schedule) && history == before + States(was, schedule)
  }

  lemma {:induction false} Appends(t: Timer, a: seq<Option<Store>>, b: seq<Option<Store>>)
    requires t.Ok()
    ensures Final(t, a + b) == Final(Final(t, a), b)
    ensures States(t, a + b) == States(t, a) + States(Final(t, a), b)
    decreases |a|
  {
    hide Step;
    if a == [] {
      assert a + b == b;
    } else {
      Appends(Step(t, a[0]), a[1..], b);
      assert (a + b)[1..] == a[1..] + b;
    }
  }

  lemma RanJoins(was: Timer, before: seq<Timer>, a: seq<Option<Store>>, mid: Timer, between: seq<Timer>,
                 b: seq<Option<Store>>, now: Timer, history: seq<Timer>)
    requires was.Ok() && mid.Ok() && Ran(was, before, a, mid, between) && Ran(mid, between, b, now, history)
    ensures Ran(was, before, a + b, now, history)
  {
    Appends(was, a, b);
    hide Final, States;
  }

  lemma QuietJoins(m: nat, n: nat)
    ensures Quiet(m) + Quiet(n) == Quiet(m + n)
  {
  }

  lemma {:induction false} QuietStates(t: Timer, n: nat)
    requires t.Ok()
    ensures Final(t, Quiet(n)) == Later(t, n)
    ensures forall i: nat :: i < n ==> States(t, Quiet(n))[i] == Later(t, i + 1)
  {
    hide Step;
    if n > 0 {
      QuietStates(t, n - 1);
      assert Quiet(n) == Quiet(n - 1) + [None];
      Appends(t, Quiet(n - 1), [None]);
    }
  }
}
