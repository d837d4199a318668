/** The firmware's stability interrupt: read the status, raise the flags, acknowledge what was read. */
module PidFirmware {
  import opened Bits
  import opened Obi
  import opened RegFile
  import opened Spec = PidStatus
  import opened Peripherals = ObiPid

  const ALL_LANES := Enables(true, true, true, true)

  /** The positions the peripheral sees, clock by clock. */
  datatype World = World(pvX: nat -> int, pvY: nat -> int) {
    function At(n: nat, req: Option<Request>): Input {
      Input(req, pvX(n), pvY(n))
    }

    /** Clocks `start` to `start + n - 1` without an access. */
    function Idle(start: nat, n: nat): (inputs: seq<Input>)
      ensures |inputs| == n && forall i: nat :: i < n ==> inputs[i] == At(start + i, None)
    {
      if n == 0 then [] else Idle(start, n - 1) + [At(start + n - 1, None)]
    }
  }

  const LOAD_STATUS := Request(0, false, ALL_LANES, ZERO)

  function StoreStatus(word: Word): Request {
    Request(0, true, ALL_LANES, word)
  }

  /** A word with the two stability bits and nothing else. */
  function StatusWord(x: bool, y: bool): Word {
    ZERO.(b0 := CLEAR[0 := x][1 := y])
  }

  // ----- runs in pieces -----

  lemma {:induction false} AfterPrefix(p: Peripheral, a: seq<Input>, b: seq<Input>, n: nat)
    requires p.Ok() && n <= |a|
    ensures After(p, a + b, n) == After(p, a, n)
  {
    hide Spec.Step;
    if n > 0 {
      AfterPrefix(p, a, b, n - 1);
    }
  }

  lemma {:induction false} AfterJoin(p: Peripheral, a: seq<Input>, b: seq<Input>, n: nat)
    requires p.Ok() && n <= |b|
    ensures After(p, a + b, |a| + n) == After(After(p, a, |a|), b, n)
  {
    hide Spec.Step;
    if n == 0 {
      AfterPrefix(p, a, b, |a|);
    } else {
      AfterJoin(p, a, b, n - 1);
      assert (a + b)[|a| + n - 1] == b[n - 1];
    }
  }

  // ----- single accesses -----

  lemma StatusAccess(p: Peripheral, word: Word, name: AxisName)
    requires p.Ok()
    ensures Reply(CONFIG, p.regs, LOAD_STATUS).rdata == p.regs[0]
    ensures !Acks(Some(LOAD_STATUS), name) && !Acks(None, name)
    ensures Acks(Some(StoreStatus(word)), name) <==> (if name.X? then word.b0[0] else word.b0[1])
  {
    assert Power2(8) == 256 by {
      assert Power2(4) == 16;
    }
    assert WordIndex(CONFIG, 0) == 0;
    hide WordIndex;
  }

  /** The bus activity of one handler call: what it acknowledges is what it read. */
  function Served(world: World, before: nat, between: nat, x: bool, y: bool): seq<Input> {
    world.Idle(0, before) + [world.At(before, Some(LOAD_STATUS))] + world.Idle(before + 1, between)
    + if x || y then [world.At(before + 1 + between, Some(StoreStatus(StatusWord(x, y))))] else []
  }

  /** The status bit of an axis when the handler reads it, `before` clocks after it was entered. */
  predicate ReadBit(p: Peripheral, world: World, before: nat, name: AxisName)
    requires p.Ok()
  {
    After(p, world.Idle(0, before), before).Bit(name)
  }

  function Handling(p: Peripheral, world: World, before: nat, between: nat): seq<Input>
    requires p.Ok()
  {
    Served(world, before, between, ReadBit(p, world, before, X), ReadBit(p, world, before, Y))
  }

  lemma IdleStep(p: Peripheral, world: World, start: nat, n: nat)
    requires p.Ok()
    ensures After(p, world.Idle(start, 0), 0) == p
    ensures After(p, world.Idle(start, n + 1), n + 1)
            == Spec.Step(After(p, world.Idle(start, n), n), world.At(start + n, None))
  {
    hide Spec.Step;
    AfterPrefix(p, world.Idle(start, n), [world.At(start + n, None)], n);
  }

  lemma AccessStep(p: Peripheral, inputs: seq<Input>, i: Input)
    requires p.Ok()
    ensures After(p, inputs + [i], |inputs| + 1) == Spec.Step(After(p, inputs, |inputs|), i)
  {
    hide Spec.Step;
    AfterPrefix(p, inputs, [i], |inputs|);
  }

  class Firmware {
    var stableX: bool
    var stableY: bool

    /** `n` clocks with no access. */
    method Idle(pid: ObiPid, world: World, start: nat, n: nat)
      requires pid.Valid()
      modifies pid, pid.regs, pid.regs.q, pid.pidX, pid.pidY
      ensures pid.Valid() && pid.State() == After(old(pid.State()), world.Idle(start, n), n)
    {
      hide Spec.Step, Reply, After, World.Idle;
      ghost var was := pid.State();
      IdleStep(was, world, start, 0);
      if n > 0 {
        IdleStep(was, world, start, n - 1);
        Idle(pid, world, start, n - 1);
        pid.Clock(world.At(start + n - 1, None));
      }
    }

    method ReadStatus(pid: ObiPid, i: Input) returns (x: bool, y: bool)
      requires pid.Valid() && i.req == Some(LOAD_STATUS)
      modifies pid, pid.regs, pid.regs.q, pid.pidX, pid.pidY
      ensures pid.Valid() && pid.State() == Spec.Step(old(pid.State()), i)
      ensures x == old(pid.State().Bit(X)) && y == old(pid.State().Bit(Y))
    {
      StatusAccess(pid.State(), ZERO, X);
      hide Spec.Step, Reply;
      pid.Clock(i);
      x, y := pid.regs.rdata.b0[0], pid.regs.rdata.b0[1];
    }

    method PidInterruptHandler(pid: ObiPid, world: World, before: nat, between: nat)
      requires pid.Valid()
      modifies this, pid, pid.regs, pid.regs.q, pid.pidX, pid.pidY
      ensures pid.Valid()
      ensures var was := old(pid.State());
              var inputs := Handling(was, world, before, between);
              && pid.State() == After(was, inputs, |inputs|)
              && stableX == (old(stableX) || ReadBit(was, world, before, X))
              && stableY == (old(stableY) || ReadBit(was, world, before, Y))
    {
      hide Spec.Step, Reply, After, World.Idle;
      ghost var was := pid.State();
      Idle(pid, world, 0, before);
      var statusX, statusY := ReadStatus(pid, world.At(before, Some(LOAD_STATUS)));
      HandlerRun(was, world, before, between, statusX, statusY);
      Idle(pid, world, before + 1, between);
      if statusX {
        stableX := true;
      }
      if statusY {
        stableY := true;
      }
      if statusX || statusY {
        pid.Clock(world.At(before + 1 + between, Some(StoreStatus(StatusWord(statusX, statusY)))));
      }
    }
  }

  lemma HandlerRun(was: Peripheral, world: World, before: nat, between: nat, x: bool, y: bool)
    requires was.Ok()
    ensures var inputs := Served(world, before, between, x, y);
            var first := After(was, world.Idle(0, before), before);
            var read := Spec.Step(first, world.At(before, Some(LOAD_STATUS)));
            var waited := After(read, world.Idle(before + 1, between), between);
            && After(was, inputs, before) == first
            && After(was, inputs, |inputs|)
               == if x || y then Spec.Step(waited, world.At(before + 1 + between, Some(StoreStatus(StatusWord(x, y)))))
                  else waited
  {
    hide Spec.Step, After, World.Idle, StatusWord;
    var a := world.Idle(0, before);
    var load := [world.At(before, Some(LOAD_STATUS))];
    var b := world.Idle(before + 1, between);
    var store := if x || y then [world.At(before + 1 + between, Some(StoreStatus(StatusWord(x, y))))] else [];
    AfterPrefix(was, a, load + b + store, before);
    assert a + load + b + store == a + (load + b + store);
    AccessStep(was, a, load[0]);
    AfterJoin(was, a + load, b, between);
    if x || y {
      AccessStep(was, a + load + b, store[0]);
    } else {
      assert a + load + b + store == a + load + b;
    }
  }

  // ----- no event is lost -----

  function Named(name: AxisName, x: bool, y: bool): bool {
    if name.X? then x else y
  }

  /** Only the last access acknowledges, and it names what was read. */
  lemma ServedAcks(world: World, before: nat, between: nat, x: bool, y: bool, name: AxisName, j: nat)
    requires j < |Served(world, before, between, x, y)|
    ensures Acks(Served(world, before, between, x, y)[j].req, name) <==> j == before + 1 + between && Named(name, x, y)
  {
    StatusAccess(Spec.RESET, StatusWord(x, y), name);
    hide Acks, World.Idle;
    var a, b := world.Idle(0, before), world.Idle(before + 1, between);
    var inputs := Served(world, before, between, x, y);
    assert inputs[j].req == if j == before then Some(LOAD_STATUS)
                            else if j == before + 1 + between then Some(StoreStatus(StatusWord(x, y))) else None;
  }

  /**
   After the handler an axis is flagged or its status bit is still set exactly if it was so before, or an event
   happened during the handler: none is lost, wherever it falls between or on the two accesses, and none is
   invented.
   */
  lemma NoEventLost(p: Peripheral, world: World, before: nat, between: nat, name: AxisName, flag: bool)
    requires p.Ok()
    ensures var inputs := Handling(p, world, before, between);
            flag || ReadBit(p, world, before, name) || After(p, inputs, |inputs|).Bit(name)
            <==> flag || p.Bit(name) || exists k: nat :: k < |inputs| && EventAt(p, inputs, name, k)
  {
    hide Served, After, EventAt, Acks, ReadBit, Named;
    var x, y := ReadBit(p, world, before, X), ReadBit(p, world, before, Y);
    var inputs := Served(world, before, between, x, y);
    assert inputs == Handling(p, world, before, between);
    ReadInRun(p, world, before, between, x, y, name);
    BitHistory(p, inputs, name, before);
    BitHistory(p, inputs, name, |inputs|);
    if ReadBit(p, world, before, name) {
      PendingCame(p, inputs, name, before);
    } else {
      NoneAcknowledged(p, world, before, between, name);
      PendingUnacked(p, inputs, name);
    }
  }

  /** What is pending was there at the start or came since. */
  lemma PendingCame(p: Peripheral, inputs: seq<Input>, name: AxisName, n: nat)
    requires p.Ok() && n <= |inputs| && Pending(p, inputs, name, n)
    ensures p.Bit(name) || exists k: nat :: k < |inputs| && EventAt(p, inputs, name, k)
  {
    hide EventAt, Unacked, Peripheral.Bit;
    if !p.Bit(name) {
      var k: nat :| k < n && EventAt(p, inputs, name, k) && Unacked(inputs, name, k, n);
      assert k < |inputs|;
    }
  }

  /** Without acknowledgements everything that came is pending. */
  lemma PendingUnacked(p: Peripheral, inputs: seq<Input>, name: AxisName)
    requires p.Ok() && Unacked(inputs, name, 0, |inputs|)
    ensures Pending(p, inputs, name, |inputs|)
            <==> p.Bit(name) || exists k: nat :: k < |inputs| && EventAt(p, inputs, name, k)
  {
    hide EventAt, Acks, Peripheral.Bit;
    forall k: nat | k < |inputs|
      ensures Unacked(inputs, name, k, |inputs|)
    {
    }
    hide Unacked;
    if exists k: nat :: k < |inputs| && EventAt(p, inputs, name, k) {
      var k: nat :| k < |inputs| && EventAt(p, inputs, name, k);
      assert Unacked(inputs, name, k, |inputs|);
    }
  }

  lemma NoneAcknowledged(p: Peripheral, world: World, before: nat, between: nat, name: AxisName)
    requires p.Ok() && !ReadBit(p, world, before, name)
    ensures Unacked(Handling(p, world, before, between), name, 0, |Handling(p, world, before, between)|)
  {
    hide Served, ReadBit, Acks;
    var x, y := ReadBit(p, world, before, X), ReadBit(p, world, before, Y);
    var inputs := Served(world, before, between, x, y);
    assert !Named(name, x, y);
    forall j: nat | j < |inputs|
      ensures !Acks(inputs[j].req, name)
    {
      ServedAcks(world, before, between, x, y, name, j);
    }
  }

  lemma ReadInRun(p: Peripheral, world: World, before: nat, between: nat, x: bool, y: bool, name: AxisName)
    requires p.Ok()
    ensures var inputs := Served(world, before, between, x, y);
            before < |inputs| && ReadBit(p, world, before, name) == After(p, inputs, before).Bit(name)
  {
    HandlerRun(p, world, before, between, x, y);
    hide After, World.Idle;
  }
}
