/**
 When the firmware sends what, from boot, told by the bytes it is given, the timer ticks and the stability events
 alone: the positions, the stability message and the version.
 */
module Messages {
  import opened Obi
  import opened Commands
  import opened MainLoop

  datatype Axis = X | Y

  /** The program as `main` starts it, over any register values. */
  function Boot(regs: Registers): State {
    State([], Board(regs, Flags(false, false, false, true, true), []))
  }

  function At(regs: Registers, inputs: seq<Input>, n: nat): (s: State)
    requires n <= |inputs|
    ensures s.Ok()
  {
    if n == 0 then Boot(regs) else LoopStep(At(regs, inputs, n - 1), inputs[n - 1])
  }

  // ----- what the host asked for, from the bytes -----

  function Pending(inputs: seq<Input>, n: nat): (pending: seq<U8>)
    requires n <= |inputs|
    ensures Partial(pending)
  {
    if n == 0 then []
    else if inputs[n - 1].byte.None? then Pending(inputs, n - 1)
    else Feed(Pending(inputs, n - 1), inputs[n - 1].byte.value).0
  }

  /** The command that the next byte completes. */
  function CommandOf(pending: seq<U8>, byte: Option<U8>): Option<Command>
    requires Partial(pending)
  {
    if byte.None? then None
    else
      var frame := Feed(pending, byte.value).1;
      if frame.None? then None else Decode(frame.value)
  }

  /** The command completed by the byte of pass `n`. */
  function Commanded(inputs: seq<Input>, n: nat): Option<Command>
    requires n < |inputs|
  {
    CommandOf(Pending(inputs, n), inputs[n].byte)
  }

  function Location(a: Axis): U8 {
    if a.X? then 0 else 1
  }

  function Initial(regs: Registers, a: Axis): U32 {
    if a.X? then regs.setpointX else regs.setpointY
  }

  /** The set point in force before pass `n`: the last one set, or zero since a reset of the position. */
  function SetPoint(regs: Registers, inputs: seq<Input>, a: Axis, n: nat): U32
    requires n <= |inputs|
  {
    if n == 0 then Initial(regs, a)
    else match Commanded(inputs, n - 1)
      case Some(ResetPosition) => 0
      case Some(Set(loc, value)) => if loc == Location(a) then value else SetPoint(regs, inputs, a, n - 1)
      case _ => SetPoint(regs, inputs, a, n - 1)
  }

  /** Pass `n` gives the axis a set point other than the one it has. */
  predicate Changes(regs: Registers, inputs: seq<Input>, a: Axis, n: nat)
    requires n < |inputs|
  {
    match Commanded(inputs, n)
    case Some(Set(loc, value)) => loc == Location(a) && value != SetPoint(regs, inputs, a, n)
    case _ => false
  }

  function Streaming(inputs: seq<Input>, n: nat): bool
    requires n <= |inputs|
  {
    n > 0 && Streaming(inputs, n - 1) != (Commanded(inputs, n - 1) == Some(ToggleStream))
  }

  // ----- what the firmware sent -----

  /** The packets of pass `n`. */
  function Packets(regs: Registers, inputs: seq<Input>, n: nat): seq<Packet>
    requires n < |inputs|
  {
    var before, after := At(regs, inputs, n).board.sent, At(regs, inputs, n + 1).board.sent;
    if before <= after then after[|before|..] else []
  }

  predicate TellsPositions(regs: Registers, inputs: seq<Input>, n: nat)
    requires n < |inputs|
  {
    exists p :: p in Packets(regs, inputs, n) && p.TicksX?
  }

  predicate TellsStable(regs: Registers, inputs: seq<Input>, n: nat)
    requires n < |inputs|
  {
    Stable in Packets(regs, inputs, n)
  }

  predicate Event(i: Input, a: Axis) {
    if a.X? then i.eventX else i.eventY
  }

  // ----- what has to be so -----

  /** A timer tick among the first `n` passes has not been followed by a report of the positions. */
  ghost predicate Ticked(regs: Registers, inputs: seq<Input>, n: nat, upTo: nat)
    requires n <= upTo <= |inputs|
  {
    exists i: nat :: i < upTo && inputs[i].timer && forall j :: i <= j < n ==> !TellsPositions(regs, inputs, j)
  }

  /** Every change of the axis's set point before pass `n` has been followed by an event of the axis. */
  ghost predicate Settled(regs: Registers, inputs: seq<Input>, a: Axis, n: nat, upTo: nat)
    requires n <= upTo <= |inputs|
  {
    forall c: nat :: c < n && Changes(regs, inputs, a, c) ==> exists i :: c < i < upTo && Event(inputs[i], a)
  }

  predicate AnyChange(regs: Registers, inputs: seq<Input>, n: nat)
    requires n < |inputs|
  {
    Changes(regs, inputs, X, n) || Changes(regs, inputs, Y, n)
  }

  /** The message has been sent before pass `n`, and no set point changed since. */
  ghost predicate Told(regs: Registers, inputs: seq<Input>, n: nat)
    requires n <= |inputs|
  {
    exists j: nat :: j < n && TellsStable(regs, inputs, j) && forall c :: j <= c < n ==> !AnyChange(regs, inputs, c)
  }

  lemma TickedStep(regs: Registers, inputs: seq<Input>, n: nat)
    requires n < |inputs|
    ensures Ticked(regs, inputs, n, n + 1) <==> Ticked(regs, inputs, n, n) || inputs[n].timer
    ensures Ticked(regs, inputs, n + 1, n + 1)
            <==> Ticked(regs, inputs, n, n + 1) && !TellsPositions(regs, inputs, n)
  {
    hide TellsPositions;
    if Ticked(regs, inputs, n, n + 1) && !TellsPositions(regs, inputs, n) {
      var i: nat :| i < n + 1 && inputs[i].timer && forall j :: i <= j < n ==> !TellsPositions(regs, inputs, j);
      assert forall j :: i <= j < n + 1 ==> !TellsPositions(regs, inputs, j);
    }
  }

  lemma SettledStep(regs: Registers, inputs: seq<Input>, a: Axis, n: nat)
    requires n < |inputs|
    ensures Settled(regs, inputs, a, n, n + 1) <==> Settled(regs, inputs, a, n, n) || Event(inputs[n], a)
    ensures Settled(regs, inputs, a, n + 1, n + 1)
            <==> Settled(regs, inputs, a, n, n + 1) && !Changes(regs, inputs, a, n)
  {
    hide Changes, Event;
    if Event(inputs[n], a) {
      assert Settled(regs, inputs, a, n, n + 1);
    }
    if !Settled(regs, inputs, a, n, n) {
      var c: nat :| c < n && Changes(regs, inputs, a, c) && !exists i :: c < i < n && Event(inputs[i], a);
      assert !Event(inputs[n], a) ==> !exists i :: c < i < n + 1 && Event(inputs[i], a);
    }
  }

  lemma ToldStep(regs: Registers, inputs: seq<Input>, n: nat)
    requires n < |inputs|
    ensures Told(regs, inputs, n + 1)
            <==> (Told(regs, inputs, n) || TellsStable(regs, inputs, n)) && !AnyChange(regs, inputs, n)
  {
    hide AnyChange, TellsStable;
    if Told(regs, inputs, n) && !AnyChange(regs, inputs, n) {
      var j: nat :| j < n && TellsStable(regs, inputs, j) && forall c :: j <= c < n ==> !AnyChange(regs, inputs, c);
      assert forall c :: j <= c < n + 1 ==> !AnyChange(regs, inputs, c);
    }
  }

  // ----- one pass -----

  function PositionPackets(i: Input, due: bool): seq<Packet> {
    if due then [TicksX(i.quadX), TicksY(i.quadY)] else []
  }

  function StablePackets(due: bool): seq<Packet> {
    if due then [Stable] else []
  }

  function VersionPackets(c: Option<Command>): seq<Packet> {
    if c == Some(Status) then [Version(3)] else []
  }

  /** The flags as the pass sees them, after the interrupts before it. */
  predicate PrintsNow(b: Board, i: Input) {
    b.flags.streaming && (b.flags.printDue || i.timer)
  }

  predicate TellsNow(b: Board, i: Input) {
    !b.flags.messageSent && (b.flags.stableX || i.eventX) && (b.flags.stableY || i.eventY)
  }

  function ChangedBy(b: Board, c: Option<Command>, a: Axis): bool {
    c.Some? && c.value.Set? && c.value.loc == Location(a) && c.value.value != Initial(b.regs, a)
  }

  lemma QuietPass(b: Board, i: Input)
    ensures var quiet := Background(Raised(b, i), i);
            && quiet.regs == b.regs
            && quiet.sent == b.sent + (PositionPackets(i, PrintsNow(b, i)) + StablePackets(TellsNow(b, i)))
            && quiet.flags
               == Flags(b.flags.streaming, (b.flags.printDue || i.timer) && !PrintsNow(b, i),
                        b.flags.messageSent || TellsNow(b, i), b.flags.stableX || i.eventX, b.flags.stableY || i.eventY)
  {
    assert b.sent + [TicksX(i.quadX)] + [TicksY(i.quadY)] == b.sent + [TicksX(i.quadX), TicksY(i.quadY)];
  }

  lemma ExecutePass(b: Board, c: Command)
    ensures var b', x, y := Execute(b, c), ChangedBy(b, Some(c), X), ChangedBy(b, Some(c), Y);
            && b'.sent == b.sent + VersionPackets(Some(c))
            && b'.flags == Flags(b.flags.streaming != (c == ToggleStream), b.flags.printDue,
                                 b.flags.messageSent && !x && !y, b.flags.stableX && !x, b.flags.stableY && !y)
            && SetPointsAfter(b, Some(c), b', X) && SetPointsAfter(b, Some(c), b', Y)
  {
    hide ServoWidth;
  }

  /** The axis's set point after the command. */
  predicate SetPointsAfter(b: Board, c: Option<Command>, b': Board, a: Axis) {
    Initial(b'.regs, a)
    == if c == Some(ResetPosition) then 0 else if ChangedBy(b, c, a) then c.value.value else Initial(b.regs, a)
  }

  lemma PassDoes(s: State, i: Input)
    requires s.Ok()
    ensures var b, s', c := s.board, LoopStep(s, i), CommandOf(s.pending, i.byte);
            var x, y := ChangedBy(b, c, X), ChangedBy(b, c, Y);
            && s'.pending == (if i.byte.None? then s.pending else Feed(s.pending, i.byte.value).0)
            && s'.board.sent
               == b.sent + (PositionPackets(i, PrintsNow(b, i)) + StablePackets(TellsNow(b, i)) + VersionPackets(c))
            && s'.board.flags
               == Flags(b.flags.streaming != (c == Some(ToggleStream)),
                        (b.flags.printDue || i.timer) && !PrintsNow(b, i),
                        (b.flags.messageSent || TellsNow(b, i)) && !x && !y,
                        (b.flags.stableX || i.eventX) && !x, (b.flags.stableY || i.eventY) && !y)
            && SetPointsAfter(b, c, s'.board, X) && SetPointsAfter(b, c, s'.board, Y)
  {
    hide Feed, Decode, Partial, Complete, Execute, Background, Raised, PositionPackets, StablePackets, VersionPackets;
    hide PrintsNow, TellsNow;
    var quiet, c := Background(Raised(s.board, i), i), CommandOf(s.pending, i.byte);
    QuietPass(s.board, i);
    if c.Some? {
      ExecutePass(quiet, c.value);
    }
    NoCommand();
    assert LoopStep(s, i).board == if c.None? then quiet else Execute(quiet, c.value);
  }

  lemma NoCommand()
    ensures VersionPackets(None) == []
  {
  }

  // ----- every pass -----

  /** What the program remembers before pass `n`. */
  ghost predicate Remembers(regs: Registers, inputs: seq<Input>, n: nat)
    requires n <= |inputs|
  {
    var s := At(regs, inputs, n);
    && s.pending == Pending(inputs, n)
    && (forall a :: Initial(s.board.regs, a) == SetPoint(regs, inputs, a, n))
    && s.board.flags == Flags(Streaming(inputs, n), Ticked(regs, inputs, n, n), Told(regs, inputs, n),
                              Settled(regs, inputs, X, n, n), Settled(regs, inputs, Y, n, n))
  }

  /** The positions go out exactly when streaming is on and a tick has come since they last did. */
  ghost predicate PositionsDue(regs: Registers, inputs: seq<Input>, n: nat)
    requires n < |inputs|
  {
    Streaming(inputs, n) && Ticked(regs, inputs, n, n + 1)
  }

  /**
   The stability message goes out exactly when each axis has had an event since its last change of set point and no
   message has been sent since the last change of either.
   */
  ghost predicate StableDue(regs: Registers, inputs: seq<Input>, n: nat)
    requires n < |inputs|
  {
    && Settled(regs, inputs, X, n, n + 1) && Settled(regs, inputs, Y, n, n + 1)
    && !Told(regs, inputs, n)
  }

  /** What pass `n` does in terms of what is remembered. */
  lemma PassSends(regs: Registers, inputs: seq<Input>, n: nat)
    requires n < |inputs| && Remembers(regs, inputs, n)
    ensures PrintsNow(At(regs, inputs, n).board, inputs[n]) == PositionsDue(regs, inputs, n)
    ensures TellsNow(At(regs, inputs, n).board, inputs[n]) == StableDue(regs, inputs, n)
    ensures At(regs, inputs, n + 1).board.sent
            == At(regs, inputs, n).board.sent
               + (PositionPackets(inputs[n], PositionsDue(regs, inputs, n))
                  + StablePackets(StableDue(regs, inputs, n)) + VersionPackets(Commanded(inputs, n)))
  {
    hide Ticked, Settled, Told, LoopStep, CommandOf, Streaming, PositionPackets, StablePackets, VersionPackets;
    TickedStep(regs, inputs, n);
    SettledStep(regs, inputs, X, n);
    SettledStep(regs, inputs, Y, n);
    PassDoes(At(regs, inputs, n), inputs[n]);
  }

  lemma PacketsAre(regs: Registers, inputs: seq<Input>, n: nat)
    requires n < |inputs| && Remembers(regs, inputs, n)
    ensures Packets(regs, inputs, n)
            == PositionPackets(inputs[n], PositionsDue(regs, inputs, n))
               + StablePackets(StableDue(regs, inputs, n)) + VersionPackets(Commanded(inputs, n))
    ensures TellsPositions(regs, inputs, n) <==> PositionsDue(regs, inputs, n)
    ensures TellsStable(regs, inputs, n) <==> StableDue(regs, inputs, n)
  {
    hide At, Remembers, PositionsDue, StableDue, Commanded;
    PassSends(regs, inputs, n);
    if PositionsDue(regs, inputs, n) {
      assert Packets(regs, inputs, n)[0] == TicksX(inputs[n].quadX);
    }
    if StableDue(regs, inputs, n) {
      var at := |PositionPackets(inputs[n], PositionsDue(regs, inputs, n))|;
      assert Packets(regs, inputs, n)[at] == Stable;
    }
  }

  lemma {:induction false} AlwaysRemembers(regs: Registers, inputs: seq<Input>, n: nat)
    requires n <= |inputs|
    ensures Remembers(regs, inputs, n)
  {
    hide Remembers;
    if n == 0 {
      BootRemembers(regs, inputs);
    } else {
      AlwaysRemembers(regs, inputs, n - 1);
      RemembersNext(regs, inputs, n - 1);
    }
  }

  lemma BootRemembers(regs: Registers, inputs: seq<Input>)
    ensures Remembers(regs, inputs, 0)
  {
  }

  lemma RemembersNext(regs: Registers, inputs: seq<Input>, n: nat)
    requires n < |inputs| && Remembers(regs, inputs, n)
    ensures Remembers(regs, inputs, n + 1)
  {
    hide Ticked, Settled, Told, LoopStep, CommandOf, Packets, TellsPositions, TellsStable, PrintsNow, TellsNow;
    hide PositionPackets, StablePackets, VersionPackets;
    PassSends(regs, inputs, n);
    PacketsAre(regs, inputs, n);
    TickedStep(regs, inputs, n);
    SettledStep(regs, inputs, X, n);
    SettledStep(regs, inputs, Y, n);
    ToldStep(regs, inputs, n);
    PassDoes(At(regs, inputs, n), inputs[n]);
  }

  /** From boot, pass by pass: exactly these packets, in this order. */
  lemma SendsExactly(regs: Registers, inputs: seq<Input>, n: nat)
    requires n < |inputs|
    ensures At(regs, inputs, n + 1).board.sent == At(regs, inputs, n).board.sent + Packets(regs, inputs, n)
    ensures Packets(regs, inputs, n)
            == PositionPackets(inputs[n], PositionsDue(regs, inputs, n))
               + StablePackets(StableDue(regs, inputs, n)) + VersionPackets(Commanded(inputs, n))
  {
    hide At, Packets, PositionsDue, StableDue, Remembers;
    AlwaysRemembers(regs, inputs, n);
    PassSends(regs, inputs, n);
    PacketsAre(regs, inputs, n);
  }

  /** The whole run, pass by pass, is the run of the loop. */
  lemma {:induction false} AtAfter(regs: Registers, inputs: seq<Input>, n: nat)
    requires n <= |inputs|
    ensures After(At(regs, inputs, n), inputs[n..]) == After(Boot(regs), inputs)
  {
    hide LoopStep;
    if n > 0 {
      AtAfter(regs, inputs, n - 1);
      assert inputs[n - 1..][1..] == inputs[n..];
    } else {
      assert inputs[0..] == inputs;
    }
  }
}
