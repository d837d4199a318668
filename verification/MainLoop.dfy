/** The firmware's main loop: one poll of the receiver, the periodic reports, and the execution of a whole command. */
module MainLoop {
  import opened Obi
  import opened Commands

  /** The peripheral registers the commands write; both axes share their gains. */
  datatype Registers = Registers(setpointX: U32, setpointY: U32, kp: U32, kd: U32, rate: U32, servoWidth: U32,
                                 positionResets: nat)

  /** What the loop and the two interrupt handlers share. */
  datatype Flags = Flags(streaming: bool, printDue: bool, messageSent: bool, stableX: bool, stableY: bool)

  datatype Board = Board(regs: Registers, flags: Flags, sent: seq<Packet>)

  /** 0 is 0 degrees, 65535 is 180; the divisor is the source's 66535. */
  function ServoWidth(angle: U32): U32 {
    50000 + 50000 * (if angle >= 65535 then 65535 else angle) / 66535
  }

  /**
   The pulse grows with the angle in steps of at most one clock, from one millisecond up; it is the largest integer
   not above the straight line that the divisor gives, so 180 degrees is 99248 clocks, short of two milliseconds.
   */
  lemma ServoRange(angle: U32, more: U32)
    requires angle <= more
    ensures ServoWidth(0) == 50000 && ServoWidth(65535) == 99248
    ensures 50000 <= ServoWidth(angle) <= ServoWidth(more) <= 99248
    ensures more == angle + 1 ==> ServoWidth(more) <= ServoWidth(angle) + 1
    ensures angle <= 65535 ==> 0 <= 50000 * angle - 66535 * (ServoWidth(angle) - 50000) < 66535
  {
  }

  function SetRegister(b: Board, loc: U8, value: U32): Board {
    if loc == 0 then
      if b.regs.setpointX == value then b
      else b.(regs := b.regs.(setpointX := value), flags := b.flags.(stableX := false, messageSent := false))
    else if loc == 1 then
      if b.regs.setpointY == value then b
      else b.(regs := b.regs.(setpointY := value), flags := b.flags.(stableY := false, messageSent := false))
    else if loc == 2 then b.(regs := b.regs.(kp := value))
    else if loc == 3 then b.(regs := b.regs.(kd := value))
    else if loc == 4 then b.(regs := b.regs.(rate := value))
    else if loc == 5 then b.(regs := b.regs.(servoWidth := ServoWidth(value)))
    else b
  }

  function Execute(b: Board, c: Command): Board {
    match c
    case Status => b.(sent := b.sent + [Version(3)])
    case ResetPosition =>
      b.(regs := b.regs.(setpointX := 0, setpointY := 0, positionResets := b.regs.positionResets + 1))
    case Set(loc, value) => SetRegister(b, loc, value)
    case ToggleStream => b.(flags := b.flags.(streaming := !b.flags.streaming))
  }

  /** One iteration's surroundings: the polled byte, what the interrupts raised since, the two positions. */
  datatype Input = Input(byte: Option<U8>, timer: bool, eventX: bool, eventY: bool, quadX: U32, quadY: U32)

  function Raised(b: Board, i: Input): Board {
    b.(flags := b.flags.(printDue := b.flags.printDue || i.timer, stableX := b.flags.stableX || i.eventX,
                         stableY := b.flags.stableY || i.eventY))
  }

  function Background(b: Board, i: Input): Board {
    var printed := if b.flags.streaming && b.flags.printDue
                   then b.(flags := b.flags.(printDue := false), sent := b.sent + [TicksX(i.quadX)] + [TicksY(i.quadY)])
                   else b;
    if !printed.flags.messageSent && printed.flags.stableX && printed.flags.stableY
    then printed.(flags := printed.flags.(messageSent := true), sent := printed.sent + [Stable])
    else printed
  }

  /** The parser's buffer and the rest of the program. */
  datatype State = State(pending: seq<U8>, board: Board) {
    predicate Ok() {
      Partial(pending)
    }
  }

  function ExecuteFrame(b: Board, frame: Option<seq<U8>>): Board
    requires frame.Some? ==> Complete(frame.value)
  {
    if frame.None? || Decode(frame.value).None? then b else Execute(b, Decode(frame.value).value)
  }

  function LoopStep(s: State, i: Input): (s': State)
    requires s.Ok()
    ensures s'.Ok()
  {
    var (pending, frame) := if i.byte.Some? then Feed(s.pending, i.byte.value) else (s.pending, None);
    State(pending, ExecuteFrame(Background(Raised(s.board, i), i), frame))
  }

  class Firmware {
    const command: array<U8>
    var len: nat
    var finished: bool
    var streaming: bool
    var messageSent: bool
    var printDue: bool
    var stableX: bool
    var stableY: bool
    var regs: Registers
    /** Everything written to the transmit lane, and the packets it is made of. */
    var wire: seq<U8>
    ghost var sent: seq<Packet>

    ghost predicate Valid()
      reads this, command
    {
      command.Length == 6 && len <= 5 && !finished && Partial(command[..len]) && wire == StreamBytes(sent)
    }

    ghost function Rest(): Board
      reads this
    {
      Board(regs, Flags(streaming, printDue, messageSent, stableX, stableY), sent)
    }

    ghost function View(): State
      reads this, command
      requires Valid()
    {
      State(command[..len], Rest())
    }

    constructor (regs: Registers)
      ensures Valid() && fresh(command)
      ensures View() == State([], Board(regs, Flags(false, false, false, true, true), []))
    {
      command := new U8[6](_ => 0);
      len, finished := 0, false;
      streaming, messageSent, printDue, stableX, stableY := false, false, false, true, true;
      this.regs := regs;
      wire, sent := [], [];
    }

    method UartPutc(b: U8)
      modifies `wire
      ensures wire == old(wire) + [b]
    {
      wire := wire + [b];
    }

    method UartPutw(w: U32)
      modifies `wire
      ensures wire == old(wire) + Le(w)
    {
      wire := wire + Le(w);
    }

    /** What the interrupt handlers did since the last pass. */
    method Interrupts(i: Input)
      modifies `printDue, `stableX, `stableY
      ensures Rest() == Raised(old(Rest()), i)
    {
      printDue, stableX, stableY := printDue || i.timer, stableX || i.eventX, stableY || i.eventY;
    }

    /** One byte into the buffer; a frame is finished after one byte or six. */
    method Receive(byte: Option<U8>) returns (ghost frame: Option<seq<U8>>)
      requires Valid()
      modifies `len, `finished, command
      ensures len <= 6 && wire == StreamBytes(sent)
      ensures (if finished then Some(command[..len]) else None) == frame
      ensures frame.Some? ==> Complete(frame.value)
      ensures frame.None? ==> Valid()
      ensures var pending := old(command[..len]);
              (if finished then [] else command[..len], frame)
              == if byte.Some? then Feed(pending, byte.value) else (pending, None)
    {
      if byte.Some? {
        ghost var pending := command[..len];
        command[len] := byte.value;
        len := len + 1;
        assert command[..len] == pending + [byte.value];
        if len == 1 {
          finished := command[0] == 0 || command[0] == 1 || command[0] == 4;
        }
        if len == 6 {
          finished := true;
        }
      }
      frame := if finished then Some(command[..len]) else None;
    }

    method ReportPositions(i: Input)
      requires wire == StreamBytes(sent)
      modifies `printDue, `wire, `sent
      ensures wire == StreamBytes(sent)
      ensures sent == old(sent) + if streaming && old(printDue) then [TicksX(i.quadX)] + [TicksY(i.quadY)] else []
      ensures printDue == (old(printDue) && !streaming)
    {
      hide StreamBytes, Le;
      if streaming && printDue {
        StreamAppend(sent, TicksX(i.quadX));
        StreamAppend(sent + [TicksX(i.quadX)], TicksY(i.quadY));
        UartPutc(1);
        UartPutw(i.quadX);
        UartPutc(2);
        UartPutw(i.quadY);
        sent := sent + [TicksX(i.quadX)] + [TicksY(i.quadY)];
        printDue := false;
      }
    }

    /** The periodic position reports and the stability message. */
    method Report(i: Input)
      requires wire == StreamBytes(sent)
      modifies `printDue, `messageSent, `wire, `sent
      ensures wire == StreamBytes(sent) && Rest() == Background(old(Rest()), i)
    {
      hide StreamBytes, PacketBytes;
      ReportPositions(i);
      if !messageSent && stableX && stableY {
        StableMessage(sent);
        UartPutc(3);
        sent := sent + [Stable];
        messageSent := true;
      }
    }

    method ExecuteCommand()
      requires command.Length == 6 && 0 < len <= 6 && Complete(command[..len]) && wire == StreamBytes(sent)
      modifies this
      ensures wire == StreamBytes(sent) && len == old(len) && finished == old(finished)
      ensures Rest() == ExecuteFrame(old(Rest()), Some(command[..len]))
    {
      hide StreamBytes, ServoWidth;
      match command[0] {
        case 0 =>
          StreamAppend(sent, Version(3));
          UartPutc(0);
          UartPutc(3);
          sent := sent + [Version(3)];
        case 1 =>
          regs := regs.(positionResets := regs.positionResets + 1, setpointX := 0, setpointY := 0);
        case 2 => SetLocation();
        case 4 =>
          streaming := !streaming;
        case _ =>
      }
    }

    method SetLocation()
      requires command.Length == 6 && len == 6 && command[0] == 2
      modifies `regs, `stableX, `stableY, `messageSent
      ensures Rest() == SetRegister(old(Rest()), command[1], ReadU32Le(command[..6][2..]))
    {
      hide ReadU32Le;
      var value := ReadU32Le(command[2..6]);
      assert command[2..6] == command[..6][2..];
      match command[1] {
        case 0 =>
          if regs.setpointX != value {
            regs := regs.(setpointX := value);
            stableX := false;
            messageSent := false;
          }
        case 1 =>
          if regs.setpointY != value {
            regs := regs.(setpointY := value);
            stableY := false;
            messageSent := false;
          }
        case 2 => regs := regs.(kp := value);
        case 3 => regs := regs.(kd := value);
        case 4 => regs := regs.(rate := value);
        case 5 =>
          var angle := if value >= 65535 then 65535 else value;
          regs := regs.(servoWidth := 50000 + 50000 * angle / 66535);
        case _ =>
      }
    }

    /** One pass of the loop. */
    method Iterate(i: Input)
      requires Valid()
      modifies this, command
      ensures Valid() && View() == LoopStep(old(View()), i)
    {
      hide Feed, Background, Raised, StreamBytes, Partial, Complete, Decode, Execute;
      Interrupts(i);
      ghost var frame := Receive(i.byte);
      Report(i);
      if finished {
        ExecuteCommand();
        len := 0;
        finished := false;
      }
    }
  }

  lemma StableMessage(sent: seq<Packet>)
    ensures StreamBytes(sent + [Stable]) == StreamBytes(sent) + [3]
  {
    StreamAppend(sent, Stable);
    hide StreamBytes;
  }

  /** The host recovers, from everything on the wire, exactly the packets the firmware meant. */
  lemma WireReadsBack(fw: Firmware)
    requires fw.Valid()
    ensures HostReads(fw.wire) == fw.sent
  {
    PacketRoundTrip(fw.sent);
  }

  // ----- whole runs -----

  function After(s: State, inputs: seq<Input>): (s': State)
    requires s.Ok()
    ensures s'.Ok()
    decreases |inputs|
  {
    if inputs == [] then s else After(LoopStep(s, inputs[0]), inputs[1..])
  }

  function Polls(inputs: seq<Input>): (polls: seq<Option<U8>>)
    ensures |polls| == |inputs|
  {
    if inputs == [] then [] else [inputs[0].byte] + Polls(inputs[1..])
  }

  /** What commands change and nothing else in the loop does: registers, streaming, version replies. */
  datatype Effects = Effects(regs: Registers, streaming: bool, versions: nat)

  function Versions(sent: seq<Packet>): nat {
    if sent == [] then 0 else Versions(sent[..|sent| - 1]) + if sent[|sent| - 1].Version? then 1 else 0
  }

  function EffectsOf(b: Board): Effects {
    Effects(b.regs, b.flags.streaming, Versions(b.sent))
  }

  function Effect(e: Effects, c: Command): Effects {
    match c
    case Status => e.(versions := e.versions + 1)
    case ResetPosition =>
      e.(regs := e.regs.(setpointX := 0, setpointY := 0, positionResets := e.regs.positionResets + 1))
    case ToggleStream => e.(streaming := !e.streaming)
    case Set(loc, value) =>
      var r := e.regs;
      e.(regs := if loc == 0 then r.(setpointX := value) else if loc == 1 then r.(setpointY := value)
                 else if loc == 2 then r.(kp := value) else if loc == 3 then r.(kd := value)
                 else if loc == 4 then r.(rate := value) else if loc == 5 then r.(servoWidth := ServoWidth(value))
                 else r)
  }

  function EffectAll(e: Effects, commands: seq<Command>): Effects
    decreases |commands|
  {
    if commands == [] then e else EffectAll(Effect(e, commands[0]), commands[1..])
  }

  lemma VersionsAppend(sent: seq<Packet>, p: Packet)
    ensures Versions(sent + [p]) == Versions(sent) + if p.Version? then 1 else 0
  {
    assert (sent + [p])[..|sent|] == sent;
  }

  lemma ExecuteEffect(b: Board, c: Command)
    ensures EffectsOf(Execute(b, c)) == Effect(EffectsOf(b), c)
  {
    VersionsAppend(b.sent, Version(3));
    hide Versions, ServoWidth;
  }

  /** Reports and interrupts leave the effects alone. */
  lemma BackgroundEffect(b: Board, i: Input)
    ensures EffectsOf(Background(Raised(b, i), i)) == EffectsOf(b)
  {
    VersionsAppend(b.sent, TicksX(i.quadX));
    VersionsAppend(b.sent + [TicksX(i.quadX)], TicksY(i.quadY));
    VersionsAppend(b.sent + [TicksX(i.quadX)] + [TicksY(i.quadY)], Stable);
    VersionsAppend(b.sent, Stable);
    hide Versions;
  }

  lemma {:induction false} RunDecodes(s: State, inputs: seq<Input>)
    requires s.Ok()
    ensures var (pending, frames) := FeedPolls(s.pending, Polls(inputs));
            && After(s, inputs).pending == pending
            && EffectsOf(After(s, inputs).board) == EffectAll(EffectsOf(s.board), Decoded(frames))
    decreases |inputs|
  {
    hide Background, Raised, Execute, Effect, EffectsOf, Feed, Decode;
    if inputs != [] {
      var i, next := inputs[0], LoopStep(s, inputs[0]);
      RunDecodes(next, inputs[1..]);
      BackgroundEffect(s.board, i);
      var quiet := Background(Raised(s.board, i), i);
      assert Polls(inputs)[0] == i.byte && Polls(inputs)[1..] == Polls(inputs[1..]);
      var (rest, frames) := FeedPolls(next.pending, Polls(inputs[1..]));
      if i.byte.Some? {
        var frame := Feed(s.pending, i.byte.value).1;
        if frame.Some? {
          DecodedCons(frame.value, frames);
          if Decode(frame.value).Some? {
            var c := Decode(frame.value).value;
            ExecuteEffect(quiet, c);
            assert ([c] + Decoded(frames))[1..] == Decoded(frames);
          } else {
            assert [] + Decoded(frames) == Decoded(frames);
          }
        }
      }
    }
  }

  lemma DecodedCons(frame: seq<U8>, frames: seq<seq<U8>>)
    requires Complete(frame) && forall i :: 0 <= i < |frames| ==> Complete(frames[i])
    ensures Decoded([frame] + frames)
            == (match Decode(frame) case Some(c) => [c] case None => []) + Decoded(frames)
  {
    hide Decode;
    assert ([frame] + frames)[1..] == frames;
  }

  /**
   Whatever polls come up empty and whatever reports and interrupts fall between the bytes: the loop carries
   out exactly the commands the host encoded, in order, and ends between two frames.
   */
  lemma ExecutesCommands(s: State, inputs: seq<Input>, commands: seq<Command>)
    requires s.pending == [] && Bytes(Polls(inputs)) == EncodeAll(commands)
    ensures After(s, inputs).pending == []
    ensures EffectsOf(After(s, inputs).board) == EffectAll(EffectsOf(s.board), commands)
  {
    assert [] + Bytes(Polls(inputs)) == EncodeAll(commands);
    RunDecodes(s, inputs);
    FramingRoundTrip([], Polls(inputs), commands);
  }
}
