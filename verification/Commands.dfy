/** The byte protocol between the host and the firmware: commands one way, packets the other. */
module Commands {
  import opened Obi

  type U8 = n: nat | n < 256
  type U32 = n: nat | n < 0x1_0000_0000

  // ----- little-endian words -----

  function Le(v: U32): (b: seq<U8>)
    ensures |b| == 4
  {
    [v % 256, v / 256 % 256, v / 0x1_0000 % 256, v / 0x100_0000]
  }

  function ReadU32Le(b: seq<U8>): U32
    requires |b| == 4
  {
    (b[0] as nat) + 256 * (b[1] as nat) + 0x1_0000 * (b[2] as nat) + 0x100_0000 * (b[3] as nat)
  }

  lemma LeRoundTrip(v: U32)
    ensures ReadU32Le(Le(v)) == v && Le(v)[0] == v % 256 && Le(v)[3] == v / 0x100_0000
  {
    var a, b, c := v / 256, v / 0x1_0000, v / 0x100_0000;
    assert a / 256 == b && b / 256 == c;
    assert v == v % 256 + 256 * a && a == a % 256 + 256 * b && b == b % 256 + 256 * c;
  }

  lemma LeOnto(b: seq<U8>)
    requires |b| == 4
    ensures Le(ReadU32Le(b)) == b
  {
    var v: nat, x: nat, y: nat, z: nat := ReadU32Le(b), b[1], b[2], b[3];
    assert v / 256 == x + 256 * y + 0x1_0000 * z;
    assert v / 0x1_0000 == y + 256 * z;
    assert v / 0x100_0000 == z;
  }

  // ----- commands -----

  /** What the host can ask for; `Set` takes a location and a word. */
  datatype Command = Status | ResetPosition | Set(loc: U8, value: U32) | ToggleStream

  function Encode(c: Command): seq<U8> {
    match c
    case Status => [0]
    case ResetPosition => [1]
    case Set(loc, value) => [2, loc] + Le(value)
    case ToggleStream => [4]
  }

  function EncodeAll(commands: seq<Command>): seq<U8> {
    if commands == [] then [] else Encode(commands[0]) + EncodeAll(commands[1..])
  }

  predicate Short(first: U8) {
    first == 0 || first == 1 || first == 4
  }

  predicate Complete(frame: seq<U8>) {
    |frame| > 0 && (|frame| == 6 || (|frame| == 1 && Short(frame[0])))
  }

  /** The command of a complete frame; other first bytes take six bytes and do nothing. */
  function Decode(frame: seq<U8>): Option<Command>
    requires Complete(frame)
  {
    if frame[0] == 0 then Some(Status)
    else if frame[0] == 1 then Some(ResetPosition)
    else if frame[0] == 4 then Some(ToggleStream)
    else if frame[0] == 2 && |frame| == 6 then Some(Set(frame[1], ReadU32Le(frame[2..])))
    else None
  }

  lemma CommandRoundTrip(c: Command)
    ensures Complete(Encode(c)) && Decode(Encode(c)) == Some(c)
  {
    if c.Set? {
      LeRoundTrip(c.value);
      assert Encode(c)[2..] == Le(c.value);
    }
  }

  // ----- framing, one byte at a time -----

  /** The unfinished frame between two iterations of the firmware's loop. */
  predicate Partial(pending: seq<U8>) {
    |pending| <= 5 && (pending != [] ==> !Short(pending[0]))
  }

  function Feed(pending: seq<U8>, byte: U8): (r: (seq<U8>, Option<seq<U8>>))
    requires Partial(pending)
    ensures Partial(r.0) && (r.1.Some? ==> Complete(r.1.value))
  {
    var frame := pending + [byte];
    if Complete(frame) then ([], Some(frame)) else (frame, None)
  }

  /** The firmware acts on nothing but encodings: a frame that is none of them is swallowed whole. */
  lemma OnlyEncodings(pending: seq<U8>, byte: U8)
    requires Partial(pending) && Feed(pending, byte).1.Some?
    ensures var frame := Feed(pending, byte).1.value;
            && (Decode(frame).None? <==> frame[0] !in {0, 1, 2, 4})
            && (Decode(frame).Some? ==> Encode(Decode(frame).value) == frame)
  {
    var frame := pending + [byte];
    if frame[0] == 2 {
      LeOnto(frame[2..]);
      assert frame == frame[..2] + frame[2..];
    }
  }

  /** What a sequence of polls leaves pending and what frames it completes. */
  function FeedPolls(pending: seq<U8>, polls: seq<Option<U8>>): (r: (seq<U8>, seq<seq<U8>>))
    requires Partial(pending)
    ensures Partial(r.0) && forall i :: 0 <= i < |r.1| ==> Complete(r.1[i])
    decreases |polls|
  {
    if polls == [] then (pending, [])
    else if polls[0].None? then FeedPolls(pending, polls[1..])
    else
      var (rest, frame) := Feed(pending, polls[0].value);
      var (last, frames) := FeedPolls(rest, polls[1..]);
      (last, if frame.Some? then [frame.value] + frames else frames)
  }

  function Bytes(polls: seq<Option<U8>>): seq<U8> {
    if polls == [] then [] else (if polls[0].Some? then [polls[0].value] else []) + Bytes(polls[1..])
  }

  /** Decoding every frame, dropping the ones that do nothing. */
  function Decoded(frames: seq<seq<U8>>): seq<Command>
    requires forall i :: 0 <= i < |frames| ==> Complete(frames[i])
  {
    if frames == [] then []
    else (match Decode(frames[0]) case Some(c) => [c] case None => []) + Decoded(frames[1..])
  }

  /** The frames are the encodings of the commands; what is pending is the start of the next one. */
  predicate Stands(pending: seq<U8>, bytes: seq<U8>, commands: seq<Command>) {
    Partial(pending) && pending + bytes == EncodeAll(commands) && (commands == [] ==> pending == [])
  }

  /** The first frame of a well-formed stream ends exactly where its encoding does. */
  lemma NextByte(pending: seq<U8>, bytes: seq<U8>, commands: seq<Command>)
    requires Stands(pending, bytes, commands) && bytes != []
    ensures commands != []
    ensures var (rest, frame) := Feed(pending, bytes[0]);
            if frame.Some? then frame.value == Encode(commands[0]) && Stands(rest, bytes[1..], commands[1..])
            else Stands(rest, bytes[1..], commands)
  {
    var all := EncodeAll(commands);
    assert all == pending + bytes;
    assert commands != [];
    var code := Encode(commands[0]);
    CommandRoundTrip(commands[0]);
    var frame := pending + [bytes[0]];
    assert frame + bytes[1..] == all;
    assert all == code + EncodeAll(commands[1..]);
    assert frame[0] == all[0] == code[0];
    assert |code| == if Short(all[0]) then 1 else 6;
    assert |frame| <= |code|;
    assert frame == all[..|frame|] == code[..|frame|];
    if Complete(frame) {
      assert frame == code;
      assert bytes[1..] == all[|frame|..] == EncodeAll(commands[1..]);
    }
  }

  /**
   For every command list and every pattern of empty polls: the frames completed are the encodings of exactly
   those commands, in order, and nothing is left pending.
   */
  lemma {:induction false} FramingRoundTrip(pending: seq<U8>, polls: seq<Option<U8>>, commands: seq<Command>)
    requires Stands(pending, Bytes(polls), commands)
    ensures var (last, frames) := FeedPolls(pending, polls);
            last == [] && Decoded(frames) == commands
    decreases |polls|
  {
    if polls == [] {
      PartialIsNotWhole(pending, commands);
    } else if polls[0].None? {
      assert Bytes(polls) == Bytes(polls[1..]);
      FramingRoundTrip(pending, polls[1..], commands);
    } else {
      var bytes := Bytes(polls);
      assert bytes[0] == polls[0].value && bytes[1..] == Bytes(polls[1..]);
      NextByte(pending, bytes, commands);
      var (rest, frame) := Feed(pending, bytes[0]);
      if frame.Some? {
        CommandRoundTrip(commands[0]);
        FramingRoundTrip(rest, polls[1..], commands[1..]);
      } else {
        FramingRoundTrip(rest, polls[1..], commands);
      }
    }
  }

  lemma PartialIsNotWhole(pending: seq<U8>, commands: seq<Command>)
    requires Stands(pending, [], commands)
    ensures pending == [] && commands == []
  {
    assert pending + [] == pending;
    if commands != [] {
      EncodedIsWhole(commands);
    }
  }

  lemma EncodedIsWhole(commands: seq<Command>)
    requires commands != []
    ensures !Partial(EncodeAll(commands))
  {
    var code := Encode(commands[0]);
    assert EncodeAll(commands)[0] == code[0];
  }

  // ----- packets -----

  /** What the firmware sends: its version, the two positions while streaming, and stability. */
  datatype Packet = Version(version: U8) | TicksX(x: U32) | TicksY(y: U32) | Stable

  function PacketBytes(p: Packet): seq<U8> {
    match p
    case Version(v) => [0, v]
    case TicksX(x) => [1] + Le(x)
    case TicksY(y) => [2] + Le(y)
    case Stable => [3]
  }

  function StreamBytes(packets: seq<Packet>): seq<U8> {
    if packets == [] then [] else PacketBytes(packets[0]) + StreamBytes(packets[1..])
  }

  /** The payload length by packet type; unknown types have none and are skipped. */
  function Payload(kind: U8): nat {
    if kind == 0 then 1 else if kind == 1 || kind == 2 then 4 else 0
  }

  function Understood(kind: U8, payload: seq<U8>): seq<Packet>
    requires |payload| == Payload(kind)
  {
    if kind == 0 then [Version(payload[0])]
    else if kind == 1 then [TicksX(ReadU32Le(payload))]
    else if kind == 2 then [TicksY(ReadU32Le(payload))]
    else if kind == 3 then [Stable]
    else []
  }

  /** What the host prints for a byte stream; a packet cut short keeps it waiting. */
  function HostReads(bytes: seq<U8>): seq<Packet> {
    if bytes == [] || |bytes| < 1 + Payload(bytes[0]) then []
    else
      var size := Payload(bytes[0]);
      Understood(bytes[0], bytes[1..1 + size]) + HostReads(bytes[1 + size..])
  }

  /** The host recovers the packet stream. */
  lemma {:induction false} PacketRoundTrip(packets: seq<Packet>)
    ensures HostReads(StreamBytes(packets)) == packets
  {
    if packets != [] {
      var head, tail := PacketBytes(packets[0]), StreamBytes(packets[1..]);
      var bytes, size := head + tail, Payload(head[0]);
      assert |head| == 1 + size;
      assert bytes[1..1 + size] == head[1..];
      assert bytes[1 + size..] == tail;
      PayloadRoundTrip(packets[0]);
      PacketRoundTrip(packets[1..]);
    }
  }

  lemma PayloadRoundTrip(p: Packet)
    ensures |PacketBytes(p)| == 1 + Payload(PacketBytes(p)[0])
    ensures Understood(PacketBytes(p)[0], PacketBytes(p)[1..]) == [p]
  {
    match p {
      case Version(_) =>
      case TicksX(x) => LeRoundTrip(x); assert PacketBytes(p)[1..] == Le(x);
      case TicksY(y) => LeRoundTrip(y); assert PacketBytes(p)[1..] == Le(y);
      case Stable =>
    }
  }

  lemma {:induction false} StreamAppend(packets: seq<Packet>, p: Packet)
    ensures StreamBytes(packets + [p]) == StreamBytes(packets) + PacketBytes(p)
  {
    hide PacketBytes;
    if packets == [] {
      assert packets + [p] == [p];
      assert [p][1..] == [];
    } else {
      StreamAppend(packets[1..], p);
      assert (packets + [p])[1..] == packets[1..] + [p];
    }
  }

  // ----- the host's reader -----

  class Host {
    const input: seq<U8>
    var position: nat
    var printed: seq<Packet>

    predicate Valid()
      reads this
    {
      position <= |input| && printed + HostReads(input[position..]) == HostReads(input)
    }

    constructor (input: seq<U8>)
      ensures Valid() && this.input == input && printed == []
    {
      this.input := input;
      position := 0;
      printed := [];
      new;
      assert input[0..] == input;
    }

    /** Byte by byte; the caller knows that the bytes have arrived. */
    method ReadExact(n: nat) returns (buffer: seq<U8>)
      requires position + n <= |input|
      modifies `position
      ensures position == old(position) + n && buffer == input[old(position)..position]
    {
      buffer := [];
      for i := 0 to n
        invariant position == old(position) + i && buffer == input[old(position)..position]
      {
        buffer := buffer + [input[position]];
        position := position + 1;
      }
    }

    /** The reader loop, up to the point where it would wait for more bytes. */
    method Read()
      requires Valid()
      modifies this
      ensures Valid() && printed == HostReads(input)
    {
      hide HostReads, ReadU32Le;
      while position < |input| && position + 1 + Payload(input[position]) <= |input|
        invariant Valid()
        decreases |input| - position
      {
        ReadsOne(input, position);
        var kind := ReadExact(1);
        var payload := ReadExact(Payload(kind[0]));
        match kind[0] {
          case 0 => printed := printed + [Version(payload[0])];
          case 1 => printed := printed + [TicksX(ReadU32Le(payload))];
          case 2 => printed := printed + [TicksY(ReadU32Le(payload))];
          case 3 => printed := printed + [Stable];
          case _ =>
        }
      }
      ReadsNone(input, position);
    }
  }

  lemma ReadsOne(input: seq<U8>, at: nat)
    requires at < |input| && at + 1 + Payload(input[at]) <= |input|
    ensures var next := at + 1 + Payload(input[at]);
            HostReads(input[at..]) == Understood(input[at], input[at + 1..next]) + HostReads(input[next..])
  {
    hide Understood;
    var bytes, size := input[at..], Payload(input[at]);
    assert bytes[1..1 + size] == input[at + 1..at + 1 + size];
    assert bytes[1 + size..] == input[at + 1 + size..];
  }

  lemma ReadsNone(input: seq<U8>, at: nat)
    requires at <= |input| && (at < |input| ==> at + 1 + Payload(input[at]) > |input|)
    ensures HostReads(input[at..]) == []
  {
  }
}
