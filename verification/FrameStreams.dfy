/** Two output streams and an exit code carried over one connection, and taken apart again at the other end. */
module FrameStreams {
  import opened Wrappers
  import opened Pieces
  import opened SecretFilters

  const STDOUT := "stdout"
  const STDERR := "stderr"
  const FRAME_SIZE: nat := 32 * 1024

  datatype Frame = Frame(stream: string, data: string, exitCode: Option<int>, error: string)

  function DataFrame(stream: string, data: string): Frame {
    Frame(stream, data, None, "")
  }

  function ExitFrame(code: int, error: string): Frame {
    Frame("", "", Some(code), error)
  }

  datatype ReadError = ChannelClosed | InvalidFrame | Remote(message: string) | SinkFailed

  // ---------- writing ----------

  /** The frames of one write. */
  function FramesOf(stream: string, p: string): seq<Frame>
    decreases |p|
  {
    if p == "" then []
    else
      var end := Min(FRAME_SIZE, |p|);
      [DataFrame(stream, p[..end])] + FramesOf(stream, p[end..])
  }

  /** The connection; encoding fails for good after `room` more frames. */
  class Connection {
    var frames: seq<Frame>
    var room: nat

    constructor (room: nat)
      ensures frames == [] && this.room == room
    {
      frames := [];
      this.room := room;
    }

    method Encode(frame: Frame) returns (ok: bool)
      modifies this
      ensures ok <==> old(room) > 0
      ensures ok ==> frames == old(frames) + [frame] && room == old(room) - 1
      ensures !ok ==> frames == old(frames) && room == old(room)
    {
      if room == 0 {
        return false;
      }
      frames, room := frames + [frame], room - 1;
      return true;
    }
  }

  class FrameWriter {
    const encoder: Connection
    const stream: string

    constructor (encoder: Connection, stream: string)
      ensures this.encoder == encoder && this.stream == stream
    {
      this.encoder := encoder;
      this.stream := stream;
    }

    /** Cuts one write into frames; a failing connection has been given the first of them. */
    method Write(p: string) returns (ok: bool)
      modifies encoder
      ensures var all := FramesOf(stream, p);
              && (ok <==> |all| <= old(encoder.room))
              && encoder.frames == old(encoder.frames) + if ok then all else all[..old(encoder.room)]
    {
      ghost var all, before, n := FramesOf(stream, p), encoder.frames, 0;
      var offset := 0;
      while offset < |p|
        invariant offset <= |p| && n <= |all| && n <= old(encoder.room)
        invariant encoder.room == old(encoder.room) - n
        invariant encoder.frames == before + all[..n]
        invariant all[n..] == FramesOf(stream, p[offset..])
      {
        var end := Min(offset + FRAME_SIZE, |p|);
        FrameStep(stream, p, offset, all, n);
        ok := encoder.Encode(DataFrame(stream, p[offset..end]));
        if !ok {
          return;
        }
        assert all[..n + 1] == all[..n] + [all[n]];
        n := n + 1;
        offset := end;
      }
      assert all[..n] == all;
      return true;
    }
  }

  lemma FrameStep(stream: string, p: string, offset: nat, all: seq<Frame>, n: nat)
    requires offset < |p| && n <= |all| && all[n..] == FramesOf(stream, p[offset..])
    ensures var end := Min(offset + FRAME_SIZE, |p|);
            n < |all| && all[n] == DataFrame(stream, p[offset..end]) && all[n + 1..] == FramesOf(stream, p[end..])
  {
    var end := Min(FRAME_SIZE, |p[offset..]|);
    assert p[offset..][..end] == p[offset..offset + end] && p[offset..][end..] == p[offset + end..];
    assert all[n..][0] == all[n] && all[n..][1..] == all[n + 1..];
  }

  /** The data of the frames of one stream, in order. */
  function DataOf(frames: seq<Frame>, stream: string): string {
    if frames == [] then ""
    else (if frames[0].stream == stream then frames[0].data else "") + DataOf(frames[1..], stream)
  }

  lemma {:induction false} DataOfConcat(a: seq<Frame>, b: seq<Frame>, stream: string)
    ensures DataOf(a + b, stream) == DataOf(a, stream) + DataOf(b, stream)
    decreases |a|
  {
    if a == [] {
      assert a + b == b;
    } else {
      assert (a + b)[1..] == a[1..] + b;
      DataOfConcat(a[1..], b, stream);
    }
  }

  /** Cutting into frames loses nothing, and every frame is small, not empty, and of that stream. */
  lemma {:induction false} FramesCarryAll(stream: string, p: string)
    ensures DataOf(FramesOf(stream, p), stream) == p
    ensures forall i | 0 <= i < |FramesOf(stream, p)| ::
              var frame := FramesOf(stream, p)[i];
              && frame == DataFrame(stream, frame.data) && 0 < |frame.data| <= 32768
              && (i < |FramesOf(stream, p)| - 1 ==> |frame.data| == 32768)
    decreases |p|
  {
    if p != "" {
      var end := Min(FRAME_SIZE, |p|);
      FramesCarryAll(stream, p[end..]);
      var all := FramesOf(stream, p);
      assert all[1..] == FramesOf(stream, p[end..]);
      assert p == p[..end] + p[end..];
    }
  }

  // ---------- reading ----------

  /** A frame that carries data of one of the two streams. */
  predicate IsData(frame: Frame) {
    frame.exitCode.None? && (frame.stream == STDOUT || frame.stream == STDERR)
  }

  predicate AllData(frames: seq<Frame>) {
    forall i | 0 <= i < |frames| :: IsData(frames[i])
  }

  /** How many pieces the two sinks still take; one sink may serve both streams. */
  datatype Rooms = Separate(out: nat, err: nat) | Shared(room: nat)

  function Spend(rooms: Rooms, stream: string): Option<Rooms> {
    match rooms
    case Separate(out, err) =>
      if stream == STDOUT then if out == 0 then None else Some(Separate(out - 1, err))
      else if err == 0 then None else Some(Separate(out, err - 1))
    case Shared(room) => if room == 0 then None else Some(Shared(room - 1))
  }

  /** The frames a reader delivers, and how it ends. */
  datatype Reading = Reading(delivered: seq<Frame>, code: int, error: Option<ReadError>)

  function Read(frames: seq<Frame>, rooms: Rooms): Reading
    decreases |frames|
  {
    if frames == [] then Reading([], 1, Some(ChannelClosed))
    else if frames[0].exitCode.Some? then
      Reading([], frames[0].exitCode.value, if frames[0].error != "" then Some(Remote(frames[0].error)) else None)
    else if !IsData(frames[0]) then Reading([], 1, Some(InvalidFrame))
    else
      var next := Spend(rooms, frames[0].stream);
      if next.None? then Reading([], 1, Some(SinkFailed))
      else
        var rest := Read(frames[1..], next.value);
        rest.(delivered := [frames[0]] + rest.delivered)
  }

  /** What a sink is given that takes the streams named. */
  function PiecesOf(frames: seq<Frame>, streams: set<string>): seq<string> {
    if frames == [] then []
    else
      var last := frames[|frames| - 1];
      PiecesOf(frames[..|frames| - 1], streams) + if last.stream in streams then [last.data] else []
  }

  lemma PiecesSnoc(frames: seq<Frame>, frame: Frame, streams: set<string>)
    ensures PiecesOf(frames + [frame], streams) == PiecesOf(frames, streams) + if frame.stream in streams then [frame.data] else []
  {
    assert (frames + [frame])[..|frames|] == frames;
  }

  ghost function RoomsOf(stdout: Sink, stderr: Sink): Rooms
    reads stdout, stderr
  {
    if stdout == stderr then Shared(stdout.room) else Separate(stdout.room, stderr.room)
  }

  /** Which streams arrive at a sink. */
  ghost function StreamsOf(sink: Sink, stdout: Sink, stderr: Sink): set<string> {
    (if sink == stdout then {STDOUT} else {}) + (if sink == stderr then {STDERR} else {})
  }

  /** The reading loop; running out of frames stands for any failure to decode one. */
  method ReadStream(frames: seq<Frame>, stdout: Sink, stderr: Sink) returns (code: int, error: Option<ReadError>)
    modifies stdout, stderr
    ensures var r := Read(frames, old(RoomsOf(stdout, stderr)));
            && stdout.pieces == old(stdout.pieces) + PiecesOf(r.delivered, StreamsOf(stdout, stdout, stderr))
            && stderr.pieces == old(stderr.pieces) + PiecesOf(r.delivered, StreamsOf(stderr, stdout, stderr))
            && code == r.code && error == r.error
  {
    ghost var delivered: seq<Frame> := [];
    ghost var all := Read(frames, RoomsOf(stdout, stderr));
    ghost var out, err := stdout.pieces, stderr.pieces;
    var k := 0;
    while k < |frames|
      invariant k <= |frames|
      invariant HasDelivered(stdout, stderr, out, err, delivered)
      invariant all == Resumed(delivered, Read(frames[k..], RoomsOf(stdout, stderr)))
    {
      var frame := frames[k];
      ReadOne(frames, k, delivered, RoomsOf(stdout, stderr));
      if frame.exitCode.Some? {
        return frame.exitCode.value, if frame.error != "" then Some(Remote(frame.error)) else None;
      }
      if frame.stream != STDOUT && frame.stream != STDERR {
        return 1, Some(InvalidFrame);
      }
      var ok := Deliver(frame, stdout, stderr, out, err, delivered);
      if !ok {
        return 1, Some(SinkFailed);
      }
      delivered := delivered + [frame];
      k := k + 1;
    }
    assert delivered + [] == delivered;
    return 1, Some(ChannelClosed);
  }

  /** The sinks hold what they held before and the frames delivered since. */
  ghost predicate HasDelivered(stdout: Sink, stderr: Sink, out: seq<string>, err: seq<string>, delivered: seq<Frame>)
    reads stdout, stderr
  {
    && stdout.pieces == out + PiecesOf(delivered, StreamsOf(stdout, stdout, stderr))
    && stderr.pieces == err + PiecesOf(delivered, StreamsOf(stderr, stdout, stderr))
  }

  /** Writes one frame to the sink of its stream. */
  method Deliver(
      frame: Frame, stdout: Sink, stderr: Sink, ghost out: seq<string>, ghost err: seq<string>, ghost delivered: seq<Frame>)
    returns (ok: bool)
    requires IsData(frame) && HasDelivered(stdout, stderr, out, err, delivered)
    modifies stdout, stderr
    ensures ok <==> Spend(old(RoomsOf(stdout, stderr)), frame.stream).Some?
    ensures ok ==> Some(RoomsOf(stdout, stderr)) == Spend(old(RoomsOf(stdout, stderr)), frame.stream)
    ensures HasDelivered(stdout, stderr, out, err, if ok then delivered + [frame] else delivered)
  {
    PiecesSnoc(delivered, frame, StreamsOf(stdout, stdout, stderr));
    PiecesSnoc(delivered, frame, StreamsOf(stderr, stdout, stderr));
    if frame.stream == STDOUT {
      ok := stdout.Write(frame.data);
    } else {
      ok := stderr.Write(frame.data);
    }
  }

  ghost function Resumed(delivered: seq<Frame>, rest: Reading): Reading {
    rest.(delivered := delivered + rest.delivered)
  }

  /** One frame of a reading that is under way. */
  lemma ReadOne(frames: seq<Frame>, k: nat, delivered: seq<Frame>, rooms: Rooms)
    requires k < |frames|
    ensures var one := Resumed(delivered, Read(frames[k..], rooms));
            var frame := frames[k];
            if frame.exitCode.Some? then
              one == Reading(delivered, frame.exitCode.value, if frame.error != "" then Some(Remote(frame.error)) else None)
            else if !IsData(frame) then one == Reading(delivered, 1, Some(InvalidFrame))
            else if Spend(rooms, frame.stream).None? then one == Reading(delivered, 1, Some(SinkFailed))
            else one == Resumed(delivered + [frame], Read(frames[k + 1..], Spend(rooms, frame.stream).value))
  {
    assert frames[k..][0] == frames[k] && frames[k..][1..] == frames[k + 1..];
    assert delivered + [] == delivered;
    if IsData(frames[k]) && Spend(rooms, frames[k].stream).Some? {
      var rest := Read(frames[k + 1..], Spend(rooms, frames[k].stream).value).delivered;
      assert delivered + ([frames[k]] + rest) == delivered + [frames[k]] + rest;
    }
  }

  predicate Enough(rooms: Rooms, n: nat) {
    match rooms
    case Separate(out, err) => out >= n && err >= n
    case Shared(room) => room >= n
  }

  /** With room for all of them every data frame is delivered, and the exit is reported. */
  lemma {:induction false} ReadsToTheEnd(frames: seq<Frame>, exit: Frame, rooms: Rooms)
    requires AllData(frames) && exit.exitCode.Some? && Enough(rooms, |frames|)
    ensures Read(frames + [exit], rooms) ==
            Reading(frames, exit.exitCode.value, if exit.error != "" then Some(Remote(exit.error)) else None)
    decreases |frames|
  {
    if frames == [] {
      assert frames + [exit] == [exit];
    } else {
      assert (frames + [exit])[0] == frames[0] && (frames + [exit])[1..] == frames[1..] + [exit];
      assert IsData(frames[0]) && frames == [frames[0]] + frames[1..];
      ReadsToTheEnd(frames[1..], exit, Spend(rooms, frames[0].stream).value);
    }
  }

  /** Whatever the sinks take and wherever the connection closes, frames are delivered from the start and in order. */
  lemma {:induction false} DeliversFromTheStart(frames: seq<Frame>, rooms: Rooms)
    ensures Read(frames, rooms).delivered <= frames
    ensures AllData(frames) ==> Read(frames, rooms).error.Some? && Read(frames, rooms).code == 1
    decreases |frames|
  {
    if frames != [] && IsData(frames[0]) && Spend(rooms, frames[0].stream).Some? {
      DeliversFromTheStart(frames[1..], Spend(rooms, frames[0].stream).value);
      assert frames == [frames[0]] + frames[1..];
    }
  }

  /** How many frames belong to a stream. */
  function Count(frames: seq<Frame>, stream: string): nat {
    if frames == [] then 0
    else (if frames[0].stream == stream then 1 else 0) + Count(frames[1..], stream)
  }

  /** The sinks have taken the frames and still have room, or the sink of `next` has none left. */
  predicate Fits(rooms: Rooms, frames: seq<Frame>) {
    match rooms
    case Separate(out, err) => Count(frames, "stdout") <= out && Count(frames, "stderr") <= err
    case Shared(room) => |frames| <= room
  }

  predicate IsFull(rooms: Rooms, frames: seq<Frame>, stream: string) {
    match rooms
    case Separate(out, err) => if stream == "stdout" then Count(frames, "stdout") == out else Count(frames, "stderr") == err
    case Shared(room) => |frames| == room
  }

  /**
   * Data is delivered frame by frame, and reading ends at the first frame that is an exit, or of no stream, or that its
   * sink does not take, or where the frames end; the answer says which.
   */
  lemma {:induction false} ReadEnds(frames: seq<Frame>, rooms: Rooms)
    ensures var r := Read(frames, rooms);
            var n := |r.delivered|;
            && n <= |frames| && r.delivered == frames[..n] && Fits(rooms, frames[..n])
            && (forall i | 0 <= i < n :: frames[i].exitCode.None? && frames[i].stream in ["stdout", "stderr"])
            && if n == |frames| then r.code == 1 && r.error == Some(ChannelClosed)
               else
                 var last := frames[n];
                 if last.exitCode.Some? then
                   r.code == last.exitCode.value && r.error == (if last.error == "" then None else Some(Remote(last.error)))
                 else if last.stream !in ["stdout", "stderr"] then r.code == 1 && r.error == Some(InvalidFrame)
                 else r.code == 1 && r.error == Some(SinkFailed) && IsFull(rooms, frames[..n], last.stream)
    decreases |frames|
  {
    if frames != [] && IsData(frames[0]) && Spend(rooms, frames[0].stream).Some? {
      var next := Spend(rooms, frames[0].stream).value;
      ReadEnds(frames[1..], next);
      var n := |Read(frames[1..], next).delivered|;
      assert frames[..n + 1] == [frames[0]] + frames[1..][..n];
      OneMoreFits(rooms, next, frames[0], frames[1..][..n]);
      if n < |frames[1..]| && IsFull(next, frames[1..][..n], frames[1..][n].stream) && IsData(frames[1..][n]) {
        OneMoreIsFull(rooms, next, frames[0], frames[1..][..n], frames[1..][n].stream);
      }
    } else {
      assert frames[..0] == [];
    }
  }

  lemma OneMoreFits(rooms: Rooms, next: Rooms, first: Frame, frames: seq<Frame>)
    requires IsData(first) && Spend(rooms, first.stream) == Some(next) && Fits(next, frames)
    ensures Fits(rooms, [first] + frames)
  {
    assert ([first] + frames)[1..] == frames;
  }

  lemma OneMoreIsFull(rooms: Rooms, next: Rooms, first: Frame, frames: seq<Frame>, stream: string)
    requires IsData(first) && Spend(rooms, first.stream) == Some(next) && IsFull(next, frames, stream)
    requires stream == STDOUT || stream == STDERR
    ensures IsFull(rooms, [first] + frames, stream)
  {
    assert ([first] + frames)[1..] == frames;
  }

  /** A sink of its own is given its stream, in pieces. */
  lemma {:induction false} PiecesCarryData(frames: seq<Frame>, stream: string)
    ensures Joined(PiecesOf(frames, {stream})) == DataOf(frames, stream)
    decreases |frames|
  {
    if frames != [] {
      var before, last := frames[..|frames| - 1], frames[|frames| - 1];
      assert frames == before + [last];
      PiecesCarryData(before, stream);
      DataOfConcat(before, [last], stream);
      DataOfOne(last, stream);
      JoinedConcat(PiecesOf(before, {stream}), if last.stream == stream then [last.data] else []);
      JoinedCons(last.data, []);
    }
  }

  lemma DataOfOne(frame: Frame, stream: string)
    ensures DataOf([frame], stream) == if frame.stream == stream then frame.data else ""
  {
    assert frame.data + "" == frame.data;
  }

  // ---------- two filters on one connection ----------

  /**
   * The filter of one stream: what it retains, the pieces of its last write that are still to be framed, and whether
   * it was flushed.
   */
  datatype Channel = Channel(pending: string, queued: seq<string>, flushed: bool)

  /** Two filters whose frame writers take turns on one connection. */
  datatype Wire = Wire(channels: map<string, Channel>, frames: seq<Frame>)

  /** The child writes, a filter passes its next piece on as one undivided write, or is flushed. */
  datatype Turn = ChildWrites(stream: string, data: string) | PassesOn(stream: string) | Flushes(stream: string)

  const NEW_CHANNEL := Channel("", [], false)

  function NewWire(): Wire {
    Wire(map[STDOUT := NEW_CHANNEL, STDERR := NEW_CHANNEL], [])
  }

  predicate CanTurn(w: Wire, turn: Turn) {
    && turn.stream in w.channels
    && var c := w.channels[turn.stream];
    if turn.PassesOn? then c.queued != [] else c.queued == [] && !c.flushed
  }

  function TurnOf(secret: string, w: Wire, turn: Turn): Wire
    requires secret != "" && CanTurn(w, turn)
  {
    var c := w.channels[turn.stream];
    match turn
    case ChildWrites(stream, data) =>
      var step := Drain(c.pending + data, secret);
      w.(channels := w.channels[stream := Channel(step.pending, step.pieces, false)])
    case PassesOn(stream) =>
      Wire(w.channels[stream := c.(queued := c.queued[1..])], w.frames + FramesOf(stream, c.queued[0]))
    case Flushes(stream) => w.(channels := w.channels[stream := Channel("", [c.pending], true)])
  }

  /** `wires` lists the states between the turns of any schedule. */
  predicate IsSchedule(secret: string, wires: seq<Wire>, turns: seq<Turn>)
    requires secret != ""
  {
    && |wires| == |turns| + 1 && wires[0] == NewWire()
    && forall i | 0 <= i < |turns| :: IsTurn(secret, wires, turns, i)
  }

  predicate IsTurn(secret: string, wires: seq<Wire>, turns: seq<Turn>, i: nat)
    requires secret != "" && i < |turns| && |wires| == |turns| + 1
  {
    CanTurn(wires[i], turns[i]) && wires[i + 1] == TurnOf(secret, wires[i], turns[i])
  }

  /** What the child wrote to one stream. */
  function WritesTo(turns: seq<Turn>, stream: string): seq<string> {
    if turns == [] then []
    else
      var last := turns[|turns| - 1];
      WritesTo(turns[..|turns| - 1], stream) + if last.ChildWrites? && last.stream == stream then [last.data] else []
  }

  /** A stream is through when its filter was flushed and everything was framed. */
  predicate IsThrough(w: Wire, stream: string) {
    stream in w.channels && w.channels[stream].flushed && w.channels[stream].queued == []
  }

  predicate IsStream(stream: string) {
    stream == STDOUT || stream == STDERR
  }

  /** What was framed and what is queued of a stream is what its filter passed on for its writes. */
  ghost predicate Accounted(secret: string, w: Wire, writes: seq<string>, stream: string)
    requires secret != ""
  {
    && stream in w.channels
    && var c := w.channels[stream];
    && var state := Last(Drained([], ""), secret, writes);
    && DataOf(w.frames, stream) + Joined(c.queued) == Joined(if c.flushed then state.pieces + [state.pending] else state.pieces)
    && (!c.flushed ==> c.pending == state.pending)
  }

  lemma {:induction false} LastSnoc(state: Drained, secret: string, writes: seq<string>, p: string)
    requires secret != ""
    ensures Last(state, secret, writes + [p]) == After(Last(state, secret, writes), secret, p)
    decreases |writes|
  {
    if writes == [] {
      assert [p][1..] == [];
    } else {
      assert (writes + [p])[0] == writes[0] && (writes + [p])[1..] == writes[1..] + [p];
      LastSnoc(After(state, secret, writes[0]), secret, writes[1..], p);
    }
  }

  lemma {:induction false} ScheduleAccounts(secret: string, wires: seq<Wire>, turns: seq<Turn>, i: nat, stream: string)
    requires secret != "" && IsSchedule(secret, wires, turns) && i < |wires| && IsStream(stream)
    ensures Accounted(secret, wires[i], WritesTo(turns[..i], stream), stream)
    ensures AllData(wires[i].frames)
    ensures wires[i].channels.Keys == {STDOUT, STDERR}
  {
    if i > 0 {
      ScheduleAccounts(secret, wires, turns, i - 1, stream);
      assert IsTurn(secret, wires, turns, i - 1);
      assert turns[..i][..i - 1] == turns[..i - 1];
      TurnAccounts(secret, wires[i - 1], turns[i - 1], WritesTo(turns[..i - 1], stream), stream);
    }
  }

  lemma TurnAccounts(secret: string, w: Wire, turn: Turn, writes: seq<string>, stream: string)
    requires secret != "" && CanTurn(w, turn) && Accounted(secret, w, writes, stream) && AllData(w.frames)
    requires w.channels.Keys == {STDOUT, STDERR}
    ensures var more := if turn.ChildWrites? && turn.stream == stream then [turn.data] else [];
            Accounted(secret, TurnOf(secret, w, turn), writes + more, stream)
    ensures AllData(TurnOf(secret, w, turn).frames)
    ensures TurnOf(secret, w, turn).channels.Keys == {STDOUT, STDERR}
  {
    assert writes + [] == writes;
    match turn
    case ChildWrites(s, data) =>
      if s == stream {
        LastSnoc(Drained([], ""), secret, writes, data);
        var state := Last(Drained([], ""), secret, writes);
        JoinedConcat(state.pieces, Drain(state.pending + data, secret).pieces);
        assert Joined([]) == "" && DataOf(w.frames, stream) + "" == DataOf(w.frames, stream);
      }
    case PassesOn(s) =>
      FramesAreData(s, w.channels[s].queued[0]);
      PassesOnData(w.frames, w.channels[s].queued, s, stream);
    case Flushes(s) =>
      if s == stream {
        var state := Last(Drained([], ""), secret, writes);
        JoinedConcat(state.pieces, [state.pending]);
        assert DataOf(w.frames, stream) + "" == DataOf(w.frames, stream);
      }
  }

  lemma FramesAreData(stream: string, p: string)
    requires IsStream(stream)
    ensures AllData(FramesOf(stream, p))
  {
    FramesCarryAll(stream, p);
  }

  /** A piece moves from the queue to the frames of its stream, and leaves the other stream alone. */
  lemma PassesOnData(frames: seq<Frame>, queued: seq<string>, s: string, stream: string)
    requires queued != []
    ensures var more := FramesOf(s, queued[0]);
            && (s == stream ==> DataOf(frames + more, stream) + Joined(queued[1..]) == DataOf(frames, stream) + Joined(queued))
            && (s != stream ==> DataOf(frames + more, stream) == DataOf(frames, stream))
  {
    var more := FramesOf(s, queued[0]);
    FramesCarryAll(s, queued[0]);
    DataOfConcat(frames, more, stream);
    if s == stream {
      Regroup(DataOf(frames, stream), queued[0], Joined(queued[1..]));
    } else {
      NoDataOfOthers(more, stream);
    }
  }

  lemma {:induction false} NoDataOfOthers(frames: seq<Frame>, stream: string)
    requires forall i | 0 <= i < |frames| :: frames[i].stream != stream
    ensures DataOf(frames, stream) == ""
    decreases |frames|
  {
    if frames != [] {
      NoDataOfOthers(frames[1..], stream);
    }
  }

  // ---------- end to end ----------

  /**
   * At every moment of any schedule the frames of a stream carry the start of the batch redaction of what the child
   * wrote to it, and all of it once the stream is through.
   */
  lemma WireCarriesRedaction(secret: string, wires: seq<Wire>, turns: seq<Turn>, stream: string)
    requires secret != "" && IsSchedule(secret, wires, turns) && IsStream(stream)
    ensures var w := wires[|turns|];
            var redacted := Redact(Joined(WritesTo(turns, stream)), secret);
            DataOf(w.frames, stream) <= redacted && (IsThrough(w, stream) ==> DataOf(w.frames, stream) == redacted)
  {
    var writes := WritesTo(turns, stream);
    assert turns[..|turns|] == turns;
    ScheduleAccounts(secret, wires, turns, |turns|, stream);
    var state := Last(Drained([], ""), secret, writes);
    WritesAreFinal(Drained([], ""), secret, writes);
    StreamingIsBatch(secret, writes);
    JoinedConcat(state.pieces, [state.pending]);
    var w := wires[|turns|];
    assert IsThrough(w, stream) ==> DataOf(w.frames, stream) + "" == DataOf(w.frames, stream);
  }

  /**
   * End to end: however the child cuts its output into writes, however the two filters and their frames take turns on
   * the connection, and however writes are cut into frames, the reader delivers exactly the batch redaction of each
   * stream, and the exit code.
   */
  lemma PipelineDelivers(secret: string, wires: seq<Wire>, turns: seq<Turn>, code: int, error: string, rooms: Rooms)
    requires secret != "" && IsSchedule(secret, wires, turns)
    requires IsThrough(wires[|turns|], STDOUT) && IsThrough(wires[|turns|], STDERR)
    requires Enough(rooms, |wires[|turns|].frames|)
    ensures var r := Read(wires[|turns|].frames + [ExitFrame(code, error)], rooms);
            && DataOf(r.delivered, STDOUT) == Redact(Joined(WritesTo(turns, STDOUT)), secret)
            && DataOf(r.delivered, STDERR) == Redact(Joined(WritesTo(turns, STDERR)), secret)
            && r.code == code && r.error == if error != "" then Some(Remote(error)) else None
  {
    WireCarriesRedaction(secret, wires, turns, STDOUT);
    WireCarriesRedaction(secret, wires, turns, STDERR);
    ScheduleAccounts(secret, wires, turns, |turns|, STDOUT);
    ReadsToTheEnd(wires[|turns|].frames, ExitFrame(code, error), rooms);
  }

  /**
   * Wherever the schedule stops, the connection closes or a sink fails, what was delivered of a stream by then is the
   * start of its redaction, and the reader is told.
   */
  lemma PipelineCutShort(secret: string, wires: seq<Wire>, turns: seq<Turn>, n: nat, rooms: Rooms, stream: string)
    requires secret != "" && IsSchedule(secret, wires, turns) && n <= |wires[|turns|].frames| && IsStream(stream)
    ensures var r := Read(wires[|turns|].frames[..n], rooms);
            && DataOf(r.delivered, stream) <= Redact(Joined(WritesTo(turns, stream)), secret)
            && r.error.Some? && r.code == 1
  {
    var frames := wires[|turns|].frames;
    WireCarriesRedaction(secret, wires, turns, stream);
    ScheduleAccounts(secret, wires, turns, |turns|, stream);
    AllDataBefore(frames, n);
    DeliversFromTheStart(frames[..n], rooms);
    DataOfPrefix(Read(frames[..n], rooms).delivered, frames, n, stream);
  }

  lemma AllDataBefore(frames: seq<Frame>, n: nat)
    requires AllData(frames) && n <= |frames|
    ensures AllData(frames[..n])
  {
  }

  lemma DataOfPrefix(delivered: seq<Frame>, frames: seq<Frame>, n: nat, stream: string)
    requires n <= |frames| && delivered <= frames[..n]
    ensures DataOf(delivered, stream) <= DataOf(frames, stream)
  {
    assert frames == delivered + frames[|delivered|..];
    DataOfConcat(delivered, frames[|delivered|..], stream);
  }
}
