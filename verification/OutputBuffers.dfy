/**
 * The bounded output log of one runtime. `written` is the simple unbounded log it stands for: everything ever
 * captured, numbered from one. A string stands for bytes, one character each.
 */
module OutputBuffers {
  import opened Wrappers

  /** A stream is named by a text; only two names are streams. */
  datatype OutputStream = Stdout | Stderr | Unknown(name: string)

  datatype OutputEvent = OutputEvent(sequence: nat, capturedAt: int, stream: OutputStream, data: string)

  datatype OutputTail = OutputTail(events: seq<OutputEvent>, truncated: bool)

  datatype OutputError = InvalidStream(stream: OutputStream) | LimitNotPositive

  datatype Bounds = Bounds(bytes: int, events: int)
  {
    predicate Positive() {
      bytes > 0 && events > 0
    }
  }

  // ---------- the unbounded log and the part of it that is kept ----------

  function TotalBytes(events: seq<OutputEvent>): nat {
    if events == [] then 0 else |events[0].data| + TotalBytes(events[1..])
  }

  lemma {:induction false} TotalBytesSnoc(events: seq<OutputEvent>, e: OutputEvent)
    ensures TotalBytes(events + [e]) == TotalBytes(events) + |e.data|
  {
    if events == [] {
      assert [e][1..] == [];
    } else {
      TotalBytesSnoc(events[1..], e);
      assert (events + [e])[1..] == events[1..] + [e];
    }
  }

  predicate Fits(events: seq<OutputEvent>, bounds: Bounds) {
    |events| <= bounds.events && TotalBytes(events) <= bounds.bytes
  }

  /** Without its first `dropped` events, and with no fewer, the log fits. */
  predicate IsLongestFit(log: seq<OutputEvent>, bounds: Bounds, dropped: nat) {
    && dropped <= |log|
    && Fits(log[dropped..], bounds)
    && forall j | 0 <= j < dropped :: !Fits(log[j..], bounds)
  }

  /** How many events of a log do not fit any more. */
  function Discarded(log: seq<OutputEvent>, bounds: Bounds): (dropped: nat)
    ensures dropped <= |log|
  {
    if log == [] || Fits(log, bounds) then 0 else 1 + Discarded(log[1..], bounds)
  }

  lemma {:induction false} DiscardedIsLongestFit(log: seq<OutputEvent>, bounds: Bounds, dropped: nat)
    requires bounds.Positive()
    ensures IsLongestFit(log, bounds, dropped) <==> dropped == Discarded(log, bounds)
  {
    if log == [] || Fits(log, bounds) {
      assert log[0..] == log;
    } else {
      assert log[0..] == log;
      if dropped > 0 {
        DiscardedIsLongestFit(log[1..], bounds, dropped - 1);
        if dropped <= |log| {
          assert log[1..][dropped - 1..] == log[dropped..];
          forall j | 0 <= j < dropped - 1
            ensures log[1..][j..] == log[j + 1..]
          {
          }
          if IsLongestFit(log, bounds, dropped) {
            assert forall j | 0 <= j < dropped - 1 :: !Fits(log[1..][j..], bounds);
          }
          if IsLongestFit(log[1..], bounds, dropped - 1) {
            forall j | 0 <= j < dropped
              ensures !Fits(log[j..], bounds)
            {
              if j > 0 {
                assert log[1..][j - 1..] == log[j..];
              }
            }
          }
        }
      }
    }
  }

  /** Nothing that was discarded ever comes back. */
  lemma {:induction false} DiscardedGrows(log: seq<OutputEvent>, more: seq<OutputEvent>, bounds: Bounds)
    requires bounds.Positive()
    ensures Discarded(log, bounds) <= Discarded(log + more, bounds)
  {
    if log != [] && !Fits(log, bounds) {
      LongerFitsLess(log, more, bounds);
      assert (log + more)[1..] == log[1..] + more;
      DiscardedGrows(log[1..], more, bounds);
    }
  }

  lemma {:induction false} LongerFitsLess(log: seq<OutputEvent>, more: seq<OutputEvent>, bounds: Bounds)
    requires !Fits(log, bounds)
    ensures !Fits(log + more, bounds)
    decreases |more|
  {
    if more == [] {
      assert log + more == log;
    } else {
      TotalBytesSnoc(log, more[0]);
      LongerFitsLess(log + [more[0]], more[1..], bounds);
      assert log + more == log + [more[0]] + more[1..];
    }
  }

  predicate Numbered(log: seq<OutputEvent>) {
    forall i | 0 <= i < |log| :: log[i].sequence == i + 1
  }

  predicate Chunked(log: seq<OutputEvent>, bounds: Bounds) {
    forall i | 0 <= i < |log| :: 0 < |log[i].data| <= bounds.bytes
  }

  /** The bytes one stream has written. */
  function StreamBytes(log: seq<OutputEvent>, stream: OutputStream): string {
    if log == [] then []
    else StreamBytes(log[..|log| - 1], stream) + if log[|log| - 1].stream == stream then log[|log| - 1].data else []
  }

  lemma StreamBytesSnoc(log: seq<OutputEvent>, e: OutputEvent, stream: OutputStream)
    ensures StreamBytes(log + [e], stream) == StreamBytes(log, stream) + if e.stream == stream then e.data else []
  {
    assert (log + [e])[..|log|] == log;
  }

  /** The newest chunk of a log is never the one that is dropped. */
  lemma NewestIsKept(log: seq<OutputEvent>, bounds: Bounds)
    requires bounds.Positive() && Chunked(log, bounds) && log != []
    ensures Discarded(log, bounds) < |log|
  {
    DiscardedIsLongestFit(log, bounds, Discarded(log, bounds));
    var newest := log[|log| - 1..];
    assert newest == [] + [log[|log| - 1]];
    TotalBytesSnoc([], log[|log| - 1]);
    assert Fits(newest, bounds);
  }

  /** What a reader is shown of a log: at most `limit` kept events after `after`, or the newest ones. */
  function TailOf(log: seq<OutputEvent>, bounds: Bounds, after: nat, limit: int): OutputTail
    requires limit > 0
  {
    var dropped := Discarded(log, bounds);
    var first := Max(dropped, if after == 0 then |log| - limit else Min(after, |log|));
    OutputTail(log[first..Min(|log|, first + limit)], dropped > 0)
  }

  /**
   * With the cursor at zero the newest kept events are shown, and otherwise those behind the cursor, from the oldest
   * kept one on; never more than `limit`.
   */
  predicate ShowsTail(log: seq<OutputEvent>, dropped: nat, after: nat, limit: int, tail: OutputTail)
    requires dropped <= |log| && limit > 0
  {
    && (tail.truncated <==> dropped > 0)
    && (after == 0 ==> tail.events == log[|log| - Min(limit, |log| - dropped)..])
    && (after > 0 ==>
          var first := if after <= dropped then dropped else if after <= |log| then after else |log|;
          tail.events == log[first..first + Min(limit, |log| - first)])
  }

  lemma TailShows(log: seq<OutputEvent>, bounds: Bounds, after: nat, limit: int)
    requires limit > 0
    ensures ShowsTail(log, Discarded(log, bounds), after, limit, TailOf(log, bounds, after, limit))
  {
    var dropped := Discarded(log, bounds);
    if after == 0 {
      var first := Max(dropped, |log| - limit);
      assert first == |log| - Min(limit, |log| - dropped) && Min(|log|, first + limit) == |log|;
      assert log[first..|log|] == log[first..];
    } else {
      var first := Max(dropped, Min(after, |log|));
      assert Min(|log|, first + limit) == first + Min(limit, |log| - first);
    }
  }

  /** What is kept respects both limits, and one event more would not. */
  lemma KeepsWhatFits(log: seq<OutputEvent>, bounds: Bounds)
    requires bounds.Positive()
    ensures var dropped := Discarded(log, bounds);
            && |log| - dropped <= bounds.events && TotalBytes(log[dropped..]) <= bounds.bytes
            && (dropped > 0 ==>
                  |log| - (dropped - 1) > bounds.events || TotalBytes(log[dropped - 1..]) > bounds.bytes)
  {
    DiscardedIsLongestFit(log, bounds, Discarded(log, bounds));
  }

  /** The log grew by `data` on one stream, all of it captured at one time, and by nothing else. */
  ghost predicate Captures(
    log: seq<OutputEvent>, log': seq<OutputEvent>, stream: OutputStream, data: string, capturedAt: int)
  {
    && log <= log'
    && StreamBytes(log', stream) == StreamBytes(log, stream) + data
    && (forall other | other != stream :: StreamBytes(log', other) == StreamBytes(log, other))
    && (forall i | |log| <= i < |log'| :: log'[i].stream == stream && log'[i].capturedAt == capturedAt)
  }

  /** The chunks from one position up to another are as large as a chunk can be. */
  predicate AllFull(log: seq<OutputEvent>, from: int, to: int, size: int) {
    forall i | 0 <= i < |log| && from <= i < to :: |log[i].data| == size
  }

  lemma CapturesMore(log: seq<OutputEvent>, log': seq<OutputEvent>, data: string, e: OutputEvent)
    requires Captures(log, log', e.stream, data, e.capturedAt)
    ensures Captures(log, log' + [e], e.stream, data + e.data, e.capturedAt)
  {
    forall stream
      ensures StreamBytes(log' + [e], stream) == StreamBytes(log', stream) + if e.stream == stream then e.data else []
    {
      StreamBytesSnoc(log', e, stream);
    }
  }

  /** A capture of `data` in chunks of `size` bytes, with `rest` still to come. */
  ghost predicate Capturing(
    log: seq<OutputEvent>, log': seq<OutputEvent>, stream: OutputStream, data: string, capturedAt: int, size: int,
    rest: string)
  {
    && |rest| <= |data|
    && rest == data[|data| - |rest|..]
    && Captures(log, log', stream, data[..|data| - |rest|], capturedAt)
    && AllFull(log', |log|, if rest == [] then |log'| - 1 else |log'|, size)
  }

  lemma CaptureStep(
    log: seq<OutputEvent>, log': seq<OutputEvent>, data: string, size: int, rest: string, e: OutputEvent)
    requires size > 0 && |rest| > 0 && e.data == rest[..Min(|rest|, size)]
    requires Capturing(log, log', e.stream, data, e.capturedAt, size, rest)
    ensures Capturing(log, log' + [e], e.stream, data, e.capturedAt, size, rest[|e.data|..])
  {
    var done := data[..|data| - |rest|];
    assert data[..|data| - |rest| + |e.data|] == done + e.data;
    CapturesMore(log, log', done, e);
  }

  lemma AppendFacts(log: seq<OutputEvent>, e: OutputEvent, bounds: Bounds)
    requires bounds.Positive() && Numbered(log) && Chunked(log, bounds)
    requires e.sequence == |log| + 1 && 0 < |e.data| <= bounds.bytes
    ensures Numbered(log + [e]) && Chunked(log + [e], bounds)
    ensures Discarded(log, bounds) <= Discarded(log + [e], bounds)
  {
    DiscardedGrows(log, [e], bounds);
  }

  lemma OneMoreDropped(log: seq<OutputEvent>, bounds: Bounds, dropped: nat, kept: seq<OutputEvent>)
    requires bounds.Positive() && dropped <= Discarded(log, bounds)
    requires kept == log[dropped..] && !Fits(kept, bounds)
    ensures dropped < Discarded(log, bounds) && kept[1..] == log[dropped + 1..]
    ensures TotalBytes(kept) - |kept[0].data| == TotalBytes(kept[1..])
  {
    DiscardedIsLongestFit(log, bounds, Discarded(log, bounds));
  }

  lemma EnoughDropped(log: seq<OutputEvent>, bounds: Bounds, dropped: nat)
    requires bounds.Positive() && dropped <= Discarded(log, bounds) && Fits(log[dropped..], bounds)
    ensures dropped == Discarded(log, bounds)
  {
    DiscardedIsLongestFit(log, bounds, Discarded(log, bounds));
  }

  lemma KeptPartGrows(log: seq<OutputEvent>, dropped: nat, e: OutputEvent)
    requires dropped <= |log|
    ensures (log + [e])[dropped..] == log[dropped..] + [e]
  {
  }

  class OutputBuffer {
    const maxBytes: int
    const maxEvents: int
    var bytes: int
    var nextSequence: nat
    var events: seq<OutputEvent>
    var truncated: bool
    ghost var written: seq<OutputEvent>
    ghost var dropped: nat

    ghost function Limits(): Bounds {
      Bounds(maxBytes, maxEvents)
    }

    ghost predicate Valid()
      reads this
    {
      && Limits().Positive()
      && Numbered(written) && Chunked(written, Limits())
      && nextSequence == |written| + 1
      && dropped == Discarded(written, Limits())
      && events == written[dropped..]
      && bytes == TotalBytes(events)
      && (truncated <==> dropped > 0)
    }

    constructor (maxBytes: int, maxEvents: int)
      requires maxBytes > 0 && maxEvents > 0
      ensures Valid() && written == [] && this.maxBytes == maxBytes && this.maxEvents == maxEvents
    {
      this.maxBytes := maxBytes;
      this.maxEvents := maxEvents;
      bytes, nextSequence, events, truncated, written, dropped := 0, 1, [], false, [], 0;
    }

    /** Appends bytes from one stream, split so that every event fits on its own. */
    method Capture(stream: OutputStream, data: string, capturedAt: int) returns (error: Option<OutputError>)
      requires Valid()
      modifies this
      ensures Valid()
      ensures error == if stream.Unknown? then Some(InvalidStream(stream)) else None
      ensures error.Some? ==> written == old(written)
      ensures error.None? ==> Captures(old(written), written, stream, data, capturedAt)
      ensures error.None? ==> AllFull(written, |old(written)|, |written| - 1, maxBytes)
    {
      if stream.Unknown? {
        return Some(InvalidStream(stream));
      }
      var rest := data;
      while |rest| > 0
        invariant Valid()
        invariant Capturing(old(written), written, stream, data, capturedAt, maxBytes, rest)
        decreases |rest|
      {
        var chunkLength := Min(|rest|, maxBytes);
        var event := OutputEvent(nextSequence, capturedAt, stream, rest[..chunkLength]);
        CaptureStep(old(written), written, data, maxBytes, rest, event);
        rest := rest[chunkLength..];
        Append(event);
      }
      assert data[..|data|] == data;
      error := None;
    }

    /** Appends one event and drops from the front until the limits hold again. */
    method Append(event: OutputEvent)
      requires Valid() && event.sequence == nextSequence && 0 < |event.data| <= maxBytes
      modifies this
      ensures Valid() && written == old(written) + [event]
    {
      ghost var log, kept := written, events;
      written := written + [event];
      events := events + [event];
      nextSequence := nextSequence + 1;
      bytes := bytes + |event.data|;
      assert Overfull() by {
        AppendFacts(log, event, Limits());
        TotalBytesSnoc(kept, event);
        KeptPartGrows(log, dropped, event);
      }
      EnforceLimits();
    }

    /** Like `Valid`, except that the limits need not hold. */
    ghost predicate Overfull()
      reads this
    {
      && Limits().Positive()
      && Numbered(written) && Chunked(written, Limits())
      && nextSequence == |written| + 1
      && dropped <= Discarded(written, Limits())
      && events == written[dropped..]
      && bytes == TotalBytes(events)
      && (truncated <==> dropped > 0)
    }

    method EnforceLimits()
      requires Overfull()
      modifies this`bytes, this`events, this`truncated, this`dropped
      ensures Valid()
    {
      while |events| > maxEvents || bytes > maxBytes
        invariant Overfull()
        decreases |events|
      {
        OneMoreDropped(written, Limits(), dropped, events);
        bytes := bytes - |events[0].data|;
        events := events[1..];
        truncated, dropped := true, dropped + 1;
      }
      EnoughDropped(written, Limits(), dropped);
    }

    /** Retained events after a sequence number; zero asks for the newest. */
    method Tail(afterSequence: nat, limit: int) returns (r: Result<OutputTail, OutputError>)
      requires Valid()
      ensures limit <= 0 ==> r == Failure(LimitNotPositive)
      ensures limit > 0 ==> r == Success(TailOf(written, Limits(), afterSequence, limit))
      ensures limit > 0 ==> ShowsTail(written, dropped, afterSequence, limit, r.value)
    {
      if limit <= 0 {
        return Failure(LimitNotPositive);
      }
      var start := 0;
      if afterSequence == 0 {
        start := Max(0, |events| - limit);
      } else {
        start := FirstAfter(afterSequence);
      }
      var end := Min(|events|, start + limit);
      TailIsSlice(written, Limits(), afterSequence, limit, start);
      TailShows(written, Limits(), afterSequence, limit);
      return Success(OutputTail(events[start..end], truncated));
    }

    /** Skips the retained events up to a sequence number. */
    method FirstAfter(afterSequence: nat) returns (start: nat)
      requires Valid()
      ensures start <= |events| && dropped + start == Max(dropped, Min(afterSequence, |written|))
    {
      start := 0;
      while start < |events| && events[start].sequence <= afterSequence
        invariant start <= |events|
        invariant start == 0 || dropped + start <= afterSequence
      {
        start := start + 1;
      }
      assert start < |events| ==> events[start] == written[dropped + start];
    }
  }

  /** The answer as a slice of what is kept. */
  lemma TailIsSlice(log: seq<OutputEvent>, bounds: Bounds, after: nat, limit: int, start: nat)
    requires limit > 0 && start <= |log| - Discarded(log, bounds)
    requires var dropped := Discarded(log, bounds);
             dropped + start == Max(dropped, if after == 0 then |log| - limit else Min(after, |log|))
    ensures var kept := log[Discarded(log, bounds)..];
            TailOf(log, bounds, after, limit).events == kept[start..Min(|kept|, start + limit)]
  {
    var dropped := Discarded(log, bounds);
    SliceOfSuffix(log, dropped, start, Min(|log| - dropped, start + limit));
  }

  lemma SliceOfSuffix<T>(log: seq<T>, dropped: nat, i: nat, j: nat)
    requires dropped <= |log| && i <= j <= |log| - dropped
    ensures log[dropped..][i..j] == log[dropped + i..dropped + j]
  {
  }

  /** A new buffer, if both limits are positive. */
  method NewOutputBuffer(maxBytes: int, maxEvents: int) returns (r: Result<OutputBuffer, OutputError>)
    ensures r.Success? <==> maxBytes > 0 && maxEvents > 0
    ensures r.Success? ==> fresh(r.value) && r.value.Valid() && r.value.written == [] && r.value.Limits() == Bounds(maxBytes, maxEvents)
  {
    if maxBytes <= 0 || maxEvents <= 0 {
      return Failure(LimitNotPositive);
    }
    var buffer := new OutputBuffer(maxBytes, maxEvents);
    return Success(buffer);
  }
}
