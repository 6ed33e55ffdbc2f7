/** A client that follows the output of one runtime by its cursor, polling the bounded buffer while others write. */
module LogFollower {
  import opened Wrappers
  import opened OutputBuffers

  /**
   * What one poll meets: everything written by then, or an error, which may be due to the interrupted context. The
   * wait after the last poll is the one that is interrupted.
   */
  datatype Poll = Sees(log: seq<OutputEvent>) | Fails(interrupted: bool)

  datatype Ending = Finished | PollFailed

  /** `announced` is the notice of truncation, which comes before everything else; `document` is the JSON answer. */
  datatype Outcome = Outcome(
    announced: bool, printed: seq<OutputEvent>, document: Option<OutputTail>, ending: Ending, cursor: nat)

  datatype Options = Options(bounds: Bounds, limit: int, follow: bool, json: bool)

  function CursorAfter(after: nat, events: seq<OutputEvent>): nat
    decreases |events|
  {
    if events == [] then after else CursorAfter(Max(after, events[0].sequence), events[1..])
  }

  /** What a follower prints whose cursor is `after`. */
  function Followed(polls: seq<Poll>, options: Options, after: nat, first: bool): Outcome
    decreases |polls|
  {
    if polls == [] then Outcome(false, [], None, Finished, after)
    else if polls[0].Fails? || options.limit <= 0 then
      Outcome(false, [], None,
              if options.follow && polls[0].Fails? && polls[0].interrupted then Finished else PollFailed, after)
    else
      var tail := TailOf(polls[0].log, options.bounds, after, options.limit);
      if options.json then Outcome(false, [], Some(tail), Finished, after)
      else
        var cursor := CursorAfter(after, tail.events);
        var rest := if options.follow then Followed(polls[1..], options, cursor, false)
                    else Outcome(false, [], None, Finished, cursor);
        rest.(announced := (first && tail.truncated) || rest.announced, printed := tail.events + rest.printed)
  }

  /** The follow-by-cursor loop. */
  method RunProcessLogs(polls: seq<Poll>, options: Options, from: nat) returns (r: Outcome)
    ensures r == Followed(polls, options, from, true)
  {
    var after, first, k := from, true, 0;
    var announced, printed := false, [];
    while k < |polls|
      invariant k <= |polls|
      invariant Followed(polls, options, from, true) == Resumed(announced, printed, Followed(polls[k..], options, after, first))
    {
      assert polls[k..][0] == polls[k] && polls[k..][1..] == polls[k + 1..];
      if polls[k].Fails? || options.limit <= 0 {
        var interrupted := options.follow && polls[k].Fails? && polls[k].interrupted;
        return Outcome(announced, printed, None, if interrupted then Finished else PollFailed, after);
      }
      var tail := TailOf(polls[k].log, options.bounds, after, options.limit);
      if options.json {
        return Outcome(announced, printed, Some(tail), Finished, after);
      }
      assert forall rest: Outcome :: printed + (tail.events + rest.printed) == printed + tail.events + rest.printed;
      if first && tail.truncated {
        announced := true;
      }
      printed, after := PrintEvents(printed, after, tail.events);
      first := false;
      if !options.follow {
        return Outcome(announced, printed, None, Finished, after);
      }
      k := k + 1;
    }
    return Outcome(announced, printed, None, Finished, after);
  }

  /** Prints the events of one answer and moves the cursor along. */
  method PrintEvents(printed: seq<OutputEvent>, after: nat, events: seq<OutputEvent>)
    returns (lines: seq<OutputEvent>, cursor: nat)
    ensures lines == printed + events && cursor == CursorAfter(after, events)
  {
    lines, cursor := printed, after;
    var i := 0;
    while i < |events|
      invariant i <= |events|
      invariant lines == printed + events[..i]
      invariant CursorAfter(after, events) == CursorAfter(cursor, events[i..])
    {
      assert events[i..][1..] == events[i + 1..] && events[i..][0] == events[i];
      assert events[..i + 1] == events[..i] + [events[i]];
      lines := lines + [events[i]];
      if events[i].sequence > cursor {
        cursor := events[i].sequence;
      }
      i := i + 1;
    }
  }

  ghost function Resumed(announced: bool, printed: seq<OutputEvent>, rest: Outcome): Outcome {
    rest.(announced := announced || rest.announced, printed := printed + rest.printed)
  }

  // ---------- what a follower can rely on ----------

  /** The polls look at one and the same log, which only grows. */
  predicate OneLog(polls: seq<Poll>) {
    && (forall i | 0 <= i < |polls| :: polls[i].Sees? ==> Numbered(polls[i].log))
    && (forall i, j | 0 <= i < j < |polls| :: polls[i].Sees? && polls[j].Sees? ==> polls[i].log <= polls[j].log)
  }

  /**
   * The event is in the log the poll saw; it comes behind `previous`, and if the cursor was not zero everything in
   * between had already been discarded when the poll was made.
   */
  predicate FollowsOnAt(poll: Poll, bounds: Bounds, previous: nat, e: OutputEvent) {
    && poll.Sees?
    && 0 < e.sequence <= |poll.log|
    && poll.log[e.sequence - 1] == e
    && previous < e.sequence
    && (previous > 0 ==> e.sequence == previous + 1 || e.sequence == Discarded(poll.log, bounds) + 1)
  }

  function Previous(after: nat, events: seq<OutputEvent>, i: nat): nat
    requires i < |events|
  {
    if i == 0 then after else events[i - 1].sequence
  }

  /** What had been printed when a poll was made. */
  function PrintedBefore(polls: seq<Poll>, options: Options, after: nat, first: bool, k: nat): seq<OutputEvent>
    requires k <= |polls|
  {
    Followed(polls[..k], options, after, first).printed
  }

  /**
   * What each poll prints continues what was printed before it: a follower with a non-zero cursor prints every event
   * at most once and in order, and skips a number only if the buffer had discarded it when the very poll was made that
   * prints the next one; with the cursor at zero it starts among the newest events and goes on likewise.
   */
  lemma {:induction false} FollowerMissesNothingKept(polls: seq<Poll>, options: Options, after: nat, first: bool, k: nat)
    requires OneLog(polls) && k < |polls|
    ensures var printed := Followed(polls, options, after, first).printed;
            var before := PrintedBefore(polls, options, after, first, k);
            var now := PrintedBefore(polls, options, after, first, k + 1);
            before <= now <= printed && PrintsWell(polls[k], options.bounds, after, printed, |before|, |now|)
    decreases |polls|
  {
    if polls[0].Sees? && options.limit > 0 && !options.json {
      if k == 0 {
        FirstPollMissesNothing(polls, options, after, first);
      } else {
        var events := TailOf(polls[0].log, options.bounds, after, options.limit).events;
        var cursor := LastOf(after, events);
        TailFollowsOn(polls[0], options, after);
        FirstPollPrints(polls, options, after, first, k);
        FirstPollPrints(polls, options, after, first, k + 1);
        AllPollsPrint(polls, options, after, first);
        if options.follow {
          FollowerMissesNothingKept(polls[1..], options, cursor, false, k - 1);
          BehindFirst(polls[k], options.bounds, after, events, Followed(polls[1..], options, cursor, false).printed,
                      |PrintedBefore(polls[1..], options, cursor, false, k - 1)|,
                      |PrintedBefore(polls[1..], options, cursor, false, k)|);
        }
      }
    }
  }

  lemma FirstPollMissesNothing(polls: seq<Poll>, options: Options, after: nat, first: bool)
    requires OneLog(polls) && polls != [] && polls[0].Sees? && options.limit > 0 && !options.json
    ensures var printed := Followed(polls, options, after, first).printed;
            var now := PrintedBefore(polls, options, after, first, 1);
            now <= printed && PrintsWell(polls[0], options.bounds, after, printed, 0, |now|)
  {
    var events := TailOf(polls[0].log, options.bounds, after, options.limit).events;
    TailFollowsOn(polls[0], options, after);
    FirstPollPrints(polls, options, after, first, 1);
    AllPollsPrint(polls, options, after, first);
    assert polls[1..][..0] == [];
    InFirst(polls[0], options.bounds, after, events, Followed(polls, options, after, first).printed);
  }

  lemma AllPollsPrint(polls: seq<Poll>, options: Options, after: nat, first: bool)
    requires polls != [] && polls[0].Sees? && Numbered(polls[0].log) && options.limit > 0 && !options.json
    ensures var events := TailOf(polls[0].log, options.bounds, after, options.limit).events;
            Followed(polls, options, after, first).printed ==
            events + if options.follow then Followed(polls[1..], options, LastOf(after, events), false).printed else []
  {
    FirstPollPrints(polls, options, after, first, |polls|);
    assert polls[..|polls|] == polls && polls[1..][..|polls| - 1] == polls[1..];
  }

  /**
   * A poll that sees the log is answered with the newest kept events, if the cursor is at zero, or with those behind
   * the cursor: as one document, or line by line, and then the next poll goes on behind the last line.
   */
  lemma FirstPollShows(polls: seq<Poll>, options: Options, after: nat, first: bool) returns (tail: OutputTail)
    requires polls != [] && polls[0].Sees? && Numbered(polls[0].log) && options.limit > 0
    ensures ShowsTail(polls[0].log, Discarded(polls[0].log, options.bounds), after, options.limit, tail)
    ensures var r := Followed(polls, options, after, first);
            if options.json then r == Outcome(false, [], Some(tail), Finished, after)
            else
              var rest := Followed(if options.follow then polls[1..] else [], options, LastOf(after, tail.events), false);
              && r.printed == tail.events + rest.printed && r.document == rest.document
              && r.ending == rest.ending && r.cursor == rest.cursor
              && (r.announced <==> (first && tail.truncated) || rest.announced)
  {
    tail := TailOf(polls[0].log, options.bounds, after, options.limit);
    TailShows(polls[0].log, options.bounds, after, options.limit);
    TailFollowsOn(polls[0], options, after);
  }

  /** All polls before one succeeded. */
  predicate SeesUntil(polls: seq<Poll>, k: nat)
    requires k <= |polls|
  {
    forall j | 0 <= j < k :: polls[j].Sees?
  }

  /** How the loop ends: with the first failure, unless it is the interruption of a follower. */
  lemma {:induction false} EndsWithFailure(polls: seq<Poll>, options: Options, after: nat, first: bool)
    ensures var r := Followed(polls, options, after, first);
            && (r.document.Some? <==> options.json && options.limit > 0 && polls != [] && polls[0].Sees?)
            && (options.follow && !options.json && options.limit > 0 ==>
                  (r.ending.PollFailed? <==>
                     exists k: nat :: k < |polls| && polls[k] == Fails(false) && SeesUntil(polls, k)))
            && (!options.follow || options.json || options.limit <= 0 ==>
                  (r.ending.PollFailed? <==>
                     && polls != [] && (polls[0].Fails? || options.limit <= 0)
                     && !(options.follow && polls[0] == Fails(true))))
    decreases |polls|
  {
    if polls != [] && polls[0].Sees? && options.follow && !options.json && options.limit > 0 {
      var cursor := CursorAfter(after, TailOf(polls[0].log, options.bounds, after, options.limit).events);
      EndsWithFailure(polls[1..], options, cursor, false);
      LaterFailure(polls);
    } else if polls != [] {
      assert SeesUntil(polls, 0);
    }
  }

  /** Behind a poll that succeeded, the first failure is the first failure of the rest. */
  lemma LaterFailure(polls: seq<Poll>)
    requires polls != [] && polls[0].Sees?
    ensures (exists k: nat :: k < |polls| && polls[k] == Fails(false) && SeesUntil(polls, k))
            <==> exists k: nat :: k < |polls[1..]| && polls[1..][k] == Fails(false) && SeesUntil(polls[1..], k)
  {
    if k: nat :| k < |polls| && polls[k] == Fails(false) && SeesUntil(polls, k) {
      assert polls[1..][k - 1] == Fails(false) && SeesUntil(polls[1..], k - 1);
    }
    if k: nat :| k < |polls[1..]| && polls[1..][k] == Fails(false) && SeesUntil(polls[1..], k) {
      forall j | 0 <= j < k + 1
        ensures polls[j].Sees?
      {
        if j > 0 {
          assert polls[1..][j - 1].Sees?;
        }
      }
      assert polls[k + 1] == Fails(false) && SeesUntil(polls, k + 1);
    }
  }

  /** Every event in a range of what was printed follows on as the poll saw it. */
  predicate PrintsWell(poll: Poll, bounds: Bounds, after: nat, printed: seq<OutputEvent>, from: nat, end: nat) {
    && end <= |printed|
    && forall i {:trigger Previous(after, printed, i)} | from <= i < end ::
         FollowsOnAt(poll, bounds, Previous(after, printed, i), printed[i])
  }

  /** The first poll prints its answer, and the others what they print from there on. */
  lemma FirstPollPrints(polls: seq<Poll>, options: Options, after: nat, first: bool, k: nat)
    requires 0 < k <= |polls| && polls[0].Sees? && Numbered(polls[0].log) && options.limit > 0 && !options.json
    ensures var events := TailOf(polls[0].log, options.bounds, after, options.limit).events;
            PrintedBefore(polls, options, after, first, k) ==
            events + if options.follow then PrintedBefore(polls[1..], options, LastOf(after, events), false, k - 1) else []
  {
    TailFollowsOn(polls[0], options, after);
    assert polls[..k][0] == polls[0] && polls[..k][1..] == polls[1..][..k - 1];
  }

  lemma InFirst(poll: Poll, bounds: Bounds, after: nat, events: seq<OutputEvent>, printed: seq<OutputEvent>)
    requires AllFollowOnAt(poll, bounds, after, events) && events <= printed
    ensures PrintsWell(poll, bounds, after, printed, 0, |events|)
  {
    forall i | 0 <= i < |events|
      ensures FollowsOnAt(poll, bounds, Previous(after, printed, i), printed[i])
    {
      assert Previous(after, events, i) == Previous(after, printed, i) && events[i] == printed[i];
    }
  }

  lemma BehindFirst(
    poll: Poll, bounds: Bounds, after: nat, events: seq<OutputEvent>, rest: seq<OutputEvent>, from: nat, end: nat)
    requires PrintsWell(poll, bounds, LastOf(after, events), rest, from, end)
    ensures PrintsWell(poll, bounds, after, events + rest, |events| + from, |events| + end)
  {
    var printed := events + rest;
    forall i | |events| + from <= i < |events| + end
      ensures FollowsOnAt(poll, bounds, Previous(after, printed, i), printed[i])
    {
      var j := i - |events|;
      assert Previous(LastOf(after, events), rest, j) == Previous(after, printed, i) && rest[j] == printed[i];
    }
  }

  /** Every printed event was printed by one of the polls. */
  lemma PrintingPoll(polls: seq<Poll>, options: Options, after: nat, first: bool, i: nat) returns (k: nat)
    requires i < |Followed(polls, options, after, first).printed|
    ensures k < |polls|
    ensures |PrintedBefore(polls, options, after, first, k)| <= i < |PrintedBefore(polls, options, after, first, k + 1)|
  {
    assert polls[..|polls|] == polls;
    k := 0;
    while |PrintedBefore(polls, options, after, first, k + 1)| <= i
      invariant k < |polls| && |PrintedBefore(polls, options, after, first, k)| <= i
      decreases |polls| - k
    {
      k := k + 1;
    }
  }

  predicate AllFollowOnAt(poll: Poll, bounds: Bounds, after: nat, printed: seq<OutputEvent>) {
    forall i {:trigger Previous(after, printed, i)} | 0 <= i < |printed| :: FollowsOnAt(poll, bounds, Previous(after, printed, i), printed[i])
  }

  function LastOf(after: nat, printed: seq<OutputEvent>): nat {
    if printed == [] then after else printed[|printed| - 1].sequence
  }

  lemma TailFollowsOn(poll: Poll, options: Options, after: nat)
    requires poll.Sees? && Numbered(poll.log) && options.limit > 0
    ensures var events := TailOf(poll.log, options.bounds, after, options.limit).events;
            AllFollowOnAt(poll, options.bounds, after, events) && CursorAfter(after, events) == LastOf(after, events)
  {
    var events := TailOf(poll.log, options.bounds, after, options.limit).events;
    forall i | 0 <= i < |events|
      ensures FollowsOnAt(poll, options.bounds, Previous(after, events, i), events[i])
    {
      TailEventFollowsOn(poll, options, after, i);
    }
    CursorIsLast(poll, options.bounds, after, events);
  }

  lemma TailEventFollowsOn(poll: Poll, options: Options, after: nat, i: nat)
    requires poll.Sees? && Numbered(poll.log) && options.limit > 0
    requires i < |TailOf(poll.log, options.bounds, after, options.limit).events|
    ensures var events := TailOf(poll.log, options.bounds, after, options.limit).events;
            FollowsOnAt(poll, options.bounds, Previous(after, events, i), events[i])
  {
    var dropped := Discarded(poll.log, options.bounds);
    var first := Max(dropped, if after == 0 then |poll.log| - options.limit else Min(after, |poll.log|));
    var events := TailOf(poll.log, options.bounds, after, options.limit).events;
    assert events[i] == poll.log[first + i];
    assert i > 0 ==> events[i - 1] == poll.log[first + i - 1];
  }

  lemma {:induction false} CursorIsLast(poll: Poll, bounds: Bounds, after: nat, events: seq<OutputEvent>)
    requires AllFollowOnAt(poll, bounds, after, events)
    ensures CursorAfter(after, events) == LastOf(after, events)
    decreases |events|
  {
    if events != [] {
      assert FollowsOnAt(poll, bounds, Previous(after, events, 0), events[0]);
      forall i | 0 <= i < |events[1..]|
        ensures FollowsOnAt(poll, bounds, Previous(events[0].sequence, events[1..], i), events[1..][i])
      {
        assert FollowsOnAt(poll, bounds, Previous(after, events, i + 1), events[i + 1]);
      }
      CursorIsLast(poll, bounds, events[0].sequence, events[1..]);
    }
  }

  /** The cursor ends at the last event printed. */
  lemma {:induction false} CursorIsLastPrinted(polls: seq<Poll>, options: Options, after: nat, first: bool)
    requires OneLog(polls)
    ensures var r := Followed(polls, options, after, first);
            r.cursor == LastOf(after, r.printed)
    decreases |polls|
  {
    if polls != [] && polls[0].Sees? && options.limit > 0 && !options.json {
      var events := TailOf(polls[0].log, options.bounds, after, options.limit).events;
      var cursor := LastOf(after, events);
      TailFollowsOn(polls[0], options, after);
      if options.follow {
        CursorIsLastPrinted(polls[1..], options, cursor, false);
        LastOfChain(after, events, Followed(polls[1..], options, cursor, false).printed);
      } else {
        LastOfChain(after, events, []);
      }
    }
  }

  lemma LastOfChain(after: nat, events: seq<OutputEvent>, rest: seq<OutputEvent>)
    ensures LastOf(after, events + rest) == LastOf(LastOf(after, events), rest)
  {
    assert rest == [] ==> events + rest == events;
  }

  /** Printed numbers strictly increase, so no event is printed twice. */
  lemma {:induction false} PrintsInOrder(polls: seq<Poll>, options: Options, after: nat, first: bool, i: nat, j: nat)
    requires OneLog(polls) && i < j < |Followed(polls, options, after, first).printed|
    ensures Followed(polls, options, after, first).printed[i].sequence < Followed(polls, options, after, first).printed[j].sequence
    decreases j
  {
    var k := PrintingPoll(polls, options, after, first, j);
    FollowerMissesNothingKept(polls, options, after, first, k);
    assert FollowsOnAt(polls[k], options.bounds, Previous(after, Followed(polls, options, after, first).printed, j),
                       Followed(polls, options, after, first).printed[j]);
    if i < j - 1 {
      PrintsInOrder(polls, options, after, first, i, j - 1);
    }
  }

  /** The notice of truncation depends on the first answer alone: it is given exactly if that one had lost something. */
  lemma {:induction false} AnnouncesFirstLoss(polls: seq<Poll>, options: Options, after: nat, first: bool)
    ensures Followed(polls, options, after, first).announced <==>
              && first && !options.json && options.limit > 0
              && polls != [] && polls[0].Sees? && Discarded(polls[0].log, options.bounds) > 0
    decreases |polls|
  {
    if polls != [] && polls[0].Sees? && options.limit > 0 && !options.json && options.follow {
      var events := TailOf(polls[0].log, options.bounds, after, options.limit).events;
      AnnouncesFirstLoss(polls[1..], options, CursorAfter(after, events), false);
    }
  }

  lemma TailOrdered(poll: Poll, options: Options, after: nat)
    requires poll.Sees? && Numbered(poll.log) && options.limit > 0
    requires TailOf(poll.log, options.bounds, after, options.limit).events != []
    ensures var events := TailOf(poll.log, options.bounds, after, options.limit).events;
            events[0].sequence <= events[|events| - 1].sequence
  {
  }

  /** Enough polls of a log that has stopped growing bring the cursor to its end. */
  lemma {:induction false} FollowerCatchesUp(polls: seq<Poll>, options: Options, after: nat, log: seq<OutputEvent>)
    requires options.follow && !options.json && options.limit > 0 && Numbered(log) && 0 < after <= |log|
    requires forall k | 0 <= k < |polls| :: polls[k] == Sees(log)
    requires options.bounds.Positive() && Chunked(log, options.bounds)
    requires |polls| >= |log| - after
    ensures Followed(polls, options, after, false).cursor == |log|
    decreases |polls|
  {
    if polls != [] {
      TailFollowsOn(polls[0], options, after);
      var events := TailOf(log, options.bounds, after, options.limit).events;
      var cursor := CursorAfter(after, events);
      NewestIsKept(log, options.bounds);
      assert cursor <= |log| && (cursor > after || cursor == |log|) by {
        if events != [] {
          assert FollowsOnAt(polls[0], options.bounds, Previous(after, events, |events| - 1), events[|events| - 1]);
          assert FollowsOnAt(polls[0], options.bounds, Previous(after, events, 0), events[0]);
          TailOrdered(polls[0], options, after);
        }
      }
      FollowerCatchesUp(polls[1..], options, cursor, log);
    }
  }
}
