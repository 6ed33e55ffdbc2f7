/** What the terminal model keeps of a process's output. */
module TuiOutputs {
  import opened Wrappers
  import opened OutputBuffers

  const OUTPUT_LIMIT: nat := 400

  datatype Output = Output(events: seq<OutputEvent>, truncated: bool, lastSeq: nat)

  const NO_OUTPUT := Output([], false, 0)

  // ---------- sorting ----------

  /** Inserts behind everything with the same number or a smaller one. */
  function Insert(sorted: seq<OutputEvent>, e: OutputEvent): seq<OutputEvent> {
    if sorted == [] then [e]
    else
      var last := |sorted| - 1;
      if sorted[last].sequence <= e.sequence then sorted + [e] else Insert(sorted[..last], e) + [sorted[last]]
  }

  /** The stable sort by number. */
  function Sort(events: seq<OutputEvent>): seq<OutputEvent> {
    if events == [] then [] else Insert(Sort(events[..|events| - 1]), events[|events| - 1])
  }

  /** Numbers do not fall, and do not exceed a bound. */
  predicate AscendsTo(events: seq<OutputEvent>, bound: nat) {
    events == [] ||
    (events[|events| - 1].sequence <= bound && AscendsTo(events[..|events| - 1], events[|events| - 1].sequence))
  }

  lemma {:induction false} InsertAscends(sorted: seq<OutputEvent>, e: OutputEvent, bound: nat)
    requires AscendsTo(sorted, bound) && e.sequence <= bound
    ensures AscendsTo(Insert(sorted, e), bound)
    decreases |sorted|
  {
    if sorted == [] {
      assert [e][..0] == [];
    } else {
      var last := |sorted| - 1;
      if sorted[last].sequence <= e.sequence {
        assert (sorted + [e])[..|sorted|] == sorted;
      } else {
        InsertAscends(sorted[..last], e, sorted[last].sequence);
        var r := Insert(sorted[..last], e) + [sorted[last]];
        assert r[..|r| - 1] == Insert(sorted[..last], e);
      }
    }
  }

  lemma {:induction false} InsertKeeps(sorted: seq<OutputEvent>, e: OutputEvent, x: OutputEvent)
    ensures x in Insert(sorted, e) <==> x in sorted || x == e
    decreases |sorted|
  {
    if sorted != [] {
      var last := |sorted| - 1;
      assert sorted == sorted[..last] + [sorted[last]];
      if sorted[last].sequence > e.sequence {
        InsertKeeps(sorted[..last], e, x);
      }
    }
  }

  lemma {:induction false} SortKeeps(events: seq<OutputEvent>, x: OutputEvent)
    ensures x in Sort(events) <==> x in events
    decreases |events|
  {
    if events != [] {
      var last := |events| - 1;
      assert events == events[..last] + [events[last]];
      SortKeeps(events[..last], x);
      InsertKeeps(Sort(events[..last]), events[last], x);
    }
  }

  lemma {:induction false} SortAscends(events: seq<OutputEvent>) returns (bound: nat)
    ensures AscendsTo(Sort(events), bound)
    decreases |events|
  {
    bound := 0;
    if events != [] {
      var last := |events| - 1;
      var b := SortAscends(events[..last]);
      bound := Max(b, events[last].sequence);
      InsertAscends(Sort(events[..last]), events[last], bound);
    }
  }

  lemma {:induction false} BoundHolds(events: seq<OutputEvent>, bound: nat, x: OutputEvent)
    requires AscendsTo(events, bound) && x in events
    ensures x.sequence <= bound
    decreases |events|
  {
    var last := |events| - 1;
    assert events == events[..last] + [events[last]];
    if x in events[..last] {
      BoundHolds(events[..last], events[last].sequence, x);
    }
  }

  // ---------- taking over what is new ----------

  function LastOf(events: seq<OutputEvent>, lastSeq: nat): nat {
    if events == [] then lastSeq else events[|events| - 1].sequence
  }

  /** What the appending loop takes of a series, having seen everything up to `lastSeq`. */
  function News(sorted: seq<OutputEvent>, lastSeq: nat): seq<OutputEvent> {
    if sorted == [] then []
    else
      var last := |sorted| - 1;
      var news := News(sorted[..last], lastSeq);
      if sorted[last].sequence > LastOf(news, lastSeq) then news + [sorted[last]] else news
  }

  function Newest(events: seq<OutputEvent>): seq<OutputEvent> {
    if |events| > OUTPUT_LIMIT then events[|events| - OUTPUT_LIMIT..] else events
  }

  function Appended(o: Output, events: seq<OutputEvent>): Output {
    var news := News(Sort(events), o.lastSeq);
    Output(Newest(o.events + news), o.truncated, LastOf(news, o.lastSeq))
  }

  /** The appending loop, given the sorted events. */
  method AppendEvents(o: Output, events: seq<OutputEvent>) returns (r: Output)
    ensures r == Appended(o, events)
  {
    var sorted := Sort(events);
    var kept, last := o.events, o.lastSeq;
    var i := 0;
    while i < |sorted|
      invariant i <= |sorted|
      invariant kept == o.events + News(sorted[..i], o.lastSeq)
      invariant last == LastOf(News(sorted[..i], o.lastSeq), o.lastSeq)
    {
      assert sorted[..i + 1][..i] == sorted[..i];
      if sorted[i].sequence > last {
        kept := kept + [sorted[i]];
        last := sorted[i].sequence;
      }
      i := i + 1;
    }
    assert sorted[..i] == sorted;
    if |kept| > OUTPUT_LIMIT {
      kept := kept[|kept| - OUTPUT_LIMIT..];
    }
    return Output(kept, o.truncated, last);
  }

  /** Numbers rise strictly, from above `from` on. */
  predicate Rises(from: nat, events: seq<OutputEvent>) {
    events == [] ||
    (events[|events| - 1].sequence > LastOf(events[..|events| - 1], from) && Rises(from, events[..|events| - 1]))
  }

  lemma {:induction false} NewsRises(sorted: seq<OutputEvent>, lastSeq: nat)
    ensures Rises(lastSeq, News(sorted, lastSeq))
    decreases |sorted|
  {
    if sorted != [] {
      var last := |sorted| - 1;
      NewsRises(sorted[..last], lastSeq);
      var news := News(sorted[..last], lastSeq);
      assert (news + [sorted[last]])[..|news|] == news;
    }
  }

  lemma {:induction false} NewsIsTaken(sorted: seq<OutputEvent>, lastSeq: nat, x: OutputEvent)
    requires x in News(sorted, lastSeq)
    ensures x in sorted
    decreases |sorted|
  {
    var last := |sorted| - 1;
    if x in News(sorted[..last], lastSeq) {
      NewsIsTaken(sorted[..last], lastSeq, x);
    }
  }

  lemma {:induction false} RisesOn(from: nat, a: seq<OutputEvent>, b: seq<OutputEvent>)
    requires Rises(from, a) && Rises(LastOf(a, from), b)
    ensures Rises(from, a + b)
    decreases |b|
  {
    if b == [] {
      assert a + b == a;
    } else {
      var last := |b| - 1;
      assert (a + b)[..|a + b| - 1] == a + b[..last];
      RisesOn(from, a, b[..last]);
      assert b[..last] == [] ==> a + b[..last] == a;
    }
  }

  lemma {:induction false} TailRises(from: nat, events: seq<OutputEvent>, k: nat)
    requires Rises(from, events) && k <= |events|
    ensures Rises(0, events[k..])
    decreases |events|
  {
    if k < |events| {
      var last := |events| - 1;
      TailRises(from, events[..last], k);
      assert events[k..][..last - k] == events[..last][k..];
    }
  }

  lemma {:induction false} RisesMeaning(from: nat, events: seq<OutputEvent>, i: nat, j: nat)
    requires Rises(from, events) && i <= j < |events|
    ensures from < events[i].sequence <= events[j].sequence <= LastOf(events, from)
    ensures i < j ==> events[i].sequence < events[j].sequence
    decreases |events|
  {
    var last := |events| - 1;
    if last > 0 {
      RisesMeaning(from, events[..last], Min(i, last - 1), last - 1);
      if j < last {
        RisesMeaning(from, events[..last], i, j);
      }
    }
  }

  /** Nothing new in an answer is passed over: every new number of it is among the news. */
  lemma {:induction false} NewsIsComplete(sorted: seq<OutputEvent>, bound: nat, lastSeq: nat, e: OutputEvent)
    requires AscendsTo(sorted, bound) && e in sorted && e.sequence > lastSeq
    ensures exists n :: n in News(sorted, lastSeq) && n.sequence == e.sequence
    decreases |sorted|
  {
    var last := |sorted| - 1;
    var before := sorted[..last];
    var news := News(before, lastSeq);
    assert sorted == before + [sorted[last]];
    if e in before {
      NewsIsComplete(before, sorted[last].sequence, lastSeq, e);
      var n :| n in news && n.sequence == e.sequence;
      assert n in News(sorted, lastSeq);
    } else if sorted[last].sequence > LastOf(news, lastSeq) {
      assert e in News(sorted, lastSeq);
    } else {
      var n := news[|news| - 1];
      NewsIsTaken(before, lastSeq, n);
      BoundHolds(before, sorted[last].sequence, n);
      assert n in News(sorted, lastSeq);
    }
  }

  // ---------- what is kept ----------

  ghost predicate Good(o: Output) {
    Rises(0, o.events) && (o.events != [] ==> o.events[|o.events| - 1].sequence == o.lastSeq) && |o.events| <= OUTPUT_LIMIT
  }

  /** Appending keeps the output good and adds nothing that is not in the answer. */
  lemma AppendKeepsGood(o: Output, events: seq<OutputEvent>)
    requires Good(o)
    ensures Good(Appended(o, events))
    ensures forall e | e in Appended(o, events).events :: e in o.events || e in events
  {
    var news := News(Sort(events), o.lastSeq);
    var all := o.events + news;
    NewsRises(Sort(events), o.lastSeq);
    AllRises(o, news);
    TailRises(0, all, |all| - |Newest(all)|);
    assert Newest(all) == all[|all| - |Newest(all)|..];
    forall e | e in Newest(all)
      ensures e in o.events || e in events
    {
      assert e in all;
      if e in news {
        NewsIsTaken(Sort(events), o.lastSeq, e);
        SortKeeps(events, e);
      }
    }
  }

  lemma AllRises(o: Output, news: seq<OutputEvent>)
    requires Good(o) && Rises(o.lastSeq, news)
    ensures Rises(0, o.events + news)
    ensures o.events + news != [] ==> LastOf(o.events + news, 0) == LastOf(news, o.lastSeq)
  {
    if o.events == [] {
      TailRises(o.lastSeq, news, 0);
      assert news[0..] == news && o.events + news == news;
    } else {
      RisesOn(0, o.events, news);
      assert news == [] ==> o.events + news == o.events;
    }
  }

  /** Every new event of an answer, or one with its number, is taken over before the log is cut to its limit. */
  lemma AppendTakesEverything(o: Output, events: seq<OutputEvent>, e: OutputEvent)
    requires e in events && e.sequence > o.lastSeq
    ensures exists n :: n in o.events + News(Sort(events), o.lastSeq) && n.sequence == e.sequence
  {
    SortKeeps(events, e);
    var bound := SortAscends(events);
    NewsIsComplete(Sort(events), bound, o.lastSeq, e);
    var n :| n in News(Sort(events), o.lastSeq) && n.sequence == e.sequence;
    assert n in o.events + News(Sort(events), o.lastSeq);
  }

  /** Appending keeps the newest 400 of all events, and all of them if there are no more. */
  lemma NewestAreKept(o: Output, events: seq<OutputEvent>)
    ensures var all := o.events + News(Sort(events), o.lastSeq);
            Appended(o, events).events == all[|all| - Min(400, |all|)..]
  {
  }

  /** In a good output numbers strictly increase, are positive, and do not exceed the last one seen. */
  lemma GoodMeaning(o: Output)
    requires Good(o)
    ensures forall i, j | 0 <= i < j < |o.events| :: o.events[i].sequence < o.events[j].sequence
    ensures forall i | 0 <= i < |o.events| :: 0 < o.events[i].sequence <= o.lastSeq
  {
    forall i, j | 0 <= i < j < |o.events|
      ensures o.events[i].sequence < o.events[j].sequence
    {
      RisesMeaning(0, o.events, i, j);
    }
    forall i | 0 <= i < |o.events|
      ensures 0 < o.events[i].sequence <= o.lastSeq
    {
      RisesMeaning(0, o.events, i, i);
    }
  }
}
