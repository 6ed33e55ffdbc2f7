/** How many children a key has, those that outlived an earlier daemon included. */
module LifecycleChildren {
  import opened Wrappers
  import opened ProcessStates
  import opened Registries
  import opened RegistryDocuments
  import opened RegistryStores
  import opened Lifecycle
  import opened LifecycleWorld
  import opened LifecycleInvariant
  import opened LifecycleSections
  import opened LifecycleCalls
  import opened LifecycleRuns

  // ---------- one daemon ----------

  /**
   * At every moment of the life of one daemon, inside critical sections too, each key has at most one child that this
   * daemon created and did not yet wait for; and whenever the lock is free such a child belongs to an active runtime of
   * that key.
   */
  lemma OneChildOfADaemon(ws: seq<World>, events: seq<Event>, i: nat)
    requires IsHistory(ws, events) && StartsFresh(ws[0]) && i < |ws|
    ensures AtMostOne(ws[i].log)
    ensures forall child | child in Live(ws[i].log) ::
              IsCurrent(ws[i].d.registry, child) && IsActiveAt(ws[i].d.registry, child.key)
  {
    HistoryKeeps(ws, events, i);
    forall child | child in Live(ws[i].log)
      ensures IsCurrent(ws[i].d.registry, child) && IsActiveAt(ws[i].d.registry, child.key)
    {
      assert OwnedBy(ws[i].d, child);
    }
  }

  // ---------- all daemons ----------

  /** The children that nobody waited for and that did not end unseen. */
  ghost function StillRunning(orphans: set<Incarnation>, log: seq<ProcessEvent>): set<Incarnation> {
    orphans + Live(log)
  }

  ghost predicate OneAt(children: set<Incarnation>, key: Key) {
    forall a, b | a in children && b in children && a.key == key && b.key == key :: a == b
  }

  ghost predicate HasOrphan(w: World, key: Key) {
    exists child :: child in w.orphans && child.key == key
  }

  /** What an event does to the children of the daemon, in order. */
  ghost function ProcessEvents(w: World, e: Event): seq<ProcessEvent>
    requires CanHappen(w, e)
  {
    match e
    case Act(a) => if a.ChildExits? then [Reaped(a.child.key, a.child.instanceID)] else SectionOf(w, a).events
    case Die(c) => if c.during.None? then [] else SectionOf(w, c.during.value).events[..c.events]
    case OrphanEnds(_) => []
  }

  /** At every moment of the event the key has at most one running child. */
  ghost predicate OneThroughout(w: World, e: Event, key: Key)
    requires CanHappen(w, e)
  {
    forall n | 0 <= n <= |ProcessEvents(w, e)| :: OneAt(StillRunning(w.orphans, w.log + ProcessEvents(w, e)[..n]), key)
  }

  /** The event creates a child of a key of which an earlier daemon left a running child behind. */
  ghost predicate Doubles(w: World, e: Event, key: Key)
    requires CanHappen(w, e)
  {
    HasOrphan(w, key) && exists id: string :: Spawned(key, id) in ProcessEvents(w, e)
  }

  ghost predicate OneDuring(ws: seq<World>, events: seq<Event>, i: int, key: Key)
    requires 0 <= i < |events| < |ws|
  {
    CanHappen(ws[i], events[i]) && OneThroughout(ws[i], events[i], key)
  }

  ghost predicate DoublesIn(ws: seq<World>, events: seq<Event>, i: int, key: Key)
    requires 0 <= i < |events| < |ws|
  {
    CanHappen(ws[i], events[i]) && Doubles(ws[i], events[i], key)
  }

  ghost predicate OneAlways(ws: seq<World>, events: seq<Event>, until: nat, key: Key)
    requires until <= |events| < |ws|
  {
    forall i | 0 <= i < until :: OneDuring(ws, events, i, key)
  }

  ghost predicate NeverDoubled(ws: seq<World>, events: seq<Event>, until: nat, key: Key)
    requires until <= |events| < |ws|
  {
    forall i | 0 <= i < until :: !DoublesIn(ws, events, i, key)
  }

  ghost predicate OneIn(w: World, key: Key) {
    OneAt(StillRunning(w.orphans, w.log), key)
  }

  /**
   * In every history of clients, exits, failures and crashes, at every moment of every critical section, a key has at
   * most one running child, whichever daemon created it, exactly as long as no child of the key is created while one
   * still runs that an earlier daemon left behind.
   */
  lemma OneProcessPerKey(ws: seq<World>, events: seq<Event>, until: nat, key: Key)
    requires IsHistory(ws, events) && StartsFresh(ws[0]) && until < |ws|
    ensures OneAlways(ws, events, until, key) <==> NeverDoubled(ws, events, until, key)
    ensures OneAlways(ws, events, until, key) ==> OneIn(ws[until], key)
  {
    NothingRuns(ws[0], key);
    forall i | 0 <= i < until
      ensures IsOneStep(ws, events, i, key)
    {
      OneStep(ws, events, i, key);
    }
    OneByOne(ws, events, until, key);
  }

  lemma {:induction false} OneByOne(ws: seq<World>, events: seq<Event>, until: nat, key: Key)
    requires until <= |events| < |ws| && OneIn(ws[0], key)
    requires forall i | 0 <= i < until :: IsOneStep(ws, events, i, key)
    ensures OneAlways(ws, events, until, key) <==> NeverDoubled(ws, events, until, key)
    ensures OneAlways(ws, events, until, key) ==> OneIn(ws[until], key)
  {
    if until > 0 {
      var i := until - 1;
      OneByOne(ws, events, i, key);
      LastEvent(ws, events, i, key);
    }
  }

  lemma NothingRuns(w: World, key: Key)
    requires StartsFresh(w)
    ensures OneIn(w, key)
  {
    assert Live(w.log) == {};
  }

  lemma LastEvent(ws: seq<World>, events: seq<Event>, i: nat, key: Key)
    requires i < |events| < |ws|
    requires OneAlways(ws, events, i, key) <==> NeverDoubled(ws, events, i, key)
    requires OneAlways(ws, events, i, key) ==> OneIn(ws[i], key)
    requires IsOneStep(ws, events, i, key)
    ensures OneAlways(ws, events, i + 1, key) <==> NeverDoubled(ws, events, i + 1, key)
    ensures OneAlways(ws, events, i + 1, key) ==> OneIn(ws[i + 1], key)
  {
  }

  /** One child before the event means: one throughout it exactly if it doubles nothing, and then one after it. */
  ghost predicate IsOneStep(ws: seq<World>, events: seq<Event>, i: int, key: Key)
    requires 0 <= i < |events| < |ws|
  {
    OneIn(ws[i], key) ==>
      && (OneDuring(ws, events, i, key) <==> !DoublesIn(ws, events, i, key))
      && (OneDuring(ws, events, i, key) ==> OneIn(ws[i + 1], key))
  }

  lemma OneStep(ws: seq<World>, events: seq<Event>, i: nat, key: Key)
    requires IsHistory(ws, events) && StartsFresh(ws[0]) && i < |events|
    ensures IsOneStep(ws, events, i, key)
  {
    if OneIn(ws[i], key) {
      HistoryKeeps(ws, events, i);
      OrphansWereIssued(ws, events, i);
      assert IsStep(ws, events, i);
      OneEvent(ws[i], events[i], ws[i + 1], key);
    }
  }

  lemma OneEvent(w: World, e: Event, w': World, key: Key)
    requires WorldInv(w) && CanHappen(w, e) && w' == After(w, e)
    requires OrphansIssued(w) && OneIn(w, key)
    ensures OneThroughout(w, e, key) <==> !Doubles(w, e, key)
    ensures OneThroughout(w, e, key) ==> OneIn(w', key)
  {
    EventIsOneExactly(w, e, key);
    RunningAfter(w, e);
    if OneThroughout(w, e, key) {
      OneAtLast(w.orphans, w.log, ProcessEvents(w, e), StillRunning(w'.orphans, w'.log), key);
    }
  }

  lemma OneAtLast(
      orphans: set<Incarnation>, log: seq<ProcessEvent>, events: seq<ProcessEvent>, children: set<Incarnation>, key: Key)
    requires forall n | 0 <= n <= |events| :: OneAt(StillRunning(orphans, log + events[..n]), key)
    requires children <= StillRunning(orphans, log + events)
    ensures OneAt(children, key)
  {
    assert events[..|events|] == events;
  }

  // ---------- one event ----------

  /** What runs after an event ran at the end of it. */
  lemma RunningAfter(w: World, e: Event)
    requires CanHappen(w, e)
    ensures StillRunning(After(w, e).orphans, After(w, e).log) <= StillRunning(w.orphans, w.log + ProcessEvents(w, e))
  {
    match e
    case Act(a) => ActLogs(w, a);
    case Die(c) => CrashLogs(w, c);
    case OrphanEnds(_) => assert w.log + [] == w.log;
  }

  lemma CrashLogs(w: World, c: Crash)
    requires CrashEnabled(w, c)
    ensures var w' := Recover(w, c);
            && w'.orphans == w.orphans + Live(w.log + ProcessEvents(w, Die(c)))
            && Live(w'.log) == {}
  {
    assert LogAtCrash(w, c) == w.log + ProcessEvents(w, Die(c));
  }

  lemma ActLogs(w: World, a: Action)
    requires Enabled(w, a)
    ensures Apply(w, a).orphans == w.orphans && Apply(w, a).log == w.log + ProcessEvents(w, Act(a))
  {
  }

  /** The children a section creates: at most one, of a key that owns nothing, with a fresh ID. */
  ghost predicate AtMostOneNew(w: World, ids: set<string>, events: seq<ProcessEvent>) {
    events == [] || exists key, id :: id in ids && CreatesOne(w, events, key, id)
  }

  ghost predicate CreatesOne(w: World, events: seq<ProcessEvent>, key: Key, id: string) {
    && key !in w.d.active && id !in w.issued
    && (events == [Spawned(key, id)] || events == [Spawned(key, id), Reaped(key, id)])
  }

  lemma SectionCreates(w: World, a: Action)
    requires DaemonInv(w) && Enabled(w, a)
    ensures AtMostOneNew(w, IDsOf(a), SectionOf(w, a).events)
  {
    if a.Start? {
      StartCreates(w, a.key, a.answers);
    } else if a.RestartStart? {
      StartCreates(w, w.calls[a.call].key, a.answers);
    } else if a.Observe? {
      ObservedSection(w, a.child, a.at, a.fault, SectionOf(w, a));
    }
  }

  lemma StartCreates(w: World, key: Key, answers: StartAnswers)
    requires DaemonInv(w) && Plausible(w, answers)
    ensures AtMostOneNew(w, NewIDs(answers), StartSection(w.d, key, answers).events)
  {
    if LookupFailure(w.d.registry, key).None? && !IsActiveAt(w.d.registry, key) && answers.newID.Some? {
      var id := answers.newID.value;
      FreshIsUnique(w, key, id);
      FreshStartEffect(w.d, key, id, answers, w.issued);
      var events := FreshStart(w.d, key, id, answers).events;
      assert events == [] || CreatesOne(w, events, key, id);
    }
  }

  lemma EventIsOneExactly(w: World, e: Event, key: Key)
    requires WorldInv(w) && CanHappen(w, e) && OrphansIssued(w) && OneIn(w, key)
    ensures OneThroughout(w, e, key) <==> !Doubles(w, e, key)
  {
    var events := ProcessEvents(w, e);
    if events != [] {
      if e.Act? && e.action.ChildExits? {
        ReapingIsOne(w, events, key);
      } else {
        var k, id := EventCreates(w, e);
        NewChildIsOne(w, events, k, id, key);
      }
    } else {
      assert w.log + [] == w.log;
    }
  }

  /** An event that does something to children, and is not the exit of one, begins with the creation of one. */
  lemma EventCreates(w: World, e: Event) returns (key: Key, id: string)
    requires DaemonInv(w) && CanHappen(w, e) && ProcessEvents(w, e) != [] && !(e.Act? && e.action.ChildExits?)
    ensures CreatesOne(w, ProcessEvents(w, e), key, id)
  {
    var a := if e.Act? then e.action else e.crash.during.value;
    var all := SectionOf(w, a).events;
    SectionCreates(w, a);
    assert AtMostOneNew(w, IDsOf(a), all) && ProcessEvents(w, e) <= all;
    key, id :| id in IDsOf(a) && CreatesOne(w, all, key, id);
  }

  ghost predicate OneAtPrefixes(w: World, events: seq<ProcessEvent>, key: Key) {
    forall n | 0 <= n <= |events| :: OneAt(StillRunning(w.orphans, w.log + events[..n]), key)
  }

  lemma ReapingIsOne(w: World, events: seq<ProcessEvent>, key: Key)
    requires |events| == 1 && events[0].Reaped? && OneIn(w, key)
    ensures OneAtPrefixes(w, events, key)
  {
    LiveSnoc(w.log, events[0]);
    assert events[..0] == [] && events[..1] == [events[0]] && w.log + [] == w.log;
  }

  lemma NewChildIsOne(w: World, events: seq<ProcessEvent>, k: Key, id: string, key: Key)
    requires ProcessInv(w) && LogInv(w) && OrphansIssued(w) && OneIn(w, key)
    requires CreatesOne(w, events, k, id)
    ensures OneAtPrefixes(w, events, key) <==> !(HasOrphan(w, key) && key == k)
  {
    BesideOrphans(w, k, id, key);
    CreationSteps(w, events, k, id);
  }

  lemma CreationSteps(w: World, events: seq<ProcessEvent>, k: Key, id: string)
    requires LogInv(w) && CreatesOne(w, events, k, id)
    ensures Live(w.log + events[..0]) == Live(w.log)
    ensures Live(w.log + events[..1]) == Live(w.log) + {Incarnation(k, id)}
    ensures |events| == 2 ==> Live(w.log + events[..2]) == Live(w.log)
  {
    var once := w.log + [Spawned(k, id)];
    NotLiveYet(w, Incarnation(k, id));
    LiveSnoc(w.log, Spawned(k, id));
    LiveSnoc(once, Reaped(k, id));
    assert w.log + events[..0] == w.log && w.log + events[..1] == once;
    assert |events| == 2 ==> w.log + events[..2] == once + [Reaped(k, id)];
  }

  /** The new child is the only one of its key unless the key has an orphan. */
  lemma BesideOrphans(w: World, k: Key, id: string, key: Key)
    requires ProcessInv(w) && LogInv(w) && OrphansIssued(w) && OneIn(w, key)
    requires k !in w.d.active && id !in w.issued
    ensures OneAt(w.orphans + (Live(w.log) + {Incarnation(k, id)}), key) <==> !(HasOrphan(w, key) && key == k)
  {
    NotLiveYet(w, Incarnation(k, id));
    forall other | other in Live(w.log)
      ensures other.key != k
    {
      assert OwnedBy(w.d, other);
    }
    if HasOrphan(w, key) && key == k {
      var orphan :| orphan in w.orphans && orphan.key == key;
      assert orphan != Incarnation(k, id);
    }
  }

  // ---------- where orphans come from ----------

  ghost predicate OrphansIssued(w: World) {
    forall child | child in w.orphans :: child.instanceID in w.issued
  }

  /** A child that runs without a daemon bears an ID that was handed out. */
  lemma {:induction false} OrphansWereIssued(ws: seq<World>, events: seq<Event>, i: nat)
    requires IsHistory(ws, events) && StartsFresh(ws[0]) && i < |ws|
    ensures OrphansIssued(ws[i])
  {
    if i > 0 {
      OrphansWereIssued(ws, events, i - 1);
      HistoryKeeps(ws, events, i - 1);
      assert IsStep(ws, events, i - 1);
      OrphansStayIssued(ws[i - 1], events[i - 1], ws[i]);
    }
  }

  lemma OrphansStayIssued(w: World, e: Event, w': World)
    requires WorldInv(w) && CanHappen(w, e) && w' == After(w, e) && OrphansIssued(w)
    ensures OrphansIssued(w')
  {
    match e
    case Act(a) => ActOrphansIssued(w, a, w');
    case Die(c) => CrashOrphansIssued(w, c);
    case OrphanEnds(_) =>
  }

  lemma ActOrphansIssued(w: World, a: Action, w': World)
    requires OrphansIssued(w) && Enabled(w, a) && w' == Apply(w, a)
    ensures OrphansIssued(w')
  {
    ActLogs(w, a);
    IssuedGrows(w, a);
  }

  lemma IssuedGrows(w: World, a: Action)
    requires Enabled(w, a)
    ensures w.issued <= Apply(w, a).issued
  {
  }

  lemma CrashOrphansIssued(w: World, c: Crash)
    requires DaemonInv(w) && CrashEnabled(w, c) && OrphansIssued(w)
    ensures OrphansIssued(Recover(w, c))
  {
    forall child | child in Live(LogAtCrash(w, c))
      ensures child.instanceID in IssuedAtCrash(w, c)
    {
      LiveWasSpawned(LogAtCrash(w, c), child);
      if Spawned(child.key, child.instanceID) in w.log {
        LoggedIsIssued(w, child);
      } else {
        SectionIssues(w, c.during.value, child);
      }
    }
  }

  lemma SectionIssues(w: World, a: Action, child: Incarnation)
    requires DaemonInv(w) && Enabled(w, a) && Spawned(child.key, child.instanceID) in SectionOf(w, a).events
    ensures child.instanceID in IDsOf(a)
  {
    SectionCreates(w, a);
    var events := SectionOf(w, a).events;
    var key, id :| id in IDsOf(a) && CreatesOne(w, events, key, id);
    CreatesThat(w, events, key, id, child);
  }

  lemma CreatesThat(w: World, events: seq<ProcessEvent>, key: Key, id: string, child: Incarnation)
    requires CreatesOne(w, events, key, id) && Spawned(child.key, child.instanceID) in events
    ensures child == Incarnation(key, id)
  {
  }

  lemma LoggedIsIssued(w: World, child: Incarnation)
    requires LogInv(w) && Spawned(child.key, child.instanceID) in w.log
    ensures child.instanceID in w.issued
  {
    var j :| 0 <= j < |w.log| && w.log[j] == Spawned(child.key, child.instanceID);
    assert w.log[j].instanceID in w.issued;
  }

  ghost predicate OrphanedBy(ws: seq<World>, events: seq<Event>, n: int, child: Incarnation) {
    && 0 <= n < |events| < |ws| && events[n].Die?
    && CanHappen(ws[n], events[n])
    && child in Live(LogAtCrash(ws[n], events[n].crash))
  }

  /** A child runs without a daemon only if a crash struck while it was live. */
  lemma {:induction false} OrphansComeFromCrashes(ws: seq<World>, events: seq<Event>, i: nat, child: Incarnation)
    requires IsHistory(ws, events) && StartsFresh(ws[0]) && i < |ws| && child in ws[i].orphans
    ensures exists n :: n < i && OrphanedBy(ws, events, n, child)
  {
    if i > 0 {
      assert IsStep(ws, events, i - 1);
      if child in ws[i - 1].orphans {
        OrphansComeFromCrashes(ws, events, i - 1, child);
      } else {
        OrphanedNow(ws[i - 1], events[i - 1], child);
        assert OrphanedBy(ws, events, i - 1, child);
      }
    }
  }

  lemma OrphanedNow(w: World, e: Event, child: Incarnation)
    requires CanHappen(w, e) && child !in w.orphans && child in After(w, e).orphans
    ensures e.Die? && child in Live(LogAtCrash(w, e.crash))
  {
    if e.Act? {
      ActLogs(w, e.action);
    }
  }

  /** So a key of which no crash ever met a live child has at most one running child throughout. */
  lemma OneUnlessCrashed(ws: seq<World>, events: seq<Event>, until: nat, key: Key)
    requires IsHistory(ws, events) && StartsFresh(ws[0]) && until < |ws|
    requires forall n, child | 0 <= n < until && OrphanedBy(ws, events, n, child) :: child.key != key
    ensures OneAlways(ws, events, until, key)
    ensures OneIn(ws[until], key)
  {
    forall i | 0 <= i < until
      ensures !DoublesIn(ws, events, i, key)
    {
      forall child | child in ws[i].orphans
        ensures child.key != key
      {
        OrphansComeFromCrashes(ws, events, i, child);
      }
    }
    OneProcessPerKey(ws, events, until, key);
  }

  /** Whatever a crash finds live runs on beside the next daemon, which does not know of it. */
  lemma CrashLeavesOrphans(w: World, c: Crash)
    requires CrashEnabled(w, c)
    ensures Live(LogAtCrash(w, c)) <= Recover(w, c).orphans
    ensures forall key :: key !in Recover(w, c).d.active && !IsActiveAt(Recover(w, c).d.registry, key)
  {
    NothingActiveAfter(ImageRegistry(FoundImage(w, c)), c.at);
    forall key
      ensures !IsActiveAt(Recover(w, c).d.registry, key)
    {
    }
  }
}
