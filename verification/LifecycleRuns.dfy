/** What holds over every run of the daemon, through any number of crashes. */
module LifecycleRuns {
  import opened Wrappers
  import opened ProcessStates
  import opened Registries
  import opened RegistryDocuments
  import opened RegistryStores
  import opened Lifecycle
  import opened LifecycleWorld
  import opened LifecycleInvariant
  import opened LifecycleSections
  import opened LifecycleDefinitions
  import opened LifecycleCalls

  /** A step of the daemon, its death, or the end of a child that outlived an earlier daemon. */
  datatype Event = Act(action: Action) | Die(crash: Crash) | OrphanEnds(child: Incarnation)

  ghost predicate CanHappen(w: World, e: Event) {
    match e
    case Act(a) => Enabled(w, a)
    case Die(c) => CrashEnabled(w, c)
    case OrphanEnds(child) => child in w.orphans
  }

  ghost function After(w: World, e: Event): World
    requires CanHappen(w, e)
  {
    match e
    case Act(a) => Apply(w, a)
    case Die(c) => Recover(w, c)
    case OrphanEnds(child) => w.(orphans := w.orphans - {child})
  }

  ghost predicate LeadsFrom(w: World, e: Event, w': World) {
    CanHappen(w, e) && w' == After(w, e)
  }

  ghost predicate IsStep(ws: seq<World>, events: seq<Event>, i: int)
    requires 0 <= i < |events| < |ws|
  {
    LeadsFrom(ws[i], events[i], ws[i + 1])
  }

  /** `ws` lists the worlds between the events of a history, from `ws[0]` on. */
  ghost predicate IsHistory(ws: seq<World>, events: seq<Event>) {
    |ws| == |events| + 1 && forall i | 0 <= i < |events| :: IsStep(ws, events, i)
  }

  /** The first daemon starts without a file, with positive output limits. */
  ghost predicate StartsFresh(w: World) {
    exists path: string, limits: Limits :: limits.bytes > 0 && limits.events > 0 && w == InitialWorld(path, limits)
  }

  // ---------- the invariant holds throughout ----------

  lemma InitialInv(path: string, limits: Limits)
    requires limits.bytes > 0 && limits.events > 0
    ensures WorldInv(InitialWorld(path, limits))
    ensures Agrees(InitialWorld(path, limits).d)
  {
    var w := InitialWorld(path, limits);
    assert forall k :: RuntimeAt(EMPTY_REGISTRY, k).None?;
    assert w.log == [] && Live(w.log) == {};
    assert AtMostOne(w.log);
  }

  /** Every image a crash can leave is that of a good registry. */
  lemma CrashImageGood(w: World, c: Crash)
    requires WorldInv(w) && CanDie(w, c)
    ensures GoodImage(CrashImage(w, c), IssuedAtCrash(w, c))
  {
    if c.during.Some? {
      CoreKeeps(w, c.during.value);
      ImageAfterWritesGood(w.d.stored, w.issued, SectionOf(w, c.during.value).writes, c.writes, IssuedAtCrash(w, c));
    } else {
      assert IssuedAtCrash(w, c) == w.issued;
    }
  }

  /** The registry as it was left, or reconciled by one of the attempts to come up. */
  ghost predicate IsLeftBy(registry: Registry, boots: seq<Boot>, found: Registry) {
    found == registry || exists n :: 0 <= n < |boots| && found == Reconciled(registry, boots[n].at)
  }

  /** Attempts to come up leave the image of the registry, or of what the first of them that could store it made of it. */
  lemma {:induction false} BootsKeep(
      path: string, stored: Option<RegistryDocument>, registry: Registry, boots: seq<Boot>, issued: set<string>)
    requires GoodRegistry(registry, issued) && IsImageOf(stored, registry)
    ensures var image := BootsImage(path, stored, boots);
            GoodImage(image, issued) && IsLeftBy(registry, boots, ImageRegistry(image))
  {
    if boots != [] {
      var before := boots[..|boots| - 1];
      BootsKeep(path, stored, registry, before, issued);
      OneBootKeeps(path, BootsImage(path, stored, before), registry, before, boots[|boots| - 1], issued);
      assert before + [boots[|boots| - 1]] == boots;
    }
  }

  lemma OneBootKeeps(
      path: string, image: Option<RegistryDocument>, registry: Registry, boots: seq<Boot>, last: Boot, issued: set<string>)
    requires GoodImage(image, issued) && IsLeftBy(registry, boots, ImageRegistry(image))
    ensures var after := BootImage(path, image, last.at, last.fault);
            GoodImage(after, issued) && IsLeftBy(registry, boots + [last], ImageRegistry(after))
  {
    var found := ImageRegistry(image);
    LeftByMore(registry, boots, last, found);
    if IsAbs(path) {
      CrashRecovery(path, image, found, last.at, last.fault);
      ReconciledIsGood(found, last.at, issued);
    }
  }

  lemma LeftByMore(registry: Registry, boots: seq<Boot>, last: Boot, found: Registry)
    requires IsLeftBy(registry, boots, found)
    ensures IsLeftBy(registry, boots + [last], found)
    ensures IsLeftBy(registry, boots + [last], Reconciled(found, last.at))
  {
    var more := boots + [last];
    if found == registry {
      assert more[|boots|] == last;
    } else {
      var n :| 0 <= n < |boots| && found == Reconciled(registry, boots[n].at);
      assert more[n] == boots[n];
      NothingActiveAfter(registry, boots[n].at);
      NothingToReconcile(found, last.at);
    }
  }

  lemma FoundGood(w: World, c: Crash)
    requires WorldInv(w) && CanDie(w, c)
    ensures GoodImage(FoundImage(w, c), IssuedAtCrash(w, c))
    ensures IsLeftBy(ImageRegistry(CrashImage(w, c)), c.boots, ImageRegistry(FoundImage(w, c)))
  {
    CrashImageGood(w, c);
    BootsKeep(w.d.path, CrashImage(w, c), ImageRegistry(CrashImage(w, c)), c.boots, IssuedAtCrash(w, c));
  }

  lemma ImageAfterWritesGood(
    stored: Option<RegistryDocument>, issued: set<string>, writes: seq<RegistryDocument>, n: nat, later: set<string>)
    requires GoodImage(stored, issued) && issued <= later && n <= |writes|
    requires forall doc | doc in writes :: GoodImage(Some(doc), later)
    ensures GoodImage(StoredAfter(stored, writes[..n]), later)
  {
    if n > 0 {
      assert writes[..n][n - 1] in writes;
    } else {
      GoodIsMonotone(ImageRegistry(stored), issued, later);
    }
  }

  lemma InterruptedIsConsistent(runtime: ProcessRuntime, at: Time)
    requires runtime.IsConsistent() && runtime.state.IsActive()
    ensures Interrupted(runtime, at).IsConsistent()
  {
    ReasonsDiffer();
  }

  lemma ReconciledIsGood(registry: Registry, at: Time, issued: set<string>)
    requires GoodRegistry(registry, issued)
    ensures GoodRegistry(Reconciled(registry, at), issued)
  {
    ReconcileKeepsSavable(registry, at);
    forall k
      ensures CurrentOf(Reconciled(registry, at), k) == CurrentOf(registry, k)
      ensures RuntimeAt(Reconciled(registry, at), k).Some? ==> GoodRuntime(RuntimeAt(Reconciled(registry, at), k).value, issued)
    {
      ReconciledAt(registry, at, k);
      if RuntimeAt(registry, k).Some? {
        assert GoodRuntime(RuntimeAt(registry, k).value, issued);
        if IsActiveAt(registry, k) {
          InterruptedIsConsistent(RuntimeAt(registry, k).value, at);
        }
      }
    }
    SameInstancesUnique(registry, Reconciled(registry, at));
  }

  function CurrentOf(registry: Registry, key: Key): Option<string> {
    if RuntimeAt(registry, key).Some? then Some(RuntimeAt(registry, key).value.instanceID) else None
  }

  lemma SameInstancesUnique(a: Registry, b: Registry)
    requires UniqueInstances(a) && forall k :: CurrentOf(b, k) == CurrentOf(a, k)
    ensures UniqueInstances(b)
  {
    forall j, k | RuntimeAt(b, j).Some? && RuntimeAt(b, k).Some?
                  && RuntimeAt(b, j).value.instanceID == RuntimeAt(b, k).value.instanceID
      ensures j == k
    {
      assert CurrentOf(b, j) == CurrentOf(a, j) && CurrentOf(b, k) == CurrentOf(a, k);
    }
  }

  /** A world in which the daemon has just come up on a good registry in which nothing is active. */
  lemma BootedInv(w: World)
    requires w.d.limits.bytes > 0 && w.d.limits.events > 0
    requires GoodRegistry(w.d.registry, w.issued) && GoodImage(w.d.stored, w.issued) && !HasActiveRuntime(w.d.registry)
    requires w.d.active == map[] && w.d.finished == map[] && w.log == [] && w.exits == map[] && w.calls == map[]
    requires w.records == Recorded(map[], w.d.registry)
    ensures WorldInv(w)
  {
    assert Live(w.log) == {} && AtMostOne(w.log);
    forall child
      ensures child in w.records <==> IsCurrent(w.d.registry, child)
      ensures child in w.records ==> w.records[child] == RuntimeAt(w.d.registry, child.key).value
    {
      RecordedAt(map[], w.d.registry, child);
    }
    forall k
      ensures !IsActiveAt(w.d.registry, k)
    {
    }
    assert RecordInv(w);
  }

  lemma RecoverKeeps(w: World, c: Crash)
    requires WorldInv(w) && CrashEnabled(w, c)
    ensures WorldInv(Recover(w, c))
    ensures Agrees(Recover(w, c).d)
  {
    var image := FoundImage(w, c);
    var registry := ImageRegistry(image);
    var w' := Recover(w, c);
    FoundGood(w, c);
    ReconciledIsGood(registry, c.at, w'.issued);
    CrashRecovery(w.d.path, image, registry, c.at, c.fault);
    NothingActiveAfter(registry, c.at);
    BootedInv(w');
  }

  lemma EventKeeps(w: World, e: Event)
    requires WorldInv(w) && CanHappen(w, e)
    ensures WorldInv(After(w, e))
  {
    match e
    case Act(a) => ApplyKeeps(w, a);
    case Die(c) => RecoverKeeps(w, c);
    case OrphanEnds(_) => OrphansDoNotMatter(w, After(w, e));
  }

  lemma OrphansDoNotMatter(w: World, w': World)
    requires WorldInv(w) && w' == w.(orphans := w'.orphans)
    ensures WorldInv(w')
  {
    forall id | id in w'.calls
      ensures CallInv(w', w'.calls[id])
    {
      assert CallInv(w, w.calls[id]);
    }
  }

  /** The invariant holds between any two events of any history, crashes included. */
  lemma {:induction false} HistoryKeeps(ws: seq<World>, events: seq<Event>, i: nat)
    requires IsHistory(ws, events) && StartsFresh(ws[0]) && i < |ws|
    ensures WorldInv(ws[i])
  {
    if i == 0 {
      var path: string, limits: Limits :| limits.bytes > 0 && limits.events > 0 && ws[0] == InitialWorld(path, limits);
      InitialInv(path, limits);
    } else {
      HistoryKeeps(ws, events, i - 1);
      assert IsStep(ws, events, i - 1);
      EventKeeps(ws[i - 1], events[i - 1]);
    }
  }

  // ---------- exact ownership ----------

  /** Whenever the lock is free, the active runtimes are exactly the owned ones, and none of them is starting. */
  lemma OwnershipIsExact(ws: seq<World>, events: seq<Event>, i: nat, key: Key)
    requires IsHistory(ws, events) && StartsFresh(ws[0]) && i < |ws|
    ensures IsActiveAt(ws[i].d.registry, key) <==> key in ws[i].d.active
    ensures key in ws[i].d.active ==>
              && CurrentID(ws[i].d, key) == Some(ws[i].d.active[key])
              && RuntimeAt(ws[i].d.registry, key).value.state in {Running, Stopping}
              && key in ws[i].d.outputs && ws[i].d.outputs[key] == ws[i].d.active[key]
  {
    HistoryKeeps(ws, events, i);
  }

  /** The action takes none of the branches that guard against lost ownership, missing records and illegal moves. */
  ghost predicate TakesNoDefense(w: World, a: Action)
    requires Enabled(w, a)
  {
    && NoneDefensive(SectionOf(w, a).reply.failures)
    && (a.BeginStop? ==> StopAnswer(w.d, a.key, StopSection(w.d, a.key, a.fault)))
    && (a.StopNextKey? ==>
          var key := w.calls[a.call].remaining[0];
          StopAnswer(w.d, key, StopSection(w.d, key, a.fault)))
    && (a.Observe? ==> ExitRecorded(SectionOf(w, a), a.child.instanceID))
  }

  /** The observer ended its runtime, and only the save of the result can have failed. */
  ghost predicate ExitRecorded(s: Section, id: string) {
    && s.reply.failures == []
    && id in s.daemon.finished
    && s.daemon.finished[id] in {[], [PersistTerminal]}
  }

  /** No action of any history takes a defensive branch. */
  lemma DefensiveBranchesUnused(ws: seq<World>, events: seq<Event>, i: nat)
    requires IsHistory(ws, events) && StartsFresh(ws[0]) && i < |events| && events[i].Act?
    ensures CanHappen(ws[i], events[i]) && TakesNoDefense(ws[i], events[i].action)
  {
    HistoryKeeps(ws, events, i);
    assert IsStep(ws, events, i);
    NoDefensiveBranch(ws[i], events[i].action);
  }

  lemma NoDefensiveBranch(w: World, a: Action)
    requires DaemonInv(w) && Enabled(w, a)
    ensures TakesNoDefense(w, a)
  {
    if a.Observe? {
      ObserverAnswers(w, a.child, a.at, a.fault);
    } else if !a.ChildExits? {
      SectionOfKeeps(w, a);
      if a.BeginStop? {
        StopKeeps(w, a.key, a.fault);
      } else if a.StopNextKey? {
        StopKeeps(w, w.calls[a.call].remaining[0], a.fault);
      }
    }
  }

  /** An observer always finds its runtime and always ends it. */
  lemma ObserverAnswers(w: World, child: Incarnation, at: Time, fault: Fault)
    requires DaemonInv(w) && child in w.exits
    ensures ExitRecorded(
              ObserveSection(w.d, child.key, child.instanceID, w.exits[child], at, fault), child.instanceID)
  {
    ExitIsOwned(w, child);
    OwnerAnswers(w.d, child, w.exits[child], at, fault);
  }

  lemma OwnerAnswers(d: Daemon, child: Incarnation, exit: Exit, at: Time, fault: Fault)
    requires OwnedBy(d, child) && ActiveInv(d)
    ensures ExitRecorded(ObserveSection(d, child.key, child.instanceID, exit, at, fault), child.instanceID)
  {
    EndShape(d, child.key, RuntimeAt(d.registry, child.key).value, exit, at, fault);
  }

  // ---------- crashes ----------

  predicate IsAttempt(c: Crash, at: Time) {
    at == c.at || exists n :: 0 <= n < |c.boots| && c.boots[n].at == at
  }

  /** Nothing is active, every definition and finished record is as it was, and the interrupted runtimes failed at `at`. */
  ghost predicate IsRecovered(left: Registry, next: Registry, at: Time) {
    && SameDefinitions(left, next)
    && !HasActiveRuntime(next)
    && forall key :: RuntimeAt(next, key) ==
         if IsActiveAt(left, key)
         then Some(RuntimeAt(left, key).value.(state := Failed, finishedAt := Some(at), terminationReason := "daemon-restart"))
         else RuntimeAt(left, key)
  }

  /**
   * The daemon may die anywhere in a history, inside a critical section too, and any number of attempts to come up
   * again may fail at any step. The file it leaves loads; if its path is absolute and the file can be written, the next
   * daemon comes up; then nothing is active, every definition and every finished record of the file is as it was, and
   * exactly the interrupted runtimes have failed as such, all at the instant of one of the attempts.
   */
  lemma CrashAnywhere(ws: seq<World>, events: seq<Event>, i: nat, c: Crash)
    requires IsHistory(ws, events) && StartsFresh(ws[0]) && i < |ws| && CanDie(ws[i], c)
    ensures ImageLoads(CrashImage(ws[i], c))
    ensures IsAbs(ws[i].d.path) && c.fault.None? ==> CrashEnabled(ws[i], c)
    ensures CrashEnabled(ws[i], c) ==>
              var next := Recover(ws[i], c).d.registry;
              && (exists at :: IsAttempt(c, at) && IsRecovered(ImageRegistry(CrashImage(ws[i], c)), next, at))
              && IsImageOf(Recover(ws[i], c).d.stored, next)
  {
    HistoryKeeps(ws, events, i);
    FoundGood(ws[i], c);
    CrashImageGood(ws[i], c);
    var found := ImageRegistry(FoundImage(ws[i], c));
    if IsAbs(ws[i].d.path) {
      CrashRecovery(ws[i].d.path, FoundImage(ws[i], c), found, c.at, c.fault);
    }
    RecoveredAtOnce(ImageRegistry(CrashImage(ws[i], c)), c, found);
  }

  lemma RecoveredAtOnce(left: Registry, c: Crash, found: Registry)
    requires IsLeftBy(left, c.boots, found)
    ensures exists at :: IsAttempt(c, at) && IsRecovered(left, Reconciled(found, c.at), at)
  {
    if found == left {
      ReconcileMeaning(left, c.at);
      assert IsAttempt(c, c.at) && IsRecovered(left, Reconciled(found, c.at), c.at);
    } else {
      var n :| 0 <= n < |c.boots| && found == Reconciled(left, c.boots[n].at);
      ReconcileMeaning(left, c.boots[n].at);
      NothingToReconcile(found, c.at);
      assert IsAttempt(c, c.boots[n].at) && IsRecovered(left, Reconciled(found, c.at), c.boots[n].at);
    }
  }

  // ---------- memory and file agree ----------

  ghost predicate IsMisled(ws: seq<World>, events: seq<Event>, i: int)
    requires 0 <= i < |events| < |ws|
  {
    events[i].Act? && CanHappen(ws[i], events[i]) && Misleads(ws[i], events[i].action)
  }

  ghost predicate NeverMisled(ws: seq<World>, events: seq<Event>, from: nat, until: nat)
    requires until <= |events| < |ws|
  {
    forall i | from <= i < until :: !IsMisled(ws, events, i)
  }

  ghost predicate AlwaysAgree(ws: seq<World>, from: nat, until: nat)
    requires until < |ws|
  {
    forall i | from <= i <= until :: Agrees(ws[i].d)
  }

  /**
   * In every history, from its beginning or from any crash on, memory and file agree on all definitions exactly as
   * long as no save of a changed definition reports an error after replacing the file; and what is in memory is always
   * something Save accepts.
   */
  lemma {:induction false} HistoryAgrees(ws: seq<World>, events: seq<Event>, from: nat, until: nat)
    requires IsHistory(ws, events) && StartsFresh(ws[0]) && from <= until < |ws|
    requires from == 0 || events[from - 1].Die?
    ensures AlwaysAgree(ws, from, until) <==> NeverMisled(ws, events, from, until)
    ensures IsSavable(ws[until].d.registry)
  {
    HistoryKeeps(ws, events, until);
    if from == until {
      AgreesAtFirst(ws, events, from);
    } else {
      HistoryAgrees(ws, events, from, until - 1);
      if Agrees(ws[until - 1].d) {
        HistoryStepAgrees(ws, events, until - 1);
      }
      assert AlwaysAgree(ws, from, until) <==> AlwaysAgree(ws, from, until - 1) && Agrees(ws[until].d);
      assert NeverMisled(ws, events, from, until)
        <==> NeverMisled(ws, events, from, until - 1) && !IsMisled(ws, events, until - 1);
    }
  }

  lemma AgreesAtFirst(ws: seq<World>, events: seq<Event>, i: nat)
    requires IsHistory(ws, events) && StartsFresh(ws[0]) && i < |ws|
    requires i == 0 || events[i - 1].Die?
    ensures Agrees(ws[i].d)
  {
    if i == 0 {
      FreshAgrees(ws[0]);
    } else {
      CrashAgrees(ws, events, i - 1);
    }
  }

  lemma CrashAgrees(ws: seq<World>, events: seq<Event>, i: nat)
    requires IsHistory(ws, events) && StartsFresh(ws[0]) && i < |events| && events[i].Die?
    ensures Agrees(ws[i + 1].d)
  {
    HistoryKeeps(ws, events, i);
    assert IsStep(ws, events, i);
    RecoveredAgrees(ws[i], events[i], ws[i + 1]);
  }

  lemma RecoveredAgrees(w: World, e: Event, w': World)
    requires WorldInv(w) && e.Die? && CanHappen(w, e) && w' == After(w, e)
    ensures Agrees(w'.d)
  {
    RecoverKeeps(w, e.crash);
  }

  lemma HistoryStepAgrees(ws: seq<World>, events: seq<Event>, i: nat)
    requires IsHistory(ws, events) && StartsFresh(ws[0]) && i < |events| && Agrees(ws[i].d)
    ensures Agrees(ws[i + 1].d) <==> !IsMisled(ws, events, i)
  {
    HistoryKeeps(ws, events, i);
    assert IsStep(ws, events, i);
    EventAgrees(ws[i], events[i], ws[i + 1]);
  }

  lemma EventAgrees(w: World, e: Event, w': World)
    requires WorldInv(w) && CanHappen(w, e) && w' == After(w, e) && Agrees(w.d)
    ensures Agrees(w'.d) <==> !(e.Act? && Misleads(w, e.action))
  {
    match e
    case Act(a) => AgreementStep(w, a);
    case Die(_) => RecoveredAgrees(w, e, w');
    case OrphanEnds(_) =>
  }

  lemma FreshAgrees(w: World)
    requires StartsFresh(w)
    ensures Agrees(w.d)
  {
    var path: string, limits: Limits :| limits.bytes > 0 && limits.events > 0 && w == InitialWorld(path, limits);
    InitialInv(path, limits);
  }

  /** The exception is real: adding a project while the flush after the rename fails makes memory and file differ. */
  lemma LateFailureMisleads(d: Daemon, definition: ProjectDefinition, issued: set<string>)
    requires GoodRegistry(d.registry, issued) && Agrees(d) && IsAbs(d.path)
    requires AddsProject(d, definition, true)
    ensures !Agrees(AddProjectSection(d, definition, true, Some(FlushDirectory)).daemon)
  {
    AddProjectAgrees(d, definition, true, Some(FlushDirectory), issued);
  }

  // ---------- the life of an instance ----------

  ghost predicate NoCrash(events: seq<Event>, i: int, j: int)
    requires 0 <= i <= j <= |events|
  {
    forall n | i <= n < j :: !events[n].Die?
  }

  /** A trail of the transition table leads from one state to the other. */
  ghost predicate Reaches(from: ProcessState, to: ProcessState) {
    exists trail: seq<ProcessState> :: IsTrailBetween(trail, from, to)
  }

  predicate IsTrailBetween(trail: seq<ProcessState>, from: ProcessState, to: ProcessState) {
    trail != [] && IsTrail(trail) && trail[0] == from && trail[|trail| - 1] == to
  }

  lemma ReachesOneMore(from: ProcessState, between: ProcessState, to: ProcessState)
    requires Reaches(from, between) && (between == to || CanTransition(between, to))
    ensures Reaches(from, to)
  {
    if between != to {
      var trail :| IsTrailBetween(trail, from, between);
      assert IsTrailBetween(trail + [to], from, to);
    }
  }

  /**
   * During the life of one daemon an incarnation that was seen once keeps its record: the record follows the
   * transition table, never changes again once it is terminal, and is consistent all along, even after the process
   * was started anew or its definition removed.
   */
  lemma {:induction false} RecordsOnlyMoveForward(ws: seq<World>, events: seq<Event>, i: nat, j: nat, child: Incarnation)
    requires IsHistory(ws, events) && StartsFresh(ws[0]) && i <= j < |ws| && NoCrash(events, i, j)
    requires child in ws[i].records
    ensures child in ws[j].records
    ensures ws[i].records[child].state.IsTerminal() ==> ws[j].records[child] == ws[i].records[child]
    ensures Reaches(ws[i].records[child].state, ws[j].records[child].state)
    ensures ws[j].records[child].IsConsistent()
    ensures IsCurrent(ws[j].d.registry, child) ==>
              RuntimeAt(ws[j].d.registry, child.key) == Some(ws[j].records[child])
    ensures !IsCurrent(ws[j].d.registry, child) ==> ws[j].records[child].state.IsTerminal()
  {
    if i == j {
      assert IsTrailBetween([ws[i].records[child].state], ws[i].records[child].state, ws[i].records[child].state);
    } else {
      RecordsOnlyMoveForward(ws, events, i, j - 1, child);
      assert !events[j - 1].Die?;
      RecordStep(ws, events, j - 1, child);
      ReachesOneMore(ws[i].records[child].state, ws[j - 1].records[child].state, ws[j].records[child].state);
    }
    RecordIsShown(ws, events, j, child);
  }

  lemma RecordStep(ws: seq<World>, events: seq<Event>, j: nat, child: Incarnation)
    requires IsHistory(ws, events) && StartsFresh(ws[0]) && j < |events| && !events[j].Die?
    requires child in ws[j].records
    ensures child in ws[j + 1].records
    ensures ws[j].records[child].state.IsTerminal() ==> ws[j + 1].records[child] == ws[j].records[child]
    ensures ws[j + 1].records[child].state == ws[j].records[child].state
            || CanTransition(ws[j].records[child].state, ws[j + 1].records[child].state)
  {
    HistoryKeeps(ws, events, j);
    assert IsStep(ws, events, j);
    if events[j].Act? {
      ApplyKeeps(ws[j], events[j].action);
    }
  }

  lemma RecordIsShown(ws: seq<World>, events: seq<Event>, j: nat, child: Incarnation)
    requires IsHistory(ws, events) && StartsFresh(ws[0]) && j < |ws|
    requires child in ws[j].records
    ensures ws[j].records[child].IsConsistent()
    ensures IsCurrent(ws[j].d.registry, child) ==>
              RuntimeAt(ws[j].d.registry, child.key) == Some(ws[j].records[child])
    ensures !IsCurrent(ws[j].d.registry, child) ==> ws[j].records[child].state.IsTerminal()
  {
    HistoryKeeps(ws, events, j);
    assert GoodRuntime(ws[j].records[child], ws[j].issued);
  }

  // ---------- calls that returned ----------

  /** A child that was created and is not live any more was waited for in between. */
  lemma {:induction false} WaitedFor(log: seq<ProcessEvent>, i: nat, child: Incarnation) returns (m: nat)
    requires i < |log| && log[i] == Spawned(child.key, child.instanceID) && child !in Live(log)
    ensures i < m < |log| && log[m] == Reaped(child.key, child.instanceID)
  {
    var last := |log| - 1;
    assert log == log[..last] + [log[last]];
    LiveSnoc(log[..last], log[last]);
    if child in Live(log[..last]) || i == last {
      m := last;
    } else {
      m := WaitedFor(log[..last], i, child);
    }
  }

  /**
   * A Restart that returned without an error: the instance current at the call is gone for good, and what was
   * returned is another instance, created after every child of the old one had been waited for.
   */
  lemma RestartReplaces(ws: seq<World>, events: seq<Event>, i: nat, call: nat, reply: Reply)
    requires IsHistory(ws, events) && StartsFresh(ws[0]) && i < |ws|
    requires InPhase(ws[i], call, RestartCall, Returned(reply)) && reply.failures == []
    ensures var w := ws[i];
            var c := w.calls[call];
            && reply.runtime.Some?
            && c.target != Some(reply.runtime.value.instanceID)
            && (c.target.Some? ==> Gone(w, Incarnation(c.key, c.target.value)))
            && exists j :: CreatedAfterReaping(w.log, c, reply.runtime.value.instanceID, j)
  {
    HistoryKeeps(ws, events, i);
    var w := ws[i];
    var c := w.calls[call];
    assert CallInv(w, c);
    var id := reply.runtime.value.instanceID;
    var j :| ReplacedAt(w.log, c, id, j);
    if c.target.Some? {
      forall s | CreatedAt(w.log, c.key, c.target.value, s)
        ensures exists m :: s < m < j && w.log[m] == Reaped(c.key, c.target.value)
      {
        assert w.log[s].instanceID in c.known;
        assert s < c.mark;
        var m := WaitedFor(w.log[..j], s, Incarnation(c.key, c.target.value));
        assert w.log[m] == Reaped(c.key, c.target.value);
      }
    }
    assert CreatedAfterReaping(w.log, c, id, j);
  }

  /** The instance was created after the call, and after every child of the call's target had been waited for. */
  ghost predicate CreatedAfterReaping(log: seq<ProcessEvent>, c: Call, id: string, j: int) {
    && c.mark <= j
    && CreatedAt(log, c.key, id, j)
    && (c.target.Some? ==>
          forall s | CreatedAt(log, c.key, c.target.value, s) ::
            exists m :: s < m < j && log[m] == Reaped(c.key, c.target.value))
  }

  ghost predicate CreatedAt(log: seq<ProcessEvent>, key: Key, id: string, j: int) {
    0 <= j < |log| && log[j] == Spawned(key, id)
  }

  /** A Stop that returned without an error leaves the instance it was called for gone for good. */
  lemma StopEnds(ws: seq<World>, events: seq<Event>, i: nat, call: nat, reply: Reply)
    requires IsHistory(ws, events) && StartsFresh(ws[0]) && i < |ws|
    requires InPhase(ws[i], call, StopCall, Returned(reply)) && reply.failures == []
    ensures TargetGone(ws[i], ws[i].calls[call])
  {
    HistoryKeeps(ws, events, i);
    assert CallInv(ws[i], ws[i].calls[call]);
  }

  /** A Shutdown that returned without an error, with no child created since it was called, leaves nothing owned. */
  lemma ShutdownEmpties(ws: seq<World>, events: seq<Event>, i: nat, call: nat, reply: Reply)
    requires IsHistory(ws, events) && StartsFresh(ws[0]) && i < |ws|
    requires InPhase(ws[i], call, ShutdownCall, Returned(reply)) && reply.failures == []
    requires NoSpawn(ws[i].log, ws[i].calls[call].mark)
    ensures ws[i].d.active == map[]
    ensures Live(ws[i].log) == {} && ws[i].exits == map[]
  {
    HistoryKeeps(ws, events, i);
    assert CallInv(ws[i], ws[i].calls[call]);
    forall child
      ensures !OwnedBy(ws[i].d, child)
    {
    }
  }
}
