/** Histories that show where the promises of the manager end. */
module LifecycleExamples {
  import opened Wrappers
  import opened ProcessStates
  import opened Registries
  import opened RegistryDocuments
  import opened RegistryStores
  import opened Lifecycle
  import opened LifecycleWorld
  import opened LifecycleInvariant
  import opened LifecycleSections
  import opened LifecycleDefinitions
  import opened LifecycleCalls
  import opened LifecycleRuns
  import opened LifecycleChildren
  import opened LifecycleImages
  import opened LifecycleReplies

  // ---------- worlds that some history leads to ----------

  ghost predicate LeadsTo(ws: seq<World>, events: seq<Event>, w: World) {
    IsHistory(ws, events) && StartsFresh(ws[0]) && ws[|events|] == w
  }

  ghost predicate Reachable(w: World) {
    exists ws, events :: LeadsTo(ws, events, w)
  }

  lemma ReachableKeeps(w: World)
    requires Reachable(w)
    ensures WorldInv(w) && OrphansIssued(w)
  {
    var ws, events :| LeadsTo(ws, events, w);
    HistoryKeeps(ws, events, |events|);
    OrphansWereIssued(ws, events, |events|);
  }

  lemma ReachableNext(w: World, e: Event)
    requires Reachable(w) && CanHappen(w, e)
    ensures Reachable(After(w, e))
  {
    var ws, events :| LeadsTo(ws, events, w);
    HistoryGrows(ws, events, e, After(w, e));
    assert LeadsTo(ws + [After(w, e)], events + [e], After(w, e));
  }

  lemma ReachableAct(w: World, a: Action) returns (w': World)
    requires Reachable(w) && Enabled(w, a)
    ensures Reachable(w') && w' == Apply(w, a)
  {
    ReachableNext(w, Act(a));
    w' := After(w, Act(a));
  }

  lemma HistoryGrows(ws: seq<World>, events: seq<Event>, e: Event, w': World)
    requires IsHistory(ws, events) && LeadsFrom(ws[|events|], e, w')
    ensures IsHistory(ws + [w'], events + [e])
  {
    var more, longer := ws + [w'], events + [e];
    forall i | 0 <= i < |longer|
      ensures IsStep(more, longer, i)
    {
      if i < |events| {
        assert more[i] == ws[i] && more[i + 1] == ws[i + 1] && longer[i] == events[i];
        assert IsStep(ws, events, i);
      } else {
        assert more[i] == ws[i] && longer[i] == e && more[i + 1] == w';
      }
    }
  }

  lemma ReachableFirst(path: string, limits: Limits)
    requires limits.bytes > 0 && limits.events > 0
    ensures Reachable(InitialWorld(path, limits))
  {
    assert LeadsTo([InitialWorld(path, limits)], [], InitialWorld(path, limits));
  }

  // ---------- single actions without failures ----------

  function Answers(id: string, at: Time): StartAnswers {
    StartAnswers(Some(id), Some(1), at, at, None, None, None)
  }

  ghost predicate IsDefined(w: World, key: Key) {
    IsAbs(w.d.path) && HasProcess(w.d.registry, key) && !IsActiveAt(w.d.registry, key)
  }

  /** The instance runs, is owned, and its record is in the file. */
  ghost predicate Runs(w: World, key: Key, id: string, at: Time) {
    && IsAbs(w.d.path)
    && RuntimeAt(w.d.registry, key) == Some(LaunchedRecord(key, id, 1, at))
    && OwnedBy(w.d, Incarnation(key, id))
    && InStep(w.d)
  }

  lemma StartSucceeds(d: Daemon, key: Key, id: string, at: Time, issued: set<string>)
    requires CanStart(d, key, id, issued) && IsAbs(d.path)
    ensures var s := StartSection(d, key, Answers(id, at));
            && s.events == [Spawned(key, id)]
            && RuntimeAt(s.daemon.registry, key) == Some(LaunchedRecord(key, id, 1, at))
            && s.daemon.active == d.active[key := id] && s.daemon.finished == d.finished && s.daemon.path == d.path
            && InStep(s.daemon)
  {
    var starting := Put(d, key, Some(NewProcessRuntime(key, id)));
    var saved := Persist(starting, None);
    StartingSaved(d, key, id, None, issued);
    LaunchSucceeds(d, saved, key, id, at, issued);
  }

  lemma LaunchSucceeds(d0: Daemon, d: Daemon, key: Key, id: string, at: Time, issued: set<string>)
    requires IsStarting(d0, d, key, id, issued) && IsAbs(d.path)
    ensures var s := LaunchSection(d, key, id, 1, Answers(id, at));
            && s.events == [Spawned(key, id)]
            && RuntimeAt(s.daemon.registry, key) == Some(LaunchedRecord(key, id, 1, at))
            && s.daemon.active == d.active[key := id] && s.daemon.finished == d.finished && s.daemon.path == d.path
            && InStep(s.daemon)
  {
    var running := LaunchedRecord(key, id, 1, at);
    var d1 := Put(d, key, Some(running));
    LaunchShape(d, key, id, Answers(id, at));
    RecordsConsistent(key, id, 1, at, at);
    ReplacedRecord(d0, d, d1, key, id, running, None, issued);
    SavedImage(d1.registry);
  }

  lemma Starts(w: World, key: Key, id: string, at: Time)
    requires DaemonInv(w) && IsDefined(w, key) && id != "" && id !in w.issued
    ensures var a := Start(key, Answers(id, at));
            && Enabled(w, a) && Runs(Apply(w, a), key, id, at)
            && SectionOf(w, a).events == [Spawned(key, id)]
            && Apply(w, a).calls == w.calls && Apply(w, a).d.finished == w.d.finished
            && Apply(w, a).issued == w.issued + {id}
  {
    FreshIsUnique(w, key, id);
    StartSucceeds(w.d, key, id, at, w.issued);
  }

  // ---------- a second child ----------

  /**
   * A key of which an earlier daemon left a running child behind gets a second one as soon as it is started again: the
   * new daemon knows nothing that would keep it from that.
   */
  lemma OrphanMakesTwo(w: World, orphan: Incarnation, id: string, at: Time)
    requires DaemonInv(w) && OrphansIssued(w) && orphan in w.orphans && IsDefined(w, orphan.key)
    requires id != "" && id !in w.issued
    ensures var a := Start(orphan.key, Answers(id, at));
            && Enabled(w, a) && Doubles(w, Act(a), orphan.key)
            && {orphan, Incarnation(orphan.key, id)} <= StillRunning(Apply(w, a).orphans, Apply(w, a).log)
            && orphan != Incarnation(orphan.key, id)
  {
    var a := Start(orphan.key, Answers(id, at));
    Starts(w, orphan.key, id, at);
    assert Spawned(orphan.key, id) in ProcessEvents(w, Act(a));
    assert HasOrphan(w, orphan.key);
    ActLogs(w, a);
    LiveSnoc(w.log, Spawned(orphan.key, id));
  }

  /** A crash that strikes while a child runs leaves its key defined and ready to be started. */
  lemma CrashOrphans(w: World, key: Key, id: string, at: Time, later: Time)
    requires DaemonInv(w) && Runs(w, key, id, at) && Incarnation(key, id) in Live(w.log)
    ensures var c := Crash(None, 0, 0, [], later, None);
            && CrashEnabled(w, c) && Recover(w, c).issued == w.issued
            && Incarnation(key, id) in Recover(w, c).orphans
            && IsDefined(Recover(w, c), key)
  {
    CrashImageRecovers(w.d, w.issued, later);
    PlainCrash(w, w.d.registry, Crash(None, 0, 0, [], later, None));
    DefinedAfterCrash(w, Recover(w, Crash(None, 0, 0, [], later, None)), key, later);
  }

  lemma DefinedAfterCrash(w: World, w': World, key: Key, later: Time)
    requires HasProcess(w.d.registry, key) && IsAbs(w.d.path)
    requires w'.d.registry == Reconciled(w.d.registry, later) && w'.d.path == w.d.path
    ensures IsDefined(w', key)
  {
    ReconciledAt(w.d.registry, later, key);
    NothingActiveAfter(w.d.registry, later);
  }

  lemma CrashImageRecovers(d: Daemon, issued: set<string>, later: Time)
    requires GoodRegistry(d.registry, issued) && IsAbs(d.path) && InStep(d)
    ensures BootSucceeds(d.path, d.stored, later, None)
  {
    CrashRecovery(d.path, d.stored, d.registry, later, None);
  }

  /** From a world in which the key is defined: start, crash, start. */
  lemma CrashDoubles(w: World, key: Key, ids: (string, string), at: Time) returns (end: World)
    requires Reachable(w) && IsDefined(w, key)
    requires ids.0 != "" && ids.1 != "" && ids.0 != ids.1 && ids.0 !in w.issued && ids.1 !in w.issued
    ensures Reachable(end)
    ensures Incarnation(key, ids.0) in StillRunning(end.orphans, end.log)
    ensures Incarnation(key, ids.1) in StillRunning(end.orphans, end.log)
  {
    var w1 := Started(w, key, ids.0, at);
    var c := Crash(None, 0, 0, [], at, None);
    ReachableKeeps(w1);
    CrashOrphans(w1, key, ids.0, at, at);
    ReachableNext(w1, Die(c));
    var w2 := After(w1, Die(c));
    ReachableKeeps(w2);
    OrphanMakesTwo(w2, Incarnation(key, ids.0), ids.1, at);
    end := ReachableAct(w2, Start(key, Answers(ids.1, at)));
  }

  lemma Started(w: World, key: Key, id: string, at: Time) returns (w': World)
    requires Reachable(w) && IsDefined(w, key) && id != "" && id !in w.issued
    ensures Reachable(w') && Runs(w', key, id, at) && w'.issued == w.issued + {id}
    ensures Incarnation(key, id) in Live(w'.log)
    ensures w'.calls == w.calls && w'.d.finished == w.d.finished
  {
    var a := Start(key, Answers(id, at));
    ReachableKeeps(w);
    Starts(w, key, id, at);
    w' := ReachableAct(w, a);
    ActLogs(w, a);
    LiveSnoc(w.log, Spawned(key, id));
  }

  // ---------- a Stop that returns a running runtime ----------

  ghost predicate Waits(w: World, call: nat, key: Key, id: string, signal: bool) {
    && InPhase(w, call, StopCall, Awaiting(id, signal))
    && w.calls[call].key == key
  }

  /** A section leaves what the example needs of the daemon as it was. */
  ghost predicate SameSetting(w: World, w': World) {
    w'.d.path == w.d.path && w'.issued == w.issued && forall key :: HasProcess(w'.d.registry, key) <==> HasProcess(w.d.registry, key)
  }

  lemma StopWaits(d: Daemon, key: Key, id: string, at: Time, issued: set<string>)
    requires GoodRegistry(d.registry, issued) && IsAbs(d.path)
    requires RuntimeAt(d.registry, key) == Some(LaunchedRecord(key, id, 1, at)) && OwnedBy(d, Incarnation(key, id))
    ensures var s := StopSection(d, key, None);
            && s.outcome == Waiting(id, true) && s.daemon.path == d.path
            && forall k :: HasProcess(s.daemon.registry, k) <==> HasProcess(d.registry, k)
  {
    var stopping := LaunchedRecord(key, id, 1, at).(state := Stopping);
    ReasonsDiffer();
    OwnRecord(d.registry, key, issued);
    SavableWithRuntime(d.registry, key, stopping);
    StopShape(d, key, LaunchedRecord(key, id, 1, at), None);
  }

  lemma StopBegins(w: World, call: nat, key: Key, id: string, at: Time)
    requires DaemonInv(w) && Runs(w, key, id, at) && call !in w.calls
    ensures var a := BeginStop(call, StopCall, key, None);
            && Enabled(w, a) && Waits(Apply(w, a), call, key, id, true)
            && Apply(w, a).log == w.log && SameSetting(w, Apply(w, a))
  {
    StopWaits(w.d, key, id, at, w.issued);
    BeginApplied(w, call, key, StopSection(w.d, key, None));
  }

  lemma BeginApplied(w: World, call: nat, key: Key, s: StopStep)
    requires call !in w.calls && s == StopSection(w.d, key, None) && s.outcome.Waiting?
    ensures var w' := Apply(w, BeginStop(call, StopCall, key, None));
            && Waits(w', call, key, s.outcome.instanceID, s.outcome.signal)
            && w'.d == s.daemon && w'.log == w.log && w'.issued == w.issued
  {
    var a := BeginStop(call, StopCall, key, None);
    assert SectionOf(w, a) == OfStop(s);
  }

  lemma ExitObserved(w: World, child: Incarnation, at: Time, w': World)
    requires DaemonInv(w) && child in w.exits && IsAbs(w.d.path) && w' == Apply(w, Observe(child, at, None))
    ensures child.instanceID in w'.d.finished && w'.d.finished[child.instanceID] == []
    ensures w'.calls == w.calls && SameSetting(w, w') && IsDefined(w', child.key)
  {
    var s := ObserveSection(w.d, child.key, child.instanceID, w.exits[child], at, None);
    ExitIsOwned(w, child);
    OwnExit(w.d, child, w.exits[child], at, w.issued, s);
    ObserveApplied(w, Observe(child, at, None), w');
    SectionSeen(w, s, child, w');
  }

  lemma SectionSeen(w: World, s: Section, child: Incarnation, w': World)
    requires w' == CommitSection(w, s, {}).(exits := w.exits - {child})
    ensures w'.d == s.daemon && w'.calls == w.calls && w'.issued == w.issued
  {
  }

  lemma OwnExit(d: Daemon, child: Incarnation, exit: Exit, at: Time, issued: set<string>, s: Section)
    requires OwnedBy(d, child) && ActiveInv(d) && GoodData(d, issued) && IsAbs(d.path)
    requires s == ObserveSection(d, child.key, child.instanceID, exit, at, None)
    ensures child.instanceID in s.daemon.finished && s.daemon.finished[child.instanceID] == []
    ensures s.daemon.path == d.path && !IsActiveAt(s.daemon.registry, child.key)
    ensures forall k :: HasProcess(s.daemon.registry, k) <==> HasProcess(d.registry, k)
  {
    EndStored(d, child.key, RuntimeAt(d.registry, child.key).value, exit, at, issued);
  }

  lemma EndStored(d: Daemon, key: Key, runtime: ProcessRuntime, exit: Exit, at: Time, issued: set<string>)
    requires RuntimeAt(d.registry, key) == Some(runtime) && (runtime.state.Running? || runtime.state.Stopping?)
    requires GoodData(d, issued) && IsAbs(d.path)
    ensures var d' := EndSection(d, key, runtime, exit, at, None).daemon;
            && runtime.instanceID in d'.finished && d'.finished[runtime.instanceID] == []
            && d'.path == d.path && !IsActiveAt(d'.registry, key)
            && forall k :: HasProcess(d'.registry, k) <==> HasProcess(d.registry, k)
  {
    EndedRecordSaved(d, key, runtime, exit, at, None, issued);
    EndShape(d, key, runtime, exit, at, None);
  }

  /**
   * From a world in which the key is defined: start, stop, exit, start again, and only then the stop sees that its
   * instance is done. It returns the new, running runtime without an error.
   */
  lemma StopReturnsRunning(w: World, call: nat, key: Key, ids: (string, string), at: Time)
      returns (end: World, reply: Reply)
    requires Reachable(w) && IsDefined(w, key) && call !in w.calls
    requires ids.0 != "" && ids.1 != "" && ids.0 != ids.1 && ids.0 !in w.issued && ids.1 !in w.issued
    ensures Reachable(end) && InPhase(end, call, StopCall, Returned(reply))
    ensures reply == Reply(Some(LaunchedRecord(key, ids.1, 1, at)), [])
    ensures reply.runtime.value.state.Running? && end.calls[call].target == Some(ids.0)
  {
    var w1 := Started(w, key, ids.0, at);
    var w2 := StopSignalled(w1, call, key, ids.0, at);
    var w3 := Exited(w2, call, key, ids.0, at);
    var w4 := Started(w3, key, ids.1, at);
    reply := Reply(Some(LaunchedRecord(key, ids.1, 1, at)), []);
    SeesNewer(w4, call, key, ids.0, ids.1, at);
    end := ReachableAct(w4, SeesDone(call));
    ReachableKeeps(w4);
    assert CallInv(w4, w4.calls[call]);
  }

  lemma StopSignalled(w: World, call: nat, key: Key, id: string, at: Time) returns (w': World)
    requires Reachable(w) && Runs(w, key, id, at) && call !in w.calls
    ensures Reachable(w') && Waits(w', call, key, id, false) && w'.log == w.log && SameSetting(w, w')
  {
    var begun := StopBegun(w, call, key, id, at);
    w' := ReachableAct(begun, SignalSent(call));
    Signalled(begun, call, key, id, w');
  }

  lemma StopBegun(w: World, call: nat, key: Key, id: string, at: Time) returns (w': World)
    requires Reachable(w) && Runs(w, key, id, at) && call !in w.calls
    ensures Reachable(w') && Waits(w', call, key, id, true) && w'.log == w.log && SameSetting(w, w')
  {
    ReachableKeeps(w);
    StopBegins(w, call, key, id, at);
    w' := ReachableAct(w, BeginStop(call, StopCall, key, None));
  }

  lemma Signalled(w: World, call: nat, key: Key, id: string, w': World)
    requires Waits(w, call, key, id, true) && w' == Apply(w, SignalSent(call))
    ensures Waits(w', call, key, id, false) && w'.log == w.log && SameSetting(w, w')
  {
  }

  lemma Exited(w: World, call: nat, key: Key, id: string, at: Time) returns (w': World)
    requires Reachable(w) && Waits(w, call, key, id, false) && IsAbs(w.d.path) && Incarnation(key, id) in Live(w.log)
    ensures Reachable(w') && Waits(w', call, key, id, false) && SameSetting(w, w') && IsDefined(w', key)
    ensures id in w'.d.finished && w'.d.finished[id] == []
  {
    var child := Incarnation(key, id);
    var w1 := ReachableAct(w, ChildExits(child, Exit(0, false)));
    ExitHappens(w, child, w1);
    ReachableKeeps(w1);
    w' := ReachableAct(w1, Observe(child, at, None));
    ExitObserved(w1, child, at, w');
  }

  lemma ExitHappens(w: World, child: Incarnation, w': World)
    requires child in Live(w.log) && w' == Apply(w, ChildExits(child, Exit(0, false)))
    ensures w'.d == w.d && w'.calls == w.calls && w'.issued == w.issued && child in w'.exits
  {
  }

  lemma SeesNewer(w: World, call: nat, key: Key, id: string, newer: string, at: Time)
    requires Waits(w, call, key, id, false) && id in w.d.finished && w.d.finished[id] == []
    requires RuntimeAt(w.d.registry, key) == Some(LaunchedRecord(key, newer, 1, at))
    ensures Enabled(w, SeesDone(call))
    ensures Apply(w, SeesDone(call)).calls[call] ==
            w.calls[call].(phase := Returned(Reply(Some(LaunchedRecord(key, newer, 1, at)), [])))
  {
  }

  // ---------- a world in which a key is defined ----------

  /** Such worlds exist for every pair of acceptable definitions: the first daemon adds them. */
  lemma Defined(path: string, limits: Limits, project: ProjectDefinition, process: ProcessDefinition)
      returns (w: World)
    requires limits.bytes > 0 && limits.events > 0 && IsAbs(path)
    requires project.id != "" && IsAbs(project.rootDirectory)
    requires process.projectID == project.id && process.id != "" && process.command != ""
    ensures Reachable(w) && IsDefined(w, Key(project.id, process.id)) && w.issued == {} && w.calls == map[]
  {
    var key := Key(project.id, process.id);
    var w0 := InitialWorld(path, limits);
    var add, addProcess := AddProject(project, true, None), AddProcess(process, true, None);
    ReachableFirst(path, limits);
    ProjectAdded(w0.d, project);
    var w1 := ReachableAct(w0, add);
    SectionApplied(w0, add, w1);
    ProcessAdded(w1.d, process, {});
    w := ReachableAct(w1, addProcess);
    SectionApplied(w1, addProcess, w);
  }

  lemma SectionApplied(w: World, a: Action, w': World)
    requires (a.AddProject? || a.AddProcess?) && w' == Apply(w, a)
    ensures w'.d == SectionOf(w, a).daemon && w'.calls == w.calls && w'.issued == w.issued
  {
  }

  lemma ProjectAdded(d: Daemon, project: ProjectDefinition)
    requires d.registry == EMPTY_REGISTRY && IsAbs(d.path) && project.id != "" && IsAbs(project.rootDirectory)
    ensures var d' := AddProjectSection(d, project, true, None).daemon;
            && d'.path == d.path && project.id in d'.registry.projects
            && d'.registry.projects[project.id].processes == map[]
            && GoodRegistry(d'.registry, {})
  {
    assert GoodRegistry(d.registry, {});
    AddedProject(d.registry, project, {});
  }

  lemma ProcessAdded(d: Daemon, process: ProcessDefinition, issued: set<string>)
    requires GoodRegistry(d.registry, issued) && IsAbs(d.path) && AddsProcess(d, process, true)
    ensures var d' := AddProcessSection(d, process, true, None).daemon;
            var key := Key(process.projectID, process.id);
            d'.path == d.path && HasProcess(d'.registry, key) && RuntimeAt(d'.registry, key).None?
  {
    AddedProcess(d, Key(process.projectID, process.id), process, issued);
    AddProcessShape(d, process, true, None);
  }
}
