/** When the file holds all that is in memory, runtimes included, and what a crash makes of them. */
module LifecycleImages {
  import opened Wrappers
  import opened ProcessStates
  import opened Registries
  import opened RegistryDocuments
  import opened RegistryStores
  import opened Lifecycle
  import opened LifecycleWorld
  import opened LifecycleInvariant
  import opened LifecycleSections
  import opened LifecycleDefinitions
  import opened LifecycleCalls
  import opened LifecycleRuns

  ghost predicate InStep(d: Daemon) {
    IsImageOf(d.stored, d.registry)
  }

  /** A save with this fate leaves its contents in the file. */
  predicate Stores(d: Daemon, fault: Fault) {
    IsAbs(d.path) && Replaces(fault)
  }

  predicate StartsFreshly(d: Daemon, key: Key, answers: StartAnswers) {
    HasProcess(d.registry, key) && !IsActiveAt(d.registry, key) && answers.newID.Some?
  }

  /** The last save of a start did not leave in the file what is in memory. */
  predicate StartStrays(d: Daemon, answers: StartAnswers) {
    if !IsAbs(d.path) || answers.first.Some? then LateFailure(d, answers.first)
    else if answers.pid.None? then !Replaces(answers.second)
    else answers.second.Some? && !Replaces(answers.third)
  }

  predicate StopsRunning(d: Daemon, key: Key) {
    key in d.active && RuntimeAt(d.registry, key).Some? && RuntimeAt(d.registry, key).value.state.Running?
  }

  /**
   * The action rolls something back after a save that replaced the file, or goes on after a save that did not: the
   * records of failed starts and of exits are kept in memory even when they could not be stored.
   */
  ghost predicate Strays(w: World, a: Action)
    requires Enabled(w, a)
  {
    match a
    case Start(key, answers) => StartsFreshly(w.d, key, answers) && StartStrays(w.d, answers)
    case RestartStart(call, answers) => StartsFreshly(w.d, w.calls[call].key, answers) && StartStrays(w.d, answers)
    case BeginStop(_, _, key, fault) => StopsRunning(w.d, key) && LateFailure(w.d, fault)
    case StopNextKey(call, fault) => StopsRunning(w.d, w.calls[call].remaining[0]) && LateFailure(w.d, fault)
    case Observe(_, _, fault) => !Stores(w.d, fault)
    case _ => Misleads(w, a)
  }

  // ---------- one save ----------

  /** A save of something new brings the file in step exactly if it replaces the file. */
  lemma PersistInStep(d: Daemon, fault: Fault)
    requires IsSavable(d.registry) && ImageLoads(d.stored) && ImageRegistry(d.stored) != d.registry
    ensures InStep(Persist(d, fault)) <==> Stores(d, fault)
  {
    SavedImage(d.registry);
  }

  /** A change that is rolled back leaves the file in step exactly if its save did not replace the file. */
  lemma RollbackInStep(d: Daemon, d1: Daemon, fault: Fault)
    requires InStep(d) && d1 == d.(registry := d1.registry) && IsSavable(d1.registry) && d1.registry != d.registry
    ensures InStep(Persist(d1, fault).(registry := d.registry)) <==> !Stores(d, fault)
    ensures Saves(d1, fault) ==> InStep(Persist(d1, fault))
    ensures !Saves(d1, fault) ==> (Stores(d, fault) <==> LateFailure(d, fault))
  {
    SavedImage(d1.registry);
  }

  // ---------- starting ----------

  lemma StartInStep(w: World, key: Key, answers: StartAnswers)
    requires DaemonInv(w) && Plausible(w, answers) && InStep(w.d)
    ensures InStep(StartSection(w.d, key, answers).daemon)
            <==> !(StartsFreshly(w.d, key, answers) && StartStrays(w.d, answers))
  {
    if StartsFreshly(w.d, key, answers) {
      FreshIsUnique(w, key, answers.newID.value);
      FreshStartInStep(w.d, key, answers.newID.value, answers, w.issued);
    }
  }

  lemma FreshStartInStep(d: Daemon, key: Key, id: string, answers: StartAnswers, issued: set<string>)
    requires CanStart(d, key, id, issued) && answers.newID == Some(id) && InStep(d)
    requires answers.pid.Some? ==> answers.pid.value > 0
    ensures InStep(FreshStart(d, key, id, answers).daemon) <==> !StartStrays(d, answers)
  {
    var starting := Put(d, key, Some(NewProcessRuntime(key, id)));
    StartingSaved(d, key, id, answers.first, issued);
    assert RuntimeAt(starting.registry, key) != RuntimeAt(d.registry, key);
    RollbackInStep(d, starting, answers.first);
    if !Saves(starting, answers.first) {
      RuntimeRollback(d.registry, key, Some(NewProcessRuntime(key, id)));
    } else if answers.pid.None? {
      FailStartInStep(d, Persist(starting, answers.first), key, id, answers, issued);
    } else {
      LaunchInStep(d, Persist(starting, answers.first), key, id, answers, issued);
    }
  }

  lemma FailStartInStep(d0: Daemon, d: Daemon, key: Key, id: string, answers: StartAnswers, issued: set<string>)
    requires IsStarting(d0, d, key, id, issued) && InStep(d) && IsAbs(d.path)
    ensures InStep(FailStart(d, key, answers.failedAt, answers.second).daemon) <==> Replaces(answers.second)
  {
    var failed := FailedStartRecord(key, id, answers.failedAt);
    var d1 := Put(d, key, Some(failed));
    RecordsConsistent(key, id, 1, answers.failedAt, 0);
    ReplacedRecord(d0, d, d1, key, id, failed, answers.second, issued);
    assert RuntimeAt(d1.registry, key) != RuntimeAt(d.registry, key);
    PersistInStep(d1, answers.second);
  }

  lemma LaunchInStep(d0: Daemon, d: Daemon, key: Key, id: string, answers: StartAnswers, issued: set<string>)
    requires IsStarting(d0, d, key, id, issued) && InStep(d) && IsAbs(d.path)
    requires answers.pid.Some? && answers.pid.value > 0
    ensures InStep(LaunchSection(d, key, id, answers.pid.value, answers).daemon)
            <==> answers.second.None? || Replaces(answers.third)
  {
    var running := LaunchedRecord(key, id, answers.pid.value, answers.startedAt);
    var saved := RunningSaved(d0, d, key, id, running, answers, issued);
    LaunchShape(d, key, id, answers);
    if answers.second.Some? {
      KilledInStep(d0, d, saved, key, id, running, answers, issued);
    }
  }

  /** The save of the running record leaves the file in step, or with the record before it. */
  lemma RunningSaved(
      d0: Daemon, d: Daemon, key: Key, id: string, running: ProcessRuntime, answers: StartAnswers, issued: set<string>)
      returns (saved: Daemon)
    requires IsStarting(d0, d, key, id, issued) && InStep(d) && IsAbs(d.path)
    requires answers.pid.Some? && answers.pid.value > 0
    requires running == LaunchedRecord(key, id, answers.pid.value, answers.startedAt)
    ensures HasProcess(d.registry, key) && saved == Persist(Put(d, key, Some(running)), answers.second)
    ensures Saves(Put(d, key, Some(running)), answers.second) <==> answers.second.None?
    ensures saved == Put(d, key, Some(running)).(stored := saved.stored) && GoodImage(saved.stored, issued + {id})
    ensures ImageRegistry(saved.stored) in {d.registry, saved.registry}
    ensures answers.second.None? ==> InStep(saved)
  {
    var d1 := Put(d, key, Some(running));
    saved := Persist(d1, answers.second);
    RecordsConsistent(key, id, answers.pid.value, answers.startedAt, answers.failedAt);
    ReplacedRecord(d0, d, d1, key, id, running, answers.second, issued);
    SavedImage(d1.registry);
  }

  lemma KilledInStep(
      d0: Daemon, d: Daemon, saved: Daemon, key: Key, id: string, running: ProcessRuntime, answers: StartAnswers,
      issued: set<string>)
    requires IsStarting(d0, d, key, id, issued) && IsAbs(d.path)
    requires answers.pid.Some? && answers.pid.value > 0
    requires running == LaunchedRecord(key, id, answers.pid.value, answers.startedAt)
    requires HasProcess(d.registry, key)
    requires saved == Put(d, key, Some(running)).(stored := saved.stored) && GoodImage(saved.stored, issued + {id})
    requires ImageRegistry(saved.stored) in {d.registry, saved.registry}
    ensures InStep(KilledSection(saved, key, id, running, answers).daemon) <==> Replaces(answers.third)
  {
    var d2 := Put(saved, key, Some(KilledRecord(running, answers.failedAt)));
    KilledRecordSaved(d0, d, saved, key, id, running, answers, issued);
    assert RuntimeAt(d2.registry, key).value.state.Failed?;
    assert !RuntimeAt(d.registry, key).value.state.Failed? && !RuntimeAt(saved.registry, key).value.state.Failed?;
    PersistInStep(d2, answers.third);
  }

  // ---------- stopping and ending ----------

  lemma StopInStep(w: World, key: Key, fault: Fault)
    requires DaemonInv(w) && InStep(w.d)
    ensures InStep(StopSection(w.d, key, fault).daemon) <==> !(StopsRunning(w.d, key) && LateFailure(w.d, fault))
  {
    if StopsRunning(w.d, key) {
      var runtime := RuntimeAt(w.d.registry, key).value;
      StopRunningInStep(w.d, key, runtime, fault, w.issued);
    } else {
      StopWithoutChange(w.d, key, fault);
    }
  }

  lemma StopRunningInStep(d: Daemon, key: Key, runtime: ProcessRuntime, fault: Fault, issued: set<string>)
    requires GoodRegistry(d.registry, issued) && InStep(d)
    requires RuntimeAt(d.registry, key) == Some(runtime) && runtime.state.Running?
    requires key in d.active && d.active[key] == runtime.instanceID
    ensures InStep(StopSection(d, key, fault).daemon) <==> !LateFailure(d, fault)
  {
    var d1 := Put(d, key, Some(runtime.(state := Stopping)));
    OwnRecord(d.registry, key, issued);
    ReasonsDiffer();
    SavableWithRuntime(d.registry, key, runtime.(state := Stopping));
    assert RuntimeAt(d1.registry, key) != RuntimeAt(d.registry, key);
    RollbackInStep(d, d1, fault);
    StopShape(d, key, runtime, fault);
  }

  lemma ObserveInStep(w: World, child: Incarnation, at: Time, fault: Fault)
    requires DaemonInv(w) && child in w.exits && InStep(w.d)
    ensures InStep(ObserveSection(w.d, child.key, child.instanceID, w.exits[child], at, fault).daemon)
            <==> Stores(w.d, fault)
  {
    ExitIsOwned(w, child);
    OwnedEndInStep(w.d, child, w.exits[child], at, fault, w.issued);
  }

  lemma OwnedEndInStep(d: Daemon, child: Incarnation, exit: Exit, at: Time, fault: Fault, issued: set<string>)
    requires OwnedBy(d, child) && ActiveInv(d) && GoodData(d, issued) && InStep(d)
    ensures InStep(ObserveSection(d, child.key, child.instanceID, exit, at, fault).daemon) <==> Stores(d, fault)
  {
    EndInStep(d, child.key, RuntimeAt(d.registry, child.key).value, exit, at, fault, issued);
  }

  lemma EndInStep(
      d: Daemon, key: Key, runtime: ProcessRuntime, exit: Exit, at: Time, fault: Fault, issued: set<string>)
    requires RuntimeAt(d.registry, key) == Some(runtime) && (runtime.state.Running? || runtime.state.Stopping?)
    requires GoodData(d, issued) && InStep(d)
    ensures InStep(EndSection(d, key, runtime, exit, at, fault).daemon) <==> Stores(d, fault)
  {
    var d1 := Put(d, key, Some(EndedRecord(runtime, exit, at)));
    EndedRecordSaved(d, key, runtime, exit, at, fault, issued);
    assert RuntimeAt(d1.registry, key) != RuntimeAt(d.registry, key);
    PersistInStep(d1, fault);
    EndShape(d, key, runtime, exit, at, fault);
  }

  // ---------- definitions ----------

  lemma AddProjectInStep(d: Daemon, definition: ProjectDefinition, isDirectory: bool, fault: Fault, issued: set<string>)
    requires GoodRegistry(d.registry, issued) && InStep(d)
    ensures InStep(AddProjectSection(d, definition, isDirectory, fault).daemon)
            <==> !(AddsProject(d, definition, isDirectory) && LateFailure(d, fault))
  {
    if AddsProject(d, definition, isDirectory) {
      AddedProject(d.registry, definition, issued);
      var changed := WithProject(d, definition);
      assert changed.registry.projects - {definition.id} == d.registry.projects;
      assert definition.id in changed.registry.projects;
      RollbackInStep(d, changed, fault);
    }
  }

  lemma RemoveProjectInStep(d: Daemon, projectID: string, fault: Fault, issued: set<string>)
    requires GoodRegistry(d.registry, issued) && InStep(d)
    ensures InStep(RemoveProjectSection(d, projectID, fault).daemon)
            <==> !(RemovesProject(d, projectID) && LateFailure(d, fault))
  {
    if RemovesProject(d, projectID) {
      RemovedProject(d.registry, projectID, issued);
      var changed := WithProjects(d, d.registry.projects - {projectID});
      assert changed.registry.projects[projectID := d.registry.projects[projectID]] == d.registry.projects;
      assert projectID !in changed.registry.projects;
      RollbackInStep(d, changed, fault);
    }
  }

  lemma AddProcessInStep(d: Daemon, definition: ProcessDefinition, isDirectory: bool, fault: Fault, issued: set<string>)
    requires GoodRegistry(d.registry, issued) && InStep(d)
    ensures InStep(AddProcessSection(d, definition, isDirectory, fault).daemon)
            <==> !(AddsProcess(d, definition, isDirectory) && LateFailure(d, fault))
  {
    if AddsProcess(d, definition, isDirectory) {
      var key := Key(definition.projectID, definition.id);
      var changed := WithEntry(d, key, RegisteredProcess(definition, None));
      AddProcessShape(d, definition, isDirectory, fault);
      AddedProcess(d, key, definition, issued);
      assert HasProcess(changed.registry, key) && !HasProcess(d.registry, key);
      RollbackInStep(d, changed, fault);
    }
  }

  lemma RemoveProcessInStep(d: Daemon, key: Key, fault: Fault, issued: set<string>)
    requires GoodRegistry(d.registry, issued) && InStep(d)
    ensures InStep(RemoveProcessSection(d, key, fault).daemon) <==> !(RemovesProcess(d, key) && LateFailure(d, fault))
  {
    if RemovesProcess(d, key) {
      var changed := WithoutEntry(d, key);
      var rolledBack := WithEntry(Persist(changed, fault).(registry := changed.registry), key, ProcessAt(d.registry, key));
      AddUndoesRemove(d, key);
      assert rolledBack == Persist(changed, fault).(registry := d.registry);
      RemovedProcess(d, key, issued);
      assert !HasProcess(changed.registry, key);
      RollbackInStep(d, changed, fault);
    }
  }

  // ---------- every action ----------

  /** An action that begins with memory and file in step ends so exactly if it is none of those that stray. */
  lemma InStepExactly(w: World, a: Action)
    requires DaemonInv(w) && Enabled(w, a) && InStep(w.d)
    ensures InStep(Apply(w, a).d) <==> !Strays(w, a)
  {
    if a.Start? || a.RestartStart? {
      StartInStep(w, if a.Start? then a.key else w.calls[a.call].key, a.answers);
    } else if a.BeginStop? || a.StopNextKey? {
      StopInStep(w, if a.BeginStop? then a.key else w.calls[a.call].remaining[0], a.fault);
    } else if a.Observe? {
      ObserveInStep(w, a.child, a.at, a.fault);
    } else {
      DefinitionActionInStep(w, a);
    }
  }

  lemma DefinitionActionInStep(w: World, a: Action)
    requires DaemonInv(w) && Enabled(w, a) && InStep(w.d)
    requires !a.Start? && !a.RestartStart? && !a.BeginStop? && !a.StopNextKey? && !a.Observe?
    ensures InStep(Apply(w, a).d) <==> !Misleads(w, a)
  {
    if a.AddProject? {
      AddProjectInStep(w.d, a.project, a.isDirectory, a.fault, w.issued);
    } else if a.RemoveProject? {
      RemoveProjectInStep(w.d, a.projectID, a.fault, w.issued);
    } else if a.AddProcess? {
      AddProcessInStep(w.d, a.process, a.isDirectory, a.fault, w.issued);
    } else if a.RemoveProcess? {
      RemoveProcessInStep(w.d, a.key, a.fault, w.issued);
    }
  }

  // ---------- histories ----------

  ghost predicate HasStrayed(ws: seq<World>, events: seq<Event>, i: int)
    requires 0 <= i < |events| < |ws|
  {
    events[i].Act? && CanHappen(ws[i], events[i]) && Strays(ws[i], events[i].action)
  }

  ghost predicate NeverStrayed(ws: seq<World>, events: seq<Event>, from: nat, until: nat)
    requires until <= |events| < |ws|
  {
    forall i | from <= i < until :: !HasStrayed(ws, events, i)
  }

  ghost predicate AlwaysInStep(ws: seq<World>, from: nat, until: nat)
    requires until < |ws|
  {
    forall i | from <= i <= until :: InStep(ws[i].d)
  }

  /**
   * In every history, from its beginning or from any crash on, the file holds exactly what is in memory, runtimes
   * included, as long as no action strays, and no longer.
   */
  lemma {:induction false} HistoryInStep(ws: seq<World>, events: seq<Event>, from: nat, until: nat)
    requires IsHistory(ws, events) && StartsFresh(ws[0]) && from <= until < |ws|
    requires from == 0 || events[from - 1].Die?
    ensures AlwaysInStep(ws, from, until) <==> NeverStrayed(ws, events, from, until)
  {
    if from == until {
      InStepAtFirst(ws, events, from);
    } else {
      HistoryInStep(ws, events, from, until - 1);
      if InStep(ws[until - 1].d) {
        HistoryStepInStep(ws, events, until - 1);
      }
      assert AlwaysInStep(ws, from, until) <==> AlwaysInStep(ws, from, until - 1) && InStep(ws[until].d);
      assert NeverStrayed(ws, events, from, until)
        <==> NeverStrayed(ws, events, from, until - 1) && !HasStrayed(ws, events, until - 1);
    }
  }

  lemma InStepAtFirst(ws: seq<World>, events: seq<Event>, i: nat)
    requires IsHistory(ws, events) && StartsFresh(ws[0]) && i < |ws|
    requires i == 0 || events[i - 1].Die?
    ensures InStep(ws[i].d)
  {
    if i > 0 {
      CrashInStep(ws, events, i - 1);
    }
  }

  lemma CrashInStep(ws: seq<World>, events: seq<Event>, i: nat)
    requires IsHistory(ws, events) && StartsFresh(ws[0]) && i < |events| && events[i].Die?
    ensures InStep(ws[i + 1].d)
  {
    assert IsStep(ws, events, i);
    CrashAnywhere(ws, events, i, events[i].crash);
  }

  lemma HistoryStepInStep(ws: seq<World>, events: seq<Event>, i: nat)
    requires IsHistory(ws, events) && StartsFresh(ws[0]) && i < |events| && InStep(ws[i].d)
    ensures InStep(ws[i + 1].d) <==> !HasStrayed(ws, events, i)
  {
    HistoryKeeps(ws, events, i);
    assert IsStep(ws, events, i);
    if events[i].Die? {
      CrashInStep(ws, events, i);
    } else {
      EventInStep(ws[i], events[i], ws[i + 1]);
    }
  }

  lemma EventInStep(w: World, e: Event, w': World)
    requires WorldInv(w) && CanHappen(w, e) && !e.Die? && w' == After(w, e) && InStep(w.d)
    ensures InStep(w'.d) <==> !(e.Act? && Strays(w, e.action))
  {
    if e.Act? {
      InStepExactly(w, e.action);
    }
  }

  // ---------- records across a crash ----------

  /**
   * When memory and file are in step, a crash between two sections is one more step in the life of every current
   * record: it is kept, and moves by the transition table if it was active. Records of replaced instances are gone.
   */
  lemma RecordsOutliveCrash(ws: seq<World>, events: seq<Event>, i: nat, c: Crash, child: Incarnation)
    requires IsHistory(ws, events) && StartsFresh(ws[0]) && i < |ws| && InStep(ws[i].d)
    requires c.during.None? && CrashEnabled(ws[i], c)
    ensures var w' := Recover(ws[i], c);
            && (child in w'.records <==> IsCurrent(ws[i].d.registry, child))
            && (child in w'.records && child in ws[i].records ==>
                  if ws[i].records[child].state.IsTerminal() then w'.records[child] == ws[i].records[child]
                  else exists at :: IsAttempt(c, at) && w'.records[child] == Interrupted(ws[i].records[child], at))
  {
    HistoryKeeps(ws, events, i);
    CrashAnywhere(ws, events, i, c);
    OutlivesCrash(ws[i], c, child);
  }

  lemma OutlivesCrash(w: World, c: Crash, child: Incarnation)
    requires RecordInv(w) && InStep(w.d) && c.during.None? && CrashEnabled(w, c)
    requires exists at :: IsAttempt(c, at) && IsRecovered(w.d.registry, Recover(w, c).d.registry, at)
    ensures var w' := Recover(w, c);
            && (child in w'.records <==> IsCurrent(w.d.registry, child))
            && (child in w'.records && child in w.records ==>
                  if w.records[child].state.IsTerminal() then w'.records[child] == w.records[child]
                  else exists at :: IsAttempt(c, at) && w'.records[child] == Interrupted(w.records[child], at))
  {
    var next := Recover(w, c).d.registry;
    var at :| IsAttempt(c, at) && IsRecovered(w.d.registry, next, at);
    assert Recover(w, c).records == Recorded(map[], next);
    RecordedAt(map[], next, child);
    RecoveredRecord(w.d.registry, next, at, child.key);
  }

  lemma RecoveredRecord(left: Registry, next: Registry, at: Time, key: Key)
    requires IsRecovered(left, next, at)
    ensures RuntimeAt(next, key) ==
            if IsActiveAt(left, key) then Some(Interrupted(RuntimeAt(left, key).value, at)) else RuntimeAt(left, key)
  {
  }

  /**
   * Out of step it is not so: an exit that was recorded but could not be stored is forgotten by a crash, and the record
   * that was final before comes back as interrupted.
   */
  lemma UnstoredExitIsForgotten(w: World, child: Incarnation, at: Time, later: Time)
    requires DaemonInv(w) && InStep(w.d) && IsAbs(w.d.path) && child in w.exits
    ensures var seen := Apply(w, Observe(child, at, Some(FlushContent)));
            var c := Crash(None, 0, 0, [], later, None);
            && child in seen.records && seen.records[child].state.IsTerminal()
            && CrashEnabled(seen, c)
            && child in Recover(seen, c).records
            && Recover(seen, c).records[child] == Interrupted(RuntimeAt(w.d.registry, child.key).value, later)
  {
    var seen := Apply(w, Observe(child, at, Some(FlushContent)));
    UnstoredExit(w, child, at, seen);
    ForgottenBy(seen, w.d.registry, Crash(None, 0, 0, [], later, None), child);
  }

  lemma UnstoredExit(w: World, child: Incarnation, at: Time, seen: World)
    requires DaemonInv(w) && child in w.exits && seen == Apply(w, Observe(child, at, Some(FlushContent)))
    ensures child in seen.records && seen.records[child].state.IsTerminal()
    ensures seen.d.stored == w.d.stored && seen.d.path == w.d.path
    ensures IsCurrent(w.d.registry, child) && IsActiveAt(w.d.registry, child.key)
  {
    var s := ObserveSection(w.d, child.key, child.instanceID, w.exits[child], at, Some(FlushContent));
    UnstoredSection(w, child, at, s);
    ObserveApplied(w, Observe(child, at, Some(FlushContent)), seen);
    ObservedRecord(w, child, s, seen);
  }

  lemma ObserveApplied(w: World, a: Action, seen: World)
    requires a.Observe? && Enabled(w, a) && seen == Apply(w, a)
    ensures seen == CommitSection(w, SectionOf(w, a), {}).(exits := w.exits - {a.child})
  {
  }

  lemma UnstoredSection(w: World, child: Incarnation, at: Time, s: Section)
    requires DaemonInv(w) && child in w.exits
    requires s == ObserveSection(w.d, child.key, child.instanceID, w.exits[child], at, Some(FlushContent))
    ensures s.events == [] && s.daemon.stored == w.d.stored && s.daemon.path == w.d.path
    ensures IsCurrent(s.daemon.registry, child) && RuntimeAt(s.daemon.registry, child.key).value.state.IsTerminal()
    ensures IsCurrent(w.d.registry, child) && IsActiveAt(w.d.registry, child.key)
  {
    ExitIsOwned(w, child);
    UnstoredEnd(w.d, child, w.exits[child], at);
  }

  lemma ObservedRecord(w: World, child: Incarnation, s: Section, seen: World)
    requires s.events == [] && seen == CommitSection(w, s, {}).(exits := w.exits - {child})
    ensures seen.d == s.daemon
    ensures IsCurrent(s.daemon.registry, child) ==>
              child in seen.records && seen.records[child] == RuntimeAt(s.daemon.registry, child.key).value
  {
    ExitDropped(w, child, s, seen);
    RecordedAt(w.records, s.daemon.registry, child);
  }

  lemma UnstoredEnd(d: Daemon, child: Incarnation, exit: Exit, at: Time)
    requires OwnedBy(d, child) && ActiveInv(d)
    ensures var s := ObserveSection(d, child.key, child.instanceID, exit, at, Some(FlushContent));
            var d' := s.daemon;
            && s.events == []
            && d'.stored == d.stored && d'.path == d.path
            && IsCurrent(d'.registry, child) && RuntimeAt(d'.registry, child.key).value.state.IsTerminal()
  {
    EndShape(d, child.key, RuntimeAt(d.registry, child.key).value, exit, at, Some(FlushContent));
  }

  lemma ForgottenBy(w: World, stored: Registry, c: Crash, child: Incarnation)
    requires IsAbs(w.d.path) && IsImageOf(w.d.stored, stored) && IsSavable(stored)
    requires IsCurrent(stored, child) && IsActiveAt(stored, child.key)
    requires c == Crash(None, 0, 0, [], c.at, None)
    ensures CrashEnabled(w, c)
    ensures child in Recover(w, c).records
    ensures Recover(w, c).records[child] == Interrupted(RuntimeAt(stored, child.key).value, c.at)
  {
    CrashRecovery(w.d.path, w.d.stored, stored, c.at, c.fault);
    PlainCrash(w, stored, c);
    ReconciledAt(stored, c.at, child.key);
    RecordedAt(map[], Reconciled(stored, c.at), child);
  }

  /** A crash between two sections, after which the first attempt to come up succeeds. */
  lemma PlainCrash(w: World, stored: Registry, c: Crash)
    requires c == Crash(None, 0, 0, [], c.at, None)
    requires IsImageOf(w.d.stored, stored) && BootSucceeds(w.d.path, w.d.stored, c.at, None)
    ensures CrashEnabled(w, c)
    ensures var w' := Recover(w, c);
            && w'.d.registry == Reconciled(stored, c.at) && w'.d.path == w.d.path
            && w'.records == Recorded(map[], Reconciled(stored, c.at))
            && w'.issued == w.issued && w'.orphans == w.orphans + Live(w.log)
  {
    assert LogAtCrash(w, c) == w.log;
  }
}
