/** What each critical section leaves behind and answers, read off the registry and written out field by field. */
module LifecycleOutcomes {
  import opened Wrappers
  import opened ProcessStates
  import opened Registries
  import opened RegistryDocuments
  import opened RegistryStores
  import opened Lifecycle
  import opened LifecycleWorld
  import opened LifecycleInvariant
  import opened LifecycleSections
  import opened LifecycleDefinitions
  import opened LifecycleCalls
  import opened LifecycleRuns

  /** Only the runtime of one process differs. */
  ghost predicate OnlyRecord(before: Registry, after: Registry, key: Key, runtime: ProcessRuntime) {
    && SameDefinitions(before, after)
    && RuntimeAt(after, key) == Some(runtime)
    && forall k | k != key :: RuntimeAt(after, k) == RuntimeAt(before, k)
  }

  lemma ReplacedOnly(registry: Registry, key: Key, runtime: ProcessRuntime)
    requires HasProcess(registry, key)
    ensures OnlyRecord(registry, WithRuntime(registry, key, Some(runtime)), key, runtime)
  {
    WithRuntimeKeepsDefinitions(registry, key, Some(runtime));
  }

  // ---------- an exit ----------

  /** What the end of a child makes of its record. */
  predicate RecordsExit(before: ProcessRuntime, exit: Exit, at: Time, after: ProcessRuntime) {
    && (after.state == Exited <==> before.state == Running && !exit.failed && exit.code == 0)
    && (after.state == Stopped <==> before.state == Stopping && !exit.failed)
    && (after.state == Failed <==> exit.failed || (before.state == Running && exit.code != 0))
    && (after.terminationReason == "observation-failed" <==> exit.failed)
    && (after.terminationReason == "requested-stop" <==> !exit.failed && before.state == Stopping)
    && (after.terminationReason == "natural-exit" <==> !exit.failed && before.state == Running)
    && after.exitCode == (if exit.code >= 0 then Some(exit.code) else None)
    && after.finishedAt == Some(at)
    && after == before.(state := after.state, terminationReason := after.terminationReason,
                        exitCode := after.exitCode, finishedAt := after.finishedAt)
  }

  /** The exit of an owned child, as the registry shows it. */
  ghost predicate ExitShown(d: Daemon, d': Daemon, child: Incarnation, exit: Exit, at: Time) {
    && RuntimeAt(d.registry, child.key).Some? && RuntimeAt(d'.registry, child.key).Some?
    && var after := RuntimeAt(d'.registry, child.key).value;
    && RecordsExit(RuntimeAt(d.registry, child.key).value, exit, at, after)
    && OnlyRecord(d.registry, d'.registry, child.key, after)
    && d'.active == d.active - {child.key} && d'.outputs == d.outputs
  }

  lemma ExitOutcome(d: Daemon, child: Incarnation, exit: Exit, at: Time, fault: Fault, issued: set<string>)
    requires OwnedBy(d, child) && ActiveInv(d) && GoodRegistry(d.registry, issued)
    ensures var s := ObserveSection(d, child.key, child.instanceID, exit, at, fault);
            && ExitShown(d, s.daemon, child, exit, at)
            && s.daemon.finished ==
               d.finished[child.instanceID := if IsAbs(d.path) && fault.None? then [] else [PersistTerminal]]
  {
    EndOutcome(d, child.key, RuntimeAt(d.registry, child.key).value, exit, at, fault, issued);
  }

  lemma EndOutcome(
      d: Daemon, key: Key, runtime: ProcessRuntime, exit: Exit, at: Time, fault: Fault, issued: set<string>)
    requires RuntimeAt(d.registry, key) == Some(runtime) && (runtime.state.Running? || runtime.state.Stopping?)
    requires GoodRegistry(d.registry, issued)
    ensures var s := EndSection(d, key, runtime, exit, at, fault);
            && ExitShown(d, s.daemon, Incarnation(key, runtime.instanceID), exit, at)
            && s.daemon.finished ==
               d.finished[runtime.instanceID := if IsAbs(d.path) && fault.None? then [] else [PersistTerminal]]
  {
    var ended := EndedRecord(runtime, exit, at);
    OwnRecord(d.registry, key, issued);
    EndedFields(runtime, exit, at);
    EndedConsistent(runtime, exit, at);
    SavableWithRuntime(d.registry, key, ended);
    ReplacedOnly(d.registry, key, ended);
    EndShape(d, key, runtime, exit, at, fault);
  }

  lemma EndedFields(runtime: ProcessRuntime, exit: Exit, at: Time)
    requires runtime.IsConsistent() && (runtime.state.Running? || runtime.state.Stopping?)
    ensures RecordsExit(runtime, exit, at, EndedRecord(runtime, exit, at))
  {
    assert "observation-failed"[0] == 'o' && "requested-stop"[0] == 'r' && "natural-exit"[0] == 'n';
  }

  /** In every history the exit of a child is recorded so. */
  lemma ExitsAreRecorded(ws: seq<World>, events: seq<Event>, i: nat, child: Incarnation, at: Time, fault: Fault)
    requires IsHistory(ws, events) && StartsFresh(ws[0]) && i < |events|
    requires events[i] == Act(Observe(child, at, fault))
    ensures child in ws[i].exits && ExitShown(ws[i].d, ws[i + 1].d, child, ws[i].exits[child], at)
  {
    HistoryKeeps(ws, events, i);
    assert IsStep(ws, events, i);
    ObservedExit(ws[i], child, at, fault, ws[i + 1]);
  }

  lemma ObservedExit(w: World, child: Incarnation, at: Time, fault: Fault, w': World)
    requires DaemonInv(w) && child in w.exits && w' == Apply(w, Observe(child, at, fault))
    ensures ExitShown(w.d, w'.d, child, w.exits[child], at)
  {
    ExitIsOwned(w, child);
    ExitOutcome(w.d, child, w.exits[child], at, fault, w.issued);
    ExitApplied(w, Observe(child, at, fault), w');
  }

  lemma ExitApplied(w: World, a: Action, w': World)
    requires Enabled(w, a) && a.Observe? && w' == Apply(w, a)
    ensures w'.d == SectionOf(w, a).daemon
  {
  }

  // ---------- a start ----------

  /** What a start makes of its key when nothing is active there. */
  datatype StartResult =
    | Unsaved
    | NotSpawned
    | Killed
    | Runs

  predicate IsResult(d: Daemon, answers: StartAnswers, result: StartResult) {
    match result
    case Unsaved => !IsAbs(d.path) || answers.first.Some?
    case NotSpawned => IsAbs(d.path) && answers.first.None? && answers.pid.None?
    case Killed => IsAbs(d.path) && answers.first.None? && answers.pid.Some? && answers.second.Some?
    case Runs => IsAbs(d.path) && answers.first.None? && answers.pid.Some? && answers.second.None?
  }

  /** The record of a new instance, by how its start went. */
  function NewRecord(key: Key, id: string, answers: StartAnswers, result: StartResult): ProcessRuntime {
    match result
    case Runs =>
      ProcessRuntime(key.projectID, key.processID, id, answers.pid, Running, Some(answers.startedAt), None, None, "")
    case Killed =>
      ProcessRuntime(key.projectID, key.processID, id, answers.pid, Failed, Some(answers.startedAt), Some(answers.failedAt),
                     None, "observation-failed")
    case _ =>
      ProcessRuntime(key.projectID, key.processID, id, None, Failed, None, Some(answers.failedAt), None, "start-failed")
  }

  /** The section changes the record of its key to the new one, and owns the instance exactly if it runs. */
  ghost predicate StartsAs(d: Daemon, s: Section, key: Key, id: string, answers: StartAnswers, result: StartResult) {
    var record := NewRecord(key, id, answers, result);
    && s.events == (if result.Runs? then [Spawned(key, id)]
                    else if result.Killed? then [Spawned(key, id), Reaped(key, id)] else [])
    && s.daemon == d.(registry := s.daemon.registry, stored := s.daemon.stored,
                      active := if result.Runs? then d.active[key := id] else d.active,
                      outputs := if result.Runs? then d.outputs[key := id] else d.outputs)
    && (if result.Unsaved? then s.daemon.registry == d.registry
        else OnlyRecord(d.registry, s.daemon.registry, key, record))
    && s.reply.runtime == (if result.Unsaved? then None else Some(record))
    && s.reply.failures ==
       match result
       case Unsaved => [PersistStarting]
       case NotSpawned => if answers.second.None? then [SpawnFailed] else [SpawnFailed, PersistFailed]
       case Killed => [PersistRunning]
       case Runs => []
  }

  /**
   * A start of a defined, inactive process with a fresh ID ends in one of four ways: nothing changed, since the new
   * record could not be saved; the new record has failed, without or with a child that was created and killed again; or
   * it is running and owned, with the child created.
   */
  lemma StartOutcome(d: Daemon, key: Key, id: string, answers: StartAnswers, result: StartResult, issued: set<string>)
    requires CanStart(d, key, id, issued) && answers.newID == Some(id) && IsResult(d, answers, result)
    requires answers.pid.Some? ==> answers.pid.value > 0
    ensures StartsAs(d, StartSection(d, key, answers), key, id, answers, result)
  {
    StartingSaved(d, key, id, answers.first, issued);
    if result.Unsaved? {
      RuntimeRollback(d.registry, key, Some(NewProcessRuntime(key, id)));
    } else {
      SavedOutcome(d, key, id, answers, result, issued);
    }
  }

  lemma SavedOutcome(d: Daemon, key: Key, id: string, answers: StartAnswers, result: StartResult, issued: set<string>)
    requires CanStart(d, key, id, issued) && IsResult(d, answers, result) && !result.Unsaved?
    requires var starting := Put(d, key, Some(NewProcessRuntime(key, id)));
             Saves(starting, answers.first) && IsStarting(d, Persist(starting, answers.first), key, id, issued)
    requires answers.pid.Some? ==> answers.pid.value > 0
    ensures StartsAs(d, FreshStart(d, key, id, answers), key, id, answers, result)
  {
    var saved := Persist(Put(d, key, Some(NewProcessRuntime(key, id))), answers.first);
    var failed, launched := FreshShape(d, key, id, answers, saved);
    if result.NotSpawned? {
      FailOutcome(d, saved, key, id, answers, issued);
    } else {
      LaunchOutcome(d, saved, key, id, answers, result, issued);
    }
  }

  /** What follows once the starting record was saved. */
  lemma FreshShape(d: Daemon, key: Key, id: string, answers: StartAnswers, saved: Daemon)
      returns (failed: Section, launched: Section)
    requires HasProcess(d.registry, key) && d.limits.bytes > 0 && d.limits.events > 0
    requires var starting := Put(d, key, Some(NewProcessRuntime(key, id)));
             Saves(starting, answers.first) && saved == Persist(starting, answers.first)
    ensures failed == FailStart(saved, key, answers.failedAt, answers.second)
    ensures answers.pid.Some? ==> launched == LaunchSection(saved, key, id, answers.pid.value, answers)
    ensures var s := FreshStart(d, key, id, answers);
            if answers.pid.None? then
              && s.daemon == failed.daemon && s.events == []
              && s.reply == Reply(RuntimeAt(failed.daemon.registry, key), [SpawnFailed] + failed.reply.failures)
            else s == launched.(writes := s.writes)
  {
    failed := FailStart(saved, key, answers.failedAt, answers.second);
    launched := if answers.pid.Some? then LaunchSection(saved, key, id, answers.pid.value, answers) else failed;
  }

  lemma FailOutcome(d0: Daemon, d: Daemon, key: Key, id: string, answers: StartAnswers, issued: set<string>)
    requires IsStarting(d0, d, key, id, issued) && IsAbs(d.path)
    ensures var s := FailStart(d, key, answers.failedAt, answers.second);
            var record := NewRecord(key, id, answers, NotSpawned);
            && s.daemon == d0.(registry := s.daemon.registry, stored := s.daemon.stored)
            && OnlyRecord(d0.registry, s.daemon.registry, key, record)
            && s.reply.failures == if answers.second.None? then [] else [PersistFailed]
  {
    var failed := FailedStartRecord(key, id, answers.failedAt);
    RecordsConsistent(key, id, 1, answers.failedAt, 0);
    ReplacedRecord(d0, d, Put(d, key, Some(failed)), key, id, failed, answers.second, issued);
    LastRuntimeWins(d0.registry, key, Some(NewProcessRuntime(key, id)), Some(failed));
    ReplacedOnly(d0.registry, key, failed);
  }

  lemma LaunchOutcome(
      d0: Daemon, d: Daemon, key: Key, id: string, answers: StartAnswers, result: StartResult, issued: set<string>)
    requires IsStarting(d0, d, key, id, issued) && IsAbs(d.path)
    requires answers.pid.Some? && answers.pid.value > 0
    requires result == if answers.second.None? then Runs else Killed
    ensures var s := LaunchSection(d, key, id, answers.pid.value, answers);
            StartsAs(d0, s, key, id, answers, result)
  {
    var running := LaunchedRecord(key, id, answers.pid.value, answers.startedAt);
    var d1 := Put(d, key, Some(running));
    LaunchShape(d, key, id, answers);
    RunningOutcome(d0, d, key, id, running, answers, issued);
    if result.Killed? {
      KilledOutcome(d0, d, Persist(d1, answers.second), key, id, running, answers);
    }
  }

  /** The running record in place of the starting one. */
  lemma RunningOutcome(
      d0: Daemon, d: Daemon, key: Key, id: string, running: ProcessRuntime, answers: StartAnswers, issued: set<string>)
    requires IsStarting(d0, d, key, id, issued) && IsAbs(d.path)
    requires answers.pid.Some? && answers.pid.value > 0
    requires running == LaunchedRecord(key, id, answers.pid.value, answers.startedAt)
    ensures HasProcess(d.registry, key)
    ensures var d1 := Put(d, key, Some(running));
            && (Saves(d1, answers.second) <==> answers.second.None?)
            && OnlyRecord(d0.registry, d1.registry, key, running)
            && d1 == d0.(registry := d1.registry, stored := d.stored)
  {
    RecordsConsistent(key, id, answers.pid.value, answers.startedAt, answers.failedAt);
    ReplacedRecord(d0, d, Put(d, key, Some(running)), key, id, running, answers.second, issued);
    LastRuntimeWins(d0.registry, key, Some(NewProcessRuntime(key, id)), Some(running));
    ReplacedOnly(d0.registry, key, running);
  }

  lemma KilledOutcome(
      d0: Daemon, d: Daemon, saved: Daemon, key: Key, id: string, running: ProcessRuntime, answers: StartAnswers)
    requires HasProcess(d0.registry, key)
    requires d.registry == WithRuntime(d0.registry, key, Some(NewProcessRuntime(key, id)))
    requires saved == d0.(registry := WithRuntime(d.registry, key, Some(running)), stored := saved.stored)
    requires answers.pid.Some? && running == LaunchedRecord(key, id, answers.pid.value, answers.startedAt)
    ensures var s := KilledSection(saved, key, id, running, answers);
            var record := NewRecord(key, id, answers, Killed);
            && s.events == [Spawned(key, id), Reaped(key, id)]
            && s.daemon == d0.(registry := s.daemon.registry, stored := s.daemon.stored)
            && OnlyRecord(d0.registry, s.daemon.registry, key, record)
            && s.reply == Reply(Some(record), [PersistRunning])
  {
    var killed := KilledRecord(running, answers.failedAt);
    LastRuntimeWins(d.registry, key, Some(running), Some(killed));
    LastRuntimeWins(d0.registry, key, Some(NewProcessRuntime(key, id)), Some(killed));
    ReplacedOnly(d0.registry, key, killed);
  }

  /** Every other start changes nothing and creates nothing. */
  lemma StartWithoutEffect(d: Daemon, key: Key, answers: StartAnswers)
    requires HasProcess(d.registry, key) && answers.newID.Some? ==> IsActiveAt(d.registry, key)
    ensures var s := StartSection(d, key, answers);
            && s.daemon == d && s.events == [] && s.writes == []
            && s.reply ==
               if key.projectID !in d.registry.projects then Reply(None, [ProjectNotFound])
               else if key.processID !in d.registry.projects[key.projectID].processes then Reply(None, [ProcessNotFound])
               else if IsActiveAt(d.registry, key) then Reply(RuntimeAt(d.registry, key), [])
               else Reply(None, [NoInstanceID])
  {
  }

  // ---------- a stop ----------

  /** A stop of a running process leaves its record stopping and waits for its instance, unless it cannot be saved. */
  lemma StopOutcome(d: Daemon, key: Key, fault: Fault, issued: set<string>)
    requires ActiveInv(d) && GoodRegistry(d.registry, issued) && GoodImage(d.stored, issued)
    requires key in d.active && RuntimeAt(d.registry, key).value.state.Running?
    ensures var s := StopSection(d, key, fault);
            && s.daemon == d.(registry := s.daemon.registry, stored := s.daemon.stored)
            && if IsAbs(d.path) && fault.None?
               then s.outcome == Waiting(d.active[key], true)
                    && OnlyRecord(d.registry, s.daemon.registry, key, RuntimeAt(d.registry, key).value.(state := Stopping))
               else s.outcome == Answered(Reply(None, [PersistStopping])) && s.daemon.registry == d.registry
  {
    var runtime := RuntimeAt(d.registry, key).value;
    var stopping := runtime.(state := Stopping);
    ReasonsDiffer();
    OwnRecord(d.registry, key, issued);
    SavableWithRuntime(d.registry, key, stopping);
    ReplacedOnly(d.registry, key, stopping);
    StopShape(d, key, runtime, fault);
  }

  /** Every other stop changes nothing: it waits for an instance that is stopping, or answers at once. */
  lemma StopWithoutEffect(d: Daemon, key: Key, fault: Fault)
    requires ActiveInv(d)
    requires !(key in d.active && RuntimeAt(d.registry, key).value.state.Running?)
    ensures var s := StopSection(d, key, fault);
            && s.daemon == d && s.writes == []
            && s.outcome ==
               if key in d.active then Waiting(d.active[key], false)
               else Answered(
                 if key.projectID !in d.registry.projects then Reply(None, [ProjectNotFound])
                 else if key.processID !in d.registry.projects[key.projectID].processes then Reply(None, [ProcessNotFound])
                 else if RuntimeAt(d.registry, key).Some? then Reply(RuntimeAt(d.registry, key), [])
                 else Reply(Some(ProcessRuntime(key.projectID, key.processID, "", None, Stopped, None, None, None, "")), []))
  {
    if key in d.active {
      assert IsActiveAt(d.registry, key);
    }
  }

  // ---------- definitions ----------

  /** A changed definition table is in memory exactly if it was saved; otherwise memory is as it was. */
  ghost predicate ChangesRegistry(d: Daemon, s: Section, projects: map<string, RegisteredProject>, fault: Fault) {
    && s.events == []
    && if IsAbs(d.path) && fault.None?
       then s.reply == Reply(None, []) && s.daemon.registry == Registry(projects)
            && s.daemon == d.(registry := s.daemon.registry, stored := s.daemon.stored, outputs := s.daemon.outputs)
       else s.reply == Reply(None, [PersistDefinition]) && s.daemon == d.(stored := s.daemon.stored)
  }

  predicate Refuses(d: Daemon, s: Section, failure: Failure) {
    s == Section(d, [], [], Reply(None, [failure]))
  }

  /** A project is added with no processes, if it has an ID, an absolute root that is a directory, and is new. */
  lemma AddProjectOutcome(d: Daemon, project: ProjectDefinition, isDirectory: bool, fault: Fault, issued: set<string>)
    requires GoodRegistry(d.registry, issued)
    ensures var s := AddProjectSection(d, project, isDirectory, fault);
            if project.id == "" || !("/" <= project.rootDirectory) || !isDirectory then Refuses(d, s, InvalidDefinition)
            else if project.id in d.registry.projects then Refuses(d, s, AlreadyExists)
            else
              && ChangesRegistry(d, s, d.registry.projects[project.id := RegisteredProject(project, map[])], fault)
              && s.daemon.outputs == d.outputs
  {
    assert "/" <= project.rootDirectory <==> IsAbs(project.rootDirectory);
    if AddsProject(d, project, isDirectory) {
      AddedProject(d.registry, project, issued);
      var changed := d.registry.projects[project.id := RegisteredProject(project, map[])];
      assert changed - {project.id} == d.registry.projects;
    }
  }

  /** A project is removed if it is there and has no processes. */
  lemma RemoveProjectOutcome(d: Daemon, projectID: string, fault: Fault, issued: set<string>)
    requires GoodRegistry(d.registry, issued)
    ensures var s := RemoveProjectSection(d, projectID, fault);
            if projectID !in d.registry.projects then Refuses(d, s, ProjectNotFound)
            else if d.registry.projects[projectID].processes != map[] then Refuses(d, s, NotEmpty)
            else ChangesRegistry(d, s, d.registry.projects - {projectID}, fault) && s.daemon.outputs == d.outputs
  {
    if RemovesProject(d, projectID) {
      RemovedProject(d.registry, projectID, issued);
      assert (d.registry.projects - {projectID})[projectID := d.registry.projects[projectID]] == d.registry.projects;
    }
  }

  /** The registry's projects with one process table replaced. */
  function WithTable(registry: Registry, projectID: string, processes: map<string, RegisteredProcess>): map<string, RegisteredProject>
    requires projectID in registry.projects
  {
    registry.projects[projectID := RegisteredProject(registry.projects[projectID].definition, processes)]
  }

  /** A process is added without a runtime, if its project is there, it has an ID and a command, and is new. */
  lemma AddProcessOutcome(d: Daemon, process: ProcessDefinition, isDirectory: bool, fault: Fault, issued: set<string>)
    requires GoodRegistry(d.registry, issued)
    ensures var s := AddProcessSection(d, process, isDirectory, fault);
            if process.projectID !in d.registry.projects then Refuses(d, s, ProjectNotFound)
            else if process.id == "" || process.command == "" then Refuses(d, s, InvalidDefinition)
            else
              var processes := d.registry.projects[process.projectID].processes;
              if process.id in processes then Refuses(d, s, AlreadyExists)
              else if process.workingDirectory != "" && !isDirectory then Refuses(d, s, InvalidDefinition)
              else
                && s.daemon.outputs == d.outputs
                && ChangesRegistry(
                     d, s, WithTable(d.registry, process.projectID, processes[process.id := RegisteredProcess(process, None)]),
                     fault)
  {
    if AddsProcess(d, process, isDirectory) {
      AddProcessShape(d, process, isDirectory, fault);
      AddedProcess(d, Key(process.projectID, process.id), process, issued);
    }
  }

  /** A process is removed, with its output, if it is there and not active. */
  lemma RemoveProcessOutcome(d: Daemon, key: Key, fault: Fault, issued: set<string>)
    requires GoodRegistry(d.registry, issued)
    ensures var s := RemoveProcessSection(d, key, fault);
            if key.projectID !in d.registry.projects then Refuses(d, s, ProjectNotFound)
            else
              var processes := d.registry.projects[key.projectID].processes;
              if key.processID !in processes then Refuses(d, s, ProcessNotFound)
              else if RuntimeAt(d.registry, key).Some? && RuntimeAt(d.registry, key).value.state in {Starting, Running, Stopping}
              then Refuses(d, s, IsActive)
              else
                && s.daemon.outputs == (if IsAbs(d.path) && fault.None? then d.outputs - {key} else d.outputs)
                && ChangesRegistry(d, s, WithTable(d.registry, key.projectID, processes - {key.processID}), fault)
  {
    if RemovesProcess(d, key) {
      RemovedProcess(d, key, issued);
      AddUndoesRemove(d, key);
    }
  }

  // ---------- in every history ----------

  /** The daemon of any world of any history meets what the outcomes above ask of it. */
  lemma OutcomesApply(ws: seq<World>, events: seq<Event>, i: nat)
    requires IsHistory(ws, events) && StartsFresh(ws[0]) && i < |ws|
    ensures ActiveInv(ws[i].d) && GoodRegistry(ws[i].d.registry, ws[i].issued) && GoodImage(ws[i].d.stored, ws[i].issued)
    ensures forall key, id | HasProcess(ws[i].d.registry, key) && !IsActiveAt(ws[i].d.registry, key)
                             && id != "" && id !in ws[i].issued :: CanStart(ws[i].d, key, id, ws[i].issued)
  {
    HistoryKeeps(ws, events, i);
    forall id: string | id !in ws[i].issued
      ensures forall k | RuntimeAt(ws[i].d.registry, k).Some? :: RuntimeAt(ws[i].d.registry, k).value.instanceID != id
    {
      FreshIsUnique(ws[i], NO_KEY, id);
    }
  }
}
