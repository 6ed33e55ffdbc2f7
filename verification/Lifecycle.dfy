/**
 * The critical sections of the lifecycle manager. Every section is a total function of the daemon's state and of
 * what its surroundings answer, and keeps the defensive branches of the original.
 */
module Lifecycle {
  import opened Wrappers
  import opened ProcessStates
  import opened Registries
  import opened RegistryDocuments
  import opened RegistryStores

  datatype Failure =
    | ProjectNotFound | ProcessNotFound
    | NoInstanceID | PersistStarting | OutputLimits | SpawnFailed | PersistFailed | PersistRunning
    | IllegalTransition(from: ProcessState, to: ProcessState)
    | NotOwned | PersistStopping | SignalFailed | ContextDone
    | OwnershipChanged | PersistTerminal
    | InvalidDefinition | AlreadyExists | NotEmpty | IsActive | PersistDefinition

  /** A runtime, an error, or both; no failures means a nil error. */
  datatype Reply = Reply(runtime: Option<ProcessRuntime>, failures: seq<Failure>)

  datatype Limits = Limits(bytes: int, events: int)

  /**
   * `active` and `outputs` name the managed instance of a key; `finished` holds the closed `done` channels, each with
   * the error its observer left behind.
   */
  datatype Daemon = Daemon(
    registry: Registry,
    path: string,
    stored: Option<RegistryDocument>,
    limits: Limits,
    active: map<Key, string>,
    outputs: map<Key, string>,
    finished: map<string, seq<Failure>>)

  /** What happens to operating-system processes: created, or waited for. */
  datatype ProcessEvent = Spawned(key: Key, instanceID: string) | Reaped(key: Key, instanceID: string)

  /** One critical section: the state after it, what it did on the way, and what it answers. */
  datatype Section = Section(
    daemon: Daemon,
    events: seq<ProcessEvent>,
    writes: seq<RegistryDocument>,
    reply: Reply)

  /** How a child ended: its code, negative when there is none, and whether observing it failed. */
  datatype Exit = Exit(code: int, failed: bool)

  /** The answers a start gets: a fresh ID, a PID, instants, and the fate of its up to three saves. */
  datatype StartAnswers = StartAnswers(
    newID: Option<string>,
    pid: Option<int>,
    startedAt: Time,
    failedAt: Time,
    first: Fault,
    second: Fault,
    third: Fault)

  function LookupFailure(registry: Registry, key: Key): Option<Failure> {
    if key.projectID !in registry.projects then Some(ProjectNotFound)
    else if !HasProcess(registry, key) then Some(ProcessNotFound)
    else None
  }

  function Put(d: Daemon, key: Key, runtime: Option<ProcessRuntime>): Daemon
    requires HasProcess(d.registry, key)
  {
    d.(registry := WithRuntime(d.registry, key, runtime))
  }

  ghost function Writes(d: Daemon, fault: Fault): seq<RegistryDocument> {
    SaveWrites(d.path, d.registry, fault)
  }

  ghost predicate Saves(d: Daemon, fault: Fault) {
    SaveSucceeds(d.path, d.registry, fault)
  }

  /** The daemon after an attempt to save. */
  ghost function Persist(d: Daemon, fault: Fault): Daemon {
    d.(stored := StoredAfter(d.stored, Writes(d, fault)))
  }

  function Illegal(runtime: ProcessRuntime, to: ProcessState): Failure {
    IllegalTransition(runtime.state, to)
  }

  // ---------- Start ----------

  ghost function StartSection(d: Daemon, key: Key, answers: StartAnswers): Section {
    if LookupFailure(d.registry, key).Some? then
      Section(d, [], [], Reply(None, [LookupFailure(d.registry, key).value]))
    else if IsActiveAt(d.registry, key) then
      Section(d, [], [], Reply(RuntimeAt(d.registry, key), []))
    else if answers.newID.None? then
      Section(d, [], [], Reply(None, [NoInstanceID]))
    else
      FreshStart(d, key, answers.newID.value, answers)
  }

  /** A start that creates a new instance. */
  ghost function FreshStart(d: Daemon, key: Key, id: string, answers: StartAnswers): Section
    requires HasProcess(d.registry, key)
  {
    var previous := RuntimeAt(d.registry, key);
    var starting := Put(d, key, Some(NewProcessRuntime(key, id)));
    var saved := Persist(starting, answers.first);
    var writes := Writes(starting, answers.first);
    if !Saves(starting, answers.first) then
      Section(Put(saved, key, previous), [], writes, Reply(None, [PersistStarting]))
    else if d.limits.bytes <= 0 || d.limits.events <= 0 then
      Section(saved, [], writes, Reply(None, [OutputLimits]))
    else if answers.pid.None? then
      var failed := FailStart(saved, key, answers.failedAt, answers.second);
      Section(failed.daemon, [], writes + failed.writes,
              Reply(RuntimeAt(failed.daemon.registry, key), [SpawnFailed] + failed.reply.failures))
    else
      var launched := LaunchSection(saved, key, id, answers.pid.value, answers);
      launched.(writes := writes + launched.writes)
  }

  /** The part of Start after the child exists. */
  ghost function LaunchSection(d: Daemon, key: Key, id: string, pid: int, answers: StartAnswers): Section
    requires HasProcess(d.registry, key) && RuntimeAt(d.registry, key).Some?
  {
    var child := RuntimeAt(d.registry, key).value.(pid := Some(pid), startedAt := Some(answers.startedAt));
    var running := child.Transition(Running);
    if running.Failure? then
      var failed := FailStart(Put(d, key, Some(child)), key, answers.failedAt, answers.second);
      Section(failed.daemon, [Spawned(key, id), Reaped(key, id)], failed.writes,
              Reply(RuntimeAt(failed.daemon.registry, key), [Illegal(child, Running)]))
    else
      var d1 := Put(d, key, Some(running.value));
      var saved := Persist(d1, answers.second);
      if !Saves(d1, answers.second) then
        var failed := FailRunning(saved, key, answers.failedAt, answers.third);
        Section(failed.daemon, [Spawned(key, id), Reaped(key, id)], Writes(d1, answers.second) + failed.writes,
                Reply(RuntimeAt(failed.daemon.registry, key), [PersistRunning]))
      else
        Section(saved.(active := saved.active[key := id], outputs := saved.outputs[key := id]),
                [Spawned(key, id)], Writes(d1, answers.second), Reply(Some(running.value), []))
  }

  /** Marks a runtime whose child never came up; `reply.failures` is the error of doing so. */
  ghost function FailStart(d: Daemon, key: Key, at: Time, fault: Fault): Section
    requires HasProcess(d.registry, key) && RuntimeAt(d.registry, key).Some?
  {
    var marked := RuntimeAt(d.registry, key).value.(finishedAt := Some(at), terminationReason := STARTED_FAILED);
    var failed := marked.Transition(Failed);
    if failed.Failure? then
      Section(Put(d, key, Some(marked)), [], [], Reply(None, [Illegal(marked, Failed)]))
    else
      var d1 := Put(d, key, Some(failed.value));
      Section(Persist(d1, fault), [], Writes(d1, fault), Reply(None, if Saves(d1, fault) then [] else [PersistFailed]))
  }

  /** Marks a runtime whose child was killed because it could not be recorded as running. */
  ghost function FailRunning(d: Daemon, key: Key, at: Time, fault: Fault): Section
    requires HasProcess(d.registry, key) && RuntimeAt(d.registry, key).Some?
  {
    var marked := RuntimeAt(d.registry, key).value.(finishedAt := Some(at), terminationReason := OBSERVATION_FAILED);
    var failed := marked.Transition(Failed);
    var d1 := Put(d, key, Some(if failed.Success? then failed.value else marked));
    Section(Persist(d1, fault), [], Writes(d1, fault), Reply(None, []))
  }

  // ---------- Stop ----------

  /** How the first section of Stop ends: with an answer, or about to signal and wait for an instance. */
  datatype StopOutcome = Answered(reply: Reply) | Waiting(instanceID: string, signal: bool)

  datatype StopStep = StopStep(daemon: Daemon, writes: seq<RegistryDocument>, outcome: StopOutcome)

  ghost function StopSection(d: Daemon, key: Key, fault: Fault): StopStep {
    if LookupFailure(d.registry, key).Some? then
      StopStep(d, [], Answered(Reply(None, [LookupFailure(d.registry, key).value])))
    else if !IsActiveAt(d.registry, key) then
      StopStep(d, [], Answered(Reply(StoppedReply(d.registry, key), [])))
    else
      var runtime := RuntimeAt(d.registry, key).value;
      if key !in d.active || d.active[key] != runtime.instanceID then
        StopStep(d, [], Answered(Reply(None, [NotOwned])))
      else if runtime.state.Stopping? then
        StopStep(d, [], Waiting(d.active[key], false))
      else
        var stopping := runtime.Transition(Stopping);
        if stopping.Failure? then
          StopStep(d, [], Answered(Reply(None, [Illegal(runtime, Stopping)])))
        else
          var d1 := Put(d, key, Some(stopping.value));
          var saved := Persist(d1, fault);
          if !Saves(d1, fault) then
            StopStep(Put(saved, key, Some(runtime)), Writes(d1, fault), Answered(Reply(None, [PersistStopping])))
          else
            StopStep(saved, Writes(d1, fault), Waiting(d.active[key], true))
  }

  /** An inactive key answers with its last runtime, or with a bare stopped one. */
  function StoppedReply(registry: Registry, key: Key): Option<ProcessRuntime> {
    if RuntimeAt(registry, key).Some? then RuntimeAt(registry, key)
    else Some(NewProcessRuntime(key, "").(state := Stopped))
  }

  /** The last section of Stop: the current runtime together with the error of the operation. */
  function StatusReply(d: Daemon, key: Key, failures: seq<Failure>): Reply {
    if LookupFailure(d.registry, key).Some? then Reply(None, failures + [LookupFailure(d.registry, key).value])
    else Reply(RuntimeAt(d.registry, key), failures)
  }

  // ---------- observing an exit ----------

  function ExitState(runtime: ProcessRuntime, exit: Exit): ProcessState {
    if exit.failed then Failed
    else if runtime.state.Stopping? then Stopped
    else if exit.code == 0 then Exited
    else Failed
  }

  function ExitReason(runtime: ProcessRuntime, exit: Exit): string {
    if exit.failed then OBSERVATION_FAILED
    else if runtime.state.Stopping? then REQUESTED_STOP
    else NATURAL_EXIT
  }

  function ExitRecord(runtime: ProcessRuntime, exit: Exit, at: Time): ProcessRuntime {
    runtime.(finishedAt := Some(at),
             exitCode := if exit.code >= 0 then Some(exit.code) else runtime.exitCode,
             terminationReason := ExitReason(runtime, exit))
  }

  ghost function ObserveSection(d: Daemon, key: Key, id: string, exit: Exit, at: Time, fault: Fault): Section {
    if LookupFailure(d.registry, key).Some? then
      Section(d.(finished := d.finished[id := [LookupFailure(d.registry, key).value]]), [], [], Reply(None, []))
    else if RuntimeAt(d.registry, key).None? || RuntimeAt(d.registry, key).value.instanceID != id then
      Section(d.(finished := d.finished[id := [OwnershipChanged]]), [], [], Reply(None, []))
    else
      EndSection(d, key, RuntimeAt(d.registry, key).value, exit, at, fault)
  }

  /** The exit belongs to the key's current runtime. */
  ghost function EndSection(d: Daemon, key: Key, runtime: ProcessRuntime, exit: Exit, at: Time, fault: Fault): Section
    requires HasProcess(d.registry, key)
  {
    var record := ExitRecord(runtime, exit, at);
    var next := ExitState(runtime, exit);
    var ended := record.Transition(next);
    var d1 := Put(d, key, Some(if ended.Success? then ended.value else record));
    var saved := if ended.Success? then Persist(d1, fault) else d1;
    var failures := if ended.Failure? then [Illegal(record, next)]
                    else if Saves(d1, fault) then [] else [PersistTerminal];
    Section(saved.(finished := saved.finished[runtime.instanceID := failures], active := saved.active - {key}),
            [], if ended.Success? then Writes(d1, fault) else [], Reply(None, []))
  }

  // ---------- definitions ----------

  function WithProjects(d: Daemon, projects: map<string, RegisteredProject>): Daemon {
    d.(registry := Registry(projects))
  }

  ghost function AddProjectSection(d: Daemon, definition: ProjectDefinition, isDirectory: bool, fault: Fault): Section {
    if definition.id == "" || !IsAbs(definition.rootDirectory) || !isDirectory then
      Section(d, [], [], Reply(None, [InvalidDefinition]))
    else if definition.id in d.registry.projects then
      Section(d, [], [], Reply(None, [AlreadyExists]))
    else
      var d1 := WithProjects(d, d.registry.projects[definition.id := RegisteredProject(definition, map[])]);
      DefinitionSaved(d1, WithProjects(Persist(d1, fault), d1.registry.projects - {definition.id}), fault)
  }

  /** Saves a changed definition table, or answers with the rolled-back one. */
  ghost function DefinitionSaved(changed: Daemon, rolledBack: Daemon, fault: Fault): Section {
    if Saves(changed, fault) then Section(Persist(changed, fault), [], Writes(changed, fault), Reply(None, []))
    else Section(rolledBack, [], Writes(changed, fault), Reply(None, [PersistDefinition]))
  }

  ghost function RemoveProjectSection(d: Daemon, projectID: string, fault: Fault): Section {
    if projectID !in d.registry.projects then
      Section(d, [], [], Reply(None, [ProjectNotFound]))
    else if d.registry.projects[projectID].processes != map[] then
      Section(d, [], [], Reply(None, [NotEmpty]))
    else
      var project := d.registry.projects[projectID];
      var d1 := WithProjects(d, d.registry.projects - {projectID});
      DefinitionSaved(d1, WithProjects(Persist(d1, fault), d1.registry.projects[projectID := project]), fault)
  }

  /** Sets or clears one entry of a project's process table. */
  function WithProcesses(d: Daemon, projectID: string, processes: map<string, RegisteredProcess>): Daemon
    requires projectID in d.registry.projects
  {
    WithProjects(d, d.registry.projects[projectID := d.registry.projects[projectID].(processes := processes)])
  }

  ghost function AddProcessSection(d: Daemon, definition: ProcessDefinition, isDirectory: bool, fault: Fault): Section {
    if definition.projectID !in d.registry.projects then
      Section(d, [], [], Reply(None, [ProjectNotFound]))
    else if definition.id == "" || definition.command == "" then
      Section(d, [], [], Reply(None, [InvalidDefinition]))
    else if definition.id in d.registry.projects[definition.projectID].processes then
      Section(d, [], [], Reply(None, [AlreadyExists]))
    else if definition.workingDirectory != "" && !isDirectory then
      Section(d, [], [], Reply(None, [InvalidDefinition]))
    else
      var processes := d.registry.projects[definition.projectID].processes;
      var d1 := WithProcesses(d, definition.projectID, processes[definition.id := RegisteredProcess(definition, None)]);
      var without := d1.registry.projects[definition.projectID].processes - {definition.id};
      DefinitionSaved(d1, WithProcesses(Persist(d1, fault), definition.projectID, without), fault)
  }

  ghost function RemoveProcessSection(d: Daemon, key: Key, fault: Fault): Section {
    if LookupFailure(d.registry, key).Some? then
      Section(d, [], [], Reply(None, [LookupFailure(d.registry, key).value]))
    else if IsActiveAt(d.registry, key) then
      Section(d, [], [], Reply(None, [IsActive]))
    else
      var process := ProcessAt(d.registry, key);
      var d1 := WithProcesses(d, key.projectID, d.registry.projects[key.projectID].processes - {key.processID});
      var restored := d1.registry.projects[key.projectID].processes[key.processID := process];
      var section := DefinitionSaved(d1, WithProcesses(Persist(d1, fault), key.projectID, restored), fault);
      if section.reply.failures == []
      then section.(daemon := section.daemon.(outputs := section.daemon.outputs - {key}))
      else section
  }
}
