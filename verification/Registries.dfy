/** The daemon-owned registry: project and process definitions with their latest runtimes. */
module Registries {
  import opened Wrappers
  import opened ProcessStates

  const STARTED_FAILED := "start-failed"
  const NATURAL_EXIT := "natural-exit"
  const REQUESTED_STOP := "requested-stop"
  const OBSERVATION_FAILED := "observation-failed"
  const DAEMON_RESTART := "daemon-restart"

  /** Times are abstract instants. */
  type Time = int

  datatype Key = Key(projectID: string, processID: string)

  datatype ProjectDefinition = ProjectDefinition(id: string, rootDirectory: string)

  datatype ProcessDefinition = ProcessDefinition(
    projectID: string,
    id: string,
    command: string,
    arguments: seq<string>,
    workingDirectory: string,
    environmentOverrides: map<string, string>)

  datatype ProcessRuntime = ProcessRuntime(
    projectID: string,
    processID: string,
    instanceID: string,
    pid: Option<int>,
    state: ProcessState,
    startedAt: Option<Time>,
    finishedAt: Option<Time>,
    exitCode: Option<int>,
    terminationReason: string)
  {
    /** Moves to an allowed state and leaves every other field alone. */
    function Transition(next: ProcessState): (r: Result<ProcessRuntime, TransitionError>)
      ensures r.Success? <==> state.IsValid() && next.IsValid() && CanTransition(state, next)
      ensures r.Success? ==> r.value == this.(state := next)
    {
      if !state.IsValid() then Failure(InvalidState(state))
      else if !next.IsValid() then Failure(InvalidState(next))
      else if !CanTransition(state, next) then Failure(InvalidTransition(state, next))
      else Success(this.(state := next))
    }

    /** Every rule that ties a record's metadata to its state. */
    predicate IsConsistent() {
      && state.IsValid()
      && instanceID != ""
      && (pid.Some? ==> pid.value > 0)
      && (state.IsTerminal() <==> finishedAt.Some?)
      && (state.IsTerminal() <==> terminationReason != "")
      && (state.Stopped? <==> terminationReason == REQUESTED_STOP)
      && (state.Exited? ==> exitCode == Some(0) && terminationReason == NATURAL_EXIT)
      && (terminationReason == STARTED_FAILED ==> pid.None? && startedAt.None? && exitCode.None?)
      && (state.IsActive() ==> exitCode.None?)
      && (state.Running? || state.Stopping? ==> pid.Some? && startedAt.Some?)
    }
  }

  datatype TransitionError = InvalidState(state: ProcessState) | InvalidTransition(from: ProcessState, to: ProcessState)

  function NewProcessRuntime(key: Key, instanceID: string): ProcessRuntime {
    ProcessRuntime(key.projectID, key.processID, instanceID, None, Starting, None, None, None, "")
  }

  datatype RegisteredProcess = RegisteredProcess(definition: ProcessDefinition, runtime: Option<ProcessRuntime>)

  datatype RegisteredProject = RegisteredProject(
    definition: ProjectDefinition,
    processes: map<string, RegisteredProcess>)

  datatype Registry = Registry(projects: map<string, RegisteredProject>)

  // ---------- looking into a registry ----------

  predicate HasProcess(registry: Registry, key: Key) {
    key.projectID in registry.projects && key.processID in registry.projects[key.projectID].processes
  }

  function ProcessAt(registry: Registry, key: Key): RegisteredProcess
    requires HasProcess(registry, key)
  {
    registry.projects[key.projectID].processes[key.processID]
  }

  function RuntimeAt(registry: Registry, key: Key): Option<ProcessRuntime> {
    if HasProcess(registry, key) then ProcessAt(registry, key).runtime else None
  }

  predicate IsActiveAt(registry: Registry, key: Key) {
    RuntimeAt(registry, key).Some? && RuntimeAt(registry, key).value.state.IsActive()
  }

  /** A project definition with its process definitions. */
  datatype ProjectOutline = ProjectOutline(definition: ProjectDefinition, processes: map<string, ProcessDefinition>)

  function Outline(project: RegisteredProject): ProjectOutline {
    ProjectOutline(project.definition, map q | q in project.processes :: project.processes[q].definition)
  }

  /** Everything in a registry but its runtimes. */
  function Definitions(registry: Registry): map<string, ProjectOutline> {
    map p | p in registry.projects :: Outline(registry.projects[p])
  }

  predicate SameDefinitions(a: Registry, b: Registry) {
    Definitions(a) == Definitions(b)
  }

  /** Replaces the runtime of one process. */
  function WithRuntime(registry: Registry, key: Key, runtime: Option<ProcessRuntime>): (r: Registry)
    requires HasProcess(registry, key)
    ensures forall k :: HasProcess(r, k) <==> HasProcess(registry, k)
    ensures forall k :: RuntimeAt(r, k) == if k == key then runtime else RuntimeAt(registry, k)
  {
    var project := registry.projects[key.projectID];
    var process := project.processes[key.processID].(runtime := runtime);
    Registry(registry.projects[key.projectID := project.(processes := project.processes[key.processID := process])])
  }

  lemma WithRuntimeKeepsDefinitions(registry: Registry, key: Key, runtime: Option<ProcessRuntime>)
    requires HasProcess(registry, key)
    ensures SameDefinitions(registry, WithRuntime(registry, key, runtime))
  {
    var after := WithRuntime(registry, key, runtime);
    assert Outline(after.projects[key.projectID]).processes == Outline(registry.projects[key.projectID]).processes;
    assert Definitions(after) == Definitions(registry);
  }

  /** Rolling a runtime back restores the whole registry. */
  lemma RuntimeRollback(registry: Registry, key: Key, runtime: Option<ProcessRuntime>)
    requires HasProcess(registry, key)
    ensures WithRuntime(WithRuntime(registry, key, runtime), key, RuntimeAt(registry, key)) == registry
  {
    var project := registry.projects[key.projectID];
    var process := project.processes[key.processID];
    var changed := project.processes[key.processID := process.(runtime := runtime)];
    assert changed[key.processID := process] == project.processes;
    var projects := registry.projects[key.projectID := project.(processes := changed)];
    assert projects[key.projectID := project] == registry.projects;
  }

  lemma LastRuntimeWins(registry: Registry, key: Key, first: Option<ProcessRuntime>, second: Option<ProcessRuntime>)
    requires HasProcess(registry, key)
    ensures WithRuntime(WithRuntime(registry, key, first), key, second) == WithRuntime(registry, key, second)
  {
    var project := registry.projects[key.projectID];
    var process := project.processes[key.processID];
    var once := project.processes[key.processID := process.(runtime := first)];
    assert once[key.processID := process.(runtime := second)]
        == project.processes[key.processID := process.(runtime := second)];
    var projects := registry.projects[key.projectID := project.(processes := once)];
    var target := project.(processes := project.processes[key.processID := process.(runtime := second)]);
    assert projects[key.projectID := target] == registry.projects[key.projectID := target];
  }

  // ---------- what Save accepts ----------

  /** The Unix rule for an absolute path. */
  predicate IsAbs(path: string) {
    path != "" && path[0] == '/'
  }

  predicate ValidProjectRecord(id: string, project: RegisteredProject) {
    id != "" && project.definition.id == id && IsAbs(project.definition.rootDirectory)
  }

  predicate ValidProcessRecord(projectID: string, id: string, process: RegisteredProcess) {
    && id != ""
    && process.definition.id == id
    && process.definition.projectID == projectID
    && process.definition.command != ""
    && (process.runtime.Some? ==>
          && process.runtime.value.projectID == projectID
          && process.runtime.value.processID == id
          && process.runtime.value.instanceID != ""
          && process.runtime.value.state.IsValid()
          && (process.runtime.value.pid.Some? ==> process.runtime.value.pid.value > 0))
  }

  predicate IsSavableProject(id: string, project: RegisteredProject) {
    && ValidProjectRecord(id, project)
    && forall q | q in project.processes :: ValidProcessRecord(id, q, project.processes[q])
  }

  predicate IsSavable(registry: Registry) {
    forall p | p in registry.projects :: IsSavableProject(p, registry.projects[p])
  }

  // ---------- reconciliation after a daemon restart ----------

  function Interrupted(runtime: ProcessRuntime, at: Time): ProcessRuntime {
    runtime.(state := Failed, finishedAt := Some(at), terminationReason := DAEMON_RESTART)
  }

  function ReconciledProcess(process: RegisteredProcess, at: Time): RegisteredProcess {
    if process.runtime.Some? && process.runtime.value.state.IsActive()
    then process.(runtime := Some(Interrupted(process.runtime.value, at)))
    else process
  }

  function ReconciledProject(project: RegisteredProject, at: Time): RegisteredProject {
    project.(processes := map q | q in project.processes :: ReconciledProcess(project.processes[q], at))
  }

  function Reconciled(registry: Registry, at: Time): Registry {
    Registry(map p | p in registry.projects :: ReconciledProject(registry.projects[p], at))
  }

  ghost predicate HasActiveRuntime(registry: Registry) {
    exists key :: IsActiveAt(registry, key)
  }

  predicate HasValidState(process: RegisteredProcess) {
    process.runtime.Some? ==> process.runtime.value.state.IsValid()
  }

  predicate HasValidStates(project: RegisteredProject) {
    forall q | q in project.processes :: HasValidState(project.processes[q])
  }

  ghost predicate HasActiveIn(project: RegisteredProject) {
    exists q :: q in project.processes && HasActive(project.processes[q])
  }

  predicate HasActive(process: RegisteredProcess) {
    process.runtime.Some? && process.runtime.value.state.IsActive()
  }

  /** Visits every runtime in an arbitrary order and fails the active ones in place. */
  method ReconcileAfterDaemonRestart(registry: Registry, at: Time)
    returns (changed: bool, error: Option<TransitionError>, result: Registry)
    ensures error.None? <==> forall p | p in registry.projects :: HasValidStates(registry.projects[p])
    ensures error.None? ==> result == Reconciled(registry, at)
    ensures error.None? ==> (changed <==> HasActiveRuntime(registry))
  {
    changed, error, result := false, None, registry;
    var projectIDs := registry.projects.Keys;
    while projectIDs != {}
      invariant error.None? && projectIDs <= registry.projects.Keys == result.projects.Keys
      invariant forall p | p in projectIDs :: result.projects[p] == registry.projects[p]
      invariant forall p | p in registry.projects && p !in projectIDs ::
                  && HasValidStates(registry.projects[p])
                  && result.projects[p] == ReconciledProject(registry.projects[p], at)
      invariant changed <==> exists p :: p in registry.projects && p !in projectIDs && HasActiveIn(registry.projects[p])
    {
      var projectID :| projectID in projectIDs;
      var projectChanged, project;
      projectChanged, error, project := ReconcileProject(result.projects[projectID], at);
      if error.Some? {
        assert !HasValidStates(registry.projects[projectID]);
        return;
      }
      result := Registry(result.projects[projectID := project]);
      changed := changed || projectChanged;
      projectIDs := projectIDs - {projectID};
    }
    assert result.projects == Reconciled(registry, at).projects;
    ActiveSomewhere(registry);
  }

  lemma ActiveSomewhere(registry: Registry)
    ensures HasActiveRuntime(registry) <==> exists p :: p in registry.projects && HasActiveIn(registry.projects[p])
  {
    if key :| IsActiveAt(registry, key) {
      var project := registry.projects[key.projectID];
      assert key.processID in project.processes && HasActive(project.processes[key.processID]);
      assert HasActiveIn(project);
    }
    if p :| p in registry.projects && HasActiveIn(registry.projects[p]) {
      var q :| q in registry.projects[p].processes && HasActive(registry.projects[p].processes[q]);
      assert IsActiveAt(registry, Key(p, q));
    }
  }

  /** The inner loop: the processes of one project. */
  method ReconcileProject(before: RegisteredProject, at: Time)
    returns (changed: bool, error: Option<TransitionError>, project: RegisteredProject)
    ensures error.None? <==> HasValidStates(before)
    ensures error.None? ==> project == ReconciledProject(before, at)
    ensures error.None? ==> (changed <==> HasActiveIn(before))
  {
    changed, error, project := false, None, before;
    var processIDs := before.processes.Keys;
    while processIDs != {}
      invariant processIDs <= before.processes.Keys == project.processes.Keys
      invariant project.definition == before.definition
      invariant forall q | q in processIDs :: project.processes[q] == before.processes[q]
      invariant forall q | q in before.processes && q !in processIDs ::
                  && HasValidState(before.processes[q])
                  && project.processes[q] == ReconciledProcess(before.processes[q], at)
      invariant changed <==> exists q :: q in before.processes && q !in processIDs && HasActive(before.processes[q])
    {
      var processID :| processID in processIDs;
      var process := project.processes[processID];
      if process.runtime.Some? {
        if !process.runtime.value.state.IsValid() {
          error := Some(InvalidState(process.runtime.value.state));
          return;
        }
        if process.runtime.value.state.IsActive() {
          var moved := process.runtime.value.Transition(Failed);
          var failed := moved.value.(finishedAt := Some(at), terminationReason := DAEMON_RESTART);
          project := project.(processes := project.processes[processID := process.(runtime := Some(failed))]);
          changed := true;
        }
      }
      processIDs := processIDs - {processID};
    }
    assert project.processes == ReconciledProject(before, at).processes;
  }

  /**
   * After reconciliation nothing is active, every definition and every finished record is as it was, and exactly
   * the interrupted runtimes have failed because the daemon restarted.
   */
  lemma ReconcileMeaning(registry: Registry, at: Time)
    ensures SameDefinitions(registry, Reconciled(registry, at))
    ensures !HasActiveRuntime(Reconciled(registry, at))
    ensures forall key ::
              RuntimeAt(Reconciled(registry, at), key) ==
              if IsActiveAt(registry, key)
              then Some(RuntimeAt(registry, key).value.(state := Failed, finishedAt := Some(at), terminationReason := "daemon-restart"))
              else RuntimeAt(registry, key)
    ensures IsSavable(registry) ==> IsSavable(Reconciled(registry, at))
    ensures !HasActiveRuntime(registry) ==> Reconciled(registry, at) == registry
  {
    forall key
      ensures RuntimeAt(Reconciled(registry, at), key) ==
              if IsActiveAt(registry, key) then Some(Interrupted(RuntimeAt(registry, key).value, at))
              else RuntimeAt(registry, key)
    {
      ReconciledAt(registry, at, key);
    }
    if !HasActiveRuntime(registry) {
      NothingToReconcile(registry, at);
    }
    NothingActiveAfter(registry, at);
    ReconcileKeepsDefinitions(registry, at);
    ReconcileKeepsSavable(registry, at);
  }

  lemma NothingActiveAfter(registry: Registry, at: Time)
    ensures !HasActiveRuntime(Reconciled(registry, at))
  {
    forall key
      ensures !IsActiveAt(Reconciled(registry, at), key)
    {
      ReconciledAt(registry, at, key);
    }
  }

  lemma ReconcileKeepsDefinitions(registry: Registry, at: Time)
    ensures SameDefinitions(registry, Reconciled(registry, at))
  {
    forall p | p in registry.projects
      ensures Outline(registry.projects[p]) == Outline(Reconciled(registry, at).projects[p])
    {
      assert Outline(registry.projects[p]).processes == Outline(Reconciled(registry, at).projects[p]).processes;
    }
    assert Definitions(registry) == Definitions(Reconciled(registry, at));
  }

  lemma ReconcileKeepsSavable(registry: Registry, at: Time)
    ensures IsSavable(registry) ==> IsSavable(Reconciled(registry, at))
  {
    if IsSavable(registry) {
      forall p | p in registry.projects
        ensures IsSavableProject(p, Reconciled(registry, at).projects[p])
      {
        assert IsSavableProject(p, registry.projects[p]);
      }
    }
  }

  lemma ReconciledAt(registry: Registry, at: Time, key: Key)
    ensures HasProcess(Reconciled(registry, at), key) <==> HasProcess(registry, key)
    ensures RuntimeAt(Reconciled(registry, at), key) ==
            if IsActiveAt(registry, key) then Some(Interrupted(RuntimeAt(registry, key).value, at))
            else RuntimeAt(registry, key)
  {
  }

  lemma NothingToReconcile(registry: Registry, at: Time)
    requires !HasActiveRuntime(registry)
    ensures Reconciled(registry, at) == registry
  {
    var after := Reconciled(registry, at);
    forall p | p in registry.projects
      ensures after.projects[p] == registry.projects[p]
    {
      forall q | q in registry.projects[p].processes
        ensures after.projects[p].processes[q] == registry.projects[p].processes[q]
      {
        assert !IsActiveAt(registry, Key(p, q));
      }
      assert after.projects[p].processes == registry.projects[p].processes;
    }
    assert after.projects == registry.projects;
  }
}
