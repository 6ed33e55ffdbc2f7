/** Adding and removing definitions, and the agreement between memory and file. */
module LifecycleDefinitions {
  import opened Wrappers
  import opened ProcessStates
  import opened Registries
  import opened RegistryDocuments
  import opened RegistryStores
  import opened Lifecycle
  import opened LifecycleWorld
  import opened LifecycleInvariant
  import opened LifecycleSections

  // ---------- definition sections keep the invariant ----------

  /** Dropping inactive runtimes, or none, keeps a savable registry good. */
  lemma GoodSubset(registry: Registry, after: Registry, issued: set<string>)
    requires GoodRegistry(registry, issued) && IsSavable(after)
    requires forall k | RuntimeAt(after, k).Some? :: RuntimeAt(after, k) == RuntimeAt(registry, k)
    ensures GoodRegistry(after, issued)
  {
    forall k | RuntimeAt(after, k).Some?
      ensures GoodRuntime(RuntimeAt(after, k).value, issued)
    {
      assert GoodRuntime(RuntimeAt(registry, k).value, issued);
    }
  }

  /** A changed definition table is saved, or rolled back to what it was. */
  lemma DefinitionKeeps(w: World, changed: Daemon, rolledBack: Daemon, fault: Fault)
    requires DaemonInv(w) && Quiet(w.d, changed) && changed == w.d.(registry := changed.registry)
    requires GoodRegistry(changed.registry, w.issued)
    requires rolledBack == Persist(changed, fault).(registry := w.d.registry)
    ensures SectionKeeps(w, DefinitionSaved(changed, rolledBack, fault), {})
  {
    PersistKeeps(changed, fault, w.issued, w.issued);
    assert w.issued + {} == w.issued;
    var s := DefinitionSaved(changed, rolledBack, fault);
    assert s.events == [] && GoodData(s.daemon, w.issued) && GoodWrites(s.writes, w.issued);
    assert Quiet(w.d, s.daemon);
    QuietSection(w, s, {});
  }

  lemma AddProjectKeeps(w: World, definition: ProjectDefinition, isDirectory: bool, fault: Fault)
    requires DaemonInv(w)
    ensures SectionKeeps(w, AddProjectSection(w.d, definition, isDirectory, fault), {})
  {
    if AddsProject(w.d, definition, isDirectory) {
      var changed := WithProject(w.d, definition);
      AddedProject(w.d.registry, definition, w.issued);
      assert changed.registry.projects - {definition.id} == w.d.registry.projects;
      DefinitionKeeps(w, changed, WithProjects(Persist(changed, fault), changed.registry.projects - {definition.id}), fault);
    } else {
      UnchangedSection(w, AddProjectSection(w.d, definition, isDirectory, fault), {});
    }
  }

  predicate AddsProject(d: Daemon, definition: ProjectDefinition, isDirectory: bool) {
    definition.id != "" && IsAbs(definition.rootDirectory) && isDirectory && definition.id !in d.registry.projects
  }

  function WithProject(d: Daemon, definition: ProjectDefinition): Daemon {
    WithProjects(d, d.registry.projects[definition.id := RegisteredProject(definition, map[])])
  }

  lemma AddedProject(registry: Registry, definition: ProjectDefinition, issued: set<string>)
    requires GoodRegistry(registry, issued)
    requires definition.id != "" && IsAbs(definition.rootDirectory) && definition.id !in registry.projects
    ensures var after := Registry(registry.projects[definition.id := RegisteredProject(definition, map[])]);
            GoodRegistry(after, issued) && forall k :: RuntimeAt(after, k) == RuntimeAt(registry, k)
  {
    var after := Registry(registry.projects[definition.id := RegisteredProject(definition, map[])]);
    forall p | p in after.projects
      ensures IsSavableProject(p, after.projects[p])
    {
      assert p != definition.id ==> IsSavableProject(p, registry.projects[p]);
    }
    GoodSubset(registry, after, issued);
  }

  predicate RemovesProject(d: Daemon, projectID: string) {
    projectID in d.registry.projects && d.registry.projects[projectID].processes == map[]
  }

  lemma RemoveProjectKeeps(w: World, projectID: string, fault: Fault)
    requires DaemonInv(w)
    ensures SectionKeeps(w, RemoveProjectSection(w.d, projectID, fault), {})
  {
    if RemovesProject(w.d, projectID) {
      var changed := WithProjects(w.d, w.d.registry.projects - {projectID});
      var project := w.d.registry.projects[projectID];
      RemovedProject(w.d.registry, projectID, w.issued);
      assert changed.registry.projects[projectID := project] == w.d.registry.projects;
      DefinitionKeeps(w, changed, WithProjects(Persist(changed, fault), changed.registry.projects[projectID := project]), fault);
    } else {
      UnchangedSection(w, RemoveProjectSection(w.d, projectID, fault), {});
    }
  }

  lemma RemovedProject(registry: Registry, projectID: string, issued: set<string>)
    requires GoodRegistry(registry, issued)
    requires projectID in registry.projects && registry.projects[projectID].processes == map[]
    ensures var after := Registry(registry.projects - {projectID});
            GoodRegistry(after, issued) && forall k :: RuntimeAt(after, k) == RuntimeAt(registry, k)
  {
    var after := Registry(registry.projects - {projectID});
    forall p | p in after.projects
      ensures IsSavableProject(p, after.projects[p])
    {
      assert IsSavableProject(p, registry.projects[p]);
    }
    GoodSubset(registry, after, issued);
  }

  predicate AddsProcess(d: Daemon, definition: ProcessDefinition, isDirectory: bool) {
    && definition.projectID in d.registry.projects
    && definition.id != "" && definition.command != ""
    && definition.id !in d.registry.projects[definition.projectID].processes
    && (definition.workingDirectory != "" ==> isDirectory)
  }

  /** One entry of one process table set. */
  function WithEntry(d: Daemon, key: Key, process: RegisteredProcess): Daemon
    requires key.projectID in d.registry.projects
  {
    WithProcesses(d, key.projectID, d.registry.projects[key.projectID].processes[key.processID := process])
  }

  function WithoutEntry(d: Daemon, key: Key): Daemon
    requires key.projectID in d.registry.projects
  {
    WithProcesses(d, key.projectID, d.registry.projects[key.projectID].processes - {key.processID})
  }

  lemma AddProcessKeeps(w: World, definition: ProcessDefinition, isDirectory: bool, fault: Fault)
    requires DaemonInv(w)
    ensures SectionKeeps(w, AddProcessSection(w.d, definition, isDirectory, fault), {})
  {
    if AddsProcess(w.d, definition, isDirectory) {
      var key := Key(definition.projectID, definition.id);
      var changed := WithEntry(w.d, key, RegisteredProcess(definition, None));
      AddedProcess(w.d, key, definition, w.issued);
      AddProcessShape(w.d, definition, isDirectory, fault);
      DefinitionKeeps(w, changed, Persist(changed, fault).(registry := w.d.registry), fault);
    } else {
      UnchangedSection(w, AddProcessSection(w.d, definition, isDirectory, fault), {});
    }
  }

  /** A process definition that could not be saved leaves the daemon's registry as it was. */
  lemma AddProcessShape(d: Daemon, definition: ProcessDefinition, isDirectory: bool, fault: Fault)
    requires AddsProcess(d, definition, isDirectory)
    ensures var changed := WithEntry(d, Key(definition.projectID, definition.id), RegisteredProcess(definition, None));
            AddProcessSection(d, definition, isDirectory, fault) ==
            DefinitionSaved(changed, Persist(changed, fault).(registry := d.registry), fault)
  {
    RemoveUndoesAdd(d, Key(definition.projectID, definition.id), RegisteredProcess(definition, None));
  }

  lemma RemoveUndoesAdd(d: Daemon, key: Key, process: RegisteredProcess)
    requires key.projectID in d.registry.projects && !HasProcess(d.registry, key)
    ensures WithoutEntry(WithEntry(d, key, process), key) == d
  {
    var project := d.registry.projects[key.projectID];
    assert project.processes[key.processID := process] - {key.processID} == project.processes;
    var projects := WithEntry(d, key, process).registry.projects;
    assert projects[key.projectID := project] == d.registry.projects;
  }

  lemma AddUndoesRemove(d: Daemon, key: Key)
    requires HasProcess(d.registry, key)
    ensures WithEntry(WithoutEntry(d, key), key, ProcessAt(d.registry, key)) == d
  {
    var project := d.registry.projects[key.projectID];
    assert (project.processes - {key.processID})[key.processID := ProcessAt(d.registry, key)] == project.processes;
    var projects := WithoutEntry(d, key).registry.projects;
    assert projects[key.projectID := project] == d.registry.projects;
  }

  lemma AddedProcess(d: Daemon, key: Key, definition: ProcessDefinition, issued: set<string>)
    requires GoodRegistry(d.registry, issued)
    requires key.projectID in d.registry.projects && !HasProcess(d.registry, key)
    requires definition.projectID == key.projectID && definition.id == key.processID
    requires definition.id != "" && definition.command != ""
    ensures var after := WithEntry(d, key, RegisteredProcess(definition, None)).registry;
            GoodRegistry(after, issued) && forall k :: RuntimeAt(after, k) == RuntimeAt(d.registry, k)
  {
    var after := WithEntry(d, key, RegisteredProcess(definition, None)).registry;
    forall p | p in after.projects
      ensures IsSavableProject(p, after.projects[p])
    {
      assert IsSavableProject(p, d.registry.projects[p]);
    }
    GoodSubset(d.registry, after, issued);
  }

  predicate RemovesProcess(d: Daemon, key: Key) {
    HasProcess(d.registry, key) && !IsActiveAt(d.registry, key)
  }

  lemma RemoveProcessKeeps(w: World, key: Key, fault: Fault)
    requires DaemonInv(w)
    ensures SectionKeeps(w, RemoveProcessSection(w.d, key, fault), {})
  {
    if RemovesProcess(w.d, key) {
      var changed := WithoutEntry(w.d, key);
      RemovedProcess(w.d, key, w.issued);
      AddUndoesRemove(w.d, key);
      var rolledBack := WithEntry(Persist(changed, fault).(registry := changed.registry), key, ProcessAt(w.d.registry, key));
      if Saves(changed, fault) {
        PersistKeeps(changed, fault, w.issued, w.issued);
        assert w.issued + {} == w.issued;
        OutputsDropped(w.d, Persist(changed, fault), key);
        QuietSection(w, RemoveProcessSection(w.d, key, fault), {});
      } else {
        DefinitionKeeps(w, changed, rolledBack, fault);
      }
    } else {
      UnchangedSection(w, RemoveProcessSection(w.d, key, fault), {});
    }
  }

  /** Dropping the output buffer of a key that owns nothing changes nothing else. */
  lemma OutputsDropped(d: Daemon, d1: Daemon, key: Key)
    requires Quiet(d, d1) && key !in d.active
    ensures Quiet(d, d1.(outputs := d1.outputs - {key}))
  {
  }

  lemma RemovedProcess(d: Daemon, key: Key, issued: set<string>)
    requires GoodRegistry(d.registry, issued) && HasProcess(d.registry, key)
    ensures var after := WithoutEntry(d, key).registry;
            GoodRegistry(after, issued)
            && forall k :: RuntimeAt(after, k) == if k == key then None else RuntimeAt(d.registry, k)
  {
    var after := WithoutEntry(d, key).registry;
    forall p | p in after.projects
      ensures IsSavableProject(p, after.projects[p])
    {
      assert IsSavableProject(p, d.registry.projects[p]);
    }
    GoodSubset(d.registry, after, issued);
  }

  // ---------- memory and file agree ----------

  /** Both the registry in memory and the one in the file have the definitions of `base`. */
  ghost predicate Follows(base: Registry, registry: Registry, stored: Option<RegistryDocument>) {
    && SameDefinitions(base, registry)
    && ImageLoads(stored)
    && SameDefinitions(base, ImageRegistry(stored))
  }

  ghost predicate Agrees(d: Daemon) {
    Follows(d.registry, d.registry, d.stored)
  }

  lemma FollowersAgree(base: Registry, d: Daemon)
    requires Follows(base, d.registry, d.stored)
    ensures Agrees(d)
  {
  }

  lemma PersistFollows(base: Registry, d: Daemon, fault: Fault)
    requires Follows(base, d.registry, d.stored)
    ensures Follows(base, d.registry, Persist(d, fault).stored)
  {
    if IsSavable(d.registry) {
      SavedImage(d.registry);
    }
  }

  lemma RecordFollows(base: Registry, registry: Registry, stored: Option<RegistryDocument>, key: Key, runtime: Option<ProcessRuntime>)
    requires Follows(base, registry, stored) && HasProcess(registry, key)
    ensures Follows(base, WithRuntime(registry, key, runtime), stored)
  {
    WithRuntimeKeepsDefinitions(registry, key, runtime);
  }

  lemma SaveRecordFollows(base: Registry, d: Daemon, key: Key, runtime: Option<ProcessRuntime>, fault: Fault)
    requires Follows(base, d.registry, d.stored) && HasProcess(d.registry, key)
    ensures var d1 := Put(d, key, runtime);
            Follows(base, d1.registry, d1.stored) && Follows(base, d1.registry, Persist(d1, fault).stored)
  {
    RecordFollows(base, d.registry, d.stored, key, runtime);
    PersistFollows(base, Put(d, key, runtime), fault);
  }

  /** Saving one record and then putting another in its place. */
  lemma SaveAndReplaceFollows(
      base: Registry, d: Daemon, key: Key, first: Option<ProcessRuntime>, second: Option<ProcessRuntime>, fault: Fault)
    requires Follows(base, d.registry, d.stored) && HasProcess(d.registry, key)
    ensures var saved := Persist(Put(d, key, first), fault);
            && Follows(base, saved.registry, saved.stored)
            && Follows(base, Put(saved, key, second).registry, saved.stored)
  {
    SaveRecordFollows(base, d, key, first, fault);
    var saved := Persist(Put(d, key, first), fault);
    RecordFollows(base, saved.registry, saved.stored, key, second);
  }

  lemma FailStartFollows(base: Registry, d: Daemon, key: Key, at: Time, fault: Fault)
    requires Follows(base, d.registry, d.stored) && RuntimeAt(d.registry, key).Some?
    ensures var d' := FailStart(d, key, at, fault).daemon;
            Follows(base, d'.registry, d'.stored)
  {
    var marked := RuntimeAt(d.registry, key).value.(finishedAt := Some(at), terminationReason := STARTED_FAILED);
    var failed := marked.Transition(Failed);
    SaveRecordFollows(base, d, key, Some(if failed.Success? then failed.value else marked), fault);
  }

  lemma FailRunningFollows(base: Registry, d: Daemon, key: Key, at: Time, fault: Fault)
    requires Follows(base, d.registry, d.stored) && RuntimeAt(d.registry, key).Some?
    ensures var d' := FailRunning(d, key, at, fault).daemon;
            Follows(base, d'.registry, d'.stored)
  {
    var marked := RuntimeAt(d.registry, key).value.(finishedAt := Some(at), terminationReason := OBSERVATION_FAILED);
    var failed := marked.Transition(Failed);
    SaveRecordFollows(base, d, key, Some(if failed.Success? then failed.value else marked), fault);
  }

  lemma LaunchFollows(base: Registry, d: Daemon, key: Key, id: string, pid: int, answers: StartAnswers)
    requires Follows(base, d.registry, d.stored) && RuntimeAt(d.registry, key).Some?
    ensures var d' := LaunchSection(d, key, id, pid, answers).daemon;
            Follows(base, d'.registry, d'.stored)
  {
    var child := RuntimeAt(d.registry, key).value.(pid := Some(pid), startedAt := Some(answers.startedAt));
    var running := child.Transition(Running);
    if running.Failure? {
      RecordFollows(base, d.registry, d.stored, key, Some(child));
      FailStartFollows(base, Put(d, key, Some(child)), key, answers.failedAt, answers.second);
    } else {
      var d1 := Put(d, key, Some(running.value));
      SaveRecordFollows(base, d, key, Some(running.value), answers.second);
      if !Saves(d1, answers.second) {
        FailRunningFollows(base, Persist(d1, answers.second), key, answers.failedAt, answers.third);
      }
    }
  }

  lemma StartFollows(base: Registry, d: Daemon, key: Key, answers: StartAnswers)
    requires Follows(base, d.registry, d.stored)
    ensures var d' := StartSection(d, key, answers).daemon;
            Follows(base, d'.registry, d'.stored)
  {
    if LookupFailure(d.registry, key).None? && !IsActiveAt(d.registry, key) && answers.newID.Some? {
      FreshStartFollows(base, d, key, answers.newID.value, answers);
    }
  }

  lemma FreshStartFollows(base: Registry, d: Daemon, key: Key, id: string, answers: StartAnswers)
    requires Follows(base, d.registry, d.stored) && HasProcess(d.registry, key)
    ensures var d' := FreshStart(d, key, id, answers).daemon;
            Follows(base, d'.registry, d'.stored)
  {
    var newest := NewProcessRuntime(key, id);
    var saved := Persist(Put(d, key, Some(newest)), answers.first);
    SaveAndReplaceFollows(base, d, key, Some(newest), RuntimeAt(d.registry, key), answers.first);
    if Saves(Put(d, key, Some(newest)), answers.first) {
      FailStartFollows(base, saved, key, answers.failedAt, answers.second);
      if answers.pid.Some? {
        LaunchFollows(base, saved, key, id, answers.pid.value, answers);
      }
    }
  }

  lemma StopFollows(base: Registry, d: Daemon, key: Key, fault: Fault)
    requires Follows(base, d.registry, d.stored)
    ensures var d' := StopSection(d, key, fault).daemon;
            Follows(base, d'.registry, d'.stored)
  {
    if IsActiveAt(d.registry, key) {
      var runtime := RuntimeAt(d.registry, key).value;
      StopOutcomes(d, key, runtime, fault);
      SaveAndReplaceFollows(base, d, key, Some(runtime.(state := Stopping)), Some(runtime), fault);
    }
  }

  lemma StopOutcomes(d: Daemon, key: Key, runtime: ProcessRuntime, fault: Fault)
    requires RuntimeAt(d.registry, key) == Some(runtime) && runtime.state.IsActive()
    ensures var d' := StopSection(d, key, fault).daemon;
            var saved := Persist(Put(d, key, Some(runtime.(state := Stopping))), fault);
            d' == d || d' == saved || d' == Put(saved, key, Some(runtime))
  {
  }

  lemma EndFollows(base: Registry, d: Daemon, key: Key, runtime: ProcessRuntime, exit: Exit, at: Time, fault: Fault)
    requires Follows(base, d.registry, d.stored) && HasProcess(d.registry, key)
    ensures var d' := EndSection(d, key, runtime, exit, at, fault).daemon;
            Follows(base, d'.registry, d'.stored)
  {
    var record := ExitRecord(runtime, exit, at);
    var ended := record.Transition(ExitState(runtime, exit));
    SaveRecordFollows(base, d, key, Some(if ended.Success? then ended.value else record), fault);
  }

  lemma ObserveFollows(base: Registry, d: Daemon, child: Incarnation, exit: Exit, at: Time, fault: Fault)
    requires Follows(base, d.registry, d.stored)
    ensures var d' := ObserveSection(d, child.key, child.instanceID, exit, at, fault).daemon;
            Follows(base, d'.registry, d'.stored)
  {
    if LookupFailure(d.registry, child.key).None? && CurrentID(d, child.key) == Some(child.instanceID) {
      EndFollows(base, d, child.key, RuntimeAt(d.registry, child.key).value, exit, at, fault);
    }
  }

  /** The save of a changed definition replaced the file and still reported an error. */
  predicate LateFailure(d: Daemon, fault: Fault) {
    IsAbs(d.path) && fault == Some(FlushDirectory)
  }

  /** The action changes a definition, and its save fails after the new contents were put in place. */
  ghost predicate Misleads(w: World, a: Action) {
    match a
    case AddProject(project, isDirectory, fault) => AddsProject(w.d, project, isDirectory) && LateFailure(w.d, fault)
    case RemoveProject(projectID, fault) => RemovesProject(w.d, projectID) && LateFailure(w.d, fault)
    case AddProcess(process, isDirectory, fault) => AddsProcess(w.d, process, isDirectory) && LateFailure(w.d, fault)
    case RemoveProcess(key, fault) => RemovesProcess(w.d, key) && LateFailure(w.d, fault)
    case _ => false
  }

  /**
   * Memory and file keep agreeing on every definition, exactly as long as no save of a changed definition reports an
   * error after it has replaced the file.
   */
  lemma AgreementStep(w: World, a: Action)
    requires DaemonInv(w) && Enabled(w, a) && Agrees(w.d)
    ensures Agrees(Apply(w, a).d) <==> !Misleads(w, a)
  {
    if a.AddProject? || a.RemoveProject? {
      ProjectActionsAgree(w, a);
    } else if a.AddProcess? || a.RemoveProcess? {
      ProcessActionsAgree(w, a);
    } else {
      RecordActionsAgree(w, a);
    }
  }

  lemma ProjectActionsAgree(w: World, a: Action)
    requires DaemonInv(w) && Enabled(w, a) && Agrees(w.d) && (a.AddProject? || a.RemoveProject?)
    ensures Agrees(Apply(w, a).d) <==> !Misleads(w, a)
  {
    if a.AddProject? {
      AddProjectAgrees(w.d, a.project, a.isDirectory, a.fault, w.issued);
    } else {
      RemoveProjectAgrees(w.d, a.projectID, a.fault, w.issued);
    }
  }

  lemma ProcessActionsAgree(w: World, a: Action)
    requires DaemonInv(w) && Enabled(w, a) && Agrees(w.d) && (a.AddProcess? || a.RemoveProcess?)
    ensures Agrees(Apply(w, a).d) <==> !Misleads(w, a)
  {
    if a.AddProcess? {
      AddProcessAgrees(w.d, a.process, a.isDirectory, a.fault, w.issued);
    } else {
      RemoveProcessAgrees(w.d, a.key, a.fault, w.issued);
    }
  }

  lemma AddProjectAgrees(d: Daemon, definition: ProjectDefinition, isDirectory: bool, fault: Fault, issued: set<string>)
    requires GoodRegistry(d.registry, issued) && Agrees(d)
    ensures Agrees(AddProjectSection(d, definition, isDirectory, fault).daemon)
            <==> !(AddsProject(d, definition, isDirectory) && LateFailure(d, fault))
  {
    if AddsProject(d, definition, isDirectory) {
      AddedProject(d.registry, definition, issued);
      var changed := WithProject(d, definition);
      assert changed.registry.projects - {definition.id} == d.registry.projects;
      assert definition.id in Definitions(changed.registry) && definition.id !in Definitions(d.registry);
      DefinitionAgreement(d, changed, fault);
    }
  }

  lemma RemoveProjectAgrees(d: Daemon, projectID: string, fault: Fault, issued: set<string>)
    requires GoodRegistry(d.registry, issued) && Agrees(d)
    ensures Agrees(RemoveProjectSection(d, projectID, fault).daemon)
            <==> !(RemovesProject(d, projectID) && LateFailure(d, fault))
  {
    if RemovesProject(d, projectID) {
      RemovedProject(d.registry, projectID, issued);
      var changed := WithProjects(d, d.registry.projects - {projectID});
      assert changed.registry.projects[projectID := d.registry.projects[projectID]] == d.registry.projects;
      assert projectID !in Definitions(changed.registry) && projectID in Definitions(d.registry);
      DefinitionAgreement(d, changed, fault);
    }
  }

  lemma AddProcessAgrees(d: Daemon, definition: ProcessDefinition, isDirectory: bool, fault: Fault, issued: set<string>)
    requires GoodRegistry(d.registry, issued) && Agrees(d)
    ensures Agrees(AddProcessSection(d, definition, isDirectory, fault).daemon)
            <==> !(AddsProcess(d, definition, isDirectory) && LateFailure(d, fault))
  {
    if AddsProcess(d, definition, isDirectory) {
      AddProcessShape(d, definition, isDirectory, fault);
      AddedProcessAgrees(d, Key(definition.projectID, definition.id), definition, fault, issued);
    }
  }

  lemma AddedProcessAgrees(d: Daemon, key: Key, definition: ProcessDefinition, fault: Fault, issued: set<string>)
    requires GoodRegistry(d.registry, issued) && Agrees(d)
    requires key.projectID in d.registry.projects && !HasProcess(d.registry, key)
    requires definition.projectID == key.projectID && definition.id == key.processID
    requires definition.id != "" && definition.command != ""
    ensures var changed := WithEntry(d, key, RegisteredProcess(definition, None));
            Agrees(DefinitionSaved(changed, Persist(changed, fault).(registry := d.registry), fault).daemon)
            <==> !LateFailure(d, fault)
  {
    var changed := WithEntry(d, key, RegisteredProcess(definition, None));
    AddedProcess(d, key, definition, issued);
    ProcessesDiffer(d.registry, changed.registry, key);
    DefinitionAgreement(d, changed, fault);
  }

  lemma RemoveProcessAgrees(d: Daemon, key: Key, fault: Fault, issued: set<string>)
    requires GoodRegistry(d.registry, issued) && Agrees(d)
    ensures Agrees(RemoveProcessSection(d, key, fault).daemon) <==> !(RemovesProcess(d, key) && LateFailure(d, fault))
  {
    if RemovesProcess(d, key) {
      var changed := WithoutEntry(d, key);
      var rolledBack := WithEntry(Persist(changed, fault).(registry := changed.registry), key, ProcessAt(d.registry, key));
      AddUndoesRemove(d, key);
      assert rolledBack == Persist(changed, fault).(registry := d.registry);
      RemovedProcess(d, key, issued);
      ProcessesDiffer(changed.registry, d.registry, key);
      DefinitionAgreement(d, changed, fault);
    }
  }

  lemma ProcessesDiffer(without: Registry, with: Registry, key: Key)
    requires key.projectID in without.projects && !HasProcess(without, key) && HasProcess(with, key)
    ensures !SameDefinitions(without, with) && !SameDefinitions(with, without)
  {
    assert key.processID !in Definitions(without)[key.projectID].processes;
    assert key.processID in Definitions(with)[key.projectID].processes;
  }

  lemma DefinitionAgreement(d: Daemon, changed: Daemon, fault: Fault)
    requires Agrees(d) && changed == d.(registry := changed.registry)
    requires IsSavable(changed.registry) && !SameDefinitions(d.registry, changed.registry)
    ensures Saves(changed, fault) ==> Agrees(Persist(changed, fault))
    ensures !Saves(changed, fault) ==>
              (Agrees(Persist(changed, fault).(registry := d.registry)) <==> !LateFailure(d, fault))
  {
    SavedImage(changed.registry);
    assert Replaces(fault) ==> !SameDefinitions(d.registry, ImageRegistry(Persist(changed, fault).stored)) || !IsAbs(d.path);
  }

  lemma RecordActionsAgree(w: World, a: Action)
    requires Enabled(w, a) && Agrees(w.d)
    requires !a.AddProject? && !a.RemoveProject? && !a.AddProcess? && !a.RemoveProcess?
    ensures Agrees(Apply(w, a).d)
  {
    var base := w.d.registry;
    var d' := SectionOf(w, a).daemon;
    assert Apply(w, a).d == d';
    match a {
      case Start(key, answers) => StartFollows(base, w.d, key, answers);
      case RestartStart(call, answers) => StartFollows(base, w.d, w.calls[call].key, answers);
      case BeginStop(_, _, key, fault) => StopFollows(base, w.d, key, fault);
      case StopNextKey(call, fault) => StopFollows(base, w.d, w.calls[call].remaining[0], fault);
      case Observe(child, at, fault) => ObserveFollows(base, w.d, child, w.exits[child], at, fault);
      case _ =>
    }
    FollowersAgree(base, d');
  }
}
