/** Every critical section keeps the invariant, and its defensive branches are never taken. */
module LifecycleSections {
  import opened Wrappers
  import opened ProcessStates
  import opened Registries
  import opened RegistryDocuments
  import opened RegistryStores
  import opened Lifecycle
  import opened LifecycleWorld
  import opened LifecycleInvariant

  // ---------- data ----------

  lemma ReasonsDiffer()
    ensures STARTED_FAILED != REQUESTED_STOP && NATURAL_EXIT != REQUESTED_STOP
    ensures OBSERVATION_FAILED != REQUESTED_STOP && DAEMON_RESTART != REQUESTED_STOP
    ensures NATURAL_EXIT != STARTED_FAILED && OBSERVATION_FAILED != STARTED_FAILED
    ensures REQUESTED_STOP != STARTED_FAILED && DAEMON_RESTART != STARTED_FAILED
  {
    assert STARTED_FAILED[0] == 's' && NATURAL_EXIT[0] == 'n' && REQUESTED_STOP[0] == 'r';
    assert OBSERVATION_FAILED[0] == 'o' && DAEMON_RESTART[0] == 'd';
  }

  predicate Names(runtime: ProcessRuntime, key: Key) {
    runtime.projectID == key.projectID && runtime.processID == key.processID
  }

  /** The record of a key may be replaced by any good record of an instance that no other key shows. */
  lemma GoodWithRuntime(registry: Registry, key: Key, runtime: ProcessRuntime, before: set<string>, issued: set<string>)
    requires GoodRegistry(registry, before) && before <= issued && HasProcess(registry, key)
    requires GoodRuntime(runtime, issued) && Names(runtime, key)
    requires forall k | k != key && RuntimeAt(registry, k).Some? ::
               RuntimeAt(registry, k).value.instanceID != runtime.instanceID
    ensures GoodRegistry(WithRuntime(registry, key, Some(runtime)), issued)
  {
    var after := WithRuntime(registry, key, Some(runtime));
    SavableWithRuntime(registry, key, runtime);
    forall k | RuntimeAt(after, k).Some?
      ensures GoodRuntime(RuntimeAt(after, k).value, issued)
    {
      if k != key {
        assert GoodRuntime(RuntimeAt(registry, k).value, before);
      }
    }
  }

  lemma SavableWithRuntime(registry: Registry, key: Key, runtime: ProcessRuntime)
    requires IsSavable(registry) && HasProcess(registry, key)
    requires runtime.IsConsistent() && Names(runtime, key)
    ensures IsSavable(WithRuntime(registry, key, Some(runtime)))
  {
    assert IsSavableProject(key.projectID, registry.projects[key.projectID]);
    var after := WithRuntime(registry, key, Some(runtime));
    forall p | p in after.projects
      ensures IsSavableProject(p, after.projects[p])
    {
      assert IsSavableProject(p, registry.projects[p]);
    }
  }

  lemma GoodIsMonotone(registry: Registry, before: set<string>, issued: set<string>)
    requires GoodRegistry(registry, before) && before <= issued
    ensures GoodRegistry(registry, issued)
  {
    forall k | RuntimeAt(registry, k).Some?
      ensures GoodRuntime(RuntimeAt(registry, k).value, issued)
    {
      assert GoodRuntime(RuntimeAt(registry, k).value, before);
    }
  }

  ghost predicate GoodWrites(writes: seq<RegistryDocument>, issued: set<string>) {
    forall document | document in writes :: GoodImage(Some(document), issued)
  }

  /** Whatever a save does to the file, the file stays good. */
  lemma PersistKeeps(d: Daemon, fault: Fault, before: set<string>, issued: set<string>)
    requires GoodRegistry(d.registry, issued) && GoodImage(d.stored, before) && before <= issued
    ensures GoodData(Persist(d, fault), issued)
    ensures GoodWrites(Writes(d, fault), issued)
  {
    SavedImage(d.registry);
    GoodIsMonotone(ImageRegistry(d.stored), before, issued);
  }

  // ---------- Start ----------

  ghost predicate IsDefensive(failure: Failure) {
    || failure.IllegalTransition? || failure.NotOwned? || failure.OwnershipChanged? || failure.OutputLimits?
  }

  ghost predicate NoneDefensive(failures: seq<Failure>) {
    forall f | f in failures :: !IsDefensive(f)
  }

  /** What a section must establish to keep the invariant and the file good. */
  ghost predicate SectionKeeps(w: World, s: Section, ids: set<string>) {
    && DaemonInv(CommitSection(w, s, ids))
    && Progress(w, CommitSection(w, s, ids))
    && GoodWrites(s.writes, w.issued + ids)
    && NoneDefensive(s.reply.failures)
  }

  lemma QuietSection(w: World, s: Section, ids: set<string>)
    requires DaemonInv(w) && Quiet(w.d, s.daemon) && s.events == []
    requires GoodData(s.daemon, w.issued + ids) && GoodWrites(s.writes, w.issued + ids) && NoneDefensive(s.reply.failures)
    ensures SectionKeeps(w, s, ids)
  {
    QuietKeeps(w, s.daemon, ids);
  }

  lemma UnchangedSection(w: World, s: Section, ids: set<string>)
    requires DaemonInv(w) && s.daemon == w.d && s.events == [] && s.writes == [] && NoneDefensive(s.reply.failures)
    ensures SectionKeeps(w, s, ids)
  {
    GoodIsMonotone(w.d.registry, w.issued, w.issued + ids);
    GoodIsMonotone(ImageRegistry(w.d.stored), w.issued, w.issued + ids);
    QuietSection(w, s, ids);
  }

  /** A start that reports no error answers with the key's active, owned runtime. */
  ghost predicate StartAnswer(s: Section, key: Key) {
    s.reply.failures == [] ==>
      && s.reply.runtime.Some?
      && RuntimeAt(s.daemon.registry, key) == s.reply.runtime
      && IsActiveAt(s.daemon.registry, key)
  }

  lemma StartKeeps(w: World, key: Key, answers: StartAnswers)
    requires DaemonInv(w) && Plausible(w, answers)
    ensures SectionKeeps(w, StartSection(w.d, key, answers), NewIDs(answers))
    ensures StartAnswer(StartSection(w.d, key, answers), key)
  {
    if LookupFailure(w.d.registry, key).Some? || IsActiveAt(w.d.registry, key) || answers.newID.None? {
      UnchangedSection(w, StartSection(w.d, key, answers), NewIDs(answers));
    } else {
      FreshStartKeeps(w, key, answers.newID.value, answers);
    }
  }

  lemma FreshStartKeeps(w: World, key: Key, id: string, answers: StartAnswers)
    requires DaemonInv(w) && Plausible(w, answers) && answers.newID == Some(id)
    requires HasProcess(w.d.registry, key) && !IsActiveAt(w.d.registry, key)
    ensures SectionKeeps(w, FreshStart(w.d, key, id, answers), {id})
    ensures StartAnswer(FreshStart(w.d, key, id, answers), key)
  {
    FreshIsUnique(w, key, id);
    FreshStartEffect(w.d, key, id, answers, w.issued);
    StartEffectKeeps(w, FreshStart(w.d, key, id, answers), key, id);
  }

  /** How a start that creates a new instance can end. */
  ghost predicate StartEffect(d: Daemon, s: Section, key: Key, id: string) {
    || (s.events == [] && (Quiet(d, s.daemon) || NeverRan(d, s.daemon, key, id)))
    || (s.events == [Spawned(key, id), Reaped(key, id)] && NeverRan(d, s.daemon, key, id))
    || (s.events == [Spawned(key, id)] && Launched(d, s.daemon, key, id))
  }

  ghost predicate GoodSection(s: Section, issued: set<string>) {
    GoodData(s.daemon, issued) && GoodWrites(s.writes, issued) && NoneDefensive(s.reply.failures)
  }

  lemma StartEffectKeeps(w: World, s: Section, key: Key, id: string)
    requires DaemonInv(w) && id !in w.issued && StartEffect(w.d, s, key, id) && GoodSection(s, w.issued + {id})
    ensures SectionKeeps(w, s, {id})
  {
    if s.events == [] && Quiet(w.d, s.daemon) {
      QuietKeeps(w, s.daemon, {id});
    } else if s.events == [Spawned(key, id)] {
      LaunchedKeeps(w, s.daemon, key, id);
    } else {
      NeverRanKeeps(w, s.daemon, key, id, s.events);
    }
  }

  /** What Start relies on: good data, positive limits, and an ID that no key shows. */
  ghost predicate CanStart(d: Daemon, key: Key, id: string, issued: set<string>) {
    && GoodRegistry(d.registry, issued) && GoodImage(d.stored, issued)
    && d.limits.bytes > 0 && d.limits.events > 0
    && id !in issued && id != ""
    && HasProcess(d.registry, key) && !IsActiveAt(d.registry, key)
    && (forall k | RuntimeAt(d.registry, k).Some? :: RuntimeAt(d.registry, k).value.instanceID != id)
  }

  lemma FreshStartEffect(d: Daemon, key: Key, id: string, answers: StartAnswers, issued: set<string>)
    requires CanStart(d, key, id, issued) && answers.newID == Some(id)
    requires answers.pid.Some? ==> answers.pid.value > 0
    ensures var s := FreshStart(d, key, id, answers);
            StartEffect(d, s, key, id) && GoodSection(s, issued + {id}) && StartAnswer(s, key)
  {
    StartingSaved(d, key, id, answers.first, issued);
    if !Saves(Put(d, key, Some(NewProcessRuntime(key, id))), answers.first) {
      FreshUnsaved(d, key, id, answers, issued);
    } else if answers.pid.None? {
      FreshNotSpawned(d, key, id, answers, issued);
    } else {
      FreshLaunched(d, key, id, answers, issued);
    }
  }

  lemma FreshUnsaved(d: Daemon, key: Key, id: string, answers: StartAnswers, issued: set<string>)
    requires CanStart(d, key, id, issued)
    requires var starting := Put(d, key, Some(NewProcessRuntime(key, id)));
             && !Saves(starting, answers.first)
             && GoodWrites(Writes(starting, answers.first), issued + {id})
             && GoodImage(Persist(starting, answers.first).stored, issued + {id})
    ensures var s := FreshStart(d, key, id, answers);
            StartEffect(d, s, key, id) && GoodSection(s, issued + {id}) && StartAnswer(s, key)
  {
    RuntimeRollback(d.registry, key, Some(NewProcessRuntime(key, id)));
    GoodIsMonotone(d.registry, issued, issued + {id});
  }

  lemma FreshNotSpawned(d: Daemon, key: Key, id: string, answers: StartAnswers, issued: set<string>)
    requires CanStart(d, key, id, issued) && answers.pid.None?
    requires var starting := Put(d, key, Some(NewProcessRuntime(key, id)));
             && Saves(starting, answers.first)
             && GoodWrites(Writes(starting, answers.first), issued + {id})
             && IsStarting(d, Persist(starting, answers.first), key, id, issued)
    ensures var s := FreshStart(d, key, id, answers);
            StartEffect(d, s, key, id) && GoodSection(s, issued + {id}) && StartAnswer(s, key)
  {
    var saved := Persist(Put(d, key, Some(NewProcessRuntime(key, id))), answers.first);
    SpawnFails(d, saved, key, id, answers, issued);
  }

  lemma FreshLaunched(d: Daemon, key: Key, id: string, answers: StartAnswers, issued: set<string>)
    requires CanStart(d, key, id, issued) && answers.pid.Some? && answers.pid.value > 0
    requires var starting := Put(d, key, Some(NewProcessRuntime(key, id)));
             && Saves(starting, answers.first)
             && GoodWrites(Writes(starting, answers.first), issued + {id})
             && IsStarting(d, Persist(starting, answers.first), key, id, issued)
    ensures var s := FreshStart(d, key, id, answers);
            StartEffect(d, s, key, id) && GoodSection(s, issued + {id}) && StartAnswer(s, key)
  {
    var saved := Persist(Put(d, key, Some(NewProcessRuntime(key, id))), answers.first);
    Launches(d, saved, key, id, answers, issued);
  }

  /** Recording the starting runtime is safe, whether or not it can be saved. */
  lemma StartingSaved(d: Daemon, key: Key, id: string, fault: Fault, issued: set<string>)
    requires CanStart(d, key, id, issued)
    ensures var starting := Put(d, key, Some(NewProcessRuntime(key, id)));
            && GoodWrites(Writes(starting, fault), issued + {id})
            && IsStarting(d, Persist(starting, fault), key, id, issued)
  {
    ReasonsDiffer();
    GoodWithRuntime(d.registry, key, NewProcessRuntime(key, id), issued, issued + {id});
    PersistKeeps(Put(d, key, Some(NewProcessRuntime(key, id))), fault, issued, issued + {id});
  }

  /** A fresh instance ID is shown by no key. */
  lemma FreshIsUnique(w: World, key: Key, id: string)
    requires DaemonInv(w) && id !in w.issued
    ensures forall k | RuntimeAt(w.d.registry, k).Some? :: RuntimeAt(w.d.registry, k).value.instanceID != id
  {
    forall k | RuntimeAt(w.d.registry, k).Some?
      ensures RuntimeAt(w.d.registry, k).value.instanceID != id
    {
      assert GoodRuntime(RuntimeAt(w.d.registry, k).value, w.issued);
    }
  }

  /** The daemon inside Start, after the starting record was saved. */
  ghost predicate IsStarting(d0: Daemon, d: Daemon, key: Key, id: string, issued: set<string>) {
    && CanStart(d0, key, id, issued)
    && d == d0.(registry := WithRuntime(d0.registry, key, Some(NewProcessRuntime(key, id))), stored := d.stored)
    && GoodImage(d.stored, issued + {id})
  }

  function FailedStartRecord(key: Key, id: string, at: Time): ProcessRuntime {
    NewProcessRuntime(key, id).(state := Failed, finishedAt := Some(at), terminationReason := STARTED_FAILED)
  }

  function LaunchedRecord(key: Key, id: string, pid: int, at: Time): ProcessRuntime {
    NewProcessRuntime(key, id).(pid := Some(pid), startedAt := Some(at), state := Running)
  }

  function KilledRecord(launched: ProcessRuntime, at: Time): ProcessRuntime {
    launched.(state := Failed, finishedAt := Some(at), terminationReason := OBSERVATION_FAILED)
  }

  lemma RecordsConsistent(key: Key, id: string, pid: int, at: Time, later: Time)
    requires id != "" && pid > 0
    ensures FailedStartRecord(key, id, at).IsConsistent()
    ensures LaunchedRecord(key, id, pid, at).IsConsistent()
    ensures KilledRecord(LaunchedRecord(key, id, pid, at), later).IsConsistent()
  {
    ReasonsDiffer();
  }

  lemma SpawnFails(d0: Daemon, d: Daemon, key: Key, id: string, answers: StartAnswers, issued: set<string>)
    requires IsStarting(d0, d, key, id, issued)
    ensures var f := FailStart(d, key, answers.failedAt, answers.second);
            NeverRan(d0, f.daemon, key, id) && GoodSection(f, issued + {id})
  {
    var failed := FailedStartRecord(key, id, answers.failedAt);
    RecordsConsistent(key, id, 1, answers.failedAt, 0);
    ReplacedRecord(d0, d, Put(d, key, Some(failed)), key, id, failed, answers.second, issued);
  }

  /** Saving another record of the same start keeps everything good and touches no other key. */
  lemma ReplacedRecord(
      d0: Daemon, d: Daemon, d1: Daemon, key: Key, id: string, runtime: ProcessRuntime, fault: Fault, issued: set<string>)
    requires IsStarting(d0, d, key, id, issued)
    requires runtime.IsConsistent() && runtime.instanceID == id && Names(runtime, key)
    requires d1 == d0.(registry := WithRuntime(d.registry, key, Some(runtime)), stored := d1.stored)
    requires GoodImage(d1.stored, issued + {id})
    ensures GoodData(Persist(d1, fault), issued + {id})
    ensures GoodWrites(Writes(d1, fault), issued + {id})
    ensures RuntimeAt(d1.registry, key) == Some(runtime)
    ensures OnlyAt(d0, d1, key) && OnlyAt(d0, Persist(d1, fault), key)
  {
    LastRuntimeWins(d0.registry, key, Some(NewProcessRuntime(key, id)), Some(runtime));
    GoodWithRuntime(d0.registry, key, runtime, issued, issued + {id});
    PersistKeeps(d1, fault, issued + {id}, issued + {id});
  }

  lemma Launches(d0: Daemon, d: Daemon, key: Key, id: string, answers: StartAnswers, issued: set<string>)
    requires IsStarting(d0, d, key, id, issued)
    requires answers.pid.Some? && answers.pid.value > 0
    ensures var l := LaunchSection(d, key, id, answers.pid.value, answers);
            StartEffect(d0, l, key, id) && GoodSection(l, issued + {id}) && StartAnswer(l, key)
  {
    var running := LaunchedRecord(key, id, answers.pid.value, answers.startedAt);
    var d1 := Put(d, key, Some(running));
    LaunchShape(d, key, id, answers);
    RecordsConsistent(key, id, answers.pid.value, answers.startedAt, answers.failedAt);
    ReplacedRecord(d0, d, d1, key, id, running, answers.second, issued);
    if Saves(d1, answers.second) {
      OwnedEffect(d0, d1, key, id, running, answers.second, issued);
    } else {
      KilledEffect(d0, d, Persist(d1, answers.second), key, id, running, answers, issued);
    }
  }

  /** The child is recorded as running and handed to the new instance. */
  ghost function OwnedSection(d1: Daemon, key: Key, id: string, running: ProcessRuntime, fault: Fault): Section {
    var saved := Persist(d1, fault);
    Section(saved.(active := saved.active[key := id], outputs := saved.outputs[key := id]),
            [Spawned(key, id)], Writes(d1, fault), Reply(Some(running), []))
  }

  /** The child could not be recorded: it was killed and waited for, and its record failed. */
  ghost function KilledSection(saved: Daemon, key: Key, id: string, running: ProcessRuntime, answers: StartAnswers): Section
    requires HasProcess(saved.registry, key)
  {
    var killed := KilledRecord(running, answers.failedAt);
    var d2 := Put(saved, key, Some(killed));
    Section(Persist(d2, answers.third), [Spawned(key, id), Reaped(key, id)], Writes(d2, answers.third),
            Reply(Some(killed), [PersistRunning]))
  }

  lemma OwnedEffect(
      d0: Daemon, d1: Daemon, key: Key, id: string, running: ProcessRuntime, fault: Fault, issued: set<string>)
    requires OnlyAt(d0, d1, key) && d1.active == d0.active && d1.outputs == d0.outputs && d1.finished == d0.finished
    requires !IsActiveAt(d0.registry, key) && RuntimeAt(d1.registry, key) == Some(running)
    requires running.instanceID == id && running.state.Running?
    requires GoodData(Persist(d1, fault), issued + {id}) && GoodWrites(Writes(d1, fault), issued + {id})
    ensures var l := OwnedSection(d1, key, id, running, fault);
            StartEffect(d0, l, key, id) && GoodSection(l, issued + {id}) && StartAnswer(l, key)
  {
  }

  lemma KilledEffect(
      d0: Daemon, d: Daemon, saved: Daemon, key: Key, id: string, running: ProcessRuntime, answers: StartAnswers,
      issued: set<string>)
    requires IsStarting(d0, d, key, id, issued)
    requires answers.pid.Some? && answers.pid.value > 0
    requires running == LaunchedRecord(key, id, answers.pid.value, answers.startedAt)
    requires HasProcess(d.registry, key)
    requires saved == Put(d, key, Some(running)).(stored := saved.stored) && GoodImage(saved.stored, issued + {id})
    ensures var l := KilledSection(saved, key, id, running, answers);
            StartEffect(d0, l, key, id) && GoodSection(l, issued + {id}) && StartAnswer(l, key)
  {
    var killed := KilledRecord(running, answers.failedAt);
    KilledRecordSaved(d0, d, saved, key, id, running, answers, issued);
    FailedEffect(d0, Persist(Put(saved, key, Some(killed)), answers.third), key, id, killed);
    KilledAssembled(d0, saved, key, id, running, answers, issued);
  }

  lemma KilledRecordSaved(
      d0: Daemon, d: Daemon, saved: Daemon, key: Key, id: string, running: ProcessRuntime, answers: StartAnswers,
      issued: set<string>)
    requires IsStarting(d0, d, key, id, issued)
    requires answers.pid.Some? && answers.pid.value > 0
    requires running == LaunchedRecord(key, id, answers.pid.value, answers.startedAt)
    requires HasProcess(d.registry, key)
    requires saved == Put(d, key, Some(running)).(stored := saved.stored) && GoodImage(saved.stored, issued + {id})
    ensures var d2 := Put(saved, key, Some(KilledRecord(running, answers.failedAt)));
            && GoodData(Persist(d2, answers.third), issued + {id})
            && GoodWrites(Writes(d2, answers.third), issued + {id})
            && OnlyAt(d0, Persist(d2, answers.third), key)
  {
    var killed := KilledRecord(running, answers.failedAt);
    RecordsConsistent(key, id, answers.pid.value, answers.startedAt, answers.failedAt);
    LastRuntimeWins(d.registry, key, Some(running), Some(killed));
    ReplacedRecord(d0, d, Put(saved, key, Some(killed)), key, id, killed, answers.third, issued);
  }

  lemma KilledAssembled(
      d0: Daemon, saved: Daemon, key: Key, id: string, running: ProcessRuntime, answers: StartAnswers, issued: set<string>)
    requires HasProcess(saved.registry, key)
    requires var d2 := Put(saved, key, Some(KilledRecord(running, answers.failedAt)));
             && NeverRan(d0, Persist(d2, answers.third), key, id)
             && GoodData(Persist(d2, answers.third), issued + {id})
             && GoodWrites(Writes(d2, answers.third), issued + {id})
    ensures var l := KilledSection(saved, key, id, running, answers);
            StartEffect(d0, l, key, id) && GoodSection(l, issued + {id}) && StartAnswer(l, key)
  {
  }

  lemma FailedEffect(d0: Daemon, d: Daemon, key: Key, id: string, failed: ProcessRuntime)
    requires OnlyAt(d0, d, key) && d.active == d0.active && d.finished == d0.finished
    requires !IsActiveAt(d0.registry, key) && RuntimeAt(d.registry, key) == Some(failed)
    requires failed.instanceID == id && failed.state.Failed?
    ensures NeverRan(d0, d, key, id)
  {
  }

  /** A starting runtime can always become running, and a running one can always fail. */
  lemma LaunchShape(d: Daemon, key: Key, id: string, answers: StartAnswers)
    requires RuntimeAt(d.registry, key) == Some(NewProcessRuntime(key, id)) && answers.pid.Some?
    ensures var running := LaunchedRecord(key, id, answers.pid.value, answers.startedAt);
            var d1 := Put(d, key, Some(running));
            var killed := KilledSection(Persist(d1, answers.second), key, id, running, answers);
            LaunchSection(d, key, id, answers.pid.value, answers) ==
            if Saves(d1, answers.second) then OwnedSection(d1, key, id, running, answers.second)
            else killed.(writes := Writes(d1, answers.second) + killed.writes)
  {
    var running := LaunchedRecord(key, id, answers.pid.value, answers.startedAt);
    var d1 := Put(d, key, Some(running));
    assert NewProcessRuntime(key, id).(pid := answers.pid, startedAt := Some(answers.startedAt)).Transition(Running)
        == Success(running);
    FailRunningShape(Persist(d1, answers.second), key, running, answers.failedAt, answers.third);
  }

  lemma FailRunningShape(d: Daemon, key: Key, running: ProcessRuntime, at: Time, fault: Fault)
    requires RuntimeAt(d.registry, key) == Some(running) && running.state.Running?
    ensures var d2 := Put(d, key, Some(KilledRecord(running, at)));
            FailRunning(d, key, at, fault) == Section(Persist(d2, fault), [], Writes(d2, fault), Reply(None, []))
  {
  }

  // ---------- Stop ----------

  /**
   * The first section of Stop never finds a runtime that is not owned or cannot be stopped; when it does not answer
   * at once, the instance it waits for is the current one and owned.
   */
  ghost predicate StopAnswer(d: Daemon, key: Key, s: StopStep) {
    match s.outcome
    case Answered(reply) => NoneDefensive(reply.failures) && (reply.failures == [] ==> key !in s.daemon.active)
    case Waiting(id, _) => key in s.daemon.active && s.daemon.active[key] == id && CurrentID(d, key) == Some(id)
  }

  lemma StopKeeps(w: World, key: Key, fault: Fault)
    requires DaemonInv(w)
    ensures SectionKeeps(w, OfStop(StopSection(w.d, key, fault)), {})
    ensures StopAnswer(w.d, key, StopSection(w.d, key, fault))
  {
    if key in w.d.active && RuntimeAt(w.d.registry, key).value.state.Running? {
      RequestStopEffect(w.d, key, fault, w.issued);
      RequestStopKeeps(w, key, StopSection(w.d, key, fault));
    } else {
      StopWithoutChange(w.d, key, fault);
      StopUnchangedKeeps(w, key, StopSection(w.d, key, fault));
    }
  }

  lemma StopUnchangedKeeps(w: World, key: Key, s: StopStep)
    requires DaemonInv(w) && s.daemon == w.d && s.writes == []
    ensures SectionKeeps(w, OfStop(s), {})
  {
    UnchangedSection(w, OfStop(s), {});
  }

  /** Stopping what is not there, not active, or already stopping changes nothing. */
  lemma StopWithoutChange(d: Daemon, key: Key, fault: Fault)
    requires ActiveInv(d)
    requires !(key in d.active && RuntimeAt(d.registry, key).value.state.Running?)
    ensures var s := StopSection(d, key, fault);
            && s.daemon == d && s.writes == []
            && StopAnswer(d, key, s)
  {
  }

  /** An owned, running runtime can always be asked to stop. */
  lemma StopShape(d: Daemon, key: Key, runtime: ProcessRuntime, fault: Fault)
    requires RuntimeAt(d.registry, key) == Some(runtime) && runtime.state.Running?
    requires key in d.active && d.active[key] == runtime.instanceID
    ensures var d1 := Put(d, key, Some(runtime.(state := Stopping)));
            StopSection(d, key, fault) ==
            if Saves(d1, fault) then StopStep(Persist(d1, fault), Writes(d1, fault), Waiting(runtime.instanceID, true))
            else StopStep(Persist(d1, fault).(registry := d.registry), Writes(d1, fault),
                          Answered(Reply(None, [PersistStopping])))
  {
    RuntimeRollback(d.registry, key, Some(runtime.(state := Stopping)));
  }

  lemma RequestStopEffect(d: Daemon, key: Key, fault: Fault, issued: set<string>)
    requires ActiveInv(d) && GoodRegistry(d.registry, issued) && GoodImage(d.stored, issued)
    requires key in d.active && RuntimeAt(d.registry, key).value.state.Running?
    ensures var s := StopSection(d, key, fault);
            && (if s.outcome.Answered? then Quiet(d, s.daemon) else StopRequested(d, s.daemon, key))
            && GoodData(s.daemon, issued) && GoodWrites(s.writes, issued)
            && StopAnswer(d, key, s)
  {
    var runtime := RuntimeAt(d.registry, key).value;
    ReasonsDiffer();
    OwnRecord(d.registry, key, issued);
    GoodWithRuntime(d.registry, key, runtime.(state := Stopping), issued, issued);
    PersistKeeps(Put(d, key, Some(runtime.(state := Stopping))), fault, issued, issued);
    StopShape(d, key, runtime, fault);
  }

  lemma RequestStopKeeps(w: World, key: Key, s: StopStep)
    requires DaemonInv(w) && key in w.d.active
    requires if s.outcome.Answered? then Quiet(w.d, s.daemon) else StopRequested(w.d, s.daemon, key)
    requires GoodData(s.daemon, w.issued) && GoodWrites(s.writes, w.issued)
    ensures SectionKeeps(w, OfStop(s), {})
  {
    assert w.issued + {} == w.issued;
    if s.outcome.Answered? {
      QuietKeeps(w, s.daemon, {});
    } else {
      StopRequestedKeeps(w, s.daemon, key);
    }
  }

  /** A key's record carries the key's names and shares its instance with no other key. */
  lemma OwnRecord(registry: Registry, key: Key, issued: set<string>)
    requires GoodRegistry(registry, issued) && RuntimeAt(registry, key).Some?
    ensures Names(RuntimeAt(registry, key).value, key)
    ensures GoodRuntime(RuntimeAt(registry, key).value, issued)
    ensures forall k | k != key && RuntimeAt(registry, k).Some? ::
              RuntimeAt(registry, k).value.instanceID != RuntimeAt(registry, key).value.instanceID
  {
    assert IsSavableProject(key.projectID, registry.projects[key.projectID]);
  }

  // ---------- observing an exit ----------

  function EndedRecord(runtime: ProcessRuntime, exit: Exit, at: Time): ProcessRuntime {
    ExitRecord(runtime, exit, at).(state := ExitState(runtime, exit))
  }

  /** A running or stopping runtime can always end the way its exit says. */
  lemma EndShape(d: Daemon, key: Key, runtime: ProcessRuntime, exit: Exit, at: Time, fault: Fault)
    requires RuntimeAt(d.registry, key) == Some(runtime) && (runtime.state.Running? || runtime.state.Stopping?)
    ensures var d1 := Put(d, key, Some(EndedRecord(runtime, exit, at)));
            var failures := if Saves(d1, fault) then [] else [PersistTerminal];
            EndSection(d, key, runtime, exit, at, fault) ==
            Section(Persist(d1, fault).(finished := d.finished[runtime.instanceID := failures], active := d.active - {key}),
                    [], Writes(d1, fault), Reply(None, []))
  {
    assert ExitRecord(runtime, exit, at).Transition(ExitState(runtime, exit)) == Success(EndedRecord(runtime, exit, at));
  }

  /** The record left by an exit follows every rule about records. */
  lemma EndedConsistent(runtime: ProcessRuntime, exit: Exit, at: Time)
    requires runtime.IsConsistent() && (runtime.state.Running? || runtime.state.Stopping?)
    ensures EndedRecord(runtime, exit, at).IsConsistent()
    ensures CanTransition(runtime.state, EndedRecord(runtime, exit, at).state)
  {
    ReasonsDiffer();
  }

  /** The observer's section ends exactly the runtime it owns. */
  lemma ObserveEffect(d: Daemon, child: Incarnation, exit: Exit, at: Time, fault: Fault, issued: set<string>)
    requires OwnedBy(d, child) && ActiveInv(d) && GoodRegistry(d.registry, issued) && GoodImage(d.stored, issued)
    ensures var s := ObserveSection(d, child.key, child.instanceID, exit, at, fault);
            Ended(d, s.daemon, child.key) && GoodData(s.daemon, issued) && GoodWrites(s.writes, issued)
            && s.events == [] && s.reply.failures == []
  {
    EndEffect(d, child.key, RuntimeAt(d.registry, child.key).value, exit, at, fault, issued);
  }

  lemma EndEffect(
      d: Daemon, key: Key, runtime: ProcessRuntime, exit: Exit, at: Time, fault: Fault, issued: set<string>)
    requires RuntimeAt(d.registry, key) == Some(runtime) && (runtime.state.Running? || runtime.state.Stopping?)
    requires key in d.active && d.active[key] == runtime.instanceID
    requires GoodRegistry(d.registry, issued) && GoodImage(d.stored, issued)
    ensures var s := EndSection(d, key, runtime, exit, at, fault);
            Ended(d, s.daemon, key) && GoodData(s.daemon, issued) && GoodWrites(s.writes, issued)
            && s.events == [] && s.reply.failures == []
  {
    EndedRecordSaved(d, key, runtime, exit, at, fault, issued);
    var d1 := Put(d, key, Some(EndedRecord(runtime, exit, at)));
    EndedEffect(d, Persist(d1, fault), key, if Saves(d1, fault) then [] else [PersistTerminal]);
    EndShape(d, key, runtime, exit, at, fault);
  }

  lemma EndedRecordSaved(
      d: Daemon, key: Key, runtime: ProcessRuntime, exit: Exit, at: Time, fault: Fault, issued: set<string>)
    requires RuntimeAt(d.registry, key) == Some(runtime) && (runtime.state.Running? || runtime.state.Stopping?)
    requires GoodRegistry(d.registry, issued) && GoodImage(d.stored, issued)
    ensures var d1 := Put(d, key, Some(EndedRecord(runtime, exit, at)));
            GoodData(Persist(d1, fault), issued) && GoodWrites(Writes(d1, fault), issued) && SameInstance(d, d1, key)
  {
    var ended := EndedRecord(runtime, exit, at);
    OwnRecord(d.registry, key, issued);
    EndedConsistent(runtime, exit, at);
    GoodWithRuntime(d.registry, key, ended, issued, issued);
    PersistKeeps(Put(d, key, Some(ended)), fault, issued, issued);
  }

  lemma EndedEffect(d: Daemon, d1: Daemon, key: Key, failures: seq<Failure>)
    requires OnlyAt(d, d1, key) && SameInstance(d, d1, key) && RuntimeAt(d1.registry, key).value.state.IsTerminal()
    requires d1.active == d.active && d1.outputs == d.outputs && d1.finished == d.finished && key in d.active
    ensures Ended(d, d1.(finished := d.finished[d.active[key] := failures], active := d.active - {key}), key)
  {
  }
}
