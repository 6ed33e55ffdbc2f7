/** The lifecycle manager with its fields, changed in place; every method carries out one critical section. */
module LifecycleManager {
  import opened Wrappers
  import opened ProcessStates
  import opened Registries
  import opened RegistryDocuments
  import opened RegistryStores
  import opened OutputBuffers
  import opened Lifecycle

  /** `done` stands for the closed channel an observer leaves behind, with its error. */
  class ManagedRuntime {
    const instanceID: string
    const output: OutputBuffer
    var done: bool
    var finishErr: seq<Failure>

    constructor (instanceID: string, output: OutputBuffer)
      ensures this.instanceID == instanceID && this.output == output && !done && finishErr == []
    {
      this.instanceID := instanceID;
      this.output := output;
      done, finishErr := false, [];
    }
  }

  class LifecycleManager {
    const persister: FileRegistry
    const outputByteLimit: int
    const outputEventLimit: int
    var registry: Registry
    var active: map<Key, ManagedRuntime>
    var outputs: map<Key, ManagedRuntime>
    ghost var managed: map<string, ManagedRuntime>

    constructor (registry: Registry, persister: FileRegistry, outputByteLimit: int, outputEventLimit: int)
      ensures Valid() && this.persister == persister
      ensures View() == Daemon(registry, persister.path, persister.stored, Limits(outputByteLimit, outputEventLimit), map[], map[], map[])
    {
      this.registry := registry;
      this.persister := persister;
      this.outputByteLimit := outputByteLimit;
      this.outputEventLimit := outputEventLimit;
      active, outputs, managed := map[], map[], map[];
    }

    /** `managed` holds every instance whose child was handed to an observer. */
    ghost predicate Valid()
      reads this
    {
      && (forall id | id in managed :: managed[id].instanceID == id)
      && (forall key | key in active :: active[key].instanceID in managed && managed[active[key].instanceID] == active[key])
    }

    /** The value of the manager and its file. */
    ghost function View(): Daemon
      reads this, persister, managed.Values
    {
      Daemon(registry, persister.path, persister.stored, Limits(outputByteLimit, outputEventLimit),
             map key | key in active :: active[key].instanceID,
             map key | key in outputs :: outputs[key].instanceID,
             map id | id in managed && managed[id].done :: managed[id].finishErr)
    }

    // ---------- small steps shared by the sections ----------

    method FindProcess(key: Key) returns (failure: Option<Failure>)
      ensures failure == LookupFailure(registry, key)
    {
      if key.projectID !in registry.projects {
        return Some(ProjectNotFound);
      }
      if key.processID !in registry.projects[key.projectID].processes {
        return Some(ProcessNotFound);
      }
      return None;
    }

    method SetRuntime(key: Key, runtime: Option<ProcessRuntime>)
      requires Valid() && HasProcess(registry, key)
      modifies this`registry
      ensures Valid() && View() == Put(old(View()), key, runtime)
    {
      registry := WithRuntime(registry, key, runtime);
    }

    method Save(fault: Fault) returns (saved: bool)
      requires Valid()
      modifies persister
      ensures Valid() && View() == Persist(old(View()), fault)
      ensures saved <==> Saves(old(View()), fault)
    {
      var error := persister.Save(registry, fault);
      saved := error.None?;
    }

    method FailStart(key: Key, at: Time, fault: Fault) returns (failures: seq<Failure>)
      requires Valid() && HasProcess(registry, key) && RuntimeAt(registry, key).Some?
      modifies this`registry, persister
      ensures Valid()
      ensures var s := Lifecycle.FailStart(old(View()), key, at, fault);
              View() == s.daemon && failures == s.reply.failures
    {
      var marked := RuntimeAt(registry, key).value.(finishedAt := Some(at), terminationReason := STARTED_FAILED);
      var failed := marked.Transition(Failed);
      if failed.Failure? {
        SetRuntime(key, Some(marked));
        return [Illegal(marked, Failed)];
      }
      SetRuntime(key, Some(failed.value));
      var saved := Save(fault);
      failures := if saved then [] else [PersistFailed];
    }

    method FailRunningProcess(key: Key, at: Time, fault: Fault)
      requires Valid() && HasProcess(registry, key) && RuntimeAt(registry, key).Some?
      modifies this`registry, persister
      ensures Valid() && View() == FailRunning(old(View()), key, at, fault).daemon
    {
      var marked := RuntimeAt(registry, key).value.(finishedAt := Some(at), terminationReason := OBSERVATION_FAILED);
      var failed := marked.Transition(Failed);
      SetRuntime(key, Some(if failed.Success? then failed.value else marked));
      var _ := Save(fault);
    }

    // ---------- Start ----------

    /** Creates one runtime or returns the active one; `events` is what happened to operating-system processes. */
    method Start(key: Key, answers: StartAnswers) returns (reply: Reply, ghost events: seq<ProcessEvent>)
      requires Valid()
      requires answers.newID.Some? ==> answers.newID.value !in managed
      modifies this, persister
      ensures Valid()
      ensures var s := StartSection(old(View()), key, answers);
              View() == s.daemon && reply == s.reply && events == s.events
    {
      events := [];
      var failure := FindProcess(key);
      if failure.Some? {
        return Reply(None, [failure.value]), [];
      }
      if IsActiveAt(registry, key) {
        return Reply(RuntimeAt(registry, key), []), [];
      }
      if answers.newID.None? {
        return Reply(None, [NoInstanceID]), [];
      }
      var instanceID := answers.newID.value;
      var previous := RuntimeAt(registry, key);
      SetRuntime(key, Some(NewProcessRuntime(key, instanceID)));
      var saved := Save(answers.first);
      if !saved {
        SetRuntime(key, previous);
        return Reply(None, [PersistStarting]), [];
      }
      var output := NewOutputBuffer(outputByteLimit, outputEventLimit);
      if output.Failure? {
        return Reply(None, [OutputLimits]), [];
      }
      if answers.pid.None? {
        var failures := FailStart(key, answers.failedAt, answers.second);
        return Reply(RuntimeAt(registry, key), [SpawnFailed] + failures), [];
      }
      reply, events := Launch(key, instanceID, output.value, answers.pid.value, answers);
    }

    /** The part of Start after the child exists. */
    method Launch(key: Key, instanceID: string, output: OutputBuffer, pid: int, answers: StartAnswers)
      returns (reply: Reply, ghost events: seq<ProcessEvent>)
      requires Valid() && instanceID !in managed
      requires HasProcess(registry, key) && RuntimeAt(registry, key).Some?
      modifies this, persister
      ensures Valid()
      ensures var s := LaunchSection(old(View()), key, instanceID, pid, answers);
              View() == s.daemon && reply == s.reply && events == s.events
    {
      events := [Spawned(key, instanceID)];
      var child := RuntimeAt(registry, key).value.(pid := Some(pid), startedAt := Some(answers.startedAt));
      var running := child.Transition(Running);
      if running.Failure? {
        SetRuntime(key, Some(child));
        events := events + [Reaped(key, instanceID)];
        var _ := FailStart(key, answers.failedAt, answers.second);
        return Reply(RuntimeAt(registry, key), [Illegal(child, Running)]), events;
      }
      SetRuntime(key, Some(running.value));
      var saved := Save(answers.second);
      if !saved {
        events := events + [Reaped(key, instanceID)];
        FailRunningProcess(key, answers.failedAt, answers.third);
        return Reply(RuntimeAt(registry, key), [PersistRunning]), events;
      }
      TakeOwnership(key, instanceID, output);
      return Reply(Some(running.value), []), events;
    }

    method TakeOwnership(key: Key, instanceID: string, output: OutputBuffer)
      requires Valid() && instanceID !in managed
      modifies this`active, this`outputs, this`managed
      ensures Valid()
      ensures View() == old(View()).(active := old(View()).active[key := instanceID],
                                     outputs := old(View()).outputs[key := instanceID])
    {
      var runtime := new ManagedRuntime(instanceID, output);
      Manage(runtime);
      Publish(key, runtime);
    }

    method Publish(key: Key, runtime: ManagedRuntime)
      requires Valid() && runtime.instanceID in managed && managed[runtime.instanceID] == runtime
      modifies this`active, this`outputs
      ensures Valid()
      ensures View() == old(View()).(active := old(View()).active[key := runtime.instanceID],
                                     outputs := old(View()).outputs[key := runtime.instanceID])
    {
      ghost var before := View();
      active := active[key := runtime];
      assert View().active == before.active[key := runtime.instanceID];
      SetOutput(key, runtime);
    }

    method SetOutput(key: Key, runtime: ManagedRuntime)
      requires Valid()
      modifies this`outputs
      ensures Valid() && View() == old(View()).(outputs := old(View()).outputs[key := runtime.instanceID])
    {
      ghost var before := View();
      outputs := outputs[key := runtime];
      assert View().outputs == before.outputs[key := runtime.instanceID];
    }

    ghost method Manage(runtime: ManagedRuntime)
      requires Valid() && runtime.instanceID !in managed && !runtime.done
      modifies this`managed
      ensures Valid() && View() == old(View())
      ensures managed == old(managed)[runtime.instanceID := runtime]
    {
      ghost var before := View();
      managed := managed[runtime.instanceID := runtime];
      assert View().finished == before.finished;
    }

    // ---------- Stop ----------

    /** The first section of Stop; an outcome that waits comes with the instance to wait for. */
    method BeginStop(key: Key, fault: Fault) returns (outcome: StopOutcome, waitFor: Option<ManagedRuntime>)
      requires Valid()
      modifies this`registry, persister
      ensures Valid()
      ensures var s := StopSection(old(View()), key, fault);
              View() == s.daemon && outcome == s.outcome
      ensures outcome.Waiting? <==> waitFor.Some?
      ensures waitFor.Some? ==> key in active && waitFor.value == active[key] && outcome.instanceID == waitFor.value.instanceID
    {
      var failure := FindProcess(key);
      if failure.Some? {
        return Answered(Reply(None, [failure.value])), None;
      }
      if !IsActiveAt(registry, key) {
        return Answered(Reply(StoppedReply(registry, key), [])), None;
      }
      var runtime := RuntimeAt(registry, key).value;
      if key !in active || active[key].instanceID != runtime.instanceID {
        return Answered(Reply(None, [NotOwned])), None;
      }
      if !runtime.state.Stopping? {
        var stopping := runtime.Transition(Stopping);
        if stopping.Failure? {
          return Answered(Reply(None, [Illegal(runtime, Stopping)])), None;
        }
        SetRuntime(key, Some(stopping.value));
        var saved := Save(fault);
        if !saved {
          SetRuntime(key, Some(runtime));
          return Answered(Reply(None, [PersistStopping])), None;
        }
        return Waiting(active[key].instanceID, true), Some(active[key]);
      }
      return Waiting(active[key].instanceID, false), Some(active[key]);
    }

    /** The last section of Stop. */
    method StatusWithError(key: Key, failures: seq<Failure>) returns (reply: Reply)
      ensures reply == StatusReply(View(), key, failures)
    {
      var failure := FindProcess(key);
      if failure.Some? {
        return Reply(None, failures + [failure.value]);
      }
      return Reply(RuntimeAt(registry, key), failures);
    }

    /** What the observer of a child does once it has been waited for. */
    method ObserveExit(key: Key, runtime: ManagedRuntime, exit: Exit, at: Time, fault: Fault)
      requires Valid() && runtime.instanceID in managed && managed[runtime.instanceID] == runtime
      modifies this`registry, this`active, persister, runtime
      ensures Valid()
      ensures View() == ObserveSection(old(View()), key, runtime.instanceID, exit, at, fault).daemon
    {
      var failure := FindProcess(key);
      if failure.Some? {
        Finish(runtime, [failure.value]);
        return;
      }
      var current := RuntimeAt(registry, key);
      if current.None? || current.value.instanceID != runtime.instanceID {
        Finish(runtime, [OwnershipChanged]);
        return;
      }
      var record := ExitRecord(current.value, exit, at);
      var next := ExitState(current.value, exit);
      var ended := record.Transition(next);
      var failures := [];
      if ended.Failure? {
        SetRuntime(key, Some(record));
        failures := [Illegal(record, next)];
      } else {
        SetRuntime(key, Some(ended.value));
        var saved := Save(fault);
        if !saved {
          failures := [PersistTerminal];
        }
      }
      Release(key);
      Finish(runtime, failures);
    }

    method Release(key: Key)
      requires Valid()
      modifies this`active
      ensures Valid() && View() == old(View()).(active := old(View()).active - {key})
    {
      ghost var before := View();
      active := active - {key};
      assert View().active == before.active - {key};
    }

    method Finish(runtime: ManagedRuntime, failures: seq<Failure>)
      requires Valid() && runtime.instanceID in managed && managed[runtime.instanceID] == runtime
      modifies runtime
      ensures Valid()
      ensures View() == old(View()).(finished := old(View()).finished[runtime.instanceID := failures])
    {
      ghost var before := View();
      runtime.finishErr := failures;
      runtime.done := true;
      assert View().active == before.active && View().outputs == before.outputs;
      assert View().finished == before.finished[runtime.instanceID := failures];
    }

    /** Output of the current or most recent runtime: nothing at all when no run of this daemon left any. */
    method Logs(key: Key, afterSequence: nat, limit: int) returns (r: Result<OutputTail, OutputError>)
      requires key in outputs ==> outputs[key].output.Valid()
      ensures key !in outputs ==> r == Success(OutputTail([], false))
      ensures key in outputs && limit <= 0 ==> r == Failure(LimitNotPositive)
      ensures key in outputs && limit > 0 ==>
                var buffer := outputs[key].output;
                && r == Success(TailOf(buffer.written, buffer.Limits(), afterSequence, limit))
                && ShowsTail(buffer.written, buffer.dropped, afterSequence, limit, r.value)
    {
      if key !in outputs {
        return Success(OutputTail([], false));
      }
      r := outputs[key].output.Tail(afterSequence, limit);
    }

    // ---------- definitions ----------

    method SetProjects(projects: map<string, RegisteredProject>)
      requires Valid()
      modifies this`registry
      ensures Valid() && View() == WithProjects(old(View()), projects)
    {
      registry := Registry(projects);
    }

    method AddProject(definition: ProjectDefinition, isDirectory: bool, fault: Fault) returns (reply: Reply)
      requires Valid()
      modifies this`registry, persister
      ensures Valid()
      ensures var s := AddProjectSection(old(View()), definition, isDirectory, fault);
              View() == s.daemon && reply == s.reply
    {
      if definition.id == "" || !IsAbs(definition.rootDirectory) || !isDirectory {
        return Reply(None, [InvalidDefinition]);
      }
      if definition.id in registry.projects {
        return Reply(None, [AlreadyExists]);
      }
      SetProjects(registry.projects[definition.id := RegisteredProject(definition, map[])]);
      var saved := Save(fault);
      if !saved {
        SetProjects(registry.projects - {definition.id});
        return Reply(None, [PersistDefinition]);
      }
      return Reply(None, []);
    }

    method RemoveProject(projectID: string, fault: Fault) returns (reply: Reply)
      requires Valid()
      modifies this`registry, persister
      ensures Valid()
      ensures var s := RemoveProjectSection(old(View()), projectID, fault);
              View() == s.daemon && reply == s.reply
    {
      if projectID !in registry.projects {
        return Reply(None, [ProjectNotFound]);
      }
      var project := registry.projects[projectID];
      if project.processes != map[] {
        return Reply(None, [NotEmpty]);
      }
      SetProjects(registry.projects - {projectID});
      var saved := Save(fault);
      if !saved {
        SetProjects(registry.projects[projectID := project]);
        return Reply(None, [PersistDefinition]);
      }
      return Reply(None, []);
    }

    method SetProcesses(projectID: string, processes: map<string, RegisteredProcess>)
      requires Valid() && projectID in registry.projects
      modifies this`registry
      ensures Valid() && View() == WithProcesses(old(View()), projectID, processes)
    {
      registry := Registry(registry.projects[projectID := registry.projects[projectID].(processes := processes)]);
    }

    method AddProcess(definition: ProcessDefinition, isDirectory: bool, fault: Fault) returns (reply: Reply)
      requires Valid()
      modifies this`registry, persister
      ensures Valid()
      ensures var s := AddProcessSection(old(View()), definition, isDirectory, fault);
              View() == s.daemon && reply == s.reply
    {
      var projectID := definition.projectID;
      if projectID !in registry.projects {
        return Reply(None, [ProjectNotFound]);
      }
      if definition.id == "" || definition.command == "" {
        return Reply(None, [InvalidDefinition]);
      }
      if definition.id in registry.projects[projectID].processes {
        return Reply(None, [AlreadyExists]);
      }
      if definition.workingDirectory != "" && !isDirectory {
        return Reply(None, [InvalidDefinition]);
      }
      SetProcesses(projectID, registry.projects[projectID].processes[definition.id := RegisteredProcess(definition, None)]);
      var saved := Save(fault);
      if !saved {
        SetProcesses(projectID, registry.projects[projectID].processes - {definition.id});
        return Reply(None, [PersistDefinition]);
      }
      return Reply(None, []);
    }

    method RemoveProcess(key: Key, fault: Fault) returns (reply: Reply)
      requires Valid()
      modifies this`registry, this`outputs, persister
      ensures Valid()
      ensures var s := RemoveProcessSection(old(View()), key, fault);
              View() == s.daemon && reply == s.reply
    {
      var failure := FindProcess(key);
      if failure.Some? {
        return Reply(None, [failure.value]);
      }
      if IsActiveAt(registry, key) {
        return Reply(None, [Failure.IsActive]);
      }
      var process := ProcessAt(registry, key);
      SetProcesses(key.projectID, registry.projects[key.projectID].processes - {key.processID});
      var saved := Save(fault);
      if !saved {
        SetProcesses(key.projectID, registry.projects[key.projectID].processes[key.processID := process]);
        return Reply(None, [PersistDefinition]);
      }
      ForgetOutput(key);
      return Reply(None, []);
    }

    method ForgetOutput(key: Key)
      requires Valid()
      modifies this`outputs
      ensures Valid() && View() == old(View()).(outputs := old(View()).outputs - {key})
    {
      ghost var before := View();
      outputs := outputs - {key};
      assert View().outputs == before.outputs - {key};
    }
  }

  /** A new manager, if its output limits are positive. */
  method NewLifecycleManager(registry: Registry, persister: FileRegistry, outputByteLimit: int, outputEventLimit: int)
    returns (r: Option<LifecycleManager>)
    ensures r.Some? <==> outputByteLimit > 0 && outputEventLimit > 0
    ensures r.Some? ==> r.value.Valid()
    ensures r.Some? ==>
              var limits := Limits(outputByteLimit, outputEventLimit);
              r.value.View() == Daemon(registry, persister.path, persister.stored, limits, map[], map[], map[])
  {
    if outputByteLimit <= 0 || outputEventLimit <= 0 {
      return None;
    }
    var manager := new LifecycleManager(registry, persister, outputByteLimit, outputEventLimit);
    return Some(manager);
  }
}
