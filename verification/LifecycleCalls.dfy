/** Calls that span several critical sections: what Stop, Restart and Shutdown have achieved when they return. */
module LifecycleCalls {
  import opened Wrappers
  import opened ProcessStates
  import opened Registries
  import opened RegistryDocuments
  import opened RegistryStores
  import opened Lifecycle
  import opened LifecycleWorld
  import opened LifecycleInvariant
  import opened LifecycleSections
  import opened LifecycleDefinitions

  // ---------- every action keeps the daemon's invariant ----------

  lemma CoreKeeps(w: World, a: Action)
    requires DaemonInv(w) && Enabled(w, a)
    ensures DaemonInv(Core(w, a)) && Progress(w, Core(w, a))
    ensures GoodWrites(SectionOf(w, a).writes, w.issued + IDsOf(a))
  {
    if a.Observe? {
      ObserveActionKeeps(w, a.child, a.at, a.fault);
    } else if a.ChildExits? {
      ExitKeeps(w, a.child, a.exit);
    } else {
      SectionOfKeeps(w, a);
    }
  }

  lemma SectionOfKeeps(w: World, a: Action)
    requires DaemonInv(w) && Enabled(w, a) && !a.Observe? && !a.ChildExits?
    ensures SectionKeeps(w, SectionOf(w, a), IDsOf(a))
  {
    if a.Start? || a.RestartStart? {
      StartActionKeeps(w, a);
    } else if a.BeginStop? {
      StopKeeps(w, a.key, a.fault);
    } else if a.StopNextKey? {
      StopKeeps(w, w.calls[a.call].remaining[0], a.fault);
    } else if a.AddProject? || a.RemoveProject? {
      ProjectActionKeeps(w, a);
    } else if a.AddProcess? || a.RemoveProcess? {
      ProcessActionKeeps(w, a);
    } else {
      UnchangedSection(w, Section(w.d, [], [], Reply(None, [])), {});
    }
  }

  lemma StartActionKeeps(w: World, a: Action)
    requires DaemonInv(w) && Enabled(w, a) && (a.Start? || a.RestartStart?)
    ensures SectionKeeps(w, SectionOf(w, a), IDsOf(a))
  {
    StartKeeps(w, if a.Start? then a.key else w.calls[a.call].key, a.answers);
  }

  lemma ProjectActionKeeps(w: World, a: Action)
    requires DaemonInv(w) && Enabled(w, a) && (a.AddProject? || a.RemoveProject?)
    ensures SectionKeeps(w, SectionOf(w, a), IDsOf(a))
  {
    if a.AddProject? {
      AddProjectKeeps(w, a.project, a.isDirectory, a.fault);
    } else {
      RemoveProjectKeeps(w, a.projectID, a.fault);
    }
  }

  lemma ProcessActionKeeps(w: World, a: Action)
    requires DaemonInv(w) && Enabled(w, a) && (a.AddProcess? || a.RemoveProcess?)
    ensures SectionKeeps(w, SectionOf(w, a), IDsOf(a))
  {
    if a.AddProcess? {
      AddProcessKeeps(w, a.process, a.isDirectory, a.fault);
    } else {
      RemoveProcessKeeps(w, a.key, a.fault);
    }
  }

  lemma ObserveActionKeeps(w: World, child: Incarnation, at: Time, fault: Fault)
    requires DaemonInv(w) && Enabled(w, Observe(child, at, fault))
    ensures var a := Observe(child, at, fault);
            DaemonInv(Core(w, a)) && Progress(w, Core(w, a)) && GoodWrites(SectionOf(w, a).writes, w.issued + {})
  {
    var s := ObserveSection(w.d, child.key, child.instanceID, w.exits[child], at, fault);
    ObservedSection(w, child, at, fault, s);
    ObserveCoreKeeps(w, child, s, Core(w, Observe(child, at, fault)));
  }

  lemma ObservedSection(w: World, child: Incarnation, at: Time, fault: Fault, s: Section)
    requires DaemonInv(w) && child in w.exits
    requires s == ObserveSection(w.d, child.key, child.instanceID, w.exits[child], at, fault)
    ensures s.events == [] && Ended(w.d, s.daemon, child.key)
    ensures GoodData(s.daemon, w.issued) && GoodWrites(s.writes, w.issued + {})
  {
    ExitIsOwned(w, child);
    ObserveEffect(w.d, child, w.exits[child], at, fault, w.issued);
    assert w.issued + {} == w.issued;
  }

  lemma ObserveCoreKeeps(w: World, child: Incarnation, s: Section, w': World)
    requires DaemonInv(w) && child in w.exits
    requires Ended(w.d, s.daemon, child.key) && GoodData(s.daemon, w.issued) && s.events == []
    requires w' == CommitSection(w, s, {}).(exits := w.exits - {child})
    ensures DaemonInv(w') && Progress(w, w')
  {
    ExitIsOwned(w, child);
    ExitDropped(w, child, s, w');
    EndedKeeps(w, w', child.key);
  }

  lemma ExitDropped(w: World, child: Incarnation, s: Section, w': World)
    requires s.events == [] && w' == CommitSection(w, s, {}).(exits := w.exits - {child})
    ensures w'.d == s.daemon && w'.exits == w.exits - {child} && w'.log == w.log && w'.issued == w.issued
    ensures w'.records == Recorded(w.records, s.daemon.registry)
  {
  }

  lemma ExitIsOwned(w: World, child: Incarnation)
    requires DaemonInv(w) && child in w.exits
    ensures OwnedBy(w.d, child)
  {
  }

  // ---------- what is known of a call in progress ----------

  /** An incarnation whose record is final and whose child, if it had one, was waited for. */
  ghost predicate Gone(w: World, child: Incarnation) {
    child in w.records && w.records[child].state.IsTerminal() && child !in Live(w.log)
  }

  ghost predicate TargetGone(w: World, c: Call) {
    c.target.Some? ==> Gone(w, Incarnation(c.key, c.target.value))
  }

  /** The instance is still owned by the key, or its `done` channel is closed. */
  ghost predicate Handled(d: Daemon, key: Key, id: string) {
    id in d.finished || (key in d.active && d.active[key] == id)
  }

  /**
   * The runtime a Restart returned belongs to an instance that was created after the call, at a moment at which the
   * instance current at the call had no live child any more.
   */
  ghost predicate Replaced(log: seq<ProcessEvent>, c: Call, reply: Reply) {
    && reply.runtime.Some?
    && reply.runtime.value.instanceID !in c.known
    && exists j :: ReplacedAt(log, c, reply.runtime.value.instanceID, j)
  }

  ghost predicate ReplacedAt(log: seq<ProcessEvent>, c: Call, id: string, j: int) {
    && c.mark <= j < |log|
    && log[j] == Spawned(c.key, id)
    && (c.target.Some? ==> Incarnation(c.key, c.target.value) !in Live(log[..j]))
  }

  ghost predicate CallBasics(w: World, c: Call) {
    && c.mark <= |w.log|
    && c.known <= w.issued
    && (forall j | 0 <= j < c.mark :: w.log[j].instanceID in c.known)
    && (forall j | c.mark <= j < |w.log| && w.log[j].Spawned? :: w.log[j].instanceID !in c.known)
  }

  /** Stop and Restart: the key shows the instance of the call, or one that is newer than the call. */
  ghost predicate OneKeyInv(w: World, c: Call) {
    && (c.target.Some? ==> c.target.value in c.known && Incarnation(c.key, c.target.value) in w.records)
    && (CurrentID(w.d, c.key).Some? ==> CurrentID(w.d, c.key).value !in c.known || CurrentID(w.d, c.key) == c.target)
    && match c.phase
       case Awaiting(id, _) => c.target == Some(id) && Handled(w.d, c.key, id)
       case StartNext => c.kind.RestartCall? && TargetGone(w, c)
       case NextKey => false
       case Returned(reply) =>
         reply.failures == [] ==> TargetGone(w, c) && (c.kind.RestartCall? ==> Replaced(w.log, c, reply))
  }

  ghost predicate ActiveWithin(d: Daemon, keys: seq<Key>) {
    forall k | k in d.active :: k in keys
  }

  /** Shutdown: as long as nothing was created since the call, what is owned is what is still to be stopped. */
  ghost predicate ShutdownInv(w: World, c: Call) {
    match c.phase
    case Awaiting(id, _) =>
      && c.remaining != [] && Handled(w.d, c.remaining[0], id)
      && (c.failures == [] && NoSpawn(w.log, c.mark) ==>
            && ActiveWithin(w.d, c.remaining)
            && (c.remaining[0] in w.d.active ==> w.d.active[c.remaining[0]] == id))
    case StartNext => false
    case NextKey => c.failures == [] && NoSpawn(w.log, c.mark) ==> ActiveWithin(w.d, c.remaining)
    case Returned(reply) => reply.failures == [] && NoSpawn(w.log, c.mark) ==> w.d.active == map[]
  }

  ghost predicate CallInv(w: World, c: Call) {
    CallBasics(w, c) && if c.kind.ShutdownCall? then ShutdownInv(w, c) else OneKeyInv(w, c)
  }

  ghost predicate WorldInv(w: World) {
    DaemonInv(w) && forall id | id in w.calls :: CallInv(w, w.calls[id])
  }

  // ---------- other clients do not disturb a call ----------

  lemma GoneForGood(w: World, w': World, child: Incarnation)
    requires Progress(w, w') && Gone(w, child) && child.instanceID in w.issued
    ensures Gone(w', child)
  {
    var more := w'.log[|w.log|..];
    assert w'.log == w.log + more;
    forall j | 0 <= j < |more|
      ensures more[j] != Spawned(child.key, child.instanceID)
    {
      assert more[j] == w'.log[|w.log| + j];
    }
    GoneStaysGone(w.log, more, child);
  }

  lemma BasicsFramed(w: World, w': World, c: Call)
    requires Progress(w, w') && CallBasics(w, c)
    ensures CallBasics(w', c)
  {
    forall j | 0 <= j < |w.log|
      ensures w'.log[j] == w.log[j]
    {
    }
  }

  lemma HandledFramed(w: World, w': World, key: Key, id: string)
    requires Progress(w, w') && Handled(w.d, key, id)
    ensures Handled(w'.d, key, id)
  {
  }

  lemma OneKeyFramed(w: World, w': World, c: Call)
    requires Progress(w, w') && CallBasics(w, c) && OneKeyInv(w, c)
    ensures OneKeyInv(w', c)
  {
    if TargetGone(w, c) && c.target.Some? {
      GoneForGood(w, w', Incarnation(c.key, c.target.value));
    }
    match c.phase
    case Awaiting(id, _) => HandledFramed(w, w', c.key, id);
    case Returned(reply) =>
      if reply.failures == [] && c.kind.RestartCall? {
        var j :| ReplacedAt(w.log, c, reply.runtime.value.instanceID, j);
        assert w'.log[..j] == w.log[..j] && w'.log[j] == w.log[j];
        assert ReplacedAt(w'.log, c, reply.runtime.value.instanceID, j);
      }
    case _ =>
  }

  /** Without a new child, ownership only shrinks. */
  lemma OwnershipShrinks(w: World, w': World, mark: nat)
    requires Progress(w, w') && NoSpawn(w'.log, mark) && mark <= |w.log|
    ensures NoSpawn(w.log, mark)
    ensures forall k | k in w'.d.active :: k in w.d.active && w'.d.active[k] == w.d.active[k]
  {
    forall j | mark <= j < |w.log|
      ensures !w.log[j].Spawned?
    {
      assert w'.log[j] == w.log[j];
    }
    assert NoSpawn(w'.log, |w.log|);
  }

  lemma ShutdownFramed(w: World, w': World, c: Call)
    requires Progress(w, w') && CallBasics(w, c) && ShutdownInv(w, c)
    ensures ShutdownInv(w', c)
  {
    if c.phase.Awaiting? {
      HandledFramed(w, w', c.remaining[0], c.phase.instanceID);
    }
    if NoSpawn(w'.log, c.mark) {
      OwnershipShrinks(w, w', c.mark);
      if w.d.active == map[] {
        assert w'.d.active == map[];
      }
    }
  }

  lemma CallFramed(w: World, w': World, c: Call)
    requires Progress(w, w') && CallInv(w, c)
    ensures CallInv(w', c)
  {
    BasicsFramed(w, w', c);
    if c.kind.ShutdownCall? {
      ShutdownFramed(w, w', c);
    } else {
      OneKeyFramed(w, w', c);
    }
  }

  // ---------- a call's own steps ----------

  lemma FinishedIsGone(w: World, child: Incarnation)
    requires DaemonInv(w) && child in w.records && child.instanceID in w.d.finished
    ensures Gone(w, child)
  {
    assert GoodRuntime(w.records[child], w.issued);
    assert child.key in w.d.active ==> w.d.active[child.key] !in w.d.finished;
    if IsCurrent(w.d.registry, child) {
      assert w.records[child] == RuntimeAt(w.d.registry, child.key).value;
    }
  }

  lemma UnownedIsGone(w: World, child: Incarnation)
    requires DaemonInv(w) && child in w.records && child.key !in w.d.active
    ensures Gone(w, child)
  {
    assert GoodRuntime(w.records[child], w.issued);
    if IsCurrent(w.d.registry, child) {
      assert w.records[child] == RuntimeAt(w.d.registry, child.key).value;
    }
  }

  /** The basics of a call made in `w` hold as soon as it is made. */
  lemma NewCallBasics(w: World, w': World, c: Call)
    requires DaemonInv(w) && w'.log == w.log && w.issued <= w'.issued
    requires c.mark == |w.log| && c.known == w.issued
    ensures CallBasics(w', c)
  {
  }

  lemma BeginStopKeeps(w: World, call: nat, kind: Kind, key: Key, fault: Fault)
    requires DaemonInv(w) && Enabled(w, BeginStop(call, kind, key, fault))
    ensures var a := BeginStop(call, kind, key, fault);
            CallInv(Core(w, a), CallStep(w, a).value.1)
  {
    var s := StopSection(w.d, key, fault);
    StopKeeps(w, key, fault);
    FirstStopBegun(w, CommitSection(w, OfStop(s), {}), kind, key, s);
  }

  lemma FirstStopBegun(w: World, w': World, kind: Kind, key: Key, s: StopStep)
    requires DaemonInv(w) && DaemonInv(w') && Progress(w, w') && StopAnswer(w.d, key, s) && !kind.ShutdownCall?
    requires w'.log == w.log + [] && w'.d == s.daemon
    ensures CallInv(w', AfterStopSection(NewCall(w, kind, key, []), s.outcome))
  {
    var c := AfterStopSection(NewCall(w, kind, key, []), s.outcome);
    assert w'.log == w.log;
    NewCallBasics(w, w', c);
    StopBegun(w, w', c, s, key);
  }

  lemma StopBegun(w: World, w': World, c: Call, s: StopStep, key: Key)
    requires DaemonInv(w) && DaemonInv(w') && Progress(w, w') && w'.d == s.daemon && StopAnswer(w.d, key, s)
    requires c == AfterStopSection(NewCall(w, c.kind, key, []), s.outcome) && !c.kind.ShutdownCall?
    ensures OneKeyInv(w', c)
  {
    if c.target.Some? {
      var child := Incarnation(key, c.target.value);
      assert IsCurrent(w.d.registry, child);
      assert GoodRuntime(RuntimeAt(w.d.registry, key).value, w.issued);
      assert child in w'.records;
      if s.outcome.Answered? && s.outcome.reply.failures == [] {
        UnownedIsGone(w', child);
      }
    }
  }

  /** The Stop of a call has answered: without an error, the instance it was about is gone. */
  lemma StopAnswered(w: World, c: Call, reply: Reply)
    requires DaemonInv(w) && CallInv(w, c) && !c.kind.ShutdownCall?
    requires reply.failures == [] ==> TargetGone(w, c)
    ensures CallInv(w, AfterStop(c, reply))
  {
  }

  lemma SeesDoneKeeps(w: World, call: nat)
    requires DaemonInv(w) && Enabled(w, SeesDone(call)) && CallInv(w, w.calls[call])
    ensures CallInv(w, CallStep(w, SeesDone(call)).value.1)
  {
    var c := w.calls[call];
    var reply := StatusReply(w.d, StopKey(c), w.d.finished[c.phase.instanceID]);
    if c.kind.ShutdownCall? {
      ShutdownStopped(w, c, reply);
    } else {
      FinishedIsGone(w, Incarnation(c.key, c.target.value));
      StopAnswered(w, c, reply);
    }
  }

  lemma ShutdownStopped(w: World, c: Call, reply: Reply)
    requires DaemonInv(w) && CallInv(w, c) && c.kind.ShutdownCall? && c.phase.Awaiting?
    requires reply.failures == [] ==> c.phase.instanceID in w.d.finished
    ensures CallInv(w, AfterStop(c, reply))
  {
    var after := AfterStop(c, reply);
    if after.failures == [] && NoSpawn(w.log, c.mark) {
      assert c.failures == [] && reply.failures == [];
      forall k | k in w.d.active
        ensures k in after.remaining
      {
        assert k in c.remaining;
        assert w.d.active[k] !in w.d.finished;
      }
    }
  }

  lemma StopFails(w: World, call: nat, failure: Failure)
    requires DaemonInv(w) && call in w.calls && CallInv(w, w.calls[call]) && w.calls[call].phase.Awaiting?
    ensures var c := w.calls[call];
            CallInv(w, AfterStop(c, StatusReply(w.d, StopKey(c), [failure])))
  {
    var c := w.calls[call];
    var reply := StatusReply(w.d, StopKey(c), [failure]);
    assert reply.failures[0] == failure;
    if c.kind.ShutdownCall? {
      ShutdownStopped(w, c, reply);
    } else {
      StopAnswered(w, c, reply);
    }
  }

  lemma StopNextKeyKeeps(w: World, call: nat, fault: Fault)
    requires DaemonInv(w) && Enabled(w, StopNextKey(call, fault)) && CallInv(w, w.calls[call])
    ensures var a := StopNextKey(call, fault);
            CallInv(Core(w, a), CallStep(w, a).value.1)
  {
    var a := StopNextKey(call, fault);
    var w' := Core(w, a);
    var c := w.calls[call];
    var key := c.remaining[0];
    CoreKeeps(w, a);
    StopKeeps(w, key, fault);
    CallFramed(w, w', c);
    NextStopBegun(w', c, StopSection(w.d, key, fault), w.d);
  }

  lemma NextStopBegun(w: World, c: Call, s: StopStep, before: Daemon)
    requires CallInv(w, c) && c.kind.ShutdownCall? && c.phase.NextKey? && c.remaining != []
    requires w.d == s.daemon && StopAnswer(before, c.remaining[0], s)
    ensures CallInv(w, AfterStopSection(c, s.outcome))
  {
    var after := AfterStopSection(c, s.outcome);
    if after.failures == [] && NoSpawn(w.log, c.mark) && s.outcome.Answered? {
      assert c.failures == [] && s.outcome.reply.failures == [];
      forall k | k in w.d.active
        ensures k in after.remaining
      {
        assert k in c.remaining && k != c.remaining[0];
      }
    }
  }

  lemma RestartStartKeeps(w: World, call: nat, answers: StartAnswers)
    requires DaemonInv(w) && Enabled(w, RestartStart(call, answers)) && CallInv(w, w.calls[call])
    ensures var a := RestartStart(call, answers);
            CallInv(Core(w, a), CallStep(w, a).value.1)
  {
    var a := RestartStart(call, answers);
    var w' := Core(w, a);
    var c := w.calls[call];
    CoreKeeps(w, a);
    StartKeeps(w, c.key, answers);
    CallFramed(w, w', c);
    RestartDone(w', c, StartSection(w.d, c.key, answers));
  }

  /** The Start of a Restart succeeded: what it returns was created when the old instance was gone. */
  lemma RestartDone(w: World, c: Call, s: Section)
    requires DaemonInv(w) && CallInv(w, c) && c.kind.RestartCall? && c.phase.StartNext?
    requires w.d == s.daemon && StartAnswer(s, c.key)
    ensures CallInv(w, c.(phase := Returned(s.reply)))
  {
    if s.reply.failures == [] {
      var id := s.reply.runtime.value.instanceID;
      RestartedIsNew(w, c, s.reply.runtime.value);
      var after := c.(phase := Returned(s.reply));
      var j := SpawnedAfterCall(w, after, id);
      assert Replaced(w.log, after, s.reply);
    }
  }

  lemma SpawnedAfterCall(w: World, c: Call, id: string) returns (j: nat)
    requires CallBasics(w, c) && AtMostOne(w.log)
    requires Spawned(c.key, id) in w.log && id !in c.known && c.target != Some(id)
    ensures ReplacedAt(w.log, c, id, j)
  {
    j :| 0 <= j < |w.log| && w.log[j] == Spawned(c.key, id);
    assert w.log[j].instanceID == id;
    if c.target.Some? {
      OldChildIsGone(w.log, j, c.key, c.target.value, id);
    }
  }

  lemma RestartedIsNew(w: World, c: Call, runtime: ProcessRuntime)
    requires DaemonInv(w) && OneKeyInv(w, c) && c.phase.StartNext?
    requires RuntimeAt(w.d.registry, c.key) == Some(runtime) && runtime.state.IsActive()
    ensures runtime.instanceID !in c.known && c.target != Some(runtime.instanceID)
    ensures Spawned(c.key, runtime.instanceID) in w.log
  {
    assert IsActiveAt(w.d.registry, c.key);
    assert IsCurrent(w.d.registry, Incarnation(c.key, runtime.instanceID));
  }

  /** When a child is created, no other child of its key is live. */
  lemma OldChildIsGone(log: seq<ProcessEvent>, j: nat, key: Key, earlier: string, id: string)
    requires AtMostOne(log) && j < |log| && log[j] == Spawned(key, id) && earlier != id
    ensures Incarnation(key, earlier) !in Live(log[..j])
  {
    assert log[..j + 1] == log[..j] + [log[j]];
    LiveSnoc(log[..j], log[j]);
    assert OnePerKey(Live(log[..j + 1]));
    assert Incarnation(key, id) in Live(log[..j + 1]);
  }

  lemma OwnCallKeeps(w: World, a: Action)
    requires WorldInv(w) && Enabled(w, a) && CallStep(w, a).Some?
    ensures CallInv(Core(w, a), CallStep(w, a).value.1)
  {
    if a.BeginStop? {
      BeginStopKeeps(w, a.call, a.kind, a.key, a.fault);
    } else if a.StopNextKey? {
      StopNextKeyKeeps(w, a.call, a.fault);
    } else if a.RestartStart? {
      RestartStartKeeps(w, a.call, a.answers);
    } else {
      QuietCallKeeps(w, a);
      CoreKeeps(w, a);
      CallFramed(w, Core(w, a), CallStep(w, a).value.1);
    }
  }

  /** The steps of a call outside the critical sections that change something. */
  lemma QuietCallKeeps(w: World, a: Action)
    requires WorldInv(w) && Enabled(w, a) && CallStep(w, a).Some?
    requires !a.BeginStop? && !a.StopNextKey? && !a.RestartStart?
    ensures CallInv(w, CallStep(w, a).value.1)
  {
    if a.BeginShutdown? {
      NewCallBasics(w, w, CallStep(w, a).value.1);
    } else if a.SeesDone? {
      SeesDoneKeeps(w, a.call);
    } else if a.SignalFails? {
      StopFails(w, a.call, SignalFailed);
    } else if a.SeesContextDone? {
      StopFails(w, a.call, ContextDone);
    } else {
      assert CallInv(w, w.calls[a.call]);
    }
  }

  /** Every action keeps the invariant of the whole world. */
  lemma ApplyKeeps(w: World, a: Action)
    requires WorldInv(w) && Enabled(w, a)
    ensures WorldInv(Apply(w, a)) && Progress(w, Apply(w, a))
  {
    CoreKeeps(w, a);
    SameWorldButCalls(w, Core(w, a), Apply(w, a));
    forall id | id in Apply(w, a).calls
      ensures CallInv(Apply(w, a), Apply(w, a).calls[id])
    {
      CallKeeps(w, a, id);
      SameCallInv(Core(w, a), Apply(w, a), Apply(w, a).calls[id]);
    }
  }

  lemma CallKeeps(w: World, a: Action, id: nat)
    requires WorldInv(w) && Enabled(w, a) && id in Apply(w, a).calls
    ensures CallInv(Core(w, a), Apply(w, a).calls[id])
  {
    CallsAfter(w, a, id);
    if CallStep(w, a).Some? && id == CallStep(w, a).value.0 {
      OwnCallKeeps(w, a);
    } else {
      OtherCallKeeps(w, a, id);
    }
  }

  lemma CallsAfter(w: World, a: Action, id: nat)
    requires Enabled(w, a) && id in Apply(w, a).calls
    ensures if CallStep(w, a).Some? && id == CallStep(w, a).value.0 then Apply(w, a).calls[id] == CallStep(w, a).value.1
            else id in w.calls && Apply(w, a).calls[id] == w.calls[id]
  {
  }

  lemma OtherCallKeeps(w: World, a: Action, id: nat)
    requires WorldInv(w) && Enabled(w, a) && id in w.calls
    ensures CallInv(Core(w, a), w.calls[id])
  {
    CoreKeeps(w, a);
    CallFramed(w, Core(w, a), w.calls[id]);
  }

  lemma SameWorldButCalls(w: World, w1: World, w': World)
    requires DaemonInv(w1) && Progress(w, w1) && w' == w1.(calls := w'.calls)
    ensures DaemonInv(w') && Progress(w, w')
  {
  }

  lemma SameCallInv(w1: World, w': World, c: Call)
    requires CallInv(w1, c) && w' == w1.(calls := w'.calls)
    ensures CallInv(w', c)
  {
  }
}
