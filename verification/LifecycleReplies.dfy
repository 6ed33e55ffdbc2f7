/** Which runtime a Stop returns. */
module LifecycleReplies {
  import opened Wrappers
  import opened ProcessStates
  import opened Registries
  import opened RegistryDocuments
  import opened RegistryStores
  import opened Lifecycle
  import opened LifecycleWorld
  import opened LifecycleInvariant
  import opened LifecycleSections
  import opened LifecycleCalls
  import opened LifecycleRuns

  /**
   * The returned runtime is terminal exactly if the key is not owned at that moment. Without an error, a runtime that
   * is not terminal is an instance newer than the call; and no runtime at all means that the process was defined anew.
   */
  ghost predicate StopReport(d: Daemon, c: Call, reply: Reply) {
    && (reply.runtime.Some? ==> (reply.runtime.value.state.IsTerminal() <==> c.key !in d.active))
    && (reply.runtime.Some? && reply.runtime.value.instanceID != "" ==> reply.runtime == RuntimeAt(d.registry, c.key))
    && (reply.failures == [] && reply.runtime.Some? && !reply.runtime.value.state.IsTerminal() ==>
          reply.runtime.value.instanceID !in c.known && OwnedBy(d, Incarnation(c.key, reply.runtime.value.instanceID)))
    && (reply.failures == [] && reply.runtime.None? ==> c.target.Some? && CurrentID(d, c.key).None?)
  }

  ghost predicate Returns(ws: seq<World>, i: int, call: nat, reply: Reply)
    requires 0 <= i < |ws| - 1
  {
    InPhase(ws[i + 1], call, StopCall, Returned(reply)) && !InPhase(ws[i], call, StopCall, Returned(reply))
  }

  /** In every history this holds of every Stop at the moment at which it returns, whichever way it does. */
  lemma StopReports(ws: seq<World>, events: seq<Event>, i: nat, call: nat, reply: Reply)
    requires IsHistory(ws, events) && StartsFresh(ws[0]) && i < |events| && Returns(ws, i, call, reply)
    ensures StopReport(ws[i + 1].d, ws[i + 1].calls[call], reply)
  {
    HistoryKeeps(ws, events, i);
    HistoryKeeps(ws, events, i + 1);
    assert IsStep(ws, events, i);
    EventReports(ws[i], events[i], ws[i + 1], call, reply);
  }

  lemma EventReports(w: World, e: Event, w': World, call: nat, reply: Reply)
    requires WorldInv(w) && CanHappen(w, e) && w' == After(w, e) && WorldInv(w')
    requires InPhase(w', call, StopCall, Returned(reply)) && !InPhase(w, call, StopCall, Returned(reply))
    ensures StopReport(w'.d, w'.calls[call], reply)
  {
    match e
    case Act(a) => ActionReports(w, a, w', call, reply);
    case Die(_) =>
    case OrphanEnds(_) =>
  }

  lemma ActionReports(w: World, a: Action, w': World, call: nat, reply: Reply)
    requires WorldInv(w) && Enabled(w, a) && w' == Apply(w, a) && WorldInv(w')
    requires InPhase(w', call, StopCall, Returned(reply)) && !InPhase(w, call, StopCall, Returned(reply))
    ensures StopReport(w'.d, w'.calls[call], reply)
  {
    var c := w'.calls[call];
    CallMoved(w, a, call);
    assert CallInv(w', c);
    if a.BeginStop? {
      BegunReports(w, a, w', c, reply);
    } else {
      var failures := StatusReported(w, a, call, reply);
      assert CallInv(w, w.calls[call]);
      StatusReports(w', c, failures, reply);
    }
  }

  lemma BegunReports(w: World, a: Action, w': World, c: Call, reply: Reply)
    requires DaemonInv(w) && Enabled(w, a) && a.BeginStop? && w' == Apply(w, a)
    requires CallStep(w, a) == Some((a.call, c)) && c.kind.StopCall? && c.phase == Returned(reply)
    ensures StopReport(w'.d, c, reply)
  {
    BegunCall(w, a, w', c, reply, StopSection(w.d, a.key, a.fault));
    BeginStopReports(w, a.key, a.fault, w'.d, c, reply);
  }

  lemma BegunCall(w: World, a: Action, w': World, c: Call, reply: Reply, s: StopStep)
    requires Enabled(w, a) && a.BeginStop? && w' == Apply(w, a) && s == StopSection(w.d, a.key, a.fault)
    requires CallStep(w, a) == Some((a.call, c)) && c.kind.StopCall? && c.phase == Returned(reply)
    ensures c.key == a.key && w'.d == s.daemon && s.outcome == Answered(reply)
  {
    assert c == AfterStopSection(NewCall(w, a.kind, a.key, []), s.outcome);
    assert SectionOf(w, a) == OfStop(s);
  }

  lemma CallMoved(w: World, a: Action, call: nat)
    requires Enabled(w, a) && call in Apply(w, a).calls
    requires call !in w.calls || Apply(w, a).calls[call] != w.calls[call]
    ensures CallStep(w, a) == Some((call, Apply(w, a).calls[call]))
  {
  }

  /** Apart from the section that answers at once, a Stop returns the current runtime of its key. */
  lemma StatusReported(w: World, a: Action, call: nat, reply: Reply) returns (failures: seq<Failure>)
    requires Enabled(w, a) && !a.BeginStop? && InPhase(Apply(w, a), call, StopCall, Returned(reply))
    requires CallStep(w, a) == Some((call, Apply(w, a).calls[call]))
    ensures Apply(w, a).d == w.d && reply == StatusReply(w.d, Apply(w, a).calls[call].key, failures)
    ensures call in w.calls && w.calls[call].phase.Awaiting?
    ensures Apply(w, a).calls[call] == w.calls[call].(phase := Returned(reply))
  {
    failures := if a.SeesDone? then w.d.finished[w.calls[call].phase.instanceID]
                else if a.SignalFails? then [SignalFailed]
                else [ContextDone];
  }

  lemma StatusReports(w: World, c: Call, failures: seq<Failure>, reply: Reply)
    requires DaemonInv(w) && CallInv(w, c) && c.kind.StopCall? && c.phase == Returned(reply) && c.target.Some?
    requires reply == StatusReply(w.d, c.key, failures)
    ensures StopReport(w.d, c, reply)
  {
    if reply.runtime.Some? {
      var runtime := reply.runtime.value;
      assert RuntimeAt(w.d.registry, c.key) == Some(runtime) && GoodRuntime(runtime, w.issued);
      if reply.failures == [] {
        NewerUnlessTerminal(w, c, runtime);
      }
    }
  }

  lemma NewerUnlessTerminal(w: World, c: Call, runtime: ProcessRuntime)
    requires DaemonInv(w) && OneKeyInv(w, c) && TargetGone(w, c) && RuntimeAt(w.d.registry, c.key) == Some(runtime)
    ensures runtime.state.IsTerminal() || runtime.instanceID !in c.known
  {
    var child := Incarnation(c.key, runtime.instanceID);
    assert IsCurrent(w.d.registry, child);
    assert child in w.records && w.records[child] == runtime;
  }

  lemma BeginStopReports(w: World, key: Key, fault: Fault, d: Daemon, c: Call, reply: Reply)
    requires DaemonInv(w) && d == StopSection(w.d, key, fault).daemon && c.key == key
    requires StopSection(w.d, key, fault).outcome == Answered(reply)
    ensures StopReport(d, c, reply)
  {
    if !IsActiveAt(w.d.registry, key) && RuntimeAt(w.d.registry, key).Some? {
      assert GoodRuntime(RuntimeAt(w.d.registry, key).value, w.issued);
    }
  }

  /** So a Stop returns a terminal runtime, if any, unless the process was started again since it was called. */
  lemma StopReturnsTerminal(ws: seq<World>, events: seq<Event>, i: nat, call: nat, reply: Reply)
    requires IsHistory(ws, events) && StartsFresh(ws[0]) && i < |events| && Returns(ws, i, call, reply)
    requires reply.failures == [] && reply.runtime.Some?
    ensures var w := ws[i + 1];
            reply.runtime.value.state.IsTerminal() || StartedSince(w.log, w.calls[call])
  {
    HistoryKeeps(ws, events, i + 1);
    StopReports(ws, events, i, call, reply);
    var w := ws[i + 1];
    if !reply.runtime.value.state.IsTerminal() {
      OwnedWasStarted(w, w.calls[call], reply.runtime.value.instanceID);
    }
  }

  ghost predicate StartedSince(log: seq<ProcessEvent>, c: Call) {
    exists j :: c.mark <= j < |log| && log[j].Spawned? && log[j].key == c.key
  }

  lemma OwnedWasStarted(w: World, c: Call, id: string)
    requires LogInv(w) && CallBasics(w, c) && OwnedBy(w.d, Incarnation(c.key, id)) && id !in c.known
    ensures StartedSince(w.log, c)
  {
    var j :| 0 <= j < |w.log| && w.log[j] == Spawned(c.key, id);
    assert w.log[j].instanceID == id;
  }
}
