/** What holds whenever the lock is free, and the five ways in which a section can change the world. */
module LifecycleInvariant {
  import opened Wrappers
  import opened ProcessStates
  import opened Registries
  import opened RegistryDocuments
  import opened RegistryStores
  import opened Lifecycle
  import opened LifecycleWorld

  // ---------- the invariant ----------

  ghost predicate GoodRuntime(runtime: ProcessRuntime, issued: set<string>) {
    runtime.IsConsistent() && runtime.instanceID in issued
  }

  ghost predicate UniqueInstances(registry: Registry) {
    forall j, k | RuntimeAt(registry, j).Some? && RuntimeAt(registry, k).Some?
                  && RuntimeAt(registry, j).value.instanceID == RuntimeAt(registry, k).value.instanceID :: j == k
  }

  /** A registry that Save accepts, with consistent records of distinct, issued instances. */
  ghost predicate GoodRegistry(registry: Registry, issued: set<string>) {
    && IsSavable(registry)
    && (forall k | RuntimeAt(registry, k).Some? :: GoodRuntime(RuntimeAt(registry, k).value, issued))
    && UniqueInstances(registry)
  }

  ghost predicate GoodImage(stored: Option<RegistryDocument>, issued: set<string>) {
    ImageLoads(stored) && GoodRegistry(ImageRegistry(stored), issued)
  }

  /** A runtime is active exactly when `active` owns its key; it is then running or stopping. */
  ghost predicate ActiveInv(d: Daemon) {
    && (forall k :: IsActiveAt(d.registry, k) <==> k in d.active)
    && (forall k | k in d.active ::
          && RuntimeAt(d.registry, k).value.instanceID == d.active[k]
          && !RuntimeAt(d.registry, k).value.state.Starting?
          && k in d.outputs && d.outputs[k] == d.active[k])
  }

  ghost predicate OwnedBy(d: Daemon, child: Incarnation) {
    child.key in d.active && d.active[child.key] == child.instanceID
  }

  /** The live children are the owned ones that were not yet waited for. */
  ghost predicate ProcessInv(w: World) {
    && (forall child :: child in Live(w.log) <==> OwnedBy(w.d, child) && child !in w.exits)
    && (forall child | child in w.exits :: OwnedBy(w.d, child))
  }

  ghost predicate LogInv(w: World) {
    && AtMostOne(w.log)
    && (forall j | 0 <= j < |w.log| :: w.log[j].instanceID in w.issued)
    && (forall k | k in w.d.active :: Spawned(k, w.d.active[k]) in w.log)
  }

  ghost predicate FinishedInv(w: World) {
    && w.d.finished.Keys <= w.issued
    && (forall k | k in w.d.active :: w.d.active[k] !in w.d.finished)
  }

  /** Every incarnation ever seen has a consistent record, which is terminal unless it is the current one. */
  ghost predicate RecordInv(w: World) {
    && (forall child | IsCurrent(w.d.registry, child) ::
          child in w.records && w.records[child] == RuntimeAt(w.d.registry, child.key).value)
    && (forall child | child in w.records ::
          && GoodRuntime(w.records[child], w.issued)
          && w.records[child].instanceID == child.instanceID
          && (w.records[child].state.IsTerminal() || IsCurrent(w.d.registry, child)))
  }

  ghost predicate DaemonInv(w: World) {
    && w.d.limits.bytes > 0 && w.d.limits.events > 0
    && GoodRegistry(w.d.registry, w.issued)
    && GoodImage(w.d.stored, w.issued)
    && ActiveInv(w.d)
    && ProcessInv(w)
    && LogInv(w)
    && FinishedInv(w)
    && RecordInv(w)
  }

  // ---------- what one step may do to another's view ----------

  ghost predicate LogGrows(w: World, w': World) {
    && w.log <= w'.log
    && forall j | |w.log| <= j < |w'.log| && w'.log[j].Spawned? :: w'.log[j].instanceID !in w.issued
  }

  ghost predicate RecordsMove(w: World, w': World) {
    forall child | child in w.records ::
      && child in w'.records
      && (w'.records[child] == w.records[child]
          || CanTransition(w.records[child].state, w'.records[child].state))
  }

  ghost predicate CurrentChanges(w: World, w': World) {
    forall k | CurrentID(w'.d, k).Some? ::
      CurrentID(w'.d, k).value !in w.issued || CurrentID(w'.d, k) == CurrentID(w.d, k)
  }

  ghost predicate ActiveChanges(w: World, w': World) {
    && (forall k | k in w.d.active ::
          (k in w'.d.active && w'.d.active[k] == w.d.active[k]) || w.d.active[k] in w'.d.finished)
    && (forall k | k in w'.d.active ::
          (k in w.d.active && w.d.active[k] == w'.d.active[k]) || !NoSpawn(w'.log, |w.log|))
  }

  /** What every action guarantees to the calls of the other clients. */
  ghost predicate Progress(w: World, w': World) {
    && w.issued <= w'.issued
    && w.d.finished.Keys <= w'.d.finished.Keys
    && LogGrows(w, w')
    && RecordsMove(w, w')
    && CurrentChanges(w, w')
    && ActiveChanges(w, w')
  }

  // ---------- live children ----------

  lemma LiveSnoc(log: seq<ProcessEvent>, e: ProcessEvent)
    ensures Live(log + [e]) == LiveAfter(Live(log), e)
  {
    assert (log + [e])[..|log|] == log;
  }

  lemma AtMostOneSnoc(log: seq<ProcessEvent>, e: ProcessEvent)
    requires AtMostOne(log) && OnePerKey(Live(log + [e]))
    ensures AtMostOne(log + [e])
  {
    forall n | 0 <= n <= |log| + 1
      ensures OnePerKey(Live((log + [e])[..n]))
    {
      if n <= |log| {
        assert (log + [e])[..n] == log[..n];
      } else {
        assert (log + [e])[..n] == log + [e];
      }
    }
  }

  /** A child that is gone stays gone as long as it is not created again. */
  lemma {:induction false} GoneStaysGone(log: seq<ProcessEvent>, more: seq<ProcessEvent>, child: Incarnation)
    requires child !in Live(log)
    requires forall j | 0 <= j < |more| :: more[j] != Spawned(child.key, child.instanceID)
    ensures child !in Live(log + more)
  {
    if more == [] {
      assert log + more == log;
    } else {
      var fewer := more[..|more| - 1];
      GoneStaysGone(log, fewer, child);
      assert log + more == (log + fewer) + [more[|more| - 1]];
      LiveSnoc(log + fewer, more[|more| - 1]);
    }
  }

  /** Nothing is live that was never created. */
  lemma {:induction false} LiveWasSpawned(log: seq<ProcessEvent>, child: Incarnation)
    requires child in Live(log)
    ensures Spawned(child.key, child.instanceID) in log
  {
    var before := log[..|log| - 1];
    if child in Live(before) {
      LiveWasSpawned(before, child);
    }
  }

  // ---------- the five effects ----------

  /** Nothing happens at any key but `key`. */
  ghost predicate OnlyAt(d: Daemon, d': Daemon, key: Key) {
    && d'.limits == d.limits
    && (forall k | k != key ::
          && RuntimeAt(d'.registry, k) == RuntimeAt(d.registry, k)
          && (k in d'.active <==> k in d.active)
          && (k in d.active ==> d'.active[k] == d.active[k])
          && (k in d.active && k in d.outputs ==> k in d'.outputs && d'.outputs[k] == d.outputs[k]))
  }

  /** Runtimes stay as they are; at most an inactive one disappears. */
  ghost predicate Quiet(d: Daemon, d': Daemon) {
    && d'.limits == d.limits && d'.active == d.active && d'.finished == d.finished
    && (forall k :: RuntimeAt(d'.registry, k) == RuntimeAt(d.registry, k)
                    || (RuntimeAt(d'.registry, k).None? && !IsActiveAt(d.registry, k)))
    && (forall k | k in d.active && k in d.outputs :: k in d'.outputs && d'.outputs[k] == d.outputs[k])
  }

  /** A new runtime that ended before anybody could own it. */
  ghost predicate NeverRan(d: Daemon, d': Daemon, key: Key, id: string) {
    && OnlyAt(d, d', key)
    && d'.active == d.active && d'.finished == d.finished
    && !IsActiveAt(d.registry, key)
    && RuntimeAt(d'.registry, key).Some?
    && RuntimeAt(d'.registry, key).value.instanceID == id
    && RuntimeAt(d'.registry, key).value.state.IsTerminal()
  }

  /** A new runtime that is running and owned. */
  ghost predicate Launched(d: Daemon, d': Daemon, key: Key, id: string) {
    && OnlyAt(d, d', key)
    && d'.active == d.active[key := id] && d'.outputs == d.outputs[key := id] && d'.finished == d.finished
    && !IsActiveAt(d.registry, key)
    && RuntimeAt(d'.registry, key).Some?
    && RuntimeAt(d'.registry, key).value.instanceID == id
    && RuntimeAt(d'.registry, key).value.state.Running?
  }

  /** The runtime of a key moves on without changing hands. */
  ghost predicate SameInstance(d: Daemon, d': Daemon, key: Key) {
    && RuntimeAt(d.registry, key).Some? && RuntimeAt(d'.registry, key).Some?
    && RuntimeAt(d'.registry, key).value.instanceID == RuntimeAt(d.registry, key).value.instanceID
    && CanTransition(RuntimeAt(d.registry, key).value.state, RuntimeAt(d'.registry, key).value.state)
  }

  ghost predicate StopRequested(d: Daemon, d': Daemon, key: Key) {
    && OnlyAt(d, d', key)
    && d'.active == d.active && d'.outputs == d.outputs && d'.finished == d.finished
    && key in d.active
    && SameInstance(d, d', key)
    && RuntimeAt(d'.registry, key).value.state.Stopping?
  }

  ghost predicate Ended(d: Daemon, d': Daemon, key: Key) {
    && OnlyAt(d, d', key)
    && key in d.active
    && d'.active == d.active - {key} && d'.outputs == d.outputs
    && d'.finished.Keys == d.finished.Keys + {d.active[key]}
    && SameInstance(d, d', key)
    && RuntimeAt(d'.registry, key).value.state.IsTerminal()
  }

  /** The registry and the file after a section are both good. */
  ghost predicate GoodData(d: Daemon, issued: set<string>) {
    GoodRegistry(d.registry, issued) && GoodImage(d.stored, issued)
  }

  // ---------- every effect keeps the ownership rule ----------

  lemma QuietActive(d: Daemon, d': Daemon)
    requires ActiveInv(d) && Quiet(d, d')
    ensures ActiveInv(d')
  {
    forall k
      ensures IsActiveAt(d'.registry, k) <==> k in d'.active
    {
      assert RuntimeAt(d'.registry, k) == RuntimeAt(d.registry, k)
             || (RuntimeAt(d'.registry, k).None? && !IsActiveAt(d.registry, k));
    }
  }

  lemma NeverRanActive(d: Daemon, d': Daemon, key: Key, id: string)
    requires ActiveInv(d) && NeverRan(d, d', key, id)
    ensures ActiveInv(d')
  {
  }

  lemma LaunchedActive(d: Daemon, d': Daemon, key: Key, id: string)
    requires ActiveInv(d) && Launched(d, d', key, id)
    ensures ActiveInv(d')
  {
    forall k
      ensures IsActiveAt(d'.registry, k) <==> k in d'.active
    {
      if k != key {
        assert RuntimeAt(d'.registry, k) == RuntimeAt(d.registry, k);
      }
    }
  }

  lemma StopRequestedActive(d: Daemon, d': Daemon, key: Key)
    requires ActiveInv(d) && StopRequested(d, d', key)
    ensures ActiveInv(d')
  {
  }

  lemma EndedActive(d: Daemon, d': Daemon, key: Key)
    requires ActiveInv(d) && Ended(d, d', key)
    ensures ActiveInv(d')
  {
    forall k
      ensures IsActiveAt(d'.registry, k) <==> k in d'.active
    {
      if k != key {
        assert RuntimeAt(d'.registry, k) == RuntimeAt(d.registry, k);
      }
    }
  }

  // ---------- every effect keeps the records ----------

  /** Active runtimes keep their hands, and a runtime that replaces another is a new instance. */
  ghost predicate Handover(w: World, d: Daemon) {
    && (forall k | IsActiveAt(w.d.registry, k) ::
          RuntimeAt(d.registry, k) == RuntimeAt(w.d.registry, k) || SameInstance(w.d, d, k))
    && (forall k | RuntimeAt(d.registry, k).Some? && !IsActiveAt(w.d.registry, k) ::
          RuntimeAt(d.registry, k) == RuntimeAt(w.d.registry, k)
          || RuntimeAt(d.registry, k).value.instanceID !in w.issued)
  }

  lemma KeepsRecords(w: World, w': World)
    requires RecordInv(w) && GoodRegistry(w.d.registry, w.issued) && GoodRegistry(w'.d.registry, w'.issued)
    requires w'.records == Recorded(w.records, w'.d.registry) && w.issued <= w'.issued
    requires Handover(w, w'.d)
    ensures RecordInv(w') && RecordsMove(w, w') && CurrentChanges(w, w')
  {
    forall child
      ensures IsCurrent(w'.d.registry, child) ==>
                child in w'.records && w'.records[child] == RuntimeAt(w'.d.registry, child.key).value
    {
      RecordedAt(w.records, w'.d.registry, child);
    }
    forall child | child in w'.records
      ensures GoodRuntime(w'.records[child], w'.issued)
      ensures w'.records[child].instanceID == child.instanceID
      ensures w'.records[child].state.IsTerminal() || IsCurrent(w'.d.registry, child)
    {
      OneRecord(w, w', child);
    }
    forall child | child in w.records
      ensures child in w'.records
      ensures w'.records[child] == w.records[child] || CanTransition(w.records[child].state, w'.records[child].state)
    {
      OneMove(w, w', child);
    }
    assert CurrentChanges(w, w') by {
      CurrentHandedOver(w, w');
    }
  }

  lemma OneRecord(w: World, w': World, child: Incarnation)
    requires RecordInv(w) && GoodRegistry(w.d.registry, w.issued) && GoodRegistry(w'.d.registry, w'.issued)
    requires w'.records == Recorded(w.records, w'.d.registry) && w.issued <= w'.issued
    requires Handover(w, w'.d) && child in w'.records
    ensures GoodRuntime(w'.records[child], w'.issued)
    ensures w'.records[child].instanceID == child.instanceID
    ensures w'.records[child].state.IsTerminal() || IsCurrent(w'.d.registry, child)
  {
    RecordedAt(w.records, w'.d.registry, child);
    if !IsCurrent(w'.d.registry, child) {
      assert GoodRuntime(w.records[child], w.issued);
      assert IsActiveAt(w.d.registry, child.key) ==>
          RuntimeAt(w'.d.registry, child.key) == RuntimeAt(w.d.registry, child.key) || SameInstance(w.d, w'.d, child.key);
    }
  }

  lemma OneMove(w: World, w': World, child: Incarnation)
    requires RecordInv(w) && GoodRegistry(w.d.registry, w.issued)
    requires w'.records == Recorded(w.records, w'.d.registry)
    requires Handover(w, w'.d) && child in w.records
    ensures child in w'.records
    ensures w'.records[child] == w.records[child] || CanTransition(w.records[child].state, w'.records[child].state)
  {
    RecordedAt(w.records, w'.d.registry, child);
    assert GoodRuntime(w.records[child], w.issued);
    if IsCurrent(w'.d.registry, child) {
      assert RuntimeAt(w'.d.registry, child.key).value.instanceID in w.issued;
    }
  }

  lemma CurrentHandedOver(w: World, w': World)
    requires Handover(w, w'.d)
    ensures CurrentChanges(w, w')
  {
    forall k | CurrentID(w'.d, k).Some?
      ensures CurrentID(w'.d, k).value !in w.issued || CurrentID(w'.d, k) == CurrentID(w.d, k)
    {
      if IsActiveAt(w.d.registry, k) {
        assert RuntimeAt(w'.d.registry, k) == RuntimeAt(w.d.registry, k) || SameInstance(w.d, w'.d, k);
      }
    }
  }

  /** A runtime that is owned and moves on is handed to nobody else. */
  lemma MoveHandover(w: World, d: Daemon, key: Key)
    requires OnlyAt(w.d, d, key) && SameInstance(w.d, d, key) && IsActiveAt(w.d.registry, key)
    ensures Handover(w, d)
  {
  }

  // ---------- processes ----------

  lemma SameProcesses(w: World, w': World)
    requires ProcessInv(w) && LogInv(w)
    requires w'.log == w.log && w'.exits == w.exits && w'.d.active == w.d.active && w.issued <= w'.issued
    ensures ProcessInv(w') && LogInv(w') && LogGrows(w, w')
  {
    forall child
      ensures OwnedBy(w'.d, child) <==> OwnedBy(w.d, child)
    {
    }
  }

  lemma NotLiveYet(w: World, child: Incarnation)
    requires LogInv(w) && child.instanceID !in w.issued
    ensures child !in Live(w.log)
  {
    if child in Live(w.log) {
      LiveWasSpawned(w.log, child);
    }
  }

  lemma OneNow(w: World)
    requires AtMostOne(w.log)
    ensures OnePerKey(Live(w.log))
  {
    assert OnePerKey(Live(w.log[..|w.log|])) && w.log[..|w.log|] == w.log;
  }

  /** Creating a child for a key that owns nothing keeps the one-child rule. */
  lemma SpawnKeepsOne(w: World, key: Key, id: string)
    requires ProcessInv(w) && AtMostOne(w.log) && key !in w.d.active
    ensures AtMostOne(w.log + [Spawned(key, id)])
  {
    LiveSnoc(w.log, Spawned(key, id));
    OneNow(w);
    forall a | a in Live(w.log)
      ensures a.key != key
    {
      assert OwnedBy(w.d, a);
    }
    AtMostOneSnoc(w.log, Spawned(key, id));
  }

  lemma SpawnedAndReaped(w: World, w': World, key: Key, id: string)
    requires ProcessInv(w) && LogInv(w) && key !in w.d.active && id !in w.issued
    requires w'.log == w.log + [Spawned(key, id), Reaped(key, id)]
    requires w'.exits == w.exits && w'.d.active == w.d.active && w'.issued == w.issued + {id}
    ensures ProcessInv(w') && LogInv(w') && LogGrows(w, w')
  {
    var once := w.log + [Spawned(key, id)];
    NotLiveYet(w, Incarnation(key, id));
    LiveSnoc(w.log, Spawned(key, id));
    LiveSnoc(once, Reaped(key, id));
    assert w'.log == once + [Reaped(key, id)];
    assert Live(w'.log) == Live(w.log);
    SpawnKeepsOne(w, key, id);
    OneNow(w);
    AtMostOneSnoc(once, Reaped(key, id));
    forall child
      ensures OwnedBy(w'.d, child) <==> OwnedBy(w.d, child)
    {
    }
    forall k | k in w'.d.active
      ensures Spawned(k, w'.d.active[k]) in w'.log
    {
      assert Spawned(k, w.d.active[k]) in w.log;
    }
  }

  lemma SpawnedAndOwned(w: World, w': World, key: Key, id: string)
    requires ProcessInv(w) && LogInv(w) && key !in w.d.active && id !in w.issued
    requires w'.log == w.log + [Spawned(key, id)]
    requires w'.exits == w.exits && w'.d.active == w.d.active[key := id] && w'.issued == w.issued + {id}
    ensures ProcessInv(w') && LogInv(w') && LogGrows(w, w') && ActiveChanges(w, w')
  {
    SpawnLogged(w, w', key, id);
    LiveSnoc(w.log, Spawned(key, id));
    forall child
      ensures child in Live(w'.log) <==> OwnedBy(w'.d, child) && child !in w'.exits
    {
      if child.key == key {
        assert !OwnedBy(w.d, child);
      } else {
        assert OwnedBy(w'.d, child) <==> OwnedBy(w.d, child);
      }
    }
  }

  lemma SpawnLogged(w: World, w': World, key: Key, id: string)
    requires ProcessInv(w) && LogInv(w) && key !in w.d.active && id !in w.issued
    requires w'.log == w.log + [Spawned(key, id)]
    requires w'.d.active == w.d.active[key := id] && w'.issued == w.issued + {id}
    ensures LogInv(w') && LogGrows(w, w') && ActiveChanges(w, w')
  {
    SpawnKeepsOne(w, key, id);
    assert w'.log[|w.log|] == Spawned(key, id);
    forall k | k in w'.d.active
      ensures Spawned(k, w'.d.active[k]) in w'.log
    {
      if k != key {
        assert Spawned(k, w.d.active[k]) in w.log;
      }
    }
    assert !NoSpawn(w'.log, |w.log|);
  }

  lemma ReapedAndRecorded(w: World, w': World, key: Key)
    requires ProcessInv(w) && LogInv(w) && key in w.d.active
    requires Incarnation(key, w.d.active[key]) in w.exits
    requires w'.log == w.log && w'.issued == w.issued
    requires w'.d.active == w.d.active - {key} && w'.exits == w.exits - {Incarnation(key, w.d.active[key])}
    ensures ProcessInv(w') && LogInv(w') && LogGrows(w, w')
  {
    var child := Incarnation(key, w.d.active[key]);
    forall other
      ensures other in Live(w'.log) <==> OwnedBy(w'.d, other) && other !in w'.exits
    {
      if other.key == key {
        assert OwnedBy(w.d, other) ==> other == child;
      } else {
        assert OwnedBy(w'.d, other) <==> OwnedBy(w.d, other);
      }
    }
    forall other | other in w'.exits
      ensures OwnedBy(w'.d, other)
    {
      assert OwnedBy(w.d, other);
    }
  }

  // ---------- every effect keeps the invariant ----------

  lemma Committed(w: World, d: Daemon, events: seq<ProcessEvent>, ids: set<string>) returns (w': World)
    ensures w' == Commit(w, d, events, ids)
    ensures w'.d == d && w'.log == w.log + events && w'.issued == w.issued + ids && w'.exits == w.exits
    ensures w'.records == Recorded(w.records, d.registry)
    ensures events == [] ==> w'.log == w.log
    ensures ids == {} ==> w'.issued == w.issued
  {
    w' := Commit(w, d, events, ids);
  }

  lemma QuietKeeps(w: World, d: Daemon, ids: set<string>)
    requires DaemonInv(w) && Quiet(w.d, d) && GoodData(d, w.issued + ids)
    ensures DaemonInv(Commit(w, d, [], ids))
    ensures Progress(w, Commit(w, d, [], ids))
  {
    var w' := Committed(w, d, [], ids);
    assert Handover(w, d) by {
      forall k
        ensures RuntimeAt(d.registry, k) == RuntimeAt(w.d.registry, k)
                || (RuntimeAt(d.registry, k).None? && !IsActiveAt(w.d.registry, k))
      {
      }
    }
    KeepsRecords(w, w');
    QuietActive(w.d, d);
    SameProcesses(w, w');
  }

  lemma StopRequestedKeeps(w: World, d: Daemon, key: Key)
    requires DaemonInv(w) && StopRequested(w.d, d, key) && GoodData(d, w.issued)
    ensures DaemonInv(Commit(w, d, [], {}))
    ensures Progress(w, Commit(w, d, [], {}))
  {
    var w' := Committed(w, d, [], {});
    MoveKeepsRecords(w, w', key);
    StopRequestedActive(w.d, d, key);
    SameProcesses(w, w');
  }

  lemma NeverRanKeeps(w: World, d: Daemon, key: Key, id: string, events: seq<ProcessEvent>)
    requires DaemonInv(w) && NeverRan(w.d, d, key, id) && id !in w.issued && GoodData(d, w.issued + {id})
    requires events == [] || events == [Spawned(key, id), Reaped(key, id)]
    ensures DaemonInv(Commit(w, d, events, {id}))
    ensures Progress(w, Commit(w, d, events, {id}))
  {
    var w' := Committed(w, d, events, {id});
    assert Handover(w, d);
    KeepsRecords(w, w');
    NeverRanActive(w.d, d, key, id);
    if events == [] {
      SameProcesses(w, w');
    } else {
      assert key !in w.d.active;
      SpawnedAndReaped(w, w', key, id);
    }
  }

  lemma LaunchedKeeps(w: World, d: Daemon, key: Key, id: string)
    requires DaemonInv(w) && Launched(w.d, d, key, id) && id !in w.issued && GoodData(d, w.issued + {id})
    ensures DaemonInv(Commit(w, d, [Spawned(key, id)], {id}))
    ensures Progress(w, Commit(w, d, [Spawned(key, id)], {id}))
  {
    var w' := Committed(w, d, [Spawned(key, id)], {id});
    assert Handover(w, d);
    KeepsRecords(w, w');
    LaunchedActive(w.d, d, key, id);
    assert key !in w.d.active;
    SpawnedAndOwned(w, w', key, id);
  }

  /** The exit of the key's child is on record: its observer's section ends, and the exit is dropped. */
  lemma EndedKeeps(w: World, w': World, key: Key)
    requires DaemonInv(w) && Ended(w.d, w'.d, key) && GoodData(w'.d, w.issued)
    requires Incarnation(key, w.d.active[key]) in w.exits
    requires w'.exits == w.exits - {Incarnation(key, w.d.active[key])}
    requires w'.log == w.log && w'.issued == w.issued && w'.records == Recorded(w.records, w'.d.registry)
    ensures DaemonInv(w') && Progress(w, w')
  {
    MoveKeepsRecords(w, w', key);
    EndedActive(w.d, w'.d, key);
    ReapedAndRecorded(w, w', key);
    EndedFinished(w, w', key);
  }

  lemma MoveKeepsRecords(w: World, w': World, key: Key)
    requires ActiveInv(w.d) && RecordInv(w)
    requires GoodRegistry(w.d.registry, w.issued) && GoodRegistry(w'.d.registry, w'.issued)
    requires OnlyAt(w.d, w'.d, key) && SameInstance(w.d, w'.d, key) && key in w.d.active
    requires w'.records == Recorded(w.records, w'.d.registry) && w'.issued == w.issued
    ensures RecordInv(w') && RecordsMove(w, w') && CurrentChanges(w, w')
  {
    MoveHandover(w, w'.d, key);
    KeepsRecords(w, w');
  }

  lemma EndedFinished(w: World, w': World, key: Key)
    requires FinishedInv(w) && ActiveInv(w.d) && GoodRegistry(w.d.registry, w.issued)
    requires Ended(w.d, w'.d, key) && w'.issued == w.issued
    ensures FinishedInv(w') && ActiveChanges(w, w')
  {
    assert GoodRuntime(RuntimeAt(w.d.registry, key).value, w.issued);
    forall k | k in w'.d.active
      ensures w'.d.active[k] !in w'.d.finished
    {
      assert k != key && w'.d.active[k] == w.d.active[k];
      assert RuntimeAt(w.d.registry, k).value.instanceID == w.d.active[k];
      assert RuntimeAt(w.d.registry, key).value.instanceID == w.d.active[key];
    }
  }

  /** A child exits and is waited for, outside the lock. */
  lemma ExitKeeps(w: World, child: Incarnation, exit: Exit)
    requires DaemonInv(w) && child in Live(w.log)
    ensures var w' := w.(log := w.log + [Reaped(child.key, child.instanceID)], exits := w.exits[child := exit]);
            DaemonInv(w') && Progress(w, w')
  {
    var w' := w.(log := w.log + [Reaped(child.key, child.instanceID)], exits := w.exits[child := exit]);
    ExitProcesses(w, w', child, exit);
    assert RecordInv(w') && RecordsMove(w, w');
  }

  lemma ExitProcesses(w: World, w': World, child: Incarnation, exit: Exit)
    requires ProcessInv(w) && LogInv(w) && child in Live(w.log)
    requires w' == w.(log := w.log + [Reaped(child.key, child.instanceID)], exits := w.exits[child := exit])
    ensures ProcessInv(w') && LogInv(w') && LogGrows(w, w')
  {
    var e := Reaped(child.key, child.instanceID);
    LiveSnoc(w.log, e);
    LiveWasSpawned(w.log, child);
    OneNow(w);
    AtMostOneSnoc(w.log, e);
    assert w'.log[|w.log|] == e;
    forall other
      ensures OwnedBy(w'.d, other) <==> OwnedBy(w.d, other)
    {
    }
    forall k | k in w'.d.active
      ensures Spawned(k, w'.d.active[k]) in w'.log
    {
      assert Spawned(k, w.d.active[k]) in w.log;
    }
  }
}
