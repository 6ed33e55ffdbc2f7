/**
 * The lifecycle manager among concurrent clients, exiting children and crashes: every action is one critical
 * section, or something that happens outside the lock.
 */
module LifecycleWorld {
  import opened Wrappers
  import opened ProcessStates
  import opened Registries
  import opened RegistryDocuments
  import opened RegistryStores
  import opened Lifecycle

  /** One start attempt of one process. */
  datatype Incarnation = Incarnation(key: Key, instanceID: string)

  datatype Kind = StopCall | RestartCall | ShutdownCall

  /** Where a call that spans several sections has got to. */
  datatype Phase =
    | Awaiting(instanceID: string, signal: bool)
    | StartNext
    | NextKey
    | Returned(reply: Reply)

  /**
   * A call that spans several sections. For reasoning only: `mark` is the length of the log when the call was made,
   * `known` the instance IDs issued by then, `target` the instance its key had then.
   */
  datatype Call = Call(
    kind: Kind,
    key: Key,
    phase: Phase,
    remaining: seq<Key>,
    failures: seq<Failure>,
    mark: nat,
    known: set<string>,
    target: Option<string>)

  /**
   * `log` lists what happened to operating-system processes since this daemon came up, `orphans` are the children that
   * outlived earlier daemons, `issued` is every instance ID ever handed out, `exits` are the children that were waited
   * for but not yet recorded, and `records` the latest visible record of every incarnation.
   */
  datatype World = World(
    d: Daemon,
    log: seq<ProcessEvent>,
    orphans: set<Incarnation>,
    issued: set<string>,
    exits: map<Incarnation, Exit>,
    records: map<Incarnation, ProcessRuntime>,
    calls: map<nat, Call>)

  // ---------- processes that exist ----------

  ghost function LiveAfter(live: set<Incarnation>, e: ProcessEvent): set<Incarnation> {
    if e.Spawned? then live + {Incarnation(e.key, e.instanceID)} else live - {Incarnation(e.key, e.instanceID)}
  }

  /** Children that were created and not yet waited for. */
  ghost function Live(log: seq<ProcessEvent>): set<Incarnation> {
    if log == [] then {} else LiveAfter(Live(log[..|log| - 1]), log[|log| - 1])
  }

  ghost predicate OnePerKey(live: set<Incarnation>) {
    forall a, b | a in live && b in live && a.key == b.key :: a == b
  }

  /** At every moment, inside critical sections too, each key has at most one live child. */
  ghost predicate AtMostOne(log: seq<ProcessEvent>) {
    forall n | 0 <= n <= |log| :: OnePerKey(Live(log[..n]))
  }

  ghost predicate NoSpawn(log: seq<ProcessEvent>, from: nat) {
    forall j | from <= j < |log| :: !log[j].Spawned?
  }

  // ---------- actions ----------

  datatype Action =
    | Start(key: Key, answers: StartAnswers)
    | BeginStop(call: nat, kind: Kind, key: Key, fault: Fault)
    | BeginShutdown(call: nat, keys: seq<Key>)
    | StopNextKey(call: nat, fault: Fault)
    | FinishShutdown(call: nat)
    | SignalSent(call: nat)
    | SignalFails(call: nat)
    | SeesDone(call: nat)
    | SeesContextDone(call: nat)
    | RestartStart(call: nat, answers: StartAnswers)
    | ChildExits(child: Incarnation, exit: Exit)
    | Observe(child: Incarnation, at: Time, fault: Fault)
    | AddProject(project: ProjectDefinition, isDirectory: bool, fault: Fault)
    | RemoveProject(projectID: string, fault: Fault)
    | AddProcess(process: ProcessDefinition, isDirectory: bool, fault: Fault)
    | RemoveProcess(key: Key, fault: Fault)

  /** Instance IDs are fresh, PIDs positive. */
  predicate Plausible(w: World, answers: StartAnswers) {
    && (answers.newID.Some? ==> answers.newID.value != "" && answers.newID.value !in w.issued)
    && (answers.pid.Some? ==> answers.pid.value > 0)
  }

  predicate InPhase(w: World, call: nat, kind: Kind, phase: Phase) {
    call in w.calls && w.calls[call].kind == kind && w.calls[call].phase == phase
  }

  predicate IsAwaiting(w: World, call: nat, signal: bool) {
    call in w.calls && w.calls[call].phase.Awaiting? && w.calls[call].phase.signal == signal
  }

  ghost predicate Enabled(w: World, a: Action) {
    match a
    case Start(_, answers) => Plausible(w, answers)
    case BeginStop(call, kind, _, _) => call !in w.calls && !kind.ShutdownCall?
    case BeginShutdown(call, keys) =>
      call !in w.calls && (forall k :: k in keys <==> k in w.d.active)
      && forall i, j :: 0 <= i < j < |keys| ==> keys[i] != keys[j]
    case StopNextKey(call, _) => InPhase(w, call, ShutdownCall, NextKey) && w.calls[call].remaining != []
    case FinishShutdown(call) => InPhase(w, call, ShutdownCall, NextKey) && w.calls[call].remaining == []
    case SignalSent(call) => IsAwaiting(w, call, true)
    case SignalFails(call) => IsAwaiting(w, call, true)
    case SeesDone(call) => IsAwaiting(w, call, false) && w.calls[call].phase.instanceID in w.d.finished
    case SeesContextDone(call) => IsAwaiting(w, call, false)
    case RestartStart(call, answers) => InPhase(w, call, RestartCall, StartNext) && Plausible(w, answers)
    case ChildExits(child, _) => child in Live(w.log)
    case Observe(child, _, _) => child in w.exits
    case AddProject(_, _, _) => true
    case RemoveProject(_, _) => true
    case AddProcess(_, _, _) => true
    case RemoveProcess(_, _) => true
  }

  function NewIDs(answers: StartAnswers): set<string> {
    if answers.newID.Some? then {answers.newID.value} else {}
  }

  /** The incarnations a registry shows. */
  ghost function Shown(registry: Registry): set<Incarnation> {
    set p, q | p in registry.projects && q in registry.projects[p].processes
               && registry.projects[p].processes[q].runtime.Some?
      :: Incarnation(Key(p, q), registry.projects[p].processes[q].runtime.value.instanceID)
  }

  /** The records after a section: whatever the registry now shows is the latest word on it. */
  ghost function Recorded(records: map<Incarnation, ProcessRuntime>, registry: Registry): map<Incarnation, ProcessRuntime> {
    records + map child | child in Shown(registry) :: RuntimeAt(registry, child.key).value
  }

  ghost predicate IsCurrent(registry: Registry, child: Incarnation) {
    RuntimeAt(registry, child.key).Some? && RuntimeAt(registry, child.key).value.instanceID == child.instanceID
  }

  lemma RecordedAt(records: map<Incarnation, ProcessRuntime>, registry: Registry, child: Incarnation)
    ensures child in Recorded(records, registry) <==> child in records || IsCurrent(registry, child)
    ensures child in Recorded(records, registry) ==>
              Recorded(records, registry)[child] ==
              if IsCurrent(registry, child) then RuntimeAt(registry, child.key).value else records[child]
  {
    assert child in Shown(registry) <==> IsCurrent(registry, child) by {
      assert child.key == Key(child.key.projectID, child.key.processID);
    }
  }

  /** The world after a section has released the lock. */
  ghost function Commit(w: World, d: Daemon, events: seq<ProcessEvent>, ids: set<string>): World {
    w.(d := d, log := w.log + events, issued := w.issued + ids, records := Recorded(w.records, d.registry))
  }

  ghost function CommitSection(w: World, section: Section, ids: set<string>): World {
    Commit(w, section.daemon, section.events, ids)
  }

  ghost function WithCall(w: World, id: nat, call: Call): World {
    w.(calls := w.calls[id := call])
  }

  function CurrentID(d: Daemon, key: Key): Option<string> {
    if RuntimeAt(d.registry, key).Some? then Some(RuntimeAt(d.registry, key).value.instanceID) else None
  }

  /** What a call does with the answer of the Stop it made. */
  function AfterStop(call: Call, reply: Reply): Call {
    match call.kind
    case StopCall => call.(phase := Returned(reply))
    case RestartCall =>
      if reply.failures == [] then call.(phase := StartNext)
      else call.(phase := Returned(Reply(None, reply.failures)))
    case ShutdownCall =>
      call.(phase := NextKey, failures := call.failures + reply.failures,
            remaining := if call.remaining == [] then [] else call.remaining[1..])
  }

  function AfterStopSection(call: Call, outcome: StopOutcome): Call {
    match outcome
    case Answered(reply) => AfterStop(call, reply)
    case Waiting(id, signal) => call.(phase := Awaiting(id, signal))
  }

  /** The key a call is stopping. */
  function StopKey(call: Call): Key {
    if call.kind.ShutdownCall? && call.remaining != [] then call.remaining[0] else call.key
  }

  function NewCall(w: World, kind: Kind, key: Key, remaining: seq<Key>): Call {
    Call(kind, key, NextKey, remaining, [], |w.log|, w.issued, CurrentID(w.d, key))
  }

  const NO_KEY := Key("", "")

  /** The critical section of an action, for the actions that have one and answer in it. */
  ghost function SectionOf(w: World, a: Action): Section
    requires Enabled(w, a)
  {
    match a
    case Start(key, answers) => StartSection(w.d, key, answers)
    case RestartStart(call, answers) => StartSection(w.d, w.calls[call].key, answers)
    case Observe(child, at, fault) => ObserveSection(w.d, child.key, child.instanceID, w.exits[child], at, fault)
    case AddProject(project, isDirectory, fault) => AddProjectSection(w.d, project, isDirectory, fault)
    case RemoveProject(projectID, fault) => RemoveProjectSection(w.d, projectID, fault)
    case AddProcess(process, isDirectory, fault) => AddProcessSection(w.d, process, isDirectory, fault)
    case RemoveProcess(key, fault) => RemoveProcessSection(w.d, key, fault)
    case BeginStop(_, _, key, fault) => OfStop(StopSection(w.d, key, fault))
    case StopNextKey(call, fault) => OfStop(StopSection(w.d, w.calls[call].remaining[0], fault))
    case _ => Section(w.d, [], [], Reply(None, []))
  }

  ghost function OfStop(step: StopStep): Section {
    Section(step.daemon, [], step.writes, Reply(None, []))
  }

  ghost function IDsOf(a: Action): set<string> {
    match a
    case Start(_, answers) => NewIDs(answers)
    case RestartStart(_, answers) => NewIDs(answers)
    case _ => {}
  }

  /** The action's effect on everything but the calls. */
  ghost function Core(w: World, a: Action): World
    requires Enabled(w, a)
  {
    match a
    case ChildExits(child, exit) =>
      w.(log := w.log + [Reaped(child.key, child.instanceID)], exits := w.exits[child := exit])
    case Observe(child, _, _) =>
      var w1 := CommitSection(w, SectionOf(w, a), {});
      w1.(exits := w1.exits - {child})
    case _ => CommitSection(w, SectionOf(w, a), IDsOf(a))
  }

  /** The call an action moves on, and where to. */
  ghost function CallStep(w: World, a: Action): Option<(nat, Call)>
    requires Enabled(w, a)
  {
    match a
    case BeginStop(call, kind, key, fault) =>
      Some((call, AfterStopSection(NewCall(w, kind, key, []), StopSection(w.d, key, fault).outcome)))
    case BeginShutdown(call, keys) => Some((call, NewCall(w, ShutdownCall, NO_KEY, keys)))
    case StopNextKey(call, fault) =>
      var c := w.calls[call];
      Some((call, AfterStopSection(c, StopSection(w.d, c.remaining[0], fault).outcome)))
    case FinishShutdown(call) =>
      Some((call, w.calls[call].(phase := Returned(Reply(None, w.calls[call].failures)))))
    case SignalSent(call) =>
      Some((call, w.calls[call].(phase := w.calls[call].phase.(signal := false))))
    case SignalFails(call) =>
      var c := w.calls[call];
      Some((call, AfterStop(c, StatusReply(w.d, StopKey(c), [SignalFailed]))))
    case SeesDone(call) =>
      var c := w.calls[call];
      Some((call, AfterStop(c, StatusReply(w.d, StopKey(c), w.d.finished[c.phase.instanceID]))))
    case SeesContextDone(call) =>
      var c := w.calls[call];
      Some((call, AfterStop(c, StatusReply(w.d, StopKey(c), [ContextDone]))))
    case RestartStart(call, answers) =>
      Some((call, w.calls[call].(phase := Returned(StartSection(w.d, w.calls[call].key, answers).reply))))
    case _ => None
  }

  ghost function Apply(w: World, a: Action): World
    requires Enabled(w, a)
  {
    var step := CallStep(w, a);
    if step.Some? then WithCall(Core(w, a), step.value.0, step.value.1) else Core(w, a)
  }

  // ---------- crashes ----------

  /** One attempt to come up: its instant, and the fate of the save it may need. */
  datatype Boot = Boot(at: Time, fault: Fault)

  /**
   * The daemon dies outside every section, or inside the section of `during` after its first `writes` replacements of
   * the file and its first `events` process events. The attempts `boots` to come up end again before one, at `at`,
   * succeeds.
   */
  datatype Crash = Crash(
    during: Option<Action>,
    writes: nat,
    events: nat,
    boots: seq<Boot>,
    at: Time,
    fault: Fault)

  ghost predicate CanDie(w: World, c: Crash) {
    c.during.Some? ==>
      && Enabled(w, c.during.value)
      && c.writes <= |SectionOf(w, c.during.value).writes|
      && c.events <= |SectionOf(w, c.during.value).events|
  }

  /** What the file holds when the daemon dies. */
  ghost function CrashImage(w: World, c: Crash): Option<RegistryDocument>
    requires CanDie(w, c)
  {
    if c.during.None? then w.d.stored else StoredAfter(w.d.stored, SectionOf(w, c.during.value).writes[..c.writes])
  }

  /** What happened to operating-system processes until the daemon died. */
  ghost function LogAtCrash(w: World, c: Crash): seq<ProcessEvent>
    requires CanDie(w, c)
  {
    w.log + if c.during.None? then [] else SectionOf(w, c.during.value).events[..c.events]
  }

  /** The file after some attempts to come up. */
  ghost function BootsImage(path: string, stored: Option<RegistryDocument>, boots: seq<Boot>): Option<RegistryDocument> {
    if boots == [] then stored
    else
      var last := boots[|boots| - 1];
      BootImage(path, BootsImage(path, stored, boots[..|boots| - 1]), last.at, last.fault)
  }

  /** What the attempt that succeeds finds. */
  ghost function FoundImage(w: World, c: Crash): Option<RegistryDocument>
    requires CanDie(w, c)
  {
    BootsImage(w.d.path, CrashImage(w, c), c.boots)
  }

  ghost predicate CrashEnabled(w: World, c: Crash) {
    CanDie(w, c) && BootSucceeds(w.d.path, FoundImage(w, c), c.at, c.fault)
  }

  ghost function IssuedAtCrash(w: World, c: Crash): set<string> {
    w.issued + if c.during.Some? then IDsOf(c.during.value) else {}
  }

  /** A new daemon on what the dead one left behind; the dead one's live children run on without a daemon. */
  ghost function Recover(w: World, c: Crash): World
    requires CrashEnabled(w, c)
  {
    var image := FoundImage(w, c);
    var registry := Reconciled(ImageRegistry(image), c.at);
    World(Daemon(registry, w.d.path, BootImage(w.d.path, image, c.at, c.fault), w.d.limits, map[], map[], map[]),
          [], w.orphans + Live(LogAtCrash(w, c)), IssuedAtCrash(w, c), map[], Recorded(map[], registry), map[])
  }

  ghost function InitialWorld(path: string, limits: Limits): World {
    World(Daemon(EMPTY_REGISTRY, path, None, limits, map[], map[], map[]), [], {}, {}, map[], map[], map[])
  }
}
