/** The terminal model's state machine: which answers it takes over, and what it shows of a process's output. */
module TuiModels {
  import opened Wrappers
  import opened ProcessStates
  import opened Registries
  import opened OutputBuffers
  import opened TuiOutputs

  datatype Outcome = Loading | Empty | Populated | Unavailable

  /** Everything but what is listed and shown; `hasLauncher` tells whether a daemon can be started. */
  datatype Status = Status(
    generation: nat,
    loading: bool,
    registry: Outcome,
    refreshing: bool,
    pending: bool,
    daemonStarting: bool,
    hasLauncher: bool,
    statusKnown: bool,
    showOutput: bool,
    followOutput: bool)

  /** `items` lists the processes; `runtime` is none while no runtime is known to exist. */
  datatype Model = Model(items: seq<Key>, selected: int, runtime: Option<ProcessRuntime>, output: Output, status: Status)

  /** What a refresh found out. */
  datatype Answer = Answer(runtime: Option<ProcessRuntime>, tail: OutputTail)

  datatype Action = StartIt | StopIt | RestartIt

  /** Messages arrive in any order and however late; an answer of none stands for an error. */
  datatype Message =
    | RegistryLoaded(items: Option<seq<Key>>)
    | DaemonLaunched(items: Option<seq<Key>>)
    | Refreshed(key: Key, generation: nat, answer: Option<Answer>)
    | Acted(key: Key, generation: nat, result: Option<ProcessRuntime>)
    | Tick
    | SelectUp
    | SelectDown
    | Reload
    | StartDaemon
    | Act(action: Action)
    | OpenOutput
    | CloseOutput
    | ToggleFollow
    | ScrollBack

  function NewModel(hasLauncher: bool): Model {
    Model([], 0, None, NO_OUTPUT, Status(0, true, Loading, false, false, false, hasLauncher, false, false, false))
  }

  const NO_KEY := Key("", "")

  function SelectedKey(m: Model): Key {
    if 0 <= m.selected < |m.items| then m.items[m.selected] else NO_KEY
  }

  function CurrentState(m: Model): ProcessState {
    if m.runtime.Some? then m.runtime.value.state else Stopped
  }

  function IndexOfKey(items: seq<Key>, key: Key): (i: int)
    ensures -1 <= i < |items|
    ensures if i >= 0 then items[i] == key else key !in items
  {
    if items == [] then -1
    else if items[0] == key then 0
    else
      var i := IndexOfKey(items[1..], key);
      if i < 0 then -1 else i + 1
  }

  // ---------- steps ----------

  /** Forgets everything that belongs to the selected process. */
  function ResetSelection(m: Model): Model {
    Model(m.items, m.selected, None, NO_OUTPUT, m.status.(generation := m.status.generation + 1, statusKnown := false))
  }

  function ApplyRuntime(m: Model, runtime: Option<ProcessRuntime>): Model {
    var another := runtime.Some? && m.runtime.Some? && runtime.value.instanceID != m.runtime.value.instanceID;
    Model(m.items, m.selected, runtime, if another then NO_OUTPUT else m.output, m.status.(statusKnown := true))
  }

  /** Takes over an answer about the selected process. */
  function ApplyAnswer(m: Model, answer: Answer): Model {
    var m1 := ApplyRuntime(m, answer.runtime);
    var output := Appended(m1.output, answer.tail.events);
    m1.(output := output.(truncated := output.truncated || answer.tail.truncated))
  }

  function ApplyRegistry(m: Model, items: Option<seq<Key>>): Model {
    if items.None? then m.(status := m.status.(loading := false, registry := Unavailable, statusKnown := false))
    else
      var previous := SelectedKey(m);
      var found := IndexOfKey(items.value, previous);
      var status := m.status.(loading := false, registry := if items.value == [] then Empty else Populated);
      var m1 := Model(items.value, if found < 0 && items.value != [] then 0 else found, m.runtime, m.output, status);
      var m2 := if SelectedKey(m1) != previous || items.value == [] then ResetSelection(m1) else m1;
      if items.value == [] then m2 else m2.(status := m2.status.(refreshing := true))
  }

  /** Whether an answer is about what is selected now. */
  predicate IsCurrent(m: Model, key: Key, generation: nat) {
    key == SelectedKey(m) && generation == m.status.generation
  }

  predicate CanMove(m: Model) {
    !m.status.showOutput && !m.status.pending && !m.status.loading && !m.status.registry.Unavailable?
  }

  function Move(m: Model, selected: int): Model {
    var m1 := ResetSelection(m.(selected := selected));
    m1.(status := m1.status.(refreshing := true))
  }

  predicate Available(m: Model, action: Action) {
    m.status.statusKnown && (action.StartIt? <==> !CurrentState(m).IsActive())
  }

  /** Messages that change nothing but the status. */
  function Flagged(m: Model, message: Message): Status {
    var s := m.status;
    match message
    case Tick =>
      if (!s.showOutput || s.followOutput) && m.items != [] && !s.loading && !s.daemonStarting
         && !s.registry.Unavailable? && !s.refreshing && !s.pending
      then s.(refreshing := true) else s
    case Reload =>
      if !s.showOutput && !s.pending && !s.loading && !s.daemonStarting
      then s.(loading := true, registry := Loading, generation := s.generation + 1, refreshing := false) else s
    case StartDaemon =>
      if !s.showOutput && s.registry.Unavailable? && s.hasLauncher && !s.daemonStarting && !s.loading && !s.pending then s.(daemonStarting := true) else s
    case Act(action) =>
      if s.showOutput || s.pending || s.loading || s.daemonStarting || s.registry.Unavailable? || m.items == [] || !Available(m, action)
      then s
      else s.(generation := s.generation + 1, refreshing := false, pending := true)
    case OpenOutput =>
      if !s.showOutput && m.items != [] && !s.registry.Unavailable?
      then s.(showOutput := true, followOutput := false) else s
    case CloseOutput => if s.showOutput then s.(showOutput := false, followOutput := false) else s
    case ToggleFollow =>
      if s.showOutput then s.(followOutput := !s.followOutput, refreshing := s.refreshing || !s.followOutput) else s
    case ScrollBack => if s.showOutput then s.(followOutput := false) else s
    case _ => s
  }

  function Update(m: Model, message: Message): Model {
    match message
    case RegistryLoaded(items) => ApplyRegistry(m, items)
    case DaemonLaunched(items) =>
      if items.None? then m.(status := m.status.(daemonStarting := false, registry := Unavailable, statusKnown := false))
      else ApplyRegistry(m.(status := m.status.(daemonStarting := false)), items)
    case Refreshed(key, generation, answer) =>
      if !IsCurrent(m, key, generation) then m
      else if answer.None? then m.(status := m.status.(refreshing := false, statusKnown := false))
      else ApplyAnswer(m.(status := m.status.(refreshing := false)), answer.value)
    case Acted(key, generation, result) =>
      var m1 := m.(status := m.status.(pending := false));
      if !IsCurrent(m, key, generation) || result.None? then m1
      else ApplyRuntime(m.(status := m.status.(pending := false, refreshing := true)), result)
    case SelectUp => if CanMove(m) && m.selected > 0 then Move(m, m.selected - 1) else m
    case SelectDown => if CanMove(m) && m.selected + 1 < |m.items| then Move(m, m.selected + 1) else m
    case _ => m.(status := Flagged(m, message))
  }

  // ---------- what every sequence of messages keeps ----------

  /** The output is good, and a list that is not empty has a selection within it. */
  ghost predicate GoodModel(m: Model) {
    Good(m.output) && InRange(m)
  }

  predicate InRange(m: Model) {
    if m.items != [] then 0 <= m.selected < |m.items| else m.selected == 0 || m.selected == -1
  }

  /** The same process stays selected, with all that is shown of it. */
  predicate Keeps(m: Model, m': Model) {
    InRange(m') && SelectedKey(m') == SelectedKey(m) && m'.output == m.output && m'.runtime == m.runtime
  }

  predicate Forgets(m': Model) {
    InRange(m') && m'.output == NO_OUTPUT && m'.runtime.None?
  }

  /** The same process stays selected and a runtime was taken over; its output is kept, or belonged to another run. */
  predicate TakesOver(m: Model, m': Model, runtime: Option<ProcessRuntime>) {
    && InRange(m') && SelectedKey(m') == SelectedKey(m) && m'.runtime == runtime
    && (m'.output == m.output || m'.output == NO_OUTPUT)
  }

  lemma RegistryKeepsOrForgets(m: Model, items: Option<seq<Key>>)
    requires InRange(m)
    ensures Keeps(m, ApplyRegistry(m, items)) || Forgets(ApplyRegistry(m, items))
  {
  }

  predicate TakesAnswer(m: Model, message: Message) {
    message.Refreshed? && IsCurrent(m, message.key, message.generation) && message.answer.Some?
  }

  predicate TakesResult(m: Model, message: Message) {
    message.Acted? && IsCurrent(m, message.key, message.generation) && message.result.Some?
  }

  lemma AnswerTakesOver(m: Model, message: Message) returns (m1: Model)
    requires InRange(m) && TakesAnswer(m, message)
    ensures TakesOver(m, m1, message.answer.value.runtime)
    ensures Update(m, message) == m1.(output := Update(m, message).output)
    ensures Update(m, message).output.events == Appended(m1.output, message.answer.value.tail.events).events
    ensures Update(m, message).output.lastSeq == Appended(m1.output, message.answer.value.tail.events).lastSeq
  {
    m1 := ApplyRuntime(m.(status := m.status.(refreshing := false)), message.answer.value.runtime);
  }

  lemma ResultTakesOver(m: Model, message: Message)
    requires InRange(m) && TakesResult(m, message)
    ensures TakesOver(m, Update(m, message), message.result)
  {
  }

  /** Every other message leaves what is shown alone, or forgets it. */
  lemma OthersKeepOrForget(m: Model, message: Message)
    requires InRange(m) && !TakesAnswer(m, message) && !TakesResult(m, message)
    ensures Keeps(m, Update(m, message)) || Forgets(Update(m, message))
  {
    if message.RegistryLoaded? {
      RegistryKeepsOrForgets(m, message.items);
    } else if message.DaemonLaunched? {
      RegistryKeepsOrForgets(m.(status := m.status.(daemonStarting := false)), message.items);
    }
  }

  lemma AnswerKeepsGood(m: Model, message: Message)
    requires GoodModel(m) && TakesAnswer(m, message)
    ensures GoodModel(Update(m, message)) && SelectedKey(Update(m, message)) == SelectedKey(m)
    ensures Update(m, message).runtime == message.answer.value.runtime
    ensures forall e | e in Update(m, message).output.events :: e in m.output.events || e in message.answer.value.tail.events
  {
    var m1 := AnswerTakesOver(m, message);
    AppendKeepsGood(m1.output, message.answer.value.tail.events);
  }

  lemma UpdateKeepsGood(m: Model, message: Message)
    requires GoodModel(m)
    ensures GoodModel(Update(m, message))
  {
    if TakesAnswer(m, message) {
      AnswerKeepsGood(m, message);
    } else if TakesResult(m, message) {
      ResultTakesOver(m, message);
    } else {
      OthersKeepOrForget(m, message);
    }
  }

  /** Events and runtime are forgotten whenever the selected process changes. */
  lemma SelectionChangeForgets(m: Model, message: Message)
    requires GoodModel(m) && SelectedKey(Update(m, message)) != SelectedKey(m)
    ensures Update(m, message).output == NO_OUTPUT && Update(m, message).runtime.None?
  {
    if TakesAnswer(m, message) {
      AnswerKeepsGood(m, message);
    } else if TakesResult(m, message) {
      ResultTakesOver(m, message);
    } else {
      OthersKeepOrForget(m, message);
    }
  }

  predicate IsHistory(ms: seq<Model>, messages: seq<Message>) {
    && |ms| == |messages| + 1
    && ms[0] in {NewModel(false), NewModel(true)}
    && forall i | 0 <= i < |messages| :: IsStep(ms, messages, i)
  }

  predicate IsStep(ms: seq<Model>, messages: seq<Message>, i: nat)
    requires i < |messages| && |ms| == |messages| + 1
  {
    ms[i + 1] == Update(ms[i], messages[i])
  }

  lemma {:induction false} HistoryIsGood(ms: seq<Model>, messages: seq<Message>, i: nat)
    requires IsHistory(ms, messages) && i < |ms|
    ensures GoodModel(ms[i])
  {
    if i > 0 {
      HistoryIsGood(ms, messages, i - 1);
      assert IsStep(ms, messages, i - 1);
      UpdateKeepsGood(ms[i - 1], messages[i - 1]);
    }
  }

  /** The message is an answer about a process that carries an event. */
  predicate Brings(message: Message, key: Key, e: OutputEvent) {
    message.Refreshed? && message.key == key && message.answer.Some? && e in message.answer.value.tail.events
  }

  /** The message is an answer about a process that carries a runtime. */
  predicate Reports(message: Message, key: Key, runtime: ProcessRuntime) {
    || (message.Refreshed? && message.key == key && message.answer.Some? && message.answer.value.runtime == Some(runtime))
    || (message.Acted? && message.key == key && message.result == Some(runtime))
  }

  ghost predicate Sourced(m: Model, messages: seq<Message>) {
    && (forall e | e in m.output.events :: EventSourced(messages, SelectedKey(m), e))
    && (m.runtime.Some? ==> RuntimeSourced(messages, SelectedKey(m), m.runtime.value))
  }

  ghost predicate EventSourced(messages: seq<Message>, key: Key, e: OutputEvent) {
    exists i :: 0 <= i < |messages| && Brings(messages[i], key, e)
  }

  ghost predicate RuntimeSourced(messages: seq<Message>, key: Key, runtime: ProcessRuntime) {
    exists i :: 0 <= i < |messages| && Reports(messages[i], key, runtime)
  }

  /**
   * Whatever messages arrive, stale and out of order: all that is shown, events and runtime, came in answers about the
   * process that is selected now; event numbers strictly increase up to the last one seen, at most 400 are kept, and a
   * list that is not empty has a selection within it.
   */
  lemma {:induction false} ShowsOnlyTheSelected(ms: seq<Model>, messages: seq<Message>, i: nat)
    requires IsHistory(ms, messages) && i < |ms|
    ensures Sourced(ms[i], messages[..i])
    ensures ms[i].items != [] ==> 0 <= ms[i].selected < |ms[i].items|
    ensures |ms[i].output.events| <= 400
    ensures forall j, k | 0 <= j < k < |ms[i].output.events| ::
              ms[i].output.events[j].sequence < ms[i].output.events[k].sequence
    ensures forall j | 0 <= j < |ms[i].output.events| :: 0 < ms[i].output.events[j].sequence <= ms[i].output.lastSeq
  {
    HistoryIsGood(ms, messages, i);
    GoodMeaning(ms[i].output);
    if i > 0 {
      ShowsOnlyTheSelected(ms, messages, i - 1);
      HistoryIsGood(ms, messages, i - 1);
      assert IsStep(ms, messages, i - 1);
      assert messages[..i] == messages[..i - 1] + [messages[i - 1]];
      UpdateKeepsSourced(ms[i - 1], messages[..i - 1], messages[i - 1]);
    }
  }

  lemma UpdateKeepsSourced(m: Model, before: seq<Message>, message: Message)
    requires GoodModel(m) && Sourced(m, before)
    ensures Sourced(Update(m, message), before + [message])
  {
    var m' := Update(m, message);
    if SelectedKey(m') != SelectedKey(m) {
      SelectionChangeForgets(m, message);
    } else {
      forall e | e in m'.output.events
        ensures EventSourced(before + [message], SelectedKey(m'), e)
      {
        EventSource(m, before, message, e);
      }
      if m'.runtime.Some? {
        RuntimeSource(m, before, message);
      }
    }
  }

  lemma LaterSourced(before: seq<Message>, message: Message, key: Key)
    ensures forall e | EventSourced(before, key, e) :: EventSourced(before + [message], key, e)
    ensures forall runtime | RuntimeSourced(before, key, runtime) :: RuntimeSourced(before + [message], key, runtime)
  {
    forall e | EventSourced(before, key, e)
      ensures EventSourced(before + [message], key, e)
    {
      var i :| 0 <= i < |before| && Brings(before[i], key, e);
      assert Brings((before + [message])[i], key, e);
    }
    forall runtime | RuntimeSourced(before, key, runtime)
      ensures RuntimeSourced(before + [message], key, runtime)
    {
      var i :| 0 <= i < |before| && Reports(before[i], key, runtime);
      assert Reports((before + [message])[i], key, runtime);
    }
  }

  lemma EventSource(m: Model, before: seq<Message>, message: Message, e: OutputEvent)
    requires GoodModel(m) && Sourced(m, before) && e in Update(m, message).output.events
    ensures EventSourced(before + [message], SelectedKey(m), e)
  {
    if TakesAnswer(m, message) {
      AnswerKeepsGood(m, message);
    } else if TakesResult(m, message) {
      ResultTakesOver(m, message);
    } else {
      OthersKeepOrForget(m, message);
    }
    if e in m.output.events {
      LaterSourced(before, message, SelectedKey(m));
    } else {
      assert Brings((before + [message])[|before|], SelectedKey(m), e);
    }
  }

  lemma RuntimeSource(m: Model, before: seq<Message>, message: Message)
    requires GoodModel(m) && Sourced(m, before) && Update(m, message).runtime.Some?
    ensures RuntimeSourced(before + [message], SelectedKey(m), Update(m, message).runtime.value)
  {
    var runtime := Update(m, message).runtime.value;
    if TakesAnswer(m, message) {
      AnswerKeepsGood(m, message);
      assert Reports((before + [message])[|before|], SelectedKey(m), runtime);
    } else if TakesResult(m, message) {
      ResultTakesOver(m, message);
      assert Reports((before + [message])[|before|], SelectedKey(m), runtime);
    } else {
      OthersKeepOrForget(m, message);
      LaterSourced(before, message, SelectedKey(m));
    }
  }

  // ---------- runs ----------

  /** Another run of the process is reported than the one that was shown. */
  predicate IsAnotherRun(m: Model, runtime: Option<ProcessRuntime>) {
    runtime.Some? && m.runtime.Some? && runtime.value.instanceID != m.runtime.value.instanceID
  }

  /**
   * An answer about what is selected brings its runtime and its events. What was shown is forgotten when it belonged to
   * another run, so that the numbers of the new run count from the start, and kept otherwise.
   */
  lemma AnswerShowsOneRun(m: Model, message: Message)
    requires GoodModel(m) && TakesAnswer(m, message)
    ensures var answer := message.answer.value;
            var shown := if IsAnotherRun(m, answer.runtime) then Output([], false, 0) else m.output;
            var m' := Update(m, message);
            && m'.runtime == answer.runtime && m'.status.statusKnown
            && m'.output.events == Appended(shown, answer.tail.events).events
            && m'.output.lastSeq == Appended(shown, answer.tail.events).lastSeq
            && m'.output.truncated == (shown.truncated || answer.tail.truncated)
            && (forall e | e in m'.output.events :: e in shown.events || (e in answer.tail.events && e.sequence > shown.lastSeq))
            && (forall e | e in answer.tail.events :: e.sequence > shown.lastSeq ==> e.sequence <= m'.output.lastSeq)
            && (shown.events + answer.tail.events == [] ==> m'.output.events == [])
            && shown.lastSeq <= m'.output.lastSeq
  {
    var answer := message.answer.value;
    var shown := if IsAnotherRun(m, answer.runtime) then Output([], false, 0) else m.output;
    AppendShows(shown, answer.tail.events);
  }

  lemma AppendShows(o: Output, events: seq<OutputEvent>)
    requires Good(o)
    ensures var o' := Appended(o, events);
            && (forall e | e in o'.events :: e in o.events || (e in events && e.sequence > o.lastSeq))
            && (forall e | e in events :: e.sequence > o.lastSeq ==> e.sequence <= o'.lastSeq)
            && (o.events + events == [] ==> o'.events == [])
            && o.lastSeq <= o'.lastSeq
  {
    var news := News(Sort(events), o.lastSeq);
    NewsRises(Sort(events), o.lastSeq);
    forall e | e in news
      ensures e in events && o.lastSeq < e.sequence <= LastOf(news, o.lastSeq)
    {
      NewsIsTaken(Sort(events), o.lastSeq, e);
      SortKeeps(events, e);
      var i :| 0 <= i < |news| && news[i] == e;
      RisesMeaning(o.lastSeq, news, i, i);
    }
    forall e | e in events && e.sequence > o.lastSeq
      ensures e.sequence <= LastOf(news, o.lastSeq)
    {
      SortKeeps(events, e);
      var bound := SortAscends(events);
      NewsIsComplete(Sort(events), bound, o.lastSeq, e);
      var n :| n in news && n.sequence == e.sequence;
    }
    assert forall e | e in Newest(o.events + news) :: e in o.events + news;
    if news != [] {
      assert news[|news| - 1] in news;
    }
    assert events == [] ==> news == [];
  }

  /** The result of an action brings its runtime, and forgets the output of another run alike. */
  lemma ResultShowsOneRun(m: Model, message: Message)
    requires TakesResult(m, message)
    ensures var m' := Update(m, message);
            && m'.runtime == message.result && m'.status.statusKnown && m'.status.refreshing
            && m'.output == if IsAnotherRun(m, message.result) then Output([], false, 0) else m.output
  {
  }

  /** Between two runs a moment without any runtime goes unnoticed: the events of the first stay beside the second. */
  lemma RedefinedRunKeepsOutput(m: Model, first: Answer, second: Answer)
    requires GoodModel(m) && first.runtime.None? && second.tail.events == [] && first.tail.events == []
    ensures var key, generation := SelectedKey(m), m.status.generation;
            var m1 := Update(m, Refreshed(key, generation, Some(first)));
            var m2 := Update(m1, Refreshed(key, generation, Some(second)));
            m2.runtime == second.runtime && m2.output.events == m.output.events && m2.output.lastSeq == m.output.lastSeq
  {
    NothingAppended(m.output);
    var m1 := Update(m, Refreshed(SelectedKey(m), m.status.generation, Some(first)));
    NothingAppended(m1.output);
  }

  lemma NothingAppended(o: Output)
    requires Good(o)
    ensures Appended(o, []) == o
  {
    assert o.events + [] == o.events;
  }

  // ---------- answers that come too late ----------

  /** The user starts, stops or restarts the selected process: one action at a time, and only one that makes sense. */
  predicate BeginsAction(m: Model, message: Message) {
    && message.Act?
    && !m.status.showOutput && !m.status.pending && !m.status.loading && !m.status.daemonStarting
    && m.status.registry != Unavailable && |m.items| > 0 && m.status.statusKnown
    && var active := m.runtime.Some? && m.runtime.value.state in {Starting, Running, Stopping};
    if message.action == StartIt then !active else active
  }

  predicate BeginsReload(m: Model, message: Message) {
    message == Reload && !m.status.showOutput && !m.status.pending && !m.status.loading && !m.status.daemonStarting
  }

  predicate LoadsRegistry(message: Message) {
    (message.RegistryLoaded? || message.DaemonLaunched?) && message.items.Some?
  }

  /** What a message adds to the generation, and what it may do to the selection. */
  predicate Counts(m: Model, message: Message, m': Model) {
    var more := m'.status.generation - m.status.generation;
    && (more == 0 || more == 1)
    && (BeginsAction(m, message) || BeginsReload(m, message) ==> more == 1)
    && (SelectedKey(m') != SelectedKey(m) ==> more == 1)
    && (more == 1 ==>
          || BeginsAction(m, message) || BeginsReload(m, message)
          || message.SelectUp? || message.SelectDown? || LoadsRegistry(message))
  }

  /** The generation counts what makes earlier answers stale: selections, actions and reloads. */
  lemma GenerationCounts(m: Model, message: Message)
    requires InRange(m)
    ensures Counts(m, message, Update(m, message))
  {
    if message.RegistryLoaded? || message.DaemonLaunched? {
      RegistryCounts(m, message);
    } else if message.Act? {
      ActionCounts(m, message);
    } else if message.Refreshed? || message.Acted? {
      AnswerCounts(m, message);
    } else if message.SelectUp? || message.SelectDown? {
    } else {
      OthersCount(m, message);
    }
  }

  lemma RegistryCounts(m: Model, message: Message)
    requires InRange(m) && (message.RegistryLoaded? || message.DaemonLaunched?)
    ensures Counts(m, message, Update(m, message))
  {
  }

  lemma ActionCounts(m: Model, message: Message)
    requires message.Act?
    ensures Counts(m, message, Update(m, message))
  {
  }

  lemma AnswerCounts(m: Model, message: Message)
    requires message.Refreshed? || message.Acted?
    ensures Counts(m, message, Update(m, message))
  {
  }

  lemma OthersCount(m: Model, message: Message)
    requires message.Tick? || message.Reload? || message.StartDaemon? || message.OpenOutput? || message.CloseOutput?
             || message.ToggleFollow? || message.ScrollBack?
    ensures Counts(m, message, Update(m, message))
  {
  }

  lemma {:induction false} GenerationGrows(ms: seq<Model>, messages: seq<Message>, i: nat, j: nat)
    requires IsHistory(ms, messages) && i <= j < |ms|
    ensures ms[i].status.generation <= ms[j].status.generation
  {
    if i < j {
      GenerationGrows(ms, messages, i, j - 1);
      OneStepCounts(ms, messages, j - 1);
    }
  }

  /**
   * An answer asked for at one moment is taken over later only if the same process was selected all the while, and no
   * action was begun and no reload in between.
   */
  lemma OnlyFreshAnswers(ms: seq<Model>, messages: seq<Message>, i: nat, j: nat)
    requires IsHistory(ms, messages) && i <= j < |messages|
    requires TakesAnswer(ms[j], messages[j]) || TakesResult(ms[j], messages[j])
    requires messages[j].generation == ms[i].status.generation
    ensures forall k | i <= k <= j :: SelectedKey(ms[k]) == messages[j].key
    ensures forall k | i <= k < j :: !BeginsAction(ms[k], messages[k]) && !BeginsReload(ms[k], messages[k])
  {
    forall k | i <= k <= j
      ensures SelectedKey(ms[k]) == messages[j].key
    {
      SameGeneration(ms, messages, i, k, j);
      StaysSelected(ms, messages, k, j);
    }
    forall k | i <= k < j
      ensures !BeginsAction(ms[k], messages[k]) && !BeginsReload(ms[k], messages[k])
    {
      SameGeneration(ms, messages, i, k, j);
      SameGeneration(ms, messages, i, k + 1, j);
      OneStepCounts(ms, messages, k);
    }
  }

  lemma OneStepCounts(ms: seq<Model>, messages: seq<Message>, k: nat)
    requires IsHistory(ms, messages) && k < |messages|
    ensures Counts(ms[k], messages[k], ms[k + 1])
  {
    HistoryIsGood(ms, messages, k);
    assert IsStep(ms, messages, k);
    GenerationCounts(ms[k], messages[k]);
  }

  lemma SameGeneration(ms: seq<Model>, messages: seq<Message>, i: nat, k: nat, j: nat)
    requires IsHistory(ms, messages) && i <= k <= j < |ms| && ms[i].status.generation == ms[j].status.generation
    ensures ms[k].status.generation == ms[j].status.generation
  {
    GenerationGrows(ms, messages, i, k);
    GenerationGrows(ms, messages, k, j);
  }

  lemma {:induction false} StaysSelected(ms: seq<Model>, messages: seq<Message>, k: nat, j: nat)
    requires IsHistory(ms, messages) && k <= j < |ms| && ms[k].status.generation == ms[j].status.generation
    ensures SelectedKey(ms[k]) == SelectedKey(ms[j])
    decreases j - k
  {
    if k < j {
      SameGeneration(ms, messages, k, k + 1, j);
      OneStepCounts(ms, messages, k);
      StaysSelected(ms, messages, k + 1, j);
    }
  }

  /** Every other answer changes nothing, except that an action is no longer pending once it was answered at all. */
  lemma StaleAnswersChangeNothing(m: Model, message: Message)
    requires message.Refreshed? || message.Acted?
    requires message.key != SelectedKey(m) || message.generation != m.status.generation
    ensures Update(m, message) == if message.Refreshed? then m else m.(status := m.status.(pending := false))
  {
  }

  /** A failed answer leaves what is shown alone. */
  lemma FailuresKeepWhatIsShown(m: Model, message: Message)
    requires message == Refreshed(SelectedKey(m), m.status.generation, None)
             || message == Acted(SelectedKey(m), m.status.generation, None)
    ensures var m' := Update(m, message);
            && m' == m.(status := m'.status)
            && m'.status == if message.Refreshed? then m.status.(refreshing := false, statusKnown := false)
                            else m.status.(pending := false)
  {
  }

  // ---------- the list ----------

  /** A reloaded list keeps the selected process if it is still there, and otherwise selects the first and forgets. */
  lemma ReloadSelects(m: Model, items: seq<Key>)
    requires GoodModel(m) && m.items != []
    ensures var m' := Update(m, RegistryLoaded(Some(items)));
            && m'.items == items && !m'.status.loading
            && (SelectedKey(m) in items ==> Keeps(m, m') && m'.status.statusKnown == m.status.statusKnown)
            && (SelectedKey(m) !in items && items != [] && items[0] != NO_KEY ==>
                  SelectedKey(m') == items[0] && Forgets(m') && !m'.status.statusKnown)
            && (items == [] ==> Forgets(m') && !m'.status.statusKnown && m'.status.registry == Empty)
            && (items != [] ==> m'.status.registry == Populated && m'.status.refreshing)
  {
  }

  /** Moving the selection is possible unless an action or a reload is under way, and stops at either end. */
  lemma SelectionMoves(m: Model, message: Message)
    requires GoodModel(m) && (message.SelectUp? || message.SelectDown?)
    ensures var m' := Update(m, message);
            var free := !m.status.showOutput && !m.status.pending && !m.status.loading && m.status.registry != Unavailable;
            var next := if message.SelectUp? then m.selected - 1 else m.selected + 1;
            if free && 0 <= next < |m.items| then m'.selected == next && Forgets(m') && m'.status.refreshing else m' == m
  {
  }

  // ---------- what each flag means ----------

  predicate IsKey(message: Message) {
    || message.Tick? || message.Reload? || message.StartDaemon? || message.Act? || message.OpenOutput?
    || message.CloseOutput? || message.ToggleFollow? || message.ScrollBack?
  }

  lemma KeysFlag(m: Model, message: Message)
    requires IsKey(message)
    ensures Update(m, message) == m.(status := Flagged(m, message))
  {
  }

  /** The flags that only keys and the ends of what they began can change. */
  predicate SameFlags(s: Status, s': Status) {
    && s'.pending == s.pending && s'.daemonStarting == s.daemonStarting && s'.loading == s.loading
    && s'.showOutput == s.showOutput && s'.followOutput == s.followOutput
  }

  /** The flags after a message that is no key. */
  predicate KeepsFlags(m: Model, message: Message) {
    SameFlags(m.status.(pending := m.status.pending && !message.Acted?,
                        daemonStarting := m.status.daemonStarting && !message.DaemonLaunched?,
                        loading := m.status.loading && !message.RegistryLoaded? && !LoadsRegistry(message)),
              Update(m, message).status)
  }

  lemma AnswersKeepFlags(m: Model, message: Message)
    requires !IsKey(message)
    ensures KeepsFlags(m, message)
  {
    if message.RegistryLoaded? {
      ListKeepsFlags(m, message.items);
    } else if message.DaemonLaunched? {
      LaunchKeepsFlags(m, message.items);
    } else if message.Refreshed? {
      RefreshKeepsFlags(m, message.key, message.generation, message.answer);
    } else if message.Acted? {
      ResultKeepsFlags(m, message.key, message.generation, message.result);
    } else {
      MovesKeepFlags(m, message);
    }
  }

  lemma ListKeepsFlags(m: Model, items: Option<seq<Key>>)
    ensures KeepsFlags(m, RegistryLoaded(items))
  {
    RegistryKeepsFlags(m, items);
  }

  lemma LaunchKeepsFlags(m: Model, items: Option<seq<Key>>)
    ensures KeepsFlags(m, DaemonLaunched(items))
  {
    RegistryKeepsFlags(m.(status := m.status.(daemonStarting := false)), items);
  }

  lemma RefreshKeepsFlags(m: Model, key: Key, generation: nat, answer: Option<Answer>)
    ensures KeepsFlags(m, Refreshed(key, generation, answer))
  {
    if answer.Some? {
      AnswerKeepsFlags(m.(status := m.status.(refreshing := false)), answer.value);
    }
  }

  lemma ResultKeepsFlags(m: Model, key: Key, generation: nat, result: Option<ProcessRuntime>)
    ensures KeepsFlags(m, Acted(key, generation, result))
  {
  }

  lemma MovesKeepFlags(m: Model, message: Message)
    requires message.SelectUp? || message.SelectDown?
    ensures KeepsFlags(m, message)
  {
  }

  lemma RegistryKeepsFlags(m: Model, items: Option<seq<Key>>)
    ensures SameFlags(m.status.(loading := false), ApplyRegistry(m, items).status)
  {
  }

  lemma AnswerKeepsFlags(m: Model, answer: Answer)
    ensures SameFlags(m.status, ApplyAnswer(m, answer).status)
  {
  }

  /** An action is pending from when it is begun until it is answered, and so at most one is. */
  lemma PendingMeans(m: Model, message: Message)
    ensures Update(m, message).status.pending <==> !message.Acted? && (m.status.pending || BeginsAction(m, message))
  {
    if IsKey(message) {
      KeysFlag(m, message);
    } else {
      AnswersKeepFlags(m, message);
    }
  }

  /** The daemon is being started from when that is asked for until the launch has ended. */
  lemma DaemonStartingMeans(m: Model, message: Message)
    ensures Update(m, message).status.daemonStarting <==>
              && !message.DaemonLaunched?
              && (m.status.daemonStarting
                  || (message.StartDaemon? && m.status.hasLauncher && m.status.registry == Unavailable
                      && !m.status.showOutput && !m.status.loading && !m.status.pending))
  {
    if IsKey(message) {
      KeysFlag(m, message);
    } else {
      AnswersKeepFlags(m, message);
    }
  }

  /** A reload is under way from when it is begun until the list arrives or fails to. */
  lemma LoadingMeans(m: Model, message: Message)
    ensures Update(m, message).status.loading <==>
              !message.RegistryLoaded? && !LoadsRegistry(message) && (m.status.loading || BeginsReload(m, message))
  {
    if IsKey(message) {
      KeysFlag(m, message);
    } else {
      AnswersKeepFlags(m, message);
    }
  }

  /** The output covers the list from when it is opened until it is closed, and is followed only meanwhile. */
  lemma OutputMeans(m: Model, message: Message)
    requires m.status.followOutput ==> m.status.showOutput
    ensures var s := Update(m, message).status;
            && (s.showOutput <==>
                  (m.status.showOutput && message != CloseOutput)
                  || (message == OpenOutput && |m.items| > 0 && m.status.registry != Unavailable))
            && (s.followOutput <==>
                  m.status.showOutput
                  && if message == ToggleFollow then !m.status.followOutput
                     else m.status.followOutput && message != CloseOutput && message != ScrollBack)
  {
    if IsKey(message) {
      KeysFlag(m, message);
    } else {
      AnswersKeepFlags(m, message);
    }
  }

  /** Which keys ask for a refresh, and which make the answer to an earlier one useless. */
  lemma KeysRefresh(m: Model, message: Message)
    requires IsKey(message)
    ensures var s := Update(m, message).status;
            && (message != Tick ==>
                  (s.refreshing <==>
                     && !BeginsAction(m, message) && !BeginsReload(m, message)
                     && (m.status.refreshing || (message == ToggleFollow && m.status.showOutput && !m.status.followOutput))))
            && s.registry == (if BeginsReload(m, message) then Loading else m.status.registry)
            && s.statusKnown == m.status.statusKnown
  {
    KeysFlag(m, message);
  }

  /** A list that cannot be loaded leaves what is shown, but its state is no longer known. */
  lemma ListIsUnavailable(m: Model, message: Message)
    requires message == RegistryLoaded(None) || message == DaemonLaunched(None)
    ensures var m' := Update(m, message);
            && m' == m.(status := m'.status)
            && m'.status.registry == Unavailable && !m'.status.statusKnown && m'.status.refreshing == m.status.refreshing
  {
  }

  /** A tick asks for a refresh exactly if one is wanted, possible, and not under way. */
  lemma TickAsksOnce(m: Model)
    ensures Update(m, Tick).status.refreshing <==>
              m.status.refreshing
              || (|m.items| > 0 && (m.status.showOutput ==> m.status.followOutput)
                  && !m.status.loading && !m.status.daemonStarting && !m.status.pending && m.status.registry != Unavailable)
    ensures Update(m, Tick) == m.(status := m.status.(refreshing := Update(m, Tick).status.refreshing))
  {
  }
}
