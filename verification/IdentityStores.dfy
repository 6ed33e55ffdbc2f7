/** The identity store: every change is made on a copy, checked, written out and only then taken over. */
module IdentityStores {
  import opened Wrappers
  import opened IdentityModels

  /** Where writing a new state fails, if it does: before the file is replaced, or after. */
  datatype WriteFault = NoFault | BeforeReplace | AfterReplace

  /** No project contains the state file or the original gh executable. */
  predicate Apart(rules: Rules, path: string, s: State) {
    forall p | p in s.projects :: !rules.within(path, p.root) && (s.ghPath != "" ==> !rules.within(s.ghPath, p.root))
  }

  const EMPTY_STATE := State(1, "", [], [])

  // ---------- putting a record in its place ----------

  /** Replaces the first record with the same ID, or appends. */
  function PutPersona(personas: seq<Persona>, p: Persona): seq<Persona> {
    if personas == [] then [p]
    else if personas[0].id == p.id then [p] + personas[1..]
    else [personas[0]] + PutPersona(personas[1..], p)
  }

  function PutProject(projects: seq<Project>, p: Project): seq<Project> {
    if projects == [] then [p]
    else if projects[0].id == p.id then [p] + projects[1..]
    else [projects[0]] + PutProject(projects[1..], p)
  }

  /** After a put, the record is found under its ID, and every other ID leads where it led before. */
  lemma {:induction false} PutFinds(personas: seq<Persona>, p: Persona, id: string)
    ensures FindPersona(PutPersona(personas, p), id) == if id == p.id then Some(p) else FindPersona(personas, id)
    decreases |personas|
  {
    if personas == [] {
      assert [p][1..] == [];
    } else if personas[0].id == p.id {
      assert ([p] + personas[1..])[1..] == personas[1..];
    } else {
      PutFinds(personas[1..], p, id);
      var put := PutPersona(personas[1..], p);
      assert ([personas[0]] + put)[1..] == put;
    }
  }

  lemma {:induction false} PutProjectFinds(rules: Rules, projects: seq<Project>, p: Project, id: string)
    requires id != ""
    ensures FindProject(rules, PutProject(projects, p), id, "") ==
            if id == p.id then Some(p) else FindProject(rules, projects, id, "")
    decreases |projects|
  {
    if projects == [] {
      assert [p][1..] == [];
    } else if projects[0].id == p.id {
      assert ([p] + projects[1..])[1..] == projects[1..];
    } else {
      PutProjectFinds(rules, projects[1..], p, id);
      var put := PutProject(projects[1..], p);
      assert ([projects[0]] + put)[1..] == put;
    }
  }

  lemma {:induction false} PutPersonaAt(personas: seq<Persona>, p: Persona, i: nat)
    requires i <= |personas| && forall j | 0 <= j < i :: personas[j].id != p.id
    requires i < |personas| ==> personas[i].id == p.id
    ensures PutPersona(personas, p) == if i < |personas| then personas[i := p] else personas + [p]
    decreases |personas|
  {
    if i > 0 {
      PutPersonaAt(personas[1..], p, i - 1);
      assert personas == [personas[0]] + personas[1..];
    }
  }

  method ReplacePersona(personas: seq<Persona>, p: Persona) returns (r: seq<Persona>)
    ensures r == PutPersona(personas, p)
  {
    var i := 0;
    while i < |personas|
      invariant i <= |personas| && forall j | 0 <= j < i :: personas[j].id != p.id
    {
      if personas[i].id == p.id {
        PutPersonaAt(personas, p, i);
        return personas[i := p];
      }
      i := i + 1;
    }
    PutPersonaAt(personas, p, i);
    return personas + [p];
  }

  lemma {:induction false} PutProjectAt(projects: seq<Project>, p: Project, i: nat)
    requires i <= |projects| && forall j | 0 <= j < i :: projects[j].id != p.id
    requires i < |projects| ==> projects[i].id == p.id
    ensures PutProject(projects, p) == if i < |projects| then projects[i := p] else projects + [p]
    decreases |projects|
  {
    if i > 0 {
      PutProjectAt(projects[1..], p, i - 1);
      assert projects == [projects[0]] + projects[1..];
    }
  }

  method ReplaceProject(projects: seq<Project>, p: Project) returns (r: seq<Project>)
    ensures r == PutProject(projects, p)
  {
    var i := 0;
    while i < |projects|
      invariant i <= |projects| && forall j | 0 <= j < i :: projects[j].id != p.id
    {
      if projects[i].id == p.id {
        PutProjectAt(projects, p, i);
        return projects[i := p];
      }
      i := i + 1;
    }
    PutProjectAt(projects, p, i);
    return projects + [p];
  }

  // ---------- the changes ----------

  /** One administrative change of the state; none stands for a change that refuses. */
  datatype Change =
    | SetPersona(persona: Persona)
    | ImportPersonas(personas: seq<Persona>)
    | SetProject(project: Project)
    | Configure(ghPath: string, persona: Persona, project: Project)
    | SetGHPath(ghPath: string)
    | SetPolicy(projectID: string, policy: Policy)

  function Changed(rules: Rules, s: State, change: Change): Option<State> {
    match change
    case SetPersona(p) => Some(s.(personas := PutPersona(s.personas, p)))
    case ImportPersonas(personas) =>
      if personas != [] && DistinctPersonas(personas) && forall p | p in personas :: !HasPersona(s.personas, p.id)
      then Some(s.(personas := s.personas + personas)) else None
    case SetProject(p) => Some(s.(projects := PutProject(s.projects, p)))
    case Configure(path, persona, project) =>
      Some(s.(ghPath := path, personas := PutPersona(s.personas, persona), projects := PutProject(s.projects, project)))
    case SetGHPath(path) => Some(s.(ghPath := path))
    case SetPolicy(id, policy) => WithPolicy(s, id, policy)
  }

  function WithPolicy(s: State, id: string, policy: Policy): Option<State> {
    var at := IndexOf(s.projects, id);
    if at == |s.projects| then None else Some(s.(projects := s.projects[at := s.projects[at].(policy := policy)]))
  }

  /** Where the first project with an ID is, or the end. */
  function IndexOf(projects: seq<Project>, id: string): (i: nat)
    ensures i <= |projects|
    ensures i < |projects| ==> projects[i].id == id
    ensures forall j | 0 <= j < i :: projects[j].id != id
  {
    if projects == [] || projects[0].id == id then 0 else 1 + IndexOf(projects[1..], id)
  }

  /** Both look the same, except for the personas and projects with the IDs named. */
  ghost predicate SameButFor(rules: Rules, s: State, s': State, personas: set<string>, projects: set<string>) {
    && s'.version == s.version
    && (forall id | id !in personas :: FindPersona(s'.personas, id) == FindPersona(s.personas, id))
    && (forall id | id != "" && id !in projects :: FindProject(rules, s'.projects, id, "") == FindProject(rules, s.projects, id, ""))
  }

  predicate ShowsPersona(s: State, p: Persona) {
    FindPersona(s.personas, p.id) == Some(p)
  }

  predicate ShowsProject(rules: Rules, s: State, p: Project) {
    p.id != "" ==> FindProject(rules, s.projects, p.id, "") == Some(p)
  }

  /** What a change makes of a state, as lookups show it; only imports and policies can be refused. */
  ghost predicate ChangesAs(rules: Rules, s: State, change: Change, next: Option<State>) {
    match change
    case SetPersona(p) =>
      && next.Some? && ShowsPersona(next.value, p) && SameButFor(rules, s, next.value, {p.id}, {})
      && next.value.ghPath == s.ghPath
    case SetProject(p) =>
      && next.Some? && ShowsProject(rules, next.value, p) && SameButFor(rules, s, next.value, {}, {p.id})
      && next.value.ghPath == s.ghPath
    case Configure(path, persona, project) =>
      && next.Some? && next.value.ghPath == path
      && ShowsPersona(next.value, persona) && ShowsProject(rules, next.value, project)
      && SameButFor(rules, s, next.value, {persona.id}, {project.id})
    case SetGHPath(path) =>
      next.Some? && next.value.ghPath == path && SameButFor(rules, s, next.value, {}, {})
    case ImportPersonas(personas) =>
      && (next.Some? <==>
            && |personas| > 0
            && (forall i, j | 0 <= i < j < |personas| :: personas[i].id != personas[j].id)
            && forall i | 0 <= i < |personas| :: FindPersona(s.personas, personas[i].id).None?)
      && (next.Some? ==>
            && next.value.ghPath == s.ghPath && (forall p | p in personas :: ShowsPersona(next.value, p))
            && SameButFor(rules, s, next.value, IDs(personas), {}))
    case SetPolicy(id, policy) =>
      id != "" ==>
        && (next.Some? <==> FindProject(rules, s.projects, id, "").Some?)
        && (next.Some? ==>
              && next.value.ghPath == s.ghPath
              && ShowsProject(rules, next.value, FindProject(rules, s.projects, id, "").value.(policy := policy))
              && SameButFor(rules, s, next.value, {}, {id}))
  }

  /** Every change does to the lookups exactly what it says. */
  lemma ChangesAreExact(rules: Rules, s: State, change: Change)
    ensures ChangesAs(rules, s, change, Changed(rules, s, change))
  {
    match change
    case SetPersona(p) => PersonaIsPut(s.personas, p);
    case SetProject(p) => ProjectIsPut(rules, s.projects, p);
    case Configure(_, persona, project) =>
      PersonaIsPut(s.personas, persona);
      ProjectIsPut(rules, s.projects, project);
    case SetGHPath(_) =>
    case ImportPersonas(personas) =>
      ImportIsDecided(s.personas, personas);
      if Changed(rules, s, change).Some? {
        ImportFinds(s.personas, personas);
      }
    case SetPolicy(id, policy) =>
      if id != "" {
        PolicyIsSet(rules, s.projects, id, policy);
      }
  }

  lemma PersonaIsPut(personas: seq<Persona>, p: Persona)
    ensures forall id :: FindPersona(PutPersona(personas, p), id) == if id == p.id then Some(p) else FindPersona(personas, id)
  {
    forall id
      ensures FindPersona(PutPersona(personas, p), id) == if id == p.id then Some(p) else FindPersona(personas, id)
    {
      PutFinds(personas, p, id);
    }
  }

  lemma ProjectIsPut(rules: Rules, projects: seq<Project>, p: Project)
    ensures forall id | id != "" :: FindProject(rules, PutProject(projects, p), id, "") ==
                                    if id == p.id then Some(p) else FindProject(rules, projects, id, "")
  {
    forall id | id != ""
      ensures FindProject(rules, PutProject(projects, p), id, "") ==
              if id == p.id then Some(p) else FindProject(rules, projects, id, "")
    {
      PutProjectFinds(rules, projects, p, id);
    }
  }

  lemma ImportIsDecided(old_: seq<Persona>, personas: seq<Persona>)
    ensures (forall p | p in personas :: !HasPersona(old_, p.id)) <==>
              forall i | 0 <= i < |personas| :: FindPersona(old_, personas[i].id).None?
  {
    forall p | p in personas
      ensures exists i :: 0 <= i < |personas| && personas[i] == p
    {
    }
  }

  lemma ImportFinds(old_: seq<Persona>, personas: seq<Persona>)
    requires DistinctPersonas(personas) && forall p | p in personas :: !HasPersona(old_, p.id)
    ensures forall p | p in personas :: FindPersona(old_ + personas, p.id) == Some(p)
    ensures forall id | id !in IDs(personas) :: FindPersona(old_ + personas, id) == FindPersona(old_, id)
  {
    forall p | p in personas
      ensures FindPersona(old_ + personas, p.id) == Some(p)
    {
      FindBehind(old_, personas, p.id);
      assert HasPersona(personas, p.id) by {
        var i :| 0 <= i < |personas| && personas[i] == p;
      }
      var found := FindPersona(personas, p.id).value;
      var i :| 0 <= i < |personas| && personas[i] == p;
      var j :| 0 <= j < |personas| && personas[j] == found;
    }
    forall id | id !in IDs(personas)
      ensures FindPersona(old_ + personas, id) == FindPersona(old_, id)
    {
      FindBehind(old_, personas, id);
      assert !HasPersona(personas, id);
    }
  }

  lemma {:induction false} FindBehind(a: seq<Persona>, b: seq<Persona>, id: string)
    ensures FindPersona(a + b, id) == if HasPersona(a, id) then FindPersona(a, id) else FindPersona(b, id)
    decreases |a|
  {
    if a == [] {
      assert a + b == b;
    } else if a[0].id != id {
      assert (a + b)[1..] == a[1..] + b;
      FindBehind(a[1..], b, id);
      assert FindPersona(a, id) == FindPersona(a[1..], id);
    }
  }

  lemma {:induction false} PolicyIsSet(rules: Rules, projects: seq<Project>, id: string, policy: Policy)
    requires id != ""
    ensures var at := IndexOf(projects, id);
            && (at < |projects| <==> FindProject(rules, projects, id, "").Some?)
            && (at < |projects| ==>
                  forall other | other != "" ::
                    FindProject(rules, projects[at := projects[at].(policy := policy)], other, "") ==
                    if other == id then Some(FindProject(rules, projects, id, "").value.(policy := policy))
                    else FindProject(rules, projects, other, ""))
    decreases |projects|
  {
    if projects != [] {
      var at := IndexOf(projects, id);
      if projects[0].id == id {
        var changed := projects[0 := projects[0].(policy := policy)];
        assert changed[1..] == projects[1..];
      } else {
        PolicyIsSet(rules, projects[1..], id, policy);
        if at < |projects| {
          var changed := projects[at := projects[at].(policy := policy)];
          assert changed[1..] == projects[1..][at - 1 := projects[1..][at - 1].(policy := policy)];
        }
      }
    }
  }

  /** Whether a new state is taken over. */
  predicate Accepts(rules: Rules, path: string, next: Option<State>, fault: WriteFault) {
    next.Some? && ValidState(rules, next.value) && Apart(rules, path, next.value) && fault.NoFault?
  }

  function After(rules: Rules, path: string, s: State, change: Change, fault: WriteFault): State {
    var next := Changed(rules, s, change);
    if Accepts(rules, path, next, fault) then next.value else s
  }

  // ---------- memory and file ----------

  /** What the store holds in memory, and what its file holds. */
  datatype Saved = Saved(state: State, disk: Option<State>)

  function OnDisk(disk: Option<State>): State {
    if disk.Some? then disk.value else EMPTY_STATE
  }

  predicate Writes(fault: WriteFault) {
    !fault.BeforeReplace?
  }

  function Made(rules: Rules, path: string, s: Saved, change: Change, fault: WriteFault): Saved {
    var next := Changed(rules, s.state, change);
    Saved(After(rules, path, s.state, change, fault),
          if Accepts(rules, path, next, NoFault) && Writes(fault) then next else s.disk)
  }

  /** A change is made, or the daemon is started anew and loads the file. */
  datatype StoreEvent = Makes(change: Change, fault: WriteFault) | Restarts

  function AfterEvent(rules: Rules, path: string, s: Saved, e: StoreEvent): Saved {
    match e
    case Makes(change, fault) => Made(rules, path, s, change, fault)
    case Restarts => s.(state := OnDisk(s.disk))
  }

  predicate IsStoreStep(rules: Rules, path: string, ss: seq<Saved>, events: seq<StoreEvent>, i: nat)
    requires i < |events| && |ss| == |events| + 1
  {
    ss[i + 1] == AfterEvent(rules, path, ss[i], events[i])
  }

  /** `ss` lists what is held between the events, from a store without a file on. */
  predicate IsStoreHistory(rules: Rules, path: string, ss: seq<Saved>, events: seq<StoreEvent>) {
    && |ss| == |events| + 1 && ss[0] == Saved(EMPTY_STATE, None)
    && forall i | 0 <= i < |events| :: IsStoreStep(rules, path, ss, events, i)
  }

  /** The state is valid, and no project contains the state file or the original gh executable. */
  predicate SoundState(rules: Rules, path: string, s: State) {
    && ValidState(rules, s)
    && forall p | p in s.projects ::
         !rules.within(path, p.root) && (s.ghPath == "" || !rules.within(s.ghPath, p.root))
  }

  /** In every history, memory and file are valid, and no project contains the file or the executable. */
  lemma {:induction false} StoreStaysSound(rules: Rules, path: string, ss: seq<Saved>, events: seq<StoreEvent>, i: nat)
    requires IsStoreHistory(rules, path, ss, events) && i < |ss|
    ensures SoundState(rules, path, ss[i].state) && SoundState(rules, path, OnDisk(ss[i].disk))
  {
    if i > 0 {
      StoreStaysSound(rules, path, ss, events, i - 1);
      assert IsStoreStep(rules, path, ss, events, i - 1);
    }
  }

  predicate MemoryIsFile(s: Saved) {
    s.state == OnDisk(s.disk)
  }

  /** An acceptable change to something else is written, and the write fails behind the replacement. */
  predicate ChangesLate(rules: Rules, path: string, s: Saved, e: StoreEvent) {
    && e.Makes? && e.fault.AfterReplace?
    && var next := Changed(rules, s.state, e.change);
    Accepts(rules, path, next, NoFault) && next.value != s.state
  }

  /** Where memory and file agree, they agree after one event exactly if it is no late failing change. */
  lemma MemoryFileStep(rules: Rules, path: string, s: Saved, e: StoreEvent)
    requires MemoryIsFile(s)
    ensures MemoryIsFile(AfterEvent(rules, path, s, e)) <==> !ChangesLate(rules, path, s, e)
  {
  }

  /**
   * A change takes effect as a whole or not at all, in memory and in what a restart would load, in exactly those
   * histories in which no write of a change fails behind the replacement of the file.
   */
  lemma {:induction false} WholeOrNotAtAll(rules: Rules, path: string, ss: seq<Saved>, events: seq<StoreEvent>, n: nat)
    requires IsStoreHistory(rules, path, ss, events) && n <= |events|
    ensures (forall i | 0 <= i <= n :: MemoryIsFile(ss[i])) <==>
              forall i | 0 <= i < n :: !ChangesLate(rules, path, ss[i], events[i])
  {
    if n > 0 {
      WholeOrNotAtAll(rules, path, ss, events, n - 1);
      assert IsStoreStep(rules, path, ss, events, n - 1);
      if MemoryIsFile(ss[n - 1]) {
        MemoryFileStep(rules, path, ss[n - 1], events[n - 1]);
      }
    }
  }

  class Store {
    const rules: Rules
    const path: string
    var state: State
    var disk: Option<State>

    ghost predicate Valid()
      reads this
    {
      ValidState(rules, state)
    }

    constructor Fresh(rules: Rules, path: string, disk: Option<State>)
      requires disk.Some? ==> ValidState(rules, disk.value)
      ensures Valid() && this.rules == rules && this.path == path && this.disk == disk
      ensures state == if disk.Some? then disk.value else EMPTY_STATE
    {
      this.rules := rules;
      this.path := path;
      this.disk := disk;
      state := if disk.Some? then disk.value else EMPTY_STATE;
    }

    /** What Update does once the change has been made on a copy. */
    method Update(next: Option<State>, fault: WriteFault) returns (ok: bool)
      requires Valid()
      modifies this
      ensures Valid()
      ensures ok <==> Accepts(rules, path, next, fault)
      ensures state == if ok then next.value else old(state)
      ensures disk == if Accepts(rules, path, next, NoFault) && !fault.BeforeReplace? then next else old(disk)
    {
      if next.None? {
        return false;
      }
      var valid := Validate(rules, next.value);
      if !valid {
        return false;
      }
      var i := 0;
      while i < |next.value.projects|
        invariant i <= |next.value.projects|
        invariant Apart(rules, path, next.value.(projects := next.value.projects[..i]))
      {
        var root := next.value.projects[i].root;
        if rules.within(path, root) || (next.value.ghPath != "" && rules.within(next.value.ghPath, root)) {
          assert next.value.projects[i] in next.value.projects;
          return false;
        }
        assert next.value.projects[..i + 1] == next.value.projects[..i] + [next.value.projects[i]];
        i := i + 1;
      }
      assert next.value.projects[..i] == next.value.projects;
      if fault.BeforeReplace? {
        return false;
      }
      disk := next;
      if fault.AfterReplace? {
        return false;
      }
      state := next.value;
      return true;
    }

    /** Carries out one change: the state stays valid, and a change that is refused or not written leaves it alone. */
    method Apply(change: Change, fault: WriteFault) returns (ok: bool)
      requires Valid()
      modifies this
      ensures Valid()
      ensures ok <==> Accepts(rules, path, Changed(rules, old(state), change), fault)
      ensures Saved(state, disk) == Made(rules, path, old(Saved(state, disk)), change, fault)
    {
      var next: Option<State>;
      match change {
        case SetPersona(p) =>
          var personas := ReplacePersona(state.personas, p);
          next := Some(state.(personas := personas));
        case ImportPersonas(personas) =>
          next := Import(state, personas);
        case SetProject(p) =>
          var projects := ReplaceProject(state.projects, p);
          next := Some(state.(projects := projects));
        case Configure(ghPath, persona, project) =>
          var personas := ReplacePersona(state.personas, persona);
          var projects := ReplaceProject(state.projects, project);
          next := Some(state.(ghPath := ghPath, personas := personas, projects := projects));
        case SetGHPath(ghPath) =>
          next := Some(state.(ghPath := ghPath));
        case SetPolicy(id, policy) =>
          next := ChangePolicy(state, id, policy);
      }
      ok := Update(next, fault);
    }
  }

  method Import(s: State, personas: seq<Persona>) returns (next: Option<State>)
    ensures next == if personas != [] && DistinctPersonas(personas) && forall p | p in personas :: !HasPersona(s.personas, p.id)
                    then Some(s.(personas := s.personas + personas)) else None
  {
    if personas == [] {
      return None;
    }
    var all := s.personas;
    var i := 0;
    while i < |personas|
      invariant i <= |personas| && all == s.personas + personas[..i]
      invariant forall p | p in personas[..i] :: !HasPersona(s.personas, p.id)
      invariant DistinctPersonas(personas[..i])
    {
      if FindPersona(all, personas[i].id).Some? {
        RefusedImport(s.personas, personas, i);
        return None;
      }
      NewcomerFits(s.personas, personas, i);
      all := all + [personas[i]];
      i := i + 1;
    }
    assert personas[..i] == personas;
    return Some(s.(personas := all));
  }

  lemma RefusedImport(old_: seq<Persona>, personas: seq<Persona>, i: nat)
    requires i < |personas| && HasPersona(old_ + personas[..i], personas[i].id)
    ensures HasPersona(old_, personas[i].id) || !DistinctPersonas(personas)
  {
    var j :| 0 <= j < |old_ + personas[..i]| && (old_ + personas[..i])[j].id == personas[i].id;
    if j < |old_| {
      assert old_[j].id == personas[i].id;
    } else {
      assert personas[j - |old_|].id == personas[i].id;
    }
  }

  lemma NewcomerFits(old_: seq<Persona>, personas: seq<Persona>, i: nat)
    requires i < |personas| && !HasPersona(old_ + personas[..i], personas[i].id)
    requires DistinctPersonas(personas[..i])
    ensures personas[..i + 1] == personas[..i] + [personas[i]]
    ensures !HasPersona(old_, personas[i].id) && DistinctPersonas(personas[..i + 1])
  {
    forall j | 0 <= j < |old_|
      ensures old_[j].id != personas[i].id
    {
      assert (old_ + personas[..i])[j] == old_[j];
    }
    forall j | 0 <= j < i
      ensures personas[j].id != personas[i].id
    {
      assert (old_ + personas[..i])[|old_| + j] == personas[j];
    }
  }

  method ChangePolicy(s: State, id: string, policy: Policy) returns (next: Option<State>)
    ensures next == WithPolicy(s, id, policy)
  {
    var i := 0;
    while i < |s.projects|
      invariant i <= |s.projects|
      invariant forall j | 0 <= j < i :: s.projects[j].id != id
    {
      if s.projects[i].id == id {
        return Some(s.(projects := s.projects[i := s.projects[i].(policy := policy)]));
      }
      i := i + 1;
    }
    return None;
  }
}
