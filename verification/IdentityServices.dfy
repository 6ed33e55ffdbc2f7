/** Agent sessions: creating, activating, revoking and using them while the identity state changes underneath. */
module IdentityServices {
  import opened Wrappers
  import opened IdentityModels
  import opened IdentityStores
  import opened CatalogCommands
  import opened GitCredentials

  datatype Session = Session(
    id: string, status: string, projectID: string, personaID: string, backend: string, principal: string)

  /** `open` names the sessions whose endpoint accepts connections. */
  datatype Desk = Desk(state: State, sessions: map<string, Session>, open: set<string>)

  // ---------- creating a session ----------

  /** What a request for a session asks for; `principal` is what the platform made of the caller, if it is accepted. */
  datatype SessionRequest = SessionRequest(projectID: string, backend: string, principal: string, native: Option<string>)

  /** The first half of creating a session: it only reads a snapshot of the state. */
  function NewSession(rules: Rules, s: State, r: SessionRequest, id: string): Option<Session> {
    var p := FindProject(rules, s.projects, r.projectID, "");
    if p.None? then None
    else if r.backend !in {"proxy-level", "native", "docker", "podman"} then None
    else if p.value.mode == "agent-isolation" && r.backend == "proxy-level" then None
    else if r.backend == "native" && r.native.None? then None
    else Some(Session(
      id, if r.backend == "proxy-level" then "active" else "awaiting-agent",
      p.value.id, p.value.persona, r.backend, if r.backend == "native" then r.native.value else r.principal))
  }

  /** A new session has its project's primary persona, and a backend its project accepts. */
  predicate MadeFor(session: Session, p: Project) {
    && session.projectID == p.id
    && session.personaID == p.persona
    && (p.mode == "agent-isolation" ==> session.backend != "proxy-level")
  }

  // ---------- what operators do ----------

  datatype Step =
    | Insert(session: Session)
    | Revoke(id: string)
    | Select(id: string, personaID: string)
    | Administer(change: Change, fault: WriteFault)
    | Close

  predicate Permits(p: Project, personaID: string) {
    personaID == p.persona || personaID in p.alternatives
  }

  function HostOf(persona: Option<Persona>): string {
    if persona.Some? then persona.value.host else ""
  }

  /** Whether a session may take on a persona now. */
  predicate MaySelect(rules: Rules, s: State, session: Session, personaID: string) {
    var p := FindProject(rules, s.projects, session.projectID, "");
    && p.Some?
    && Allows(p.value.policy, "persona")
    && Permits(p.value, personaID)
    && FindPersona(s.personas, personaID).Some?
    && HostOf(FindPersona(s.personas, p.value.persona)) == HostOf(FindPersona(s.personas, personaID))
  }

  function Selected(rules: Rules, d: Desk, id: string, personaID: string): Desk {
    if id in d.sessions && MaySelect(rules, d.state, d.sessions[id], personaID)
    then d.(sessions := d.sessions[id := d.sessions[id].(personaID := personaID)]) else d
  }

  function Activated(d: Desk, id: string): Desk {
    if id in d.sessions then d.(sessions := d.sessions[id := d.sessions[id].(status := "active")]) else d
  }

  function Next(rules: Rules, path: string, d: Desk, step: Step): Desk {
    match step
    case Insert(session) =>
      d.(sessions := d.sessions[session.id := session],
         open := if session.backend == "native" then d.open + {session.id} else d.open)
    case Revoke(id) => if id in d.sessions then d.(sessions := d.sessions - {id}, open := d.open - {id}) else d
    case Select(id, personaID) => Selected(rules, d, id, personaID)
    case Administer(change, fault) => d.(state := IdentityStores.After(rules, path, d.state, change, fault))
    case Close => d.(sessions := map[], open := {})
  }

  // ---------- using a session ----------

  datatype ContextRequest = ContextRequest(projectID: string, root: string, sessionID: string)

  function Context(rules: Rules, d: Desk, r: ContextRequest): Option<(Project, Persona)> {
    if r.sessionID != "" then
      if r.sessionID !in d.sessions then None
      else
        var session := d.sessions[r.sessionID];
        var p := FindProject(rules, d.state.projects, session.projectID, "");
        if p.None? then None
        else if p.value.mode == "agent-isolation" && session.backend == "proxy-level" then None
        else if !Permits(p.value, session.personaID) then None
        else WithPersona(d.state, p.value, session.personaID)
    else
      var p := FindProject(rules, d.state.projects, r.projectID, r.root);
      if p.None? || p.value.mode == "agent-isolation" then None
      else WithPersona(d.state, p.value, p.value.persona)
  }

  function WithPersona(s: State, p: Project, personaID: string): Option<(Project, Persona)> {
    var persona := FindPersona(s.personas, personaID);
    if persona.None? then None else Some((p, persona.value))
  }

  /**
   * In a valid state a context is always a configured project with one of its own personas, on the host of its
   * primary one up to case; a persona that passed the earlier checks is always found.
   */
  lemma ContextIsPermitted(rules: Rules, d: Desk, r: ContextRequest)
    requires ValidState(rules, d.state)
    ensures Context(rules, d, r).Some? ==>
              var (p, persona) := Context(rules, d, r).value;
              && p in d.state.projects
              && persona in d.state.personas
              && Permits(p, persona.id)
              && rules.fold(persona.host) == rules.fold(HostOf(FindPersona(d.state.personas, p.persona)))
              && (r.sessionID != "" ==>
                    && r.sessionID in d.sessions
                    && persona.id == d.sessions[r.sessionID].personaID
                    && p.id == d.sessions[r.sessionID].projectID)
              && (p.mode == "agent-isolation" ==>
                    r.sessionID != "" && d.sessions[r.sessionID].backend != "proxy-level")
    ensures forall p, personaID | p in d.state.projects && Permits(p, personaID) ::
              WithPersona(d.state, p, personaID).Some?
  {
    forall p, personaID | p in d.state.projects && Permits(p, personaID)
      ensures WithPersona(d.state, p, personaID).Some?
      ensures rules.fold(HostOf(FindPersona(d.state.personas, personaID)))
           == rules.fold(HostOf(FindPersona(d.state.personas, p.persona)))
    {
      assert ValidProject(rules, d.state.personas, p);
      if personaID != p.persona {
        assert ValidAlternative(rules, d.state.personas, p.persona, personaID);
      }
    }
  }

  // ---------- exactly who may do what ----------

  /** With unique IDs a project with an ID is the one that is found. */
  lemma ProjectIsFound(rules: Rules, projects: seq<Project>, p: Project, id: string, root: string)
    requires DistinctProjects(rules, projects) && p in projects && Matches(rules, p, id, root)
    ensures FindProject(rules, projects, id, root) == Some(p)
  {
    var found := FindProject(rules, projects, id, root).value;
    var i :| 0 <= i < |projects| && projects[i] == p;
    var j :| 0 <= j < |projects| && projects[j] == found;
  }

  lemma PersonaIsFound(personas: seq<Persona>, p: Persona)
    requires DistinctPersonas(personas) && p in personas
    ensures FindPersona(personas, p.id) == Some(p)
  {
    var i :| 0 <= i < |personas| && personas[i] == p;
    assert HasPersona(personas, p.id);
    var found := FindPersona(personas, p.id).value;
    var j :| 0 <= j < |personas| && personas[j] == found;
  }

  /** The project a session belongs to permits the persona to its agent: by a policy that says so, on the same host. */
  predicate PermitsPersona(s: State, projectID: string, personaID: string) {
    exists p | p in s.projects ::
      && p.id == projectID
      && "persona" in p.policy.exceptions && p.policy.exceptions["persona"]
      && (personaID == p.persona || personaID in p.alternatives)
      && ShareHost(s.personas, p.persona, personaID)
  }

  predicate ShareHost(personas: seq<Persona>, a: string, b: string) {
    exists i, j | 0 <= i < |personas| && 0 <= j < |personas| ::
      personas[i].id == a && personas[j].id == b && personas[i].host == personas[j].host
  }

  lemma SharesHost(personas: seq<Persona>, a: string, b: string)
    requires DistinctPersonas(personas) && HasPersona(personas, a)
    ensures ShareHost(personas, a, b) <==>
              HasPersona(personas, b) && HostOf(FindPersona(personas, a)) == HostOf(FindPersona(personas, b))
  {
    var primary := FindPersona(personas, a).value;
    var i :| 0 <= i < |personas| && personas[i] == primary;
    if HasPersona(personas, b) {
      var other := FindPersona(personas, b).value;
      var j :| 0 <= j < |personas| && personas[j] == other;
      assert personas[i].id == a && personas[j].id == b;
    }
  }

  lemma SelectsExactly(rules: Rules, s: State, session: Session, personaID: string)
    requires ValidState(rules, s)
    ensures MaySelect(rules, s, session, personaID) <==> PermitsPersona(s, session.projectID, personaID)
  {
    assert "persona" in PERMISSIONS;
    forall p | p in s.projects && p.id == session.projectID
      ensures FindProject(rules, s.projects, session.projectID, "") == Some(p)
      ensures ShareHost(s.personas, p.persona, personaID) <==>
                HasPersona(s.personas, personaID)
                && HostOf(FindPersona(s.personas, p.persona)) == HostOf(FindPersona(s.personas, personaID))
      ensures Allows(p.policy, "persona") <==> "persona" in p.policy.exceptions && p.policy.exceptions["persona"]
    {
      assert ValidProject(rules, s.personas, p);
      ProjectIsFound(rules, s.projects, p, session.projectID, "");
      SharesHost(s.personas, p.persona, personaID);
      NoPresetHasPersona(p.policy.preset);
    }
    if MaySelect(rules, s, session, personaID) {
      var p := FindProject(rules, s.projects, session.projectID, "").value;
      assert p in s.projects && p.id == session.projectID;
    }
  }

  lemma NoPresetHasPersona(preset: string)
    ensures "persona" !in Preset(preset)
  {
  }

  /** The request is for this project under this persona, and both are permitted. */
  predicate MayUse(rules: Rules, d: Desk, r: ContextRequest, p: Project, persona: Persona) {
    && p in d.state.projects && persona in d.state.personas
    && if r.sessionID != "" then
         && r.sessionID in d.sessions
         && var session := d.sessions[r.sessionID];
         && p.id == session.projectID && persona.id == session.personaID
         && (persona.id == p.persona || persona.id in p.alternatives)
         && (p.mode == "agent-isolation" ==> session.backend != "proxy-level")
       else
         && p.mode != "agent-isolation" && persona.id == p.persona
         && if r.projectID != "" then p.id == r.projectID
            else r.root != "" && rules.pathKey(r.root) == rules.pathKey(p.root)
  }

  /** In a valid state a request gets exactly the project and the persona that it may use. */
  lemma ContextExactly(rules: Rules, d: Desk, r: ContextRequest, p: Project, persona: Persona)
    requires ValidState(rules, d.state)
    ensures Context(rules, d, r) == Some((p, persona)) <==> MayUse(rules, d, r, p, persona)
  {
    if MayUse(rules, d, r, p, persona) {
      assert ValidProject(rules, d.state.personas, p);
      PersonaIsFound(d.state.personas, persona);
      if r.sessionID != "" {
        ProjectIsFound(rules, d.state.projects, p, d.sessions[r.sessionID].projectID, "");
      } else {
        ProjectIsFound(rules, d.state.projects, p, r.projectID, r.root);
      }
    }
  }

  /** What a new session looks like for a project that accepts the request. */
  predicate IsNewSession(p: Project, r: SessionRequest, id: string, session: Session) {
    && p.id == r.projectID
    && session.id == id && session.projectID == p.id && session.personaID == p.persona && session.backend == r.backend
    && (r.backend == "proxy-level" || r.backend == "native" || r.backend == "docker" || r.backend == "podman")
    && (p.mode == "agent-isolation" ==> r.backend != "proxy-level")
    && session.status == (if r.backend == "proxy-level" then "active" else "awaiting-agent")
    && if r.backend == "native" then r.native == Some(session.principal) else session.principal == r.principal
  }

  /** In a valid state a request for a session is met exactly by the session that fits one of the projects. */
  lemma SessionsAreMadeExactly(rules: Rules, s: State, r: SessionRequest, id: string, session: Session)
    requires ValidState(rules, s)
    ensures NewSession(rules, s, r, id) == Some(session) <==> exists p :: p in s.projects && IsNewSession(p, r, id, session)
  {
    forall p | p in s.projects && p.id == r.projectID
      ensures FindProject(rules, s.projects, r.projectID, "") == Some(p)
    {
      assert ValidProject(rules, s.personas, p);
      ProjectIsFound(rules, s.projects, p, r.projectID, "");
    }
    if NewSession(rules, s, r, id) == Some(session) {
      var p := FindProject(rules, s.projects, r.projectID, "").value;
      assert p in s.projects && IsNewSession(p, r, id, session);
    }
  }

  // ---------- what agents do ----------

  datatype AgentRequest = Execute(invocation: Invocation) | AskContext | TakePersona(personaID: string) | Other

  /** The answer to an agent: its context without the root, the start of a command, success, or a refusal. */
  datatype AgentAnswer = Shows(project: Project, persona: Persona) | Runs(project: Project, persona: Persona) | Done | Refused

  function Answered(rules: Rules, d: Desk, sessionID: string, request: AgentRequest): AgentAnswer {
    var context := Context(rules, d, ContextRequest("", "", sessionID));
    match request
    case Execute(invocation) =>
      if context.None? || (sessionID != "" && IsGitCredential(invocation)) then Refused
      else Runs(context.value.0, context.value.1)
    case AskContext => if context.None? then Refused else Shows(context.value.0.(root := ""), context.value.1)
    case TakePersona(personaID) =>
      if sessionID in d.sessions && MaySelect(rules, d.state, d.sessions[sessionID], personaID) then Done else Refused
    case Other => Refused
  }

  /** The effect of a request that came in over the endpoint of a session. */
  function Handled(rules: Rules, d: Desk, sessionID: string, request: AgentRequest): Desk {
    if request.TakePersona? then Selected(rules, d, sessionID, request.personaID) else d
  }

  /** What an agent is told concerns the project and the persona of its own session, and never shows a root. */
  lemma AgentsSeeTheirOwn(rules: Rules, d: Desk, sessionID: string, request: AgentRequest)
    requires ValidState(rules, d.state) && sessionID != ""
    ensures var answer := Answered(rules, d, sessionID, request);
            answer.Shows? || answer.Runs? ==>
              && sessionID in d.sessions
              && answer.persona in d.state.personas && answer.persona.id == d.sessions[sessionID].personaID
              && answer.project.id == d.sessions[sessionID].projectID && Permits(answer.project, answer.persona.id)
              && (answer.Shows? ==> answer.project.root == "")
              && (answer.Runs? ==> answer.project in d.state.projects && !IsGitCredential(request.invocation))
  {
    ContextIsPermitted(rules, d, ContextRequest("", "", sessionID));
  }

  /** Every answer an agent can get, and exactly when it gets it. */
  lemma AnswersAreExact(rules: Rules, d: Desk, sessionID: string, request: AgentRequest)
    requires ValidState(rules, d.state) && sessionID != ""
    ensures var answer := Answered(rules, d, sessionID, request);
            var r := ContextRequest("", "", sessionID);
            && (forall p, persona :: answer == Runs(p, persona) <==>
                  && request.Execute? && MayUse(rules, d, r, p, persona)
                  && !(|request.invocation.arguments| >= 2 && request.invocation.arguments[..2] == ["auth", "git-credential"]))
            && (forall p, persona :: answer == Shows(p, persona) ==> p.root == "")
            && (forall p, persona :: MayUse(rules, d, r, p, persona) && request.AskContext? ==>
                  answer == Shows(p.(root := ""), persona))
            && (answer.Shows? ==> exists p :: MayUse(rules, d, r, p, answer.persona))
            && (answer.Done? <==>
                  && request.TakePersona? && sessionID in d.sessions
                  && PermitsPersona(d.state, d.sessions[sessionID].projectID, request.personaID))
  {
    var r := ContextRequest("", "", sessionID);
    forall p, persona
      ensures Context(rules, d, r) == Some((p, persona)) <==> MayUse(rules, d, r, p, persona)
    {
      ContextExactly(rules, d, r, p, persona);
    }
    if Context(rules, d, r).Some? {
      var (p, persona) := Context(rules, d, r).value;
      assert MayUse(rules, d, r, p, persona);
    }
    if request.TakePersona? && sessionID in d.sessions {
      SelectsExactly(rules, d.state, d.sessions[sessionID], request.personaID);
    }
    if request.Execute? && |request.invocation.arguments| >= 2 {
      var arguments := request.invocation.arguments;
      assert arguments[..2] == [arguments[0], arguments[1]];
    }
  }

  /** A permitted request for a persona gives the session that persona, and changes nothing else. */
  lemma PermittedPersonaIsTaken(rules: Rules, d: Desk, id: string, personaID: string)
    requires ValidState(rules, d.state) && id in d.sessions
    requires PermitsPersona(d.state, d.sessions[id].projectID, personaID)
    ensures Answered(rules, d, id, TakePersona(personaID)) == Done
    ensures Handled(rules, d, id, TakePersona(personaID)) ==
            d.(sessions := d.sessions[id := d.sessions[id].(personaID := personaID)])
  {
    SelectsExactly(rules, d.state, d.sessions[id], personaID);
  }

  // ---------- histories ----------

  /** An operator's step; an agent connects to the endpoint of a session, or asks for something over it. */
  datatype Event = Operator(step: Step) | Connects(id: string) | Asks(id: string, request: AgentRequest)

  function After(rules: Rules, path: string, d: Desk, e: Event): Desk {
    match e
    case Operator(step) => Next(rules, path, d, step)
    case Connects(id) => Activated(d, id)
    case Asks(id, request) => Handled(rules, d, id, request)
  }

  /** A service starts with no sessions; `ds` lists its states between the events. */
  predicate IsHistory(rules: Rules, path: string, ds: seq<Desk>, events: seq<Event>) {
    && |ds| == |events| + 1
    && ds[0].sessions == map[] && ds[0].open == {} && ValidState(rules, ds[0].state)
    && forall i | 0 <= i < |events| :: IsStep(rules, path, ds, events, i)
  }

  predicate IsStep(rules: Rules, path: string, ds: seq<Desk>, events: seq<Event>, i: nat)
    requires i < |events| && |ds| == |events| + 1
  {
    ds[i + 1] == After(rules, path, ds[i], events[i])
  }

  predicate Inserts(e: Event, id: string) {
    e.Operator? && e.step.Insert? && e.step.session.id == id
  }

  /** Session IDs are fresh. */
  ghost predicate FreshIDs(events: seq<Event>) {
    forall i, j, id {:trigger Inserts(events[i], id), Inserts(events[j], id)} |
      0 <= i < j < |events| && Inserts(events[i], id) :: !Inserts(events[j], id)
  }

  ghost predicate InsertedBefore(events: seq<Event>, i: nat, id: string)
    requires i <= |events|
  {
    exists k :: 0 <= k < i && Inserts(events[k], id)
  }

  predicate GoodDesk(rules: Rules, d: Desk) {
    && ValidState(rules, d.state)
    && d.open <= d.sessions.Keys
    && forall id | id in d.sessions :: d.sessions[id].id == id
  }

  lemma EventKeeps(rules: Rules, path: string, d: Desk, e: Event)
    requires GoodDesk(rules, d)
    ensures GoodDesk(rules, After(rules, path, d, e))
    ensures forall id | id in After(rules, path, d, e).sessions :: id in d.sessions || Inserts(e, id)
  {
  }

  /** The state stays valid, every session was inserted, and only sessions have an open endpoint. */
  lemma {:induction false} HistoryKeeps(rules: Rules, path: string, ds: seq<Desk>, events: seq<Event>, i: nat)
    requires IsHistory(rules, path, ds, events) && i < |ds|
    ensures GoodDesk(rules, ds[i])
    ensures forall id | id in ds[i].sessions :: InsertedBefore(events, i, id)
  {
    if i > 0 {
      HistoryKeeps(rules, path, ds, events, i - 1);
      assert IsStep(rules, path, ds, events, i - 1);
      EventKeeps(rules, path, ds[i - 1], events[i - 1]);
      forall id | id in ds[i].sessions
        ensures InsertedBefore(events, i, id)
      {
        if !Inserts(events[i - 1], id) {
          StillInserted(events, i - 1, i, id);
        }
      }
    }
  }

  lemma StillInserted(events: seq<Event>, i: nat, j: nat, id: string)
    requires i <= j <= |events| && InsertedBefore(events, i, id)
    ensures InsertedBefore(events, j, id)
  {
  }

  lemma NotInsertedAgain(events: seq<Event>, i: nat, j: nat, id: string)
    requires FreshIDs(events) && i <= j < |events| && InsertedBefore(events, i, id)
    ensures !Inserts(events[j], id)
  {
    var k :| 0 <= k < i && Inserts(events[k], id);
  }

  /**
   * Once a session that was inserted is gone, by revocation or shutdown, it never comes back, whatever activations
   * and selections still arrive for it; and its endpoint is closed.
   */
  lemma {:induction false} RevokedStaysRevoked(
    rules: Rules, path: string, ds: seq<Desk>, events: seq<Event>, i: nat, j: nat, id: string)
    requires IsHistory(rules, path, ds, events) && FreshIDs(events) && i <= j < |ds|
    requires InsertedBefore(events, i, id) && id !in ds[i].sessions
    ensures id !in ds[j].sessions && id !in ds[j].open
  {
    HistoryKeeps(rules, path, ds, events, j);
    if i < j {
      RevokedStaysRevoked(rules, path, ds, events, i, j - 1, id);
      HistoryKeeps(rules, path, ds, events, j - 1);
      assert IsStep(rules, path, ds, events, j - 1);
      EventKeeps(rules, path, ds[j - 1], events[j - 1]);
      NotInsertedAgain(events, i, j - 1, id);
    }
  }

  /** A session keeps its project, backend and principal for life, and once active it stays active. */
  lemma {:induction false} SessionsKeepIdentity(
    rules: Rules, path: string, ds: seq<Desk>, events: seq<Event>, i: nat, j: nat, id: string)
    requires IsHistory(rules, path, ds, events) && FreshIDs(events) && i <= j < |ds|
    requires id in ds[i].sessions && id in ds[j].sessions
    ensures SameSession(ds[i].sessions[id], ds[j].sessions[id])
  {
    if i < j {
      HistoryKeeps(rules, path, ds, events, i);
      HistoryKeeps(rules, path, ds, events, j - 1);
      NotInsertedAgain(events, i, j - 1, id);
      assert IsStep(rules, path, ds, events, j - 1);
      EventKeeps(rules, path, ds[j - 1], events[j - 1]);
      SessionsKeepIdentity(rules, path, ds, events, i, j - 1, id);
      EventKeepsSession(rules, path, ds[j - 1], events[j - 1], id);
    }
  }

  predicate SameSession(before: Session, after: Session) {
    && after == before.(personaID := after.personaID, status := after.status)
    && (before.status == "active" ==> after.status == "active")
  }

  lemma EventKeepsSession(rules: Rules, path: string, d: Desk, e: Event, id: string)
    requires id in d.sessions && id in After(rules, path, d, e).sessions && !Inserts(e, id)
    ensures SameSession(d.sessions[id], After(rules, path, d, e).sessions[id])
  {
  }

  /**
   * In every history, if an event changes the persona of a session, it is a selection of that persona for that session,
   * and the configuration of the time permits it to the session's project.
   */
  lemma PersonasChangeByPermission(
    rules: Rules, path: string, ds: seq<Desk>, events: seq<Event>, i: nat, id: string)
    requires IsHistory(rules, path, ds, events) && FreshIDs(events) && i < |events|
    requires id in ds[i].sessions && id in ds[i + 1].sessions
    requires ds[i + 1].sessions[id].personaID != ds[i].sessions[id].personaID
    ensures var personaID := ds[i + 1].sessions[id].personaID;
            && (events[i] == Operator(Select(id, personaID)) || events[i] == Asks(id, TakePersona(personaID)))
            && PermitsPersona(ds[i].state, ds[i].sessions[id].projectID, personaID)
  {
    HistoryKeeps(rules, path, ds, events, i);
    NotInsertedAgain(events, i, i, id);
    assert IsStep(rules, path, ds, events, i);
    SelectsExactly(rules, ds[i].state, ds[i].sessions[id], ds[i + 1].sessions[id].personaID);
  }

  /** The event ends a session: it revokes it, or closes the service. */
  predicate Ends(e: Event, id: string) {
    e == Operator(Revoke(id)) || e == Operator(Step.Close)
  }

  /** A session that was inserted is there, as it was made, and stays until it is revoked or the service is closed. */
  lemma {:induction false} SessionsLast(
    rules: Rules, path: string, ds: seq<Desk>, events: seq<Event>, i: nat, j: nat, session: Session)
    requires IsHistory(rules, path, ds, events) && FreshIDs(events) && i < j < |ds|
    requires events[i] == Operator(Insert(session))
    ensures ds[i + 1].sessions == ds[i].sessions[session.id := session]
    ensures session.id in ds[j].sessions <==> forall k | i < k < j :: !Ends(events[k], session.id)
  {
    assert IsStep(rules, path, ds, events, i);
    if j > i + 1 {
      SessionsLast(rules, path, ds, events, i, j - 1, session);
      assert IsStep(rules, path, ds, events, j - 1);
      assert Inserts(events[i], session.id);
      NotInsertedAgain(events, j - 1, j - 1, session.id);
      EventEnds(rules, path, ds[j - 1], events[j - 1], session.id);
    }
  }

  lemma EventEnds(rules: Rules, path: string, d: Desk, e: Event, id: string)
    requires !Inserts(e, id)
    ensures id in After(rules, path, d, e).sessions <==> id in d.sessions && !Ends(e, id)
  {
  }

  /** An endpoint accepts connections exactly for the sessions there are whose backend is native. */
  lemma {:induction false} EndpointsAreNative(
    rules: Rules, path: string, ds: seq<Desk>, events: seq<Event>, i: nat, id: string)
    requires IsHistory(rules, path, ds, events) && FreshIDs(events) && i < |ds|
    ensures id in ds[i].open <==> id in ds[i].sessions && ds[i].sessions[id].backend == "native"
  {
    if i > 0 {
      EndpointsAreNative(rules, path, ds, events, i - 1, id);
      HistoryKeeps(rules, path, ds, events, i - 1);
      assert IsStep(rules, path, ds, events, i - 1);
      if id in ds[i - 1].sessions {
        NotInsertedAgain(events, i - 1, i - 1, id);
      }
      EndpointStep(rules, path, ds[i - 1], events[i - 1], id);
    }
  }

  lemma EndpointStep(rules: Rules, path: string, d: Desk, e: Event, id: string)
    requires GoodDesk(rules, d) && (id in d.open <==> id in d.sessions && d.sessions[id].backend == "native")
    requires id in d.sessions ==> !Inserts(e, id)
    ensures var d' := After(rules, path, d, e);
            id in d'.open <==> id in d'.sessions && d'.sessions[id].backend == "native"
  {
  }

  /** At any time of any history a successful context is permitted by the configuration of that time. */
  lemma HistoryContexts(rules: Rules, path: string, ds: seq<Desk>, events: seq<Event>, i: nat, r: ContextRequest)
    requires IsHistory(rules, path, ds, events) && i < |ds| && Context(rules, ds[i], r).Some?
    ensures var (p, persona) := Context(rules, ds[i], r).value;
            && p in ds[i].state.projects && persona in ds[i].state.personas && Permits(p, persona.id)
            && rules.fold(persona.host) == rules.fold(HostOf(FindPersona(ds[i].state.personas, p.persona)))
            && (r.sessionID != "" ==> InsertedBefore(events, i, r.sessionID))
  {
    HistoryKeeps(rules, path, ds, events, i);
    ContextIsPermitted(rules, ds[i], r);
  }

  // ---------- what agents cannot do ----------

  predicate OnlyAgents(events: seq<Event>, i: nat, j: nat)
    requires i <= j <= |events|
  {
    forall k | i <= k < j :: !events[k].Operator?
  }

  /** An event over the endpoint of a session. */
  predicate IsBy(e: Event, id: string) {
    (e.Connects? && e.id == id) || (e.Asks? && e.id == id)
  }

  ghost predicate Acted(events: seq<Event>, i: nat, j: nat, id: string)
    requires i <= j <= |events|
  {
    exists k :: i <= k < j && IsBy(events[k], id)
  }

  ghost predicate Connected(events: seq<Event>, i: nat, j: nat, id: string)
    requires i <= j <= |events|
  {
    exists k :: i <= k < j && events[k] == Connects(id)
  }

  ghost predicate AskedFor(events: seq<Event>, i: nat, j: nat, id: string, personaID: string)
    requires i <= j <= |events|
  {
    exists k :: i <= k < j && events[k] == Asks(id, TakePersona(personaID))
  }

  /** What became of one session while only agents were active. */
  ghost predicate Confined(d: Desk, d': Desk, events: seq<Event>, i: nat, j: nat, id: string)
    requires i <= j <= |events| && id in d.sessions && id in d'.sessions
  {
    var before, after := d.sessions[id], d'.sessions[id];
    && after == before.(personaID := after.personaID, status := after.status)
    && after.status == (if Connected(events, i, j, id) then "active" else before.status)
    && (after.personaID != before.personaID ==>
          AskedFor(events, i, j, id, after.personaID) && PermitsPersona(d.state, before.projectID, after.personaID))
    && (!Acted(events, i, j, id) ==> after == before)
  }

  /**
   * Between two steps of operators, whatever any number of agents do at the same time, the configuration, the
   * sessions there are and their endpoints stay as they are; of a session only the status changes, exactly when its
   * agent connects, and the persona, only to one its own agent asked for and the configuration permits; and a session
   * whose agent did nothing is untouched.
   */
  lemma AgentsAreConfined(rules: Rules, path: string, ds: seq<Desk>, events: seq<Event>, i: nat, j: nat)
    requires IsHistory(rules, path, ds, events) && i <= j < |ds| && OnlyAgents(events, i, j)
    ensures SameDesk(ds[i], ds[j])
    ensures forall id | id in ds[i].sessions :: Confined(ds[i], ds[j], events, i, j, id)
  {
    AgentsKeepDesk(rules, path, ds, events, i, j);
    forall id | id in ds[i].sessions
      ensures Confined(ds[i], ds[j], events, i, j, id)
    {
      SessionIsConfined(rules, path, ds, events, i, j, id);
    }
  }

  /** The same configuration, the same sessions by ID, and the same open endpoints. */
  predicate SameDesk(d: Desk, d': Desk) {
    d'.state == d.state && d'.open == d.open && d'.sessions.Keys == d.sessions.Keys
  }

  lemma {:induction false} AgentsKeepDesk(
    rules: Rules, path: string, ds: seq<Desk>, events: seq<Event>, i: nat, j: nat)
    requires IsHistory(rules, path, ds, events) && i <= j < |ds| && OnlyAgents(events, i, j)
    ensures SameDesk(ds[i], ds[j])
  {
    if i < j {
      AgentsKeepDesk(rules, path, ds, events, i, j - 1);
      assert IsStep(rules, path, ds, events, j - 1);
      AgentEventConfined(rules, path, ds[j - 1], events[j - 1]);
    }
  }

  lemma {:induction false} SessionIsConfined(
    rules: Rules, path: string, ds: seq<Desk>, events: seq<Event>, i: nat, j: nat, id: string)
    requires IsHistory(rules, path, ds, events) && i <= j < |ds| && OnlyAgents(events, i, j)
    requires id in ds[i].sessions
    ensures id in ds[j].sessions && Confined(ds[i], ds[j], events, i, j, id)
  {
    if i == j {
      NothingYet(ds[i], events, i, id);
    } else {
      SessionIsConfined(rules, path, ds, events, i, j - 1, id);
      HistoryKeeps(rules, path, ds, events, i);
      AgentsKeepDesk(rules, path, ds, events, i, j - 1);
      assert IsStep(rules, path, ds, events, j - 1);
      AgentEventDoes(rules, path, ds[j - 1], events[j - 1], id);
      ConfinedOneMore(ds[i], ds[j - 1], ds[j], events, i, j - 1, id);
    }
  }

  lemma NothingYet(d: Desk, events: seq<Event>, i: nat, id: string)
    requires i <= |events| && id in d.sessions
    ensures Confined(d, d, events, i, i, id)
  {
  }

  lemma AgentEventConfined(rules: Rules, path: string, d: Desk, e: Event)
    requires !e.Operator?
    ensures SameDesk(d, After(rules, path, d, e))
  {
  }

  /** What one event of an agent makes of a session. */
  predicate AgentChanges(d: Desk, d': Desk, e: Event, id: string)
    requires id in d.sessions && id in d'.sessions
  {
    var before, after := d.sessions[id], d'.sessions[id];
    && after == before.(personaID := after.personaID, status := after.status)
    && after.status == (if e == Connects(id) then "active" else before.status)
    && (after.personaID != before.personaID ==>
          e == Asks(id, TakePersona(after.personaID)) && PermitsPersona(d.state, before.projectID, after.personaID))
    && (!IsBy(e, id) ==> after == before)
  }

  lemma AgentEventDoes(rules: Rules, path: string, d: Desk, e: Event, id: string)
    requires ValidState(rules, d.state) && !e.Operator? && id in d.sessions
    ensures id in After(rules, path, d, e).sessions && AgentChanges(d, After(rules, path, d, e), e, id)
  {
    if e.Asks? && e.request.TakePersona? && e.id == id {
      SelectsExactly(rules, d.state, d.sessions[id], e.request.personaID);
    }
  }

  lemma ConfinedOneMore(d: Desk, d1: Desk, d2: Desk, events: seq<Event>, i: nat, j: nat, id: string)
    requires i <= j < |events| && id in d.sessions && id in d1.sessions && id in d2.sessions && d1.state == d.state
    requires Confined(d, d1, events, i, j, id) && AgentChanges(d1, d2, events[j], id)
    ensures Confined(d, d2, events, i, j + 1, id)
  {
    ActsOneMore(events, i, j, id, d2.sessions[id].personaID);
  }

  lemma ActsOneMore(events: seq<Event>, i: nat, j: nat, id: string, personaID: string)
    requires i <= j < |events|
    ensures Acted(events, i, j + 1, id) <==> Acted(events, i, j, id) || IsBy(events[j], id)
    ensures Connected(events, i, j + 1, id) <==> Connected(events, i, j, id) || events[j] == Connects(id)
    ensures AskedFor(events, i, j + 1, id, personaID) <==>
              AskedFor(events, i, j, id, personaID) || events[j] == Asks(id, TakePersona(personaID))
  {
  }

  // ---------- the service ----------

  class Service {
    const store: Store
    var sessions: map<string, Session>
    var listeners: set<string>

    constructor (store: Store)
      ensures this.store == store && sessions == map[] && listeners == {}
    {
      this.store := store;
      sessions, listeners := map[], {};
    }

    function View(): Desk
      reads this, store
    {
      Desk(store.state, sessions, listeners)
    }

    /** The first half of creating a session. */
    method PrepareSession(r: SessionRequest, id: string) returns (session: Option<Session>)
      ensures session == NewSession(store.rules, store.state, r, id)
      ensures session.Some? ==> session.value.id == id && exists p :: p in store.state.projects && MadeFor(session.value, p)
    {
      var p := FindProject(store.rules, store.state.projects, r.projectID, "");
      if p.None? {
        return None;
      }
      if r.backend !in {"proxy-level", "native", "docker", "podman"} {
        return None;
      }
      if p.value.mode == "agent-isolation" && r.backend == "proxy-level" {
        return None;
      }
      var created := Session(id, "awaiting-agent", p.value.id, p.value.persona, r.backend, r.principal);
      if r.backend == "proxy-level" {
        created := created.(status := "active");
      }
      if r.backend == "native" {
        if r.native.None? {
          return None;
        }
        created := created.(principal := r.native.value);
      }
      return Some(created);
    }

    /** The second half of creating a session; the state may have changed in between. */
    method InsertSession(session: Session)
      modifies this
      ensures View() == Next(store.rules, store.path, old(View()), Insert(session))
    {
      sessions := sessions[session.id := session];
      if session.backend == "native" {
        listeners := listeners + {session.id};
      }
    }

    method RevokeSession(id: string) returns (ok: bool)
      modifies this
      ensures ok <==> id in old(sessions)
      ensures View() == Next(store.rules, store.path, old(View()), Revoke(id))
    {
      if id !in sessions {
        return false;
      }
      sessions := sessions - {id};
      if id in listeners {
        listeners := listeners - {id};
      }
      return true;
    }

    method SelectSessionPersona(id: string, personaID: string) returns (ok: bool)
      modifies this
      ensures ok <==> id in old(sessions) && MaySelect(store.rules, store.state, old(sessions)[id], personaID)
      ensures View() == Selected(store.rules, old(View()), id, personaID)
      ensures store.Valid() ==>
                (ok <==> id in old(sessions) && PermitsPersona(store.state, old(sessions)[id].projectID, personaID))
    {
      SelectableNow(personaID, id);
      if id !in sessions {
        return false;
      }
      var session := sessions[id];
      var p := FindProject(store.rules, store.state.projects, session.projectID, "");
      if p.None? {
        return false;
      }
      if !Allows(p.value.policy, "persona") || (personaID != p.value.persona && personaID !in p.value.alternatives) {
        return false;
      }
      var original := FindPersona(store.state.personas, p.value.persona);
      var alternative := FindPersona(store.state.personas, personaID);
      if alternative.None? || HostOf(original) != alternative.value.host {
        return false;
      }
      sessions := sessions[id := session.(personaID := personaID)];
      return true;
    }

    /** The session's project permits the persona exactly if it may be selected. */
    lemma SelectableNow(personaID: string, id: string)
      ensures store.Valid() && id in sessions ==>
                (MaySelect(store.rules, store.state, sessions[id], personaID) <==>
                   PermitsPersona(store.state, sessions[id].projectID, personaID))
    {
      if store.Valid() && id in sessions {
        SelectsExactly(store.rules, store.state, sessions[id], personaID);
      }
    }

    method ActivateSession(id: string)
      modifies this
      ensures View() == Activated(old(View()), id)
    {
      if id in sessions {
        sessions := sessions[id := sessions[id].(status := "active")];
      }
    }

    /** The context of a request, under the lock. */
    method FindContext(r: ContextRequest) returns (context: Option<(Project, Persona)>)
      ensures context == Context(store.rules, View(), r)
    {
      var state := store.state;
      if r.sessionID != "" {
        if r.sessionID !in sessions {
          return None;
        }
        var session := sessions[r.sessionID];
        var p := FindProject(store.rules, state.projects, session.projectID, "");
        if p.None? {
          return None;
        }
        if p.value.mode == "agent-isolation" && session.backend == "proxy-level" {
          return None;
        }
        if session.personaID != p.value.persona && session.personaID !in p.value.alternatives {
          return None;
        }
        return WithPersona(state, p.value, session.personaID);
      }
      var p := FindProject(store.rules, state.projects, r.projectID, r.root);
      if p.None? {
        return None;
      }
      if p.value.mode == "agent-isolation" {
        return None;
      }
      return WithPersona(state, p.value, p.value.persona);
    }

    /** One request over the endpoint of a session; the session is the endpoint's, whatever the request says. */
    method HandleAgent(sessionID: string, request: AgentRequest) returns (answer: AgentAnswer)
      modifies this
      ensures View() == Handled(store.rules, old(View()), sessionID, request)
      ensures answer == Answered(store.rules, old(View()), sessionID, request)
    {
      match request {
        case Execute(invocation) =>
          var context := FindContext(ContextRequest("", "", sessionID));
          if context.None? {
            return Refused;
          }
          if sessionID != "" && IsGitCredential(invocation) {
            return Refused;
          }
          return Runs(context.value.0, context.value.1);
        case AskContext =>
          var context := FindContext(ContextRequest("", "", sessionID));
          if context.None? {
            return Refused;
          }
          return Shows(context.value.0.(root := ""), context.value.1);
        case TakePersona(personaID) =>
          var ok := SelectSessionPersona(sessionID, personaID);
          return if ok then Done else Refused;
        case Other =>
          return Refused;
      }
    }

    method Close()
      modifies this
      ensures View() == Next(store.rules, store.path, old(View()), Step.Close)
    {
      listeners := {};
      sessions := map[];
    }
  }
}
