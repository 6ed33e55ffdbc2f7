/** Personas, policies and projects, and when a state of them is valid. */
module IdentityModels {
  import opened Wrappers

  /**
   * What the surroundings decide: case folding, e-mail parsing, white space, and the shape of paths. Two texts are
   * equal up to case when they fold to the same text.
   */
  datatype Rules = Rules(
    fold: string -> string,
    isEmail: string -> bool,
    isBlank: string -> bool,
    isAbs: string -> bool,
    clean: string -> string,
    pathKey: string -> string,
    within: (string, string) -> bool)

  datatype Persona = Persona(id: string, name: string, gitName: string, gitEmail: string, host: string, account: string)

  datatype Policy = Policy(preset: string, exceptions: map<string, bool>)

  datatype Project = Project(
    id: string,
    name: string,
    description: string,
    root: string,
    repository: string,
    persona: string,
    alternatives: seq<string>,
    mode: string,
    policy: Policy)

  datatype State = State(version: int, ghPath: string, personas: seq<Persona>, projects: seq<Project>)

  // ---------- policies ----------

  const PERMISSIONS := {"read", "comment", "create", "edit", "close", "review", "merge", "actions", "persona"}

  const COLLABORATION := {"read", "comment", "create", "edit", "close", "review"}

  function Preset(preset: string): set<string> {
    if preset == "read-only" then {"read"}
    else if preset == "collaborate" then COLLABORATION
    else if preset == "maintain" then PERMISSIONS - {"persona"}
    else {}
  }

  /** Exceptions come before the preset; an unknown operation is never allowed. */
  predicate Allows(policy: Policy, operation: string) {
    && operation in PERMISSIONS
    && if operation in policy.exceptions then policy.exceptions[operation] else operation in Preset(policy.preset)
  }

  /** The second policy allows everything the first does. */
  ghost predicate AtLeast(small: Policy, large: Policy) {
    forall operation :: Allows(small, operation) ==> Allows(large, operation)
  }

  /** With the same exceptions each preset allows everything the one before it does. */
  lemma PresetsGrow(exceptions: map<string, bool>)
    ensures AtLeast(Policy("read-only", exceptions), Policy("collaborate", exceptions))
    ensures AtLeast(Policy("collaborate", exceptions), Policy("maintain", exceptions))
  {
    assert Preset("read-only") == {"read"} && Preset("collaborate") == COLLABORATION;
    assert Preset("maintain") == PERMISSIONS - {"persona"};
    assert "read" in COLLABORATION && COLLABORATION <= PERMISSIONS - {"persona"};
  }

  /**
   * What the presets leave out: reading is all that read-only allows, collaborating does not merge, run actions or
   * change personas, and maintaining does not change personas. An exception outweighs the preset either way, and what is
   * no operation is never allowed.
   */
  lemma PoliciesDecide(policy: Policy, operation: string)
    requires ValidPolicy(policy)
    ensures operation in policy.exceptions ==> (Allows(policy, operation) <==> policy.exceptions[operation])
    ensures operation !in policy.exceptions ==>
              (policy.preset == "read-only" ==> (Allows(policy, operation) <==> operation == "read"))
              && (policy.preset == "collaborate" ==>
                    (Allows(policy, operation) <==>
                       operation in PERMISSIONS && operation != "merge" && operation != "actions" && operation != "persona"))
              && (policy.preset == "maintain" ==>
                    (Allows(policy, operation) <==> operation in PERMISSIONS && operation != "persona"))
    ensures Allows(policy, operation) ==>
              operation in ["read", "comment", "create", "edit", "close", "review", "merge", "actions", "persona"]
  {
    PresetsLeaveOut(operation);
  }

  lemma PresetsLeaveOut(operation: string)
    ensures operation in Preset("read-only") <==> operation == "read"
    ensures operation in Preset("collaborate") <==>
              operation in PERMISSIONS && operation != "merge" && operation != "actions" && operation != "persona"
    ensures operation in Preset("maintain") <==> operation in PERMISSIONS && operation != "persona"
  {
    assert Preset("read-only") == {"read"} && Preset("collaborate") == COLLABORATION;
    assert Preset("maintain") == PERMISSIONS - {"persona"};
  }

  // ---------- shapes of names ----------

  predicate IsAlphanumeric(c: char) {
    'a' <= c <= 'z' || 'A' <= c <= 'Z' || '0' <= c <= '9'
  }

  predicate IsNameChar(c: char) {
    IsAlphanumeric(c) || c == '_' || c == '.' || c == '-'
  }

  /** A letter or digit, then at most 99 letters, digits, `_`, `.` and `-`. */
  predicate IsIdentifier(text: string) {
    0 < |text| <= 100 && IsAlphanumeric(text[0]) && forall c | c in text :: IsNameChar(c)
  }

  predicate IsHostName(text: string) {
    && |text| >= 2
    && IsAlphanumeric(text[0]) && IsAlphanumeric(text[|text| - 1])
    && (forall c | c in text :: IsAlphanumeric(c) || c == '.' || c == '-')
    && forall i | 0 <= i < |text| - 1 :: !(text[i] == '.' && text[i + 1] == '.')
  }

  predicate ContainsAny(text: string, chars: string) {
    exists c :: c in text && c in chars
  }

  const NUL := '\U{0}'
  const ESC := '\U{1B}'

  predicate IsPlainText(rules: Rules, text: string, limit: nat) {
    !rules.isBlank(text) && |text| <= limit && !ContainsAny(text, [NUL, '\r', '\n', ESC])
  }

  /** A repository is an owner and a name, with one slash in between. */
  predicate IsRepository(text: string) {
    exists i :: 0 <= i < |text| && text[i] == '/' && IsIdentifier(text[..i]) && IsIdentifier(text[i + 1..])
  }

  // ---------- valid states ----------

  predicate ValidPersona(rules: Rules, p: Persona) {
    && IsIdentifier(p.id) && IsIdentifier(p.account) && IsHostName(p.host)
    && IsPlainText(rules, p.name, 120) && IsPlainText(rules, p.gitName, 120)
    && rules.isEmail(p.gitEmail)
  }

  predicate HasPersona(personas: seq<Persona>, id: string) {
    exists i :: 0 <= i < |personas| && personas[i].id == id
  }

  /** The first persona with the ID. */
  function FindPersona(personas: seq<Persona>, id: string): (r: Option<Persona>)
    ensures r.Some? <==> HasPersona(personas, id)
    ensures r.Some? ==> r.value in personas && r.value.id == id
  {
    if personas == [] then None
    else if personas[0].id == id then
      assert HasPersona(personas, id);
      Some(personas[0])
    else
      var r := FindPersona(personas[1..], id);
      assert HasPersona(personas[1..], id) ==> HasPersona(personas, id) by {
        if HasPersona(personas[1..], id) {
          var i :| 0 <= i < |personas[1..]| && personas[1..][i].id == id;
          assert personas[i + 1].id == id;
        }
      }
      assert HasPersona(personas, id) ==> HasPersona(personas[1..], id) by {
        if HasPersona(personas, id) {
          var i :| 0 <= i < |personas| && personas[i].id == id;
          assert personas[1..][i - 1].id == id;
        }
      }
      r
  }

  /** A project is found by its ID, or without one by its root. */
  predicate Matches(rules: Rules, p: Project, id: string, root: string) {
    (id != "" && p.id == id) || (id == "" && root != "" && rules.pathKey(root) == rules.pathKey(p.root))
  }

  /** The first project that matches. */
  function FindProject(rules: Rules, projects: seq<Project>, id: string, root: string): (r: Option<Project>)
    ensures r.Some? ==> r.value in projects && Matches(rules, r.value, id, root)
    ensures r.None? ==> forall p | p in projects :: !Matches(rules, p, id, root)
  {
    if projects == [] then None
    else if Matches(rules, projects[0], id, root) then Some(projects[0])
    else FindProject(rules, projects[1..], id, root)
  }

  predicate ValidAlternative(rules: Rules, personas: seq<Persona>, primary: string, alternative: string) {
    var p := FindPersona(personas, primary);
    var other := FindPersona(personas, alternative);
    p.Some? && other.Some? && rules.fold(p.value.host) == rules.fold(other.value.host)
  }

  predicate ValidPolicy(policy: Policy) {
    && policy.preset in {"read-only", "collaborate", "maintain"}
    && forall operation | operation in policy.exceptions :: operation in PERMISSIONS
  }

  predicate ValidProject(rules: Rules, personas: seq<Persona>, p: Project) {
    && IsIdentifier(p.id)
    && IsPlainText(rules, p.name, 120) && |p.description| <= 4096 && !ContainsAny(p.description, [NUL, ESC])
    && rules.isAbs(p.root) && rules.clean(p.root) == p.root
    && IsRepository(p.repository)
    && HasPersona(personas, p.persona)
    && (forall a | a in p.alternatives :: ValidAlternative(rules, personas, p.persona, a))
    && p.mode in {"proxy-level", "agent-isolation"}
    && ValidPolicy(p.policy)
  }

  predicate DistinctPersonas(personas: seq<Persona>) {
    forall i, j | 0 <= i < j < |personas| :: personas[i].id != personas[j].id
  }

  predicate DistinctProjects(rules: Rules, projects: seq<Project>) {
    forall i, j | 0 <= i < j < |projects| ::
      projects[i].id != projects[j].id && rules.pathKey(projects[i].root) != rules.pathKey(projects[j].root)
  }

  /** IDs and roots are unique, and every reference leads to a persona on the right host. */
  predicate ValidState(rules: Rules, s: State) {
    && s.version == 1
    && (s.ghPath == "" || rules.isAbs(s.ghPath))
    && (forall p | p in s.personas :: ValidPersona(rules, p))
    && DistinctPersonas(s.personas)
    && (forall p | p in s.projects :: ValidProject(rules, s.personas, p))
    && DistinctProjects(rules, s.projects)
  }

  // ---------- what a valid state promises ----------

  /** No slash, white space or control character, and not mistaken for a flag. */
  predicate IsSafeName(text: string) {
    && 1 <= |text| <= 100
    && (forall c | c in text :: c !in "/ :@=,\t\r\n" && c >= ' ' && c <= '~')
    && text[0] !in "-._"
  }

  /** A text that can be shown on one line. */
  predicate IsOneLine(text: string, limit: nat) {
    |text| <= limit && NUL !in text && '\r' !in text && '\n' !in text && ESC !in text
  }

  predicate IsSafePersona(rules: Rules, p: Persona) {
    && IsSafeName(p.id) && IsSafeName(p.account)
    && |p.host| >= 2 && (forall c | c in p.host :: c !in "/ :@=,_\t\r\n" && c >= ' ' && c <= '~')
    && p.host[0] !in ".-" && p.host[|p.host| - 1] !in ".-"
    && (forall i | 0 < i < |p.host| :: p.host[i - 1] != '.' || p.host[i] != '.')
    && IsOneLine(p.name, 120) && IsOneLine(p.gitName, 120) && !rules.isBlank(p.name) && !rules.isBlank(p.gitName)
    && rules.isEmail(p.gitEmail)
  }

  ghost predicate IsSafeProject(rules: Rules, p: Project) {
    && IsSafeName(p.id)
    && IsOneLine(p.name, 120) && !rules.isBlank(p.name)
    && |p.description| <= 4096 && NUL !in p.description && ESC !in p.description
    && rules.isAbs(p.root) && rules.clean(p.root) == p.root
    && (exists owner, name :: p.repository == owner + "/" + name && IsSafeName(owner) && IsSafeName(name))
    && (p.mode == "proxy-level" || p.mode == "agent-isolation")
    && (p.policy.preset == "read-only" || p.policy.preset == "collaborate" || p.policy.preset == "maintain")
    && forall operation | operation in p.policy.exceptions :: operation in PERMISSIONS
  }

  /** What everything behind the validator relies on. */
  lemma ValidStatesAreSafe(rules: Rules, s: State)
    requires ValidState(rules, s)
    ensures s.version == 1 && (s.ghPath != "" ==> rules.isAbs(s.ghPath))
    ensures forall p | p in s.personas :: IsSafePersona(rules, p)
    ensures forall p | p in s.projects :: IsSafeProject(rules, p)
    ensures forall p, id | p in s.projects && (id == p.persona || id in p.alternatives) :: HasPersona(s.personas, id)
  {
    forall p | p in s.personas
      ensures IsSafePersona(rules, p)
    {
      IdentifierIsSafe(p.id);
      IdentifierIsSafe(p.account);
    }
    forall p | p in s.projects
      ensures IsSafeProject(rules, p)
    {
      IdentifierIsSafe(p.id);
      RepositoryIsSafe(p.repository);
    }
    forall p, id | p in s.projects && id in p.alternatives
      ensures HasPersona(s.personas, id)
    {
      assert ValidAlternative(rules, s.personas, p.persona, id);
    }
  }

  lemma IdentifierIsSafe(text: string)
    requires IsIdentifier(text)
    ensures IsSafeName(text)
  {
    forall c | c in text
      ensures c !in "/ :@=,\t\r\n"
    {
      assert IsNameChar(c);
    }
  }

  lemma RepositoryIsSafe(text: string)
    requires IsRepository(text)
    ensures exists owner, name :: text == owner + "/" + name && IsSafeName(owner) && IsSafeName(name)
  {
    var i :| 0 <= i < |text| && text[i] == '/' && IsIdentifier(text[..i]) && IsIdentifier(text[i + 1..]);
    IdentifierIsSafe(text[..i]);
    IdentifierIsSafe(text[i + 1..]);
    assert text == text[..i] + "/" + text[i + 1..];
  }

  // ---------- the validator ----------

  function IDs(personas: seq<Persona>): set<string> {
    set p | p in personas :: p.id
  }

  method Validate(rules: Rules, s: State) returns (ok: bool)
    ensures ok <==> ValidState(rules, s)
  {
    if s.version != 1 || (s.ghPath != "" && !rules.isAbs(s.ghPath)) {
      return false;
    }
    var ids: set<string>;
    ok, ids := ValidatePersonas(rules, s.personas);
    if ok {
      ok := ValidateProjects(rules, s.personas, s.projects, ids);
      GoodProjectsMeaning(rules, s.personas, s.projects);
    }
  }

  method ValidatePersonas(rules: Rules, personas: seq<Persona>) returns (ok: bool, ids: set<string>)
    ensures ok <==> (forall p | p in personas :: ValidPersona(rules, p)) && DistinctPersonas(personas)
    ensures ok ==> ids == IDs(personas)
  {
    ids := {};
    var i := 0;
    while i < |personas|
      invariant i <= |personas| && ids == IDs(personas[..i])
      invariant forall p | p in personas[..i] :: ValidPersona(rules, p)
      invariant DistinctPersonas(personas[..i])
    {
      var p := personas[i];
      if !ValidPersona(rules, p) {
        return false, ids;
      }
      if p.id in ids {
        var q :| q in personas[..i] && q.id == p.id;
        return false, ids;
      }
      assert personas[..i + 1] == personas[..i] + [p];
      ids := ids + {p.id};
      i := i + 1;
    }
    assert personas[..i] == personas;
    return true, ids;
  }

  function ProjectIDs(projects: seq<Project>): set<string> {
    set p | p in projects :: p.id
  }

  function Roots(rules: Rules, projects: seq<Project>): set<string> {
    set p | p in projects :: rules.pathKey(p.root)
  }

  /** A project is valid, and neither its ID nor its root was seen before. */
  predicate IsNewProject(rules: Rules, personas: seq<Persona>, before: seq<Project>, p: Project) {
    && p.id !in ProjectIDs(before) && rules.pathKey(p.root) !in Roots(rules, before)
    && ValidProject(rules, personas, p)
  }

  predicate GoodProjects(rules: Rules, personas: seq<Persona>, projects: seq<Project>) {
    projects == [] ||
    (var last := |projects| - 1;
     GoodProjects(rules, personas, projects[..last]) && IsNewProject(rules, personas, projects[..last], projects[last]))
  }

  predicate AllValid(rules: Rules, personas: seq<Persona>, projects: seq<Project>) {
    forall p | p in projects :: ValidProject(rules, personas, p)
  }

  /** Projects are good exactly if each is valid and no two share an ID or a root. */
  lemma {:induction false} GoodProjectsMeaning(rules: Rules, personas: seq<Persona>, projects: seq<Project>)
    ensures GoodProjects(rules, personas, projects) <==>
              AllValid(rules, personas, projects) && DistinctProjects(rules, projects)
  {
    if projects != [] {
      var last := |projects| - 1;
      GoodProjectsMeaning(rules, personas, projects[..last]);
      assert projects == projects[..last] + [projects[last]];
      ValidOneMore(rules, personas, projects[..last], projects[last]);
      DistinctOneMore(rules, projects[..last], projects[last]);
    }
  }

  lemma ValidOneMore(rules: Rules, personas: seq<Persona>, projects: seq<Project>, p: Project)
    ensures AllValid(rules, personas, projects + [p]) <==> AllValid(rules, personas, projects) && ValidProject(rules, personas, p)
  {
    assert p in projects + [p] && forall q | q in projects :: q in projects + [p];
  }

  lemma DistinctOneMore(rules: Rules, projects: seq<Project>, p: Project)
    ensures DistinctProjects(rules, projects + [p]) <==>
              && DistinctProjects(rules, projects)
              && p.id !in ProjectIDs(projects) && rules.pathKey(p.root) !in Roots(rules, projects)
  {
    var all := projects + [p];
    if DistinctProjects(rules, all) {
      forall i | 0 <= i < |projects|
        ensures projects[i].id != p.id && rules.pathKey(projects[i].root) != rules.pathKey(p.root)
      {
        assert all[i] == projects[i] && all[|projects|] == p;
      }
      forall i, j | 0 <= i < j < |projects|
        ensures projects[i].id != projects[j].id && rules.pathKey(projects[i].root) != rules.pathKey(projects[j].root)
      {
        assert all[i] == projects[i] && all[j] == projects[j];
      }
    }
  }

  lemma {:induction false} FirstProjectsGood(rules: Rules, personas: seq<Persona>, all: seq<Project>, n: nat)
    requires n <= |all|
    ensures GoodProjects(rules, personas, all) ==> GoodProjects(rules, personas, all[..n])
    decreases |all|
  {
    if n < |all| {
      FirstProjectsGood(rules, personas, all[..|all| - 1], n);
      assert all[..|all| - 1][..n] == all[..n];
    } else {
      assert all[..n] == all;
    }
  }

  lemma OneMoreProject(rules: Rules, personas: seq<Persona>, all: seq<Project>, i: nat)
    requires i < |all|
    ensures ProjectIDs(all[..i + 1]) == ProjectIDs(all[..i]) + {all[i].id}
    ensures Roots(rules, all[..i + 1]) == Roots(rules, all[..i]) + {rules.pathKey(all[i].root)}
    ensures GoodProjects(rules, personas, all[..i + 1]) <==>
              GoodProjects(rules, personas, all[..i]) && IsNewProject(rules, personas, all[..i], all[i])
  {
    assert all[..i + 1][..i] == all[..i] && all[..i + 1] == all[..i] + [all[i]];
  }

  method ValidateProjects(rules: Rules, personas: seq<Persona>, all: seq<Project>, ids: set<string>) returns (ok: bool)
    requires ids == IDs(personas)
    ensures ok <==> GoodProjects(rules, personas, all)
  {
    var projects: set<string>, roots: set<string> := {}, {};
    var i := 0;
    while i < |all|
      invariant i <= |all|
      invariant projects == ProjectIDs(all[..i]) && roots == Roots(rules, all[..i])
      invariant GoodProjects(rules, personas, all[..i])
    {
      var p := all[i];
      OneMoreProject(rules, personas, all, i);
      FirstProjectsGood(rules, personas, all, i + 1);
      if p.id in projects || rules.pathKey(p.root) in roots {
        return false;
      }
      ok := ValidateProject(rules, personas, p, ids);
      if !ok {
        return;
      }
      projects := projects + {p.id};
      roots := roots + {rules.pathKey(p.root)};
      i := i + 1;
    }
    assert all[..i] == all;
    return true;
  }

  method ValidateProject(rules: Rules, personas: seq<Persona>, p: Project, ids: set<string>) returns (ok: bool)
    requires ids == IDs(personas)
    ensures ok <==> ValidProject(rules, personas, p)
  {
    if !IsIdentifier(p.id) || !IsPlainText(rules, p.name, 120) || |p.description| > 4096
       || ContainsAny(p.description, [NUL, ESC]) || !rules.isAbs(p.root) || rules.clean(p.root) != p.root
       || !IsRepository(p.repository) {
      return false;
    }
    if p.persona !in ids {
      return false;
    }
    var primary := FindPersona(personas, p.persona).value;
    var i := 0;
    while i < |p.alternatives|
      invariant i <= |p.alternatives|
      invariant forall a | a in p.alternatives[..i] :: ValidAlternative(rules, personas, p.persona, a)
    {
      if p.alternatives[i] !in ids {
        assert !ValidAlternative(rules, personas, p.persona, p.alternatives[i]);
        return false;
      }
      var other := FindPersona(personas, p.alternatives[i]).value;
      if rules.fold(primary.host) != rules.fold(other.host) {
        assert !ValidAlternative(rules, personas, p.persona, p.alternatives[i]);
        return false;
      }
      i := i + 1;
    }
    if p.mode != "proxy-level" && p.mode != "agent-isolation" {
      return false;
    }
    if p.policy.preset !in {"read-only", "collaborate", "maintain"} {
      return false;
    }
    var operations := p.policy.exceptions.Keys;
    while operations != {}
      invariant operations <= p.policy.exceptions.Keys
      invariant forall o | o in p.policy.exceptions && o !in operations :: o in PERMISSIONS
      decreases |operations|
    {
      var operation :| operation in operations;
      if operation !in PERMISSIONS {
        return false;
      }
      operations := operations - {operation};
    }
    return true;
  }
}
