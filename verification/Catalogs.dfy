/** The closed catalogue of commands, and the decision about one invocation. */
module Catalogs {
  import opened Wrappers
  import opened IdentityModels
  import opened CatalogCommands
  import opened ApiCommands
  import opened GitCredentials

  const MEGABYTE: nat := 1024 * 1024

  const CATALOG: map<string, CommandSpec> := map[
    "repo view" := CommandSpec("read", ["branch"], [], false),
    "pr list" := CommandSpec("read", ["state", "base", "head", "author", "assignee", "label", "limit", "search"], ["draft"], false),
    "pr view" := CommandSpec("read", [], ["comments"], true),
    "pr diff" := CommandSpec("read", ["color"], ["patch", "name-only"], true),
    "pr checks" := CommandSpec("read", [], ["required"], true),
    "pr create" := CommandSpec("create", ["title", "body", "body-file", "head", "base", "assignee", "label", "reviewer", "milestone"], ["draft", "no-maintainer-edit"], false),
    "pr comment" := CommandSpec("comment", ["body", "body-file"], [], true),
    "pr edit" := CommandSpec("edit", ["title", "body", "body-file", "base", "add-label", "remove-label", "add-assignee", "remove-assignee", "add-reviewer", "remove-reviewer", "milestone"], [], true),
    "pr close" := CommandSpec("close", ["comment"], [], true),
    "pr reopen" := CommandSpec("close", ["comment"], [], true),
    "pr review" := CommandSpec("review", ["body", "body-file"], ["approve", "request-changes", "comment"], true),
    "pr ready" := CommandSpec("edit", [], ["undo"], true),
    "pr merge" := CommandSpec("merge", ["match-head-commit"], ["merge", "squash", "rebase", "auto", "disable-auto"], true),
    "issue list" := CommandSpec("read", ["state", "author", "assignee", "label", "limit", "search"], [], false),
    "issue view" := CommandSpec("read", [], ["comments"], true),
    "issue create" := CommandSpec("create", ["title", "body", "body-file", "assignee", "label", "milestone"], [], false),
    "issue comment" := CommandSpec("comment", ["body", "body-file"], [], true),
    "issue edit" := CommandSpec("edit", ["title", "body", "body-file", "add-label", "remove-label", "add-assignee", "remove-assignee", "milestone"], [], true),
    "issue close" := CommandSpec("close", ["comment", "reason"], [], true),
    "issue reopen" := CommandSpec("close", ["comment"], [], true),
    "run list" := CommandSpec("read", ["workflow", "branch", "event", "status", "user", "limit", "commit", "created"], [], false),
    "run view" := CommandSpec("read", ["job", "attempt"], ["log", "log-failed", "exit-status"], true),
    "run rerun" := CommandSpec("actions", ["job"], ["failed"], true),
    "run cancel" := CommandSpec("actions", [], [], true),
    "workflow list" := CommandSpec("read", ["limit"], ["all"], false),
    "workflow view" := CommandSpec("read", ["ref"], ["yaml"], true),
    "workflow run" := CommandSpec("actions", ["ref", "raw-field"], [], true)
  ]

  const NO_FIELDS := [""]

  const ROUTES: seq<ApiRoute> := [
    ApiRoute("GET", "", "read", NO_FIELDS),
    ApiRoute("GET", "issues", "read", ["state", "labels", "assignee", "creator", "page", "per_page"]),
    ApiRoute("GET", "issues/#", "read", NO_FIELDS),
    ApiRoute("GET", "issues/#/comments", "read", ["page", "per_page"]),
    ApiRoute("GET", "pulls", "read", ["state", "head", "base", "page", "per_page"]),
    ApiRoute("GET", "pulls/#", "read", NO_FIELDS),
    ApiRoute("GET", "pulls/#/reviews", "read", ["page", "per_page"]),
    ApiRoute("GET", "actions/runs", "read", ["branch", "event", "status", "page", "per_page"]),
    ApiRoute("GET", "actions/runs/#", "read", NO_FIELDS),
    ApiRoute("GET", "actions/workflows", "read", ["page", "per_page"]),
    ApiRoute("POST", "issues", "create", ["title", "body"]),
    ApiRoute("POST", "issues/#/comments", "comment", ["body"]),
    ApiRoute("PATCH", "issues/#", "edit", ["title", "body"]),
    ApiRoute("POST", "pulls", "create", ["title", "body", "head", "base"]),
    ApiRoute("PATCH", "pulls/#", "edit", ["title", "body", "base"]),
    ApiRoute("PUT", "pulls/#/merge", "merge", ["merge_method", "commit_title", "commit_message", "sha"]),
    ApiRoute("POST", "actions/runs/#/rerun", "actions", NO_FIELDS),
    ApiRoute("POST", "actions/runs/#/cancel", "actions", NO_FIELDS),
    ApiRoute("POST", "actions/workflows/#/dispatches", "actions", ["ref"])
  ]

  /** The two tables, and how texts are folded; decisions are about any tables. */
  datatype Tables = Tables(catalog: map<string, CommandSpec>, routes: seq<ApiRoute>, fold: string -> string)

  // ---------- the decision ----------

  predicate WithinLimits(invocation: Invocation) {
    && |invocation.input| <= MEGABYTE
    && 2 <= |invocation.arguments| <= 256
    && forall a | a in invocation.arguments :: |a| <= MEGABYTE && NUL !in a
  }

  function GrammarFor(t: Tables, name: string, project: Project, persona: Persona): Grammar
    requires name in t.catalog
  {
    Grammar(name, t.catalog[name], project.repository, persona.host + "/" + project.repository, t.fold)
  }

  function CatalogCommand(t: Tables, project: Project, persona: Persona, arguments: seq<string>): Option<Command>
    requires |arguments| >= 2
  {
    var name := arguments[0] + " " + arguments[1];
    if name !in t.catalog || !Allows(project.policy, t.catalog[name].permission) then None
    else
      var g := GrammarFor(t, name, project, persona);
      if name == "pr create" && |arguments| == 2 then
        Some(Command(["pr", "create", "--repo", g.bound], g.spec.permission, false, true))
      else
        var out := Rewritten(g, project.policy, arguments);
        if out.None? then None else Some(Command(out.value, g.spec.permission, false, false))
  }

  function Authorized(t: Tables, project: Project, persona: Persona, invocation: Invocation): Option<Command> {
    if !WithinLimits(invocation) then None
    else if IsGitCredential(invocation) then CredentialCommand(t.fold, persona.host, project.repository, invocation)
    else if invocation.arguments[0] == "api" then
      ApiCommand(t.routes, project.repository, persona.host, project.policy, invocation.arguments)
    else CatalogCommand(t, project, persona, invocation.arguments)
  }

  method Authorize(t: Tables, project: Project, persona: Persona, invocation: Invocation) returns (r: Option<Command>)
    ensures r == Authorized(t, project, persona, invocation)
  {
    var arguments := invocation.arguments;
    if |invocation.input| > MEGABYTE || |arguments| < 2 || |arguments| > 256 {
      return None;
    }
    var fine := CheckArguments(arguments);
    if !fine {
      return None;
    }
    if IsGitCredential(invocation) {
      r := AuthorizeGitCredential(t.fold, persona.host, project.repository, invocation);
      return;
    }
    if arguments[0] == "api" {
      r := AuthorizeAPI(t.routes, project.repository, persona.host, project.policy, arguments);
      return;
    }
    r := AuthorizeCatalog(t, project, persona, arguments);
  }

  method AuthorizeCatalog(t: Tables, project: Project, persona: Persona, arguments: seq<string>) returns (r: Option<Command>)
    requires |arguments| >= 2
    ensures r == CatalogCommand(t, project, persona, arguments)
  {
    var name := arguments[0] + " " + arguments[1];
    if name !in t.catalog || !Allows(project.policy, t.catalog[name].permission) {
      return None;
    }
    var g := GrammarFor(t, name, project, persona);
    if name == "pr create" && |arguments| == 2 {
      return Some(Command(["pr", "create", "--repo", g.bound], g.spec.permission, false, true));
    }
    var st := ParseArguments(g, arguments);
    if st.None? || !Complete(g, project.policy, st.value) {
      return None;
    }
    return Some(Command(st.value.output + ["--repo", g.bound], g.spec.permission, false, false));
  }

  method CheckArguments(arguments: seq<string>) returns (fine: bool)
    ensures fine <==> forall a | a in arguments :: |a| <= MEGABYTE && NUL !in a
  {
    var i := 0;
    while i < |arguments|
      invariant i <= |arguments|
      invariant forall j | 0 <= j < i :: |arguments[j]| <= MEGABYTE && NUL !in arguments[j]
    {
      if |arguments[i]| > MEGABYTE || NUL in arguments[i] {
        assert arguments[i] in arguments;
        return false;
      }
      i := i + 1;
    }
    return true;
  }

  // ---------- what an accepted command is ----------

  /** No entry of the catalogue takes the repository as a flag without a value. */
  predicate ValuedRepository(catalog: map<string, CommandSpec>) {
    forall name | name in catalog :: "repo" !in catalog[name].booleans
  }

  /** A command of the catalogue that is run in the background. */
  predicate IsCatalogCommand(invocation: Invocation, c: Command) {
    !c.credential && !c.interactive && |invocation.arguments| >= 2 && invocation.arguments[0] != "api"
  }

  /**
   * Authorizing yields a normal form: the arguments of an accepted command are, within the limits on arguments,
   * accepted again as the very same command, and name no repository but the bound one.
   */
  lemma AuthorizedIsNormal(t: Tables, project: Project, persona: Persona, invocation: Invocation)
    requires ValuedRepository(t.catalog) && Authorized(t, project, persona, invocation).Some?
    requires IsCatalogCommand(invocation, Authorized(t, project, persona, invocation).value)
    ensures var c := Authorized(t, project, persona, invocation).value;
            var again := Invocation(c.arguments, invocation.input);
            Authorized(t, project, persona, again) == if WithinLimits(again) then Some(c) else None
    ensures var c := Authorized(t, project, persona, invocation).value;
            NamesOnlyBound(t, project, persona, c.arguments)
  {
    var arguments := invocation.arguments;
    var name := arguments[0] + " " + arguments[1];
    var g := GrammarFor(t, name, project, persona);
    NormalForm(g, project.policy, arguments);
    var out := Rewritten(g, project.policy, arguments).value;
    assert out[0] == out[..2][0] && out[1] == out[..2][1];
  }

  /** As the catalogue reads them, the arguments name the bound repository and no other. */
  ghost predicate NamesOnlyBound(t: Tables, project: Project, persona: Persona, arguments: seq<string>) {
    && |arguments| >= 2
    && var name := arguments[0] + " " + arguments[1];
    && name in t.catalog
    && var g := GrammarFor(t, name, project, persona);
    && Tokens(g, arguments[2..]).Some?
    && Valued("repo", g.bound) in Tokens(g, arguments[2..]).value
    && forall token | token in Tokens(g, arguments[2..]).value && NamesRepo(token) :: token.value == g.bound
  }

  /** A larger policy accepts whatever a smaller one does, as the identical command. */
  lemma AuthorizedIsMonotone(t: Tables, project: Project, persona: Persona, invocation: Invocation, large: Policy)
    requires UniqueRoutes(t.routes) && AtLeast(project.policy, large)
    requires Authorized(t, project, persona, invocation).Some?
    ensures Authorized(t, project.(policy := large), persona, invocation) == Authorized(t, project, persona, invocation)
  {
    var arguments := invocation.arguments;
    var larger := project.(policy := large);
    if IsGitCredential(invocation) {
    } else if arguments[0] == "api" {
      ApiIsMonotone(t.routes, project.repository, persona.host, project.policy, large, arguments);
    } else {
      var name := arguments[0] + " " + arguments[1];
      var g := GrammarFor(t, name, project, persona);
      assert GrammarFor(t, name, larger, persona) == g && Allows(large, g.spec.permission);
      if !(name == "pr create" && |arguments| == 2) {
        RewrittenIsMonotone(g, project.policy, large, arguments);
      }
    }
  }

  /** The permission of an accepted command is one the policy allows; only a credential request has none. */
  lemma PermissionIsAllowed(t: Tables, project: Project, persona: Persona, invocation: Invocation)
    requires Authorized(t, project, persona, invocation).Some?
    ensures var c := Authorized(t, project, persona, invocation).value;
            if IsGitCredential(invocation) then c == Command([], "", true, false)
            else !c.credential && Allows(project.policy, c.permission)
  {
  }

  // ---------- the tables themselves ----------

  lemma CatalogHasValuedRepository()
    ensures ValuedRepository(CATALOG)
  {
  }

  /** What each permission opens; all other commands of the catalogue only read. */
  lemma PermissionsOpen(name: string)
    requires name in CATALOG
    ensures var permission := CATALOG[name].permission;
            && (permission == "merge" <==> name == "pr merge")
            && (permission == "review" <==> name == "pr review")
            && (permission == "create" <==> name == "pr create" || name == "issue create")
            && (permission == "comment" <==> name == "pr comment" || name == "issue comment")
            && (permission == "edit" <==> name == "pr edit" || name == "pr ready" || name == "issue edit")
            && (permission == "close" <==>
                  name == "pr close" || name == "pr reopen" || name == "issue close" || name == "issue reopen")
            && (permission == "actions" <==> name == "run rerun" || name == "run cancel" || name == "workflow run")
            && (permission == "read" <==>
                  !(permission in {"merge", "review", "create", "comment", "edit", "close", "actions"}))
  {
  }

  /** Reading is what a request with GET does, and every other request needs more; only those for actions begin with an a. */
  predicate NeedsByMethod(route: ApiRoute) {
    if route.verb == "GET" then route.permission == "read"
    else if route.verb == "PATCH" then route.permission == "edit"
    else if route.verb == "PUT" then route.permission == "merge"
    else
      && route.verb == "POST"
      && if route.path != "" && route.path[0] == 'a' then route.permission == "actions"
         else if route.path == "issues/#/comments" then route.permission == "comment"
         else (route.path == "issues" || route.path == "pulls") && route.permission == "create"
  }

  lemma MethodsDecide(i: nat)
    requires i < |ROUTES|
    ensures NeedsByMethod(ROUTES[i])
  {
    if i < 10 {
      ReadingRoutes(i);
    } else {
      WritingRoutes(i);
    }
  }

  lemma ReadingRoutes(i: nat)
    requires i < 10 && |ROUTES| == 19
    ensures NeedsByMethod(ROUTES[i])
  {
  }

  lemma WritingRoutes(i: nat)
    requires 10 <= i < 19 && |ROUTES| == 19
    ensures NeedsByMethod(ROUTES[i])
  {
  }

  /** Where a request can only be in the table of routes. */
  function RouteIndex(verb: string, path: string): nat {
    var n := |path|;
    if |verb| == 3 then
      if n == 0 then 0 else if n == 6 then 1 else if n == 8 then 2
      else if n == 17 then if path[0] == 'i' then 3 else 9
      else if n == 5 then 4 else if n == 7 then 5 else if n == 15 then 6 else if n == 12 then 7
      else if n == 14 then 8 else 15
    else if |verb| == 4 then
      if n == 6 then 10 else if n == 17 then 11 else if n == 5 then 13
      else if n == 20 then 16 else if n == 21 then 17 else 18
    else if n == 8 then 12 else 14
  }

  lemma RoutesAreUnique()
    ensures UniqueRoutes(ROUTES)
  {
    assert |ROUTES| == 19;
    forall i | 0 <= i < |ROUTES|
      ensures RouteIndex(ROUTES[i].verb, ROUTES[i].path) == i
    {
      if i < 10 {
        LowRoutes(i);
      } else {
        HighRoutes(i);
      }
    }
    forall i, j | 0 <= i < j < |ROUTES|
      ensures !IsRoute(ROUTES[j], ROUTES[i].verb, ROUTES[i].path)
    {
      assert RouteIndex(ROUTES[i].verb, ROUTES[i].path) != RouteIndex(ROUTES[j].verb, ROUTES[j].path);
    }
  }

  lemma LowRoutes(i: nat)
    requires i < 10 && |ROUTES| == 19
    ensures RouteIndex(ROUTES[i].verb, ROUTES[i].path) == i
  {
  }

  lemma HighRoutes(i: nat)
    requires 10 <= i < 19 && |ROUTES| == 19
    ensures RouteIndex(ROUTES[i].verb, ROUTES[i].path) == i
  {
  }

  // ---------- routes without fields ----------

  /** A route without fields takes no field, or a single one whose name is empty. */
  lemma EmptyListTakesEmptyName(route: ApiRoute, fields: seq<string>)
    requires route.fields == NO_FIELDS
    ensures GoodFields(route, fields) <==> fields == [] || (|fields| == 1 && "=" <= fields[0])
  {
    GoodFieldsMeaning(route, fields);
    forall f: string
      ensures Assigns(route, f) <==> "=" <= f
    {
      EmptyKey(f);
    }
    if |fields| >= 2 {
      assert AllAssign(route, fields) ==> KeyOf(fields[0]) == "" == KeyOf(fields[1]) by {
        assert fields[0] in fields && fields[1] in fields;
        EmptyKey(fields[0]);
        EmptyKey(fields[1]);
      }
    } else if |fields| == 1 {
      assert AllAssign(route, fields) <==> Assigns(route, fields[0]);
    }
  }

  lemma EmptyKey(field: string)
    ensures '=' in field && KeyOf(field) in NO_FIELDS <==> "=" <= field
    ensures KeyOf(field) in NO_FIELDS ==> KeyOf(field) == ""
  {
    var i := Find(field, '=');
    assert field[..i] == "" <==> i == 0;
  }

  /** Asking for the bound repository itself with a field that has no name is accepted. */
  lemma EmptyNameIsAccepted(t: Tables, project: Project, persona: Persona, value: string)
    requires t.routes == ROUTES && Allows(project.policy, "read")
    requires WithinLimits(EmptyNameRequest(project, value))
    ensures Authorized(t, project, persona, EmptyNameRequest(project, value)) ==
            Some(Command(EmptyNameArguments(project, persona, value), "read", false, false))
  {
    EmptyNameApi(project, persona, value);
    assert EmptyNameRequest(project, value).arguments[0] == "api" != "auth";
  }

  function EmptyNameArguments(project: Project, persona: Persona, value: string): seq<string> {
    ["api", "repos/" + project.repository, "--hostname", persona.host, "--method", "GET"] + ["--raw-field", "=" + value] + []
  }

  lemma EmptyNameApi(project: Project, persona: Persona, value: string)
    requires Allows(project.policy, "read")
    ensures ApiCommand(ROUTES, project.repository, persona.host, project.policy, EmptyNameRequest(project, value).arguments) ==
            Some(Command(EmptyNameArguments(project, persona, value), "read", false, false))
  {
    var arguments := EmptyNameRequest(project, value).arguments;
    assert arguments[2..] == ["--raw-field", "=" + value];
    OneRawField("=" + value);
    RootPath(project.repository);
    assert ("repos/" + project.repository)[0] == 'r' && "/"[0] == '/';
    FirstRouteIsRoot(project.policy);
    EmptyListTakesEmptyName(ROUTES[0], ["=" + value]);
  }

  lemma OneRawField(field: string)
    ensures ReadOptions(["--raw-field", field], ApiOptions(None, [], [])) == Some(ApiOptions(None, [field], []))
    ensures RawFields([field]) == ["--raw-field", field]
  {
    OneOption(field);
    assert ["--raw-field", field][2..] == [];
    assert [field][..0] == [] && [field][|[field]| - 1] == field;
  }

  lemma OneOption(field: string)
    ensures WithOption(ApiOptions(None, [], []), "--raw-field", field) == Some(ApiOptions(None, [field], []))
  {
    assert "--raw-field"[2] == 'r' && "--method"[2] == 'm' && "-X"[1] == 'X';
    assert [] + [field] == [field];
  }

  function EmptyNameRequest(project: Project, value: string): Invocation {
    Invocation(["api", "repos/" + project.repository, "--raw-field", "=" + value], "")
  }

  lemma RootPath(repository: string)
    ensures RoutePath(repository, "repos/" + repository) == ""
  {
    var endpoint := "repos/" + repository;
    assert TrimPrefix(endpoint, endpoint) == "";
    assert SplitOn("", '/') == [""];
    assert NumberedParts([""]) == [""];
  }

  lemma FirstRouteIsRoot(policy: Policy)
    requires Allows(policy, "read")
    ensures FirstRoute(ROUTES, policy, "GET", "") == 0 && ROUTES[0] == ApiRoute("GET", "", "read", NO_FIELDS)
  {
  }

  function TheTables(fold: string -> string): Tables {
    Tables(CATALOG, ROUTES, fold)
  }

  /** The catalogue as it is: commands are rewritten to a normal form. */
  lemma CatalogIsNormal(fold: string -> string, project: Project, persona: Persona, invocation: Invocation)
    requires Authorized(TheTables(fold), project, persona, invocation).Some?
    requires IsCatalogCommand(invocation, Authorized(TheTables(fold), project, persona, invocation).value)
    ensures var c := Authorized(TheTables(fold), project, persona, invocation).value;
            var again := Invocation(c.arguments, invocation.input);
            && Authorized(TheTables(fold), project, persona, again) == (if WithinLimits(again) then Some(c) else None)
            && NamesOnlyBound(TheTables(fold), project, persona, c.arguments)
  {
    CatalogHasValuedRepository();
    AuthorizedIsNormal(TheTables(fold), project, persona, invocation);
  }

  /** The catalogue as it is: whatever a policy accepts, a larger one accepts as the identical command. */
  lemma CatalogIsMonotone(fold: string -> string, project: Project, persona: Persona, invocation: Invocation, large: Policy)
    requires AtLeast(project.policy, large) && Authorized(TheTables(fold), project, persona, invocation).Some?
    ensures Authorized(TheTables(fold), project.(policy := large), persona, invocation)
         == Authorized(TheTables(fold), project, persona, invocation)
  {
    RoutesAreUnique();
    AuthorizedIsMonotone(TheTables(fold), project, persona, invocation, large);
  }
}
