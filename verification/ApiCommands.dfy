/** REST requests: a table of routes within the bound repository. */
module ApiCommands {
  import opened Wrappers
  import opened IdentityModels
  import opened CatalogCommands

  /** `#` stands for a number; `fields` are the parts of the comma-separated list, so an empty list has one empty part. */
  datatype ApiRoute = ApiRoute(verb: string, path: string, permission: string, fields: seq<string>)

  // ---------- paths ----------

  function SplitOn(text: string, c: char): (parts: seq<string>)
    ensures parts != []
    decreases |text|
  {
    var i := Find(text, c);
    if i == |text| then [text] else [text[..i]] + SplitOn(text[i + 1..], c)
  }

  function JoinWith(parts: seq<string>, c: char): string
    requires parts != []
    decreases |parts|
  {
    if |parts| == 1 then parts[0] else parts[0] + [c] + JoinWith(parts[1..], c)
  }

  lemma {:induction false} JoinUndoesSplit(text: string, c: char)
    ensures JoinWith(SplitOn(text, c), c) == text
    decreases |text|
  {
    var i := Find(text, c);
    if i < |text| {
      var rest := SplitOn(text[i + 1..], c);
      JoinUndoesSplit(text[i + 1..], c);
      JoinOneMore(text[..i], rest, c);
      AroundChar(text, i);
    }
  }

  lemma JoinOneMore(part: string, rest: seq<string>, c: char)
    requires rest != []
    ensures JoinWith([part] + rest, c) == part + [c] + JoinWith(rest, c)
  {
    assert ([part] + rest)[1..] == rest;
  }

  lemma AroundChar(text: string, i: nat)
    requires i < |text|
    ensures text[..i] + [text[i]] + text[i + 1..] == text
  {
  }

  function Numbered(part: string): string {
    if IsNumber(part) then "#" else part
  }

  function NumberedParts(parts: seq<string>): (r: seq<string>)
    ensures |r| == |parts|
  {
    seq(|parts|, i requires 0 <= i < |parts| => Numbered(parts[i]))
  }

  predicate InRepository(repository: string, endpoint: string) {
    endpoint == "repos/" + repository || "repos/" + repository + "/" <= endpoint
  }

  function RoutePath(repository: string, endpoint: string): string {
    JoinWith(NumberedParts(SplitOn(TrimPrefix(TrimPrefix(endpoint, "repos/" + repository), "/"), '/')), '/')
  }

  // ---------- options ----------

  datatype ApiOptions = ApiOptions(verb: Option<string>, fields: seq<string>, format: seq<string>)

  function WithOption(o: ApiOptions, flag: string, value: string): Option<ApiOptions> {
    if flag == "--method" || flag == "-X" then if o.verb.Some? then None else Some(o.(verb := Some(value)))
    else if flag == "--raw-field" || flag == "-f" then Some(o.(fields := o.fields + [value]))
    else if flag == "--jq" || flag == "--template" then Some(o.(format := o.format + [flag, value]))
    else None
  }

  function ReadOptions(rest: seq<string>, o: ApiOptions): Option<ApiOptions>
    decreases |rest|
  {
    if rest == [] then Some(o)
    else if |rest| == 1 then None
    else
      var next := WithOption(o, rest[0], rest[1]);
      if next.None? then None else ReadOptions(rest[2..], next.value)
  }

  function Verb(o: ApiOptions): string {
    if o.verb.Some? then o.verb.value else "GET"
  }

  // ---------- routes and fields ----------

  predicate IsRoute(route: ApiRoute, verb: string, path: string) {
    route.verb == verb && route.path == path
  }

  /** The first permitted route for a request, or the end. */
  function FirstRoute(routes: seq<ApiRoute>, policy: Policy, verb: string, path: string): (i: nat)
    ensures i <= |routes|
    ensures i < |routes| ==> IsRoute(routes[i], verb, path) && Allows(policy, routes[i].permission)
    ensures forall j | 0 <= j < i :: !(IsRoute(routes[j], verb, path) && Allows(policy, routes[j].permission))
  {
    if routes == [] || (IsRoute(routes[0], verb, path) && Allows(policy, routes[0].permission)) then 0
    else 1 + FirstRoute(routes[1..], policy, verb, path)
  }

  function KeyOf(field: string): string {
    CutAt(field, '=').before
  }

  function Keys(fields: seq<string>): set<string> {
    set i | 0 <= i < |fields| :: KeyOf(fields[i])
  }

  /** A field is an assignment to a key of the route that was not assigned before. */
  predicate IsNewField(route: ApiRoute, before: seq<string>, field: string) {
    '=' in field && KeyOf(field) in route.fields && KeyOf(field) !in Keys(before)
  }

  predicate GoodFields(route: ApiRoute, fields: seq<string>) {
    fields == [] ||
    (GoodFields(route, fields[..|fields| - 1]) && IsNewField(route, fields[..|fields| - 1], fields[|fields| - 1]))
  }

  predicate Assigns(route: ApiRoute, field: string) {
    '=' in field && KeyOf(field) in route.fields
  }

  predicate AllAssign(route: ApiRoute, fields: seq<string>) {
    forall f | f in fields :: Assigns(route, f)
  }

  predicate DistinctKeys(fields: seq<string>) {
    forall i, j | 0 <= i < j < |fields| :: KeyOf(fields[i]) != KeyOf(fields[j])
  }

  /** Fields are good exactly if each assigns to a key of the route and no key is assigned twice. */
  lemma {:induction false} GoodFieldsMeaning(route: ApiRoute, fields: seq<string>)
    ensures GoodFields(route, fields) <==> AllAssign(route, fields) && DistinctKeys(fields)
  {
    if fields != [] {
      var last := |fields| - 1;
      GoodFieldsMeaning(route, fields[..last]);
      assert fields == fields[..last] + [fields[last]];
      AssignsOneMore(route, fields[..last], fields[last]);
      DistinctOneMore(fields[..last], fields[last]);
    }
  }

  lemma AssignsOneMore(route: ApiRoute, fields: seq<string>, f: string)
    ensures AllAssign(route, fields + [f]) <==> AllAssign(route, fields) && Assigns(route, f)
  {
    assert f in fields + [f] && forall g | g in fields :: g in fields + [f];
  }

  lemma DistinctOneMore(fields: seq<string>, f: string)
    ensures DistinctKeys(fields + [f]) <==> DistinctKeys(fields) && KeyOf(f) !in Keys(fields)
  {
    var all := fields + [f];
    if DistinctKeys(all) {
      forall i | 0 <= i < |fields|
        ensures KeyOf(fields[i]) != KeyOf(f)
      {
        assert KeyOf(all[i]) != KeyOf(all[|fields|]);
      }
      forall i, j | 0 <= i < j < |fields|
        ensures KeyOf(fields[i]) != KeyOf(fields[j])
      {
        assert KeyOf(all[i]) != KeyOf(all[j]);
      }
    }
  }

  function RawFields(fields: seq<string>): seq<string> {
    if fields == [] then [] else RawFields(fields[..|fields| - 1]) + ["--raw-field", fields[|fields| - 1]]
  }

  function ApiArguments(endpoint: string, host: string, o: ApiOptions): seq<string> {
    ["api", endpoint, "--hostname", host, "--method", Verb(o)] + RawFields(o.fields) + o.format
  }

  function ApiCommand(
    routes: seq<ApiRoute>, repository: string, host: string, policy: Policy, arguments: seq<string>): Option<Command>
    requires |arguments| >= 2
  {
    var endpoint := TrimPrefix(arguments[1], "/");
    var o := ReadOptions(arguments[2..], ApiOptions(None, [], []));
    if !InRepository(repository, endpoint) || o.None? then None
    else
      var i := FirstRoute(routes, policy, Verb(o.value), RoutePath(repository, endpoint));
      if i == |routes| || !GoodFields(routes[i], o.value.fields) then None
      else Some(Command(ApiArguments(endpoint, host, o.value), routes[i].permission, false, false))
  }

  // ---------- the loops ----------

  method AuthorizeAPI(routes: seq<ApiRoute>, repository: string, host: string, policy: Policy, arguments: seq<string>)
    returns (r: Option<Command>)
    requires |arguments| >= 2
    ensures r == ApiCommand(routes, repository, host, policy, arguments)
  {
    var endpoint := TrimPrefix(arguments[1], "/");
    var prefix := "repos/" + repository;
    if endpoint != prefix && !(prefix + "/" <= endpoint) {
      return None;
    }
    var parts := NumberParts(SplitOn(TrimPrefix(TrimPrefix(endpoint, prefix), "/"), '/'));
    var routePath := JoinWith(parts, '/');
    var o := ParseOptions(arguments);
    if o.None? {
      return None;
    }
    var verb := if o.value.verb.Some? then o.value.verb.value else "GET";
    var i := FindRoute(routes, policy, verb, routePath);
    if i == |routes| {
      return None;
    }
    var good := CheckFields(routes[i], o.value.fields);
    if !good {
      return None;
    }
    var args := RenderFields(["api", endpoint, "--hostname", host, "--method", verb], o.value.fields);
    return Some(Command(args + o.value.format, routes[i].permission, false, false));
  }

  method FindRoute(routes: seq<ApiRoute>, policy: Policy, verb: string, path: string) returns (i: nat)
    ensures i == FirstRoute(routes, policy, verb, path)
  {
    i := 0;
    while i < |routes|
      invariant i <= |routes|
      invariant forall j | 0 <= j < i :: !(IsRoute(routes[j], verb, path) && Allows(policy, routes[j].permission))
    {
      if routes[i].verb == verb && routes[i].path == path && Allows(policy, routes[i].permission) {
        return;
      }
      i := i + 1;
    }
  }

  method NumberParts(parts: seq<string>) returns (r: seq<string>)
    ensures r == NumberedParts(parts)
  {
    r := parts;
    var i := 0;
    while i < |parts|
      invariant i <= |parts| && |r| == |parts|
      invariant forall j | 0 <= j < i :: r[j] == Numbered(parts[j])
      invariant forall j | i <= j < |parts| :: r[j] == parts[j]
    {
      if IsNumber(r[i]) {
        r := r[i := "#"];
      }
      i := i + 1;
    }
  }

  method ParseOptions(arguments: seq<string>) returns (r: Option<ApiOptions>)
    requires |arguments| >= 2
    ensures r == ReadOptions(arguments[2..], ApiOptions(None, [], []))
  {
    var o := ApiOptions(None, [], []);
    ghost var goal := ReadOptions(arguments[2..], o);
    var i := 2;
    while i < |arguments|
      invariant 2 <= i <= |arguments|
      invariant goal == ReadOptions(arguments[i..], o)
    {
      if i + 1 == |arguments| {
        return None;
      }
      assert arguments[i..][2..] == arguments[i + 2..];
      var next := ReadOption(o, arguments[i], arguments[i + 1]);
      if next.None? {
        return None;
      }
      o, i := next.value, i + 2;
    }
    return Some(o);
  }

  method ReadOption(o: ApiOptions, flag: string, value: string) returns (r: Option<ApiOptions>)
    ensures r == WithOption(o, flag, value)
  {
    if flag == "--method" || flag == "-X" {
      if o.verb.Some? {
        return None;
      }
      return Some(o.(verb := Some(value)));
    }
    if flag == "--raw-field" || flag == "-f" {
      return Some(o.(fields := o.fields + [value]));
    }
    if flag == "--jq" || flag == "--template" {
      return Some(o.(format := o.format + [flag, value]));
    }
    return None;
  }

  lemma {:induction false} GoodPrefix(route: ApiRoute, fields: seq<string>, n: nat)
    requires n <= |fields|
    ensures GoodFields(route, fields) ==> GoodFields(route, fields[..n])
    decreases |fields|
  {
    if n < |fields| {
      GoodPrefix(route, fields[..|fields| - 1], n);
      assert fields[..|fields| - 1][..n] == fields[..n];
    } else {
      assert fields[..n] == fields;
    }
  }

  lemma GoodOneMore(route: ApiRoute, fields: seq<string>, i: nat)
    requires i < |fields|
    ensures GoodFields(route, fields[..i + 1]) <==> GoodFields(route, fields[..i]) && IsNewField(route, fields[..i], fields[i])
    ensures Keys(fields[..i + 1]) == Keys(fields[..i]) + {KeyOf(fields[i])}
  {
    assert fields[..i + 1][..i] == fields[..i];
    assert forall j | 0 <= j < i :: fields[..i + 1][j] == fields[..i][j];
  }

  lemma EqualsIsFound(field: string)
    ensures CutAt(field, '=').found <==> '=' in field
  {
    var at := Find(field, '=');
    assert field == field[..at] + field[at..];
  }

  method CheckFields(route: ApiRoute, fields: seq<string>) returns (ok: bool)
    ensures ok <==> GoodFields(route, fields)
  {
    var seen: set<string> := {};
    var i := 0;
    while i < |fields|
      invariant i <= |fields|
      invariant seen == Keys(fields[..i])
      invariant GoodFields(route, fields[..i])
    {
      var cut := CutAt(fields[i], '=');
      EqualsIsFound(fields[i]);
      GoodOneMore(route, fields, i);
      GoodPrefix(route, fields, i + 1);
      if !cut.found || cut.before in seen || cut.before !in route.fields {
        return false;
      }
      seen := seen + {cut.before};
      i := i + 1;
    }
    assert fields[..i] == fields;
    return true;
  }

  method RenderFields(start: seq<string>, fields: seq<string>) returns (args: seq<string>)
    ensures args == start + RawFields(fields)
  {
    args := start;
    var i := 0;
    while i < |fields|
      invariant i <= |fields|
      invariant args == start + RawFields(fields[..i])
    {
      assert fields[..i + 1][..i] == fields[..i];
      args := args + ["--raw-field", fields[i]];
      i := i + 1;
    }
    assert fields[..i] == fields;
  }

  // ---------- what is accepted ----------

  /** No request has two routes. */
  predicate UniqueRoutes(routes: seq<ApiRoute>) {
    forall i, j | 0 <= i < j < |routes| :: !IsRoute(routes[j], routes[i].verb, routes[i].path)
  }

  ghost predicate RouteFor(routes: seq<ApiRoute>, policy: Policy, verb: string, path: string, fields: seq<string>, route: ApiRoute) {
    route in routes && IsRoute(route, verb, path) && Allows(policy, route.permission) && GoodFields(route, fields)
  }

  /**
   * With unique routes a request is accepted exactly if its endpoint lies in the bound repository, its options can
   * be read, and the table has a permitted route for it that takes its fields; it then has that route's permission.
   */
  lemma ApiAccepts(routes: seq<ApiRoute>, repository: string, host: string, policy: Policy, arguments: seq<string>, permission: string)
    requires |arguments| >= 2 && UniqueRoutes(routes)
    ensures var endpoint := TrimPrefix(arguments[1], "/");
            var o := ReadOptions(arguments[2..], ApiOptions(None, [], []));
            var r := ApiCommand(routes, repository, host, policy, arguments);
            (r.Some? && r.value.permission == permission) <==>
              && InRepository(repository, endpoint) && o.Some?
              && exists route: ApiRoute :: route.permission == permission
                   && RouteFor(routes, policy, Verb(o.value), RoutePath(repository, endpoint), o.value.fields, route)
  {
    var endpoint := TrimPrefix(arguments[1], "/");
    var o := ReadOptions(arguments[2..], ApiOptions(None, [], []));
    if InRepository(repository, endpoint) && o.Some? {
      var path := RoutePath(repository, endpoint);
      var i := FirstRoute(routes, policy, Verb(o.value), path);
      if i < |routes| {
        assert RouteFor(routes, policy, Verb(o.value), path, o.value.fields, routes[i]) <==> GoodFields(routes[i], o.value.fields);
        forall route | RouteFor(routes, policy, Verb(o.value), path, o.value.fields, route)
          ensures route == routes[i]
        {
          OnlyRoute(routes, route, routes[i]);
        }
      }
    }
  }

  lemma OnlyRoute(routes: seq<ApiRoute>, a: ApiRoute, b: ApiRoute)
    requires UniqueRoutes(routes) && a in routes && b in routes && IsRoute(a, b.verb, b.path)
    ensures a == b
  {
    var i :| 0 <= i < |routes| && routes[i] == a;
    var j :| 0 <= j < |routes| && routes[j] == b;
  }

  /** A larger policy accepts whatever a smaller one does, as the same command. */
  lemma ApiIsMonotone(
    routes: seq<ApiRoute>, repository: string, host: string, small: Policy, large: Policy, arguments: seq<string>)
    requires |arguments| >= 2 && UniqueRoutes(routes) && AtLeast(small, large)
    requires ApiCommand(routes, repository, host, small, arguments).Some?
    ensures ApiCommand(routes, repository, host, large, arguments) == ApiCommand(routes, repository, host, small, arguments)
  {
    var endpoint := TrimPrefix(arguments[1], "/");
    var verb := Verb(ReadOptions(arguments[2..], ApiOptions(None, [], [])).value);
    var path := RoutePath(repository, endpoint);
    var i := FirstRoute(routes, small, verb, path);
    var j := FirstRoute(routes, large, verb, path);
    assert Allows(large, routes[i].permission);
    OnlyRoute(routes, routes[i], routes[j]);
  }
}
