/** What is accepted of REST requests: their options as spellings, their paths with numbers, and what is run. */
module ApiDecisions {
  import opened Wrappers
  import opened Pieces
  import opened IdentityModels
  import opened CatalogCommands
  import opened ApiCommands

  // ---------- options ----------

  /** An option of a request; two of them have a short form. */
  datatype ApiOption = Method(short: bool, verb: string) | Field(short: bool, text: string) | Jq(text: string) | Template(text: string)

  function Spelled(o: ApiOption): seq<string> {
    match o
    case Method(short, verb) => [if short then "-X" else "--method", verb]
    case Field(short, text) => [if short then "-f" else "--raw-field", text]
    case Jq(text) => ["--jq", text]
    case Template(text) => ["--template", text]
  }

  function SpelledAll(options: seq<ApiOption>): seq<string> {
    if options == [] then [] else Spelled(options[0]) + SpelledAll(options[1..])
  }

  function Methods(options: seq<ApiOption>): seq<string> {
    if options == [] then []
    else (if options[0].Method? then [options[0].verb] else []) + Methods(options[1..])
  }

  function Fields(options: seq<ApiOption>): seq<string> {
    if options == [] then []
    else (if options[0].Field? then [options[0].text] else []) + Fields(options[1..])
  }

  /** The options that shape the output, as they were given. */
  function Shaping(options: seq<ApiOption>): seq<string> {
    if options == [] then []
    else (if options[0].Jq? || options[0].Template? then Spelled(options[0]) else []) + Shaping(options[1..])
  }

  /** What is collected from spelled options on top of what was collected before; a second method is refused. */
  function Collected(o: ApiOptions, options: seq<ApiOption>): Option<ApiOptions> {
    var verbs := (if o.verb.Some? then [o.verb.value] else []) + Methods(options);
    if |verbs| > 1 then None
    else Some(ApiOptions(if verbs == [] then None else Some(verbs[0]), o.fields + Fields(options), o.format + Shaping(options)))
  }

  /** Reading spelled options collects them. */
  lemma {:induction false} SpelledIsRead(options: seq<ApiOption>, o: ApiOptions)
    ensures ReadOptions(SpelledAll(options), o) == Collected(o, options)
    decreases |options|
  {
    if options == [] {
      assert o.fields + [] == o.fields && o.format + [] == o.format;
      assert o.verb.Some? ==> [o.verb.value] + [] == [o.verb.value];
    } else {
      var rest := SpelledAll(options);
      var option := options[0];
      assert rest[0] == Spelled(option)[0] && rest[1] == Spelled(option)[1] && rest[2..] == SpelledAll(options[1..]);
      OneIsRead(o, option);
      CollectedOneMore(o, option, options[1..]);
      assert options == [option] + options[1..];
      if Collected(o, [option]).Some? {
        SpelledIsRead(options[1..], Collected(o, [option]).value);
      }
    }
  }

  lemma OneIsRead(o: ApiOptions, option: ApiOption)
    ensures WithOption(o, Spelled(option)[0], Spelled(option)[1]) == Collected(o, [option])
  {
    assert [option][1..] == [];
    assert Methods([option]) == if option.Method? then [option.verb] else [];
    assert Fields([option]) == if option.Field? then [option.text] else [];
    assert Shaping([option]) == if option.Jq? || option.Template? then Spelled(option) else [];
    assert o.fields + [] == o.fields && o.format + [] == o.format;
    FlagsDiffer();
  }

  lemma FlagsDiffer()
    ensures "--method" != "--raw-field" && "--method" != "-f" && "-X" != "--raw-field" && "-X" != "-f"
    ensures "--jq" !in ["--method", "-X", "--raw-field", "-f"] && "--template" !in ["--method", "-X", "--raw-field", "-f"]
  {
    assert "--jq"[2] == 'j' && "--template"[2] == 't' && "--method"[2] == 'm' && "--raw-field"[2] == 'r';
    assert "-X"[1] == 'X' && "-f"[1] == 'f';
  }

  lemma CollectedOneMore(o: ApiOptions, option: ApiOption, rest: seq<ApiOption>)
    ensures Collected(o, [option] + rest) ==
            if Collected(o, [option]).None? then None else Collected(Collected(o, [option]).value, rest)
  {
    var all := [option] + rest;
    assert all[0] == option && all[1..] == rest && [option][1..] == [];
    assert Methods([option]) == if option.Method? then [option.verb] else [];
    assert Fields([option]) == if option.Field? then [option.text] else [];
    assert Shaping([option]) == if option.Jq? || option.Template? then Spelled(option) else [];
    Regroup(o.fields, Fields([option]), Fields(rest));
    Regroup(o.format, Shaping([option]), Shaping(rest));
    assert [] + Methods(rest) == Methods(rest);
  }

  /** Whatever is read was spelled. */
  lemma {:induction false} ReadIsSpelled(args: seq<string>, o: ApiOptions) returns (options: seq<ApiOption>)
    requires ReadOptions(args, o).Some?
    ensures SpelledAll(options) == args
    decreases |args|
  {
    if args == [] {
      options := [];
    } else {
      var rest := ReadIsSpelled(args[2..], WithOption(o, args[0], args[1]).value);
      var option := OptionOf(args[0], args[1]);
      OneOfSix(o, args[0], args[1]);
      options := [option] + rest;
      assert options[1..] == rest && args == [args[0], args[1]] + args[2..];
    }
  }

  function OptionOf(flag: string, text: string): ApiOption {
    if flag == "--method" || flag == "-X" then Method(flag == "-X", text)
    else if flag == "--raw-field" || flag == "-f" then Field(flag == "-f", text)
    else if flag == "--jq" then Jq(text)
    else Template(text)
  }

  lemma OneOfSix(o: ApiOptions, flag: string, text: string)
    requires WithOption(o, flag, text).Some?
    ensures Spelled(OptionOf(flag, text)) == [flag, text]
  {
  }

  // ---------- paths ----------

  predicate IsPositive(part: string) {
    part != "" && part[0] != '0' && forall c | c in part :: '0' <= c <= '9'
  }

  /** A path with `#` in place of its numbers. */
  function Abstracted(parts: seq<string>): seq<string> {
    seq(|parts|, i requires 0 <= i < |parts| => if IsPositive(parts[i]) then "#" else parts[i])
  }

  predicate Without(parts: seq<string>, c: char) {
    forall i | 0 <= i < |parts| :: c !in parts[i]
  }

  /** Joining undoes splitting the other way round, too. */
  lemma {:induction false} SplitUndoesJoin(parts: seq<string>, c: char)
    requires parts != [] && Without(parts, c)
    ensures SplitOn(JoinWith(parts, c), c) == parts
    decreases |parts|
  {
    if |parts| == 1 {
      NotFound(parts[0], c);
    } else {
      var rest := JoinWith(parts[1..], c);
      var text := parts[0] + [c] + rest;
      FindBehind(parts[0], c, rest);
      assert text[..|parts[0]|] == parts[0] && text[|parts[0]| + 1..] == rest;
      SplitUndoesJoin(parts[1..], c);
      assert [parts[0]] + parts[1..] == parts;
    }
  }

  lemma {:induction false} PartsAreWithout(text: string, c: char)
    ensures Without(SplitOn(text, c), c)
    decreases |text|
  {
    var i := Find(text, c);
    if i < |text| {
      PartsAreWithout(text[i + 1..], c);
    } else {
      assert text[..i] == text;
    }
  }

  /** The argument names a place in the repository: the repository itself, or a path of parts behind it. */
  predicate IsAt(repository: string, argument: string, parts: seq<string>) {
    && parts != [] && Without(parts, '/')
    && var endpoint := "repos/" + repository;
    var path := "repos/" + repository + "/" + JoinWith(parts, '/');
    || argument == path || argument == "/" + path
    || (parts == [""] && (argument == endpoint || argument == "/" + endpoint))
  }

  /** Without one slash in front, if there is one. */
  function Trimmed(argument: string): string {
    if argument != "" && argument[0] == '/' then argument[1..] else argument
  }

  lemma TrimmedIsTrimmed(argument: string)
    ensures TrimPrefix(argument, "/") == Trimmed(argument)
  {
  }

  /** A place in the repository is looked up by its parts, with numbers abstracted. */
  lemma PlaceIsLookedUp(repository: string, argument: string, parts: seq<string>)
    requires IsAt(repository, argument, parts)
    ensures InRepository(repository, Trimmed(argument))
    ensures RoutePath(repository, Trimmed(argument)) == JoinWith(Abstracted(parts), '/')
  {
    var prefix := "repos/" + repository;
    var joined := JoinWith(parts, '/');
    var endpoint := Trimmed(argument);
    assert prefix[0] == 'r' && (prefix + "/" + joined)[0] == 'r';
    assert ("/" + prefix)[1..] == prefix && ("/" + (prefix + "/" + joined))[1..] == prefix + "/" + joined;
    AbstractedIsNumbered(parts);
    SplitUndoesJoin(parts, '/');
    if endpoint == prefix {
      assert TrimPrefix(endpoint, prefix) == "" && TrimPrefix("", "/") == "";
      assert joined == "" || |endpoint| == |prefix|;
      WholeRepository(repository, parts);
    } else {
      assert endpoint == prefix + "/" + joined;
      assert TrimPrefix(endpoint, prefix) == "/" + joined && TrimPrefix("/" + joined, "/") == joined;
      assert prefix + "/" <= endpoint;
    }
  }

  lemma WholeRepository(repository: string, parts: seq<string>)
    requires parts == [""]
    ensures SplitOn("", '/') == parts && JoinWith(parts, '/') == ""
  {
  }

  lemma AbstractedIsNumbered(parts: seq<string>)
    ensures Abstracted(parts) == NumberedParts(parts)
  {
    forall i | 0 <= i < |parts|
      ensures IsPositive(parts[i]) <==> IsNumber(parts[i])
    {
      if parts[i] != "" {
        assert parts[i][0] in parts[i];
      }
    }
  }

  /** Whatever lies in the repository is such a place. */
  lemma PlaceOf(repository: string, argument: string) returns (parts: seq<string>)
    requires InRepository(repository, Trimmed(argument))
    ensures IsAt(repository, argument, parts)
  {
    var prefix := "repos/" + repository;
    var endpoint := Trimmed(argument);
    assert argument == endpoint || argument == "/" + endpoint;
    if endpoint == prefix {
      parts := [""];
    } else {
      var rest := endpoint[|prefix| + 1..];
      parts := SplitOn(rest, '/');
      JoinUndoesSplit(rest, '/');
      PartsAreWithout(rest, '/');
      assert endpoint == prefix + "/" + rest;
    }
  }

  // ---------- fields ----------

  /** The field gives a value to one of the keys. */
  predicate AssignsTo(keys: seq<string>, field: string, key: string) {
    key in keys && '=' !in key && key + "=" <= field
  }

  ghost predicate IsAssignment(keys: seq<string>, field: string) {
    exists key :: AssignsTo(keys, field, key)
  }

  /** Every field gives a value to a key of the route, and no two to the same. */
  ghost predicate TakesFields(route: ApiRoute, fields: seq<string>) {
    && (forall i | 0 <= i < |fields| :: IsAssignment(route.fields, fields[i]))
    && forall i, j, key | 0 <= i < j < |fields| && AssignsTo(route.fields, fields[i], key) ::
         !AssignsTo(route.fields, fields[j], key)
  }

  lemma KeyIsAssigned(keys: seq<string>, field: string, key: string)
    ensures AssignsTo(keys, field, key) <==> '=' in field && KeyOf(field) == key && key in keys
  {
    var i := Find(field, '=');
    assert field == field[..i] + field[i..];
    if '=' !in key && key + "=" <= field {
      var rest := field[|key| + 1..];
      assert field == key + ['='] + rest;
      FindBehind(key, '=', rest);
    }
    if i < |field| {
      assert field[..i] + "=" <= field;
    }
  }

  lemma FieldsAreTaken(route: ApiRoute, fields: seq<string>)
    ensures TakesFields(route, fields) <==> GoodFields(route, fields)
  {
    GoodFieldsMeaning(route, fields);
    if TakesFields(route, fields) {
      TakenAreGood(route, fields);
    }
    if AllAssign(route, fields) && DistinctKeys(fields) {
      GoodAreTaken(route, fields);
    }
  }

  lemma TakenAreGood(route: ApiRoute, fields: seq<string>)
    requires TakesFields(route, fields)
    ensures AllAssign(route, fields) && DistinctKeys(fields)
  {
    forall f | f in fields
      ensures Assigns(route, f)
    {
      var i :| 0 <= i < |fields| && fields[i] == f;
      assert IsAssignment(route.fields, fields[i]);
      var key :| AssignsTo(route.fields, fields[i], key);
      KeyIsAssigned(route.fields, f, key);
    }
    forall i, j | 0 <= i < j < |fields|
      ensures KeyOf(fields[i]) != KeyOf(fields[j])
    {
      assert IsAssignment(route.fields, fields[i]) && IsAssignment(route.fields, fields[j]);
      var key :| AssignsTo(route.fields, fields[i], key);
      KeyIsAssigned(route.fields, fields[i], key);
      var other :| AssignsTo(route.fields, fields[j], other);
      KeyIsAssigned(route.fields, fields[j], other);
      assert !AssignsTo(route.fields, fields[j], key);
    }
  }

  lemma GoodAreTaken(route: ApiRoute, fields: seq<string>)
    requires AllAssign(route, fields) && DistinctKeys(fields)
    ensures TakesFields(route, fields)
  {
    forall i | 0 <= i < |fields|
      ensures IsAssignment(route.fields, fields[i])
    {
      assert Assigns(route, fields[i]);
      KeyIsAssigned(route.fields, fields[i], KeyOf(fields[i]));
      assert AssignsTo(route.fields, fields[i], KeyOf(fields[i]));
    }
    forall i, j, key | 0 <= i < j < |fields| && AssignsTo(route.fields, fields[i], key)
      ensures !AssignsTo(route.fields, fields[j], key)
    {
      KeyIsAssigned(route.fields, fields[i], key);
      KeyIsAssigned(route.fields, fields[j], key);
      assert KeyOf(fields[i]) != KeyOf(fields[j]);
    }
  }

  // ---------- the decision ----------

  /** The method asked for; reading is meant when none is named. */
  function MethodOf(options: seq<ApiOption>): string {
    if Methods(options) == [] then "GET" else Methods(options)[0]
  }

  /** The fields, in their long form. */
  function LongFields(options: seq<ApiOption>): seq<string> {
    if options == [] then []
    else (if options[0].Field? then ["--raw-field", options[0].text] else []) + LongFields(options[1..])
  }

  /** What is run for a request: the same request, with host and method made explicit. */
  function RunFor(argument: string, host: string, options: seq<ApiOption>, permission: string): Command {
    Command(["api", Trimmed(argument), "--hostname", host, "--method", MethodOf(options)] + LongFields(options) + Shaping(options),
            permission, false, false)
  }

  lemma {:induction false} FieldsAreLong(options: seq<ApiOption>)
    ensures LongFields(options) == RawFields(Fields(options))
    decreases |options|
  {
    if options != [] {
      var rest := Fields(options[1..]);
      FieldsAreLong(options[1..]);
      if options[0].Field? {
        RawFieldsCons(options[0].text, rest);
      } else {
        assert [] + rest == rest && [] + LongFields(options[1..]) == LongFields(options[1..]);
      }
    }
  }

  lemma {:induction false} RawFieldsCons(field: string, fields: seq<string>)
    ensures RawFields([field] + fields) == ["--raw-field", field] + RawFields(fields)
    decreases |fields|
  {
    var all := [field] + fields;
    if fields == [] {
      assert all == [field] && [field][..0] == [];
    } else {
      var last := |fields| - 1;
      assert all[..|all| - 1] == [field] + fields[..last] && all[|all| - 1] == fields[last];
      RawFieldsCons(field, fields[..last]);
    }
  }

  ghost predicate IsAcceptedAs(
    routes: seq<ApiRoute>, repository: string, host: string, policy: Policy, arguments: seq<string>, c: Command,
    options: seq<ApiOption>, parts: seq<string>, route: ApiRoute)
    requires |arguments| >= 2
  {
    && arguments[2..] == SpelledAll(options) && |Methods(options)| <= 1
    && IsAt(repository, arguments[1], parts)
    && route in routes && route.verb == MethodOf(options) && route.path == JoinWith(Abstracted(parts), '/')
    && Allows(policy, route.permission) && TakesFields(route, Fields(options))
    && c == RunFor(arguments[1], host, options, route.permission)
  }

  /**
   * With unique routes a request is accepted exactly if its arguments spell options with one method at most, it names a
   * place in the bound repository, and the table has a permitted route for the two that takes its fields; what is run
   * then is that request with its host and method written out.
   */
  lemma RequestsAreDecided(
    routes: seq<ApiRoute>, repository: string, host: string, policy: Policy, arguments: seq<string>, c: Command)
    requires |arguments| >= 2 && UniqueRoutes(routes)
    ensures ApiCommand(routes, repository, host, policy, arguments) == Some(c) <==>
              exists options, parts, route ::
                IsAcceptedAs(routes, repository, host, policy, arguments, c, options, parts, route)
  {
    TrimmedIsTrimmed(arguments[1]);
    var o := ReadOptions(arguments[2..], ApiOptions(None, [], []));
    if ApiCommand(routes, repository, host, policy, arguments) == Some(c) {
      var options := ReadIsSpelled(arguments[2..], ApiOptions(None, [], []));
      var parts := PlaceOf(repository, arguments[1]);
      var i := FirstRoute(routes, policy, Verb(o.value), RoutePath(repository, Trimmed(arguments[1])));
      AcceptedHas(routes, repository, host, policy, arguments, c, options, parts, routes[i]);
    }
    if options, parts, route :| IsAcceptedAs(routes, repository, host, policy, arguments, c, options, parts, route) {
      AcceptedIs(routes, repository, host, policy, arguments, c, options, parts, route);
    }
  }

  lemma OptionsAre(options: seq<ApiOption>)
    ensures var o := ReadOptions(SpelledAll(options), ApiOptions(None, [], []));
            if |Methods(options)| > 1 then o.None?
            else o.Some? && Verb(o.value) == MethodOf(options) && o.value.fields == Fields(options)
                 && o.value.format == Shaping(options)
  {
    SpelledIsRead(options, ApiOptions(None, [], []));
    assert [] + Methods(options) == Methods(options) && [] + Fields(options) == Fields(options);
    assert [] + Shaping(options) == Shaping(options);
  }

  lemma AcceptedHas(
    routes: seq<ApiRoute>, repository: string, host: string, policy: Policy, arguments: seq<string>, c: Command,
    options: seq<ApiOption>, parts: seq<string>, route: ApiRoute)
    requires |arguments| >= 2 && ApiCommand(routes, repository, host, policy, arguments) == Some(c)
    requires arguments[2..] == SpelledAll(options) && IsAt(repository, arguments[1], parts)
    requires var verb := Verb(ReadOptions(arguments[2..], ApiOptions(None, [], [])).value);
             var i := FirstRoute(routes, policy, verb, RoutePath(repository, Trimmed(arguments[1])));
             i < |routes| && route == routes[i]
    ensures IsAcceptedAs(routes, repository, host, policy, arguments, c, options, parts, route)
  {
    TrimmedIsTrimmed(arguments[1]);
    OptionsAre(options);
    PlaceIsLookedUp(repository, arguments[1], parts);
    FieldsAreTaken(route, Fields(options));
    FieldsAreLong(options);
  }

  lemma AcceptedIs(
    routes: seq<ApiRoute>, repository: string, host: string, policy: Policy, arguments: seq<string>, c: Command,
    options: seq<ApiOption>, parts: seq<string>, route: ApiRoute)
    requires |arguments| >= 2 && UniqueRoutes(routes)
    requires IsAcceptedAs(routes, repository, host, policy, arguments, c, options, parts, route)
    ensures ApiCommand(routes, repository, host, policy, arguments) == Some(c)
  {
    TrimmedIsTrimmed(arguments[1]);
    OptionsAre(options);
    PlaceIsLookedUp(repository, arguments[1], parts);
    FieldsAreTaken(route, Fields(options));
    FieldsAreLong(options);
    var i := FirstRoute(routes, policy, route.verb, route.path);
    var j :| 0 <= j < |routes| && routes[j] == route;
    assert IsRoute(routes[j], route.verb, route.path);
    OnlyRoute(routes, route, routes[i]);
  }
}
