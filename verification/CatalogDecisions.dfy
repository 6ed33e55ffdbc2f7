/** What the catalogue accepts: its arguments as spellings of tokens, and the tokens it takes. */
module CatalogDecisions {
  import opened Wrappers
  import opened Pieces
  import opened IdentityModels
  import opened CatalogCommands
  import opened ApiCommands
  import opened GitCredentials
  import opened Catalogs

  // ---------- how tokens are spelled ----------

  /** The short forms of flags. */
  predicate Abbreviates(short: string, flag: string) {
    || (short == "-R" && flag == "repo") || (short == "-b" && flag == "body") || (short == "-F" && flag == "body-file")
    || (short == "-f" && flag == "raw-field") || (short == "-t" && flag == "title") || (short == "-H" && flag == "head")
    || (short == "-B" && flag == "base") || (short == "-L" && flag == "limit") || (short == "-q" && flag == "jq")
    || (short == "-s" && flag == "state") || (short == "-a" && flag == "assignee") || (short == "-l" && flag == "label")
  }

  predicate Spells(args: seq<string>, t: Token) {
    match t
    case Positional(text) => args == [text] && !("-" <= text)
    case Switch(flag) => |args| == 1 && (args[0] == "--" + flag || Abbreviates(args[0], flag))
    case Valued(flag, value) =>
      || args == ["--" + flag + "=" + value]
      || (|args| == 2 && args[1] == value && (args[0] == "--" + flag || Abbreviates(args[0], flag)))
  }

  /** The entry knows the flag, as one without or with a value. */
  predicate Knows(g: Grammar, t: Token) {
    match t
    case Positional(_) => true
    case Switch(flag) => flag != "" && '=' !in flag && flag in g.spec.booleans
    case Valued(flag, _) =>
      && flag != "" && '=' !in flag && flag !in g.spec.booleans
      && (flag in g.spec.values || flag == "repo"
          || (g.spec.permission == "read" && (flag == "json" || flag == "jq" || flag == "template")))
  }

  /** The next token is the one the first arguments spell, and there is none if they spell none. */
  lemma NextTokenIsSpelled(g: Grammar, rest: seq<string>, t: Token, n: nat)
    requires rest != []
    ensures NextToken(g, rest) == Some((t, n)) <==> n <= |rest| && Spells(rest[..n], t) && Knows(g, t)
  {
    var arg := rest[0];
    assert 1 <= n <= |rest| ==> rest[..n][0] == arg;
    assert rest[..1] == [arg];
    if "--" <= arg {
      LongIsSpelled(g, rest, t, n);
    } else if "-" <= arg {
      ShortIsSpelled(g, rest, t, n);
    } else {
      assert !t.Positional? ==> "-" <= "--" + t.flag;
      assert t.Valued? ==> "-" <= "--" + t.flag + "=" + t.value;
    }
  }

  lemma LongIsSpelled(g: Grammar, rest: seq<string>, t: Token, n: nat)
    requires rest != [] && "--" <= rest[0]
    ensures NextToken(g, rest) == Some((t, n)) <==> n <= |rest| && Spells(rest[..n], t) && Knows(g, t)
  {
    var body := rest[0][2..];
    assert rest[0] == "--" + body;
    LongTokenOf(g, rest, body);
    CutIsAtFirst(body);
    LongSpells(rest, t, n, body);
    LongKnown(g, rest, body, CutAt(body, '='), t, n);
  }

  function LongToken(g: Grammar, rest: seq<string>, cut: Cut): Option<(Token, nat)> {
    if cut.before == "" then None
    else if IsBool(g, cut.before) then if cut.found then None else Some((Switch(cut.before), 1))
    else if !IsValue(g, cut.before) then None
    else if cut.found then Some((Valued(cut.before, cut.after), 1))
    else if |rest| < 2 then None else Some((Valued(cut.before, rest[1]), 2))
  }

  predicate LongSpelling(rest: seq<string>, body: string, t: Token, n: nat) {
    match t
    case Positional(_) => false
    case Switch(flag) => n == 1 && flag == body
    case Valued(flag, value) =>
      (n == 1 && body == flag + "=" + value) || (n == 2 && |rest| > 1 && rest[1] == value && body == flag)
  }

  lemma LongKnown(g: Grammar, rest: seq<string>, body: string, cut: Cut, t: Token, n: nat)
    requires IsCut(body, cut)
    ensures LongToken(g, rest, cut) == Some((t, n)) <==> LongSpelling(rest, body, t, n) && Knows(g, t)
  {
    if t.Valued? && '=' !in t.flag && body == t.flag + "=" + t.value {
      assert body[|t.flag|] == '=';
      CutOf(t.flag, t.value);
      CutOf(cut.before, cut.after);
    }
  }

  lemma LongSpells(rest: seq<string>, t: Token, n: nat, body: string)
    requires rest != [] && rest[0] == "--" + body
    ensures n <= |rest| && Spells(rest[..n], t) <==> LongSpelling(rest, body, t, n)
  {
    var arg := rest[0];
    NotShort(arg);
    assert 1 <= n <= |rest| ==> rest[..n][0] == arg;
    assert |rest| > 1 ==> rest[..2] == [arg, rest[1]];
    assert rest[..1] == [arg];
    match t
    case Positional(text) => assert "-" <= arg;
    case Switch(flag) => LongFlagOf(arg, body, flag);
    case Valued(flag, value) =>
      LongFlagOf(arg, body, flag);
      LongValueOf(arg, body, flag, value);
  }

  /** The token a long flag begins, by how it is cut. */
  lemma LongTokenOf(g: Grammar, rest: seq<string>, body: string)
    requires rest != [] && rest[0] == "--" + body
    ensures NextToken(g, rest) == LongToken(g, rest, CutAt(body, '='))
  {
    assert rest[0][2..] == body && TrimPrefix(rest[0], "--") == body && FlagOf(rest[0]) == CutAt(body, '=').before;
  }

  lemma NotShort(arg: string)
    requires "--" <= arg
    ensures forall flag :: !Abbreviates(arg, flag)
  {
    assert arg[1] == '-';
  }

  lemma LongFlagOf(arg: string, body: string, flag: string)
    requires arg == "--" + body
    ensures arg == "--" + flag <==> flag == body
  {
    assert arg[2..] == body && ("--" + flag)[2..] == flag;
  }

  lemma LongValueOf(arg: string, body: string, flag: string, value: string)
    requires arg == "--" + body
    ensures arg == "--" + flag + "=" + value <==> body == flag + "=" + value
  {
    assert "--" + flag + "=" + value == "--" + (flag + "=" + value);
    LongFlagOf(arg, body, flag + "=" + value);
  }

  lemma ShortIsSpelled(g: Grammar, rest: seq<string>, t: Token, n: nat)
    requires rest != [] && "-" <= rest[0] && !("--" <= rest[0])
    ensures NextToken(g, rest) == Some((t, n)) <==> n <= |rest| && Spells(rest[..n], t) && Knows(g, t)
  {
    var arg := rest[0];
    assert 1 <= n <= |rest| ==> rest[..n][0] == arg;
    assert |rest| > 1 ==> rest[..2] == [arg, rest[1]];
    assert rest[..1] == [arg];
    ShortFlagOf(arg);
    assert !t.Positional? ==> "--" <= "--" + t.flag;
    assert t.Valued? ==> "--" <= "--" + t.flag + "=" + t.value;
  }

  lemma ShortFlagOf(arg: string)
    requires "-" <= arg && !("--" <= arg)
    ensures forall flag :: Abbreviates(arg, flag) <==> flag != "" && FlagOf(arg) == flag
    ensures FlagOf(arg) != "" ==> !CutAt(TrimPrefix(arg, "--"), '=').found && '=' !in FlagOf(arg)
  {
    var letter := arg[1..];
    assert arg == "-" + letter;
    ShortFlagsArePlain(letter);
    ShortFlagsAre(letter);
    if FlagOf(arg) != "" {
      assert |letter| == 1 && letter[0] != '=';
      CutOfPlain(arg, '=');
    }
  }

  lemma ShortFlagsAre(letter: string)
    ensures forall flag :: Abbreviates("-" + letter, flag) <==> flag != "" && ShortFlag(letter) == flag
    ensures ShortFlag(letter) != "" ==> |letter| == 1 && letter[0] != '='
  {
    assert ("-" + letter)[1..] == letter;
  }

  /** The arguments are the spellings of known tokens, one behind the other. */
  predicate IsReading(g: Grammar, args: seq<string>, tokens: seq<Token>)
    decreases |tokens|
  {
    if tokens == [] then args == []
    else
      && Knows(g, tokens[0])
      && exists n | 1 <= n <= |args| :: Spells(args[..n], tokens[0]) && IsReading(g, args[n..], tokens[1..])
  }

  /** Reading the arguments undoes spelling: there is one series of tokens at most that they spell, and it is read. */
  lemma {:induction false} TokensAreSpelled(g: Grammar, args: seq<string>, tokens: seq<Token>)
    ensures Tokens(g, args) == Some(tokens) <==> IsReading(g, args, tokens)
    decreases |args|
  {
    if args != [] {
      var first := NextToken(g, args);
      if first.Some? {
        var n := first.value.1;
        NextTokenIsSpelled(g, args, first.value.0, n);
        if tokens != [] {
          TokensAreSpelled(g, args[n..], tokens[1..]);
          assert [tokens[0]] + tokens[1..] == tokens;
          var more := Tokens(g, args[n..]);
          assert more.Some? ==> ([first.value.0] + more.value)[0] == first.value.0
                                && ([first.value.0] + more.value)[1..] == more.value;
        }
      }
      if tokens != [] {
        forall n | 1 <= n <= |args|
          ensures Spells(args[..n], tokens[0]) && Knows(g, tokens[0]) <==> first == Some((tokens[0], n))
        {
          NextTokenIsSpelled(g, args, tokens[0], n);
        }
      }
    }
  }

  // ---------- which tokens are taken ----------

  /** What an entry asks of one token. */
  predicate IsGood(g: Grammar, t: Token) {
    match t
    case Positional(text) =>
      && g.spec.positional && text != ""
      && if "workflow " <= g.name
         then IsAlphanumeric(text[0]) && forall c | c in text :: IsAlphanumeric(c) || c == '_' || c == '.' || c == '-'
         else text[0] != '0' && forall c | c in text :: '0' <= c <= '9'
    case Switch(_) => true
    case Valued(flag, value) =>
      && (flag == "repo" ==> g.fold(value) == g.fold(g.repository) || g.fold(value) == g.fold(g.bound))
      && (flag == "body-file" ==> value == "-")
      && (flag == "limit" ==> IsCount(value))
  }

  /** A number from 1 to 1000, with or without a plus sign. */
  predicate IsCount(text: string) {
    var digits := if "+" <= text then text[1..] else text;
    digits != "" && (forall c | c in digits :: IsDigit(c)) && 1 <= Decimal(digits) <= 1000
  }

  /** Two tokens may stand beside each other: one positional argument, and no flag twice but `raw-field`. */
  predicate Agree(a: Token, b: Token) {
    && !(a.Positional? && b.Positional?)
    && (!a.Positional? && !b.Positional? && a.flag == b.flag ==> a.flag == "raw-field")
  }

  predicate AllTaken(g: Grammar, tokens: seq<Token>) {
    && (forall i | 0 <= i < |tokens| :: IsGood(g, tokens[i]))
    && forall i, j | 0 <= i < j < |tokens| :: Agree(tokens[i], tokens[j])
  }

  lemma TakenOneMore(g: Grammar, tokens: seq<Token>, t: Token)
    ensures AllTaken(g, tokens + [t]) <==>
              AllTaken(g, tokens) && IsGood(g, t) && forall i | 0 <= i < |tokens| :: Agree(tokens[i], t)
  {
    var all := tokens + [t];
    assert all[|tokens|] == t && forall i | 0 <= i < |tokens| :: all[i] == tokens[i];
    if AllTaken(g, all) {
      forall i | 0 <= i < |tokens|
        ensures IsGood(g, tokens[i]) && Agree(tokens[i], t)
      {
        assert IsGood(g, all[i]) && Agree(all[i], all[|tokens|]);
      }
      forall i, j | 0 <= i < j < |tokens|
        ensures Agree(tokens[i], tokens[j])
      {
        assert Agree(all[i], all[j]);
      }
    }
  }

  predicate HasPositional(tokens: seq<Token>) {
    exists t | t in tokens :: t.Positional?
  }

  predicate HasFlag(tokens: seq<Token>, flag: string) {
    exists t | t in tokens :: !t.Positional? && t.flag == flag
  }

  /** The value the tokens give a flag; a flag without a value counts as true. */
  function ValueIn(tokens: seq<Token>, flag: string): string {
    if tokens == [] then ""
    else
      var last := tokens[|tokens| - 1];
      if last.Switch? && last.flag == flag then "true"
      else if last.Valued? && last.flag == flag then last.value
      else ValueIn(tokens[..|tokens| - 1], flag)
  }

  /** What a parse holds is what the tokens say. */
  predicate Holds(st: Parse, tokens: seq<Token>, flag: string) {
    && st.positional == (if HasPositional(tokens) then 1 else 0)
    && (flag in st.values <==> HasFlag(tokens, flag))
    && Get(st.values, flag) == ValueIn(tokens, flag)
  }

  lemma {:induction false} RunTakes(g: Grammar, tokens: seq<Token>, output: seq<string>)
    ensures Run(g, tokens, Parse(map[], output, 0)).Some? <==> AllTaken(g, tokens)
    ensures AllTaken(g, tokens) ==> forall flag :: Holds(Run(g, tokens, Parse(map[], output, 0)).value, tokens, flag)
    decreases |tokens|
  {
    var start := Parse(map[], output, 0);
    if tokens != [] {
      var before, t := tokens[..|tokens| - 1], tokens[|tokens| - 1];
      assert tokens == before + [t];
      RunTakes(g, before, output);
      RunConcat(g, before, [t], start);
      TakenOneMore(g, before, t);
      if AllTaken(g, before) {
        var st := Run(g, before, start).value;
        RunOne(g, t, st);
        AcceptTakes(g, before, t, st);
      }
    }
  }

  lemma RunOne(g: Grammar, t: Token, st: Parse)
    ensures Run(g, [t], st) == Accept(g, t, st)
  {
    assert [t][1..] == [];
  }

  lemma AcceptTakes(g: Grammar, tokens: seq<Token>, t: Token, st: Parse)
    requires forall flag :: Holds(st, tokens, flag)
    ensures Accept(g, t, st).Some? <==> IsGood(g, t) && forall i | 0 <= i < |tokens| :: Agree(tokens[i], t)
    ensures Accept(g, t, st).Some? ==> forall flag :: Holds(Accept(g, t, st).value, tokens + [t], flag)
  {
    assert Holds(st, tokens, "");
    GoodIsAccepted(g, t);
    AgreeMeans(tokens, t);
    if !t.Positional? {
      assert Holds(st, tokens, t.flag);
    }
    if Accept(g, t, st).Some? {
      forall flag
        ensures Holds(Accept(g, t, st).value, tokens + [t], flag)
      {
        assert Holds(st, tokens, flag);
        HoldsOneMore(g, tokens, t, st, flag);
      }
    }
  }

  lemma GoodIsAccepted(g: Grammar, t: Token)
    ensures match t
            case Positional(text) =>
              IsGood(g, t) <==> g.spec.positional && if "workflow " <= g.name then IsWorkflowName(text) else IsNumber(text)
            case Switch(_) => IsGood(g, t)
            case Valued(flag, value) => IsGood(g, t) <==> GoodValue(g, flag, value)
  {
    if t.Positional? && t.text != "" {
      assert t.text[0] in t.text;
    }
  }

  lemma AgreeMeans(tokens: seq<Token>, t: Token)
    ensures (forall i | 0 <= i < |tokens| :: Agree(tokens[i], t)) <==>
              if t.Positional? then !HasPositional(tokens) else HasFlag(tokens, t.flag) ==> t.flag == "raw-field"
  {
    if t.Positional? {
      if HasPositional(tokens) {
        var i :| 0 <= i < |tokens| && tokens[i].Positional?;
        assert !Agree(tokens[i], t);
      }
    } else if HasFlag(tokens, t.flag) && t.flag != "raw-field" {
      var i :| 0 <= i < |tokens| && !tokens[i].Positional? && tokens[i].flag == t.flag;
      assert !Agree(tokens[i], t);
    }
  }

  lemma HoldsOneMore(g: Grammar, tokens: seq<Token>, t: Token, st: Parse, flag: string)
    requires Holds(st, tokens, flag) && Accept(g, t, st).Some?
    ensures Holds(Accept(g, t, st).value, tokens + [t], flag)
  {
    HasOneMore(tokens, t, flag);
    ValueOneMore(tokens, t, flag);
    AcceptedState(g, t, st, flag);
  }

  lemma HasOneMore(tokens: seq<Token>, t: Token, flag: string)
    ensures HasPositional(tokens + [t]) <==> HasPositional(tokens) || t.Positional?
    ensures HasFlag(tokens + [t], flag) <==> HasFlag(tokens, flag) || (!t.Positional? && t.flag == flag)
  {
    assert t in tokens + [t] && forall u | u in tokens :: u in tokens + [t];
  }

  lemma ValueOneMore(tokens: seq<Token>, t: Token, flag: string)
    ensures ValueIn(tokens + [t], flag) ==
            if !t.Positional? && t.flag == flag then (if t.Switch? then "true" else t.value) else ValueIn(tokens, flag)
  {
    var all := tokens + [t];
    assert all[|all| - 1] == t && all[..|all| - 1] == tokens;
  }

  lemma AcceptedState(g: Grammar, t: Token, st: Parse, flag: string)
    requires Accept(g, t, st).Some?
    ensures var next := Accept(g, t, st).value;
            && next.positional == (if t.Positional? then 1 else st.positional)
            && (flag in next.values <==> flag in st.values || (!t.Positional? && t.flag == flag))
            && Get(next.values, flag) ==
               if !t.Positional? && t.flag == flag then (if t.Switch? then "true" else t.value) else Get(st.values, flag)
  {
  }

  // ---------- what has to be there ----------

  predicate HasText(tokens: seq<Token>) {
    ValueIn(tokens, "body") != "" || ValueIn(tokens, "body-file") == "-"
  }

  /** What each kind of command needs beyond good tokens. */
  predicate NeedsMet(g: Grammar, policy: Policy, tokens: seq<Token>) {
    && (g.spec.positional ==> HasPositional(tokens))
    && (g.spec.permission == "close" && ValueIn(tokens, "comment") != "" ==> Allows(policy, "comment"))
    && (EndsWith(g.name, " create") ==> ValueIn(tokens, "title") != "" && HasText(tokens))
    && (g.name == "pr create" ==> ValueIn(tokens, "head") != "" && ValueIn(tokens, "base") != "")
    && (EndsWith(g.name, " comment") ==> HasText(tokens))
    && (g.name == "pr review" ==>
          var a, r, c := ValueIn(tokens, "approve") != "", ValueIn(tokens, "request-changes") != "",
                         ValueIn(tokens, "comment") != "";
          (a && !r && !c) || (!a && r && !c) || (!a && !r && c))
  }

  /**
   * Arguments are rewritten exactly if they spell known tokens that are good, agree with each other and are all that is
   * needed; the result spells the same tokens, with the bound repository in place of any that was named.
   */
  lemma RewrittenExactly(g: Grammar, policy: Policy, arguments: seq<string>, out: seq<string>)
    requires |arguments| >= 2
    ensures Rewritten(g, policy, arguments) == Some(out) <==>
              exists tokens ::
                && IsReading(g, arguments[2..], tokens) && AllTaken(g, tokens) && NeedsMet(g, policy, tokens)
                && out == arguments[..2] + Rendered(tokens) + ["--repo", g.bound]
  {
    var read := Tokens(g, arguments[2..]);
    forall tokens
      ensures IsReading(g, arguments[2..], tokens) <==> read == Some(tokens)
    {
      TokensAreSpelled(g, arguments[2..], tokens);
    }
    if read.Some? {
      var tokens := read.value;
      assert IsReading(g, arguments[2..], tokens);
      RunTakes(g, tokens, arguments[..2]);
      if AllTaken(g, tokens) {
        RunRenders(g, tokens, Start(arguments));
        CompleteMeans(g, policy, tokens, Run(g, tokens, Start(arguments)).value);
      }
    }
  }

  lemma CompleteMeans(g: Grammar, policy: Policy, tokens: seq<Token>, st: Parse)
    requires forall flag :: Holds(st, tokens, flag)
    ensures Complete(g, policy, st) <==> NeedsMet(g, policy, tokens)
  {
    assert Holds(st, tokens, "title") && Holds(st, tokens, "body") && Holds(st, tokens, "body-file");
    assert Holds(st, tokens, "head") && Holds(st, tokens, "base") && Holds(st, tokens, "comment");
    assert Holds(st, tokens, "approve") && Holds(st, tokens, "request-changes");
    EssentialsMean(g, policy, tokens, EssentialsOf(st.values));
  }

  lemma EssentialsMean(g: Grammar, policy: Policy, tokens: seq<Token>, e: Essentials)
    requires e.title == ValueIn(tokens, "title") && e.body == ValueIn(tokens, "body")
    requires e.bodyFile == ValueIn(tokens, "body-file") && e.head == ValueIn(tokens, "head")
    requires e.base == ValueIn(tokens, "base") && e.comment == ValueIn(tokens, "comment")
    requires e.approve == ValueIn(tokens, "approve") && e.requestChanges == ValueIn(tokens, "request-changes")
    ensures (g.spec.positional ==> HasPositional(tokens)) && HasEssentials(g, policy, e) <==> NeedsMet(g, policy, tokens)
  {
    CreatesPullRequest(g.name);
  }

  lemma CreatesPullRequest(name: string)
    ensures name == "pr create" ==> EndsWith(name, " create")
  {
  }

  // ---------- the decision ----------

  /** Neither a REST request nor one for a credential. */
  predicate IsCommand(arguments: seq<string>) {
    |arguments| >= 2 && arguments[0] != "api" && !(arguments[0] == "auth" && arguments[1] == "git-credential")
  }

  /** The limits on what is looked at at all: a megabyte each, 256 arguments, and no zero byte. */
  predicate IsSmall(invocation: Invocation) {
    && |invocation.input| <= 1048576 && |invocation.arguments| <= 256
    && forall i | 0 <= i < |invocation.arguments| ::
         |invocation.arguments[i]| <= 1048576 && '\U{0}' !in invocation.arguments[i]
  }

  lemma SmallIsWithinLimits(invocation: Invocation)
    requires |invocation.arguments| >= 2
    ensures IsSmall(invocation) <==> WithinLimits(invocation)
  {
    var arguments := invocation.arguments;
    if IsSmall(invocation) {
      forall a | a in arguments
        ensures |a| <= MEGABYTE && NUL !in a
      {
        var i :| 0 <= i < |arguments| && arguments[i] == a;
      }
    }
    if WithinLimits(invocation) {
      assert forall i | 0 <= i < |arguments| :: arguments[i] in arguments;
    }
  }

  ghost predicate IsAcceptedAs(g: Grammar, policy: Policy, arguments: seq<string>, c: Command)
    requires |arguments| >= 2
  {
    exists tokens ::
      && IsReading(g, arguments[2..], tokens) && AllTaken(g, tokens) && NeedsMet(g, policy, tokens)
      && c == Command(arguments[..2] + Rendered(tokens) + ["--repo", g.bound], g.spec.permission, false, false)
  }

  /**
   * A command is accepted exactly if it is small, its entry exists and the policy allows it, and its arguments spell
   * tokens that the entry takes; or if it asks to create a pull request interactively.
   */
  lemma CatalogAccepts(t: Tables, project: Project, persona: Persona, invocation: Invocation, c: Command)
    requires IsCommand(invocation.arguments)
    ensures var arguments := invocation.arguments;
            var name := arguments[0] + " " + arguments[1];
            Authorized(t, project, persona, invocation) == Some(c) <==>
              && IsSmall(invocation)
              && name in t.catalog && Allows(project.policy, t.catalog[name].permission)
              && var g := Grammar(name, t.catalog[name], project.repository, persona.host + "/" + project.repository, t.fold);
              if arguments == ["pr", "create"]
              then c == Command(["pr", "create", "--repo", g.bound], g.spec.permission, false, true)
              else IsAcceptedAs(g, project.policy, arguments, c)
  {
    var arguments := invocation.arguments;
    var name := arguments[0] + " " + arguments[1];
    SmallIsWithinLimits(invocation);
    DecidedByCatalog(t, project, persona, invocation);
    CatalogDecides(t, project, persona, arguments);
    if name in t.catalog {
      CommandExactly(GrammarFor(t, name, project, persona), project.policy, arguments, c);
    }
  }

  lemma DecidedByCatalog(t: Tables, project: Project, persona: Persona, invocation: Invocation)
    requires IsCommand(invocation.arguments)
    ensures Authorized(t, project, persona, invocation) ==
            if WithinLimits(invocation) then CatalogCommand(t, project, persona, invocation.arguments) else None
  {
  }

  lemma CatalogDecides(t: Tables, project: Project, persona: Persona, arguments: seq<string>)
    requires |arguments| >= 2
    ensures var name := arguments[0] + " " + arguments[1];
            CatalogCommand(t, project, persona, arguments) ==
            if name !in t.catalog || !Allows(project.policy, t.catalog[name].permission) then None
            else
              var g := GrammarFor(t, name, project, persona);
              if arguments == ["pr", "create"]
              then Some(Command(["pr", "create", "--repo", g.bound], g.spec.permission, false, true))
              else
                var out := Rewritten(g, project.policy, arguments);
                if out.None? then None else Some(Command(out.value, g.spec.permission, false, false))
  {
    OneSpace(arguments[0], arguments[1]);
    assert arguments == ["pr", "create"] ==> arguments[0] + " " + arguments[1] == "pr create";
    assert |arguments| == 2 ==> arguments == [arguments[0], arguments[1]];
  }

  lemma CommandExactly(g: Grammar, policy: Policy, arguments: seq<string>, c: Command)
    requires |arguments| >= 2
    ensures var out := Rewritten(g, policy, arguments);
            out.Some? && c == Command(out.value, g.spec.permission, false, false) <==>
              IsAcceptedAs(g, policy, arguments, c)
  {
    RewrittenExactly(g, policy, arguments, c.arguments);
    if IsAcceptedAs(g, policy, arguments, c) {
      var tokens :|
        && IsReading(g, arguments[2..], tokens) && AllTaken(g, tokens) && NeedsMet(g, policy, tokens)
        && c == Command(arguments[..2] + Rendered(tokens) + ["--repo", g.bound], g.spec.permission, false, false);
    }
  }

  lemma OneSpace(a: string, b: string)
    ensures a + " " + b == "pr create" ==> a == "pr" && b == "create"
  {
    var name := a + " " + b;
    if name == "pr create" {
      assert name[|a|] == ' ' && forall i | 0 <= i < 9 && i != 2 :: "pr create"[i] != ' ';
      assert |a| == 2 && a == name[..2] && b == name[3..];
    }
  }

  // ---------- short flags ----------

  /** Reading goes on behind arguments that are read as a whole. */
  lemma {:induction false} TokensBehind(g: Grammar, before: seq<string>, rest: seq<string>)
    requires Tokens(g, before).Some?
    ensures Tokens(g, before + rest) ==
            if Tokens(g, rest).None? then None else Some(Tokens(g, before).value + Tokens(g, rest).value)
    decreases |before|
  {
    if before == [] {
      assert before + rest == rest;
      assert Tokens(g, rest).Some? ==> [] + Tokens(g, rest).value == Tokens(g, rest).value;
    } else {
      var first := NextToken(g, before).value;
      assert (before + rest)[first.1..] == before[first.1..] + rest && (before + rest)[0] == before[0];
      assert |before| > 1 ==> (before + rest)[1] == before[1];
      TokensBehind(g, before[first.1..], rest);
      if Tokens(g, rest).Some? {
        Regroup([first.0], Tokens(g, before[first.1..]).value, Tokens(g, rest).value);
      }
    }
  }

  lemma AbbreviationShape(short: string, flag: string)
    requires Abbreviates(short, flag)
    ensures |short| == 2 && "-" <= short && !("--" <= short) && '\U{0}' !in short
    ensures 0 < |flag| <= 9 && '=' !in flag && '\U{0}' !in flag
  {
    assert |short| == 2 && short[0] == '-' && short[1] > '-';
  }

  lemma ShortReadsAsLong(g: Grammar, short: string, flag: string, rest: seq<string>)
    requires Abbreviates(short, flag)
    ensures Tokens(g, [short] + rest) == Tokens(g, ["--" + flag] + rest)
  {
    AbbreviationShape(short, flag);
    ShortFlagOf(short);
    LongFlag(flag);
    assert forall n: nat | 1 <= n <= |rest| + 1 :: ([short] + rest)[n..] == (["--" + flag] + rest)[n..];
  }

  /** The entry's reading of everything before an argument ends there, so that it begins a token. */
  predicate BeginsToken(t: Tables, project: Project, persona: Persona, before: seq<string>) {
    && IsCommand(before)
    && var name := before[0] + " " + before[1];
    name in t.catalog ==> Tokens(GrammarFor(t, name, project, persona), before[2..]).Some?
  }

  /**
   * A short flag stands for its long form: wherever an argument begins a token, writing one for the other changes
   * neither whether the command is accepted nor what is run.
   */
  lemma ShortStandsForLong(
    t: Tables, project: Project, persona: Persona, before: seq<string>, short: string, flag: string, rest: seq<string>,
    input: string)
    requires BeginsToken(t, project, persona, before) && Abbreviates(short, flag)
    ensures Authorized(t, project, persona, Invocation(before + [short] + rest, input))
         == Authorized(t, project, persona, Invocation(before + ["--" + flag] + rest, input))
  {
    AbbreviationShape(short, flag);
    AsSmall(before, rest, short, "--" + flag, input);
    DecidedByCatalog(t, project, persona, Invocation(before + [short] + rest, input));
    DecidedByCatalog(t, project, persona, Invocation(before + ["--" + flag] + rest, input));
    CatalogDecides(t, project, persona, before + [short] + rest);
    CatalogDecides(t, project, persona, before + ["--" + flag] + rest);
    var name := before[0] + " " + before[1];
    if name in t.catalog {
      var g := GrammarFor(t, name, project, persona);
      ShortReadsAsLong(g, short, flag, rest);
      RewrittenBehind(g, project.policy, before, short, rest);
      RewrittenBehind(g, project.policy, before, "--" + flag, rest);
    }
  }

  /** What is made of arguments depends only on what they read as. */
  lemma RewrittenBehind(g: Grammar, policy: Policy, before: seq<string>, arg: string, rest: seq<string>)
    requires |before| >= 2 && Tokens(g, before[2..]).Some?
    ensures var tokens := Tokens(g, [arg] + rest);
            Rewritten(g, policy, before + [arg] + rest) ==
            if tokens.None? then None else
              var st := Run(g, Tokens(g, before[2..]).value + tokens.value, Start(before));
              if st.Some? && Complete(g, policy, st.value) then Some(st.value.output + ["--repo", g.bound]) else None
  {
    var arguments := before + [arg] + rest;
    assert arguments[2..] == before[2..] + ([arg] + rest) && arguments[..2] == before[..2];
    TokensBehind(g, before[2..], [arg] + rest);
  }

  lemma AsSmall(before: seq<string>, rest: seq<string>, x: string, y: string, input: string)
    requires |x| <= 100 && |y| <= 100 && '\U{0}' !in x && '\U{0}' !in y && |before| >= 2
    ensures WithinLimits(Invocation(before + [x] + rest, input)) <==> WithinLimits(Invocation(before + [y] + rest, input))
  {
    assert forall c | c in before + [x] + rest :: c in before + [y] + rest || c == x;
    assert forall c | c in before + [y] + rest :: c in before + [x] + rest || c == y;
    assert forall c | c in before || c in rest :: c in before + [x] + rest && c in before + [y] + rest;
  }

  /** Any other argument with one dash in front is refused where a token begins. */
  lemma OtherDashesAreRefused(
    t: Tables, project: Project, persona: Persona, before: seq<string>, arg: string, rest: seq<string>, input: string)
    requires BeginsToken(t, project, persona, before)
    requires "-" <= arg && !("--" <= arg) && forall flag :: !Abbreviates(arg, flag)
    ensures Authorized(t, project, persona, Invocation(before + [arg] + rest, input)).None?
  {
    var name := before[0] + " " + before[1];
    DecidedByCatalog(t, project, persona, Invocation(before + [arg] + rest, input));
    CatalogDecides(t, project, persona, before + [arg] + rest);
    if name in t.catalog {
      var g := GrammarFor(t, name, project, persona);
      NoFlagNoToken(g, arg, rest);
      RewrittenBehind(g, project.policy, before, arg, rest);
    }
  }

  lemma NoFlagNoToken(g: Grammar, arg: string, rest: seq<string>)
    requires "-" <= arg && !("--" <= arg) && forall flag :: !Abbreviates(arg, flag)
    ensures Tokens(g, [arg] + rest).None?
  {
    ShortFlagOf(arg);
    assert !Abbreviates(arg, FlagOf(arg));
  }
}
