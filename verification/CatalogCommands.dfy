/** One entry of the command catalogue: how its arguments are read, checked and written out again. */
module CatalogCommands {
  import opened Wrappers
  import opened Pieces
  import opened IdentityModels

  datatype Invocation = Invocation(arguments: seq<string>, input: string)

  /** An accepted invocation; a credential request or an interactive command is not run in the background. */
  datatype Command = Command(arguments: seq<string>, permission: string, credential: bool, interactive: bool)

  /** What an entry of the catalogue allows: flags with a value, flags without, and one positional argument. */
  datatype CommandSpec = CommandSpec(permission: string, values: seq<string>, booleans: seq<string>, positional: bool)

  /** An entry as it applies to one project: `bound` is the only repository it may name, with its host. */
  datatype Grammar = Grammar(name: string, spec: CommandSpec, repository: string, bound: string, fold: string -> string)

  // ---------- texts ----------

  function TrimPrefix(text: string, part: string): string {
    if part <= text then text[|part|..] else text
  }

  predicate EndsWith(text: string, part: string) {
    |part| <= |text| && text[|text| - |part|..] == part
  }

  /** Where a character first occurs, or the end. */
  function Find(text: string, c: char): (i: nat)
    ensures i <= |text|
    ensures c !in text[..i]
    ensures i < |text| ==> text[i] == c
  {
    if text == "" || text[0] == c then 0
    else
      var i := 1 + Find(text[1..], c);
      assert text[..i] == [text[0]] + text[1..][..i - 1];
      i
  }

  datatype Cut = Cut(before: string, after: string, found: bool)

  function CutAt(text: string, c: char): Cut {
    var i := Find(text, c);
    Cut(text[..i], if i < |text| then text[i + 1..] else "", i < |text|)
  }

  lemma {:induction false} FindBehind(part: string, c: char, rest: string)
    requires c !in part
    ensures Find(part + [c] + rest, c) == |part|
    decreases |part|
  {
    var text := part + [c] + rest;
    if part == "" {
      assert text[0] == c;
    } else {
      assert text[0] == part[0] != c && text[1..] == part[1..] + [c] + rest;
      FindBehind(part[1..], c, rest);
    }
  }

  lemma {:induction false} NotFound(text: string, c: char)
    requires c !in text
    ensures Find(text, c) == |text|
    decreases |text|
  {
    if text != "" {
      assert text[0] in text;
      NotFound(text[1..], c);
    }
  }

  predicate IsCut(text: string, cut: Cut) {
    && '=' !in cut.before
    && (cut.found <==> '=' in text)
    && (if cut.found then text == cut.before + "=" + cut.after else cut == Cut(text, "", false))
  }

  lemma CutIsAtFirst(text: string)
    ensures IsCut(text, CutAt(text, '='))
  {
    var i := Find(text, '=');
    assert text == text[..i] + text[i..];
    assert i < |text| ==> text == text[..i] + "=" + text[i + 1..];
  }

  /** A text is cut at its first equals sign. */
  lemma CutOf(before: string, after: string)
    requires '=' !in before
    ensures CutAt(before + "=" + after, '=') == Cut(before, after, true)
  {
    var text := before + "=" + after;
    FindBehind(before, '=', after);
    assert text[..|before|] == before && text[|before| + 1..] == after;
  }

  predicate IsDigit(c: char) {
    '0' <= c <= '9'
  }

  /** A positive decimal number without leading zeros. */
  predicate IsNumber(text: string) {
    text != "" && '1' <= text[0] <= '9' && forall c | c in text :: IsDigit(c)
  }

  predicate IsWorkflowName(text: string) {
    text != "" && IsAlphanumeric(text[0]) && forall c | c in text :: IsNameChar(c)
  }

  function Decimal(digits: string): nat
    requires forall c | c in digits :: IsDigit(c)
  {
    if digits == "" then 0
    else
      var last := digits[|digits| - 1];
      assert IsDigit(last);
      Decimal(digits[..|digits| - 1]) * 10 + (last as int - '0' as int)
  }

  function Digits(n: nat): string {
    if n < 10 then [('0' as int + n) as char] else Digits(n / 10) + [('0' as int + n % 10) as char]
  }

  /** A number's digits read back as the number, so no two numbers have the same. */
  lemma {:induction false} DigitsReadBack(n: nat)
    ensures Digits(n) != "" && forall c | c in Digits(n) :: IsDigit(c)
    ensures Decimal(Digits(n)) == n
  {
    var last := ('0' as int + n % 10) as char;
    if n < 10 {
      assert [last][..0] == "";
    } else {
      DigitsReadBack(n / 10);
      assert (Digits(n / 10) + [last])[..|Digits(n / 10)|] == Digits(n / 10);
    }
  }

  /** A whole number from 1 to 1000, with an optional plus sign. */
  predicate IsLimit(text: string) {
    var digits := TrimPrefix(text, "+");
    digits != "" && (forall c | c in digits :: IsDigit(c)) && 1 <= Decimal(digits) <= 1000
  }

  // ---------- reading arguments ----------

  datatype Token = Positional(text: string) | Switch(flag: string) | Valued(flag: string, value: string)

  function ShortFlag(letter: string): string {
    if letter == "R" then "repo"
    else if letter == "b" then "body"
    else if letter == "F" then "body-file"
    else if letter == "f" then "raw-field"
    else if letter == "t" then "title"
    else if letter == "H" then "head"
    else if letter == "B" then "base"
    else if letter == "L" then "limit"
    else if letter == "q" then "jq"
    else if letter == "s" then "state"
    else if letter == "a" then "assignee"
    else if letter == "l" then "label"
    else ""
  }

  predicate IsValue(g: Grammar, flag: string) {
    flag in g.spec.values || flag == "repo" || (g.spec.permission == "read" && flag in ["json", "jq", "template"])
  }

  predicate IsBool(g: Grammar, flag: string) {
    flag in g.spec.booleans && flag != ""
  }

  /** The flag an argument that begins with a dash names. */
  function FlagOf(arg: string): string
    requires "-" <= arg
  {
    if "--" <= arg then CutAt(arg[2..], '=').before else ShortFlag(arg[1..])
  }

  /** The first token of the arguments, and how many arguments it takes up. */
  function NextToken(g: Grammar, rest: seq<string>): Option<(Token, nat)>
    requires rest != []
  {
    var arg := rest[0];
    if !("-" <= arg) then Some((Positional(arg), 1))
    else
      var flag := FlagOf(arg);
      var cut := CutAt(TrimPrefix(arg, "--"), '=');
      if flag == "" then None
      else if IsBool(g, flag) then if cut.found then None else Some((Switch(flag), 1))
      else if !IsValue(g, flag) then None
      else if cut.found then Some((Valued(flag, cut.after), 1))
      else if |rest| == 1 then None
      else Some((Valued(flag, rest[1]), 2))
  }

  function Tokens(g: Grammar, rest: seq<string>): Option<seq<Token>>
    decreases |rest|
  {
    if rest == [] then Some([])
    else
      var first := NextToken(g, rest);
      if first.None? then None
      else
        var more := Tokens(g, rest[first.value.1..]);
        if more.None? then None else Some([first.value.0] + more.value)
  }

  // ---------- checking tokens ----------

  datatype Parse = Parse(values: map<string, string>, output: seq<string>, positional: nat)

  predicate SameRepository(g: Grammar, value: string) {
    g.fold(value) == g.fold(g.repository) || g.fold(value) == g.fold(g.bound)
  }

  predicate GoodValue(g: Grammar, flag: string, value: string) {
    && (flag == "repo" ==> SameRepository(g, value))
    && (flag == "body-file" ==> value == "-")
    && (flag == "limit" ==> IsLimit(value))
  }

  predicate Fresh(st: Parse, flag: string) {
    flag in st.values ==> flag == "raw-field"
  }

  /** How a token is written out; the repository is left out and added at the end. */
  function Render(t: Token): seq<string> {
    match t
    case Positional(text) => [text]
    case Switch(flag) => ["--" + flag]
    case Valued(flag, value) => if flag == "repo" then [] else ["--" + flag, value]
  }

  function Accept(g: Grammar, t: Token, st: Parse): Option<Parse> {
    match t
    case Positional(text) =>
      if !g.spec.positional || st.positional > 0 then None
      else if !(if "workflow " <= g.name then IsWorkflowName(text) else IsNumber(text)) then None
      else Some(st.(output := st.output + Render(t), positional := st.positional + 1))
    case Switch(flag) =>
      if !Fresh(st, flag) then None
      else Some(st.(values := st.values[flag := "true"], output := st.output + Render(t)))
    case Valued(flag, value) =>
      if !Fresh(st, flag) || !GoodValue(g, flag, value) then None
      else Some(st.(values := st.values[flag := value], output := st.output + Render(t)))
  }

  function Run(g: Grammar, tokens: seq<Token>, st: Parse): Option<Parse>
    decreases |tokens|
  {
    if tokens == [] then Some(st)
    else
      var next := Accept(g, tokens[0], st);
      if next.None? then None else Run(g, tokens[1..], next.value)
  }

  /** Reads and checks what is left of the arguments. */
  function Judge(g: Grammar, rest: seq<string>, st: Parse): Option<Parse> {
    var tokens := Tokens(g, rest);
    if tokens.None? then None else Run(g, tokens.value, st)
  }

  function Get(values: map<string, string>, flag: string): string {
    if flag in values then values[flag] else ""
  }

  /** The values of the flags that the last checks look at. */
  datatype Essentials = Essentials(
    title: string, body: string, bodyFile: string, head: string, base: string, comment: string, approve: string,
    requestChanges: string)
  {
    predicate HasBody() {
      body != "" || bodyFile == "-"
    }

    function Verdicts(): nat {
      (if approve != "" then 1 else 0) + (if requestChanges != "" then 1 else 0) + (if comment != "" then 1 else 0)
    }
  }

  function EssentialsOf(values: map<string, string>): Essentials {
    Essentials(
      Get(values, "title"), Get(values, "body"), Get(values, "body-file"), Get(values, "head"), Get(values, "base"),
      Get(values, "comment"), Get(values, "approve"), Get(values, "request-changes"))
  }

  /** What has to be there, or must not be, once everything was read. */
  predicate Complete(g: Grammar, policy: Policy, st: Parse) {
    (g.spec.positional ==> st.positional == 1) && HasEssentials(g, policy, EssentialsOf(st.values))
  }

  predicate HasEssentials(g: Grammar, policy: Policy, e: Essentials) {
    && (g.spec.permission == "close" && e.comment != "" ==> Allows(policy, "comment"))
    && (EndsWith(g.name, " create") ==>
          && e.title != "" && e.HasBody()
          && (g.name == "pr create" ==> e.head != "" && e.base != ""))
    && (EndsWith(g.name, " comment") ==> e.HasBody())
    && (g.name == "pr review" ==> e.Verdicts() == 1)
  }

  function Start(arguments: seq<string>): Parse
    requires |arguments| >= 2
  {
    Parse(map[], arguments[..2], 0)
  }

  /** The arguments a command is run with, if it is accepted. */
  function Rewritten(g: Grammar, policy: Policy, arguments: seq<string>): Option<seq<string>>
    requires |arguments| >= 2
  {
    var st := Judge(g, arguments[2..], Start(arguments));
    if st.Some? && Complete(g, policy, st.value) then Some(st.value.output + ["--repo", g.bound]) else None
  }

  // ---------- the loop ----------

  lemma JudgeStep(g: Grammar, arguments: seq<string>, i: nat, st: Parse)
    requires i < |arguments|
    ensures var first := NextToken(g, arguments[i..]);
            && (first.None? || Accept(g, first.value.0, st).None? ==> Judge(g, arguments[i..], st).None?)
            && (first.Some? && Accept(g, first.value.0, st).Some? ==>
                  Judge(g, arguments[i..], st) == Judge(g, arguments[i + first.value.1..], Accept(g, first.value.0, st).value))
  {
    var rest := arguments[i..];
    var first := NextToken(g, rest);
    if first.Some? {
      assert rest[first.value.1..] == arguments[i + first.value.1..];
      var more := Tokens(g, rest[first.value.1..]);
      if more.Some? {
        assert ([first.value.0] + more.value)[1..] == more.value;
      }
    }
  }

  /** Reads the arguments from left to right and stops at the first that is not permitted. */
  method ParseArguments(g: Grammar, arguments: seq<string>) returns (r: Option<Parse>)
    requires |arguments| >= 2
    ensures r == Judge(g, arguments[2..], Start(arguments))
  {
    var st, i, ok := Start(arguments), 2, true;
    ghost var goal := Judge(g, arguments[2..], st);
    while i < |arguments|
      invariant 2 <= i <= |arguments|
      invariant goal == Judge(g, arguments[i..], st)
    {
      ok, st, i := ParseArgument(g, arguments, i, st);
      if !ok {
        return None;
      }
    }
    return Some(st);
  }

  method ParseArgument(g: Grammar, arguments: seq<string>, i: nat, st: Parse) returns (ok: bool, next: Parse, end: nat)
    requires i < |arguments|
    ensures !ok ==> Judge(g, arguments[i..], st).None?
    ensures ok ==> i < end <= |arguments| && Judge(g, arguments[i..], st) == Judge(g, arguments[end..], next)
  {
    JudgeStep(g, arguments, i, st);
    var token, used := ReadToken(g, arguments, i);
    if token.None? {
      return false, st, i;
    }
    var checked := CheckToken(g, token.value, st);
    if checked.None? {
      return false, st, i;
    }
    return true, checked.value, i + used;
  }

  method ReadToken(g: Grammar, arguments: seq<string>, i: nat) returns (token: Option<Token>, used: nat)
    requires i < |arguments|
    ensures token.Some? <==> NextToken(g, arguments[i..]).Some?
    ensures token.Some? ==> NextToken(g, arguments[i..]) == Some((token.value, used)) && i + used <= |arguments|
  {
    var arg := arguments[i];
    if !("-" <= arg) {
      return Some(Positional(arg)), 1;
    }
    var cut := CutAt(TrimPrefix(arg, "--"), '=');
    var flag := cut.before;
    if !("--" <= arg) {
      flag := ShortFlag(arg[1..]);
    }
    if flag == "" {
      return None, 0;
    }
    var isBool := flag in g.spec.booleans && flag != "";
    if !IsValue(g, flag) && !isBool {
      return None, 0;
    }
    if isBool {
      if cut.found {
        return None, 0;
      }
      return Some(Switch(flag)), 1;
    }
    if cut.found {
      return Some(Valued(flag, cut.after)), 1;
    }
    if i + 1 == |arguments| {
      return None, 0;
    }
    return Some(Valued(flag, arguments[i + 1])), 2;
  }

  method CheckToken(g: Grammar, t: Token, st: Parse) returns (r: Option<Parse>)
    ensures r == Accept(g, t, st)
  {
    match t {
      case Positional(text) =>
        if !g.spec.positional || st.positional > 0 {
          return None;
        }
        if "workflow " <= g.name {
          if !IsWorkflowName(text) {
            return None;
          }
        } else if !IsNumber(text) {
          return None;
        }
        return Some(Parse(st.values, st.output + [text], st.positional + 1));
      case Switch(flag) =>
        if flag in st.values && flag != "raw-field" {
          return None;
        }
        return Some(Parse(st.values[flag := "true"], st.output + ["--" + flag], st.positional));
      case Valued(flag, value) =>
        if flag in st.values && flag != "raw-field" {
          return None;
        }
        var values := st.values[flag := value];
        if flag == "repo" {
          if !SameRepository(g, value) {
            return None;
          }
          return Some(Parse(values, st.output + [], st.positional));
        }
        if flag == "body-file" && value != "-" {
          return None;
        }
        if flag == "limit" && !IsLimit(value) {
          return None;
        }
        return Some(Parse(values, st.output + ["--" + flag, value], st.positional));
    }
  }

  // ---------- writing tokens out and reading them again ----------

  /** What a token that was read looks like. */
  predicate IsRead(g: Grammar, t: Token) {
    match t
    case Positional(text) => !("-" <= text)
    case Switch(flag) => flag != "" && '=' !in flag && IsBool(g, flag)
    case Valued(flag, _) => flag != "" && '=' !in flag && !IsBool(g, flag) && IsValue(g, flag)
  }

  predicate AllRead(g: Grammar, tokens: seq<Token>) {
    forall t | t in tokens :: IsRead(g, t)
  }

  lemma ShortFlagsArePlain(letter: string)
    ensures '=' !in ShortFlag(letter)
  {
  }

  lemma {:induction false} TokensAreRead(g: Grammar, rest: seq<string>)
    ensures Tokens(g, rest).Some? ==> AllRead(g, Tokens(g, rest).value)
    decreases |rest|
  {
    if Tokens(g, rest).Some? && rest != [] {
      var first := NextToken(g, rest).value;
      if "-" <= rest[0] {
        ShortFlagsArePlain(rest[0][1..]);
      }
      TokensAreRead(g, rest[first.1..]);
    }
  }

  function Rendered(tokens: seq<Token>): seq<string>
    decreases |tokens|
  {
    if tokens == [] then [] else Render(tokens[0]) + Rendered(tokens[1..])
  }

  function WithoutRepo(tokens: seq<Token>): seq<Token>
    decreases |tokens|
  {
    if tokens == [] then []
    else (if NamesRepo(tokens[0]) then [] else [tokens[0]]) + WithoutRepo(tokens[1..])
  }

  predicate NamesRepo(t: Token) {
    t.Valued? && t.flag == "repo"
  }

  lemma CutOfPlain(text: string, c: char)
    requires c !in text
    ensures CutAt(text, c) == Cut(text, "", false)
  {
    assert Find(text, c) == |text|;
    assert text[..|text|] == text;
  }

  /** A token that was read is read again from what it is written out as. */
  lemma RenderedIsRead(g: Grammar, t: Token, rest: seq<string>)
    requires IsRead(g, t) && !NamesRepo(t)
    ensures Render(t) + rest != []
    ensures NextToken(g, Render(t) + rest) == Some((t, |Render(t)|))
    ensures (Render(t) + rest)[|Render(t)|..] == rest
  {
    if t.Positional? {
      assert (Render(t) + rest)[0] == t.text;
    } else {
      LongFlag(t.flag);
      assert (Render(t) + rest)[0] == "--" + t.flag;
    }
  }

  lemma LongFlag(flag: string)
    requires '=' !in flag
    ensures "-" <= "--" + flag && "--" <= "--" + flag && FlagOf("--" + flag) == flag
    ensures CutAt(TrimPrefix("--" + flag, "--"), '=') == Cut(flag, "", false)
  {
    assert ("--" + flag)[2..] == flag;
    CutOfPlain(flag, '=');
  }

  /** One token that was read, written out in front of others. */
  lemma OneReadsBack(g: Grammar, t: Token, more: seq<string>)
    requires IsRead(g, t) && Tokens(g, more).Some?
    ensures Tokens(g, Render(t) + more) == Some((if NamesRepo(t) then [] else [t]) + Tokens(g, more).value)
  {
    if NamesRepo(t) {
      assert [] + more == more && [] + Tokens(g, more).value == Tokens(g, more).value;
    } else {
      RenderedIsRead(g, t, more);
    }
  }

  lemma {:induction false} ReadsBack(g: Grammar, tokens: seq<Token>, rest: seq<string>)
    requires AllRead(g, tokens) && Tokens(g, rest).Some?
    ensures Tokens(g, Rendered(tokens) + rest) == Some(WithoutRepo(tokens) + Tokens(g, rest).value)
    decreases |tokens|
  {
    var read := Tokens(g, rest).value;
    if tokens == [] {
      assert [] + rest == rest && [] + read == read;
    } else {
      ReadsBack(g, tokens[1..], rest);
      OneReadsBack(g, tokens[0], Rendered(tokens[1..]) + rest);
      Regroup(Render(tokens[0]), Rendered(tokens[1..]), rest);
      Regroup(if NamesRepo(tokens[0]) then [] else [tokens[0]], WithoutRepo(tokens[1..]), read);
    }
  }

  // ---------- checking again without the repository ----------

  /** The same parse, except that the second has not seen a repository. */
  predicate Twins(st: Parse, st': Parse) {
    st' == st.(values := st.values - {"repo"})
  }

  lemma AcceptTwin(g: Grammar, t: Token, st: Parse, st': Parse)
    requires Twins(st, st') && !NamesRepo(t) && IsRead(g, t) && "repo" !in g.spec.booleans
    requires Accept(g, t, st).Some?
    ensures Accept(g, t, st').Some? && Twins(Accept(g, t, st).value, Accept(g, t, st').value)
  {
    if !t.Positional? {
      assert t.flag != "repo";
      var value := if t.Switch? then "true" else t.value;
      assert st.values[t.flag := value] - {"repo"} == (st.values - {"repo"})[t.flag := value];
    }
  }

  lemma {:induction false} RunTwin(g: Grammar, tokens: seq<Token>, st: Parse, st': Parse)
    requires Twins(st, st') && AllRead(g, tokens) && "repo" !in g.spec.booleans
    requires Run(g, tokens, st).Some?
    ensures Run(g, WithoutRepo(tokens), st').Some?
    ensures Twins(Run(g, tokens, st).value, Run(g, WithoutRepo(tokens), st').value)
    decreases |tokens|
  {
    if tokens != [] {
      var next := Accept(g, tokens[0], st).value;
      var rest := WithoutRepo(tokens[1..]);
      if NamesRepo(tokens[0]) {
        assert [] + rest == rest && st.output + [] == st.output;
        assert next.values - {"repo"} == st.values - {"repo"};
        RunTwin(g, tokens[1..], next, st');
      } else {
        AcceptTwin(g, tokens[0], st, st');
        assert ([tokens[0]] + rest)[1..] == rest;
        RunTwin(g, tokens[1..], next, Accept(g, tokens[0], st').value);
      }
    }
  }

  /** A run writes its tokens out one behind the other. */
  lemma {:induction false} RunRenders(g: Grammar, tokens: seq<Token>, st: Parse)
    requires Run(g, tokens, st).Some?
    ensures Run(g, tokens, st).value.output == st.output + Rendered(tokens)
    decreases |tokens|
  {
    if tokens != [] {
      RunRenders(g, tokens[1..], Accept(g, tokens[0], st).value);
      assert st.output + Render(tokens[0]) + Rendered(tokens[1..]) == st.output + (Render(tokens[0]) + Rendered(tokens[1..]));
    }
  }

  lemma {:induction false} RunConcat(g: Grammar, a: seq<Token>, b: seq<Token>, st: Parse)
    ensures Run(g, a + b, st) == if Run(g, a, st).None? then None else Run(g, b, Run(g, a, st).value)
    decreases |a|
  {
    if a == [] {
      assert a + b == b;
    } else {
      assert (a + b)[0] == a[0] && (a + b)[1..] == a[1..] + b;
      if Accept(g, a[0], st).Some? {
        RunConcat(g, a[1..], b, Accept(g, a[0], st).value);
      }
    }
  }

  // ---------- the normal form ----------

  /** The arguments that name the bound repository. */
  lemma BoundIsRead(g: Grammar)
    requires "repo" !in g.spec.booleans
    ensures Tokens(g, ["--repo", g.bound]) == Some([Valued("repo", g.bound)])
  {
    LongFlag("repo");
    assert "--" + "repo" == "--repo";
    var rest := ["--repo", g.bound];
    assert NextToken(g, rest) == Some((Valued("repo", g.bound), 2));
    assert rest[2..] == [];
    assert [Valued("repo", g.bound)] + [] == [Valued("repo", g.bound)];
  }

  lemma BoundIsAccepted(g: Grammar, st: Parse)
    requires "repo" !in st.values
    ensures Run(g, [Valued("repo", g.bound)], st) == Some(st.(values := st.values["repo" := g.bound]))
  {
    var t := Valued("repo", g.bound);
    assert [t][1..] == [] && st.output + [] == st.output;
    assert Accept(g, t, st) == Some(st.(values := st.values["repo" := g.bound]));
  }

  /** Whether a parse is complete does not depend on the repository it names. */
  lemma CompleteWithoutRepo(g: Grammar, policy: Policy, st: Parse, bound: string)
    ensures Complete(g, policy, st.(values := (st.values - {"repo"})["repo" := bound])) <==> Complete(g, policy, st)
  {
    SameEssentials(st.values, bound);
  }

  lemma SameEssentials(values: map<string, string>, bound: string)
    ensures EssentialsOf((values - {"repo"})["repo" := bound]) == EssentialsOf(values)
  {
    SameButRepo(values, bound, "comment");
    SameButRepo(values, bound, "title");
    SameButRepo(values, bound, "body");
    SameButRepo(values, bound, "body-file");
    SameButRepo(values, bound, "head");
    SameButRepo(values, bound, "base");
    SameButRepo(values, bound, "approve");
    SameButRepo(values, bound, "request-changes");
  }

  lemma SameButRepo(values: map<string, string>, bound: string, flag: string)
    ensures flag != "repo" ==> Get((values - {"repo"})["repo" := bound], flag) == Get(values, flag)
  {
  }

  /** What is written out is read again as the same tokens, with the bound repository as the only one. */
  lemma OutputTokens(g: Grammar, tokens: seq<Token>, head: seq<string>)
    requires AllRead(g, tokens) && "repo" !in g.spec.booleans && |head| == 2
    ensures var out := head + Rendered(tokens) + ["--repo", g.bound];
            out[..2] == head && Tokens(g, out[2..]) == Some(WithoutRepo(tokens) + [Valued("repo", g.bound)])
  {
    BoundIsRead(g);
    ReadsBack(g, tokens, ["--repo", g.bound]);
    BehindHead(head, Rendered(tokens), ["--repo", g.bound]);
  }

  lemma BehindHead(head: seq<string>, a: seq<string>, b: seq<string>)
    ensures (head + a + b)[..|head|] == head && (head + a + b)[|head|..] == a + b
  {
  }

  /**
   * Accepted arguments are rewritten to a normal form: rewriting them again changes nothing, and as they are read
   * the bound repository is the only one they name.
   */
  lemma NormalForm(g: Grammar, policy: Policy, arguments: seq<string>)
    requires |arguments| >= 2 && "repo" !in g.spec.booleans
    requires Rewritten(g, policy, arguments).Some?
    ensures var out := Rewritten(g, policy, arguments).value;
            && |out| >= 4 && out[..2] == arguments[..2]
            && Rewritten(g, policy, out) == Some(out)
            && Tokens(g, out[2..]).Some?
            && (forall t | t in Tokens(g, out[2..]).value && NamesRepo(t) :: t.value == g.bound)
            && Valued("repo", g.bound) in Tokens(g, out[2..]).value
  {
    var tokens := Tokens(g, arguments[2..]).value;
    var start := Start(arguments);
    var st := Run(g, tokens, start).value;
    var out := Rewritten(g, policy, arguments).value;
    TokensAreRead(g, arguments[2..]);
    RunRenders(g, tokens, start);
    OutputTokens(g, tokens, arguments[..2]);
    assert Start(out) == start && Twins(start, start);
    RunTwin(g, tokens, start, start);
    var st' := Run(g, WithoutRepo(tokens), start).value;
    RunConcat(g, WithoutRepo(tokens), [Valued("repo", g.bound)], start);
    BoundIsAccepted(g, st');
    CompleteWithoutRepo(g, policy, st, g.bound);
    RepoIsDropped(tokens);
  }

  lemma {:induction false} RepoIsDropped(tokens: seq<Token>)
    ensures forall t | t in WithoutRepo(tokens) :: !NamesRepo(t)
    decreases |tokens|
  {
    if tokens != [] {
      RepoIsDropped(tokens[1..]);
    }
  }

  /** A larger policy accepts whatever a smaller one does, and rewrites it alike. */
  lemma RewrittenIsMonotone(g: Grammar, small: Policy, large: Policy, arguments: seq<string>)
    requires |arguments| >= 2 && AtLeast(small, large) && Rewritten(g, small, arguments).Some?
    ensures Rewritten(g, large, arguments) == Rewritten(g, small, arguments)
  {
  }
}
