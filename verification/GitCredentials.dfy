/** Requests of the Git credential helper. */
module GitCredentials {
  import opened Wrappers
  import opened IdentityModels
  import opened CatalogCommands
  import opened ApiCommands

  const CREDENTIAL_LIMIT: nat := 64 * 1024

  function WithoutReturns(text: string): string
    decreases |text|
  {
    if text == "" then ""
    else if "\r\n" <= text then "\n" + WithoutReturns(text[2..])
    else [text[0]] + WithoutReturns(text[1..])
  }

  function Lines(input: string): seq<string> {
    SplitOn(WithoutReturns(input), '\n')
  }

  predicate IsField(key: string) {
    key in {"protocol", "host", "path", "username"}
  }

  /** A line that is accepted whatever the others say, and adds nothing. */
  predicate IsHint(line: string) {
    var cut := CutAt(line, '=');
    || line == ""
    || (cut.found && cut.before == "capability[]" && cut.after in {"authtype", "state"})
    || (cut.found && cut.before == "wwwauth[]" && cut.after != "" && |cut.after| <= 4096)
  }

  predicate IsFieldLine(line: string) {
    CutAt(line, '=').found && IsField(CutAt(line, '=').before)
  }

  /** The fields after one more line. */
  function Admit(line: string, fields: map<string, string>): Option<map<string, string>> {
    var cut := CutAt(line, '=');
    if line == "" then Some(fields)
    else if !cut.found then None
    else if cut.before == "capability[]" then if cut.after in {"authtype", "state"} then Some(fields) else None
    else if cut.before == "wwwauth[]" then if cut.after != "" && |cut.after| <= 4096 then Some(fields) else None
    else if cut.before in fields || !IsField(cut.before) then None
    else Some(fields[cut.before := cut.after])
  }

  function Admitted(lines: seq<string>): Option<map<string, string>> {
    if lines == [] then Some(map[])
    else
      var before := Admitted(lines[..|lines| - 1]);
      if before.None? then None else Admit(lines[|lines| - 1], before.value)
  }

  function TrimLeft(path: string): string {
    if path != "" && path[0] == '/' then TrimLeft(path[1..]) else path
  }

  function TrimRight(path: string): string {
    if path != "" && path[|path| - 1] == '/' then TrimRight(path[..|path| - 1]) else path
  }

  function TrimSuffix(text: string, part: string): string {
    if EndsWith(text, part) then text[..|text| - |part|] else text
  }

  /** The repository a path names: without slashes around it and without `.git`. */
  function RepositoryOf(path: string): string {
    TrimSuffix(TrimRight(TrimLeft(path)), ".git")
  }

  /** The fields are those of the bound host and repository; a request need not name a repository. */
  predicate ForProject(fold: string -> string, host: string, repository: string, fields: map<string, string>) {
    && Get(fields, "protocol") == "https"
    && fold(Get(fields, "host")) == fold(host)
    && (RepositoryOf(Get(fields, "path")) != "" ==> fold(RepositoryOf(Get(fields, "path"))) == fold(repository))
  }

  predicate IsGitCredential(invocation: Invocation) {
    |invocation.arguments| >= 2 && invocation.arguments[0] == "auth" && invocation.arguments[1] == "git-credential"
  }

  predicate IsRequest(invocation: Invocation) {
    |invocation.arguments| == 3 && invocation.arguments[2] == "get" && 0 < |invocation.input| <= CREDENTIAL_LIMIT
  }

  function CredentialCommand(fold: string -> string, host: string, repository: string, invocation: Invocation): Option<Command> {
    if !IsRequest(invocation) then None
    else
      var fields := Admitted(Lines(invocation.input));
      if fields.Some? && ForProject(fold, host, repository, fields.value) then Some(Command([], "", true, false)) else None
  }

  method AuthorizeGitCredential(fold: string -> string, host: string, repository: string, invocation: Invocation)
    returns (r: Option<Command>)
    ensures r == CredentialCommand(fold, host, repository, invocation)
  {
    if |invocation.arguments| != 3 || invocation.arguments[2] != "get" || |invocation.input| == 0
       || |invocation.input| > CREDENTIAL_LIMIT {
      return None;
    }
    var fields := ReadFields(Lines(invocation.input));
    if fields.None? || !ForProject(fold, host, repository, fields.value) {
      return None;
    }
    return Some(Command([], "", true, false));
  }

  method ReadFields(lines: seq<string>) returns (r: Option<map<string, string>>)
    ensures r == Admitted(lines)
  {
    var fields: map<string, string> := map[];
    var i := 0;
    while i < |lines|
      invariant i <= |lines|
      invariant Admitted(lines[..i]) == Some(fields)
    {
      StopsAt(lines, i);
      var line := lines[i];
      if line != "" {
        var cut := CutAt(line, '=');
        if !cut.found {
          return None;
        }
        if cut.before == "capability[]" {
          if cut.after !in {"authtype", "state"} {
            return None;
          }
        } else if cut.before == "wwwauth[]" {
          if cut.after == "" || |cut.after| > 4096 {
            return None;
          }
        } else {
          if cut.before in fields || !IsField(cut.before) {
            return None;
          }
          fields := fields[cut.before := cut.after];
        }
      }
      i := i + 1;
    }
    assert lines[..i] == lines;
    return Some(fields);
  }

  lemma StopsAt(lines: seq<string>, i: nat)
    requires i < |lines|
    ensures Admitted(lines[..i + 1]) ==
            if Admitted(lines[..i]).None? then None else Admit(lines[i], Admitted(lines[..i]).value)
    ensures Admitted(lines[..i + 1]).None? ==> Admitted(lines).None?
  {
    assert lines[..i + 1][..i] == lines[..i];
    RefusedForGood(lines, i + 1);
  }

  lemma {:induction false} RefusedForGood(lines: seq<string>, n: nat)
    requires n <= |lines|
    ensures Admitted(lines[..n]).None? ==> Admitted(lines).None?
    decreases |lines|
  {
    if n < |lines| {
      RefusedForGood(lines[..|lines| - 1], n);
      assert lines[..|lines| - 1][..n] == lines[..n];
    } else {
      assert lines[..n] == lines;
    }
  }

  // ---------- what a request says ----------

  function KeyAt(lines: seq<string>, i: nat): string
    requires i < |lines|
  {
    CutAt(lines[i], '=').before
  }

  predicate AllReadable(lines: seq<string>) {
    forall line | line in lines :: IsHint(line) || IsFieldLine(line)
  }

  predicate OncePerField(lines: seq<string>) {
    forall i, j | 0 <= i < j < |lines| && IsFieldLine(lines[i]) && IsFieldLine(lines[j]) :: KeyAt(lines, i) != KeyAt(lines, j)
  }

  function FieldKeys(lines: seq<string>): set<string> {
    set i | 0 <= i < |lines| && IsFieldLine(lines[i]) :: KeyAt(lines, i)
  }

  /** The fields are those the lines give, with the values the lines give them. */
  predicate SaysWhatLinesSay(lines: seq<string>, fields: map<string, string>) {
    && fields.Keys == FieldKeys(lines)
    && forall i | 0 <= i < |lines| && IsFieldLine(lines[i]) && KeyAt(lines, i) in fields ::
         fields[KeyAt(lines, i)] == CutAt(lines[i], '=').after
  }

  /**
   * The order of lines does not matter: a request is read exactly if every line is a hint or a field and no field is
   * given twice, and then the fields are those the lines give.
   */
  lemma {:induction false} FieldsAreTheirLines(lines: seq<string>)
    ensures Admitted(lines).Some? <==> AllReadable(lines) && OncePerField(lines)
    ensures Admitted(lines).Some? ==> SaysWhatLinesSay(lines, Admitted(lines).value)
  {
    if lines != [] {
      var before, line := lines[..|lines| - 1], lines[|lines| - 1];
      assert lines == before + [line];
      FieldsAreTheirLines(before);
      ReadableOneMore(before, line);
      OnceOneMore(before, line);
      AdmitMeaning(line, if Admitted(before).Some? then Admitted(before).value else map[]);
      if Admitted(lines).Some? {
        SaysOneMore(before, line, Admitted(before).value, Admitted(lines).value);
      }
    }
  }

  lemma AdmitMeaning(line: string, fields: map<string, string>)
    ensures Admit(line, fields).Some? <==>
              (IsHint(line) || IsFieldLine(line)) && (IsFieldLine(line) ==> CutAt(line, '=').before !in fields)
    ensures Admit(line, fields).Some? ==>
              Admit(line, fields).value ==
              if IsFieldLine(line) then fields[CutAt(line, '=').before := CutAt(line, '=').after] else fields
  {
    assert !IsFieldLine("");
  }

  lemma ReadableOneMore(lines: seq<string>, line: string)
    ensures AllReadable(lines + [line]) <==> AllReadable(lines) && (IsHint(line) || IsFieldLine(line))
  {
    assert line in lines + [line] && forall other | other in lines :: other in lines + [line];
  }

  lemma OnceOneMore(lines: seq<string>, line: string)
    ensures OncePerField(lines + [line]) <==>
              OncePerField(lines) && (IsFieldLine(line) ==> CutAt(line, '=').before !in FieldKeys(lines))
  {
    var all := lines + [line];
    assert forall i | 0 <= i < |lines| :: all[i] == lines[i] && KeyAt(all, i) == KeyAt(lines, i);
    assert KeyAt(all, |lines|) == CutAt(line, '=').before && all[|lines|] == line;
    if OncePerField(all) {
      forall i | 0 <= i < |lines| && IsFieldLine(lines[i]) && IsFieldLine(line)
        ensures KeyAt(lines, i) != CutAt(line, '=').before
      {
        assert KeyAt(all, i) != KeyAt(all, |lines|);
      }
      forall i, j | 0 <= i < j < |lines| && IsFieldLine(lines[i]) && IsFieldLine(lines[j])
        ensures KeyAt(lines, i) != KeyAt(lines, j)
      {
        assert KeyAt(all, i) != KeyAt(all, j);
      }
    }
  }

  lemma SaysOneMore(lines: seq<string>, line: string, fields: map<string, string>, fields': map<string, string>)
    requires SaysWhatLinesSay(lines, fields)
    requires IsFieldLine(line) ==> CutAt(line, '=').before !in fields
    requires fields' == if IsFieldLine(line) then fields[CutAt(line, '=').before := CutAt(line, '=').after] else fields
    ensures SaysWhatLinesSay(lines + [line], fields')
  {
    var all := lines + [line];
    assert forall i | 0 <= i < |lines| :: all[i] == lines[i] && KeyAt(all, i) == KeyAt(lines, i);
    assert KeyAt(all, |lines|) == CutAt(line, '=').before && all[|lines|] == line;
    forall key
      ensures key in FieldKeys(all) <==> key in fields'
    {
      if key in FieldKeys(lines) {
        var i :| 0 <= i < |lines| && IsFieldLine(lines[i]) && KeyAt(lines, i) == key;
        assert KeyAt(all, i) == key;
      }
    }
  }
}
