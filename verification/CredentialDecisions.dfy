/** Which credential requests are accepted, in terms of the bytes of their input. */
module CredentialDecisions {
  import opened Wrappers
  import opened Pieces
  import opened CatalogCommands
  import opened ApiCommands
  import opened ApiDecisions
  import opened GitCredentials

  // ---------- lines ----------

  /** Lines with a newline behind each but the last, some of them with a carriage return in front. */
  function Text(lines: seq<string>, endings: seq<bool>): string
    requires lines != [] && |endings| == |lines|
  {
    if |lines| == 1 then lines[0]
    else lines[0] + (if endings[0] then "\r\n" else "\n") + Text(lines[1..], endings[1..])
  }

  /** Either way of ending lines is understood. */
  lemma LinesAreFound(lines: seq<string>, endings: seq<bool>)
    requires lines != [] && |endings| == |lines| && Without(lines, '\n') && Without(lines, '\r')
    ensures Lines(Text(lines, endings)) == lines
  {
    ReturnsAreDropped(lines, endings);
    SplitUndoesJoin(lines, '\n');
  }

  lemma {:induction false} ReturnsAreDropped(lines: seq<string>, endings: seq<bool>)
    requires lines != [] && |endings| == |lines| && Without(lines, '\r')
    ensures WithoutReturns(Text(lines, endings)) == JoinWith(lines, '\n')
    decreases |lines|
  {
    if |lines| == 1 {
      PlainIsKept(lines[0], "");
      assert lines[0] + "" == lines[0];
    } else {
      var rest := Text(lines[1..], endings[1..]);
      var ending := if endings[0] then "\r\n" else "\n";
      ReturnsAreDropped(lines[1..], endings[1..]);
      PlainIsKept(lines[0], ending + rest);
      EndingIsNewline(endings[0], rest);
      Regroup(lines[0], ending, rest);
      Regroup(lines[0], "\n", WithoutReturns(rest));
      assert Text(lines, endings) == lines[0] + ending + rest;
    }
  }

  lemma {:induction false} PlainIsKept(line: string, rest: string)
    requires '\r' !in line
    ensures WithoutReturns(line + rest) == line + WithoutReturns(rest)
    decreases |line|
  {
    if line == "" {
      assert line + rest == rest;
    } else {
      assert (line + rest)[0] == line[0] != '\r' && (line + rest)[1..] == line[1..] + rest;
      PlainIsKept(line[1..], rest);
    }
  }

  lemma EndingIsNewline(withReturn: bool, rest: string)
    ensures WithoutReturns((if withReturn then "\r\n" else "\n") + rest) == "\n" + WithoutReturns(rest)
  {
    var text := (if withReturn then "\r\n" else "\n") + rest;
    if withReturn {
      assert "\r\n" <= text && text[2..] == rest;
    } else {
      assert text[0] == '\n' && text[1..] == rest && [text[0]] == "\n";
    }
  }

  // ---------- what a line says ----------

  /** The line gives a value to a name. */
  predicate Gives(line: string, name: string, value: string) {
    line == name + "=" + value
  }

  predicate IsName(name: string) {
    name == "protocol" || name == "host" || name == "path" || name == "username"
  }

  ghost predicate IsReadable(line: string) {
    || line == "" || line == "capability[]=authtype" || line == "capability[]=state"
    || (exists value :: Gives(line, "wwwauth[]", value) && 0 < |value| <= 4096)
    || (exists name, value :: IsName(name) && Gives(line, name, value))
  }

  lemma NamesArePlain(name: string)
    ensures IsName(name) ==> '=' !in name && name != "capability[]" && name != "wwwauth[]"
    ensures '=' !in "capability[]" && '=' !in "wwwauth[]"
    ensures IsName(name) <==> IsField(name)
  {
  }

  lemma GivesMeans(line: string, name: string, value: string)
    requires '=' !in name
    ensures Gives(line, name, value) <==> CutAt(line, '=') == Cut(name, value, true)
  {
    CutIsAtFirst(line);
    CutOf(name, value);
  }

  lemma ReadableMeans(line: string)
    ensures IsReadable(line) <==> IsHint(line) || IsFieldLine(line)
  {
    CapabilityMeans(line);
    ChallengeMeans(line);
    FieldMeans(line);
    assert !IsFieldLine("");
  }

  lemma CapabilityMeans(line: string)
    ensures line == "capability[]=authtype" || line == "capability[]=state" <==>
              var cut := CutAt(line, '=');
              cut.found && cut.before == "capability[]" && cut.after in {"authtype", "state"}
  {
    NamesArePlain("");
    assert "capability[]" + "=" + "authtype" == "capability[]=authtype";
    assert "capability[]" + "=" + "state" == "capability[]=state";
    GivesMeans(line, "capability[]", "authtype");
    GivesMeans(line, "capability[]", "state");
  }

  lemma ChallengeMeans(line: string)
    ensures (exists value :: Gives(line, "wwwauth[]", value) && 0 < |value| <= 4096) <==>
              var cut := CutAt(line, '=');
              cut.found && cut.before == "wwwauth[]" && cut.after != "" && |cut.after| <= 4096
  {
    NamesArePlain("");
    forall value
      ensures Gives(line, "wwwauth[]", value) <==> CutAt(line, '=') == Cut("wwwauth[]", value, true)
    {
      GivesMeans(line, "wwwauth[]", value);
    }
  }

  lemma FieldMeans(line: string)
    ensures (exists name, value :: IsName(name) && Gives(line, name, value)) <==> IsFieldLine(line)
  {
    var cut := CutAt(line, '=');
    NamesArePlain(cut.before);
    if IsFieldLine(line) {
      GivesMeans(line, cut.before, cut.after);
      assert IsName(cut.before) && Gives(line, cut.before, cut.after);
    }
    if name, value :| IsName(name) && Gives(line, name, value) {
      NamesArePlain(name);
      GivesMeans(line, name, value);
    }
  }

  // ---------- the decision ----------

  /** Every line can be read, and no name is given a value twice. */
  ghost predicate IsRequestText(lines: seq<string>) {
    && (forall i | 0 <= i < |lines| :: IsReadable(lines[i]))
    && forall i, j, name | 0 <= i < j < |lines| && IsName(name) && NamesIn(lines[i], name) :: !NamesIn(lines[j], name)
  }

  predicate NamesIn(line: string, name: string) {
    name + "=" <= line
  }

  /** The value the lines give to a name, or nothing. */
  function Given(lines: seq<string>, name: string): string {
    if lines == [] then ""
    else if NamesIn(lines[0], name) then lines[0][|name| + 1..]
    else Given(lines[1..], name)
  }

  lemma NamesInMeans(line: string, name: string)
    requires '=' !in name
    ensures NamesIn(line, name) <==> CutAt(line, '=').found && CutAt(line, '=').before == name
    ensures NamesIn(line, name) ==> CutAt(line, '=').after == line[|name| + 1..]
  {
    CutIsAtFirst(line);
    if NamesIn(line, name) {
      assert line == name + "=" + line[|name| + 1..];
      CutOf(name, line[|name| + 1..]);
    }
  }

  lemma RequestTextMeans(lines: seq<string>)
    ensures IsRequestText(lines) <==> AllReadable(lines) && OncePerField(lines)
  {
    forall i | 0 <= i < |lines|
      ensures IsReadable(lines[i]) <==> IsHint(lines[i]) || IsFieldLine(lines[i])
    {
      ReadableMeans(lines[i]);
    }
    if OncePerField(lines) {
      OnceMeans(lines);
    }
    if forall i, j, name | 0 <= i < j < |lines| && IsName(name) && NamesIn(lines[i], name) :: !NamesIn(lines[j], name) {
      MeansOnce(lines);
    }
  }

  lemma OnceMeans(lines: seq<string>)
    requires OncePerField(lines)
    ensures forall i, j, name | 0 <= i < j < |lines| && IsName(name) && NamesIn(lines[i], name) :: !NamesIn(lines[j], name)
  {
    forall i, j, name | 0 <= i < j < |lines| && IsName(name) && NamesIn(lines[i], name)
      ensures !NamesIn(lines[j], name)
    {
      NamesArePlain(name);
      NamesInMeans(lines[i], name);
      NamesInMeans(lines[j], name);
      assert IsFieldLine(lines[i]) && KeyAt(lines, i) == name;
    }
  }

  lemma MeansOnce(lines: seq<string>)
    requires forall i, j, name | 0 <= i < j < |lines| && IsName(name) && NamesIn(lines[i], name) :: !NamesIn(lines[j], name)
    ensures OncePerField(lines)
  {
    forall i, j | 0 <= i < j < |lines| && IsFieldLine(lines[i]) && IsFieldLine(lines[j])
      ensures KeyAt(lines, i) != KeyAt(lines, j)
    {
      var name := KeyAt(lines, i);
      NamesArePlain(name);
      NamesInMeans(lines[i], name);
      NamesInMeans(lines[j], name);
    }
  }

  /** The fields of a request that is read have the values its lines give. */
  lemma GivenIsRead(lines: seq<string>, name: string)
    requires IsName(name) && Admitted(lines).Some?
    ensures Get(Admitted(lines).value, name) == Given(lines, name)
  {
    var fields := Admitted(lines).value;
    FieldsAreTheirLines(lines);
    NamesArePlain(name);
    var i := GivenAt(lines, name);
    if i < |lines| {
      NamesInMeans(lines[i], name);
      assert IsFieldLine(lines[i]) && KeyAt(lines, i) == name;
      assert name in FieldKeys(lines);
    } else {
      forall k | 0 <= k < |lines| && IsFieldLine(lines[k])
        ensures KeyAt(lines, k) != name
      {
        NamesInMeans(lines[k], name);
      }
    }
  }

  lemma {:induction false} GivenAt(lines: seq<string>, name: string) returns (i: nat)
    ensures i <= |lines| && forall k | 0 <= k < i :: !NamesIn(lines[k], name)
    ensures if i < |lines| then NamesIn(lines[i], name) && Given(lines, name) == lines[i][|name| + 1..] else Given(lines, name) == ""
    decreases |lines|
  {
    if lines == [] || NamesIn(lines[0], name) {
      i := 0;
    } else {
      i := GivenAt(lines[1..], name);
      i := i + 1;
    }
  }

  predicate AllSlashes(text: string) {
    forall c | c in text :: c == '/'
  }

  lemma {:induction false} TrimLeftSlashes(path: string) returns (i: nat)
    ensures i <= |path| && TrimLeft(path) == path[i..] && AllSlashes(path[..i]) && (i < |path| ==> path[i] != '/')
    decreases |path|
  {
    if path != "" && path[0] == '/' {
      i := TrimLeftSlashes(path[1..]);
      assert path[..i + 1] == [path[0]] + path[1..][..i] && path[1..][i..] == path[i + 1..];
      i := i + 1;
    } else {
      i := 0;
      assert path[0..] == path && path[..0] == "";
    }
  }

  lemma {:induction false} TrimRightSlashes(path: string) returns (j: nat)
    ensures j <= |path| && TrimRight(path) == path[..j] && AllSlashes(path[j..]) && (j > 0 ==> path[j - 1] != '/')
    decreases |path|
  {
    if path != "" && path[|path| - 1] == '/' {
      var shorter := path[..|path| - 1];
      j := TrimRightSlashes(shorter);
      assert path[j..] == shorter[j..] + [path[|path| - 1]] && shorter[..j] == path[..j];
    } else {
      j := |path|;
      assert path[..j] == path && path[j..] == "";
    }
  }

  predicate IsCore(path: string, i: nat, j: nat)
    requires i <= j <= |path|
  {
    AllSlashes(path[..i]) && AllSlashes(path[j..]) && (i < j ==> path[i] != '/' && path[j - 1] != '/')
  }

  predicate Spells(core: string, repository: string) {
    core == repository + ".git" || (core == repository && !EndsWith(repository, ".git"))
  }

  /** A path with slashes around it and with or without `.git` names the repository in between. */
  predicate NamesRepository(path: string, repository: string) {
    exists i, j | 0 <= i <= j <= |path| :: IsCore(path, i, j) && Spells(path[i..j], repository)
  }

  /** Trimming a path leaves exactly the repository it names. */
  lemma RepositoryIsNamed(path: string, repository: string)
    ensures RepositoryOf(path) == repository <==> NamesRepository(path, repository)
  {
    var i := TrimLeftSlashes(path);
    var n := TrimRightSlashes(path[i..]);
    var j := i + n;
    assert path[i..][..n] == path[i..j] && path[i..][n..] == path[j..];
    assert n > 0 ==> path[i..][n - 1] == path[j - 1];
    GitIsDropped(path[i..j], repository);
    assert IsCore(path, i, j);
    if NamesRepository(path, repository) {
      var a, b :| 0 <= a <= b <= |path| && IsCore(path, a, b) && Spells(path[a..b], repository);
      SameCore(path, a, b, i, j);
    }
  }

  lemma GitIsDropped(name: string, repository: string)
    ensures TrimSuffix(name, ".git") == repository <==>
              Spells(name, repository)
  {
    if EndsWith(name, ".git") {
      assert name == name[..|name| - 4] + ".git";
    }
    assert EndsWith(repository + ".git", ".git") && (repository + ".git")[..|repository|] == repository;
  }

  /** Slashes can be trimmed in one way only. */
  lemma SameCore(path: string, a: nat, b: nat, i: nat, j: nat)
    requires a <= b <= |path| && i <= j <= |path| && IsCore(path, a, b) && IsCore(path, i, j)
    ensures path[a..b] == path[i..j]
  {
    if a < b {
      OneCore(path, a, b, i, j);
    } else if i < j {
      OneCore(path, i, j, a, b);
    }
  }

  lemma OneCore(path: string, a: nat, b: nat, i: nat, j: nat)
    requires a < b <= |path| && i <= j <= |path| && IsCore(path, a, b) && IsCore(path, i, j)
    ensures a == i && b == j
  {
    InSlashes(path, a, i, j);
    InSlashes(path, b - 1, i, j);
    InSlashes(path, i, a, b);
    if i < j {
      InSlashes(path, j - 1, a, b);
    }
  }

  /** What is no slash lies in the core. */
  lemma InSlashes(path: string, k: nat, i: nat, j: nat)
    requires k < |path| && i <= j <= |path| && AllSlashes(path[..i]) && AllSlashes(path[j..])
    ensures path[k] != '/' ==> i <= k < j
  {
    if k < i {
      assert path[..i][k] in path[..i] && path[..i][k] == path[k];
    }
    if k >= j {
      assert path[j..][k - j] in path[j..] && path[j..][k - j] == path[k];
    }
  }

  /**
   * A credential is given out exactly for one `get` with an input of at most 64 KiB whose lines can be read, for the
   * host of the persona over https, and for no repository but the project's.
   */
  lemma CredentialsAreExact(fold: string -> string, host: string, repository: string, invocation: Invocation)
    ensures var lines := Lines(invocation.input);
            CredentialCommand(fold, host, repository, invocation) ==
            (if |invocation.arguments| == 3 && invocation.arguments[2] == "get" && 0 < |invocation.input| <= 65536
                && IsRequestText(lines)
                && Given(lines, "protocol") == "https"
                && fold(Given(lines, "host")) == fold(host)
                && (NamesRepository(Given(lines, "path"), "")
                    || exists named :: NamesRepository(Given(lines, "path"), named) && fold(named) == fold(repository))
             then Some(Command([], "", true, false)) else None)
  {
    var lines := Lines(invocation.input);
    FieldsAreTheirLines(lines);
    RequestTextMeans(lines);
    if Admitted(lines).Some? {
      GivenIsRead(lines, "protocol");
      GivenIsRead(lines, "host");
      GivenIsRead(lines, "path");
      var path := Given(lines, "path");
      forall named
        ensures RepositoryOf(path) == named <==> NamesRepository(path, named)
      {
        RepositoryIsNamed(path, named);
      }
      assert NamesRepository(path, RepositoryOf(path));
    }
  }
}
