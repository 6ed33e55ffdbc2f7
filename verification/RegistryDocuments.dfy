/** The stored form of a registry, and the translations in both directions. */
module RegistryDocuments {
  import opened Wrappers
  import opened ProcessStates
  import opened Registries
  import opened TextOrder

  const DOCUMENT_VERSION := 1

  datatype RuntimeDocument = RuntimeDocument(
    instanceID: string,
    pid: Option<int>,
    state: ProcessState,
    startedAt: Option<Time>,
    finishedAt: Option<Time>,
    exitCode: Option<int>,
    terminationReason: string)

  datatype ProcessDocument = ProcessDocument(
    id: string,
    command: string,
    arguments: seq<string>,
    workingDirectory: string,
    environmentOverrides: map<string, string>,
    runtime: Option<RuntimeDocument>)

  datatype ProjectDocument = ProjectDocument(id: string, rootDirectory: string, processes: seq<ProcessDocument>)

  datatype RegistryDocument = RegistryDocument(version: int, projects: seq<ProjectDocument>)

  datatype DocumentError =
    | InvalidProjectRecord(id: string)
    | InvalidProcessRecord(projectID: string, id: string)
    | UnsupportedVersion(version: int)
    | InvalidProject(id: string)
    | DuplicateProject(id: string)
    | InvalidProcess(projectID: string, id: string)
    | DuplicateProcess(projectID: string, id: string)

  // ---------- registry to document ----------

  function RuntimeToDocument(runtime: ProcessRuntime): RuntimeDocument {
    RuntimeDocument(runtime.instanceID, runtime.pid, runtime.state, runtime.startedAt, runtime.finishedAt,
                    runtime.exitCode, runtime.terminationReason)
  }

  function ProcessToDocument(id: string, process: RegisteredProcess): ProcessDocument {
    ProcessDocument(id, process.definition.command, process.definition.arguments, process.definition.workingDirectory,
                    process.definition.environmentOverrides,
                    if process.runtime.Some? then Some(RuntimeToDocument(process.runtime.value)) else None)
  }

  ghost function ProjectToDocument(id: string, project: RegisteredProject): ProjectDocument {
    var ids := Listing(project.processes.Keys);
    ProjectDocument(id, project.definition.rootDirectory,
                    seq(|ids|, i requires 0 <= i < |ids| =>
                      assert ids[i] in ids; ProcessToDocument(ids[i], project.processes[ids[i]])))
  }

  /** The one document Save writes for a registry: it depends on the contents alone. */
  ghost function DocumentOf(registry: Registry): RegistryDocument {
    var ids := Listing(registry.projects.Keys);
    RegistryDocument(DOCUMENT_VERSION,
                     seq(|ids|, i requires 0 <= i < |ids| =>
                       assert ids[i] in ids; ProjectToDocument(ids[i], registry.projects[ids[i]])))
  }

  /** Collects the keys of a record table in whatever order the table yields them. */
  method CollectKeys(keys: set<string>) returns (ids: seq<string>)
    ensures forall t :: t in ids <==> t in keys
    ensures forall i, j :: 0 <= i < j < |ids| ==> ids[i] != ids[j]
  {
    ids := [];
    var rest := keys;
    while rest != {}
      invariant rest <= keys
      invariant forall t :: t in ids <==> t in keys && t !in rest
      invariant forall i, j :: 0 <= i < j < |ids| ==> ids[i] != ids[j]
    {
      var id :| id in rest;
      ids := ids + [id];
      rest := rest - {id};
    }
  }

  method RegistryToDocument(registry: Registry) returns (r: Result<RegistryDocument, DocumentError>)
    ensures r.Success? <==> IsSavable(registry)
    ensures r.Success? ==> r.value == DocumentOf(registry)
  {
    var collected := CollectKeys(registry.projects.Keys);
    var projectIDs := SortTexts(collected, registry.projects.Keys);
    ListingUnique(projectIDs, Listing(registry.projects.Keys), registry.projects.Keys);
    ghost var target := DocumentOf(registry).projects;
    var projects := [];
    for i := 0 to |projectIDs|
      invariant projects == target[..i]
      invariant FirstSavable(registry, projectIDs, i)
    {
      var id := projectIDs[i];
      assert id in projectIDs;
      var project := ProjectForDocument(id, registry.projects[id]);
      if project.Failure? {
        return Failure(project.error);
      }
      assert target[i] == project.value;
      projects := projects + [project.value];
    }
    AllSavable(registry, projectIDs);
    return Success(RegistryDocument(DOCUMENT_VERSION, projects));
  }

  predicate FirstSavable(registry: Registry, ids: seq<string>, n: int) {
    forall j | 0 <= j < n && j < |ids| :: ids[j] in registry.projects && IsSavableProject(ids[j], registry.projects[ids[j]])
  }

  lemma AllSavable(registry: Registry, ids: seq<string>)
    requires FirstSavable(registry, ids, |ids|) && forall p | p in registry.projects :: p in ids
    ensures IsSavable(registry)
  {
    forall p | p in registry.projects
      ensures IsSavableProject(p, registry.projects[p])
    {
      var j :| 0 <= j < |ids| && ids[j] == p;
    }
  }

  method ProjectForDocument(id: string, project: RegisteredProject)
    returns (r: Result<ProjectDocument, DocumentError>)
    ensures r.Success? <==> IsSavableProject(id, project)
    ensures r.Success? ==> r.value == ProjectToDocument(id, project)
  {
    if !ValidProjectRecord(id, project) {
      return Failure(InvalidProjectRecord(id));
    }
    var failure, processes := ProcessesToDocuments(id, project);
    if failure.Some? {
      return Failure(failure.value);
    }
    return Success(ProjectDocument(id, project.definition.rootDirectory, processes));
  }

  method ProcessesToDocuments(projectID: string, project: RegisteredProject)
    returns (failure: Option<DocumentError>, processes: seq<ProcessDocument>)
    ensures failure.None? <==>
            forall q | q in project.processes :: ValidProcessRecord(projectID, q, project.processes[q])
    ensures failure.None? ==> processes == ProjectToDocument(projectID, project).processes
  {
    var collected := CollectKeys(project.processes.Keys);
    var processIDs := SortTexts(collected, project.processes.Keys);
    ListingUnique(processIDs, Listing(project.processes.Keys), project.processes.Keys);
    failure, processes := None, [];
    for i := 0 to |processIDs|
      invariant processes == ProjectToDocument(projectID, project).processes[..i]
      invariant forall j :: 0 <= j < i ==>
                  && processIDs[j] in project.processes
                  && ValidProcessRecord(projectID, processIDs[j], project.processes[processIDs[j]])
    {
      assert processIDs[i] in project.processes.Keys;
      var process := project.processes[processIDs[i]];
      if !ValidProcessRecord(projectID, processIDs[i], process) {
        failure := Some(InvalidProcessRecord(projectID, processIDs[i]));
        return;
      }
      processes := processes + [ProcessToDocument(processIDs[i], process)];
    }
    forall q | q in project.processes
      ensures ValidProcessRecord(projectID, q, project.processes[q])
    {
      var j :| 0 <= j < |processIDs| && processIDs[j] == q;
    }
  }

  // ---------- document to registry ----------

  function DocumentToRuntime(projectID: string, processID: string, document: RuntimeDocument): ProcessRuntime {
    ProcessRuntime(projectID, processID, document.instanceID, document.pid, document.state, document.startedAt,
                   document.finishedAt, document.exitCode, document.terminationReason)
  }

  function DocumentToProcess(projectID: string, document: ProcessDocument): RegisteredProcess {
    RegisteredProcess(
      ProcessDefinition(projectID, document.id, document.command, document.arguments, document.workingDirectory,
                        document.environmentOverrides),
      if document.runtime.Some? then Some(DocumentToRuntime(projectID, document.id, document.runtime.value)) else None)
  }

  predicate LoadableProcess(document: ProcessDocument) {
    document.id != "" && document.command != "" && (document.runtime.Some? ==> document.runtime.value.state.IsValid())
  }

  ghost predicate DistinctProcesses(documents: seq<ProcessDocument>) {
    forall i, j :: 0 <= i < j < |documents| ==> documents[i].id != documents[j].id
  }

  ghost predicate DistinctProjects(documents: seq<ProjectDocument>) {
    forall i, j :: 0 <= i < j < |documents| ==> documents[i].id != documents[j].id
  }

  ghost predicate LoadableProcesses(documents: seq<ProcessDocument>) {
    (forall i :: 0 <= i < |documents| ==> LoadableProcess(documents[i])) && DistinctProcesses(documents)
  }

  ghost predicate LoadableProject(document: ProjectDocument) {
    document.id != "" && IsAbs(document.rootDirectory) && LoadableProcesses(document.processes)
  }

  ghost predicate LoadableProjects(documents: seq<ProjectDocument>) {
    (forall i :: 0 <= i < |documents| ==> LoadableProject(documents[i])) && DistinctProjects(documents)
  }

  /** The documents Load accepts. */
  ghost predicate IsLoadable(document: RegistryDocument) {
    document.version == DOCUMENT_VERSION && LoadableProjects(document.projects)
  }

  ghost function LoadedProcesses(projectID: string, documents: seq<ProcessDocument>): map<string, RegisteredProcess> {
    if documents == [] then map[]
    else
      var last := documents[|documents| - 1];
      LoadedProcesses(projectID, documents[..|documents| - 1])[last.id := DocumentToProcess(projectID, last)]
  }

  ghost function LoadedProject(document: ProjectDocument): RegisteredProject {
    RegisteredProject(ProjectDefinition(document.id, document.rootDirectory),
                      LoadedProcesses(document.id, document.processes))
  }

  ghost function LoadedProjects(documents: seq<ProjectDocument>): map<string, RegisteredProject> {
    if documents == [] then map[]
    else
      var last := documents[|documents| - 1];
      LoadedProjects(documents[..|documents| - 1])[last.id := LoadedProject(last)]
  }

  /** The registry a loadable document stands for. */
  ghost function LoadedRegistry(document: RegistryDocument): Registry {
    Registry(LoadedProjects(document.projects))
  }

  method DocumentToRegistry(document: RegistryDocument) returns (r: Result<Registry, DocumentError>)
    ensures r.Success? <==> IsLoadable(document)
    ensures r.Success? ==> r.value == LoadedRegistry(document)
  {
    if document.version != DOCUMENT_VERSION {
      return Failure(UnsupportedVersion(document.version));
    }
    var projects: map<string, RegisteredProject> := map[];
    for i := 0 to |document.projects|
      invariant LoadableProjects(document.projects[..i])
      invariant projects == LoadedProjects(document.projects[..i])
    {
      var input := document.projects[i];
      ghost var before := document.projects[..i];
      assert document.projects[..i + 1] == before + [input];
      if input.id == "" || !IsAbs(input.rootDirectory) {
        assert !LoadableProject(document.projects[i]);
        return Failure(InvalidProject(input.id));
      }
      if input.id in projects {
        ghost var j := ProjectOrigin(before, input.id);
        assert document.projects[j].id == document.projects[i].id;
        return Failure(DuplicateProject(input.id));
      }
      forall j | 0 <= j < i
        ensures document.projects[j].id != input.id
      {
        ProjectEntry(before, j);
      }
      var failure, processes := DocumentsToProcesses(input.id, input.processes);
      if failure.Some? {
        assert !LoadableProject(document.projects[i]);
        return Failure(failure.value);
      }
      projects := projects[input.id := RegisteredProject(ProjectDefinition(input.id, input.rootDirectory), processes)];
    }
    assert document.projects[..|document.projects|] == document.projects;
    return Success(Registry(projects));
  }

  method DocumentsToProcesses(projectID: string, documents: seq<ProcessDocument>)
    returns (failure: Option<DocumentError>, processes: map<string, RegisteredProcess>)
    ensures failure.None? <==> LoadableProcesses(documents)
    ensures failure.None? ==> processes == LoadedProcesses(projectID, documents)
  {
    failure, processes := None, map[];
    for i := 0 to |documents|
      invariant LoadableProcesses(documents[..i])
      invariant processes == LoadedProcesses(projectID, documents[..i])
    {
      var input := documents[i];
      ghost var before := documents[..i];
      assert documents[..i + 1] == before + [input];
      if input.id == "" || input.command == "" {
        failure := Some(InvalidProcess(projectID, input.id));
        return;
      }
      if input.id in processes {
        ghost var j := ProcessOrigin(projectID, before, input.id);
        assert documents[j].id == documents[i].id;
        failure := Some(DuplicateProcess(projectID, input.id));
        return;
      }
      if input.runtime.Some? && !input.runtime.value.state.IsValid() {
        failure := Some(InvalidProcess(projectID, input.id));
        return;
      }
      forall j | 0 <= j < i
        ensures documents[j].id != input.id
      {
        ProcessEntry(projectID, before, j);
      }
      processes := processes[input.id := DocumentToProcess(projectID, input)];
    }
    assert documents[..|documents|] == documents;
  }

  /** Every document has its entry in the loaded table. */
  lemma {:induction false} ProcessEntry(projectID: string, documents: seq<ProcessDocument>, i: nat)
    requires DistinctProcesses(documents) && i < |documents|
    ensures documents[i].id in LoadedProcesses(projectID, documents)
    ensures LoadedProcesses(projectID, documents)[documents[i].id] == DocumentToProcess(projectID, documents[i])
  {
    if i < |documents| - 1 {
      ProcessEntry(projectID, documents[..|documents| - 1], i);
    }
  }

  /** Every entry of the loaded table comes from a document. */
  lemma {:induction false} ProcessOrigin(projectID: string, documents: seq<ProcessDocument>, id: string) returns (i: nat)
    requires id in LoadedProcesses(projectID, documents)
    ensures i < |documents| && documents[i].id == id
  {
    i := |documents| - 1;
    if documents[i].id != id {
      i := ProcessOrigin(projectID, documents[..|documents| - 1], id);
    }
  }

  lemma {:induction false} ProjectEntry(documents: seq<ProjectDocument>, i: nat)
    requires DistinctProjects(documents) && i < |documents|
    ensures documents[i].id in LoadedProjects(documents)
    ensures LoadedProjects(documents)[documents[i].id] == LoadedProject(documents[i])
  {
    if i < |documents| - 1 {
      ProjectEntry(documents[..|documents| - 1], i);
    }
  }

  lemma {:induction false} ProjectOrigin(documents: seq<ProjectDocument>, id: string) returns (i: nat)
    requires id in LoadedProjects(documents)
    ensures i < |documents| && documents[i].id == id
  {
    i := |documents| - 1;
    if documents[i].id != id {
      i := ProjectOrigin(documents[..|documents| - 1], id);
    }
  }

  // ---------- laws ----------

  /** Saving and loading gives the registry back, for every registry that Save accepts. */
  lemma RoundTrip(registry: Registry)
    requires IsSavable(registry)
    ensures IsLoadable(DocumentOf(registry))
    ensures LoadedRegistry(DocumentOf(registry)) == registry
  {
    var documents := DocumentOf(registry).projects;
    var ids := Listing(registry.projects.Keys);
    forall i | 0 <= i < |ids|
      ensures ids[i] in registry.projects && documents[i].id == ids[i]
      ensures LoadableProject(documents[i])
      ensures LoadedProject(documents[i]) == registry.projects[ids[i]]
    {
      assert ids[i] in ids;
      ProjectRoundTrip(ids[i], registry.projects[ids[i]]);
    }
    AscendingDistinct(ids);
    ProjectTableRoundTrip(registry.projects, ids, documents);
  }

  lemma ProjectTableRoundTrip(
      projects: map<string, RegisteredProject>, ids: seq<string>, documents: seq<ProjectDocument>)
    requires |ids| == |documents| && DistinctProjects(documents)
    requires forall p :: p in projects <==> p in ids
    requires forall i :: 0 <= i < |ids| ==> documents[i].id == ids[i]
    requires forall i :: 0 <= i < |ids| ==> ids[i] in projects && LoadedProject(documents[i]) == projects[ids[i]]
    ensures LoadedProjects(documents) == projects
  {
    var loaded := LoadedProjects(documents);
    forall p | p in loaded
      ensures p in projects
    {
      var i := ProjectOrigin(documents, p);
    }
    forall p | p in projects
      ensures p in loaded && loaded[p] == projects[p]
    {
      assert p in ids;
      var i :| 0 <= i < |ids| && ids[i] == p;
      ProjectEntry(documents, i);
    }
  }

  lemma ProcessRoundTrip(projectID: string, id: string, process: RegisteredProcess)
    requires ValidProcessRecord(projectID, id, process)
    ensures LoadableProcess(ProcessToDocument(id, process))
    ensures DocumentToProcess(projectID, ProcessToDocument(id, process)) == process
  {
  }

  lemma ProjectRoundTrip(id: string, project: RegisteredProject)
    requires IsSavableProject(id, project)
    ensures LoadableProject(ProjectToDocument(id, project))
    ensures LoadedProject(ProjectToDocument(id, project)) == project
  {
    var documents := ProjectToDocument(id, project).processes;
    var ids := Listing(project.processes.Keys);
    AscendingDistinct(ids);
    forall i | 0 <= i < |ids|
      ensures ids[i] in project.processes && documents[i].id == ids[i]
      ensures LoadableProcess(documents[i])
      ensures DocumentToProcess(id, documents[i]) == project.processes[ids[i]]
    {
      assert ids[i] in ids;
      ProcessRoundTrip(id, ids[i], project.processes[ids[i]]);
    }
    ProcessTableRoundTrip(id, project.processes, ids, documents);
  }

  lemma ProcessTableRoundTrip(
      projectID: string, processes: map<string, RegisteredProcess>, ids: seq<string>, documents: seq<ProcessDocument>)
    requires |ids| == |documents| && DistinctProcesses(documents)
    requires forall q :: q in processes <==> q in ids
    requires forall i :: 0 <= i < |ids| ==> documents[i].id == ids[i]
    requires forall i :: 0 <= i < |ids| ==>
               ids[i] in processes && DocumentToProcess(projectID, documents[i]) == processes[ids[i]]
    ensures LoadedProcesses(projectID, documents) == processes
  {
    var loaded := LoadedProcesses(projectID, documents);
    forall q | q in loaded
      ensures q in processes
    {
      var i := ProcessOrigin(projectID, documents, q);
    }
    forall q | q in processes
      ensures q in loaded && loaded[q] == processes[q]
    {
      assert q in ids;
      var i :| 0 <= i < |ids| && ids[i] == q;
      ProcessEntry(projectID, documents, i);
    }
  }

  lemma AscendingDistinct(texts: seq<string>)
    requires Ascending(texts)
    ensures forall i, j :: 0 <= i < j < |texts| ==> texts[i] != texts[j]
  {
    forall i, j | 0 <= i < j < |texts|
      ensures texts[i] != texts[j]
    {
      LessIrreflexive(texts[i]);
    }
  }

  /** Different registries that Save accepts are written differently. */
  lemma DocumentsAreFaithful(a: Registry, b: Registry)
    requires IsSavable(a) && IsSavable(b)
    requires DocumentOf(a) == DocumentOf(b)
    ensures a == b
  {
    RoundTrip(a);
    RoundTrip(b);
  }

  // ---------- the order of a document does not matter ----------

  /** The same project documents in another order. */
  ghost predicate ProjectsShuffled(a: RegistryDocument, b: RegistryDocument) {
    a.version == b.version && multiset(a.projects) == multiset(b.projects)
  }

  /** The same project documents, each with its processes in another order. */
  ghost predicate ProcessesShuffled(a: RegistryDocument, b: RegistryDocument) {
    && a.version == b.version
    && |a.projects| == |b.projects|
    && forall i | 0 <= i < |a.projects| ::
         && a.projects[i].id == b.projects[i].id
         && a.projects[i].rootDirectory == b.projects[i].rootDirectory
         && multiset(a.projects[i].processes) == multiset(b.projects[i].processes)
  }

  /** Loading any permutation of projects and processes succeeds as well and gives the same registry. */
  lemma LoadIgnoresOrder(a: RegistryDocument, between: RegistryDocument, b: RegistryDocument)
    requires ProjectsShuffled(a, between) && ProcessesShuffled(between, b)
    ensures IsLoadable(a) <==> IsLoadable(b)
    ensures IsLoadable(a) ==> LoadedRegistry(a) == LoadedRegistry(b)
  {
    ShuffledProjectsLoad(a, between);
    ShuffledProjectsLoad(between, a);
    ShuffledProcessesLoad(between, b);
    ShuffledProcessesLoad(b, between);
  }

  lemma ShuffledProjectsLoad(a: RegistryDocument, b: RegistryDocument)
    requires ProjectsShuffled(a, b)
    ensures IsLoadable(a) ==> IsLoadable(b) && LoadedRegistry(a) == LoadedRegistry(b)
  {
    if IsLoadable(a) {
      ShuffleKeepsMembers(a.projects, b.projects);
      ShuffleKeepsDistinct(a.projects, b.projects, (d: ProjectDocument) => d.id);
      assert IsLoadable(b);
      var x, y := LoadedProjects(a.projects), LoadedProjects(b.projects);
      forall id | id in x
        ensures id in y && x[id] == y[id]
      {
        var i := ProjectOrigin(a.projects, id);
        ProjectEntry(a.projects, i);
        assert a.projects[i] in b.projects;
        var j :| 0 <= j < |b.projects| && b.projects[j] == a.projects[i];
        ProjectEntry(b.projects, j);
      }
      forall id | id in y
        ensures id in x
      {
        var i := ProjectOrigin(b.projects, id);
        assert b.projects[i] in a.projects;
        var j :| 0 <= j < |a.projects| && a.projects[j] == b.projects[i];
        ProjectEntry(a.projects, j);
      }
      assert x == y;
    }
  }

  lemma ShuffledProcessesLoad(a: RegistryDocument, b: RegistryDocument)
    requires ProcessesShuffled(a, b) || ProcessesShuffled(b, a)
    ensures IsLoadable(a) ==> IsLoadable(b) && LoadedRegistry(a) == LoadedRegistry(b)
  {
    if IsLoadable(a) {
      forall i | 0 <= i < |a.projects|
        ensures LoadableProject(b.projects[i])
        ensures LoadedProject(a.projects[i]) == LoadedProject(b.projects[i])
        ensures a.projects[i].id == b.projects[i].id
      {
        ProcessListShuffled(a.projects[i].id, a.projects[i].processes, b.projects[i].processes);
      }
      PointwiseLoad(a.projects, b.projects);
    }
  }

  lemma {:induction false} PointwiseLoad(a: seq<ProjectDocument>, b: seq<ProjectDocument>)
    requires |a| == |b|
    requires forall i :: 0 <= i < |a| ==> a[i].id == b[i].id && LoadedProject(a[i]) == LoadedProject(b[i])
    ensures LoadedProjects(a) == LoadedProjects(b)
  {
    if a != [] {
      PointwiseLoad(a[..|a| - 1], b[..|b| - 1]);
    }
  }

  lemma ProcessListShuffled(projectID: string, a: seq<ProcessDocument>, b: seq<ProcessDocument>)
    requires multiset(a) == multiset(b) && LoadableProcesses(a)
    ensures LoadableProcesses(b)
    ensures LoadedProcesses(projectID, a) == LoadedProcesses(projectID, b)
  {
    ShuffleKeepsMembers(a, b);
    ShuffleKeepsDistinct(a, b, (d: ProcessDocument) => d.id);
    var x, y := LoadedProcesses(projectID, a), LoadedProcesses(projectID, b);
    forall id | id in x
      ensures id in y && x[id] == y[id]
    {
      var i := ProcessOrigin(projectID, a, id);
      ProcessEntry(projectID, a, i);
      assert a[i] in b;
      var j :| 0 <= j < |b| && b[j] == a[i];
      ProcessEntry(projectID, b, j);
    }
    forall id | id in y
      ensures id in x
    {
      var i := ProcessOrigin(projectID, b, id);
      assert b[i] in a;
      var j :| 0 <= j < |a| && a[j] == b[i];
      ProcessEntry(projectID, a, j);
    }
    assert x == y;
  }

  lemma ShuffleKeepsDistinct<T>(a: seq<T>, b: seq<T>, id: T -> string)
    requires multiset(a) == multiset(b)
    requires forall i, j :: 0 <= i < j < |a| ==> id(a[i]) != id(a[j])
    ensures forall i, j :: 0 <= i < j < |b| ==> id(b[i]) != id(b[j])
  {
    ShuffleKeepsMembers(a, b);
    forall i, j | 0 <= i < j < |b|
      ensures id(b[i]) != id(b[j])
    {
      assert b[i] in a && b[j] in a;
      var x :| 0 <= x < |a| && a[x] == b[i];
      var y :| 0 <= y < |a| && a[y] == b[j];
      if x == y {
        TwiceMeansTwoPlaces(b, i, j);
        OnceMeansOnePlace(a, x);
      }
    }
  }

  lemma ShuffleKeepsMembers<T>(a: seq<T>, b: seq<T>)
    requires multiset(a) == multiset(b)
    ensures forall i :: 0 <= i < |a| ==> a[i] in b
    ensures forall i :: 0 <= i < |b| ==> b[i] in a
  {
    forall i | 0 <= i < |a|
      ensures a[i] in b
    {
      assert a[i] in multiset(a);
    }
    forall i | 0 <= i < |b|
      ensures b[i] in a
    {
      assert b[i] in multiset(b);
    }
  }

  lemma TwiceMeansTwoPlaces<T>(s: seq<T>, i: nat, j: nat)
    requires i < j < |s| && s[i] == s[j]
    ensures multiset(s)[s[i]] >= 2
  {
    assert s == s[..j] + s[j..];
    assert s[..j][i] == s[i] && s[j..][0] == s[i];
    assert s[i] in multiset(s[..j]) && s[i] in multiset(s[j..]);
  }

  lemma OnceMeansOnePlace<T>(s: seq<T>, i: nat)
    requires i < |s| && forall j :: 0 <= j < |s| && j != i ==> s[j] != s[i]
    ensures multiset(s)[s[i]] == 1
  {
    assert s == s[..i] + [s[i]] + s[i + 1..];
    assert s[i] !in multiset(s[..i]) && s[i] !in multiset(s[i + 1..]);
  }

  // ---------- what is where ----------

  /** The document of a runtime says what the runtime says, without the names of its process. */
  predicate SaysRuntime(document: RuntimeDocument, runtime: ProcessRuntime) {
    && document.instanceID == runtime.instanceID && document.pid == runtime.pid && document.state == runtime.state
    && document.startedAt == runtime.startedAt && document.finishedAt == runtime.finishedAt
    && document.exitCode == runtime.exitCode && document.terminationReason == runtime.terminationReason
  }

  predicate SaysProcess(document: ProcessDocument, process: RegisteredProcess) {
    && document.command == process.definition.command && document.arguments == process.definition.arguments
    && document.workingDirectory == process.definition.workingDirectory
    && document.environmentOverrides == process.definition.environmentOverrides
    && (document.runtime.Some? <==> process.runtime.Some?)
    && (document.runtime.Some? ==> SaysRuntime(document.runtime.value, process.runtime.value))
  }

  ghost predicate SaysProject(document: ProjectDocument, project: RegisteredProject) {
    && document.rootDirectory == project.definition.rootDirectory
    && forall j | 0 <= j < |document.processes| ::
         && document.processes[j].id in project.processes
         && SaysProcess(document.processes[j], project.processes[document.processes[j].id])
  }

  /** Every entry of the written document says under its ID what the registry holds there, in ascending order of IDs. */
  lemma DocumentSays(registry: Registry)
    ensures var document := DocumentOf(registry);
            && document.version == 1
            && (forall i | 0 <= i < |document.projects| ::
                  && document.projects[i].id in registry.projects
                  && SaysProject(document.projects[i], registry.projects[document.projects[i].id]))
            && (forall i, j | 0 <= i < j < |document.projects| :: Less(document.projects[i].id, document.projects[j].id))
            && forall i, j, k | 0 <= i < |document.projects| && 0 <= j < k < |document.projects[i].processes| ::
                 Less(document.projects[i].processes[j].id, document.projects[i].processes[k].id)
  {
    var documents := DocumentOf(registry).projects;
    var ids := Listing(registry.projects.Keys);
    forall i | 0 <= i < |ids|
      ensures ids[i] in registry.projects && documents[i].id == ids[i]
      ensures SaysProject(documents[i], registry.projects[ids[i]])
      ensures forall j, k | 0 <= j < k < |documents[i].processes| :: Less(documents[i].processes[j].id, documents[i].processes[k].id)
    {
      assert ids[i] in ids;
      ProjectSays(ids[i], registry.projects[ids[i]]);
    }
  }

  lemma ProjectSays(id: string, project: RegisteredProject)
    ensures var document := ProjectToDocument(id, project);
            && SaysProject(document, project)
            && forall j, k | 0 <= j < k < |document.processes| :: Less(document.processes[j].id, document.processes[k].id)
  {
    var documents := ProjectToDocument(id, project).processes;
    var ids := Listing(project.processes.Keys);
    forall j | 0 <= j < |ids|
      ensures ids[j] in project.processes && documents[j].id == ids[j]
      ensures SaysProcess(documents[j], project.processes[ids[j]])
    {
      assert ids[j] in ids;
    }
  }

  /** The runtimes of a document are named, and their process IDs are positive. */
  ghost predicate HasNamedRuntimes(document: RegistryDocument) {
    forall i, j | 0 <= i < |document.projects| && 0 <= j < |document.projects[i].processes| ::
      IsNamed(document.projects[i].processes[j].runtime)
  }

  predicate IsNamed(runtime: Option<RuntimeDocument>) {
    runtime.Some? ==> runtime.value.instanceID != "" && (runtime.value.pid.Some? ==> runtime.value.pid.value > 0)
  }

  /** What was loaded can be saved again, exactly if its runtimes are named; loading alone does not ask for that. */
  lemma LoadedCanBeSaved(document: RegistryDocument)
    requires IsLoadable(document)
    ensures document.version == 1
    ensures IsSavable(LoadedRegistry(document)) <==> HasNamedRuntimes(document)
  {
    var documents := document.projects;
    forall i | 0 <= i < |documents|
      ensures documents[i].id in LoadedProjects(documents)
      ensures LoadedProjects(documents)[documents[i].id] == LoadedProject(documents[i])
      ensures IsSavableProject(documents[i].id, LoadedProject(documents[i])) <==>
                forall j | 0 <= j < |documents[i].processes| :: IsNamed(documents[i].processes[j].runtime)
    {
      ProjectEntry(documents, i);
      assert LoadableProject(documents[i]);
      LoadedProjectCanBeSaved(documents[i]);
    }
    forall p | p in LoadedProjects(documents)
      ensures exists i :: 0 <= i < |documents| && documents[i].id == p
    {
      var i := ProjectOrigin(documents, p);
    }
  }

  lemma LoadedProjectCanBeSaved(document: ProjectDocument)
    requires LoadableProject(document)
    ensures IsSavableProject(document.id, LoadedProject(document)) <==>
              forall j | 0 <= j < |document.processes| :: IsNamed(document.processes[j].runtime)
  {
    var documents := document.processes;
    var processes := LoadedProcesses(document.id, documents);
    forall j | 0 <= j < |documents|
      ensures documents[j].id in processes && processes[documents[j].id] == DocumentToProcess(document.id, documents[j])
      ensures ValidProcessRecord(document.id, documents[j].id, processes[documents[j].id]) <==> IsNamed(documents[j].runtime)
    {
      ProcessEntry(document.id, documents, j);
      assert LoadableProcess(documents[j]);
    }
    forall q | q in processes
      ensures exists j :: 0 <= j < |documents| && documents[j].id == q
    {
      var j := ProcessOrigin(document.id, documents, q);
    }
  }
}
