/** The private registry file: atomic replacement, loading, and loading after an interruption. */
module RegistryStores {
  import opened Wrappers
  import opened Registries
  import opened RegistryDocuments

  /** The steps of one atomic replacement, in the order they are taken. */
  datatype WriteStep =
    | EnsureDirectory | CreateTemporary | RestrictPermissions | WriteContent | FlushContent | CloseTemporary
    | RenameOver | FlushDirectory

  /** The step that fails, if any. */
  type Fault = Option<WriteStep>

  datatype StoreError = RelativePath | NotSavable | NotLoadable | NotReconcilable | WriteFailed(step: WriteStep)

  /** The new contents are in place once the rename is done, even when the flush after it fails. */
  predicate Replaces(fault: Fault) {
    fault.None? || fault.value.FlushDirectory?
  }

  const EMPTY_REGISTRY := Registry(map[])

  ghost predicate SaveSucceeds(path: string, registry: Registry, fault: Fault) {
    IsAbs(path) && IsSavable(registry) && fault.None?
  }

  /** The contents Save puts in place: at most one document. */
  ghost function SaveWrites(path: string, registry: Registry, fault: Fault): seq<RegistryDocument> {
    if IsAbs(path) && IsSavable(registry) && Replaces(fault) then [DocumentOf(registry)] else []
  }

  ghost function StoredAfter(stored: Option<RegistryDocument>, writes: seq<RegistryDocument>): Option<RegistryDocument> {
    if writes == [] then stored else Some(writes[|writes| - 1])
  }

  ghost predicate ImageLoads(stored: Option<RegistryDocument>) {
    stored.Some? ==> IsLoadable(stored.value)
  }

  ghost function ImageRegistry(stored: Option<RegistryDocument>): Registry {
    if stored.Some? then LoadedRegistry(stored.value) else EMPTY_REGISTRY
  }

  class FileRegistry {
    const path: string
    var stored: Option<RegistryDocument>
    var temporary: Option<RegistryDocument>

    constructor (path: string, stored: Option<RegistryDocument>)
      ensures this.path == path && this.stored == stored && temporary.None?
    {
      this.path := path;
      this.stored := stored;
      temporary := None;
    }

    /** Replaces the stored contents; `images` lists what the file held after every step. */
    method WriteFileAtomically(content: RegistryDocument, fault: Fault)
      returns (error: Option<StoreError>, ghost images: seq<Option<RegistryDocument>>)
      modifies this`stored, this`temporary
      ensures error == if fault.Some? then Some(WriteFailed(fault.value)) else None
      ensures stored == if fault == None || fault == Some(FlushDirectory) then Some(content) else old(stored)
      ensures temporary.None?
      ensures forall image :: image in images ==> image == old(stored) || image == Some(content)
    {
      images := [stored];
      temporary := None;
      if fault.Some? && (fault.value.EnsureDirectory? || fault.value.CreateTemporary?) {
        return Some(WriteFailed(fault.value)), images;
      }
      if fault.Some? && (fault.value.RestrictPermissions? || fault.value.WriteContent?) {
        return Some(WriteFailed(fault.value)), images;
      }
      temporary := Some(content);
      images := images + [stored];
      if fault.Some? && (fault.value.FlushContent? || fault.value.CloseTemporary? || fault.value.RenameOver?) {
        temporary := None;
        return Some(WriteFailed(fault.value)), images;
      }
      stored, temporary := temporary, None;
      images := images + [stored];
      if fault.Some? {
        return Some(WriteFailed(fault.value)), images;
      }
      error := None;
    }

    method Save(registry: Registry, fault: Fault) returns (error: Option<StoreError>)
      modifies this`stored, this`temporary
      ensures error.None? <==> IsAbs(path) && IsSavable(registry) && fault.None?
      ensures stored == if IsAbs(path) && IsSavable(registry) && (fault == None || fault == Some(FlushDirectory))
                        then Some(DocumentOf(registry)) else old(stored)
      ensures stored == StoredAfter(old(stored), SaveWrites(path, registry, fault))
    {
      if !IsAbs(path) {
        return Some(RelativePath);
      }
      var document := RegistryToDocument(registry);
      if document.Failure? {
        return Some(NotSavable);
      }
      ghost var images;
      error, images := WriteFileAtomically(document.value, fault);
    }

    /** A missing file stands for an empty registry. */
    method Load() returns (r: Result<Registry, StoreError>)
      ensures r.Success? <==> IsAbs(path) && ImageLoads(stored)
      ensures r.Success? ==> r.value == ImageRegistry(stored)
    {
      if !IsAbs(path) {
        return Failure(RelativePath);
      }
      if stored.None? {
        return Success(EMPTY_REGISTRY);
      }
      var loaded := DocumentToRegistry(stored.value);
      if loaded.Failure? {
        return Failure(NotLoadable);
      }
      return Success(loaded.value);
    }

    /** Loads, fails every interrupted runtime, and stores the result when something changed. */
    method LoadAndReconcile(at: Time, fault: Fault) returns (r: Result<Registry, StoreError>)
      modifies this`stored, this`temporary
      ensures r.Success? <==> BootSucceeds(path, old(stored), at, fault)
      ensures r.Success? ==> r.value == Reconciled(ImageRegistry(old(stored)), at)
      ensures stored == BootImage(path, old(stored), at, fault)
    {
      var loaded := Load();
      if loaded.Failure? {
        return Failure(loaded.error);
      }
      LoadedStatesValid(stored);
      var changed, error, registry := ReconcileAfterDaemonRestart(loaded.value, at);
      if error.Some? {
        return Failure(NotReconcilable);
      }
      if changed {
        var failure := Save(registry, fault);
        if failure.Some? {
          return Failure(failure.value);
        }
      }
      return Success(registry);
    }
  }

  /** The daemon comes up: the image loads and, if something was interrupted, the result can be stored. */
  ghost predicate BootSucceeds(path: string, stored: Option<RegistryDocument>, at: Time, fault: Fault) {
    && IsAbs(path)
    && ImageLoads(stored)
    && (HasActiveRuntime(ImageRegistry(stored)) ==> SaveSucceeds(path, Reconciled(ImageRegistry(stored), at), fault))
  }

  /** What the file holds after an attempt to come up. */
  ghost function BootImage(path: string, stored: Option<RegistryDocument>, at: Time, fault: Fault): Option<RegistryDocument> {
    if IsAbs(path) && ImageLoads(stored) && HasActiveRuntime(ImageRegistry(stored))
    then StoredAfter(stored, SaveWrites(path, Reconciled(ImageRegistry(stored), at), fault))
    else stored
  }

  lemma LoadedStatesValid(stored: Option<RegistryDocument>)
    requires ImageLoads(stored)
    ensures forall p | p in ImageRegistry(stored).projects :: HasValidStates(ImageRegistry(stored).projects[p])
  {
    if stored.Some? {
      var documents := stored.value.projects;
      forall p, q | p in LoadedProjects(documents) && q in LoadedProjects(documents)[p].processes
        ensures HasValidState(LoadedProjects(documents)[p].processes[q])
      {
        var i := ProjectOrigin(documents, p);
        ProjectEntry(documents, i);
        var j := ProcessOrigin(p, documents[i].processes, q);
        ProcessEntry(p, documents[i].processes, j);
        assert LoadableProject(documents[i]) && LoadableProcess(documents[i].processes[j]);
      }
    }
  }

  /**
   * Coming up on the image of a registry: without a fault it succeeds, whatever happens the image stays that of the
   * registry or of its reconciliation, and reconciling again, at any later time, changes nothing more.
   */
  lemma CrashRecovery(path: string, stored: Option<RegistryDocument>, registry: Registry, at: Time, fault: Fault)
    requires IsAbs(path) && IsSavable(registry) && IsImageOf(stored, registry)
    ensures fault.None? || !HasActiveRuntime(registry) ==> BootSucceeds(path, stored, at, fault)
    ensures !HasActiveRuntime(registry) ==> BootImage(path, stored, at, fault) == stored
    ensures IsImageOf(BootImage(path, stored, at, fault), registry)
            || IsImageOf(BootImage(path, stored, at, fault), Reconciled(registry, at))
    ensures BootSucceeds(path, stored, at, fault) ==>
              IsImageOf(BootImage(path, stored, at, fault), Reconciled(registry, at))
    ensures forall later: Time :: Reconciled(Reconciled(registry, at), later) == Reconciled(registry, at)
  {
    var after := Reconciled(registry, at);
    if HasActiveRuntime(registry) {
      ReconcileKeepsSavable(registry, at);
      SavedImage(after);
    } else {
      NothingToReconcile(registry, at);
    }
    forall later: Time
      ensures Reconciled(after, later) == after
    {
      ReconciledOnce(registry, at, later);
    }
  }

  /** Reconciling what was reconciled changes nothing. */
  lemma ReconciledOnce(registry: Registry, at: Time, later: Time)
    ensures Reconciled(Reconciled(registry, at), later) == Reconciled(registry, at)
  {
    NothingActiveAfter(registry, at);
    NothingToReconcile(Reconciled(registry, at), later);
  }

  ghost predicate IsImageOf(stored: Option<RegistryDocument>, registry: Registry) {
    ImageLoads(stored) && ImageRegistry(stored) == registry
  }

  lemma SavedImage(registry: Registry)
    requires IsSavable(registry)
    ensures IsImageOf(Some(DocumentOf(registry)), registry)
  {
    RoundTrip(registry);
  }
}
