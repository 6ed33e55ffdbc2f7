# Verified model of the process supervisor, the identity broker and their readers

Dovik is a local daemon that starts, stops and watches operating-system processes for several clients at once, keeps
their output, and lets agents run GitHub commands under configured personas. This project models the parts of it that
hold state or parse text, and proves what they promise. `dafny verify dfyconfig.toml` checks everything.

## What is modelled

**Supervision.** `Registries`, `ProcessStates`, `RegistryDocuments` and `RegistryStores` hold the registry, its stored
form and its file. `Lifecycle` writes every critical section of the manager as a total function of the daemon's state
and of what its surroundings answer (fresh IDs, spawn failures, save failures, exits, instants); the defensive branches
are all there. `LifecycleManager` is the manager itself, a class with the fields `registry`, `active` and `outputs`
changed in place, and each of its methods is proved to carry out its section. `LifecycleWorld` lets any number of
clients, exiting children and crashes interleave sections: `Stop`, `Restart` and `Shutdown` are calls that span several
of them. `LifecycleInvariant`, `LifecycleSections`, `LifecycleDefinitions` and `LifecycleCalls` prove that every step
keeps one invariant, and `LifecycleRuns` states what follows for whole histories. `LifecycleOutcomes` writes out, field
by field, what each section leaves in the registry and answers. `LifecycleChildren` counts the
children of a key across crashes, `LifecycleReplies` says what a `Stop` returns, `LifecycleImages` when the file holds
all that is in memory, and `LifecycleExamples` builds the histories that break a promise.

**Output.** `OutputBuffers` is the bounded log, proved to agree with the unbounded log it stands for. `LogFollower` is
the client that follows it by cursor, and `TuiOutputs` and `TuiModels` are the terminal model that does so too.
`Sanitizers` is the scanner that makes output safe to print; what it takes for a control sequence has the shape of
section 5.4 of ECMA-48.

**Identity.** `SecretFilters` and `FrameStreams` are the byte pipeline from a child's writes to the two sinks at the
other end. `IdentityModels`, `IdentityStores` and `IdentityServices` are the configuration, its guarded updates and the
agent sessions. `CatalogCommands`, `ApiCommands`, `GitCredentials` and `Catalogs` are the closed command catalogue;
`CatalogDecisions`, `ApiDecisions` and `CredentialDecisions` state exactly what it accepts, in terms of how arguments and
lines are spelled.
`PersonaChoices` is the list of personas offered during configuration.

Code that changes things step by step is a class or a method with loops, proved against a function; the theorems are
about those functions. `Wrappers`, `Pieces` and `TextOrder` hold what several modules need.

## Assumptions about the surroundings

- Instance and session IDs handed out are new and not empty, and process IDs are positive.
- A failing save fails at one named step. Up to the rename the file is untouched; a failing flush of the directory
  comes after it. A process that was killed is waited for before the section goes on.
- A string stands for bytes, one character each. Case folding, e-mail parsing, white space and paths enter as
  functions, and every theorem is about all of them; a path is absolute when it begins with a slash, the Unix rule.
- The credential is not empty, which is checked before the filters are made.
- A child that outlives its daemon ends on its own, at any time or never; nothing else stops it.
- Instants are whole numbers, and numbers do not wrap around.

## Where the code does less than one might read into it

- `Stop` promises to wait for the terminal state, but the runtime it returns is read in a later section.
  `LifecycleReplies.StopReports`: it is terminal exactly if nobody owns the key by then, and is otherwise an instance
  newer than the call. `LifecycleExamples.StopReturnsRunning` is a history in which a `Stop` without error returns a
  running runtime.
- A daemon that dies leaves its children running, each in a process group of its own, and the next daemon records them
  as failed. `LifecycleChildren.OneProcessPerKey` gives the exact condition under which a key never has two children,
  and `LifecycleExamples.CrashDoubles` a history in which it has.
- A save can report an error after it has replaced the file. Adding or removing a definition then rolls back the
  memory while the file keeps the change. `LifecycleRuns.HistoryAgrees` gives the exact condition, and
  `LifecycleRuns.LateFailureMisleads` a family of cases that meet it. `LifecycleImages.HistoryInStep` does the same for
  runtimes; `LifecycleImages.UnstoredExitIsForgotten` shows an exit that was recorded and is forgotten by a crash.
- The identity store likewise keeps its old state when a write fails after the replacement, and a restart loads the
  refused change. `IdentityStores.WholeOrNotAtAll` gives the exact condition.
- The redactor can put a credential together again from its own marker. `SecretFilters.LeaksExactly` says for which
  credentials, and `SecretFilters.LeakingInput` has the input for each of them.
- A stored runtime without an instance ID, or with a process ID that is not positive, is loaded, but a registry that
  holds it cannot be saved any more. `RegistryDocuments.LoadedCanBeSaved` gives the exact condition.
- The terminal model forgets the output of a run when another run is reported, but not when no runtime was reported in
  between. `TuiModels.RedefinedRunKeepsOutput` shows it.
- A REST route without fields still takes one raw field with an empty name, because splitting an empty list gives one
  empty part. `Catalogs.EmptyListTakesEmptyName` says exactly what such a route takes, and `Catalogs.EmptyNameIsAccepted`
  is a whole request that is accepted with such a field.

## Model

| member | source | states |
|---|---|---|
| LifecycleChildren.OneProcessPerKey | internal/supervision/process_other.go:13-19 | In every history of clients, exits, failures and crashes, at every moment inside critical sections too, a key has at most one running child, children of dead daemons included, exactly as long as none is created while one left behind by an earlier daemon still runs |
| LifecycleChildren.OneUnlessCrashed | internal/supervision/lifecycle.go:74-147 | A key of which no crash met a live child has at most one running child throughout |
| LifecycleChildren.OneChildOfADaemon | internal/supervision/lifecycle.go:74-147 | Within the life of one daemon a key has at most one child that was created and not yet waited for, and outside sections it belongs to the key's active runtime |
| LifecycleChildren.OrphansComeFromCrashes | internal/supervision/process_other.go:13-19 | A child runs without a daemon only if a crash struck while it was live |
| LifecycleExamples.OrphanMakesTwo | internal/supervision/lifecycle.go:83-147 | Starting a key of which an earlier daemon left a child behind gives it a second one |
| LifecycleExamples.CrashDoubles | internal/supervision/registry_store.go:91-107 | From any reachable world that defines a key, start, crash and start lead to two running children of it |
| LifecycleRuns.OwnershipIsExact | internal/supervision/lifecycle.go:74-294 | Whenever the lock is free a runtime is active exactly if its key is owned, by the same instance, and it is then running or stopping, never starting |
| LifecycleRuns.DefensiveBranchesUnused | internal/supervision/lifecycle.go:124-294 | No action of any history takes a branch for lost ownership, missing records or illegal moves; a stop waits for the current, owned instance, and an observer always ends its runtime |
| LifecycleOutcomes.ExitsAreRecorded | internal/supervision/lifecycle.go:267-293 | In every history an observed child has exited exactly if it ran, was observed and ended with code 0, was stopped exactly if that was asked for, and has failed otherwise; reason, code and instant are those of the exit, every other field and every other record is as it was |
| LifecycleOutcomes.ExitOutcome | internal/supervision/lifecycle.go:251-294 | The same for one section, which gives up the key and closes the channel with an error exactly if the save failed |
| LifecycleOutcomes.StartOutcome | internal/supervision/lifecycle.go:87-147 | A start with a fresh ID leaves everything as it was, or a record that failed to spawn, or one whose child was created and killed, or one that runs; record, process events, ownership and errors are written out for each, and the fate of the saves and the spawn decides which |
| LifecycleOutcomes.StartWithoutEffect | internal/supervision/lifecycle.go:74-90 | Every other start changes nothing and answers with the active runtime or the reason |
| LifecycleOutcomes.StopOutcome | internal/supervision/lifecycle.go:168-185 | Stopping a running process changes its state alone to stopping and waits for its instance, or changes nothing if that cannot be saved |
| LifecycleOutcomes.StopWithoutEffect | internal/supervision/lifecycle.go:150-167 | Every other stop changes nothing: it waits for what is stopping, or answers with the last runtime, a bare stopped one, or the reason |
| LifecycleOutcomes.AddProjectOutcome | internal/supervision/registry_operations.go:11-40 | A project with an ID and an absolute root that is a directory is added with no processes if it is new and can be saved; otherwise memory is as it was, with the reason |
| LifecycleOutcomes.RemoveProjectOutcome | internal/supervision/registry_operations.go:43-59 | A project is removed exactly if it is there, has no processes, and the change can be saved |
| LifecycleOutcomes.AddProcessOutcome | internal/supervision/registry_operations.go:75-113 | A process with an ID and a command, and a directory if it names one, is added without a runtime to a project that is there if it is new and can be saved |
| LifecycleOutcomes.RemoveProcessOutcome | internal/supervision/registry_operations.go:116-135 | A process is removed, together with its output, exactly if it is there, not active, and the change can be saved |
| LifecycleRuns.CrashAnywhere | internal/supervision/registry_store.go:91-126 | Dying anywhere, inside a section too, leaves a file that loads, whatever number of attempts to come up fail in between; the next daemon has nothing active, all definitions and finished records as in the file, and exactly the interrupted runtimes failed as such at the instant of one attempt |
| LifecycleRuns.HistoryAgrees | internal/supervision/registry_operations.go:11-134 | From the beginning of any history, or from any crash on, memory and file agree on all definitions exactly as long as no save of a changed definition reports an error after replacing the file; and memory always passes the validation of saving |
| LifecycleRuns.LateFailureMisleads | internal/supervision/registry_operations.go:35-38 | Adding a project whose save fails after the rename makes memory and file differ |
| LifecycleRuns.RecordsOnlyMoveForward | internal/supervision/lifecycle.go:267-293 | Over a daemon's life the record of an instance follows the transition table, never changes once terminal, and ties finish time, reason, exit code and process ID to its state |
| LifecycleImages.HistoryInStep | internal/supervision/lifecycle.go:94-98 | From the beginning of any history, or from any crash on, the file holds exactly what is in memory, runtimes included, as long as no action rolls back after a save that replaced the file or goes on after one that did not, and no longer |
| LifecycleImages.InStepExactly | internal/supervision/lifecycle.go:164-174 | An action that begins with the file holding all that is in memory ends so exactly if it neither rolls back after a save that replaced the file nor goes on after one that did not |
| LifecycleImages.RecordsOutliveCrash | internal/supervision/registry_store.go:91-107 | In step, a crash between two sections keeps every current record that is terminal and fails every other by the transition table |
| LifecycleImages.UnstoredExitIsForgotten | internal/supervision/lifecycle.go:288-292 | An exit whose save failed is final in memory, and after a crash its record comes back as interrupted |
| LifecycleRuns.RestartReplaces | internal/supervision/lifecycle.go:200-206 | A restart without error has ended the instance current at the call, and returns a different one created after every child of the old one had been waited for |
| LifecycleRuns.StopEnds | internal/supervision/lifecycle.go:149-198 | A stop without error leaves the instance it was called for gone for good |
| LifecycleReplies.StopReports | internal/supervision/lifecycle.go:149-198 | Whichever way a stop returns, its runtime is terminal exactly if the key is not owned then; without an error any other runtime is a newer, owned instance, and none at all means that the process was defined anew |
| LifecycleReplies.StopReturnsTerminal | internal/supervision/lifecycle.go:149-198 | A stop without error returns a terminal runtime unless the process was started again since it was called |
| LifecycleExamples.StopReturnsRunning | internal/supervision/lifecycle.go:189-197 | From any reachable world that defines a key, start, stop, exit and start lead to a stop that returns a running runtime without error |
| LifecycleExamples.Defined | internal/supervision/registry_operations.go:11-113 | Such a world is reachable for all acceptable definitions |
| LifecycleRuns.ShutdownEmpties | internal/supervision/lifecycle.go:208-224 | A shutdown without error, with nothing started since it was called, leaves nothing owned and no child |
| LifecycleRuns.HistoryKeeps | internal/supervision/lifecycle.go:74-340 | The invariant holds between any two events of any history, crashes included |
| LifecycleCalls.ApplyKeeps | internal/supervision/lifecycle.go:74-340 | Every section and every step of a call keeps the invariant of daemon, processes, records and calls, and only moves records forward |
| LifecycleSections.StartKeeps | internal/supervision/lifecycle.go:74-147 | Start keeps the daemon's invariant through every failure of saving and spawning, and what it writes on the way are images of good registries |
| LifecycleSections.StopKeeps | internal/supervision/lifecycle.go:150-185 | The first section of a stop keeps the invariant and never answers with lost ownership or an illegal move |
| LifecycleSections.ObserveEffect | internal/supervision/lifecycle.go:251-294 | Observing the exit of an owned instance ends exactly that runtime and gives up its key |
| LifecycleSections.EndedConsistent | internal/supervision/lifecycle.go:267-287 | The record an exit leaves satisfies every rule between state, reason, exit code and finish time |
| LifecycleDefinitions.AgreementStep | internal/supervision/registry_operations.go:11-134 | One action keeps memory and file agreeing on definitions exactly if it is not a changed definition whose save fails after the rename |
| LifecycleDefinitions.RemoveUndoesAdd | internal/supervision/registry_operations.go:107-112 | Rolling back an added process restores the registry exactly |
| LifecycleDefinitions.AddUndoesRemove | internal/supervision/registry_operations.go:127-132 | Rolling back a removed process restores the registry exactly |
| LifecycleManager.NewLifecycleManager | internal/supervision/lifecycle.go:51-71 | A manager is created exactly if both output limits are positive, and owns nothing |
| LifecycleManager.LifecycleManager.Start | internal/supervision/lifecycle.go:74-147 | The method on the fields carries out the section of a start: same new state, answer and process events |
| LifecycleManager.LifecycleManager.Launch | internal/supervision/lifecycle.go:122-147 | The part of a start after the child exists, with its two ways of killing it again |
| LifecycleManager.LifecycleManager.FailStart | internal/supervision/lifecycle.go:308-319 | Marks a runtime whose child never came up |
| LifecycleManager.LifecycleManager.FailRunningProcess | internal/supervision/lifecycle.go:321-327 | Marks a runtime whose child was killed again |
| LifecycleManager.LifecycleManager.BeginStop | internal/supervision/lifecycle.go:150-185 | The first section of a stop: an answer, or the very instance to wait for |
| LifecycleManager.LifecycleManager.StatusWithError | internal/supervision/lifecycle.go:329-340 | The last section of a stop: the current runtime with the error of the operation |
| LifecycleManager.LifecycleManager.ObserveExit | internal/supervision/lifecycle.go:251-294 | The observer's section on the fields: record, ownership and the closed channel with its error |
| LifecycleManager.LifecycleManager.Logs | internal/supervision/lifecycle.go:241-249 | Nothing without a buffer; otherwise the newest kept events of that run for a cursor at zero, and those behind the cursor for any other |
| LifecycleManager.LifecycleManager.AddProject | internal/supervision/registry_operations.go:11-40 | Carries out its section, with the rollback when saving fails |
| LifecycleManager.LifecycleManager.RemoveProject | internal/supervision/registry_operations.go:43-59 | Carries out its section, with the rollback when saving fails |
| LifecycleManager.LifecycleManager.AddProcess | internal/supervision/registry_operations.go:75-113 | Carries out its section, with the rollback when saving fails |
| LifecycleManager.LifecycleManager.RemoveProcess | internal/supervision/registry_operations.go:116-135 | Carries out its section, with the rollback when saving fails, and forgets the output only when it did not |
| ProcessStates.TrailsAreShort | internal/supervision/state.go:64-78 | A runtime makes at most three moves of the table, and only its last state can be terminal |
| ProcessStates.MovesByTarget | internal/supervision/state.go:64-78 | Which states may move to a given one: nothing starts again, only a start runs, only what runs exits, only what was asked to stop is stopped, everything active can fail |
| Registries.ProcessRuntime.Transition | internal/supervision/state.go:80-93 | A move succeeds exactly if both states are valid and the table allows it, and changes the state alone |
| Registries.RuntimeRollback | internal/supervision/lifecycle.go:95-98 | Putting the previous runtime back restores the whole registry |
| Registries.ReconcileAfterDaemonRestart | internal/supervision/registry.go:36-66 | In whatever order runtimes are visited, all active ones fail with the same instant and reason, and the flag says whether there were any |
| Registries.ReconcileMeaning | internal/supervision/registry.go:36-66 | Reconciling changes exactly the active runtimes, leaves none active, and keeps every definition |
| RegistryDocuments.RegistryToDocument | internal/supervision/registry_document.go:42-91 | A document is made exactly of the registries that pass validation, and its lists are ordered by ID |
| RegistryDocuments.DocumentToRegistry | internal/supervision/registry_document.go:93-147 | A document loads exactly if it is loadable, as the registry of its records |
| RegistryDocuments.RoundTrip | internal/supervision/registry_document.go:42-147 | What was saved loads as the same registry |
| RegistryDocuments.DocumentsAreFaithful | internal/supervision/registry_document.go:42-91 | Two registries that can be saved have the same document exactly if they are the same |
| RegistryDocuments.LoadIgnoresOrder | internal/supervision/registry_document.go:93-147 | Loading any permutation of the projects and of the processes in each gives the same registry |
| RegistryDocuments.DocumentSays | internal/supervision/registry_document.go:42-91 | Every entry of a written document says under its ID, field by field, what the registry holds there, in ascending order of IDs |
| RegistryDocuments.LoadedCanBeSaved | internal/supervision/registry_document.go:93-178 | What was loaded can be saved again exactly if its runtimes have instance IDs and positive process IDs |
| RegistryStores.FileRegistry.WriteFileAtomically | internal/supervision/registry_store.go:147-179 | Whatever step fails, the file holds the old or the new contents at every step, and no temporary file is left |
| RegistryStores.FileRegistry.Save | internal/supervision/registry_store.go:109-126 | Succeeds exactly for an absolute path, a valid registry and no fault; replaces the file also when only the last flush fails |
| RegistryStores.FileRegistry.Load | internal/supervision/registry_store.go:57-89 | Succeeds exactly for an absolute path and a loadable file; a missing file is an empty registry |
| RegistryStores.FileRegistry.LoadAndReconcile | internal/supervision/registry_store.go:91-107 | Loads, reconciles, and writes back exactly if something was interrupted |
| RegistryStores.CrashRecovery | internal/supervision/registry_store.go:91-107 | Coming up on an image succeeds without a fault, leaves the image of the registry or of its reconciliation, and reconciling later changes nothing more |
| OutputBuffers.NewOutputBuffer | internal/supervision/output.go:46-59 | A buffer is created exactly if both limits are positive, and stands for an empty log |
| OutputBuffers.OutputBuffer.Capture | internal/supervision/output.go:71-95 | The log grows by the written bytes on their stream and nothing else, in chunks as large as fit, and the buffer keeps its longest fitting suffix |
| OutputBuffers.OutputBuffer.EnforceLimits | internal/supervision/output.go:124-130 | Drops from the front exactly as much as the limits require |
| OutputBuffers.OutputBuffer.Tail | internal/supervision/output.go:97-122 | For a cursor at zero the newest kept events, otherwise those behind the cursor from the oldest kept one on, never more than the limit; truncated exactly if something was dropped |
| OutputBuffers.DiscardedIsLongestFit | internal/supervision/output.go:124-130 | What is kept is the longest suffix that fits both limits, and there is only one |
| OutputBuffers.DiscardedGrows | internal/supervision/output.go:124-130 | What was discarded stays discarded, however the log grows |
| OutputBuffers.NewestIsKept | internal/supervision/output.go:69-95 | The newest chunk is never dropped |
| OutputBuffers.KeepsWhatFits | internal/supervision/output.go:124-130 | What is kept respects both limits, and one event more would not |
| LogFollower.RunProcessLogs | internal/cli/cli.go:395-431 | The loop prints, ends and reports exactly as the follower it is proved against |
| LogFollower.FirstPollShows | internal/cli/cli.go:395-431 | A poll is answered with the newest kept events for a cursor at zero and with those behind it otherwise, as one document or line by line, and the next poll goes on behind the last line |
| LogFollower.EndsWithFailure | internal/cli/cli.go:398-407 | The loop ends with an error exactly at the first poll that fails, unless a follower was interrupted; a document is written exactly for a first answer in that mode |
| LogFollower.FollowerMissesNothingKept | internal/cli/cli.go:395-431 | What every single poll prints continues what was printed before, and skips a number only if the buffer had discarded it when that very poll was made |
| LogFollower.PrintsInOrder | internal/cli/cli.go:411-416 | Printed numbers strictly increase, so nothing is printed twice |
| LogFollower.FollowerCatchesUp | internal/cli/cli.go:395-431 | Enough polls of a log that stopped growing bring the cursor to its end, whatever the limit per poll |
| LogFollower.AnnouncesFirstLoss | internal/cli/cli.go:408-410 | The notice of truncation is given exactly if the first answer had lost something |
| SecretFilters.SecretFilter.Write | internal/identity/executor.go:205-228 | A write passes on the drained pieces, or as many as the writer took before it failed, and retains fewer bytes than the secret has |
| SecretFilters.SecretFilter.Flush | internal/identity/executor.go:229-233 | Passes on what was retained |
| SecretFilters.FilterAll | internal/identity/executor.go:161-168 | A child's writes and the flush, which comes also after a failed write: all of it arrives exactly if the writer takes so many pieces, and otherwise the start of it |
| SecretFilters.DrainIsFinal | internal/identity/executor.go:205-228 | What a write passed on is the start of the batch redaction, whatever is still to come |
| SecretFilters.StreamingIsBatch | internal/identity/executor.go:161-168 | However the input is cut into writes, the output is the batch redaction of all of it |
| SecretFilters.MarkerStandsIn | internal/identity/executor.go:205-228 | In the batch redaction the marker stands where the secret first occurred, and what follows is redacted afresh |
| SecretFilters.LeaksExactly | internal/identity/executor.go:196-233 | Some input brings the secret out again exactly if the secret is part of the marker, begins like its end, or ends where the marker begins without occurring earlier |
| SecretFilters.RedactionHides | internal/identity/executor.go:196-233 | A secret without brackets never comes out of any input exactly if it is not part of the marker |
| SecretFilters.BracketedSecretLeaks | internal/identity/executor.go:216-219 | Secrets that begin with the marker's closing bracket come out of some inputs |
| FrameStreams.FrameWriter.Write | internal/identity/stream.go:41-52 | One write becomes its frames in order, or as many as the connection took before it failed |
| FrameStreams.FramesCarryAll | internal/identity/stream.go:41-52 | The frames of a write carry all of it; each holds 32 KiB except the last, and none is empty |
| FrameStreams.ReadStream | internal/identity/stream.go:76-102 | The loop passes on and returns what the frames say, up to the exit, a foreign frame, a failing sink or the end, also when both streams go to one sink |
| FrameStreams.ReadEnds | internal/identity/stream.go:76-102 | Reading ends at the first frame that is an exit, or of no stream, or that its full sink does not take, or where the frames end, and the answer says which |
| FrameStreams.ReadsToTheEnd | internal/identity/stream.go:76-102 | With sinks that take every frame, one for each stream or one for both, the reader delivers all frames and returns the exit |
| FrameStreams.DeliversFromTheStart | internal/identity/stream.go:76-102 | Whatever the sinks take and wherever the connection closes, frames are delivered from the start and in order, and a missing exit is reported |
| FrameStreams.WireCarriesRedaction | internal/identity/executor.go:161-168 | At every moment of any schedule of writes and flushes to both streams, the frames of a stream carry the start of its batch redaction, and all of it once it is flushed |
| FrameStreams.PipelineDelivers | internal/identity/executor.go:161-184 | For any chunking, framing and schedule of two filters that share a connection, the reader delivers exactly the batch redaction of each stream and returns the exit code |
| FrameStreams.PipelineCutShort | internal/identity/stream.go:76-81 | Wherever the schedule stops, the connection closes or a sink fails, what was delivered is the start of each stream's batch redaction, and the reader is told |
| Sanitizers.SanitizeOutput | internal/terminalstyle/output.go:11-61 | The scanner ends and produces the kept pieces of its input |
| Sanitizers.ScannerIsLawful | internal/terminalstyle/output.go:11-80 | A function on texts is the scanner exactly if it obeys five laws, about bytes, escapes, control sequences, operating system commands and incomplete ends; so the laws fix what comes out for every input |
| Sanitizers.EscapeIsDropped | internal/terminalstyle/output.go:46-48 | An escape that begins no longer sequence is dropped with the byte behind it, and nothing more |
| Sanitizers.IsValidSGR | internal/terminalstyle/output.go:73-80 | Digits, semicolons and colons only |
| Sanitizers.FixedPoints | internal/terminalstyle/output.go:11-61 | Sanitizing is idempotent, and its fixed points are exactly the texts made of plain bytes and complete styling sequences |
| Sanitizers.OnlyRemoves | internal/terminalstyle/output.go:11-61 | The output is a subsequence of the input |
| Sanitizers.CleanPrefix | internal/terminalstyle/output.go:11-61 | Clean text is kept whole, and what follows it is sanitized as if it stood alone |
| Sanitizers.ControlIsDropped | internal/terminalstyle/output.go:19-31 | A complete control sequence that is not a styling sequence leaves no trace |
| Sanitizers.CommandIsDropped | internal/terminalstyle/output.go:33-46 | An operating system command leaves no trace, with either terminator, whatever other escapes its body holds |
| Sanitizers.IncompleteIsDropped | internal/terminalstyle/output.go:15-32 | A control sequence that is not complete at the end of the input is not shown |
| Sanitizers.IncompleteCommandIsDropped | internal/terminalstyle/output.go:33-46 | Nor is an operating system command without a terminator |
| IdentityModels.PresetsGrow | internal/identity/model.go:32-48 | With the same exceptions each preset allows everything the one before it does |
| IdentityModels.PoliciesDecide | internal/identity/model.go:32-48 | Exceptions outweigh the preset either way; without one, read-only reads, collaborating leaves out merging, actions and personas, maintaining leaves out personas, and what is no operation is never allowed |
| IdentityModels.ValidStatesAreSafe | internal/identity/model.go:62-159 | What everything behind the validator relies on: names that are no flags, paths or several words, one-line texts, absolute clean roots, repositories with an owner and a name, known modes and presets, references that lead somewhere |
| IdentityModels.Validate | internal/identity/model.go:94-159 | The loops accept exactly the states with valid records, unique IDs and roots, and references to personas on the right host |
| IdentityModels.FindPersona | internal/identity/model.go:161-168 | Finds a persona exactly if there is one with the ID |
| IdentityModels.FindProject | internal/identity/model.go:170-180 | Finds a project by its ID, or without one by its root, exactly if there is one |
| IdentityStores.Store.Update | internal/identity/store.go:76-118 | A change is taken over exactly if it was made, the new state is valid, no project contains the store or the executable, and it was written; otherwise the state is untouched |
| IdentityStores.Store.Apply | internal/identity/service.go:106-196 | Every administrative change keeps the state valid, and is made in memory and in the file exactly as the model of both says |
| IdentityStores.ChangesAreExact | internal/identity/service.go:106-196 | Every change does to the lookups by ID exactly what it says and nothing else, and only imports and policies can be refused, for the reasons named |
| IdentityStores.StoreStaysSound | internal/identity/store.go:76-118 | In every history of changes, failures and restarts, memory and file are valid and no project contains the store or the executable |
| IdentityStores.WholeOrNotAtAll | internal/identity/store.go:76-118 | Memory and what a restart would load stay the same exactly in those histories in which no write of a change fails after the replacement |
| IdentityStores.PutFinds | internal/identity/store.go:120-131 | After setting a persona it is found under its ID, and every other ID leads where it led before |
| IdentityStores.PutProjectFinds | internal/identity/store.go:142-152 | After setting a project it is found under its ID, and every other ID leads where it led before |
| IdentityServices.Service.PrepareSession | internal/identity/service.go:222-253 | A new session has its project's primary persona and a backend its project accepts |
| IdentityServices.Service.InsertSession | internal/identity/service.go:254-267 | The second half of creating a session, after which the state may have changed |
| IdentityServices.Service.RevokeSession | internal/identity/service.go:199-210 | Removes a known session and closes its endpoint |
| IdentityServices.Service.SelectSessionPersona | internal/identity/service.go:269-292 | In a valid state it changes the persona exactly if the session exists and its project permits that persona now: the policy says so, it is the primary one or an alternative, and both are on the same host |
| IdentityServices.PersonasChangeByPermission | internal/identity/service.go:269-292 | In every history a session changes persona only by a selection of that persona for it, and only if the configuration of the time permits it |
| IdentityServices.PermittedPersonaIsTaken | internal/identity/service.go:269-292 | A permitted request for a persona is answered as done, and changes the persona of that session alone |
| IdentityServices.SessionsAreMadeExactly | internal/identity/service.go:222-253 | A request for a session is met exactly by the session that fits the project named, with its backend, status and principal |
| IdentityServices.SessionsLast | internal/identity/service.go:199-267 | A session that was inserted is there exactly until it is revoked or the service is closed |
| IdentityServices.EndpointsAreNative | internal/identity/service.go:254-267 | An endpoint accepts connections exactly for the sessions there are with a native backend |
| IdentityServices.Service.ActivateSession | internal/identity/service.go:294-301 | Activates a session only if it still exists |
| IdentityServices.Service.FindContext | internal/identity/service.go:303-334 | The lookup by session, project or root decides as the model does |
| IdentityServices.Service.HandleAgent | internal/identity/stream.go:141-172 | Handles one request under the session of its endpoint: the new state and the answer |
| IdentityServices.RevokedStaysRevoked | internal/identity/service.go:199-301 | With fresh IDs a revoked session never comes back, however activation and persona selection race with the revocation |
| IdentityServices.SessionsKeepIdentity | internal/identity/service.go:269-301 | A session keeps its project, backend and principal, and once active stays active |
| IdentityServices.ContextIsPermitted | internal/identity/service.go:303-334 | In a valid state a context is a configured project with one of its own personas, on its primary's host up to case, and the last lookup never fails |
| IdentityServices.ContextExactly | internal/identity/service.go:303-334 | In a valid state a request gets a project and a persona exactly if it may use them: by its session, or by ID or root for a project that needs no session |
| IdentityServices.AnswersAreExact | internal/identity/stream.go:141-172 | Every answer an agent can get, and exactly when it gets it |
| IdentityServices.HistoryContexts | internal/identity/service.go:303-334 | At any time of any history a successful context is permitted by the configuration of that time |
| IdentityServices.AgentsSeeTheirOwn | internal/identity/stream.go:141-172 | What an agent is shown, and what a command of its runs under, is the project and persona of its own session, without the root, and never a credential request |
| IdentityServices.AgentsAreConfined | internal/identity/stream.go:139-172 | Between two steps of the operator in any history, however agents connect and ask, nothing changes but the status of sessions they connected to and the persona of sessions they asked for, and that only to one that the policy, the alternatives and the host of the session's project permit |
| Catalogs.Authorize | internal/identity/catalog.go:63-195 | The loops decide as the model does, for any tables |
| Catalogs.CatalogIsNormal | internal/identity/catalog.go:63-195 | The arguments of an accepted command are, within the limits on arguments, accepted again as the very same command, and name the bound repository and no other |
| Catalogs.CatalogIsMonotone | internal/identity/catalog.go:63-195 | What a policy accepts, any larger policy accepts as the identical command |
| Catalogs.PermissionIsAllowed | internal/identity/catalog.go:81-85 | The permission of an accepted command is one the policy allows; only credential requests have none |
| Catalogs.PermissionsOpen | internal/identity/catalog.go:29-57 | Which commands each permission opens; all others only read |
| Catalogs.MethodsDecide | internal/identity/catalog.go:251-271 | Of the REST routes exactly those with GET need no more than reading, and the others what their method and path say |
| CatalogDecisions.CatalogAccepts | internal/identity/catalog.go:63-195 | A command is accepted exactly if it is small, its entry exists and the policy allows it, and its arguments spell known tokens that are good, agree with each other and are all that is needed; or if it asks to create a pull request interactively |
| CatalogDecisions.TokensAreSpelled | internal/identity/catalog.go:94-158 | Reading arguments undoes spelling them: long flags with their value behind an equals sign or in the next argument, and twelve short ones |
| CatalogDecisions.ShortStandsForLong | internal/identity/catalog.go:59-60 | Where an argument begins a token, writing a short flag for the long one it stands for changes neither whether the command is accepted nor what is run |
| CatalogDecisions.OtherDashesAreRefused | internal/identity/catalog.go:116-125 | Any other argument with one dash in front is refused there |
| Catalogs.RoutesAreUnique | internal/identity/catalog.go:251-271 | No request has two routes in the table |
| CatalogCommands.ParseArguments | internal/identity/catalog.go:94-158 | Reading from left to right and stopping at the first refusal is reading all tokens and checking them |
| CatalogCommands.ReadsBack | internal/identity/catalog.go:94-158 | Tokens that were read and written out are read again as the same tokens, without the repository |
| CatalogCommands.NormalForm | internal/identity/catalog.go:94-195 | Rewriting accepted arguments twice is rewriting them once |
| ApiCommands.AuthorizeAPI | internal/identity/catalog.go:273-336 | The loops over path, options, routes and fields decide as the model does |
| ApiCommands.ApiAccepts | internal/identity/catalog.go:273-336 | With unique routes a request is accepted exactly if it lies in the bound repository and the table has a permitted route for it that takes its fields |
| ApiDecisions.RequestsAreDecided | internal/identity/catalog.go:273-336 | A request is accepted exactly if its arguments spell options with one method at most, it names a place in the bound repository, and a permitted route for the two takes its fields; what is run is that request with host and method written out |
| ApiDecisions.PlaceIsLookedUp | internal/identity/catalog.go:277-287 | A path is looked up by its parts with numbers abstracted |
| ApiCommands.GoodFieldsMeaning | internal/identity/catalog.go:317-324 | Fields are accepted exactly if each assigns to a key of the route and none is assigned twice |
| Catalogs.EmptyListTakesEmptyName | internal/identity/catalog.go:317-324 | A route without fields takes no field, or exactly one whose name is empty |
| Catalogs.EmptyNameIsAccepted | internal/identity/catalog.go:273-336 | Reading the bound repository with such a field is accepted, with the field among the arguments |
| ApiCommands.ApiIsMonotone | internal/identity/catalog.go:312-336 | A larger policy accepts the same requests as the identical commands |
| GitCredentials.AuthorizeGitCredential | internal/identity/catalog.go:197-239 | The loop over lines decides as the model does |
| GitCredentials.FieldsAreTheirLines | internal/identity/catalog.go:203-229 | A request is read exactly if every line is a hint or a field and no field is given twice, in any order, and its fields are those of its lines |
| CredentialDecisions.CredentialsAreExact | internal/identity/catalog.go:197-239 | A credential is given out exactly for one get of at most 64 KiB whose lines can be read, over https, for the host of the persona, and for no repository but the project's |
| CredentialDecisions.LinesAreFound | internal/identity/catalog.go:206 | Lines are found again whether they end with a newline or with a carriage return as well |
| CredentialDecisions.RepositoryIsNamed | internal/identity/catalog.go:235 | Slashes around a path and one `.git` at its end do not matter |
| TuiOutputs.AppendEvents | internal/tui/model.go:552-565 | The loop takes over what is new of the sorted answer and keeps the newest 400 |
| TuiOutputs.AppendKeepsGood | internal/tui/model.go:552-565 | Numbers stay strictly increasing up to the last one seen, and only events of the answer are added |
| TuiOutputs.AppendTakesEverything | internal/tui/model.go:552-565 | Every new number of an answer is taken over before the list is cut |
| TuiOutputs.NewestAreKept | internal/tui/model.go:562-564 | Of all events the newest 400 are kept |
| TuiModels.SelectionChangeForgets | internal/tui/model.go:521-532 | Whenever the selected process changes, everything shown of the old one is forgotten |
| TuiModels.ShowsOnlyTheSelected | internal/tui/model.go:163-261 | For every series of messages, stale and out of order ones included, what is shown came in answers about the selected process, numbers strictly increase, at most 400 events are kept, and a selection is in range |
| TuiModels.AnswerShowsOneRun | internal/tui/model.go:534-565 | An answer brings its runtime and its new events; what was shown of another run is forgotten, so that numbers count from the start, and kept of the same run |
| TuiModels.ResultShowsOneRun | internal/tui/model.go:241-261 | The result of an action does so alike, and asks for a refresh |
| TuiModels.RedefinedRunKeepsOutput | internal/tui/model.go:534-541 | With a moment without any runtime in between, the events of one run stay beside the next |
| TuiModels.OnlyFreshAnswers | internal/tui/model.go:218-261 | An answer is taken over only if the same process was selected ever since it was asked for, and no action or reload was begun |
| TuiModels.StaleAnswersChangeNothing | internal/tui/model.go:218-245 | Every other answer changes nothing, except that an action is no longer pending |
| TuiModels.PendingMeans | internal/tui/model.go:472-493 | An action is pending from when it is begun until it is answered, and one is begun only when none is, and only one that makes sense |
| TuiModels.ReloadSelects | internal/tui/model.go:691-725 | A reloaded list keeps the selected process if it is still there, and otherwise selects the first and forgets |
| PersonaChoices.FreshID | internal/identityui/configure.go:259-263 | The search for an unused ID ends, with the first that is free |
| PersonaChoices.OfferPersonas | internal/identityui/configure.go:239-267 | Saved personas come first and unchanged, IDs stay distinct, every suitable account has a persona and only those without a saved one got a new one |

## Left out

- Nested registry records are values: the manager replaces a record where the original writes through a pointer to it, so aliasing between records is not captured.
- Nil maps and nil entries of a hand-built registry: a registry here has none.
- JSON encoding, file permissions, directory creation and the default path of the registry file: library calls, kept only as steps that may fail.
- Signals, kills and waits themselves: they are steps of the model, and a child left behind by a crash is counted but cannot be signalled.
- `Status`, `ListProjects`, `ListProcesses` and resolving the working directory: reading and formatting only.
- Windows paths and pipes, and container execution.
- Wrap-around of sequence numbers and of `start + limit`.
- Running `gh` and Git, checking the signed-in account, time limits, and the text of error messages.
- Catalogs.Authorize: which flags an entry lists and which fields a route takes is data taken over as it is; the theorems hold for any such lists, and only the permissions in the tables are characterised.
- IdentityServices.Service.HandleAgent: the run of an accepted command is not modelled, only under which project and persona it is run; authenticating the peer of an endpoint is not modelled.
- IdentityStores.Store.Apply: checking that a project root exists and resolving its links happen before the change reaches the model.
- Sanitizers.SanitizeOutput: stripping the remaining styling for a destination without colour is a library call.
- TuiModels.ShowsOnlyTheSelected: rendering, forms, workspaces, scrolling, notices and the badges in the process list are not modelled.
- Loading the identity file on start: a store starts with an empty or a valid state.
