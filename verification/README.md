# A model of yllmd

yllmd is a local language-model daemon. It keeps one model process (the runner) resident, queues generation
requests for it, stores model files in versions, resolves request targets to models and downloads model
files. This project states in Dafny what five of its parts do, in the form the program gives them, and
proves what they promise, over every input, every interleaving and a crash after any file-system call.

`dafny verify dfyconfig.toml` verifies everything.

## The parts

**The runner link** (`Bytes`, `RunnerFrames`, `RunnerGenerate`, `RunnerMachine`, `RunnerLink`,
`RunnerSafety`, `RunnerTheorems`, `RunnerCooldown`, `RunnerHonest`, `RunnerProvider`, `RunnerStart`,
`RunnerProgress`, `RunnerResident`). Frames and Generate payloads are byte strings with an encoder and a
decoder; readers that may return any part of what was asked for or fail, and writers that may stop anywhere,
are classes. The provider, its requests, the two pipes and the runner processes are a step system. A process
says Ready once, then answers each Generate with chunks and one Completed or Error, takes its input in order
and ignores a Cancel while idle. It may also garble its output, say Ready again, exit or lose what is in its
pipe at any time. Contexts may end between any two steps. `RunnerProvider.Provider` is the imperative code;
its `history` field records the steps it takes and its `Valid()` says that the state is the one those steps
lead to, so the theorems about reachable states speak about the code. Whatever the code cannot decide itself
(a process that cannot be started, a write that fails, a time limit that is reached, the choice of a
`select`) is settled by `fate`, a function from the number of the step; `Valid()` also says that every step
taken is the one the program takes under that fate (`RunnerHonest`), so it cannot give up where it has no
reason to. `RunnerProgress` follows what happens when nothing goes wrong.

**The model store** (`StoreFiles`, `StoreTheorems`, `StoreContents`, `ModelStore`, `CatalogUpdate`). One
file-system call is one step. `StoreTheorems` and `StoreContents` treat an operation as the list of its
calls, cut anywhere; `ModelStore.Store` is the imperative code, where each call may fail and the machine may
crash before or after it, after which no call has an effect until `Restart`; a `steady` store has neither,
and there an operation fails only where it has a reason to. `CatalogUpdate` is what the daemon does with the
store to install or update a catalog model, and `update -all` from the inventory to the last plan.

**The generation queue** (`QueueMachine`, `QueueTheorems`, `QueueShutdown`, `QueueServer`). Any number of
enqueuing goroutines, one worker, cancellations, deadlines and the shutdown, with one step for each time the
mutex is held or the channel used. `QueueServer.Server` is the imperative code, tied to the step system in
the same way as the provider.

**Configuration and routing** (`Keys`, `Config`, `Registry`, `Fallback`, `ConfigGen`, `Updates`).
Validation, the two resolvers of model identifiers, target resolution, the fallback that is split between
the registry and the provider (`RunnerStart` is the provider's half), the generator, and the plans of
`update -all`. Loops over maps take the keys in an arbitrary order unless the program sorts them.

**The download** (`Download`). One attempt is a function of the two files on disk and of what the server and
the file system do; `Download.Downloader` is the imperative code, with the 64-bit types of the original.

## Where the code does less than it might

The model follows the code. Each of these has a theorem with the exact condition, and where the condition
can fail a theorem that the program meets the failing case.

- A job that waits in the queue can be missed by a cancellation and by the shutdown if and only if another
  job with the same id removes its entry in `queued` (`QueueShutdown.CoveredIff`; a run in
  `QueueShutdown.ReusedIdSurvivesShutdown`).
- A rollback can be carried out if and only if its record can be read, is about this model, and names a
  version or finds `current` in place (`StoreTheorems.RollbackRetryIff`). A rollback of a first activation
  that is interrupted after its first call fails from then on (`StoreTheorems.StoppedRollbackIsRefused`).
- An interrupted deletion leaves a version that can neither be activated nor installed again if and only if
  the model file was among the files removed and the directory was not (`StoreContents.HalfDeletedIff`).
  Deleting it again ends where an uninterrupted deletion does (`StoreContents.DeleteRetry`).
- A cooldown restarts the resident model itself if and only if `resident_model` is not written as the
  model's own name (`RunnerTheorems.ResidentCooledIff`; a run in `RunnerTheorems.ResidentIsCooled`, for
  accepted configurations in `RunnerResident.AliasedResidentIsCooled`).
- A model other than the resident that is left loaded has a cooldown pending if and only if the mutex was
  last taken by a run (`RunnerCooldown.CooldownPendingIff`). A request that is probed for and then refused
  for its input leaves one without (`RunnerCooldown.RefusedInputLeavesModel`).
- A stream that ends right after a frame header is reported as a clean end; every other cut inside a frame,
  and every read error, is reported as a failure (`RunnerFrames.TruncatedStream`,
  `RunnerFrames.BrokenStream`).
- A download takes the file names `/` and `..`, since they are their own base names; any other accepted name
  is a single path component (`Download.NameAcceptedIff`). Both name directories, so no attempt succeeds and
  none changes anything (`Download.CanSucceedIff`).
- Otherwise some later attempt of a download succeeds if and only if there is neither a final file that is
  not the artifact nor a partial file of the right size with the wrong digest (`Download.CanSucceedIff`). A
  finished download of another artifact under the same name is enough for the former
  (`Download.OtherArtifactBlocks`), wrong content of the right size for the latter
  (`Download.WrongContentSticks`).
- After an answer of 200 to a resumed download more is missing than before if and only if fewer bytes
  arrived than were there (`Download.ProgressIff`; an instance in `Download.ResumeCanLose`). A server that
  keeps doing so need never complete the download (`Download.RestartsNeedNotComplete`).

`docs/operations.md` lists "roll back if loading fails" as the last step of an update.
`installCatalogArtifact` does not do that, and neither does the model.

## Model

| member | source | states |
|---|---|---|
| Bytes.ValidUtf8IffEncoding | internal/providers/local/runner_protocol.go:180-186 | the byte check accepts exactly the encodings of sequences of scalar values (section 3 of RFC 3629) |
| Bytes.ValidUtf8Concat | internal/providers/local/runner.go:172-183 | two valid texts joined are valid, so the text built up from chunks needs no check of its own |
| RunnerFrames.ReadFrameIff | internal/providers/local/runner_protocol.go:134-216 | the reader takes a frame off a stream exactly when the stream starts with that frame's encoding and the frame is within the limits |
| RunnerFrames.WireFormat | internal/providers/local/runner_protocol.go:134-216 | the bytes of each kind of frame: its tag, the length and the counts least significant byte first, the texts |
| RunnerFrames.TruncatedStream | internal/providers/local/runner.go:726-742 | a stream cut at any byte yields exactly the frames wholly before the cut, in order; the cut is an error unless it is on a boundary or right after a header |
| RunnerFrames.BrokenStream | internal/providers/local/runner.go:726-742 | a stream that breaks off with a read error yields the same whole frames, and the break is always reported |
| RunnerFrames.DeliveredIsPrefix | internal/providers/local/runner.go:726-742 | for any bytes at all, the delivered frames are valid and re-encode to a prefix of them |
| RunnerFrames.TextIsUtf8 | internal/providers/local/runner_protocol.go:180-186 | the text of any list of accepted frames is valid UTF-8 |
| RunnerFrames.ReadFull | internal/providers/local/runner_protocol.go:148-162 | however reads are split, the bytes asked for, the right kind of end of file, or the read error |
| RunnerFrames.ReadRunnerProtocolFrame | internal/providers/local/runner_protocol.go:147-178 | the result and the rest of the stream are those of the specification, for every split into reads |
| RunnerFrames.ReadRunnerFrames | internal/providers/local/runner.go:726-742 | the goroutine delivers what the specification delivers and then stops |
| RunnerFrames.WriteAll | internal/providers/local/runner_protocol.go:242-254 | for every pattern of short writes, either everything is written or an error is returned and a prefix was |
| RunnerFrames.WriteRunnerEnvelope | internal/providers/local/runner_protocol.go:134-145 | a whole envelope on success, otherwise a prefix of one; nothing for an oversized payload |
| RunnerGenerate.RoundTrip | internal/providers/local/runner_protocol.go:80-125 | decoding an encoded request returns the same request, with signed topK, bit patterns, stops and prompt |
| RunnerGenerate.Layout | internal/providers/local/runner_protocol.go:104-125 | the place of every setting in an encoded request, then the stop strings with their lengths, then the prompt |
| RunnerGenerate.EncodableIff | internal/providers/local/runner_protocol.go:80-103 | a request is encoded exactly if its mode is known, its texts are UTF-8, no stop string is empty and the limits on prompt, count and total length are kept |
| RunnerGenerate.PayloadFits | internal/providers/local/runner_protocol.go:117-123 | the final length check never fails, so only the earlier checks can refuse a request |
| RunnerGenerate.AcceptedSettingsReachRunner | internal/protocol/protocol.go:376-412 | settings the protocol accepts are never narrowed: the runner decodes what the client meant, and only the prompt can be refused |
| RunnerGenerate.EncodeRunnerGenerate | internal/providers/local/runner_protocol.go:80-125 | the loops compute the specified payload or the first error in the code's order |
| RunnerSafety.ReachableInv | internal/providers/local/runner.go:121-218 | the invariant of provider, pipes and processes holds after every behaviour |
| RunnerTheorems.NoStaleTraffic | internal/providers/local/runner.go:121-218 | when the mutex is free and a session is kept, no Generate is outstanding, only Cancels are on stdin and no frame about any run is on stdout |
| RunnerTheorems.FramesAreOwn | internal/providers/local/runner.go:160-215 | every frame a run reads, or drains, is about that run |
| RunnerTheorems.OneGenerateOutstanding | internal/providers/local/runner.go:656-660 | no process ever has two Generates to serve |
| RunnerTheorems.LateCancelHarmless | internal/providers/local/runner.go:666-696 | a Cancel is taken while its own run is served or while the process is idle, never during a later run |
| RunnerTheorems.EventTrace | internal/providers/local/runner.go:112-117 | the events are a prefix of error, or started, deltas and one terminal event; all of it if the context never ends |
| RunnerTheorems.TextPreserved | internal/providers/local/runner.go:172-204 | completed carries exactly what the runner produced, valid UTF-8, and equals the joined deltas when streaming |
| RunnerTheorems.SingleLiveSession | internal/providers/local/runner.go:575-646 | at most one process is not closed, over all interleavings of probes, runs, Close and cooldowns |
| RunnerTheorems.GenerateGoesToOwnModel | internal/providers/local/runner.go:134-158 | a Generate is only written to a live, free process of the run's own model |
| RunnerTheorems.StaleCooldownDoesNothing | internal/providers/local/runner.go:540-573 | once a run has begun, a cooldown function scheduled before it changes nothing, whenever it runs |
| RunnerTheorems.CooldownOutcome | internal/providers/local/runner.go:540-573 | from the moment a cooldown function takes the mutex until it is free again, over any steps of others: nothing is changed, or the old process is closed and there is the resident's session or none in the end |
| RunnerTheorems.ResidentCooledIff | internal/providers/local/runner.go:540-573 | the resident is itself restarted exactly when resident_model is not its own name |
| RunnerTheorems.ResidentIsCooled | internal/providers/local/runner.go:540-573 | for any configuration with another resident_model there is a reachable state whose pending cooldown closes the resident |
| RunnerResident.SetResidentIsKnown | internal/models/registry.go:162-171 | in an accepted configuration a resident_model that is set names a model, and that is the resident |
| RunnerResident.OwnNameIff | internal/models/registry.go:162-171 | resident_model is the resident's own name if and only if it is the name of a model, not an alias and not empty |
| RunnerResident.AliasedResidentIsCooled | internal/providers/local/runner.go:540-573 | every accepted configuration with an alias or nothing as resident_model leads to the closing of its own resident |
| RunnerResident.EmptyResidentCanBe | internal/models/registry.go:162-168 | there is an accepted configuration without resident_model and with a resident |
| RunnerCooldown.CooldownPendingIff | internal/providers/local/runner.go:86-90 | with the mutex free, a loaded model that is not to stay has its cooldown pending if and only if the last to take the mutex was a run |
| RunnerCooldown.ArmedGivesUp | internal/providers/local/runner.go:549-572 | a pending cooldown that gets the mutex closes that model's process and starts the resident's |
| RunnerCooldown.RefusedInputLeavesModel | internal/providers/local/runner.go:121-125 | a reachable state in which a probed model stays loaded with no cooldown, its request having been refused |
| RunnerProvider.Provider.Run | internal/providers/local/runner.go:121-218 | the code of run starts with its own BeginRun and takes only steps of the machine; it ends with the mutex free and the run over or in error, and leaves a kept session quiet |
| RunnerProvider.Provider.CancelAndDrain | internal/providers/local/runner.go:666-696 | a finished drain keeps the very session it had or leaves none; an error is returned exactly when the session is gone and the caller reports it |
| RunnerProvider.Provider.DrainDispatch | internal/providers/local/runner.go:677-695 | a chunk is skipped, Completed keeps the session, anything else discards it |
| RunnerProvider.Provider.Dispatch | internal/providers/local/runner.go:169-215 | a chunk is added to the text and to the deltas, Completed and non-fatal errors keep the session, fatal errors and Ready leave none; the last event is the one named, unless the context has ended |
| RunnerProvider.Provider.SessionFor | internal/providers/local/runner.go:575-646 | a session of the same model is left as it is; otherwise the old one is closed and a new process is started exactly if it can be |
| RunnerProvider.Provider.Probe | internal/providers/local/runner.go:90-99 | the steps recorded are one probe for that model; it succeeds exactly in the circumstances of CanStart: its session is there already, or the process can be started and the first thing it says before the time is up is Ready; success leaves a session of the model, failure none |
| RunnerProvider.Provider.EndWait | internal/providers/local/runner.go:630-645 | the wait ends with the session exactly if the time limit is not reached and the first output is Ready; the start is abandoned without reading only at the limit or with nothing to read |
| RunnerHonest.ProbeHoldsMutex | internal/providers/local/runner.go:90-99 | the mutex is held between the first and the last of those steps, so that the last decides what the probe found |
| RunnerHonest.ProbeFindsIff | internal/providers/local/runner.go:575-646 | after the steps of a probe the session is there exactly in the circumstances of CanStart, whatever others do in between |
| RunnerProgress.UndisturbedRun | internal/providers/local/runner.go:121-218 | with nothing going wrong a request for a loaded model gets started, its deltas and completed with all the text, or the error, and the model stays loaded unless the error is fatal |
| RunnerProgress.UndisturbedProbe | internal/providers/local/runner.go:575-646 | with nothing going wrong a start ends with the model loaded |
| RunnerProgress.CancelledRunKeepsSession | internal/providers/local/runner.go:666-696 | a cancelled run whose runner confirms in time keeps its session and sends nothing more |
| RunnerProgress.FatalCodes | internal/providers/local/runner_protocol.go:233-240 | the error codes after which the process is given up |
| RunnerProvider.Provider.CloseProvider | internal/providers/local/runner.go:521-538 | no session and no timer are left |
| RunnerProvider.Provider.CooldownFires | internal/providers/local/runner.go:549-572 | another epoch: nothing changes; this epoch: the session is unchanged, gone, or the resident's |
| StoreFiles.SafeCallKeepsDir | internal/storage/models.go:135-438 | every single call the store makes keeps the directory good, so a crash after it does too |
| StoreTheorems.CrashAnywhere | docs/operations.md:21-31 | any list of such calls may be cut anywhere |
| StoreTheorems.ActivationCrashSafe | internal/storage/models.go:291-324 | after a crash anywhere in an activation current is absent or names a verified version and the rollback record is usable |
| StoreTheorems.RollbackCrashSafe | internal/storage/models.go:326-365 | the same for a rollback |
| StoreTheorems.RollbackInvertsActivation | internal/storage/models.go:291-365 | rollback after activation restores the previous current, absent or not, and every version |
| StoreTheorems.RollbackRetry | internal/storage/models.go:326-365 | a rollback to a version that was cut short can be repeated and ends in the same place |
| StoreTheorems.RollbackRetryIff | internal/storage/models.go:326-365 | a rollback can be carried out if and only if its record can be read and is about this model, and it names a version or current is there |
| StoreTheorems.StoppedRollbackIsRefused | internal/storage/models.go:326-365 | after a first activation, a rollback stopped after its first call leaves a readable record and a rollback that is refused |
| StoreContents.InstallCrashSafe | internal/storage/models.go:135-211 | a version appears as a whole with verified bytes or not at all; current and the record are untouched |
| StoreContents.InstallAddsBytes | internal/storage/models.go:171-194 | an installed version is the model file, its manifest and its checksum and nothing else, and the model's size grows by theirs |
| StoreContents.DeleteCrashSafe | internal/storage/models.go:367-397 | deleting an unprotected version may be cut anywhere, files in any order |
| StoreContents.DeleteModelCrashSafe | internal/storage/models.go:399-423 | with no active version everything may be removed in any order and cut anywhere |
| StoreContents.HalfDeletedIff | internal/storage/models.go:367-397 | a deletion cut anywhere, in any order of the files, leaves an unusable version if and only if the model file is gone and the directory is not |
| StoreContents.DeleteRetry | internal/storage/models.go:367-397 | deleting what is left, in any order, ends where the uninterrupted deletion does |
| StoreContents.DeletionReclaims | internal/storage/models.go:367-397 | the size of the model falls by exactly the size of the deleted version |
| ModelStore.Store.InstallLocalFile | internal/storage/models.go:135-211 | with faults and a crash anywhere: success means the whole version (and activation) with a matching checksum, failure leaves the version absent or whole and current old or new; on a steady store it succeeds exactly if the names and the checksum are given, the version is new and the source matches |
| ModelStore.Store.ActivateVersion | internal/storage/models.go:291-324 | success is exactly the activated directory; otherwise the store is still good; on a steady store it succeeds exactly if the version has a model file |
| ModelStore.Store.RollbackLatest | internal/storage/models.go:343-365 | success restores current, removes the own link and changes nothing else but the record, which is gone unless its removal failed; missing, torn and foreign records are refused without a change; on a steady store it succeeds exactly if the record is readable, of this model, and names a version or finds current |
| ModelStore.Store.DeleteVersion | internal/storage/models.go:367-397 | active and rollback versions are refused without a change; the reported bytes are exactly those lost; on a steady store every unprotected version can be deleted |
| ModelStore.Store.DeleteModel | internal/storage/models.go:399-423 | refused while a version is active; reports the whole size of what was removed; on a steady store it succeeds exactly if no version is active |
| ModelStore.Store.DirectorySize | internal/storage/models.go:440-457 | the walk adds up the regular files |
| QueueTheorems.ReachableInv | internal/daemon/server.go:592-643 | the invariant of channel, maps and worker holds after every interleaving |
| QueueTheorems.CancelledWhileQueuedNeverStarts | internal/daemon/server.go:770-783 | a job found in queued by a cancellation never reaches the provider, even if its id is used again |
| QueueTheorems.StartsInSendOrder | internal/daemon/server.go:630-643 | jobs start in channel order, at most once, and only ended ones are passed over |
| QueueTheorems.Bounded | internal/daemon/server.go:592-643 | the channel never exceeds its depth and active holds at most the job the worker runs |
| QueueShutdown.CoveredIff | internal/daemon/server.go:797-801 | every waiting job is in queued or cancelled throughout a behaviour if and only if no removal by id hits another live job's entry |
| QueueShutdown.UniqueIdsAreSafe | internal/daemon/server.go:603-613 | when ids are not reused no such removal happens |
| QueueShutdown.ShutdownLeavesAtMostOne | internal/daemon/server.go:117-130 | as long as no removal hits another live job's entry, after the shutdown step at most one accepted job is neither started nor cancelled: the one the worker holds |
| QueueShutdown.UniqueIdsLeaveAtMostOne | internal/daemon/server.go:117-130 | the same whenever no id is used twice |
| QueueShutdown.ReusedIdSurvivesShutdown | internal/daemon/server.go:630-632 | a concrete run in which a reused id leaves a live job on the channel after the shutdown |
| QueueServer.Server.EnqueueGenerate | internal/daemon/server.go:592-627 | accepted requests are sent, refused ones never are and their context has ended; shutting_down and duplicate exactly for what the reservation met; then queue_full exactly if the context was alive and the channel full, queue_timeout only if the context had ended; the position is the channel's length at the reservation plus one |
| QueueServer.Server.Reserve | internal/daemon/server.go:592-613 | which refusal is given when, that queued changes only for an accepted request, and the position |
| QueueServer.Server.Offer | internal/daemon/server.go:615-627 | the answer for the state met, together with the step taken: sent if there is room, timed out only if the context has ended, full only if it has not and there is no room |
| QueueServer.Server.WorkOne | internal/daemon/server.go:630-643 | the head of the channel is started or, its context ended, passed over; its context has ended afterwards |
| QueueServer.Server.Work | internal/daemon/server.go:630-643 | the loop takes the jobs in the order of the channel, one a turn as long as there is one, and starts or passes over each |
| QueueServer.Server.CancelRequest | internal/daemon/server.go:770-783 | true exactly for an active or queued id, whose context ends; a queued one is taken out and can no longer start; nothing else changes |
| QueueServer.Server.ShutDown | internal/daemon/server.go:118-129 | the loops over both maps end the context of every job in them |
| Config.Validate | internal/config/config.go:136-254 | no problem is reported exactly for the configurations described by Accepted |
| Config.IdentifierIsPathComponent | internal/config/config.go:16 | an identifier can serve as the name of a directory of its own |
| Config.ResolveModelReference | internal/config/config.go:299-311 | the model is one that goes by the identifier, none is found only if there is none, and the answer does not depend on map order when identifiers are unambiguous |
| Config.ClaimNext | internal/config/config.go:166-176 | claiming names and aliases one after the other succeeds exactly if no identifier occurs twice |
| Registry.ResolversAgreeIff | internal/models/registry.go:40-63 | registry index and configuration resolver agree on every identifier for all map orders if and only if no identifier refers to two models |
| Registry.BuiltIsCanonical | internal/models/registry.go:40-63 | for an unambiguous configuration any registry that can be built maps each identifier to the model it means |
| Registry.NewRegistry | internal/models/registry.go:40-55 | the maps filled in arbitrary order are the index of some order of the models |
| Registry.ResolveTargetWithAvailability | internal/models/registry.go:74-153 | the loops compute the specified resolution, errors included |
| Fallback.RoutesDoNotDangle | internal/config/config.go:198-247 | in an accepted configuration a route is meant exactly when it is named in full or has defaults, and its candidates are known and distinct |
| Fallback.FindsMeant | internal/models/registry.go:94-116 | the search finds the group and profile the target means, with both default flags, and fails exactly if it means none |
| Fallback.MeantProfiles | internal/models/registry.go:94-116 | which profile that is: the one named, the group's default, the default route's, or the default of its group |
| Fallback.FallbackPolicy | internal/models/registry.go:155-160 | fallbacks are used unless the policy is reject |
| Fallback.FallbackOutcome | internal/models/registry.go:118-152 | under use_fallback the model and its fallbacks are exactly the usable candidates of the profile meant, in order and each once; group, profile and the default and fallback flags are right; the only error is unavailability |
| Fallback.RejectOutcome | internal/models/registry.go:118-152 | under reject only the primary of the profile meant is considered |
| Fallback.ExactOutcome | internal/models/registry.go:82-92 | an exact target resolves to an available model that goes by the identifier, with no fallbacks, group or profile, or fails: unknown if there is none, unavailable otherwise |
| RunnerStart.Generate | internal/providers/local/runner.go:80-110 | the names are probed one after the other, others running in between, none after the first that comes up; each earlier probe found no session, the last a session of its model, and the request is the specified one for what the probes found |
| RunnerStart.KindStartRuns | internal/providers/local/runner.go:80-110 | when the first name's process can be started and says Ready in time, it is the only one probed and the one that runs |
| RunnerStart.ResolveAndStart | internal/daemon/server.go:577-582 | from a target to a process: the result is the one the fallback theorems speak of, for the models whose probes succeeded |
| Fallback.OrderedFallback | internal/providers/local/runner.go:80-110 | from target to process: the first candidate both enabled and able to start runs; the flag and FallbackFrom are right; an error exactly if there is none |
| Fallback.NoFallback | internal/models/registry.go:118-152 | exact targets and the reject policy never lead to another model |
| Fallback.EnabledFallback | internal/models/registry.go:65-72 | with the daemon's own notion of available, the first candidate that is not disabled in its configuration entry and comes up runs, and there is an error exactly if there is none |
| ConfigGen.Generate | internal/configgen/configgen.go:53-160 | succeeds exactly under the stated conditions, and each refusal gives a reason that holds; the result has a model, a group and a profile for each variant and nothing else; a group defaults to the resident if it is in it, otherwise to its first variant by id |
| ConfigGen.EachVariant | internal/configgen/configgen.go:87-105 | every variant becomes a model with its own id as catalog id and in its path, the command given or the default, threads and gpu layers as given, the context size of its level, and a profile of its own; nothing else becomes a model |
| ConfigGen.GeneratedIsAcceptedIff | internal/configgen/configgen.go:70-154 | a generated configuration passes validation if and only if all ids are identifiers and there is a socket path |
| ConfigGen.EmptyTargetIsResident | internal/configgen/configgen.go:148-154 | in the registry built from it a request without a target goes to the resident variant and nowhere else |
| ConfigGen.GroupTargetIsResident | internal/configgen/configgen.go:101-109 | a request that names only a group the resident is in goes to it too |
| ConfigGen.HypothesesCanBeMet | internal/configgen/configgen.go:53-160 | what is generated for one variant is accepted, has a registry and routes an empty target, so the routing theorems are not empty |
| Updates.CatalogUpdateStatuses | cmd/yllmctl/main.go:889-911 | one row for each installed model with an available artifact, sorted by name |
| Updates.RowsAre | cmd/yllmctl/main.go:889-911 | each row says what is installed and what the catalog has, and there is one for every installed model in the catalog |
| Updates.PendingCatalogUpdatePlans | cmd/yllmctl/main.go:918-926 | the plans for the pending rows, in order |
| CatalogUpdate.InstallCatalogArtifact | internal/daemon/server.go:294-418 | each refusal gives a reason that holds, and those before the download change nothing; an update that succeeds adds the revision, makes it current if asked and touches no other model, on a store that may fail or crash anywhere; on a steady store it succeeds exactly under GoesThrough: the request is admitted, and the download matches or the version that is there can be made current |
| CatalogUpdate.ListInstalledModels | internal/storage/models.go:258-289 | every model with a version once, as it is on disk; on a steady store it does not fail |
| CatalogUpdate.PlansAreDue | cmd/yllmctl/main.go:889-926 | the plans drawn up from any inventory of a store, rows sorted, are exactly those its files call for |
| CatalogUpdate.UpdateAllReachesFixpoint | cmd/yllmctl/main.go:857-866 | after any part of the plans has been carried out on the store, the plans drawn up anew are exactly the others; after all of them none |
| CatalogUpdate.RunCatalogActionPlans | cmd/yllmctl/main.go:946-985 | the plans are carried out in order up to the first that is refused, and for no other reason does it stop; the refusal is returned, touches no other model, and on a steady store was due |
| CatalogUpdate.TurnMakesNoDifference | cmd/yllmctl/main.go:946-985 | a plan goes through when its turn comes exactly if it would have gone through at the start |
| CatalogUpdate.UpdateAll | cmd/yllmctl/main.go:857-866 | when it gets through nothing is due for any model; on a steady store it gets through exactly if every update that was due could be done |
| Download.EqualFoldIff | internal/download/downloader.go:189-204 | comparing the hexadecimal texts without regard to case is comparing the digests |
| Download.FinalIsVerified | internal/download/downloader.go:56-139 | after any history of attempts against any server a final file has the catalog's size and digest, is never touched again, and the partial file is at most one byte too long |
| Download.AttemptIsSound | internal/download/downloader.go:56-139 | an attempt without a final file succeeds exactly if it leaves one |
| Download.AttemptSucceedsIff | internal/download/downloader.go:56-139 | an attempt without a final file succeeds exactly if no call fails and what the answer makes of the partial file has the catalog's size and digest, no byte more or less; that is then the final file |
| Download.OtherAnswersChangeNothing | internal/download/downloader.go:91-97 | an answer of another status, or none, leaves what was there |
| Download.NameAcceptedIff | internal/download/downloader.go:142-148 | an accepted file name is a single path component or the root |
| Download.PartialIsPrefix | internal/download/downloader.go:87-113 | with a server that follows sections 14.2 and 15.3.7 of RFC 9110 the partial file is a prefix of the content and a final file is the content |
| Download.ProgressIff | internal/download/downloader.go:98-113 | less remains after a delivery exactly if the range was honoured or more came than was there, and more exactly if less came |
| Download.ResumeCanLose | internal/download/downloader.go:98-106 | a faithful server can make more remain than before |
| Download.RetriesComplete | internal/download/downloader.go:56-139 | any history of a faithful server that never starts over, failures included, completes once it has one productive attempt more than the artifact has bytes |
| Download.RestartsNeedNotComplete | internal/download/downloader.go:98-106 | a faithful server that keeps starting over can be productive any number of times in vain |
| Download.CanSucceedIff | internal/download/downloader.go:56-82 | some attempt after some history succeeds if and only if the name is a file's and there is neither a final file that is not the artifact nor a full-sized partial file with the wrong digest |
| Download.WrongContentSticks | internal/download/downloader.go:111-134 | wrong content of the right size leads to the partial file in the way |
| Download.OtherArtifactBlocks | internal/download/downloader.go:55-66 | a successful download of one artifact blocks another under the same file name |
| Download.FaithfulNeverStuck | internal/download/downloader.go:56-139 | a faithful server with the right content never leads to such a file |
| Download.Downloader.Download | internal/download/downloader.go:29-140 | the code leaves the files and returns the result of the specification |
| Download.Downloader.PartialSize | internal/download/downloader.go:172-187 | an oversized partial file is removed, otherwise its size is returned |
| Download.Downloader.Transfer | internal/download/downloader.go:98-139 | the limit fits an int64 and the counter a uint64 for every accepted size |
| Download.Downloader.Copy | internal/download/downloader.go:111-124 | for every pattern of reads and short writes the file grows by exactly the bytes that arrived, and an error is seen exactly if the write fell short or the body broke off before the limit |

## Left out

- The encodings of JSON and YAML, sockets, permissions, process spawning, signals, standard error and HTTP
  transport: a configuration is taken as decoded, a response as a status and a body that may be cut short, a
  process as a party to the two pipes.
- Time: a timeout or a timer is a step that may happen at any moment.
- SHA-256: an uninterpreted function on byte strings. The checksum text is taken without surrounding space.
- Floating-point numbers: bit patterns; their range checks in `ValidateGenerate` are not part of this model.
- Prompt templates: long concatenations without state.
- The runner's epoch counter is a natural number: wrapping after 2^64 runs is not modelled.
- Timer.Stop: a stopped timer's function may still run in the model, which includes every behaviour of the program.
- RunnerProvider.Provider.Run: a frame loop is followed for a given number of turns (`patience`); a longer run is one with more patience, and a run that never ends is cut off while it waits.
- QueueServer.Server.Work: the worker's loop is likewise followed for a given number of turns.
- QueueServer.Server.EnqueueGenerate: resolving the target and writing the events to the client come before and after the part that is modelled.
- Terminal events at the client: `runJob` may choose the ended context over a waiting event, so a unique terminal event at the client is not promised.
- Unique queue positions: the position is read before the job is sent and may be shared.
- Text output of a streaming client: it receives the deltas and the completed text, as the code writes both.
- Names: model names and versions are taken to be ordinary single path components, and `cleanPathPart` to map them to themselves.
- ModelStore.Store.InstallLocalFile: the copy is what gets verified, and no other process writes to the temporary directory in between.
- RunnerFrames.ReadFull: a read that returns bytes together with an error is taken as two reads, the error coming with the second.
- ModelStore.Store.Perform: a crash loses no completed call; a file system that reorders calls or drops unsynced data is not part of this model.
- RunnerStart.Generate: the specified request is stated for names that stand for different models, as those of every resolved target do; a model listed twice may fail and then come up.
- ConfigGen.Generate: the path of a model file comes from a given function, since path joining is a library's.
- CatalogUpdate.InstallCatalogArtifact: how the license is looked up and recorded and the daemon found idle; both outcomes, the checksum and the file the download leaves are parameters, and the same for a model from the first plan to the last.
- Config.Validate: the texts and the number of the problems; only whether there are any is stated.
- Progress reports of a download, license records, remote providers, the fake provider, machine detection and the command-line interface.
