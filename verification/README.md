# S3 MCP Relay: verified protocols

S3 MCP Relay runs a controller and a fleet of agents that never talk to each other directly: everything
passes through objects in one shared bucket. This project models the protocols on top of that bucket and
proves what they keep, in every run, with crashes and failed requests at every point between two writes.

The bucket is a map with strongly consistent reads and lists. A request may succeed, fail, fail after it took
effect, or be the last thing a process does; those fates, the clock, and the order in which concurrent requests
finish are parameters or nondeterministic choices, so every theorem holds for all of them. Where the program
mutates state step by step the model is a class whose methods are proved against a specification function or
relation; where several programs interleave it is a state machine over single steps, and lemmas show that the
class methods are runs of that machine. SHA-256 is an arbitrary function, sealing is an ideal cipher (an object
opens or it does not), SQLite tables are maps, and tags and nonces never repeat.

| file | what it models |
|---|---|
| Base, Protocol, Sorting | shared types, request outcomes, string order, a stable sort |
| LogKeys | names of log objects in the bucket |
| LogPipeline, LogDelivery, LogLoss, LogEnds, LogProgress | shipping a log from an agent's file to the controller's copy |
| Mailbox, Doorbell, Presence | commands, the polling loop, and processes that share an identity |
| Rollout, Update, UpdateLoop | publishing, sweeping and retracting a build; installing it on an agent |
| Chunks, Transfer | chunked file transfer |
| Cleanup | local log cleanup and the table of finished jobs |
| Base64, Pairing | enrollment codes |

## What the proofs found

- **A republished log chunk can lose bytes.** The shipper cuts a chunk up to the current end of the file, so
  after a crash or a failed put the chunk at the same offset can be longer. The log store skips it because its
  offset is below the recorded one, and it is then deleted; or the controller still holds the shorter one, ingests
  that, and its delete by key takes the longer one. README.md of the repository says a chunk is deleted only once
  the controller has synced it; the code does not ensure that. Prefix safety holds regardless. `LogDelivery.LossyRun`
  and `LogLoss.RaceLoses` are the two runs; in the second the shipper resumes at the recorded offset throughout.
  `LogLoss.StepLosesIff` says exactly which steps lose a byte, in the middle of whatever either side is doing. Chunks
  republished at their old boundaries with their old lengths are enough for a run to have none of them
  (`LogLoss.RegularRunsAreLossless`, `LogDelivery.NoGapNoLoss`).
- **One stranded source holds up the others.** A refresh stops at the first chunk that cannot be ingested. After a
  gap in one source, everything that follows it in the listing stays where it is, and so do the agents after this
  one and the status file, because the error leaves `refresh`. `LogProgress.GapHoldsUpOthers` is the gap at the
  front, `LogProgress.RefreshReachesHorizonIff` the exact condition under which a source is stored to the end of its
  chain.
- **A manifest put that is reported failed but landed can dangle.** If no other put of the same publication is
  acknowledged, the release's chunks are deleted under it. The contract of `Rollout.Controller.Publish` has the
  exact condition.
- **A state file that cannot be saved reopens rollback.** The comment in the source calls this harmless because
  the hash check recognises the installed build; that covers the same manifest, not an older one
  (`Update.RollbackClosedIff`, and `Update.RollbackHappens` for two checks that go back to an older build).
- **A failed drain hides a command.** The doorbell's tag is recorded before the drain, so a rung command can be
  passed over until the full-scan deadline (`Doorbell.FailedDrainHidesCommand`); after it the next drain takes it
  (`Doorbell.FailedDrainIsRecovered`).
- **Duplicate processes do not both suspend.** README.md of the repository says both do; the code lets only the
  higher id yield, and a process that reads back its own heartbeat resumes (`Presence.BothMayWork`). Commands
  without an address, and only those, can then run twice (`Mailbox.RunsTwiceIff`).
- **Cleanup under-reports.** The marker of an agent log matches the agent-log prefix and is scanned as a file. It is
  deleted with its log without being counted, although cleanup would not take it by itself, and the size pass goes
  on counting it as present (`Cleanup.Conservation`, `Cleanup.BytesAddUpIff`, `Cleanup.RunningExceeds`).

## Model

| member | source | states |
|---|---|---|
| LogKeys.MarkersAreNeverShipped | crates/agent/src/log_shipper.rs:62-91 | no name followed by the marker suffix is a source, so markers are never shipped |
| LogKeys.ShippedNames | crates/agent/src/log_shipper.rs:73-91 | a name is shipped if and only if it is a job log or an agent log, not a marker, at most 96 characters long, all of them allowed |
| LogKeys.AgentIds | crates/common/src/protocol.rs:602-613 | agent ids are exactly 1 to 64 letters, digits, dashes and underscores |
| LogKeys.PaddedOrder | crates/common/src/transport.rs:96-98 | zero-padded decimals of one width are ordered as strings exactly as the numbers are, and equal only for equal numbers |
| LogKeys.U64FitsTwentyDigits | crates/common/src/transport.rs:96-98 | every 64-bit offset fits the twenty digits of a key |
| LogKeys.PrefixSelectsAgent | crates/common/src/transport.rs:95-98 | a listing by an agent's log prefix returns exactly that agent's keys |
| LogKeys.KeyInjective | crates/common/src/transport.rs:96-98 | agent, source and offset can be read back from a key, even for sources with dashes and digits |
| LogKeys.KeyOrder | crates/common/src/transport.rs:96-98 | for one source, keys are ordered as strings exactly as their offsets are as numbers |
| LogKeys.SortedKeysGiveIncreasingOffsets | crates/common/src/transport.rs:674-683 | in a sorted listing with other sources in between, each source's chunks come in increasing offset |
| LogPipeline.OverwriteKeepsPrefix | crates/controller/src/log_store.rs:44-51 | writing any part of a slice of the log over a prefix of the log leaves a prefix that is no shorter |
| LogPipeline.StepKeepsSafe | crates/agent/src/log_shipper.rs:24-49 | one step of either side, a crash or a lost marker keeps the joint invariant of files, marker, bucket, copy and offset |
| LogPipeline.RunKeepsSafe | crates/controller/src/log_store.rs:27-58 | every run keeps that invariant |
| LogPipeline.PrefixSafety | crates/controller/src/log_store.rs:42-58 | in every reachable state the controller's copy is a prefix of the agent's file and at least the recorded offset long |
| LogPipeline.RunIsMonotone | crates/controller/src/log_store.rs:52-56 | the file only grows and the recorded offset never goes back |
| LogDelivery.StepKeepsTracked | crates/agent/src/log_shipper.rs:29-46 | with chunks republished at their old boundaries and lengths, every step keeps the chain of cuts: what was put is one partition of the log, and the bucket holds every part not yet recorded |
| LogDelivery.NoGapNoLoss | crates/controller/src/log_store.rs:42-56 | in every such run the gap branch is never enabled, and every byte below the marker or of a deleted file is in the copy below the offset or in a queued chunk |
| LogDelivery.SameLengthsSuffice | crates/agent/src/log_shipper.rs:42-46 | unless a marker is torn, republishing with the old length alone is enough for the same result |
| LogDelivery.RoundIsLosslessIff | crates/agent/src/log_shipper.rs:29-46 | with nothing queued and the controller idle, one undisturbed round of shipping and ingesting loses nothing if and only if the shipper resumes at the recorded offset or resends nothing beyond it; the state it leaves is spelled out |
| LogDelivery.StrandedStepIff | crates/agent/src/log_shipper.rs:26-46 | each step keeps a stranded source stranded if and only if it does not send the shipper back, which takes losing the remembered offset and the marker |
| LogDelivery.StrandedForGood | crates/controller/src/log_store.rs:42-43 | once the byte at the recorded offset is behind the shipper and nowhere in the bucket, no run closes the gap, restarts included, until the shipper goes back to that offset |
| LogDelivery.LossyRun | crates/agent/src/log_shipper.rs:31-43 | a run from the initial state that loses a byte and strands the source, with boundaries respected and one length changed |
| LogLoss.StepLosesIff | crates/agent/src/log_shipper.rs:26-46 | from every reachable lossless state, whatever either side is in the middle of, a step loses a byte if and only if it is a put that breaks the chain of queued chunks short of what the agent has given up, a marker past what the chain reaches, or the recording of a chunk whose end the queue does not carry on from |
| LogLoss.LosslessIff | crates/controller/src/log_store.rs:42-56 | every run is lossless throughout if and only if none of its steps is one of those |
| LogLoss.RegularRunsAreLossless | crates/agent/src/log_shipper.rs:29-46 | runs whose chunks are republished at their old boundaries and lengths have no such step |
| LogLoss.HorizonIsReach | crates/controller/src/status_cache.rs:79-82 | the chain's end is what the controller reaches: some run of its own steps records exactly that offset and none records more |
| LogLoss.LosslessKeepsAll | crates/agent/src/log_shipper.rs:42-46 | in a lossless state every byte below the marker or of a deleted file is in the copy or in a queued chunk still to be ingested |
| LogLoss.MarkerAfterPutLosesIff | crates/agent/src/log_shipper.rs:41-43 | the marker of a chunk just put loses a byte if and only if the chunk starts at no joint of the chain and ends past it |
| LogLoss.CurrentHandNeverLoses | crates/controller/src/log_store.rs:45-56 | recording loses nothing while the chunk queued under the key in hand has the length of the one in hand |
| LogLoss.RaceLoses | crates/common/src/transport.rs:685-688 | a run that loses a byte although the shipper resumes at the recorded offset: the controller ingests the shorter chunk it fetched before, and its delete by key takes the longer one |
| LogEnds.LogShipper.ShipOne | crates/agent/src/log_shipper.rs:29-46 | one pending file's turn, for every way it can end: the chunk at the cursor is in the bucket from the put on, marker and remembered offset move to its end only when nothing failed, a marker write that failed leaves an unreadable marker, and nothing else changes |
| LogEnds.LogShipper.ShipOnce | crates/agent/src/log_shipper.rs:24-49 | one call over any listing with any failures changes markers, offsets and bucket as specified; without failures every listed source with something left to ship has its next chunk in the bucket and marker and offset at the chunk's end |
| LogEnds.ShipAllAdvances | crates/agent/src/log_shipper.rs:24-49 | a call without failures advances each listed source with something left by exactly one chunk, and leaves marker, offset and chunks of every other source as they are |
| LogProgress.CallsShipAll | crates/agent/src/log_shipper.rs:24-49 | after any number of such calls the cursor has advanced by that many chunks or to the end of the file, and every byte it passed is in the bucket in its place |
| LogEnds.ShipAllIsRun | crates/agent/src/log_shipper.rs:24-49 | seen from any one source, that call is a run of the protocol that leaves the controller's half alone |
| LogEnds.LogStore.Ingest | crates/controller/src/log_store.rs:27-58 | refuses a bad agent id, source or payload and nothing else before the database; reports a gap exactly for an offset above the recorded one, with both offsets; skips a lower one; at the recorded offset it writes the data there and, when nothing fails, records its end; other sources are untouched |
| LogEnds.ScreenPassesIff | crates/controller/src/log_store.rs:28-33 | the checks made before the database, in characters; no chunk of a source the shipper sends is refused |
| LogEnds.LogStore.IngestPending | crates/controller/src/status_cache.rs:79-82 | ingests chunks in order and deletes each only after its ingest succeeded; the first failure ends the pass; how far it gets and what it records is the subject of PassHandlesIff and RefreshReachesHorizonIff |
| LogEnds.IngestIsRun | crates/controller/src/log_store.rs:42-57 | ingesting the chunk in hand is a run of the protocol on its source, acknowledged only if it returned Ok |
| LogEnds.TurnIsRun | crates/controller/src/status_cache.rs:80-81 | ingesting and acknowledging one chunk is a run that deletes it from the bucket only after an Ok |
| LogEnds.PassIsRun | crates/controller/src/status_cache.rs:79-82 | seen from any one source, a whole pass, chunks that fail a check included, is a run that deletes exactly the chunks of that source it acknowledged |
| LogEnds.PendingIsListed | crates/common/src/transport.rs:674-683 | fetching in the order of the sorted keys gives each source's chunks as a sorted listing of its queue |
| LogEnds.RefreshIsRun | crates/controller/src/status_cache.rs:79-82 | a whole refresh of an agent, from LIST to the last acknowledgement, is a run of each of its sources |
| LogProgress.PassHandlesIff | crates/controller/src/status_cache.rs:79-82 | a pass in which nothing fails gets past a prefix of the listing if and only if every chunk of it passes the checks and no source has a gap in it |
| LogProgress.RefreshReachesHorizonIff | crates/controller/src/status_cache.rs:79-82 | a refresh in which nothing fails records exactly the source's horizon if and only if, up to each chunk of its chain in the listing, every chunk passes the checks and no other source has a gap |
| LogProgress.ClearRefreshReachesHorizon | crates/controller/src/status_cache.rs:79-82 | so it does for a source among others without a gap |
| LogProgress.GapHoldsUpOthers | crates/controller/src/status_cache.rs:79-82 | with a gap at the front of the listing a refresh stores and deletes nothing, whatever is queued behind it |
| Mailbox.StepKeepsInv | crates/common/src/transport.rs:269-294 | every step of list, get, delete, execute or crash keeps the invariant that ties the bucket to what is claimed and executed |
| Mailbox.AtMostOnce | crates/common/src/transport.rs:256-294 | with one process at a time, restarts and crashes included, no command id is executed twice |
| Mailbox.AddressedAtMostOnce | crates/common/src/transport.rs:262-292 | with any number of processes an addressed command is executed at most once, only by its addressee, and taken by no other process |
| Mailbox.UnaddressedMayRunTwice | crates/common/src/transport.rs:273-291 | any readable unaddressed command and any two processes: a run in which each of them executes it |
| Mailbox.RunsTwiceIff | crates/common/src/transport.rs:262-292 | two given processes can both execute a command, and a command can be executed twice at all, if and only if it is readable and unaddressed |
| Mailbox.RunsOnIff | crates/common/src/transport.rs:273-291 | a process can execute a command if and only if it is readable and addressed to nobody or to that process |
| Mailbox.CommandBox.DrainCommands | crates/common/src/transport.rs:269-294 | a successful drain returns, each once and stably sorted by creation, exactly the readable commands under listed keys that are for nobody or for this instance, and removes them and the unreadable ones it could; a command for another instance stays; an error says which LIST, GET or delete failed and what is left, commands claimed before it being gone and not returned |
| Mailbox.ClaimsAre | crates/common/src/transport.rs:273-291 | which commands a drain claims and how many, told by readability and address alone |
| Mailbox.DroppedForGood | crates/common/src/transport.rs:256-261 | a command out of the bucket and in no process's hands, as a failed drain leaves it, is never executed |
| Sorting.SortBySorts | crates/common/src/transport.rs:292-293 | sorting by a key orders by it and keeps the same elements |
| Sorting.SortByIsStable | crates/common/src/transport.rs:292-293 | elements with equal keys keep their order |
| Doorbell.RunKeepsInv | crates/agent/src/main.rs:475-564 | every run of ring, head, list and drain keeps: what is queued was rung after the recorded tag, or is still to be taken, or the drain failed |
| Doorbell.NoLostWakeup | crates/agent/src/main.rs:480-505 | at the head of the loop with a rung command queued, the tag differs from the recorded one and the iteration must list, unless the last drain failed, and then the deadline is at most a full-scan period away |
| Doorbell.DeadlineRecovers | crates/agent/src/main.rs:480-505 | at a head past the deadline the loop must list, and from there a queued command stays queued only while no drain has finished and no head has passed, if drains do not fail |
| Doorbell.FailedDrainIsRecovered | crates/agent/src/main.rs:499-505 | at any head of any run, a full-scan period later the next drain that does not fail takes every queued command, a hidden one included |
| Doorbell.DrainEmptiesListing | crates/common/src/transport.rs:269-294 | a drain that does not fail takes every command that was queued when it listed |
| Doorbell.FailedDrainHidesCommand | crates/agent/src/main.rs:502-505 | a run in which a failed drain leaves a rung command queued and the next iteration passes it over |
| Doorbell.PollLoop.Tick | crates/agent/src/main.rs:475-573 | one iteration scans exactly when the doorbell is off, the deadline has passed, HEAD failed or the tag is new; only a scan moves the deadline; work resets the interval, idleness doubles it up to its limit |
| Doorbell.TurnIsRun | crates/agent/src/main.rs:480-573 | that iteration, drain included, is a run of the protocol from head to head with the same tag and deadline, and the queue it leaves |
| Presence.PresenceState.Observed | crates/agent/src/main.rs:245-260 | yields exactly to a peer with a lower id, remembers it, and reports it as news exactly when it differs from the last one |
| Presence.PresenceState.StandDown | crates/agent/src/main.rs:231-235 | an order to stand down changes nothing else |
| Presence.PresenceState.Snapshot | crates/agent/src/main.rs:222-229 | reports the conflict, and commands are refused exactly when the process has yielded or was told to stand down |
| Presence.RoundDecides | crates/agent/src/main.rs:362-398 | writing, reading and noticing a heartbeat from any state: the reader has a rival exactly if the beat is another's and not from before its own start, and is suspended exactly if that rival is lower or it stood down |
| Presence.RunKeepsInv | crates/agent/src/main.rs:366-413 | in every interleaving a process is yielded exactly when the last rival it saw has a lower id |
| Presence.LeastNeverYields | crates/agent/src/main.rs:237-260 | the least id is never yielded |
| Presence.SomeoneKeepsWorking | crates/agent/src/main.rs:237-260 | while all processes ever started run, one of them is not yielded |
| Presence.ExactlyOneYields | crates/agent/src/main.rs:237-260 | of two processes whose last observation was each other exactly one has yielded |
| Presence.StandDownIsPermanent | crates/agent/src/main.rs:231-235 | an ordered stand-down is never undone |
| Presence.BothMayWork | crates/agent/src/main.rs:372-391 | a run in which both processes work because one read back its own heartbeat |
| Rollout.Controller.DeleteRelease | crates/common/src/transport.rs:474-482 | only the release's chunks go, those whose delete fails stay, and success leaves no others |
| Rollout.Controller.Stage | crates/common/src/update.rs:359-381 | only chunks of the release appear, only those whose put took effect, and success means all are there |
| Rollout.Controller.StageOrUndo | crates/controller/src/main.rs:588-595 | after a failed upload the release's chunks are deleted, and what is left are uploads that were in flight and landed later |
| Rollout.Controller.Deliver | crates/controller/src/main.rs:597-639 | every manifest afterwards is a delivered copy or one from before; failed puts are counted, not fatal |
| Rollout.Controller.Publish | crates/controller/src/main.rs:581-647 | keeps every manifest's chunks present at every crash point and failure but one, with the exact condition for that one; success means chunks, manifests and a ledger row with the manifest's fields and any earlier completion are there; after a failure, if deletes work, what nothing names is gone but for uploads that land late |
| Rollout.Controller.Unpublish | crates/controller/src/rollout.rs:88-95 | removes manifests of the given agents only, and all of them exactly when every delete succeeds |
| Rollout.Controller.AllRun | crates/controller/src/rollout.rs:72-85 | complete exactly when every holder seen since the cutoff reports its manifest's hash, or reports no hash and its manifest's version |
| Rollout.Controller.Retire | crates/controller/src/rollout.rs:87-106 | manifests go before chunks, so a crash or failure between them keeps integrity |
| Rollout.Controller.SweepOne | crates/controller/src/rollout.rs:71-108 | one release's turn: retired when no holder is awaited, otherwise untouched, and the account of the sweep stays right |
| Rollout.Controller.Sweep | crates/controller/src/rollout.rs:43-110 | success removes a release's manifests and chunks exactly when no holder of it seen within the window reports another hash than its manifest's, or no hash and another version, and reports those releases, their count and their ledger rows; stopped anywhere it removes nothing else and keeps integrity |
| Rollout.SweptMeans | crates/controller/src/rollout.rs:72-85 | the same in the fields of agents and manifests: what is gone nobody waited for, and what is left after a success somebody does |
| Rollout.SweepRetires | crates/controller/src/rollout.rs:87-108 | one retired release takes the sweep's account of manifests, chunks, ledger and count one step further |
| Rollout.CompleteMeansAllRun | crates/controller/src/rollout.rs:72-85 | a release is finished exactly when no holder is still awaited |
| Rollout.UnnamedChunksDoNotMatter | crates/controller/src/rollout.rs:95-103 | chunks of a release no manifest names may come and go without breaking integrity |
| Rollout.Controller.Retract | crates/controller/src/main.rs:519-547 | success removes exactly the listed manifests and, if asked, the releases they named; all manifests go before any chunk, so integrity is kept when no agent outside the list holds a release named inside it, in particular for the whole fleet |
| Rollout.Controller.Operate | crates/controller/src/main.rs:519-647 | any history of publications, sweeps and retractions keeps integrity if every publication in it has an acknowledged manifest put, or none that lands while reported failed, and every retraction is of the whole fleet |
| Chunks.Assemble | crates/common/src/blob.rs:182-218 | rebuilds exactly when every chunk is found and written and length and hash match, and never writes more bytes than declared |
| Update.Host.Install | crates/common/src/update.rs:234-318 | at every point of death the old binary is in place or aside; succeeds exactly when every step it needs does, and then the verified and tried binary is in place |
| Update.Host.CheckAndApply | crates/common/src/update.rs:152-232 | which outcome a check returns, by target, hash, time and running jobs, and what it records; what each way of ending leaves on disk, when it completes, and that a failed attempt leaves no staged file if it can be removed |
| Update.LastNeverFalls | crates/common/src/update.rs:93-123 | the recorded time of the last accepted manifest never goes back, whatever fails |
| Update.ReplacingIsNewer | crates/common/src/update.rs:163-213 | a changed binary has the hash of a manifest for this target, newer than the record, judged while no job was running |
| Update.MonotoneUpdates | crates/common/src/update.rs:177-226 | while saves work, a binary is replaced only for a manifest newer than every one accepted before, and each replacement raises the record |
| Update.RollbackClosedIff | crates/common/src/update.rs:216-226 | after a replacement every manifest no newer than it is refused if and only if the state was saved; if not, an idle agent accepts every such manifest for its target with another hash that is newer than the old record |
| Update.RollbackHappens | crates/common/src/update.rs:177-226 | two checks, the first with a failed save, that install a newer build and then a strictly older one |
| UpdateLoop.SettledTagSoundness | crates/agent/src/main.rs:292-347 | whatever is put or deleted between HEAD, GET and outcome, a slot whose tag is settled is empty or holds a manifest that was read and finally judged |
| UpdateLoop.UndecidedIsRetried | crates/agent/src/main.rs:298-347 | a manifest never judged, deferred or failed is checked at the next answered HEAD |
| UpdateLoop.Loop.Tick | crates/agent/src/main.rs:298-348 | one iteration checks exactly when the tag is not settled and remembers it exactly for no manifest, up to date, wrong target or not newer |
| UpdateLoop.TickIsProtocol | crates/agent/src/main.rs:298-348 | that iteration is a run of the protocol with the same memory; after a final outcome the unchanged slot is not checked again |
| Transfer.MemoryBound | crates/common/src/blob.rs:42-53 | the uploads in flight are at most 64, at most those requested or one, and their plaintext and ciphertext stay within 256 MiB unless there is only one |
| Transfer.ConcurrencyIsLargest | crates/common/src/blob.rs:48-53 | one more upload in flight would exceed the request, the ceiling of 64 or the 256 MiB |
| Transfer.SplitJoins | crates/common/src/blob.rs:74-103 | the chunks of a file join to the file exactly for a positive size or an empty file, and all but the last are full |
| Transfer.CountIsExact | crates/common/src/blob.rs:281-285 | the announced chunk count is the number of chunks put, up to the 32-bit cap |
| Transfer.FileReader.Read | crates/common/src/blob.rs:223-233 | a read returns any number of bytes that fit, at least one before the end of the file |
| Transfer.FileReader.Fill | crates/common/src/blob.rs:220-233 | whatever short reads return, the buffer is filled or the file has ended |
| Transfer.Uploader.Await | crates/common/src/blob.rs:93-107 | in any completion order, waits until few enough are in flight and succeeds only if every awaited put did |
| Transfer.Uploader.PutNext | crates/common/src/blob.rs:79-90 | one turn: the next chunk is read, hashed, counted and put under the next index, and at the end of the file nothing happens |
| Transfer.Uploader.UploadChunks | crates/common/src/blob.rs:60-110 | puts each chunk once under its index, never exceeds the concurrency, and on success has put them all, successfully, with the file's length and hash |
| Transfer.Receiver.AssembleFile | crates/common/src/blob.rs:160-180 | the destination changes only to bytes of the declared length and hash, whatever the bucket holds |
| Transfer.RoundTrip | crates/common/src/blob.rs:112-218 | what was split with a positive size and is served chunk by chunk rebuilds to the same file |
| Transfer.Relay | crates/common/src/blob.rs:112-218 | upload and rebuild end to end: from whatever the bucket held, the receiver gets the file from the bucket the upload left |
| Cleanup.TrimIsShortestCut | crates/agent/src/jobs.rs:272-285 | the size pass removes exactly the removable ones of the oldest files up to one point; by its own running total it was over budget before each, and is within budget or out of files after the last |
| Cleanup.RunningExceeds | crates/agent/src/jobs.rs:272-284 | that running total exceeds the bytes really left by those of the markers deleted during the pass |
| Cleanup.OldestFirst | crates/agent/src/jobs.rs:274-284 | nothing the size pass removes is newer than a removable file it leaves |
| Cleanup.CleanupPostcondition | crates/agent/src/jobs.rs:260-286 | when removals succeed no unprotected file at or past retention is left, and the rest fits the budget or is all protected |
| Cleanup.OnlyUnprotectedGo | crates/agent/src/jobs.rs:262-284 | what goes is unprotected, or is the marker of an unprotected log that goes; what is counted was acknowledged in full, has no running job and is no agent log younger than an hour |
| Cleanup.CleanupLosesNothing | crates/agent/src/jobs.rs:252-285 | every byte of a source cleanup removes is at the controller or in the bucket, with chunks republished at their old boundaries and lengths |
| Cleanup.JobManager.Cleanup | crates/agent/src/jobs.rs:236-287 | what goes and is no marker was acknowledged in full, has no running job and, as an agent log, was idle for an hour, and within the budget it is past retention; what goes before its retention is no newer than what may go and stays; when removals succeed everything that may go and is past retention goes, and the rest fits the budget or may not go |
| Cleanup.CleanedMeans | crates/agent/src/jobs.rs:260-286 | the same of the specification of the two passes, entry by entry |
| Cleanup.Conservation | crates/agent/src/jobs.rs:260-286 | counted bytes, bytes left, and bytes of scanned markers that went uncounted with their logs add up to the initial ones; the same for the numbers of files |
| Cleanup.BytesAddUpIff | crates/agent/src/jobs.rs:260-286 | the two reported numbers alone add up if and only if no removed log had a non-empty marker among the scanned files |
| Cleanup.MarkerGoesUncounted | crates/agent/src/jobs.rs:248-268 | a shipped agent log and its marker: both go, the marker although protected, and its byte is not reported |
| Cleanup.JobManager.RetentionPass | crates/agent/src/jobs.rs:260-271 | counts only acknowledged files at or past retention whose job is not running and that are no agent log younger than an hour, and when removals succeed takes all of them, with their markers |
| Cleanup.RetentionIsExpired | crates/agent/src/jobs.rs:260-271 | the first pass counts only files that may go and are at or past retention |
| Cleanup.JobManager.SizePass | crates/agent/src/jobs.rs:272-285 | goes over what is left, oldest first, and removes what the specified pass removes |
| Cleanup.JobManager.Prune | crates/agent/src/jobs.rs:290-306 | keeps all running jobs and the 50 most recently finished ones; a missing finish time counts as zero |
| Cleanup.PruneResult | crates/agent/src/jobs.rs:299-305 | dropping the first finished jobs in order of time leaves the right number, drops only finished ones, and none newer than one it keeps |
| Base64.RoundTrip | crates/common/src/pairing.rs:59-64 | a text decodes to given bytes exactly when it is their encoding |
| Base64.PaddedRoundTrip | crates/common/src/pairing.rs:51-69 | the same with canonical padding |
| Base64.EncodeIsRfc | crates/common/src/pairing.rs:58 | character k of an encoding is the entry of the alphabet printed in RFC 4648, sections 4 and 5, for bits 6k to 6k + 5 of the bytes, and there are as many as the bits need |
| Pairing.EncodeEnrollment | crates/common/src/pairing.rs:49-59 | builds the code of a valid name and a 32-byte key, and fails for anything else |
| Pairing.TrimIsMiddle | crates/common/src/pairing.rs:51-62 | trimming takes white space off both ends and nothing else, until neither end is any |
| Pairing.DecodeInvertsEncode | crates/common/src/pairing.rs:49-71 | decoding the code of a name and key gives the name and the trimmed key |
| Pairing.EncodeInvertsDecode | crates/common/src/pairing.rs:61-71 | every code that decodes is, trimmed, the code of what it decodes to |
| Pairing.CodesAreUnique | crates/common/src/pairing.rs:49-59 | two enrollments with the same code are the same enrollment |

## Left out

- Power loss: a crash is the death of a process; what it wrote to its own files stays, except where a step says otherwise.
- `LogPipeline.PrefixSafety`: the agent's file is append-only while it exists; a file truncated or replaced under the same name is not modelled.
- `LogEnds.RefreshIsRun`: no other request falls between the LIST and the GETs, and no GET fails; the protocol has both, as steps of the agent and as an abandoned pass. Logs are under 2^63 bytes.
- `LogDelivery.RoundIsLosslessIff`: one undisturbed round from an idle state only; interleaved rounds are the subject of `LogLoss.StepLosesIff`.
- `Rollout.Controller.Stage`: puts chunks one after another in any order; that they overlap is modelled in Transfer, and puts in flight when another fails are those that may land late.
- `Rollout.Controller.Operate`: publications, sweeps and retractions do not overlap and there is one controller; what one unsound publication or partial retraction breaks is in the contracts of Publish and Retract.
- `Rollout.Controller.Sweep`: releases are visited in any order and one manifest read per agent either works for all or ends the sweep.
- `Cleanup.JobManager.Cleanup`: a file does not grow between the scan and its removal, nobody else removes files, and which names count as logs is given with the entries.
- `Cleanup.CleanupLosesNothing`: no job starts during a cleanup, and the hypothesis on republished chunks is that of `LogDelivery.NoGapNoLoss`.
- `Update.Host.CheckAndApply`: the files beside the binary are three names in one directory; permissions are only an operation that may fail, and the smoke test is a predicate of the file tried.
- `UpdateLoop.SettledTagSoundness`: an old sealed manifest restored byte for byte would bring back its tag; tags here never repeat.
- `Doorbell.PollLoop.Tick`: intervals are whole numbers, and sending responses is part of the mailbox model's execution step.
- `Transfer.Uploader.UploadChunks`: a chunk's put takes effect when it is started or not at all; nobody reads the chunks before the upload returns.
- Announcements of deferred and skipped updates, the event ring, metrics and status rendering: bookkeeping for display.
- The shared area (`share_put`, `share_get`, `sweep_shares`, `share_key`): its assembler is the loop of Chunks; the rest repeats publish and sweep with weaker promises.
- `await_response` and `take_encrypted`: a bounded poll and a get-then-delete already present in the mailbox model.
- Automatic publishing (`check_for_release`, `already_published`), target detection, and configuration: each is one decision.
- Job states beyond running and finished, child processes, timeouts and cancellation: operating system behaviour.
- Path confinement, allowlists and environment filtering of the executor: these rest on a real file system.
- Cryptography, TLS, the AWS SDK and SQLite: library code.
