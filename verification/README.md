# Verification of the app-server's coordination code

The app-server coordinates workers, sessions, virtual machines and retries that all interleave on one event
loop, over files and shared buffers. This project models that coordination code in Dafny and proves what it
keeps over every interleaving. `dafny verify dfyconfig.toml` checks everything.

Most parts come as a pair. One module describes a part as a step system on values: a state, the steps of the
protocol (one stretch of code between two awaits each), and theorems about the state after any sequence of
steps. A second module, or a class in the same one, updates fields in place the way the source does, and every
method is proved equal to its step, so that the theorems hold for it. The later, more algorithmic parts are
proved against an independent definition.

| Files | What they model |
|---|---|
| `DatabaseCoordinator`, `DatabaseProgress`, `DatabaseBroker` | the broker that serializes the workers' SQLite statements: lease, queue and drain; its journal is compared with the transactions SQLite itself would count |
| `DatabaseClient` | the worker's blocking request loop and its growing response buffer |
| `Base64`, `ModelBroker`, `ModelBrokerQueue` | the leased spool of model requests, its answerers, and server crashes between file writes |
| `FleetReservations`, `FleetService` | VM reservations in the shared configuration file, and the preparation of a session target |
| `WorkspaceTransfer`, `WorkspaceImport` | chunked staging to a guest, and the three-way import of its results |
| `SessionRuntime`, `SessionLifecycle` | one session runtime: launch, readiness, exit, bounded recovery, stop |
| `ReplayBuffer` | the bounded buffer of frames for clients that are not connected |
| `PromiseQueue` | promise chains: the per-workspace checkpoint queue and the Fleet lock |
| `DependencyClosure` | the worklist that copies installed dependencies to a guest |
| `StableJson` | the canonical JSON printer |
| `AutomationCalendar` | when an automation runs next |

Things taken as given: a SHA-256 digest identifies its content in the workspace transfer (the model broker's
theorems need no such assumption), lease ids are fresh, clocks do not run backwards, BEGIN is sent as a whole
`exec` statement, and no local edit falls into the transfer of the very file it concerns. Everything an await
may bring (SSH, VM inventory, spawned processes, SQLite's verdict on a statement) is an arbitrary outcome.

Three promises one might expect do not hold in the code. Each comes with runs on which it fails and with the exact
condition, for all runs, under which it does.

- The verdict on an ended session is not fixed. A stop request turns any other verdict into stopped, also when it
  reaches a runtime that has ended already; and where a stop met a task in flight, a failed startup or a failing
  first or restart launch turns stopped into failed. `SessionRuntime.VerdictChanges` says exactly which steps
  change a verdict, and `VerdictSettles` that it changes at most twice.
- Machine settings that a clone writes can be lost, although reservations cannot. `FleetReservations.CloneSettingSurvives`
  says exactly when: a configure with a stale snapshot has begun and holds the lock at that moment, and commits.
- Two monthly automation runs are not always one longer run. `AutomationCalendar.MonthlyRunsInParts` says exactly
  when they are.

## Model

| member | source | states |
|---|---|---|
| DatabaseCoordinator.SerialExecution | app-server/src/workerDatabaseBroker.ts:51-136 | On every interleaving at most one explicit transaction is open, it is the leased one, and until it ends no other connection's statement runs and no host operation starts |
| DatabaseCoordinator.Conservation | app-server/src/workerDatabaseBroker.ts:51-209 | Every request ever handed in was answered exactly once or waits exactly once; nothing else was answered or queued |
| DatabaseCoordinator.ArrivalOrder | app-server/src/workerDatabaseBroker.ts:51-136 | Requests run in arrival order; one that overtakes an older request ran inside the open transaction |
| DatabaseCoordinator.StateKeptWhileNeeded | app-server/src/workerDatabaseBroker.ts:123-145 | Between turns the map has an entry exactly while there is an owner or a queue, and a queue never outlives its owner |
| DatabaseCoordinator.NextKeeps | app-server/src/workerDatabaseBroker.ts:51-136 | Every single step keeps lease, conservation, order and fairness together |
| DatabaseCoordinator.UnregisteredKeeps | app-server/src/workerDatabaseBroker.ts:86-101 | A broker's exit keeps lease, conservation, order and fairness |
| DatabaseCoordinator.ExitRejectsOwn | app-server/src/workerDatabaseBroker.ts:86-101 | An exit answers, by a rejection, exactly the broker's own queued requests; all others stay queued and unanswered; only its own lease lapses |
| DatabaseProgress.NoDeadlock | app-server/src/workerDatabaseBroker.ts:86-136 | With workers that block on one request and stay on the owning connection: a queue implies an owner free to act, its next statement is answered at once, and giving up the lease answers the head of the queue and drains on |
| DatabaseProgress.BoundedWait | app-server/src/workerDatabaseBroker.ts:86-136 | No request starves: it is answered once leases were given up more often than older requests stood before it |
| DatabaseBroker.BrokeredDatabase.Handle | app-server/src/workerDatabaseBroker.ts:161-180 | Handling a message is the coordinator's step; a closed broker rejects it |
| DatabaseBroker.BrokeredDatabase.DispatchRequest | app-server/src/workerDatabaseBroker.ts:51-60 | Queues behind a foreign owner, otherwise runs and settles the map entry |
| DatabaseBroker.BrokeredDatabase.RunWhenAvailable | app-server/src/workerDatabaseBroker.ts:62-84 | A host operation starts at once or queues; closes it issues while starting are included |
| DatabaseBroker.BrokeredDatabase.Close | app-server/src/workerDatabaseBroker.ts:182-190 | Closing a broker is the exit step, drain included |
| DatabaseBroker.BrokeredDatabase.RejectPending | app-server/src/workerDatabaseBroker.ts:90-98 | The loop rejects the broker's requests in order and keeps the others in order |
| DatabaseBroker.BrokeredDatabase.ExecuteRequest | app-server/src/workerDatabaseBroker.ts:103-121 | Lease taken by a successful BEGIN, given up by the owner's successful end or close, followed by the drain |
| DatabaseBroker.BrokeredDatabase.ExecuteAndRespond | app-server/src/workerDatabaseBroker.ts:192-248 | A statement changes only the broker's own connections and succeeds only on an open one |
| DatabaseBroker.BrokeredDatabase.DrainPending | app-server/src/workerDatabaseBroker.ts:123-136 | The while loop runs the queue in order until someone owns the lease or nobody waits, and terminates |
| DatabaseClient.ResponseChannel.Request | app-server/src/workerDatabaseClient.ts:56-93 | Terminates; only reads run again, each time in a larger buffer, logarithmically often; the outcome is that of the last execution |
| DatabaseClient.ExpandedResponseBufferSize | app-server/src/workerDatabaseClient.ts:134-144 | The first doubling that holds payload and header, at most the maximum, at least double or the maximum; none exactly when the maximum is too small or the buffer was large enough |
| Base64.DecodeEncode | app-server/src/fleetModelBrokerQueue.ts:91-92 | Decoding an encoded byte sequence gives it back (section 4 of RFC 4648) |
| Base64.EncodeDecode | app-server/src/fleetModelBrokerQueue.ts:91-92 | Only canonical text decodes: what decodes is the encoding of its bytes |
| Base64.EncodedLength | app-server/src/fleetModelBrokerQueue.ts:90-92 | Four symbols for every three bytes begun |
| ModelBroker.SealedIsTheAnswer | app-server/src/fleetModelBrokerQueue.ts:64-127 | For any number of answerers: whatever can be read is the complete answer of the one holder that sealed it, whatever stale holders, repeated or misplaced chunks, lost replies and crashes did |
| ModelBroker.LiveHolderNeverFails | app-server/src/fleetRemote.ts:520-527 | While its lease lives, no call of a holder fails: chunks pass the encoding, size and sequence checks, and the seal its integrity check |
| ModelBroker.ResultIsStable | app-server/src/fleetModelBrokerQueue.ts:56-62 | Done is absorbing, and a result once read is read for ever, also after a crash between the writes of a seal and a second seal |
| ModelBroker.DoneHasResult | app-server/src/fleetModelBrokerQueue.ts:100-112 | A request is never marked done without a whole result behind it |
| ModelBroker.StrayRejected | app-server/src/fleetModelBrokerQueue.ts:88-127 | A call without a live lease, a repeated chunk and a chunk out of order change no file |
| ModelBroker.LateCall | app-server/src/fleetRemote.ts:478-529 | A call that reaches the guest after its holder gave up, any number of steps later, leaves the files as in the run where the holder gives up right after it |
| ModelBroker.ChunkFits | app-server/src/fleetModelBrokerQueue.ts:90-92 | 192 KiB encode to at most 256 Ki symbols and decode back |
| ModelBroker.NextFenced | app-server/src/fleetModelBrokerQueue.ts:64-127 | Every step keeps the fence: the part file of a live lease is exactly what its holder sent |
| ModelBrokerQueue.FleetModelBrokerQueue.Submit | app-server/src/fleetModelBrokerQueue.ts:38-54 | A new request can be leased at once and is leased to nobody; submitting again changes nothing in any state; no result appears or disappears |
| ModelBrokerQueue.FleetModelBrokerQueue.ReadResult | app-server/src/fleetModelBrokerQueue.ts:56-62 | Returns a result exactly when the state file says done |
| ModelBrokerQueue.FleetModelBrokerQueue.Poll | app-server/src/fleetModelBrokerQueue.ts:64-76 | Leases the first pollable request by name, or none when none is pollable |
| ModelBrokerQueue.FleetModelBrokerQueue.RequireLease | app-server/src/fleetModelBrokerQueue.ts:121-127 | Accepts exactly the unexpired lease of an unfinished request |
| ModelBrokerQueue.FleetModelBrokerQueue.RenewLease | app-server/src/fleetModelBrokerQueue.ts:78-81 | Succeeds exactly for a live lease; afterwards that lease and no other holds for a whole term, and no poll takes the request away before |
| ModelBrokerQueue.FleetModelBrokerQueue.BeginResult | app-server/src/fleetModelBrokerQueue.ts:83-86 | Empties the part file for the live holder only |
| ModelBrokerQueue.FleetModelBrokerQueue.AppendResult | app-server/src/fleetModelBrokerQueue.ts:88-98 | Appends exactly the decoded bytes, or changes nothing |
| ModelBrokerQueue.FleetModelBrokerQueue.SealResult | app-server/src/fleetModelBrokerQueue.ts:100-112 | Moves the checked part file to the result and finishes the request, or changes nothing |
| ModelBrokerQueue.AnswerBrokerRequest | app-server/src/fleetRemote.ts:520-527 | The upload loop of an undisturbed lease holder never fails, and exactly its answer can then be read |
| FleetReservations.ReservationsConsistent | app-server/src/fleet.ts:580-638 | On every interleaving: machines staging one workspace have one holder, and VMs are held only by an enabled primary |
| FleetReservations.ClaimSurvives | app-server/src/fleet.ts:580-673 | A reservation and its staged workspace survive configure, clone and all other sessions until the holder releases it |
| FleetReservations.NextGuards | app-server/src/fleet.ts:136-265 | No step gives a held VM to another holder; only a reservation takes a free one and only the holder's release frees it |
| FleetReservations.OthersKeepClaims | app-server/src/fleet.ts:580-673 | Whatever all others do, a session keeps exactly the VMs it holds, with the workspaces staged on them |
| FleetReservations.CloneSettingSurvives | app-server/src/fleet.ts:144-261 | A setting written by a clone, and not written again, is lost if and only if a configure with a stale snapshot has begun, holds the lock at that moment, and ends by its commit |
| FleetReservations.CloneSettingsLost | app-server/src/fleet.ts:144-265 | A run on which a machine setting written during a configure await is lost |
| FleetService.FleetFile.CommitReserve | app-server/src/fleet.ts:585-600 | The checks of reserve in order, and the merged claim it writes |
| FleetService.FleetFile.CommitRelease | app-server/src/fleet.ts:608-614 | Only the holder frees a VM |
| FleetService.FleetFile.CommitConfigure | app-server/src/fleet.ts:144-261 | With a snapshot current but for machine settings no VM changes hands and the file stays consistent; the machine set is free and has the new settings, all others those of the snapshot |
| FleetService.FleetFile.Configure | app-server/src/fleet.ts:136-265 | With its waits, and however stale its snapshot of machine settings: no session gains or loses a VM, and the file stays consistent |
| FleetService.FleetFile.CloneForSession | app-server/src/fleet.ts:675-735 | Success leaves this session holding exactly one more VM (or one it held), a new one staging its workspace and nobody else's staging it; failure none more |
| FleetService.FleetFile.ReleaseSessionTarget | app-server/src/fleet.ts:805-810 | Afterwards this session does not hold the VM, and holds all others it held |
| FleetService.FleetFile.PrepareSessionTarget | app-server/src/fleet.ts:741-803 | All or nothing among everybody else's runs: success holds the returned VM, failure none of the touched ones; at most one replacement |
| WorkspaceTransfer.StagedIsConcatenation | app-server/src/fleetWorkspace.ts:45-64 | Accepted writes leave the file equal to the chunks since its last offset-0 write |
| WorkspaceTransfer.GuestStage.WriteChunk | app-server/src/fleetWorkspace.ts:45-64 | Replaces, appends in sequence, or refuses and changes nothing |
| WorkspaceTransfer.GuestStage.Seal | app-server/src/fleetWorkspace.ts:66-74 | Accepts exactly a file with the given content |
| WorkspaceTransfer.GuestStage.SendChunks | app-server/src/fleetRemote.ts:154-159 | The chunk loop leaves the whole content on the guest, and the guest refuses none of it |
| WorkspaceTransfer.GuestStage.SendFile | app-server/src/fleetRemote.ts:154-161 | The same for empty files, and the seal accepts; other files stay |
| WorkspaceTransfer.GuestStage.StageAll | app-server/src/fleetRemote.ts:147-162 | Afterwards every source file is on the guest with the source's content, sent or skipped as equal |
| WorkspaceImport.EditsSurvive | app-server/src/fleetWorkspace.ts:152-193 | However imports, restarts and local edits interleave: a file differs from what the user left only if the user had left it as the baseline had it |
| WorkspaceImport.ImportKeepsEdits | app-server/src/fleetWorkspace.ts:155-192 | One import replaces at most an unmodified destination; otherwise the guest's file lies in the conflict or record tree |
| WorkspaceImport.RestartsConverge | app-server/src/fleetRemote.ts:190-226 | After any number of crashes at file boundaries the completion ends with the trees and the counts of a single run |
| WorkspaceImport.CrashConverges | app-server/src/fleetRemote.ts:190-226 | The same for one crash |
| WorkspaceImport.CountsAddUp | app-server/src/fleetRemote.ts:200-217 | Imported, conflicting and candidate files together are the exported files that differ and are not excluded |
| WorkspaceImport.LocalWorkspace.ImportGuestFile | app-server/src/fleetWorkspace.ts:152-193 | A failed or garbled transfer leaves no trace, a faithful one succeeds, and the file goes where the three-way decision says |
| WorkspaceImport.LocalWorkspace.CompleteOnce | app-server/src/fleetRemote.ts:190-226 | The loop's trees and its three counters at every point it may die, and at the end |
| SessionRuntime.WorkersAccountedFor | app-server/src/appServer.ts:1320-1404 | At most 1 + maxRecoveryAttempts workers; each was installed or told to stop; a stop reaches the installed one and leads to a verdict |
| SessionRuntime.EndedForGood | app-server/src/appServer.ts:1535-1658 | An ended runtime never starts or runs again, whatever was in flight |
| SessionRuntime.NothingInstalledAfterStop | app-server/src/appServer.ts:1373-1379 | Once a stop is requested no worker is installed any more |
| SessionRuntime.ReplacedWorkerIgnored | app-server/src/appServer.ts:1406-1545 | A spawned worker that is not the installed one never becomes it again, and its readiness, startup failure and exit at any later time change nothing but who is waited for |
| SessionRuntime.VerdictChanges | app-server/src/appServer.ts:1535-1762 | Exactly which steps change the verdict on an ended runtime, on any run, and to what: a stop request on one that is not stopped, an inspection after a diagnosed startup failure, a failing first or restart launch |
| SessionRuntime.VerdictSettles | app-server/src/appServer.ts:1535-1762 | The verdict changes at most twice, and not at all once it is stopped with nothing in flight |
| SessionRuntime.VerdictOverruled | app-server/src/appServer.ts:1545-1557 | A run on which a stopped runtime becomes failed and then stopped again |
| SessionRuntime.FailedLaunchOverrules | app-server/src/appServer.ts:1078-1080 | A run on which a stopped runtime becomes failed by its first launch |
| SessionRuntime.FailedRestartOverrules | app-server/src/appServer.ts:1280-1289 | A run on which a stopped runtime becomes failed by its launch after a server restart |
| SessionRuntime.StopOverrulesCompleted | app-server/src/appServer.ts:1740-1753 | A run on which a completed runtime becomes stopped |
| SessionRuntime.NextContinues | app-server/src/appServer.ts:1320-1762 | Every turn keeps the runtime sound, an ended runtime ended, a stop request standing and workers out after it, and the number of workers within its limit |
| SessionLifecycle.ManagedSession.LaunchPreparedSession | app-server/src/appServer.ts:1320-1366 | A turn that keeps what `NextContinues` says; afterwards a worker is under way exactly when the runtime is wanted |
| SessionLifecycle.ManagedSession.SpawnReturned | app-server/src/appServer.ts:1368-1403 | A turn that keeps what `NextContinues` says; the worker becomes the session's or is told to stop, and nothing else is in flight beside it |
| SessionLifecycle.ManagedSession.MarkRuntimeReady | app-server/src/appServer.ts:1406-1413 | Whoever calls it: an ended runtime is left as it is, and a state changes only to running for the installed worker with no stop requested |
| SessionLifecycle.ManagedSession.StartupFailed | app-server/src/appServer.ts:1433-1457 | A turn that keeps what `NextContinues` says; a failure is newly diagnosed only for the installed worker of a wanted runtime that has not ended |
| SessionLifecycle.ManagedSession.HandleSessionExit | app-server/src/appServer.ts:1541-1550 | A turn that keeps what `NextContinues` says; the worker is not the session's afterwards, and if it was, its inspection is the one thing in flight |
| SessionLifecycle.ManagedSession.ConcludeExit | app-server/src/appServer.ts:1551-1579 | A turn that keeps what `NextContinues` says; the runtime has ended or one more recovery is due, never both; completed only without stop and startup failure; after a stop, stopped unless a startup failure was diagnosed |
| SessionLifecycle.ManagedSession.RecoverSession | app-server/src/appServer.ts:1582-1590 | A turn that keeps what `NextContinues` says; a recovery is under way exactly when the runtime is wanted |
| SessionLifecycle.ManagedSession.ResumeRecovery | app-server/src/appServer.ts:1623-1625 | A turn that keeps what `NextContinues` says; the launch goes on exactly when the runtime is wanted |
| SessionLifecycle.ManagedSession.LaunchRejected | app-server/src/appServer.ts:1078-1080 | A turn that keeps what `NextContinues` says; no worker comes of it, and a first launch has failed for good |
| SessionLifecycle.ManagedSession.LaunchFailed | app-server/src/appServer.ts:1626-1635 | A turn that keeps what `NextContinues` says; the runtime has ended, and nothing is in flight any more |
| SessionLifecycle.ManagedSession.RequestRuntimeStop | app-server/src/appServer.ts:1740-1762 | A turn that keeps what `NextContinues` says; the installed worker is told, or a runtime without one is stopped, and no recovery is due |
| SessionLifecycle.ManagedSession.Close | app-server/src/appServer.ts:1982-2001 | A turn that keeps what `NextContinues` says; no worker is left untold, none will come, and a verdict stays |
| ReplayBuffer.BufferIsLongestFit | app-server/src/appServer.ts:1943-1960 | The buffer is the longest suffix of the frames queued since the last flush that fits both limits |
| ReplayBuffer.NothingLongerFits | app-server/src/appServer.ts:1945-1959 | No longer suffix fits |
| ReplayBuffer.FramesAccountedFor | app-server/src/appServer.ts:1928-1960 | Emitted frames are the delivered, the buffered and the dropped ones, in order and without repetition |
| ReplayBuffer.ReconnectReplays | app-server/src/appServer.ts:1906-1941 | A client that says hello receives the buffered frames in order, then every later frame in order |
| ReplayBuffer.SessionTransport.DeliverClientFrame | app-server/src/appServer.ts:1928-1936 | Sends to every ready open socket, or queues when there is none |
| ReplayBuffer.SessionTransport.FlushPendingClientFrames | app-server/src/appServer.ts:1938-1941 | Hands the whole buffer to one client and empties it |
| ReplayBuffer.SessionTransport.QueueClientFrame | app-server/src/appServer.ts:1943-1960 | The shifting loop computes the longest fitting suffix, its size and the number of drops |
| ReplayBuffer.SessionTransport.ClientHello | app-server/src/appServer.ts:1906-1908 | The first hello makes a client ready and flushes to it |
| PromiseQueue.OneAtATimeInOrder | app-server/src/workspaceCheckpoints.ts:40-64 | Work of one key runs one at a time in submission order, also when work fails |
| PromiseQueue.RemovedByItsTail | app-server/src/workspaceCheckpoints.ts:61-63 | A map entry is deleted only by its own operation, the last of the key, when all its earlier work is over |
| PromiseQueue.NeverStuck | app-server/src/workspaceCheckpoints.ts:40-64 | While a key has unfinished work, its first such operation runs or may start |
| PromiseQueue.OneSectionAtATime | app-server/src/fleet.ts:632-638 | Under the Fleet lock one section runs at a time, all earlier ones over and all later ones not |
| PromiseQueue.LockChain | app-server/src/fleet.ts:633-635 | Every section waits for the one submitted before it |
| PromiseQueue.CheckpointQueue.RunWorkspaceCheckpoint | app-server/src/workspaceCheckpoints.ts:40-64 | A submission may start exactly when all earlier work of its key is over |
| PromiseQueue.CheckpointQueue.StartWork | app-server/src/workspaceCheckpoints.ts:42-49 | When work starts, all earlier work of its key is over and no other work of the key runs |
| PromiseQueue.ReadyMeansFirst | app-server/src/workspaceCheckpoints.ts:40-49 | Waiting operations may start exactly when all earlier work of their key is over |
| PromiseQueue.CheckpointQueue.ClearEntry | app-server/src/workspaceCheckpoints.ts:62-63 | No key with unfinished work loses its entry, and no entry of another key changes |
| DependencyClosure.RuntimeCopy.CopyWorkspaceRuntime | app-server/src/fleetGuestInstall.ts:207-232 | Terminates on cycles; copies exactly the packages reachable from the workspace dependencies, each once; fails if and only if one of them is missing or has a dangling link |
| DependencyClosure.RuntimeCopy.ScanDependencyLinks | app-server/src/fleetGuestInstall.ts:249-259 | Enqueues the packages linked in a listing and its scope directories, in order, or fails on a dangling link |
| DependencyClosure.RuntimeCopy.EnqueueRoots | app-server/src/fleetGuestInstall.ts:212-224 | Enqueues exactly the roots; fails if and only if a dependency is missing or outside the workspace |
| DependencyClosure.RuntimeCopy.CopyPackage | app-server/src/fleetGuestInstall.ts:228-231 | Copies one package and enqueues what it links to |
| DependencyClosure.EmptyMeansDone | app-server/src/fleetGuestInstall.ts:225-232 | When the worklist is empty the copied packages are the reachable ones |
| StableJson.TextIsMeaning | app-server/src/workspaceDatabaseCompatibility.ts:128-136 | Two JSON values print alike if and only if they are equal up to member order and undefined members |
| StableJson.ValuesApart | app-server/src/workspaceDatabaseCompatibility.ts:128-136 | Unique readability: in any surrounding text a printed value ends where it ends |
| StableJson.QuoteTells | app-server/src/workspaceDatabaseCompatibility.ts:130-134 | A quoted string shows where it ends and what it was |
| StableJson.JoinTells | app-server/src/workspaceDatabaseCompatibility.ts:129-135 | A comma-joined list shows its pieces and its end |
| StableJson.SameKeysSameOrder | app-server/src/workspaceDatabaseCompatibility.ts:133-133 | Members with the same keys sort into the same places (section 3.2.3 of RFC 8785) |
| AutomationCalendar.NextAutomationRunAt | app-server/src/hostService.ts:2842-2858 | The next run is whole calendar months later at the same time of day, or an exact multiple of the unit; no run for an unreadable start |
| AutomationCalendar.MonthlyRunIsLater | app-server/src/hostService.ts:2846-2848 | A monthly run is later by exactly the summed lengths of `interval` consecutive months, 28 to 31 days each |
| AutomationCalendar.MonthsLaterFallsOn | app-server/src/hostService.ts:2846-2848 | It falls on the same day of the month, or as many days into the following month as the month was short |
| AutomationCalendar.MonthlyRunsInParts | app-server/src/hostService.ts:2846-2848 | Two monthly runs are one longer run if and only if the first keeps the day of the month, an equally long month makes up for it, or both are out of range |
| AutomationCalendar.MonthlyRunsDiffer | app-server/src/hostService.ts:2846-2848 | From 31 January 1970 two runs of one month end on 3 April, one of two months on 31 March |
| AutomationCalendar.MonthsLaterInParts | app-server/src/hostService.ts:2846-2848 | The same equivalence for days |
| AutomationCalendar.MonthFollowsMonth | app-server/src/hostService.ts:2847-2847 | The day numbers of section 21.4.1 of ECMA-262 agree with the calendar's month lengths |
| AutomationCalendar.ClampedInterval | app-server/src/hostService.ts:2826-2828 | The interval is the whole part of a finite number kept within 1 to 99, and 1 for anything else |
| AutomationCalendar.AutomationInterval | app-server/src/hostService.ts:2822-2830 | A schedule is read exactly from the five names, each as its own unit, with an interval of 1 to 99 |

## Left out

- Several databases: the coordinator is modelled for one database key; keys do not interact.
- The text of SQL: a statement is classified as begin, end or other, not parsed.
- SQLite's automatic rollback and savepoints: a transaction is open from its BEGIN to its own end, close or broker exit.
- The 120 s timeout of a worker's wait, after which a late answer may meet the next request in the reused buffer.
- Host operations: only their synchronous start is modelled, with the broker closes it issues; the remainder after an await is not isolated by the code either, and host operations started by host operations are not modelled.
- ModelBrokerQueue.FleetModelBrokerQueue.Submit: takes requests by identity, so the rejection of a reused id with different content, the size and count limits and a crash between the two writes of a submission are not modelled.
- ModelBrokerQueue.FleetModelBrokerQueue.SealResult: takes the digest and the check of the parsed result as given functions.
- Session tokens, authorization, identifier syntax, path and symlink checks, and file modes.
- Temporary files a crash leaves behind.
- FleetReservations: the settings of a VM are one opaque value; the validation of configure inputs and its other settings are one change without effect on owners.
- FleetService.FleetFile.PrepareSessionTarget: assumes that nothing is reserved or released concurrently in the name of the same session, and no failing write of the configuration file while releasing; VM start, SSH and inventory are arbitrary outcomes; the search for a replacement base is one.
- FleetService.FleetFile.CloneForSession: does not model the sharing of one pending clone by equal calls, the clone's settings or the search for a free name.
- WorkspaceTransfer.GuestStage.StageAll: says nothing of old guest files, which the code does not remove; assumes the source does not change meanwhile.
- WorkspaceImport: the sharing of one pending completion, the variant that relays through a remote app-server (same loop), the VM release after it, and the stored completed result that a further call returns.
- Listing directories, and guests that change a file during its transfer other than by a wrong chunk or length.
- SessionRuntime: one runtime per session; pending controls, diagnostics, activity log, browser sessions and the persistence of control and terminal states are not modelled.
- ReplayBuffer: the handshake frame sent before the replay, and sends to a socket that closes during its own hello.
- StableJson: array elements that are undefined, which are not JSON values, and numbers below their printed text.
- The field selection around the canonical printer.
- DependencyClosure: the copies of build output and manifests, and the symbolic links created for the roots.
- AutomationCalendar: parsing of the start time's text, and the choice of the latest attempt it is taken from.
- The discovery lock, HTTP and WebSocket routing, SSH, hypervisors and browsers, research-track scheduling and the stores: outside the coordination core.
- Validators, projections and prompt text: each fact follows from one branch.
