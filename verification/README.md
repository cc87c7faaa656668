# Coordination of detached rsync downloads

The program lets several web servers start rsync downloads in detached workers. All parties
coordinate through one Redis hash of reservations: a reservation holds a directory subtree, a worker
claims it once, keeps it alive with heartbeats, and finishes it. This project models that protocol
and the algorithms around it, and proves what it promises.

| file | models |
|---|---|
| `Paths.dfy` | cleaning of paths; the overlap tests of the Lua scripts and of the Go code |
| `SyncStore.dfy` | the store as a class over a mutable hash, one method per Lua script, and the relation `Step` that every script refines |
| `StoreRuns.dfy` | whole runs of scripts by any callers: exclusion, claims, stop flags, expiry |
| `Pruning.dfy` | lazy deletion of expired records against an ideal store |
| `RsyncProgress.dfy` | the streaming reader of rsync's output against a split of the whole stream |
| `RemoteTree.dfy` | the tree of remote directories and the "not synced" marking |
| `WorkerArgs.dfy` | the worker's command line |
| `SyncWorker.dfy`, `Fleet.dfy` | the worker's threads as small steps; the installation: one store, one clock, any number of workers, servers and removals |
| `WorkerInvariants.dfy`, `FleetInvariants.dfy`, `FleetRuns.dfy` | what every action keeps |
| `FleetTheorems.dfy`, `Shutdown.dfy` | traces, completion, absence of deadlock |
| `ProgressReports.dfy` | the progress the store shows is real progress of rsync |
| `WorkerReports.dfy`, `StopWitnesses.dfy` | which event ends a run, exactly; when a stop is reported as "cancelled", and runs in which it is not |
| `LeaseSafety.dfy`, `LeaseLimit.dfy`, `StopResponse.dfy`, `TimePasses.dfy` | timed runs: rsync never outlives its lease, the exact limit of that, the time a stop request takes, and that deadlines never block the clock |

The two main results are about whole runs of the installation. Without any assumption on time,
`FleetRuns.RunKeeps` gives the invariant behind the theorems on events, completion and cancellation.
With deadlines switched on, `LeaseLimit.LeaseLimitIsExact` says that no two rsync processes ever work
on overlapping directories if and only if the launch window plus five times the scheduling slack is at
most 103 seconds; the launch window is the time between the worker's last look at its context and the
start of rsync, in which the code does not look at the context again.

## What is assumed

- A script is one atomic step on typed records; the JSON encoding loses nothing.
- The store's clock never goes back and runs at the same rate as the workers' clocks.
- Reservation ids are fresh. Reserving callers pass "queued" or "removing", finishing callers pass
  "completed", "failed" or "cancelled".
- A store call that reports failure may have been executed never, once or several times, then or at
  any later time. A call that was answered with success is not executed again afterwards.
- Timed runs only: a call of the monitor comes back within five seconds of its start and the answer to
  a claim within five seconds of its execution; the monitor ticks every second; a signalled process
  group is killed after five seconds; each of these may be late by the slack.
- `Shutdown` only: a call begun on a cancelled context fails.

## Where the program's documentation and its code differ

The program's README says that a stop request is reported as "cancelled", not as an error. The code does
this under a condition, which is exact:

- If the worker's context is cancelled before the worker's last look at it, the run is reported as
  "cancelled" if and only if no store call of the worker comes back as failed and, in case rsync is just
  being started, the start does not fail; otherwise the report is "error"
  (`WorkerReports.ReportedAsCancelled`).
- If the cancellation comes after the last look, the run is never reported as "cancelled"
  (`WorkerReports.TooLateToReport`). `WorkerReports.CancelledExactly` joins the two for the whole run.
- A worker still before its last look 11 seconds and three slacks after the stop flag was set has its
  context cancelled (`StopResponse.StopIsReported`).

`StopWitnesses` has a run for each way to miss the condition: a failed start, a failed store call, and a
stop that rsync outruns. It also has a run in which rsync succeeds and the report is "error", because the
worker's own cancellation of its monitor makes a last heartbeat fail.

## Model

| member | source | states |
|---|---|---|
| `Paths.CleanIsRendered` | main.go:568 | an absolute path, cleaned as before every reservation, is the rendering of valid names |
| `Paths.RenderRoundTrip` | main.go:469-473 | rendered paths are already clean and their names can be read back |
| `Paths.DescendantMeansUnder` | main.go:475-483 | the Go descendant test holds exactly when the names of one path start the names of the other |
| `Paths.OverlapIsMeetingSubtrees` | sync_store.go:48-50 | for all absolute paths the Lua test, the Go test, "one list of names is a prefix of the other" and "some directory lies under both" are the same |
| `Paths.CleanResolvesParents` | main.go:568 | ".." in a path takes away the name before it |
| `Paths.CleanStaysAtRoot` | main.go:568 | at the root it takes nothing away |
| `Paths.CleanDropsEmpty` | main.go:605 | "." and empty segments vanish |
| `Paths.SiblingsAndRoot` | sync_store.go:48-50 | siblings never overlap, even when one name starts the other; the root overlaps everything |
| `SyncStore.RedisSyncStore.HGetAll` | sync_store.go:54-56 | every pair of the hash exactly once, in an arbitrary order |
| `SyncStore.RedisSyncStore.ScanForConflict` | sync_store.go:54-59 | a scan that stops early met a live overlapping record and deleted only expired ones; one that ends met none and deleted all expired ones |
| `SyncStore.RedisSyncStore.Reserve` | sync_store.go:53-63 | accepted exactly when no unexpired queued, running or removing record overlaps; the new record field by field and what is kept of the others |
| `SyncStore.RedisSyncStore.Update` | sync_store.go:73-95 | the reply and the new hash of every operation, including the three errors |
| `SyncStore.UpdateAnswers` | sync_store.go:74-80 | when an update takes effect, which error it meets otherwise, and that other ids stay as they are |
| `SyncStore.ClaimWrites` | sync_store.go:79-81 | a claim makes a queued record running and changes nothing else but the expiry |
| `SyncStore.LaunchFailureWrites` | sync_store.go:82-84 | a failed launch leaves a queued record failed with the message, and any other with the message and the stop flag |
| `SyncStore.FinishWrites` | sync_store.go:85-86 | the given state and message, kept for a day |
| `SyncStore.ReportWrites` | sync_store.go:87-89 | a report changes the progress fields and the expiry only |
| `SyncStore.HeartbeatWrites` | sync_store.go:91-92 | a heartbeat changes the expiry only |
| `SyncStore.RedisSyncStore.List` | sync_store.go:118-127 | returns each unexpired queued or running record once and nothing else; keeps exactly the unexpired records |
| `SyncStore.RedisSyncStore.Stop` | sync_store.go:142-151 | sets the stop flag on exactly the unexpired queued and running records of the path |
| `StoreRuns.RunKeepsExclusion` | sync_store.go:53-95 | every run keeps live records from overlapping and every expiry within its bound |
| `StoreRuns.NoDirectoryHeldTwice` | sync_store.go:45-63 | after any run and at any later time no directory lies in the subtrees of two live reservations |
| `StoreRuns.StopMarksAtMostOne` | sync_store.go:142-151 | one stop request marks at most one record |
| `StoreRuns.EveryPathComesFree` | sync_store.go:91-92 | left alone, every path can be reserved after two minutes if only running downloads hold it, after ten minutes in any case |
| `StoreRuns.KeptUntilExpiry` | sync_store.go:54-59 | a record nobody updates is there until its expiry and until then turns down every overlapping reservation |
| `StoreRuns.HeldForItsTerm` | sync_store.go:60-61 | a reservation holds for 600 seconds, a renewed lease for 120, a final record is there unchanged for 86400 |
| `StoreRuns.DeadRecordsAreFinal` | sync_store.go:75-77 | after a record is finished or expired, every update of it fails and it is only ever removed |
| `StoreRuns.NeverQueuedAgain` | sync_store.go:79-81 | a record that left the queue never returns to it and is never claimed |
| `StoreRuns.ClaimedAtMostOnce` | sync_store.go:71-81 | over any run at most one claim of each id takes effect |
| `StoreRuns.StopIsDurable` | sync_store.go:146-147 | a stop flag stays set in every later state and every later reply |
| `StoreRuns.HeldUntilFinishedOrExpired` | sync_store.go:82-92 | a claimed record holds its directory until it finishes or expires, whatever else runs |
| `StoreRuns.LaunchFailureNeverReleasesAClaim` | main.go:572-586 | a reported launch failure either ends an unclaimed reservation for good or leaves a claimed one in place with its stop flag set |
| `StoreRuns.ReservationsAreListed` | sync_store.go:118-127 | a download is in every listing from its reservation to its end; a removal is in none |
| `StoreRuns.EndedDownloadsAreNotListed` | sync_store.go:123-124 | once ended or expired it is in none |
| `Pruning.StepSimulated` | sync_store.go:54-62 | one script of the lazily pruned store is matched by one step of the ideal store |
| `Pruning.LazyPruningIsInvisible` | sync_store.go:118-127 | over every run each reply is the ideal store's reply |
| `Pruning.EveryExchangeIsPossible` | sync_store.go:53-63 | whatever requests are made at whatever times, there is a run of the real store with exactly these requests, and its replies are the ideal store's |
| `Pruning.ScanOrderIsInvisible` | sync_store.go:54-59 | two runs of the same requests with different scan orders get the same replies |
| `Pruning.OnlyTheErrorTextDiffers` | sync_store.go:74-77 | what can differ is "missing" against "expired" in the text of a failure |
| `RsyncProgress.SplitThenJoin` | main.go:331-350 | splitting a stream loses nothing |
| `RsyncProgress.JoinThenSplit` | main.go:331-350 | there is only one way to read a stream as tokens and separators |
| `RsyncProgress.ProgressWriter.constructor` | main.go:256-260 | a new writer has read the empty stream |
| `RsyncProgress.ProgressWriter.ApplyPending` | main.go:352-365 | applies the pending token once and clears it |
| `RsyncProgress.ProgressWriter.Write` | main.go:331-350 | for every way of cutting the stream into calls the writer holds what one reading of the whole stream gives: complete tokens applied, oversize tokens dropped whole, the tail pending or discarding |
| `RsyncProgress.Sync.Parse` | main.go:405-438 | the fields after one token and whether it was malformed |
| `RsyncProgress.ByteCountsAreReadBack` | main.go:429-435 | a byte count with commas anywhere is read back exactly and changes one field |
| `RsyncProgress.PercentagesAreReadBack` | main.go:406-413 | so is a percentage |
| `RsyncProgress.DurationsAreReadBack` | main.go:424-427 | three numbers with colons between them are kept as the time left and change nothing else |
| `RsyncProgress.OnlyDurationsSetTimeLeft` | main.go:440-451 | whatever changes the time left is of that form, with exactly two colons |
| `RsyncProgress.SpeedsAreReadBack` | main.go:415-422 | a speed changes one field, to what the parser of sizes gives in 64 bits; if that fails the token is malformed |
| `RsyncProgress.StatusFieldsAreIgnored` | main.go:402-405 | status fields are no error and change nothing |
| `RsyncProgress.BadNumbersAreMalformed` | main.go:406-410 | numbers beyond 64 bits and percent signs without a number are malformed |
| `RsyncProgress.TokensAreApplied` | main.go:331-350 | at a boundary, a token followed by white space is applied if it has at most 1048576 bytes and dropped whole otherwise |
| `RsyncProgress.PercentThenBytes` | main.go:331-350 | what "5% 1,234" and a newline amount to |
| `RsyncProgress.MalformedTokensChangeNothing` | main.go:407-419 | a malformed token changes no field |
| `SyncWorker.Conclude` | sync_worker.go:75-106 | the stored state and the published event as functions of the four errors; "complete" and "cancelled" exclude a monitor failure |
| `WorkerInvariants.MoveKeepsWorker` | sync_worker.go:20-109 | every step of every thread keeps the worker's invariant |
| `FleetInvariants.MoveFits` | sync_worker.go:62-108 | a worker's own step keeps it in accord with its record |
| `FleetInvariants.AnswerFits` | sync_store.go:73-95 | so does the store executing its call, however late or often |
| `Fleet.PartiesMayAct` | main.go:550-612 | in every state servers, removals and the store may take every action they ever take |
| `Fleet.WorkersMayAct` | sync_worker.go:33-61 | nothing holds a worker back that does not hold back the program: failures, exits, ticks and cancellations may come at any time |
| `FleetRuns.ActionsAreScripts` | sync_store.go:13-14 | every action runs exactly the script it stands for, or leaves the hash alone |
| `FleetRuns.NextKeeps` | sync_worker.go:20-109 | every action of every party keeps the invariant of the installation |
| `FleetRuns.RunKeeps` | sync_worker.go:20-109 | the invariant holds in every state of every run |
| `FleetTheorems.WorkerTraces` | sync_worker.go:62-71 | events are none, one terminal, or start and one terminal; rsync starts at most once and after the start event |
| `FleetTheorems.OneRsyncPerReservation` | sync_worker.go:21-24 | of all workers started for a reservation at most one starts rsync |
| `FleetTheorems.StoppedWasFlagged` | sync_store.go:146-147 | an id counts as stopped only if its record carried the flag at some moment of the run |
| `FleetTheorems.CompleteIsEndToEnd` | sync_worker.go:86-107 | after "complete": rsync succeeded, the monitor did not fail, the stored record is completed with the progress of the whole output, and no later action changes it until it expires |
| `FleetTheorems.ReturnedStays` | sync_worker.go:107-108 | nothing changes what a returned worker reported |
| `FleetTheorems.StopBeforeClaimPreventsRsync` | sync_worker.go:29-31 | a stop that arrives before the claim means no worker ever starts rsync for the reservation |
| `FleetTheorems.UserStopPreventsRsync` | main.go:604-607 | when a user stops the path of a waiting download, no worker ever starts rsync for it |
| `FleetTheorems.FinalRecordExplained` | sync_worker.go:75-94 | the state and the error text of the record a worker ends with |
| `ProgressReports.HeartbeatsCarryProgress` | sync_worker.go:41-47 | a heartbeat under way carries the progress of all that rsync had printed at the tick that began it |
| `ProgressReports.ShownProgressIsReal` | sync_worker.go:41-47 | in every state every record shows what some beginning of its worker's rsync output amounts to, or nothing if no worker has claimed it; so do all reports under way or still to be executed |
| `ProgressReports.RecordShowsProgress` | sync_store.go:87-89 | the beginning of the output that a claimed record shows |
| `ProgressReports.OutputIsPrinted` | main.go:254-258 | the output read is all that rsync printed, in order |
| `WorkerReports.LateMeansFailure` | sync_worker.go:46-53 | the calls that the store may still execute after the worker gave them up are there exactly when a call came back as failed |
| `WorkerReports.CanceledMeansSeen` | sync_worker.go:62-72 | the run's result is the context's error exactly when the worker looked at its context after the cancellation |
| `WorkerReports.LastEventExplained` | sync_worker.go:95-107 | which event ends a run, exactly, in terms of the actions of the run: failed store calls, looks at a cancelled context, rsync's exit |
| `WorkerReports.ExitIsWhatHappened` | main.go:267-273 | how rsync ended, as the worker knows it, is how it ended |
| `WorkerReports.ReportedAsCancelled` | sync_worker.go:62-107 | a cancellation before the last look is reported as "cancelled" if and only if no store call fails and no start under way fails, and as "error" otherwise |
| `WorkerReports.TooLateToReport` | main.go:282-287 | a cancellation after the last look is never reported as "cancelled" |
| `WorkerReports.CancelledExactly` | sync_worker.go:62-107 | over a whole run, "cancelled" if and only if no store call failed and some moment before the last look had the context cancelled and no failed start after it |
| `WorkerReports.CancelledIsJustified` | sync_worker.go:75-85 | a run ends as cancelled only if, by the look that found the cancellation, the stop flag had been in the store or the parent context was cancelled; never by loss of the store |
| `WorkerReports.CancelledIsStored` | sync_worker.go:79-107 | what is reported as "cancelled" is stored as cancelled until the record's day has passed |
| `WorkerReports.FailedStartIsStored` | main.go:246-264 | the message of a failed start is the error text of the stored record |
| `StopWitnesses.FailedStartHidesStop` | main.go:246-249 | a run in which a seen stop is reported as "error" because the directory for rsync cannot be made |
| `StopWitnesses.FailedCallHidesStop` | sync_worker.go:91-107 | a run in which a seen stop is reported as "error" because the last report of progress fails |
| `StopWitnesses.LateStopIsUnseen` | sync_worker.go:41-58 | a run in which the flag is set while rsync runs and the report is "complete" |
| `StopWitnesses.StopGoesAsPromised` | sync_worker.go:95-107 | a run in which the stop is reported as "cancelled" |
| `StopWitnesses.SuccessCanBeAnError` | sync_worker.go:46-53 | a run in which rsync succeeds, nobody stops it, and the report is "error" |
| `Shutdown.NeverStuck` | sync_worker.go:32-74 | a worker that has not returned can step |
| `Shutdown.NoDeadlock` | main.go:267-287 | in every state of every run; the monitor sends exactly once and never on a full channel; no goroutine is left when the worker returns |
| `Shutdown.SignalsOnlyUnfinishedRsync` | main.go:296-305 | the process group is signalled exactly when the context is cancelled and the wait for rsync has not come back |
| `Shutdown.EveryMoveDescends` | main.go:289-319 | after cancellation every step of the worker's threads lowers a rank |
| `Shutdown.CancelledWorkerEnds` | sync_worker.go:73-109 | a cancelled worker takes at most 231 more steps, whatever the rest of the installation does, and ends by returning |
| `LeaseSafety.MattersBounded` | sync_worker.go:33-61 | as long as rsync runs or may be started, the last renewal is at most two calls, a tick, the launch window, the grace and five slacks old |
| `LeaseSafety.LeaseNotExpired` | sync_store.go:77-92 | such a renewal has not expired, whole seconds included |
| `LeaseSafety.RsyncIsAlwaysLeased` | sync_worker.go:41-59 | in every state of every timed run a live rsync has an active unexpired record for its path |
| `LeaseSafety.RsyncExcludesOtherReservations` | sync_store.go:54-59 | no live reservation, removals included, overlaps the path of a live rsync |
| `LeaseSafety.RsyncsNeverOverlap` | main.go:289-319 | no two rsync processes work on overlapping paths |
| `LeaseSafety.NoDirectoryUnderTwoRsyncs` | sync_store.go:48-50 | no directory lies below the paths of two running rsync processes |
| `LeaseLimit.TooSlowClashes` | main.go:244-263 | beyond the limit there is a run with two rsync processes on the same path |
| `LeaseLimit.LeaseLimitIsExact` | sync_worker.go:65-66 | leases keep rsync processes apart in every run if and only if launch window plus five slacks is at most 103 seconds |
| `StopResponse.RunTimes` | sync_worker.go:33-61 | every worker meets its deadlines in every timed run |
| `StopResponse.StopEndsRsync` | sync_worker.go:54-58 | once the stop flag is set, rsync is dead within two calls, a tick, the launch window, the grace and five slacks |
| `StopResponse.UserStopEndsRsync` | main.go:604-607 | the same from the user's stop request on |
| `StopResponse.StopIsReported` | sync_worker.go:41-59 | a worker still before its last look two calls, a tick and three slacks after the flag was set is cancelled, and reports "cancelled" under the exact condition |
| `TimePasses.OverdueWorkersCanAct` | main.go:303-318 | a worker that holds up the clock has a step to take, after which fewer are due |
| `TimePasses.TimeNeverStops` | sync_worker.go:33-61 | every run can be continued, by steps of the workers' own threads, to any later time |
| `RemoteTree.SetNotSynced` | main.go:227-233 | terminates; unmarks exactly the items on the chain of parents |
| `RemoteTree.AddItem` | main.go:197-207 | one new item, linked to the item of its parent directory and filed with it under its name |
| `RemoteTree.ReadListing` | main.go:194-209 | one item per listed path, each created after its parent, linked to it and filed with it |
| `RemoteTree.MarkMissing` | main.go:235-239 | whatever the order of the map, an item stays synced exactly when no missing item's chain passes through it |
| `RemoteTree.BuildRemoteTree` | main.go:194-241 | an item ends synced exactly when every mapped item whose chain reaches it exists locally; with parents first and no gaps, exactly when its whole listed subtree exists locally |
| `RemoteTree.DirOfRendered` | main.go:197 | the parent directory has all names but the last |
| `RemoteTree.BaseOfRendered` | main.go:200 | the name of an item is the last name of its path |
| `RemoteTree.ChainsFollowNames` | main.go:197-208 | in a parent-first listing without gaps the chain of parents is the list of listed ancestors |
| `RemoteTree.SyncedMeansSubtreePresent` | main.go:227-239 | the chains and the subtrees give the same marks for every item and every local state if and only if the listing has no gaps |
| `WorkerArgs.SyncWorkerArgs` | worker_launcher.go:63-83 | the loop computes the rewriting |
| `WorkerArgs.WorkerFlagsExactly` | worker_launcher.go:73-76 | exactly "sync_worker" and "sync-worker" after one or two dashes, alone or with a value, are worker flags |
| `WorkerArgs.RewrittenIsRight` | worker_launcher.go:63-83 | new flag first, no other worker flag before the mark, verbatim tail, order kept, rewriting twice is rewriting once with the later id |
| `WorkerArgs.OtherArgumentsSurvive` | worker_launcher.go:81 | a line without worker flags is passed on whole |
| `WorkerArgs.OnlyTheFlagIsDropped` | worker_launcher.go:75-80 | exactly the worker flag and its separate value are dropped |

## Left out

- Update in place in the worker: its threads are steps on values, so aliasing of the shared progress fields is not captured; the mutex around them makes each access one step.
- Removals: a removal takes part as a party that keeps and finishes its own reservation; its file deletion is not modelled, and since a failing heartbeat does not stop the deletion, physical exclusion is stated for rsync only.
- Abrupt death of a worker: in untimed runs it is a worker that takes no further step; timed runs assume live workers, because rsync in its own process group can outlive a killed worker.
- Equivalence of the "error" event with the stored state "failed": a failed final progress report can go with a stored "completed"; only the directions from "complete" and "cancelled" are stated.
- Relative paths and listings that are not clean: the store compares strings, and the meaning of overlap is stated for absolute paths, which is what the servers reserve.
- The text of rsync's own failure: one fixed text stands for the exit status.
- The parser of human-readable speeds: a parameter of the model.
- Redis client, JSON and Lua number encoding, retries: only their effect on calls, as assumed above.
- MQTT publishing: only the sequence of events.
- Kubernetes jobs, service accounts and TLS; OIDC, cookies and sessions; the front end and the static file handlers: plumbing with no protocol state.
- ssh and rsync command lines, signals and directory walks: only process states, output bytes and listings.
