# OpenSBX, modelled and proved in Dafny

OpenSBX manages sandboxes on an external container runtime. This project models its parts that have to survive
crashes, lost responses and concurrency, and proves what they promise. `dafny verify dfyconfig.toml` checks it.

| part | files |
|---|---|
| Durable lifecycle intents | `Records`, `Repositories`, `Intents`, `Protocol`, `Settlement`, `Daemons`, `Attempts`, `Creations`, `Timers`, `DockerClient`, `Lifecycle`, `Startups`, `Services` |
| Small concurrent protocols | `RecoveryQueues`, `CacheLocks` |
| OCI content graph and catalog | `OciGraphs`, `OciWalks`, `OciLayers`, `OciReach`, `VerifiedCaches`, `PlatformSelection`, `Catalogs`, `OciArchives`, `OciPrepared` |
| Log pipeline | `Logs`, `Utf8Framing`, `Preambles` |

**Durable lifecycle.** `Repository` is the database: one method for each transaction, proved to mean a function of the
two tables. `Daemon` is the container runtime. `Client` in `DockerClient` is the Docker backend: its methods follow
the source call by call. `Intents.Inv` is the invariant of tables, containers and issued tokens. It is proved to hold
after every single database or native call, so it holds wherever the process dies; `Client.Run` states it for every
sequence of operations, timer callbacks, background jobs, adoptions, crashes and restarts. `Settlement` says by token,
without the steps of the code, where the recovery of an intent ends; `During` and `After` in `Attempts` say that every
step of a recovery keeps that end in sight.

The assumptions are these. A native call takes effect before it returns, or never, and its response may be lost. A
database transaction is atomic, and its response may be lost too. Tokens, native and public identities are numbers from
one supply, so a new one is fresh. The clock does not go back. One process works on one database. Containers may exit
or disappear at any moment but never start by themselves, and nobody else labels a container with a token of ours. The
environment acts between any two calls. The death of the process is a call from which on every call fails without
effect, until `Reboot`. The constant `calm` of a client says that the environment leaves containers alone; only the
statements about where a recovery ends and about what must succeed use it.

`Timers` adds what lies in memory only. A timer fires at its deadline or at most the retry delay after it was set, and
`DockerClient.Client.OnTime` says that nothing runs without one: `Recover` establishes it after a restart, and every
operation, callback and job keeps it, whatever fails.

What no run takes back is `Attempts.Onward`: identities stay together, and what is gone stays gone. `Attempts.Spares`
says which rows stay, and `DockerClient.Keeps` what the process does not forget; `Services` uses all three to follow one
creation through everything that others do meanwhile.

**Protocols.** `RecoveryQueue` and `CacheLocks` are state machines with one step for each critical section or channel
operation and any number of actors. Armed timers and goroutines inside `Run` are actors; entries of the lock table are
reached through pointers into a heap, so that a stale pointer would be possible. Their classes are proved to take
exactly these steps.

**OCI content.** The store is a map from digests to files. Hashing, JSON, layer decoding and the parsing of references
are functions about which nothing is assumed, except that references that pin a digest do so (`OciArchives.Lawful`) and
that a JSON index is read back as it was written. The formats are those of the OCI Image Format Specification.

**Logs.** Both output buffers are proved against one log that never forgets. UTF-8 is section 4 of RFC 3629; the two
functions of Go's package that the loop uses are defined and proved to agree with it.

Some promises are false of the code as it is, and the project says exactly when they hold.

- The startup sweep uses rows that were read before the intents were recovered. It stops a running sandbox before its
  durable deadline exactly if a start or restart with a later deadline was pending for an overdue row
  (`Lifecycle.SweepStopsEarlyIff`, an example, and `Startups.RecoverAndSweep`, which carries it out). The contract of
  `DockerClient.Client.Recover` says that nothing else is stopped early.
- A creation that fails is not always undone or left to the background recovery. If it was adopted before, and the
  deletion could not be recorded, the sandbox stays, with nothing that anybody would retry
  (`DockerClient.Client.DiscardCreated`, which says exactly when, and `Lifecycle.AdoptedMayStay`).
- Graph validation marks blobs by digest alone. It is complete exactly if no digest is referred to as two different
  things (`OciGraphs.CompleteIffConsistent`, and an example).
- For the same reason an import can prepare an image that does not validate by itself, and an image with an external
  URL can reach the verification cache, whose key leaves out URLs and embedded data, and be answered from it
  (`OciPrepared.UrlsSlipIn` and `CacheLetsThemIn`). For consistent roots neither happens (`ImportPrepares`,
  `ImportedHit`), and a hit is right exactly for acceptable descriptors (`VerifiedCaches.HitIffAcceptable`).

## Model

| member | source | states |
|---|---|---|
| Repositories.Repository.FindByNativeId | internal/database/repository.go:24-33 | finds the one row that owns a native identity, or says that there is none |
| Repositories.Repository.FindByAttempt | internal/database/operations.go:72-82 | finds the one row of an attempt token |
| Repositories.PendingIsByToken | internal/database/operations.go:33-52 | matching a pending intent by native identity, by public identity or by token selects exactly the intents that carry the token of the owner, and every stored intent passes its own validation, so no later mutation can bypass an older intent |
| Repositories.Repository.FindPending | internal/database/operations.go:33-52 | the result is the one intent that carries the token of the owner of the native identity, or none |
| Repositories.Repository.ValidateOperation | internal/database/operations.go:87-112 | accepts an intent exactly if it is stored unchanged and the row it names, if there is one, has its native identity, runtime and token; only a creation may name no row |
| Repositories.Repository.Operations | internal/database/operations.go:18-22 | lists every pending intent, each once |
| Repositories.Repository.FindAll | internal/database/repository.go:110-122 | lists every row |
| Repositories.Repository.BeginCreate | internal/database/operations.go:114-135 | one atomic transaction that may fail, or commit and lose its response; refuses a public identity that has a row or an intent |
| Repositories.Repository.BeginOperation | internal/database/operations.go:139-181 | one atomic transaction: needs an owner; turns a pending creation into a deletion in place; re-enters a pending stop or deletion; refuses every other mutation while an intent is pending; otherwise inserts one intent that names the row, its native identity and its token |
| Repositories.Repository.BindCreation | internal/database/operations.go:183-194 | one atomic transaction that records the native identity, and the public identity if there was none; a lost response leaves the caller without both |
| Repositories.Repository.CommitCreation | internal/database/operations.go:200-211 | one atomic transaction: inserts the row, and deletes the intent unless it awaits adoption; never overwrites a row |
| Repositories.Repository.CreateOwnership | internal/database/repository.go:88-88 | inserts a row, never overwrites one |
| Repositories.Repository.CompleteOperation | internal/database/operations.go:213-234 | one atomic transaction: ports and deadline are recorded and the intent is deleted, together, and only if the stored intent and its row still agree |
| Repositories.Repository.DeleteOperation | internal/database/operations.go:236-255 | one atomic transaction: row and intent disappear together, or a row that disagrees stays; without a row only the intent goes |
| Repositories.Repository.SetDeadline | internal/database/operations.go:257-279 | one atomic transaction: the deadline changes only while no intent of the sandbox is pending |
| Repositories.ForeignRowsStay | internal/database/operations.go:87-112 | whatever intent a caller comes with, it is valid only if it is still stored for the same attempt, and no transaction that retires an intent changes a row of another attempt |
| Repositories.MarkCommutes | internal/runtimeio/provision.go:68-87 | no lifecycle transaction looks at provenance: a mark that is written without the lifecycle lock, between two calls of an operation, might as well have been written before it |
| Repositories.Repository.UpdateProvenance | internal/database/operations.go:282-303 | one atomic transaction: image fields only; an adoption also deletes the bound creation intent and is refused while other lifecycle work is pending; a deleted row is not resurrected |
| Protocol.BeginCreateKeeps | internal/database/operations.go:114-135 | recording a creation for an unused token keeps the invariant of tables, containers and issued tokens |
| Protocol.BeginKeeps | internal/database/operations.go:139-181 | beginning a mutation keeps the invariant: at most one intent per sandbox, and every intent other than a creation names an existing row with the same native identity and token |
| Protocol.ConvertKeeps | internal/database/operations.go:161-169 | turning a pending creation into a deletion in place keeps the invariant |
| Protocol.BindKeeps | internal/database/operations.go:183-194 | binding a creation to the container that carries its token keeps the invariant |
| Protocol.CompleteKeeps | internal/database/operations.go:213-234 | completing an intent keeps the invariant, provided a deadline is dropped only while no container of the attempt runs |
| Protocol.DeleteKeeps | internal/database/operations.go:236-255 | deleting row and intent keeps the invariant, provided no container carries the token any more |
| Protocol.SetDeadlineKeeps | internal/database/operations.go:257-279 | renewing a deadline keeps the invariant |
| Protocol.ProvenanceKeeps | internal/database/operations.go:282-303 | adoption and provenance updates keep the invariant |
| Intents.NativeCreateKeeps | internal/docker/lifecycle.go:110-117 | creating the container after the intent was recorded keeps the invariant: no container of ours is without an intent or a row |
| Intents.NativeStartKeeps | internal/docker/lifecycle.go:137-139 | starting a container under a durable deadline keeps the invariant: nothing of ours runs without one |
| Settlement.DeleteArrives | internal/docker/recovery.go:264-277 | deleting row and intent of an undone attempt reaches the state that its recovery leads to, described by token and not by the steps |
| Settlement.StopArrives | internal/docker/recovery.go:278-289 | completing a stop after the container was seen not to run reaches the state that the recovery leads to |
| Settlement.StartArrives | internal/docker/recovery.go:290-315 | completing an observed start or restart reaches the state that the recovery leads to: the deadline of the intent if the container runs, none otherwise |
| Attempts.SightIsTrue | internal/docker/recovery.go:230-247 | what an inspection by native identity, or by exact name for an unbound creation, finds is exactly the container with the token of the intent: the ownership checks never fail on our own containers |
| Attempts.RowSightIsTrue | internal/docker/recovery.go:215-229 | the same for a creation that learns its native identity from a row |
| Attempts.Halting | internal/docker/recovery.go:266-283 | stopping or removing the container of an intent touches no other attempt, keeps the invariant, and changes nothing about where an undisturbed recovery ends |
| Attempts.Deleting | internal/docker/recovery.go:273-277 | after the deleting transaction the intent is retired and no row of the attempt is left, or, if the call failed, no row has changed and the intent is still pending with the same end ahead; no other sandbox is touched |
| Attempts.Completing | internal/docker/recovery.go:284-308 | after the completing transaction the intent is retired, its row stays and has no deadline or that of the intent, or, if the call failed, no row has changed and the intent is still pending with the same end ahead; no other sandbox is touched |
| Attempts.Launching | internal/docker/lifecycle.go:210-214 | a start or restart runs only the container of its intent and under the deadline of that intent |
| Attempts.EndMoves | internal/docker/recovery.go:203-319 | however the attempt at a pending intent ends: no intent is added, its row leaves only together with its intent, and unless the intent undoes the sandbox the row stays and no deletion has become pending |
| Attempts.AttemptDates | internal/docker/recovery.go:278-315 | recovering an intent gives a row no deadline but the one it had, none, or the one of a start or restart that was pending |
| Attempts.IdleIsStopped | internal/docker/lifecycle.go:250-287 | a sandbox without a pending intent and without a durable deadline does not run |
| Creations.Recording | internal/docker/lifecycle.go:99-102 | the creation intent is durable, or was not recorded, before anything native exists |
| Creations.NativeCreating | internal/docker/lifecycle.go:110-117 | the new container carries the exact name and token of its intent, whether or not the response arrives |
| Creations.Binding | internal/docker/lifecycle.go:133-135 | after the binding, the intent or only the tables know the native identity, or nothing changed |
| Creations.Committing | internal/docker/lifecycle.go:150-160 | the commit leaves row and intent as asked, or nothing; after a lost response the row may be there |
| Creations.TryDeletes | internal/docker/lifecycle.go:130-130 | once the container is gone the rollback deletes row and intent of the attempt, however far the creation got |
| Creations.Owning | internal/docker/lifecycle.go:125-128 | a creation that could not be rolled back keeps its row next to its intent without violating the invariant |
| Creations.Adopting | internal/docker/recovery.go:20-30 | an adoption that succeeds changes provenance only, and the attempt is final: no intent of it is left |
| DockerClient.Client.ScheduleDeadline | internal/docker/lifecycle.go:490-518 | the one timer of a container is replaced by a new entry that never fires before the deadline recorded in it, and exactly then or after the given delay |
| DockerClient.Client.FinishUndo | internal/docker/recovery.go:265-277 | undoing an attempt ends with no row, no intent, no container with its token and no timer, or leaves the intent pending; only the container of the intent is removed |
| DockerClient.Client.FinishStop | internal/docker/recovery.go:278-289 | a recovered stop is completed, with its deadline and timer gone, only after the container is known not to run; a container that does not run is not stopped again |
| DockerClient.Client.FinishStart | internal/docker/recovery.go:290-315 | a recovered start or restart is observed and never repeated: running means the deadline of the intent and a timer for it, stopped or missing means neither |
| DockerClient.Client.LookUnbound | internal/docker/recovery.go:213-233 | an unbound creation is found through its row or by exact name, and what is found carries its token |
| DockerClient.Client.Look | internal/docker/recovery.go:213-263 | the identities that recovery acts on are those of the intent, its row and its container, and nothing is changed while looking |
| DockerClient.Client.Reconcile | internal/docker/recovery.go:203-319 | a finished recovery has retired its intent and touched no other sandbox or timer; without interference it ends in the state described by token; an unfinished one leaves the intent pending with that same end ahead, or a response was lost; every stop and removal was made for this intent; nothing runs without a timer that did not before; without a failed call it finishes, unless the runtime is just restarting the container |
| DockerClient.Client.QueueOperation | internal/docker/recovery.go:171-190 | a background job is registered once per intent, and none after the queue was stopped |
| DockerClient.Client.RetryOperation | internal/docker/recovery.go:149-163 | after an attempt an intent that is still pending has a job, and a timer if it has a deadline, unless the queue was stopped; so has one that could not be looked up |
| DockerClient.Client.CheckOwnership | internal/docker/recovery.go:32-47 | before a native mutation the container is known to carry the token of the intent |
| DockerClient.Client.StopLocked | internal/docker/lifecycle.go:250-287 | a stop that succeeds leaves the container not running, nothing pending, no deadline and no timer, one that fails leaves the timer; only the container of this sandbox is stopped; without a failed call it succeeds if there is an owner with nothing pending |
| DockerClient.Client.Stop | internal/docker/lifecycle.go:242-248 | the same for a caller, and nothing after shutdown has begun |
| DockerClient.Client.LaunchLocked | internal/docker/lifecycle.go:200-237 | a start or restart that succeeds leaves the new deadline in the row and in the timer, and nothing pending; it is refused while anything is pending; even if it fails the container does not run without a timer |
| DockerClient.Client.Start | internal/docker/lifecycle.go:186-238 | refused without effect on the tables if the container runs; otherwise the sandbox has the default lifetime from now on, durably and in its timer |
| DockerClient.Client.Restart | internal/docker/lifecycle.go:291-338 | the sandbox has the default lifetime from now on, durably and in its timer |
| DockerClient.Client.Remove | internal/docker/lifecycle.go:342-369 | a removal that succeeds leaves no row, no intent and no container of the attempt; one that fails leaves the sandbox there with nothing pending exactly if that was so before and nothing was recorded; without a failed call it succeeds unless another mutation is pending; only this sandbox is touched |
| DockerClient.Client.RenewExpiration | internal/docker/lifecycle.go:420-436 | a renewal changes the deadline of this sandbox, durably and in its timer, only while nothing is pending |
| DockerClient.Client.ReconcileResource | internal/docker/recovery.go:192-201 | afterwards nothing is pending for the sandbox, or an error says why; a pending creation is left alone |
| DockerClient.Client.ExpireLocked | internal/docker/lifecycle.go:570-603 | a stale callback does nothing; a current one never stops a sandbox before its durable deadline, whatever was renewed, restarted or lost before: every stop was due, or finishes an intent that was already pending; without a failed call an idle sandbox is stopped, or its later deadline gets the timer; what is still armed fires later than now, for the same deadline or that of the row; a timer is dropped only with its deadline or its owner |
| DockerClient.Client.Rollback | internal/docker/lifecycle.go:118-132 | a failed creation removes only its own container, then row and intent; or keeps a row for it |
| DockerClient.Client.StartAndCommit | internal/docker/lifecycle.go:137-160 | from the started container to the committed row; on failure everything the rollback needs is known |
| DockerClient.Client.Create | internal/docker/lifecycle.go:38-172 | in a quiet environment it succeeds if no call fails; success means a row with the deadline, a timer for it, and the intent exactly if it awaits adoption; whatever fails, no other sandbox or timer is touched, only the own container is removed, and nothing of it runs without a timer unless its removal failed |
| DockerClient.Client.AdoptCreation | internal/docker/recovery.go:20-30 | success means that provenance is as given and nothing else changed, that no intent of the attempt is left, and that the attempt is final; it succeeds if no call fails and the row is there with nothing but a creation pending; nothing that was adopted is lost |
| DockerClient.Client.CreationFailed | internal/docker/recovery.go:165-169 | registers a job for an attempt that the process remembers, unless the queue was stopped |
| DockerClient.Client.DiscardCreated | internal/docker/lifecycle.go:174-182 | success means that the sandbox is gone; a failure registers a job if the process remembers the attempt, and leaves the sandbox there with nothing pending exactly if that was so before and the deletion was not recorded |
| DockerClient.Client.RunJob | internal/docker/recovery.go:171-190 | a job is finished only when its intent is retired, otherwise it stays; an intent of another token is refused; an attempt is forgotten exactly when its intent was undone; one sandbox is touched at most, and nothing that was adopted is lost |
| DockerClient.Client.RegisterIntents | internal/docker/recovery.go:65-74 | every pending intent has a job before any native call is made, unless the queue was stopped, and every pending start or restart a timer |
| DockerClient.Client.RegisterDeadlines | internal/docker/recovery.go:75-84 | every durable deadline has a timer with exactly this deadline, which fires then, or after the retry delay if it has passed; nothing else gets one |
| DockerClient.Client.ReconcileAll | internal/docker/recovery.go:85-97 | recovering the intents one after another, until the budget is spent, retires intents only, makes no new ones, keeps all rows attached to their containers, gives rows only deadlines of pending starts and restarts, and keeps every durable deadline armed; within the budget and without a failed call it retires them all |
| DockerClient.Client.SweepOverdue | internal/docker/recovery.go:98-118 | the sweep stops the sandbox of a row that was overdue when it was read and has nothing pending, whatever its deadline is by now, and records the stop under that deadline; any other row is left alone |
| DockerClient.Client.Recover | internal/docker/recovery.go:51-123 | whatever fails after the registration, every intent that was pending has a job or is retired, every durable deadline in the tables has its timer (with exactly this deadline unless the response to the completion of a start was lost), and nothing runs without a timer; every stop or removal was made for an intent that was pending, or was due, or was made for a row that was overdue when it was read under the deadline of a start or restart that was pending then; within the budget and without a failed call nothing is pending afterwards and no sandbox that was overdue has a deadline or runs; no row is added or re-attached |
| DockerClient.Client.StopForShutdown | internal/docker/recovery.go:322-335 | success means that there is no owner any more, or its container is stopped with nothing pending and no deadline; without a failed call it succeeds if nothing is pending or what is pending can be settled |
| DockerClient.Client.Shutdown | internal/docker/lifecycle.go:440-481 | no job is left or taken, the backend is closed, every sandbox that had a timer has no owner any more, or is stopped with no deadline and nothing pending, or is reported as failed, and only those may have a timer; without a failed call none fails if all had owners with nothing pending; no intent is lost |
| DockerClient.Client.Mark | internal/runtimeio/provision.go:86-86 | a mark changes the provenance of one row and nothing else; it belongs to the events of a run |
| DockerClient.Client.Quit | internal/docker/lifecycle.go:440-441 | a stopped queue is empty and takes no job any more |
| DockerClient.Client.Reboot | internal/docker/recovery.go:49-60 | a crash or restart of the process wipes timers, jobs and attempts and keeps tables and containers |
| DockerClient.Client.Handle | internal/docker/lifecycle.go:535-568 | any arrival at the lifecycle lock, in any state, keeps the invariant and re-attaches no identity; the row of an adopted attempt stays, unless its deletion was pending or is what arrives; a registered job leaves only when its intent is retired, and an attempt is forgotten only when it is adopted or gone, until the queue is stopped or the process restarted; once startup has registered everything, and until shutdown, no sandbox runs without a timer; and without a failed call the arrival does what it is for |
| DockerClient.Client.Run | internal/docker/lifecycle.go:535-568 | for every sequence of operations, timer callbacks, background jobs, marks, crashes and restarts: no container of ours is without an intent or a row, none runs without a durable deadline, nor, once startup has registered everything and until shutdown, without a timer (unless it is what a failed rollback left, which has a job), at most one intent belongs to a sandbox, nothing was stopped or removed whose label is not the token of the acting intent; the row of an adopted attempt stays, unless its deletion was pending before or a removal or discard of it was among the events; and no job is lost while the process runs |
| DockerClient.Client.SweepAll | internal/docker/recovery.go:98-118 | the loop of the sweep keeps every durable deadline armed and records only stops of rows that were overdue; within the budget and without a failed call every one of them ends at rest |
| Timers.Registered | internal/docker/recovery.go:65-84 | once every intent and every deadline is registered, every durable deadline has its timer, and no sandbox runs without one |
| Timers.ReconciledArmed | internal/docker/recovery.go:264-315 | after the recovery of one intent every durable deadline still has its timer, with exactly this deadline unless a response was lost |
| Timers.SweptArmed | internal/docker/recovery.go:98-118 | the sweep drops a timer only with the deadline |
| Timers.OwnerStays | internal/docker/lifecycle.go:186-369 | an operation on one sandbox leaves no other without its timer; and it is enough that it starts its own only with a timer and drops that only when the container is stopped or the row gone |
| DockerClient.KeepsTrans | internal/docker/recovery.go:165-190 | over any two runs of one process: a job that was registered for a pending intent is there as long as the intent, and an attempt is remembered until it is adopted or gone |
| Lifecycle.AllOrNothing | internal/service/service.go:74-110 | an attempt whose intent is retired is either owned (and adopted, if it had to be, and running only under the deadline of its row) or wholly undone, never both |
| Lifecycle.OneOfThree | internal/service/service.go:74-110 | in every reachable state an attempt that awaits adoption is wholly undone, or pending under the number of its token until it is adopted, or adopted with its row and nothing pending |
| Lifecycle.AdoptedMayStay | internal/service/service.go:91-108 | the input on which a failed creation leaves the sandbox running with nothing pending: adopted, then not read back, and the deletion not recorded |
| Lifecycle.AdoptedIsKept | internal/docker/recovery.go:264-277 | recovery of any intent but a deletion of it keeps the row of an adopted attempt, whether it is finished or cut, disturbed or not; undisturbed, it keeps the container as well |
| Lifecycle.CutIsHarmless | internal/docker/recovery.go:203-319 | a recovery that was cut between any two calls, any number of times, ends in the same rows, intents and containers as one uncut run, and the intent is retired |
| Lifecycle.SettleCommutes | internal/docker/recovery.go:87-97 | intents of different attempts may be recovered in either order |
| Lifecycle.SweepStopsEarlyIff | internal/docker/recovery.go:98-118 | the sweep finds a settled sandbox running before its durable deadline, and its guard passes, exactly if the row was overdue when it was read and a start or restart with a later deadline was pending |
| Lifecycle.SweepStopsEarlyOnce | internal/docker/recovery.go:98-118 | a reachable shape of tables and containers in which that happens |
| Startups.RecoverAndSweep | internal/docker/recovery.go:85-118 | from exactly such a state, recovery and sweep without a failed call do stop the container before its durable deadline: the stop is in the log with a deadline that is still ahead |
| Services.StillRemembered | internal/service/service.go:74-110 | whatever runs after a creation, the process still remembers the attempt, or it is adopted or gone, or the process was started again |
| Services.WatchedStays | internal/service/service.go:74-110 | whatever runs, an attempt in the hands of the background recovery stays there until it is adopted or gone |
| Services.Service.Adopt | internal/runtimeio/provision.go:27-62 | success means adopted: the image is the prepared one, provenance is as given, row kept, native identity checked, no intent left, the attempt final; without a failed call it succeeds exactly if the image is the prepared one; after a failure the attempt is adopted all the same, or gone, or its intent has a job, or the process was restarted or its queue stopped |
| Services.Service.Recover | internal/runtimeio/provision.go:68-87 | marking a sandbox whose rollback failed changes no intent, and no row but in its provenance; it succeeds if no call fails and the row is there |
| Services.Service.Discard | internal/service/service.go:101-109 | the attempt is undone, which is so if no call fails and a deletion is admitted; or its intent is pending, and has a job unless the attempt was adopted, the process restarted or the queue stopped; or it was adopted and stays with nothing pending; what stays is marked unless the marking fails |
| Services.Service.Finish | internal/service/service.go:84-110 | with anything else happening in between: success means that the row read back is the row of this sandbox and the attempt is final; failure ends in one of the three ways of Discard; with nobody else at work it succeeds, if no call fails, exactly if the image is the prepared one, and after one failed call it has succeeded or is wholly undone |
| Services.Service.Answer | internal/service/service.go:91-108 | an adopted sandbox is answered only if its row was read back without a failure; otherwise it is undone, unless a call fails |
| Services.Service.Create | internal/service/service.go:74-110 | success means that the creation is adopted for good: its token is final, the row read back under the public identity has this token and this container, and no creation intent of it is left; a failure ends undone, or with a pending intent that has a job (unless it was adopted, the process restarted, the queue stopped, or nothing native exists for it), or, only if it was adopted, with the sandbox and nothing pending; with nobody else at work and no failed call it succeeds exactly if the image exists and is the prepared one, with provenance as given, and is undone otherwise |
| RecoveryQueues.NextKeeps | internal/runtimeio/recovery.go:52-134 | every critical section of the queue keeps its invariant |
| RecoveryQueues.EveryRun | internal/runtimeio/recovery.go:52-134 | over any number of callers and keys: attempts never overlap and leave a pause between them, and every job has an armed timer, a Run on its way or waiting for it, or is the active attempt |
| RecoveryQueues.LeavesOnlyBySuccessOrStop | internal/runtimeio/recovery.go:106-134 | a job leaves exactly by the success of its own attempt or by Stop |
| RecoveryQueues.NothingAfterStop | internal/runtimeio/recovery.go:123-134 | after Stop the queue stays closed and empty, the active attempt is cancelled, and nothing is dispatched |
| RecoveryQueues.RecoveryQueue.Schedule | internal/runtimeio/recovery.go:52-67 | registers a job once per key, never after Stop, with a timer that fires after the retry delay |
| RecoveryQueues.RecoveryQueue.Head | internal/runtimeio/recovery.go:72-101 | gives up, waits, or dispatches; dispatches exactly if the job is there, idle, alone, and after the pause |
| RecoveryQueues.RecoveryQueue.ParentDone | internal/runtimeio/recovery.go:89-96 | a waiting caller that is cancelled puts the timer of its job back, with the retry delay |
| RecoveryQueues.RecoveryQueue.Done | internal/runtimeio/recovery.go:102-119 | the end of an attempt drops the job on success and otherwise arms its timer with the retry delay |
| RecoveryQueues.RecoveryQueue.Stop | internal/runtimeio/recovery.go:123-134 | stops every timer, cancels the active attempt, and drops every job |
| CacheLocks.EveryRun | internal/docker/cache_lock.go:21-63 | over any number of acquirers, cancellations and releases: a reference never has two holders although its entries are deleted and recreated, refs is the number of registered callers, and an entry exists exactly while somebody is registered |
| CacheLocks.LastUser | internal/docker/cache_lock.go:51-63 | an entry is forgotten exactly by its last user |
| CacheLocks.FreeIffNoHolder | internal/docker/cache_lock.go:37-42 | a registered caller can take the lock exactly while nobody has it |
| CacheLocks.CancelUndoes | internal/docker/cache_lock.go:37-42 | a cancelled acquisition leaves entries, slots and callers as they were |
| CacheLocks.CacheLockTable.Begin | internal/docker/cache_lock.go:25-35 | registers at the live entry of the reference |
| CacheLocks.CacheLockTable.End | internal/docker/cache_lock.go:37-48 | ownership is granted exactly if the send went through and the context is still live |
| CacheLocks.CacheLockTable.Drop | internal/docker/cache_lock.go:51-63 | gives the slot back if it was held, and forgets the entry with its last user |
| OciGraphs.ReadBlobIff | internal/images/store.go:269-291 | what is read is the whole blob, with the size and digest of the reference and within the metadata limit |
| OciGraphs.ChildrenIff | internal/images/graph.go:48-78 | an index refers to its manifests, an image to its config and then its layers, in the schema version that is accepted, and nothing else refers to anything |
| OciGraphs.ValidatedMeans | internal/images/graph.go:82-143 | every blob that a successful validation entered is a regular file with the size and digest of its reference, which has a media type, no external URL and no wrong embedded data |
| OciGraphs.ValidatedAccounts | internal/images/graph.go:82-143 | a successful validation returns the total size of the distinct blobs it newly marked, at most the disk budget, each sound and entered once |
| OciGraphs.ValidatedWalks | internal/images/graph.go:18-36 | on a validated graph the size walk and the copy walk mark the same blobs in the same order and give the same number, without any depth limit |
| OciGraphs.ValidatedCollects | internal/images/verified.go:75-103 | on a validated graph the collection succeeds and marks the same blobs in the same order |
| OciGraphs.OneGraph | internal/images/graph.go:82-143 | all of this for one whole graph |
| OciGraphs.ValidateLocal | internal/images/graph.go:82-143 | a successful validation depends on the files it marked and on nothing else in the store |
| OciGraphs.CompleteIffConsistent | internal/images/graph.go:112-141 | because blobs are marked by digest alone, a successful validation has entered every reference of the graph exactly if no digest is referred to as two different things |
| OciGraphs.SameKindIsConsistent | internal/images/graph.go:48-78 | references that agree on kind and size for every digest are enough for that |
| OciGraphs.ValidationMayBeIncomplete | internal/images/graph.go:112-141 | a graph that validates although the config of one of its images is missing |
| OciWalks.Walker.ValidateGraph | internal/images/graph.go:82-143 | the recursive method with its shared set computes the specified validation |
| OciWalks.Walker.GraphSize | internal/images/graph.go:18-36 | the recursive method computes the size walk; it ends on every graph, also a cyclic one |
| OciWalks.Walker.CopyGraph | internal/images/archive.go:237-277 | the recursive method writes every blob that the walk marks, once, before its children |
| OciWalks.Walker.CollectFiles | internal/images/verified.go:75-103 | the recursive method marks what the collection marks |
| OciLayers.ValidateLayers | internal/images/layers.go:22-91 | accepts exactly the images whose layers expand to the identities the config lists and fit the budget together |
| OciLayers.LayersLocal | internal/images/layers.go:22-91 | for a validated image this depends only on the files its validation marked |
| OciLayers.SameReference | internal/images/verified.go:56-56 | annotations and platform do not matter to validation; acceptable URLs and embedded data do not either |
| VerifiedCaches.HitIffAcceptable | internal/images/verified.go:56-73 | while the stamps are unchanged, the cached size is what full verification gives now exactly for descriptors without external URLs and wrong embedded data |
| VerifiedCaches.Undisturbed | internal/images/verified.go:114-122 | if the stamps before and after are equal, collection, validation and layer check have looked at the same files |
| VerifiedCaches.NothingStirs | internal/images/verified.go:75-122 | an image that verifies passes every check of a verification during which its files keep their stamps |
| VerifiedCaches.Unchanged | internal/images/verified.go:105-122 | what was collected is then exactly the snapshot of the files that validation marks |
| VerifiedCaches.VerificationCache.Verified | internal/images/verified.go:52-136 | a hit happens exactly if there is an entry for the key whose files all have their stamps, and gives its size, which is what full verification concludes about the store now, up to the descriptor fields that the key leaves out; a miss succeeds exactly for an image that verifies and whose files keep their stamps, with its size, and then an image of at most 256 files is in the cache, which never holds more than 64 entries |
| VerifiedCaches.VerificationCache.Remember | internal/images/verified.go:123-134 | stores the entry, with all others, or alone if the cache was full; every entry stays justified |
| PlatformSelection.SameIffCanonical | internal/images/graph.go:38-47 | two platforms are the same exactly if their canonical forms are equal, which leave out the default variant of arm64 and amd64 and nothing else |
| PlatformSelection.RunsOnIff | internal/images/graph.go:144-187 | an image is for a platform exactly if its first reference is a readable config that says so, up to canonical form |
| PlatformSelection.SelectIsFirst | internal/images/graph.go:144-187 | selection returns the first image for the platform in depth-first order and fails only if there is none |
| PlatformSelection.ImagesAreReached | internal/images/graph.go:144-187 | the images are exactly the ends of the ways along tried index entries within the nesting limit |
| PlatformSelection.SelectManifest | internal/images/graph.go:144-187 | the loop over the entries returns that first image, whose config says the platform that was asked for |
| Catalogs.ShareOut | internal/images/store.go:137-151 | for every iteration order, every tag of a root gets exactly the platforms that some tag of it had, and nothing else changes; a shared catalog is left as it is |
| Catalogs.SharedStays | internal/images/store.go:137-151 | normalisation is idempotent |
| Catalogs.PublishShares | internal/images/publish.go:28-37 | after a publication every tag has its own root, and only platforms its root was prepared for, in the archive or before |
| Catalogs.OrderDoesNotMatter | internal/images/store.go:137-151 | two iteration orders give the same platforms, and the same catalog if every platform of a root was prepared once |
| Catalogs.Publish | internal/images/publish.go:28-37 | every published tag has the root and the descriptors it is published with, keeps what it had before for the same root and gets nothing else; no other tag changes |
| Catalogs.Lookup | internal/images/store.go:211-223 | by name first, then by the digest of the root |
| Catalogs.LookupIsDetermined | internal/images/store.go:211-223 | in a shared catalog a lookup by digest does not depend on the order |
| Catalogs.Remove | internal/images/store.go:325-348 | removes one tag by its name, or all tags of a digest, or nothing |
| Catalogs.PublishKeeps | internal/images/publish.go:28-37 | a publication gives every tag of its roots the new platforms and loses no platform of a root that is still tagged |
| Catalogs.OthersKeepTheirs | internal/images/store.go:137-151 | a tag that is removed or moved takes nothing from the other tags of its root |
| Catalogs.Transact | internal/images/store.go:99-160 | one writing transaction establishes sharing; a publication puts every published tag on its root, leaves every other tag on its own, keeps what was prepared and invents no platform for a root; a removal takes exactly the one tag of that name, or all tags of that digest, and changes no other entry |
| Catalogs.History | internal/images/store.go:99-160 | every transaction of any history from an empty catalog does what it is for, and after each references with the same root have the same prepared platforms |
| OciArchives.Export | internal/images/archive.go:192-289 | succeeds exactly for graphs that validate under a reference that parses, and writes the layout, an index with the one root, and the blobs of the graph, each once |
| OciArchives.AnnotationIs | internal/images/archive.go:219-229 | a digest is exported under the name for its digest, a reference that pins a digest pins the exported root, any other reference is kept |
| OciArchives.AdmitIff | internal/images/archive.go:126-158 | a root is admitted exactly if it validates, has an image for the platform, and a name that parses and pins no other digest |
| OciArchives.Unpack | internal/images/archive.go:51-118 | accepts exactly the archives whose members have distinct names, are nothing unexpected, keep metadata within its limit and hash to their names, within the entry and size limits; what is staged is exactly the blob members, the index, and whether the layout file is right |
| OciArchives.Import | internal/images/archive.go:119-160 | succeeds exactly for accepted archives all of whose roots validate, have an image for the platform with the layers it says, and a reference that agrees; every entry is stored under the canonical form of the name asked for, or else of the name in the archive, and holds the image that is selected from its root |
| OciArchives.ReadAllIff | internal/images/archive.go:51-118 | reading one member after the other accepts exactly proper, distinct members that fit, and what has been read is what they hold |
| OciArchives.RoundTrip | internal/images/archive.go:164-289 | exporting a prepared platform and importing the archive for it succeeds within the import limits, prepares the same manifest from exactly the same bytes, and stores it under the reference it was exported under |
| OciReach.ReachableIsSound | internal/images/graph.go:82-143 | in a consistent graph that validates every reference is sound, also those that were skipped because their digest was marked |
| OciReach.ValidatesIffSound | internal/images/graph.go:82-143 | within the limits a consistent graph validates exactly if all its references are sound |
| OciReach.PartValidates | internal/images/graph.go:82-143 | a part of a consistent graph that validates, validates by itself unless it is nested too deeply |
| OciReach.MarksAreReachable | internal/images/graph.go:82-143 | a successful validation of a consistent graph marks exactly the digests that can be reached |
| OciReach.WalkUnites | internal/images/graph.go:18-36 | a size walk that starts with the marks of other graphs adds the marks of one more graph and counts each new blob once |
| OciReach.ListSize | internal/images/store.go:355-380 | sizing the prepared images of a root with one shared set of marks counts every blob of their union exactly once, in any order, if they agree about their digests |
| OciPrepared.ImportPrepares | internal/images/archive.go:119-160 | if the root is consistent and the image not nested too deeply, what an import prepares validates by itself in every store that has its blobs, runs on the platform and has the layers it says |
| OciPrepared.ImportedValidatesIff | internal/images/archive.go:119-160 | whatever the root is, a prepared image validates by itself exactly if everything below it is sound, provided it is consistent and not nested too deeply |
| OciPrepared.ImportedHit | internal/images/verified.go:56-73 | what reaches the verification cache from an import with a consistent root is acceptable, so that every hit is right |
| OciPrepared.ValidatedHit | internal/images/verified.go:56-73 | the same for a descriptor that was validated itself before it was published |
| OciPrepared.UrlsSlipIn | internal/images/archive.go:126-158 | an archive that is accepted and prepares an image that validation refuses for its external URL |
| OciPrepared.CacheLetsThemIn | internal/images/verified.go:56-73 | once the same manifest was verified without the URL, the cache answers for that image |
| Logs.TailOfTail | internal/applecontainer/runner.go:85-107 | forgetting early or late leaves the same last bytes |
| Logs.OverrunStays | internal/docker/ringbuffer.go:127-131 | a follower that has lost bytes is never told otherwise later |
| Logs.RingBuffer.Write | internal/docker/ringbuffer.go:35-64 | the circular array holds the last bytes of the unbounded log, in both branches and around its end |
| Logs.RingBuffer.Bytes | internal/docker/ringbuffer.go:82-100 | the content is the tail of the log, oldest byte first |
| Logs.RingBuffer.CloseWithError | internal/docker/ringbuffer.go:71-79 | the first error stays |
| Logs.RingReader.Poll | internal/docker/ringbuffer.go:115-163 | delivers the next bytes of the log, so that all that was delivered is a gap-free prefix of it; reports an overrun exactly if bytes are lost; reports the end or the source error only after everything was delivered |
| Logs.BoundedBuffer.Write | internal/applecontainer/runner.go:85-107 | a tail buffer holds the last bytes of the log, any other the first, and overflow says whether that is not all |
| Logs.BoundedBuffer.Snapshot | internal/applecontainer/runner.go:108-112 | the retained bytes, and whether any are missing |
| Logs.LogReader.Copy | internal/applecontainer/commands.go:345-361 | the first look of a turn delivers the next bytes of the output, reports an overrun exactly if bytes are lost, or finds nothing |
| Logs.LogReader.Settle | internal/applecontainer/commands.go:362-374 | the second look, after others may have written, answers the end exactly if the command is done and everything was delivered |
| Logs.Follow | internal/applecontainer/commands.go:340-375 | however the steps of the command and of its follower interleave, the log is what the command wrote, what was delivered is a gap-free prefix of it, and all of it for good once the end was answered |
| Logs.WriteBoth | internal/docker/ringbuffer.go:35-100 | for every sequence of writes the ring and the tail buffer of the same capacity hold the same bytes |
| Utf8Framing.DecodesGrammar | internal/api/handler.go:457-464 | a character of some size is decoded exactly where section 4 of RFC 3629 has one |
| Utf8Framing.WaitsForGrammar | internal/api/handler.go:457-457 | more input is waited for exactly while the bytes can still become a character |
| Utf8Framing.CarryIsSmall | internal/api/handler.go:472-472 | at most three bytes are carried, so every read has room |
| Utf8Framing.WholeIsLongest | internal/api/handler.go:457-464 | what is sent is the longest prefix that is text |
| Utf8Framing.Scan | internal/api/handler.go:457-464 | the inner loop finds exactly that prefix of the buffer |
| Utf8Framing.Handle | internal/api/handler.go:457-482 | what one read leads to: a frame, an error exactly for bad text or for a read that broke, with its fault, the end, or a small carry; or nothing more if the send is lost to a cancelled context |
| Utf8Framing.ReadStream | internal/api/handler.go:431-484 | whatever the reads are: reading goes on exactly until one of them ends it or a hundred in a row were empty; every text frame is text by itself; if reading broke before anything bad was received, the frames are the text received and the error that the reader gave; otherwise they are all text up to the first bad byte or the end, with an error exactly if that is not all; a send is lost only to the cancelled context |
| Preambles.ParseIsInverse | internal/docker/command_identity.go:144-159 | parsing accepts exactly what printing an identity within the bounds gives, and gives that identity back |
| Preambles.RecordIs | internal/docker/command_identity.go:144-159 | the record holds the tag, the nonce, the process number and the start time, in this order, in decimal without leading zeros, between single spaces and before a newline |
| Preambles.ExpectedIff | internal/docker/command_identity.go:258-285 | an identity is published exactly for streams that begin with its record |
| Preambles.IdentityStderr.Write | internal/docker/command_identity.go:258-285 | one more write leads to what the whole stream so far requires |
| Preambles.IdentityStderr.Publish | internal/docker/command_identity.go:240-247 | an identity or an error is published once |
| Preambles.IdentityStderr.Finish | internal/docker/command_identity.go:287-295 | at the end something is published: the identity of the first record, or an error |
| Preambles.Filter | internal/docker/command_identity.go:258-295 | for every cutting into writes the identity is the one in the first record and the retained stderr is exactly what follows it; or an error is published and returned, and nothing is retained |

## Left out

- Services.Service.Create: image resolution and the checks of the request happen before anything durable and are parameters.
- DockerClient.Client.StopLocked: promises no background job when the recording of its intent was not reported, because the source returns before it registers one; the timer of the sandbox or the next startup finds such an intent.
- DockerClient.Client.Recover: says nothing about jobs for intents that the sweep itself begins, because a lost response leaves those without one.
- DockerClient.Client.ReconcileAll: the warm-up budget counts turns of the two loops instead of time, and cancelled contexts are nondeterministic choices.
- DockerClient.Client.Run: that a timer has the very deadline of its row is stated at startup and for the calls that set it, and not over runs, because after a lost response the timer keeps its earlier entry; a creation whose rollback could not remove the container has a job and no timer.
- DockerClient.Client.Mark: marks are events between operations; that one may also fall between two calls of an operation is covered by `Repositories.MarkCommutes` and not by the steps of the environment.
- Repositories.Repository.ValidateOperation: rows and intents with an empty runtime kind or token (legacy rows) are excluded by the invariant; unknown kinds of intents cannot be written down.
- Repositories.Repository.DeleteOperation: the table of commands of a sandbox is not modelled.
- Logs.RingBuffer.Write: the capacity is positive, as for the only caller; a capacity of zero divides by zero in the source.
- Logs.BoundedBuffer.Write: the 64-bit counter of written bytes does not wrap.
- OciArchives.Import: the archive is a sequence of members; gzip detection and the byte format of tar are not modelled, only its block sizes.
- OciReach.ListSize: says nothing for graphs that refer to one digest as two different things; then a blob below it may not be counted.
- VerifiedCaches.VerificationCache.Verified: two concurrent verifications of the same image are not interleaved.
- Utf8Framing.ReadStream: the channel of lines is unbounded; which send is lost to a cancelled context is a parameter.
- The Apple container backend, the second instance of the lifecycle protocol; only its log buffers are modelled.
- Pause, Resume, and command execution in a sandbox.
- Routing: its two admission checks and the native snapshot that concurrent callers share between them.
- HTTP and MCP handlers other than the log stream, configuration, command line, and logging.
- Registry access, credentials and transports.
- Wall-clock budgets, log texts and the wording of errors.
