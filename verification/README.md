# Verified models of the choysum runtime

This project models the parts of the choysum runtime whose correctness is hardest to see from one
function: its transaction propagation, three lease, queue and pool protocols, the executor's
lifecycle, the type-definition fetch, the identity cache, and a few graph and text algorithms. Each
module takes one component, restates its behaviour in Dafny, and proves what the component promises
for every input, every run or every reachable state.

`dafny verify dfyconfig.toml` checks all modules.

## How the modules are built

Where the Go code changes objects step by step, the model has a class with the same fields and
methods. For the concurrent protocols there is in addition a pure transition function `Next` (or
`Step`) over a value `State`: one step is one atomic action of the code (an SQL statement, an atomic
operation, a stretch under a mutex), `Run` takes any sequence of steps of any number of
participants, and the lemmas are about `Run`. The class methods are proved to compute exactly `Next`.
Beside them stand lemmas that say what each call comes to, case by case, in terms of fields and
literals and not of the functions `Next` is made of (`UndisturbedRequest`, `BusyModuleIsMarked`,
`LoneCallProvisions`, `StopEnters`, `PropagationDecides` and others).

- **TransactionPropagation** (`internal/defaultscope/transactor.go`). A handler is a tree of writes
  and transactor calls that branches on whether a call failed. `Exec` is the code: one flat session
  with a write log, a stack of named savepoints, a sticky rollback cause. `Eval` is the recursive
  all-or-nothing meaning without savepoints. The two are proved equal whenever no supplied savepoint
  name is used inside a call of the same name.
- **JobLease** (`internal/service/taskworker.go`, `taskworker_adapter.go`). Workers insert or take
  over one row per job, heartbeat, and finalise it under `lease_owner`, in any interleaving, with
  crashes, lost answers and unsynchronised clocks.
- **ProvisionLease** (`internal/provision/lease.go`, `minimal.go`). Processes compete for the one
  installation lease over a shared clock; renew ticks are on time and a locker call takes at most
  `maxDelay`. An install may come back with success although its context was cancelled.
- **HotReload** (`internal/server/server_hotreload_*.go`). The bounded event queue, the busy set and
  the dirty map; handling one watch event, one dequeue, and "finish and requeue" are the steps.
- **ThreadPool** (`internal/defaultjsexecutor/pool.go`). createThread and detachThread calls
  interleave at their atomic operations: counter, thread map, copy-on-write id list.
- **ExecutorLifecycle** (`internal/defaultjsexecutor/executor.go`). Start, Stop and Reload calls
  interleave at their stretches under `controlMu`.
- **JsThread** (`internal/defaultjsexecutor/thread.go`). One thread's loop over actions and tasks; how
  each engine call ends is an input.
- **TypeFetch** (`internal/esmresolver/typefetch.go`). The recursive download as a tree of tasks over
  one visited set. Cold cache, normalised URLs, no cancellation.
- **IdentityCache** and **Authenticator** (`internal/jwtauth`, `internal/defaultcache`). The cache of
  validated identities and its index by user, over stores whose calls may fail, and token validation
  through it.
- **DependsClosure** (`cmd/cmd_typefetch.go`). The worklist over module dependencies.
- **SpanRewrite**, **CacheFileNames** (`internal/esmresolver/typefetch.go`). Replacing specifier spans
  in a text, and the package name read back from a cache file name.
- **VueChain** (`internal/parser/vueutil.go`). The walk along same-named component inheritance.

## Where the code and what is expected of it part

- A Nested call with a savepoint name that an enclosing call already uses shadows the outer savepoint
  when the inner call fails and leaks it; the outer rollback then keeps a row it should drop
  (`ShadowedRollbackKeepsRow`, `RepeatedNameShadows`; exact condition `NamesAreSafeIffDistinct`).
- A worker's own SUCCEEDED reply is sent without looking at whether its final update matched a row, so
  it may be sent while another worker owns the running job (`SuccessReplyMayBeUnbacked`; exact
  condition `OwnSuccessIsBackedIffStillOwner`). Replayed SUCCEEDED replies are always backed.
- After the deadline of an install the renew loop has stopped without an error, so an install that ignores
  its cancelled context is reported as successful although the lease may be somebody else's
  (`DeadlineAllowsTwoInstalls`; `OneInstallIffNobodyStubborn` says for which processes' installs that must
  be ruled out: for all).
- Between the coalescing check and the dirty mark, the key's own event may finish; the mark is then
  stranded until the next watch event exactly when nothing else is busy (`LateMarkStrandedIffIdle`,
  `StrandedUntilWatchEvent`, `WatchEventRevives`, `LateMarkCanBeStranded`).
- A thread detached between its map store and its list publication leaves a stale id in the list
  (`DetachBeforePublishLeavesStaleId`; exact condition in `QuiescentAgreement`).
- A pool start that fails while a Stop is waiting puts the executor back to New and forgets the waiting
  Stop; a second Stop then makes it Stopped without closing the channel the first one waits on
  (`FailedStartStrandsParkedStop`). A failed start alone is no harm if a later Start succeeds: what counts is
  whether a Stop finds the phase New with a live channel (`StoppedReleasesAllIffNeverAbandons`).
- A revoked token leaves the cache, but a later validation that does not check for revocation, or cannot
  reach the store, accepts it and caches it again (`UncheckedIsAccepted`; exact condition
  `RevocationDecides`).
- Storing an identity whose token id is empty, or shared with another live token of the user, leaves an
  identity that the user's index does not list (`StoreAgreesIff`); so does a failed back-out
  (`SetStuck`).
- A component with two same-named children has only the first one walked (`IsPermutationIff`), and on
  cyclic `extends` the walk to the root never ends (`CycleNeverEnds`; exact condition
  `ClimbEndsIffAcyclic`).
- A later `@`, an underscore in a scope, or an unscoped name such as `v1_x` makes the package read back
  from a cache file name another one (`ParsesBackIff`).

## Model

| member | source | states |
|---|---|---|
| TransactionPropagation.MachineRefinesReference | internal/defaultscope/transactor.go:33-164 | for every tree without reused names and every pattern of failing statements, the flat session returns the error and commits exactly the rows of the recursive all-or-nothing semantics |
| TransactionPropagation.ExecRefines | internal/defaultscope/transactor.go:33-164 | any handler run inside an open session agrees with the reference, and leaves the enclosing savepoints as they were below leaked ones with other names |
| TransactionPropagation.FreshRefines | internal/defaultscope/transactor.go:87-113 | a call that opens its own transaction agrees with the reference whatever statement fails |
| TransactionPropagation.NestedRefines | internal/defaultscope/transactor.go:131-164 | a Nested call on the session agrees with the reference although failed calls leave savepoints behind |
| TransactionPropagation.NestedIsAllOrNothing | internal/defaultscope/transactor.go:131-164 | a failed Nested call puts the pending log back to its value at entry, never touches the outer rollback cause, and succeeds only if its savepoint, body and release all do |
| TransactionPropagation.CommitsAppend | internal/defaultscope/transactor.go:33-63 | on the session machine, with any savepoint names and any refused statements, what inner RequiresNew calls commit only extends the committed rows, and nothing else depends on those, so it survives any outer rollback |
| TransactionPropagation.FreshIsAllOrNothing | internal/defaultscope/transactor.go:87-113 | on the session machine, whichever statements are refused, an own transaction commits all of its pending rows when it returns nil and none otherwise, and inner commits stay in both cases |
| TransactionPropagation.CauseIsFirstJoinedFailure | internal/defaultscope/transactor.go:115-129 | on the session machine, with any savepoint names and any refused statements, the sticky rollback cause is the first failure of a joined call in execution order |
| TransactionPropagation.FreshReportsJoinedFailure | internal/defaultscope/transactor.go:87-113 | no joined failure is swallowed: on the session machine, a transaction that could begin returns its own error or else the first joined failure, and reaches its commit only without either |
| TransactionPropagation.NestedReportsJoinedFailure | internal/defaultscope/transactor.go:131-164 | on the session machine, a joined failure inside a Nested call rolls the session back to the name of the call and is returned by it, joined with the error of the rollback if that fails; the outer cause is left alone |
| TransactionPropagation.NamesAreSafeIffDistinct | internal/defaultscope/transactor.go:131-164 | for savepoint names given by nesting depth, every tree and every pattern of refused statements has the reference result exactly when no supplied name comes twice |
| TransactionPropagation.RepeatedNameShadows | internal/defaultscope/transactor.go:131-164 | for any two depths with one name there is a tree in which the outer rollback goes to the savepoint that the inner call left, and a row of the failed call is committed |
| TransactionPropagation.ShadowedRollbackKeepsRow | internal/defaultscope/transactor.go:143-155 | with one name used twice, a leaked savepoint shadows the outer one and a row of the rolled-back call is committed |
| TransactionPropagation.OwnSavepointIsNewest | internal/defaultscope/transactor.go:180-199 | with distinct names above it, rollback by name finds the call's own savepoint |
| TransactionPropagation.Session.RollbackToSavepoint | internal/defaultscope/transactor.go:187-192 | rolling back to a name restores the newest snapshot of that name, keeps that savepoint and drops the ones above; an unknown name changes nothing |
| TransactionPropagation.Session.ReleaseSavepoint | internal/defaultscope/transactor.go:194-199 | releasing a name drops it and everything above it and keeps the rows |
| TransactionPropagation.Transactor.Do | internal/defaultscope/transactor.go:33-63 | the call changes session, cause, database and name generator exactly as the machine says, unknown propagation and missing function included |
| TransactionPropagation.Transactor.DoAtTop | internal/defaultscope/transactor.go:33-63 | the same for a call with no current transaction |
| TransactionPropagation.Transactor.RunFresh | internal/defaultscope/transactor.go:87-113 | begin, body, rollback on error or cause, commit: the machine's fresh call |
| TransactionPropagation.Transactor.RunJoined | internal/defaultscope/transactor.go:115-129 | a joined call runs on the current session and records its failure as rollback cause |
| TransactionPropagation.Transactor.RunNested | internal/defaultscope/transactor.go:131-164 | savepoint, body with a cause of its own, rollback or release: the machine's nested call |
| TransactionPropagation.TransactionState.MarkRollback | internal/defaultscope/transactor.go:201-208 | only the first failure is recorded |
| TransactionPropagation.PropagationDecides | internal/defaultscope/transactor.go:33-164 | on the session machine, for every propagation, savepoint name, pattern of refused statements, error of the called function and rows written before, in and after the call: which rows are committed, and which error the transaction returns, if its function ignores the call's error |
| TransactionPropagation.CallErrorIsReturned | internal/defaultscope/transactor.go:33-164 | which error such a call hands to its caller, invalid propagation and each refused statement included |
| JobLease.RunKeepsInv | internal/service/taskworker.go:131-245 | every reachable running row, and no other, has a lease time; succeeded rows have a result; each row's owner is a worker of that job; a replaying worker's reply matches the row |
| JobLease.RowChangesAreLegal | internal/service/taskworker.go:160-245 | a row changes only by its owner's heartbeat or finalise while running, or by a take-over of a row that has failed or whose lease was over when the new worker read the clock; the take-over keeps the stored result |
| JobLease.SettledRowIsFinal | internal/service/taskworker.go:388-436 | a succeeded or cancelled row never changes again, in any interleaving |
| JobLease.AtMostOneFinish | internal/service/taskworker.go:388-436 | over any run the number of finalises that succeed or cancel a job is one if its row ends settled and zero otherwise |
| JobLease.LostLeaseIsPowerless | internal/service/taskworker.go:203-245 | a worker whose row was taken over changes no row any more, its finalise included |
| JobLease.ReplayCarriesStoredResult | internal/service/taskworker_adapter.go:122-177 | a replayed SUCCEEDED reply carries the stored result of a succeeded row, then and for ever after |
| JobLease.OwnSuccessIsBackedIffStillOwner | internal/service/taskworker_adapter.go:122-177 | the worker's own SUCCEEDED reply matches the row exactly when it still owned the row and the update was not refused |
| JobLease.SuccessReplyMayBeUnbacked | internal/service/taskworker.go:388-404 | a concrete run in which a SUCCEEDED reply is sent while another worker owns the running job |
| JobLease.MissNeedsWrite | internal/service/taskworker.go:160-201 | a take-over update misses only if the row was written since it was read |
| JobLease.RetriesBoundedByWrites | internal/service/taskworker.go:160-201 | over any run the retries of handleExisting number at most the writes to the row, plus one if it was stale already |
| JobLease.RoundTripsIffNoLease | internal/service/taskworker.go:160-201 | reading a running row and updating it changes nothing, and would be retried for ever, exactly when its lease time is missing, which no reachable row's is |
| JobLease.TaskExecutionStore.Insert | internal/service/taskworker.go:131-158 | the insert creates the row of a new job or sends the worker to read the existing one |
| JobLease.TaskExecutionStore.Select | internal/service/taskworker.go:160-201 | the read replays a settled row, turns away from a running row with a live lease, and otherwise, over a failed row or an expired lease, goes on to the update; UndisturbedRequest says so without the step function |
| JobLease.TaskExecutionStore.UpdateToTakeOver | internal/service/taskworker.go:160-201 | the conditional update takes the row over exactly when it has failed, or is running with an expired lease, and keeps its stored result |
| JobLease.TaskExecutionStore.Beat | internal/service/taskworker.go:203-245 | a heartbeat extends only the worker's own running row, and reports no loss exactly if it was answered and found that row, which is then the worker's until now plus the lease duration |
| JobLease.TaskExecutionStore.FinalizeOwned | internal/service/taskworker.go:388-436 | a finalise settles only the worker's own running row, clears the lease, and replies without regard to whether it matched |
| JobLease.TaskExecutionStore.HandleExisting | internal/service/taskworker.go:160-201 | among any interfering steps the loop ends with a reply or as owner of the running row, after at most one try more than there were interfering rounds; without interference it starts the job exactly over a failed row or an expired lease, and otherwise replies what the row says, the wait capped |
| JobLease.UndisturbedRequest | internal/service/taskworker.go:160-201 | a request that reads a row and that nobody disturbs starts the job exactly over a failed row or a lease that is over, for the lease duration and with the stored result kept; otherwise no row changes and it replies the stored result, CANCELLED, or the rest of the lease capped |
| JobLease.FirstRequestStarts | internal/service/taskworker.go:131-158 | the first request for a job creates its row and runs it |
| JobLease.LaterRequestReads | internal/service/taskworker.go:131-158 | a request for a job that has a row changes no row and goes on to read it |
| JobLease.UnansweredRequestIsRejected | internal/service/taskworker.go:131-201 | a start whose insert, read or update gets no answer, or whose row is missing, ends as FAILED_RETRYABLE |
| JobLease.OvertakenRequestReadsAgain | internal/service/taskworker.go:183-199 | an update that finds the row neither failed nor expired changes nothing and the row is read again |
| JobLease.HeartbeatExtendsIffOwnAndRunning | internal/service/taskworker.go:203-245 | a heartbeat that is carried out extends exactly the worker's own running row, and nothing else changes |
| JobLease.FinalizeSettlesOwnRow | internal/service/taskworker.go:388-436 | each of the three outcomes gives the worker's own row its status, clears the lease, stores a result only for a success, and has its own reply; another's row is left alone |
| JobLease.StartableJobIsRunAgain | internal/service/taskworker.go:131-201 | from every reachable state, a failed job or one with an expired lease is run by the next request and can succeed |
| ProvisionLease.CancelledBeforeExpiry | internal/provision/lease.go:112-162 | a holder whose renews keep failing is cancelled strictly before its last success plus TTL, give or take the delay of one locker call |
| ProvisionLease.UncancelledOwnsOrIsJustLate | internal/provision/lease.go:112-162 | an uncancelled holder owns the row, or its lease ended less than two call delays ago |
| ProvisionLease.UncancelledOwns | internal/provision/lease.go:56-162 | with instantaneous calls an uncancelled holder owns the row |
| ProvisionLease.RunKeepsInstallInv | internal/provision/minimal.go:103-183 | with the second check under the lease, at most one install is ever reported as successful, and none runs uncancelled after it, in every run in which no install comes back with success after a cancellation that the renew loop did not signal |
| ProvisionLease.OneInstallIffNobodyStubborn | internal/provision/minimal.go:161-183 | whatever set of processes has installs that may come back with success after such a cancellation: at most one install is reported in every run exactly when the set is empty; installs that lose the lease may come back with success in any case, as the check after the install catches them |
| ProvisionLease.DeadlineAllowsTwoInstalls | internal/provision/minimal.go:161-183 | one process whose install may ignore its deadline is enough: with any other process there is a run that reports two successful installs |
| ProvisionLease.RunKeepsInv | internal/provision/lease.go:56-162 | in every run a holder's lease covers the time its renew loop counts on |
| ProvisionLease.LateTickIsUnsafe | internal/provision/lease.go:112-162 | with an interval above the TTL there is a run with two uncancelled installs |
| ProvisionLease.SafeIffIntervalWithinTtl | internal/provision/lease.go:112-162 | with instantaneous locker calls no run has two uncancelled installs exactly when the renew interval is at most the TTL |
| ProvisionLease.Locker.Acquire | internal/state/lease/lease.go:72-177 | acquiring succeeds without a lease, over an expired one or over the owner's own, and stamps the start of the call plus TTL |
| ProvisionLease.Locker.Renew | internal/state/lease/lease.go:179-244 | renewing succeeds for the owner only, and an error that hides a success is possible |
| ProvisionLease.Provisioner.AfterRenew | internal/provision/lease.go:126-143 | after a renew: success resets the window, a transient error inside it is retried, anything else cancels the install and stops the loop |
| ProvisionLease.Provisioner.CheckAgain | internal/provision/minimal.go:115-123 | the re-check under the lease lets only an empty workspace be installed |
| ProvisionLease.Provisioner.AfterInstall | internal/provision/minimal.go:161-183 | an install that comes back with success leaves the workspace provisioned, and is reported unless the renew loop has signalled a failure |
| ProvisionLease.LeftAloneIffNeverCancels | internal/provision/lease.go:112-162 | over any run an install is left uncancelled exactly as long as no deadline hits it and each of its renews succeeded, or failed transiently less than TTL minus interval after the last success |
| ProvisionLease.CancelledExactlyThen | internal/provision/lease.go:126-143 | the moves that cancel an install: its deadline, a renew that finds another owner, and a transient failure outside the retry window |
| ProvisionLease.LoneCallProvisions | internal/provision/minimal.go:81-183 | a call that nobody disturbs, over a row that is free or over and an empty workspace, installs once, reports it exactly if the install succeeds, and leaves the row free |
| ProvisionLease.RowIsTakenIffFree | internal/state/lease/lease.go:72-177 | a row that another call holds turns the caller away; any other is the caller's from the start of the call for one TTL |
| ProvisionLease.ProbeDecides | internal/provision/lease.go:126-162 | the first answer of the renew loop lets the install begin or ends the call; later ones leave the stage alone, and only a success moves the retry window |
| ProvisionLease.TickRenews | internal/provision/lease.go:145-162 | a tick asks for a renew and starts the next interval |
| ProvisionLease.BeginChecksWorkspace | internal/provision/minimal.go:81-100 | a provisioned workspace needs no lease; an empty one does |
| ProvisionLease.RecheckDecides | internal/provision/minimal.go:115-123 | under the lease only an empty workspace is installed |
| ProvisionLease.SuccessIsReportedUnlessLost | internal/provision/minimal.go:154-176 | an install that succeeds provisions the workspace in any case and is reported exactly unless the lease was lost |
| ProvisionLease.ReleaseFreesOwnLease | internal/provision/lease.go:189-219 | a release that is carried out frees the row exactly if it is the owner's |
| ProvisionLease.RenewExtendsOwnLease | internal/state/lease/lease.go:179-244 | a renew that is carried out extends the owner's row from the start of the call, and its verdict says whose row it found |
| HotReload.UnpackInvertsPack | internal/server/server_hotreload_dispatch.go:321-351 | a queued event gives back the file and module it was made of exactly when the module name has no bar |
| HotReload.NoEventIsLost | internal/server/server_hotreload_pipeline.go:43-129 | in every run queued and in-flight keys are distinct and are the busy set, a key with an event newer than its last dequeue is queued or dirty, and a dirty mark implies something busy |
| HotReload.FinishKeeps | internal/server/server_hotreload_dispatch.go:321-351 | finishing an event and requeueing the marks in any order keeps that invariant and moves each mark at most once |
| HotReload.RequeueAllCovers | internal/server/server_hotreload_pipeline.go:102-129 | every mark taken is queued or dirty again afterwards |
| HotReload.QuietServerDrains | internal/server/server_hotreload_dispatch.go:321-351 | without new events, as many turns as there are queued, in-flight and dirty keys leave the server idle, whatever the order in which marks are requeued |
| HotReload.QueueNeverOverflows | internal/server/server_hotreload_pipeline.go:43-90 | with at least as many slots as distinct keys no event of any run meets a full queue |
| HotReload.LateMarkStrandedIffIdle | internal/server/server_hotreload_pipeline.go:71-74 | a mark set after its own event finished keeps the event recorded, and has nobody left to requeue it exactly when nothing is busy; no dequeue or finish moves it then |
| HotReload.StrandedUntilWatchEvent | internal/server/server_hotreload_pipeline.go:71-74 | such a mark stays where it is in every run without a watch event that is taken |
| HotReload.WatchEventRevives | internal/server/server_hotreload_pipeline.go:102-129 | the next watch event that is taken, for whichever key, brings the invariant back and with it the requeueing |
| HotReload.LateMarkCanBeStranded | internal/server/server_hotreload_pipeline.go:71-74 | a run that reaches that moment |
| HotReload.HotreloadState.BeginModuleEvent | internal/server/server_hotreload_state.go:182-196 | a key becomes busy if and only if it was not |
| HotReload.HotreloadState.MarkDirtyModuleIfAbsent | internal/server/server_hotreload_state.go:231-243 | an existing mark keeps its path |
| HotReload.HotreloadState.TakeDirtyModules | internal/server/server_hotreload_state.go:246-255 | all marks are handed over and none is left |
| HotReload.HotreloadState.EnqueueWatchEvent | internal/server/server_hotreload_pipeline.go:43-90 | the event is dropped, queued, or left as a mark exactly as the step says |
| HotReload.HotreloadState.RequeueDirtyWatchModules | internal/server/server_hotreload_pipeline.go:102-129 | the loop over the marks is the requeue step for the order it met them in |
| HotReload.HotreloadState.FinishAndRequeue | internal/server/server_hotreload_dispatch.go:321-351 | releasing the in-flight key and requeueing is the finish step |
| HotReload.OneSlotPerModule | internal/server/server_hotreload_pipeline.go:43-98 | in every run no two queued events name the same module, and none names the one in flight |
| HotReload.BusyModuleIsMarked | internal/server/server_hotreload_pipeline.go:66-74 | an event of a file in a module that is queued or in flight leaves the queue alone and marks that module with the resolved path |
| HotReload.FreeModuleIsQueued | internal/server/server_hotreload_pipeline.go:66-90 | an event of a file in a module that is neither is put last in the queue, or, if that is full, leaves a mark unless the module has one |
| HotReload.BusyFileIsMarked | internal/server/server_hotreload_pipeline.go:66-98 | the same marking for a file without a module |
| HotReload.FreeFileIsQueued | internal/server/server_hotreload_pipeline.go:66-98 | files without a module never coalesce with another: only an event of that very file, or a module of that name, stands in the way |
| HotReload.IgnoredIsNoEvent | internal/server/server_hotreload_pipeline.go:43-64 | a file that does not resolve, or resolves to an ignored path, changes nothing |
| HotReload.DequeueTakesHead | internal/server/server_hotreload_dispatch.go:321-351 | the head of the queue is taken, and is in flight under its module, or under its file without one |
| HotReload.FinishRequeuesMarks | internal/server/server_hotreload_pipeline.go:102-129 | with room in the queue, finishing an event turns each mark into an event of the path it holds, and keeps the mark of a module that is queued already |
| ThreadPool.PoolStaysWithinLimit | internal/defaultjsexecutor/pool.go:321-391 | in every interleaving registered plus initialising threads number at most maxPoolSize, although the raw counter may exceed it, and the id list has no duplicates |
| ThreadPool.QuiescentAgreement | internal/defaultjsexecutor/pool.go:321-391 | between calls the counter is the number of threads, and list and map have the same ids exactly when no thread was taken off the list before it was on it |
| ThreadPool.PublishedFirstHasNoEarlyIds | internal/defaultjsexecutor/pool.go:338-357 | if threads are detached only once created, there are no such ids |
| ThreadPool.FailedWarmupRestoresPool | internal/defaultjsexecutor/pool.go:213-265 | from a quiescent pool, new createThread calls interleaved in any way until each has returned, and then the rollback of every thread they created in any order of results, leave map, list with its order, and counter as they were |
| ThreadPool.RolledBackOne | internal/defaultjsexecutor/pool.go:253-265 | the rollback of one created thread runs to its end without a retry |
| ThreadPool.SlotsBound | internal/defaultjsexecutor/pool.go:213-250 | while only new calls move, the counter stays within the old threads plus the new calls |
| ThreadPool.DetachBeforePublishLeavesStaleId | internal/defaultjsexecutor/pool.go:360-391 | a detach between map store and publication leaves a stale id |
| ThreadPool.WithoutContents | internal/defaultjsexecutor/pool.go:338-357 | the copied list has every id but the one removed |
| ThreadPool.Pool.CompareAndSwap | internal/defaultjsexecutor/pool.go:321-335 | the list is replaced if and only if nobody replaced it since it was loaded |
| ThreadPool.Pool.CopyWithout | internal/defaultjsexecutor/pool.go:338-357 | the copy loop leaves out exactly the removed id |
| ThreadPool.Pool.CreateStep | internal/defaultjsexecutor/pool.go:360-391 | each atomic operation of createThread is the create step, the back-out past the limit and on failed start included |
| ThreadPool.Pool.DetachStep | internal/defaultjsexecutor/pool.go:123-130 | each atomic operation of detachThread is the detach step |
| ThreadPool.CreateAloneAddsOne | internal/defaultjsexecutor/pool.go:360-391 | from a quiescent pool, a createThread call on its own adds its thread to map, list and counter exactly if there is room and the engine starts, and otherwise fails and leaves all three as they were |
| ThreadPool.AdmissionAndStart | internal/defaultjsexecutor/pool.go:360-383 | a call is admitted exactly if the number it got is within the limit, and is ready exactly if its engine starts |
| ThreadPool.UnstartedIsNeverSeen | internal/defaultjsexecutor/pool.go:360-391 | in every run a call whose engine did not start, or that was over the limit, is never in the map or on the list |
| ExecutorLifecycle.RunKeepsInv | internal/defaultjsexecutor/executor.go:193-401 | over all interleavings Running has no pending stop, Stopping has a live channel, at most one call is inside the pool, and no channel is closed twice |
| ExecutorLifecycle.StoppedIsAbsorbing | internal/defaultjsexecutor/executor.go:293-344 | once Stopped, the executor stays Stopped and closes nothing more |
| ExecutorLifecycle.HealthIsLostExactlyByFailedStart | internal/defaultjsexecutor/executor.go:222-226 | the only step that takes a live channel out of the charge of a pending stop is a pool start failing under it |
| ExecutorLifecycle.HealthyIffNoFailedStartUnderStop | internal/defaultjsexecutor/executor.go:193-244 | the live channel of a Stop stays in the charge of a pending stop throughout a run exactly when no pool start fails under one |
| ExecutorLifecycle.StoppedReleasesAllIffNeverAbandons | internal/defaultjsexecutor/executor.go:293-305 | a run that ends in Stopped has released every parked Stop exactly when no Stop on the way found the phase New with a live channel; the result holds from every state such runs go through |
| ExecutorLifecycle.StoppedReleasesAllFromFresh | internal/defaultjsexecutor/executor.go:293-305 | the same for every run of a new executor |
| ExecutorLifecycle.NextKeepsLive | internal/defaultjsexecutor/executor.go:99-114 | outside Stopping a live channel always has a Stop parked on it |
| ExecutorLifecycle.StoppedReleasesEveryParkedStop | internal/defaultjsexecutor/executor.go:106-114 | in runs without a failed start under a stop every Stop parked in state Stopped has been released |
| ExecutorLifecycle.ParkedStopIsReleased | internal/defaultjsexecutor/executor.go:293-344 | in such runs at most two moves of the call inside the pool release the parked Stops, whatever other calls do |
| ExecutorLifecycle.FailedStartStrandsParkedStop | internal/defaultjsexecutor/executor.go:222-226 | after a pool start failed under a waiting Stop and a second Stop came, the first stays parked in every continuation |
| ExecutorLifecycle.JsExecutor.CompleteStopLocked | internal/defaultjsexecutor/executor.go:106-114 | completing a stop sets Stopped, clears the request and closes the channel once |
| ExecutorLifecycle.JsExecutor.BeginStop | internal/defaultjsexecutor/executor.go:293-344 | a Stop returns, takes the pool, or parks on the channel of the stop in progress |
| ExecutorLifecycle.JsExecutor.BeginReload | internal/defaultjsexecutor/executor.go:347-401 | a Reload enters the pool only from Running |
| ExecutorLifecycle.JsExecutor.AfterPool | internal/defaultjsexecutor/executor.go:193-401 | a call that comes back from the pool goes on as the step says, and hands over to a waiting Stop |
| ExecutorLifecycle.StartEnters | internal/defaultjsexecutor/executor.go:193-218 | a Start takes the pool exactly from New, with phase Starting, and otherwise returns and changes nothing else |
| ExecutorLifecycle.ReloadEnters | internal/defaultjsexecutor/executor.go:347-366 | a Reload takes the pool exactly from Running, with phase Reloading, and otherwise returns and changes nothing else |
| ExecutorLifecycle.StopEnters | internal/defaultjsexecutor/executor.go:293-344 | what a Stop does in each of the six phases: end a new executor, wait for the call in the pool and ask it to stop, take the pool, wait for the Stop already there, or nothing |
| ExecutorLifecycle.PoolCallComesBack | internal/defaultjsexecutor/executor.go:219-244 | a call back from a pool start or reload leaves the executor Running, or stops the pool if a stop was requested; a failed start goes back to New |
| ExecutorLifecycle.StopComesBack | internal/defaultjsexecutor/executor.go:99-114 | a call back from the pool's stop closes the channel and leaves the executor Stopped; a parked call returns exactly once its channel is closed |
| ExecutorLifecycle.UndisturbedLife | internal/defaultjsexecutor/executor.go:193-401 | a Start, a Reload and a Stop one after the other go through Running, Reloading, Running and Stopped |
| JsThread.Thread.Run | internal/defaultjsexecutor/thread.go:238-332 | each task received is sent one result and each request answered once, in order; the thread exits exactly when its engine does not load or upon the first input that ends it, and has then closed every engine it was given exactly once |
| JsThread.Thread.Loop | internal/defaultjsexecutor/thread.go:270-331 | between inputs exactly one engine is current and all others have been closed once, and the loop ends upon a closed queue, a stop or retire request, or the task that reaches the execution limit |
| JsThread.Thread.ExecuteAction | internal/defaultjsexecutor/thread.go:335-440 | a reload swaps engines only if the new one loads and closes the displaced or failed one; stop and retire close the current one and end the thread |
| JsThread.Thread.ExecuteTask | internal/defaultjsexecutor/thread.go:443-485 | a task is sent one result whether or not its execution panics |
| JsThread.Thread.InitEngine | internal/defaultjsexecutor/thread.go:218-235 | an engine that fails to load is kept for the exit to close |
| JsThread.Thread.CheckAndRetireIfNeeded | internal/defaultjsexecutor/thread.go:506-518 | the thread asks itself to retire exactly at its execution limit and with the pool's consent |
| TypeFetch.StepConserves | internal/esmresolver/typefetch.go:182-218 | every move changes the visited set exactly as it changes what the tasks have claimed or reported |
| TypeFetch.ReportsNoUrlTwice | internal/esmresolver/typefetch.go:449-679 | in every interleaving, with any failures, a finished fetch reports no URL twice and exactly the visited ones |
| TypeFetch.FetchesWhatIsReachable | internal/esmresolver/typefetch.go:449-679 | a finished fetch reports every URL reachable through URLs that do not fail at a last attempt, and only URLs reachable through URLs that can succeed |
| TypeFetch.FetchesExactlyTheReachable | internal/esmresolver/typefetch.go:449-679 | if all downloads succeed it reports exactly the URLs reachable from the root, each once, despite visited set, ancestor cut and retries |
| TypeFetch.StepKeepsDue | internal/esmresolver/typefetch.go:460-475 | the ancestor cut and the skip of visited URLs lose no URL that is due |
| TypeFetch.NewlyLoadedImportsAreDue | internal/esmresolver/typefetch.go:589-630 | all imports of a URL are due when it has been loaded |
| TypeFetch.MoveIsLighter | internal/esmresolver/typefetch.go:449-679 | every move of any task lowers a weight of the tree, failed attempts and cycles included |
| TypeFetch.FetchTerminates | internal/esmresolver/typefetch.go:449-679 | on any finite graph every interleaving makes at most that many moves |
| TypeFetch.UnfinishedCanMove | internal/esmresolver/typefetch.go:182-218 | until the fetch has returned some task can move, so no task waits for ever |
| TypeFetch.TypeFetchState.AcquireVisit | internal/esmresolver/typefetch.go:182-218 | a URL is claimed if and only if nobody holds it |
| TypeFetch.TypeFetchState.FetchTypeRecursive | internal/esmresolver/typefetch.go:449-652 | one attempt is a run of the task tree, over the downloads the network answers, that ends as its result says; it fails exactly if it had to download and that failed, and then leaves the visited set as it was |
| TypeFetch.TypeFetchState.FetchImports | internal/esmresolver/typefetch.go:575-651 | the loop over the imports joins the runs of all children |
| TypeFetch.TypeFetchState.FetchTypeRecursiveWithRetry | internal/esmresolver/typefetch.go:654-679 | the retry loop is a run of the task with its number of attempts, over the downloads the network answers, and ends with results or with nothing after the last attempt |
| TypeFetch.FetchType | internal/esmresolver/typefetch.go:449-652 | the whole fetch over any network: one download of the root decides, no duplicates, importers first, everything reachable past failures, nothing else, and exactly the reachable if each URL but the root fails once at most |
| TypeFetch.OneFailureEachIsMadeGood | internal/esmresolver/typefetch.go:654-679 | in every interleaving in which the root's download succeeds and each other URL's download fails once at most, a finished fetch reports exactly the URLs reachable from the root, each once |
| TypeFetch.TwoFailuresLoseUrl | internal/esmresolver/typefetch.go:654-679 | a URL is tried twice and not more: after two failed downloads of its only import the root is reported alone |
| TypeFetch.ReportsImportersFirst | internal/esmresolver/typefetch.go:449-679 | in every interleaving, with any failures, the root is reported first and every other URL after one that imports it |
| IdentityCache.InMemoryCache.Get | internal/defaultcache/cache.go:51-70 | a value is returned until its expiry has passed, and is removed afterwards |
| IdentityCache.InMemoryCache.Set | internal/defaultcache/cache.go:72-89 | a value is stored under its trimmed key until now plus its positive lifetime |
| IdentityCache.InUpserted | internal/jwtauth/identity_cache.go:240-255 | the new entry is in the list and replaces exactly the entries of the same key or token id |
| IdentityCache.InWithout | internal/jwtauth/identity_cache.go:257-269 | exactly the entries of the key or the non-empty token id are taken out |
| IdentityCache.UpsertUserIndexToken | internal/jwtauth/identity_cache.go:240-255 | the loop computes that list |
| IdentityCache.RemoveUserIndexToken | internal/jwtauth/identity_cache.go:257-269 | the loop computes that list |
| IdentityCache.StoreAgreesIff | internal/jwtauth/identity_cache.go:72-108 | a stored identity keeps every live identity listed in its user's live index when its token id is not empty and no other live token shares user and id, and while it is live only then |
| IdentityCache.SetBackedOut | internal/jwtauth/identity_cache.go:86-106 | a set that backed out after an index error keeps index and cache in agreement |
| IdentityCache.SetStuck | internal/jwtauth/identity_cache.go:89-106 | if the back-out fails too, they agree exactly when the old index already lists that very identity |
| IdentityCache.RemoveAgrees | internal/jwtauth/identity_cache.go:110-131 | taking one token out of index and cache keeps agreement when no live token shares its id |
| IdentityCache.ClearedLeavesOne | internal/jwtauth/identity_cache.go:133-152 | after the user's list was worked off, no live identity of the user is left but the spared one |
| IdentityCache.IdentityCache.LoadUserIndex | internal/jwtauth/identity_cache.go:158-179 | exactly the complete entries of the user's list that last beyond now |
| IdentityCache.IdentityCache.WriteUserIndex | internal/jwtauth/identity_cache.go:181-203 | exactly the complete entries that last are stored, for as long as the last of them and no longer than the call took beyond that; the list is deleted when none is left |
| IdentityCache.IdentityCache.Set | internal/jwtauth/identity_cache.go:72-108 | the outcome of storing an identity for every failure of a store call, exactly when index and cache agree afterwards, that it is stored until its own expiry, and that a reliable store fails only for empty keys or a lifetime that is over |
| IdentityCache.IdentityCache.Peek | internal/jwtauth/identity_cache.go:53-70 | an identity is served only while its own expiry has not passed, and by a reliable store until then |
| IdentityCache.IdentityCache.Delete | internal/jwtauth/identity_cache.go:110-131 | only that token goes, from the store and, if it was live, from its user's list; agreement is kept even if the index cannot be read or written |
| IdentityCache.IdentityCache.DeleteUserTokens | internal/jwtauth/identity_cache.go:133-152 | on success, and always with a reliable store, every live identity of the user but the spared token id is gone; in any case no other user's entry is touched and agreement is kept |
| Authenticator.AddedStaysSound | internal/jwtauth/authenticator.go:410-444 | an identity that a full validation gave stays backed by it in the cache, no longer than its token lasts |
| Authenticator.JwtAuthenticator.GetFromCache | internal/jwtauth/authenticator.go:392-407 | what is served from the cache came from an earlier validation of that token and has not passed its exp claim (section 4.1.4 of RFC 7519); a reliable cache serves what it holds until then |
| Authenticator.JwtAuthenticator.AddToCache | internal/jwtauth/authenticator.go:410-444 | the identity is kept for the configured or default lifetime, cut at the token's expiry, or not at all; with a reliable store it is kept whenever that time is not over yet |
| Authenticator.JwtAuthenticator.ValidateToken | internal/jwtauth/authenticator.go:84-133 | every answer is either backed by an earlier validation, a full validation now, or a refusal for the stated reason; a token in force and of the type asked for is accepted exactly unless revocation is checked, the store answers, and the token id is in it; a full validation of an access token caches it, revoked or not |
| Authenticator.JwtAuthenticator.FromToken | internal/jwtauth/claims.go:72-107 | claims are accepted exactly if signed, not expired, and past their not-before time (sections 4.1.4 and 4.1.5 of RFC 7519) |
| Authenticator.JwtAuthenticator.ToIdentity | internal/jwtauth/claims.go:49-69 | the identity says what the claims say; missing times are the time of validation |
| Authenticator.JwtAuthenticator.RevokeToken | internal/jwtauth/authenticator.go:277-329 | the token id is recorded as revoked exactly if the token names one and the store answers; the token and nothing else leaves the cache, with a reliable cache always; cache and index stay in agreement |
| Authenticator.JwtAuthenticator.RevokeAllUserTokens | internal/jwtauth/authenticator.go:336-356 | the user's other cached tokens go, nobody else's do |
| Authenticator.JwtAuthenticator.Serve | internal/jwtauth/authenticator.go:84-356 | over any run of validations and revocations every answer is good for what was revoked before it, and the cache stays sound |
| Authenticator.RevocationDecides | internal/jwtauth/authenticator.go:111-119 | any good answer for a token in force and of the type asked for is an acceptance exactly unless revocation is checked, the store answers, and the token id is in it |
| Authenticator.RevokedIsRefused | internal/jwtauth/authenticator.go:277-356 | in any run, a token whose id an earlier request revoked is refused by every later validation that checks and reaches the store |
| Authenticator.UncheckedIsAccepted | internal/jwtauth/authenticator.go:92-96 | a concrete token, revoked with every store in order, is accepted by the next validation that does not check and refused by the one that does |
| Authenticator.RevokeRefuses | internal/jwtauth/authenticator.go:277-329 | in any run, once a token was revoked, every validation of it that checks and reaches the store refuses it |
| Authenticator.RevokeAllRefuses | internal/jwtauth/authenticator.go:336-356 | in any run, once a user's tokens were revoked, every validation that checks and reaches the store refuses each of the ids known then but the spared one |
| Authenticator.UnrevokedIsAccepted | internal/jwtauth/authenticator.go:84-133 | a token in force that no earlier request of the run revoked, or that each spared, is accepted by every validation for its type |
| Authenticator.AcceptedIsNamedByToken | internal/jwtauth/authenticator.go:98-133 | whoever a full validation accepts is the user, id and type the token names, within its times, the missing ones aside |
| Authenticator.RefusalHasCause | internal/jwtauth/authenticator.go:84-133 | each refusal of a signed token has its one cause, in this order: its times, its type, a revocation that was checked and found |
| DependsClosure.ResolveTypeFetchDependsClosure | cmd/cmd_typefetch.go:683-750 | the worklist ends on every graph; it fails exactly if the root or something it needs can be neither read nor called missing, and else returns without duplicates exactly the reachable modules, and as missing exactly the absent ones that they name |
| DependsClosure.QueueDepends | cmd/cmd_typefetch.go:717-740 | the inner loop leaves every dependency done, queued or missing |
| DependsClosure.ClosedIsWhole | cmd/cmd_typefetch.go:693-741 | a closed list that holds the root holds everything reachable from it |
| DependsClosure.FinishedIsExact | cmd/cmd_typefetch.go:693-749 | when the queue is empty the lists are exact |
| SpanRewrite.CollectSpans | internal/esmresolver/typefetch.go:1088-1121 | the collected spans are those of the string literals met, inside the text and each once |
| SpanRewrite.RewriteSpans | internal/esmresolver/typefetch.go:1055-1085 | replacing spans in place in descending order gives the simultaneous left-to-right substitution, and the bounds guard skips none |
| SpanRewrite.RewriteSpecifiers | internal/esmresolver/typefetch.go:906-934 | collecting and rewriting together give the simultaneous substitution for the spans of the literals, in whatever order they are listed |
| SpanRewrite.SubstitutedSplits | internal/esmresolver/typefetch.go:1055-1085 | substitution goes piece by piece at positions no span straddles |
| SpanRewrite.SpanIsReplaced | internal/esmresolver/typefetch.go:1081-1082 | each span's place is taken by its quoted replacement, or left as it was, between the substituted text before and after |
| SpanRewrite.OutsideIsUnchanged | internal/esmresolver/typefetch.go:1055-1085 | text outside the spans is unchanged |
| SpanRewrite.OrderDoesNotMatter | internal/esmresolver/typefetch.go:1064-1066 | the result depends on the set of spans and not on their order |
| SpanRewrite.SortedSorts | internal/esmresolver/typefetch.go:1064-1066 | the sort gives the same spans by descending start |
| SpanRewrite.EditedIsQuoted | internal/esmresolver/typefetch.go:1077-1082 | an edited specifier stands between the quotes that were there, or else double ones, with the rewritten text before and after around it |
| SpanRewrite.UneditedStays | internal/esmresolver/typefetch.go:1069-1073 | a specifier without an edit is left as it was, quotes included |
| SpanRewrite.EditedReadsBack | internal/esmresolver/typefetch.go:1088-1121 | collecting the rewritten literal gives exactly the new specifier and that quote back |
| SpanRewrite.PaddingIsNoPart | internal/esmresolver/typefetch.go:1104-1115 | white space around a specifier does not belong to it, and a specifier has no quote exactly if its text is not quoted |
| SpanRewrite.BlankStandsForItself | internal/esmresolver/typefetch.go:1112-1115 | a quoted specifier of white space alone is taken as it stands |
| VueChain.FindVueChildrenWithSameName | internal/parser/vueutil.go:21-79 | without cycles both inner loops end; the result lists, each once and parents first, exactly the components reached from their root by first children, and ends in a leaf |
| VueChain.IsPermutationIff | internal/parser/vueutil.go:60-75 | the result is a permutation of the same-named components exactly when none has two children |
| VueChain.AllOnFirstLineIff | internal/parser/vueutil.go:60-75 | all components are reached by first children exactly when none has two children |
| VueChain.FindRoot | internal/parser/vueutil.go:50-58 | the upward loop ends at the root of the component's chain |
| VueChain.WalkDown | internal/parser/vueutil.go:60-75 | the downward loop takes every unvisited component of the first line and ends at its leaf |
| VueChain.Collect | internal/parser/vueutil.go:21-38 | the two lookup maps are the component at a path and the children of a path in order |
| VueChain.LeafIsUnique | internal/parser/vueutil.go:115-120 | a single chain has one leaf |
| VueChain.FindVueComponentFinalChild | internal/parser/vueutil.go:81-123 | empty for an empty importer path, an importer that is or extends the imported component, or an unknown import; otherwise the path of a leaf of that name, and of the only one in a single chain |
| VueChain.CycleNeverEnds | internal/parser/vueutil.go:50-58 | from a component that extends itself, directly or not, the upward loop never stops |
| VueChain.ClimbEndsIffAcyclic | internal/parser/vueutil.go:50-58 | the upward loop ends from every component exactly when same-named inheritance has no cycle |
| VueChain.QueryIsCut | internal/parser/vueutil.go:11-19 | what stands from the first question mark on is no part of a path |
| VueChain.QueriesDoNotMatter | internal/parser/vueutil.go:81-113 | with any query on either path an import is kept exactly if there is no such component or the first component at the importer's path is, or extends, the imported one; and the same component is looked up |
| VueChain.FollowedChildIsFirst | internal/parser/vueutil.go:28-36 | the child that the walk follows is the first parsed component of the name that extends the path |
| CacheFileNames.ParsesBackIff | internal/esmresolver/typefetch.go:832-875 | the package read back from the cache file of a package URL is the package of the URL exactly when no later `@` occurs, the scope has no underscore, and an unscoped name without build token does not look like one |
| CacheFileNames.UrlPackageIs | internal/esmresolver/typefetch.go:730-792 | the package of such a URL is its scope and name, without build token and version |
| CacheFileNames.FlattenUrl | internal/esmresolver/typefetch.go:1385-1398 | the flattened URL is host, build token, scope, name and version joined by underscores, then the flattened rest |
| CacheFileNames.NameIsCutIff | internal/esmresolver/typefetch.go:889-904 | an unscoped name loses a part to the build prefix exactly when it looks built |
| CacheFileNames.ScopeSlash | internal/esmresolver/typefetch.go:864-868 | the slash of a scoped name is put back in its place exactly when the scope has no underscore |
| CacheFileNames.ReadLaterAt | internal/esmresolver/typefetch.go:857-860 | a later `@` is taken for the one before the version |
| CacheFileNames.UnversionedUrlPackage | internal/esmresolver/typefetch.go:752-791 | a URL without a version names the same package, unless its name is taken for a build token before more of the path |
| CacheFileNames.NoHostNoPackage | internal/esmresolver/typefetch.go:846-855 | a file name whose first part has no dot, no colon and is not localhost, or with nothing after it, names no package |
| CacheFileNames.NoMarkNoPackage | internal/esmresolver/typefetch.go:846-860 | nor does one without an underscore, with nothing before the first, or without an `@` |
| CacheFileNames.SeparatorIsFlat | internal/esmresolver/typefetch.go:1388-1393 | each of the five separators becomes one underscore |
| CacheFileNames.NameIsCutAt200 | internal/esmresolver/typefetch.go:1394-1397 | names keep the first 200 characters of the flattened URL, and two URLs share a file exactly if these agree |

## Left out

- Panics in transactional handlers, handlers that use another context than the innermost one, and handlers that branch on more than whether a call failed.
- Databases that replace a savepoint when its name is reused: the model keeps both, as PostgreSQL and SQLite do.
- TransactionPropagation.NamesAreSafeIffDistinct: the names are a function of the nesting depth; for other trees the precondition of MachineRefinesReference is sufficient, and its converse is not stated tree by tree.
- Job rows are never deleted in the model; the garbage collector of task rows is not part of it. Input parsing, token checks, the method that the job runs, and how a cancel request reaches the worker are inputs.
- ProvisionLease.SafeIffIntervalWithinTtl: stated for instantaneous locker calls; with slow calls the exact slack is in UncancelledOwnsOrIsJustLate.
- The lease table's migration, the resolution of the workspace phase beyond empty or not, and installs that fail half-way.
- Hot-reload: file contents and fingerprints, debouncing, retry counters after lease conflicts, events dropped because there is no queue. A dirty mark keeps one path for its key.
- HotReload.NoEventIsLost: a watch event is one step, and so is finish-and-requeue; the finer split is what the two LateMark lemmas are about.
- ThreadPool.PoolStaysWithinLimit: fewer than 2^32 slots are in use at once, so the 32-bit counter does not wrap; thread ids do not repeat.
- ThreadPool.FailedWarmupRestoresPool: the same bound, on the old threads and the warm-up's calls together; nothing else moves in the pool while it starts.
- The pool's stop, thread selection with its floating-point thresholds, and cleanup timing.
- The executor's script list with its compare-and-swap loop, the errors that calls return, and Execute.
- JsThread.Thread.Run: nothing is said of tasks still queued when the thread exits, which are not answered; loading and closing an engine do not panic.
- TypeFetch: errors after the file of a URL was written, cancellation, the limit on parallel requests, warm caches, and what is in the files. Results of siblings are listed in the order of the imports, not of completion. The methods take one goroutine at a time; the lemmas are about every interleaving.
- The identity cache's eviction of old entries, JSON encoding, and a failed store call that takes effect all the same.
- Signatures are opaque. Key handling and the making of tokens are not modelled.
- Authenticator.JwtAuthenticator.RevokeAllUserTokens: which ids the revocation store knows for a user, and whether it answers, are inputs.
- DependsClosure.ResolveTypeFetchDependsClosure: the modules directory does not change meanwhile, so a queued module cannot turn out missing; the missing names are a set, not a sorted list.
- The syntax tree that specifier nodes are taken from, and which specifiers are rewritten to what.
- VueChain.FindVueChildrenWithSameName: paths are unique and same-named inheritance has no cycle; ClimbEndsIffAcyclic says that the walk ends for no other input.
- CacheFileNames.ParsesBackIff: the host is dotted, has a port or is localhost, and has no underscore; the URL's path has no percent escapes, and the flattened URL is at most 200 characters long, so that it is not cut. Parsing a URL into its parts is not modelled.
- Everything else: the servers and registries, SQL and the file system, TypeScript parsing, command-line handling, logging and telemetry.
