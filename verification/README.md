# Verified model of the job pipeline and its surroundings

A Dafny model of the parts of the application in which state, time and concurrency meet, with proofs of what they
promise. `dafny verify dfyconfig.toml` checks the whole project.

The core is the at-least-once job pipeline. `RedisStreams`, `RedisDriver` and `RedisPipeline` model the Redis Streams
queue: the server with its pending-entries list and the two Lua scripts, the consumer object, and, as a transition
system with any number of consumers, the composition of both with the executor and the failure store. A server effect
and its reply are separate steps, so replies can be late or lost, and a task can be cancelled or crash at every await.
`JobExecution` and `FailedStore` model one delivery and the failure table; the pipeline runs exactly their functions.
`RedisLease` does the arithmetic of renewals. `KafkaDriver` and `KafkaGroup` do the same for Kafka, with rebalances,
generations, and members evicted without knowing, and `KafkaPipeline` joins the group with executor and store.
`WorkerRunner` models the lanes, the draining and the ways out.

Around it stand: `AsyncLazy`, `Shutdown` and `ConsumerRegistry` (lazily created resources, group and manager close,
container shutdown), `Users`, `UserSessions` and `UserVersions` (services and repositories; sessions against account
changes; optimistic versions at statement level), `Ulid`, `QueryParam` (with `Utf8`), `JobCatalog`, `Chroma` and `HttpPool`.

Two forms occur side by side. Objects the program updates in place are classes, with one method for each stretch of
code between two awaits; their contracts give the new state as a function of the old one, and say on the fields what
that means. Protocols are transition systems (`Action`, `Enabled`, `Apply`, `Play`) built from the same functions, with
an invariant that every step keeps and results about all reachable states and all later runs: what never happens, and
what goes through when nothing comes between. `Common` holds the option and outcome types.

Eight promises turn out not to hold as they stand; each has a lemma with a run or a value that shows it, next to the
exact or best possible condition under which it does hold:

- A failure record does not stop a delivery whose reply arrives after it was stored, exactly when that delivery is not
  flagged and its payload decodes (`RedisPipeline.HandlerRunsBesideRecordIff`); that takes a takeover while the reply
  was under way (`RedisPipeline.UnflaggedAfterSaveWasTakenOver`).
- The renewal period and time limit alone do not rule out a takeover (`RedisLease.LeaseProtectsExactly`).
- An unflagged Kafka delivery need not be the first: a rebalance that passes its member by can always make it a repeated
  one, and nothing else can (`KafkaGroup.UnflaggedRepeatsIffEvicted`, `KafkaGroup.UnflaggedIsTheFirstDelivery`). Only
  then can it meet a failure record (`KafkaPipeline.HandlerRunsBesideRecordIff`, `KafkaPipeline.CurrentTrustMeetsNoRecord`).
- A lazy factory is run again exactly while all it has returned is None, unless the resource has been sealed and no get is
  inside the factory (`AsyncLazy.CreatesAgainIff`).
- A disabling or a renaming during the slow hash is overlooked if it is undone before the second transaction: a verified
  login can still succeed exactly while the user exists with the hash it verified (`UserSessions.LoginCanSucceedIff`).
- `active` exceeds the open streams exactly when writing a pressure warning has failed, for which a raising filter of
  the logger is enough (`HttpPool.ActiveCountsOpenStreams`).
- After a lane has failed without a stop signal, the runner can go on receiving in its last wait, exactly while a lane is
  still executing (`WorkerRunner.FinallyReceivesIff`, `WorkerRunner.ReceivesLaterIff`).
- The object's version is ahead of the row after a rollback that follows an update
  (`UserVersions.RollbackLeavesMemoryAhead`).

## Model

| member | source | states |
|---|---|---|
| RedisStreams.StreamServer.Ack | app/infrastructure/queue/drivers/redis.py:17-23 | the acknowledgement script removes the entry from stream and pending list when the named consumer owns it, and otherwise leaves both alone; the whole new server state |
| RedisStreams.StreamServer.RenewBatch | app/infrastructure/queue/drivers/redis.py:24-34 | the two Lua loops: the first id not owned is reported and nothing changes, or every id is touched at the same instant |
| RedisStreams.RunsStayWellFormed | app/infrastructure/queue/drivers/redis.py:99-134 | over any run of commands of any consumers, every stream entry is either still unread by the group or pending, so none is stranded |
| RedisStreams.OnlyTheOwnerRemoves | app/infrastructure/queue/drivers/redis.py:16-23 | the only command that takes an entry out of the stream is an acknowledgement in the name of its owner at that instant |
| RedisStreams.RenewalIsAllOrNothing | app/infrastructure/queue/drivers/redis.py:24-34 | a renewal batch touches all of its ids or changes nothing at all, and never changes an owner |
| RedisStreams.FormerOwnerIsFencedOff | app/infrastructure/queue/drivers/redis.py:16-34 | after losing an entry, and until it takes the entry over again, a consumer can neither acknowledge it nor get any batch naming it renewed, whatever happens in between |
| RedisStreams.AcknowledgedAtMostOnce | app/infrastructure/queue/drivers/redis.py:57-68 | in any run at most one acknowledgement of an id is accepted over all consumers, and one is accepted exactly when the entry was published and has left the stream |
| RedisDriver.RedisConsumer.Poll | app/infrastructure/queue/drivers/redis.py:99-134 | one round of `receive`: nothing after a close or a failed renewal; takeover first and flagged, then new messages; an id already in flight is refused; otherwise the delivery is registered beside all earlier ones, with the server moved as the command says |
| RedisDriver.RedisConsumer.FinishAcknowledge | app/infrastructure/queue/drivers/redis.py:64-68 | only a reply of 1 settles the delivery and frees its place; any other reply raises and changes nothing |
| RedisDriver.RedisConsumer.RenewPending | app/infrastructure/queue/drivers/redis.py:150-166 | an empty snapshot sends nothing; a refusal by the server raises, and so does a missing answer, whether or not the server has executed the script |
| RedisDriver.RedisConsumer.Renew | app/infrastructure/queue/drivers/redis.py:136-148 | a round that fails, by refusal, time limit or connection error, cancels the task of every delivery in flight and ends the renewal for good |
| RedisLease.IdleIsBounded | app/infrastructure/queue/drivers/redis.py:136-158 | over any number of rounds the gap between renewals, and from registration to the first renewal, is at most a third of the lease plus two time limits, hence at most the lease |
| RedisLease.LeaseProtectsExactly | app/infrastructure/queue/drivers/redis.py:107-158 | no in-flight entry can ever be taken over if and only if lease/3 + 2*window + delay is below the minimal idle time; the code's own limits alone do not reach that |
| RedisPipeline.StepKeepsInv | app/infrastructure/queue/drivers/redis.py:57-166 | every step of the pipeline (handing out, replies, executor, store, acknowledgement, renewal, cancellation, close) keeps the invariant that the results below rest on |
| RedisPipeline.NoJobVanishes | app/interfaces/worker/executor.py:104-207 | in every run, with any number of consumers, cancellations at any await, lost replies and takeovers, a published entry stays deliverable until its handler succeeded or a failure record was stored under its failure id |
| RedisPipeline.RemovedOnlyByItsOwnerWithCause | app/infrastructure/queue/drivers/redis.py:57-68 | the step that removes an entry is an acknowledgement script of its present owner, and the cause for it is there before the step |
| RedisPipeline.PendingIsWhatIsInFlight | app/infrastructure/queue/drivers/redis.py:64-68 | in every reachable state `pending` names for each entry exactly the one delivery the consumer has received and not settled; receiving keeps every earlier one and settling takes away just its own |
| RedisPipeline.RenewalProtects | app/infrastructure/queue/drivers/redis.py:150-166 | a renewal of what `pending` names makes every delivery in flight safe from takeover for exactly one lease from then, or changes nothing because one of them has been lost |
| RedisPipeline.UndisturbedAcknowledge | app/infrastructure/queue/drivers/redis.py:57-68 | an acknowledgement nothing comes between goes its way exactly for an open consumer, and then returns, with the entry out of stream and `pending`, exactly if the consumer still owns it |
| RedisPipeline.ReturnsOncePerEntry | app/interfaces/worker/executor.py:104-161 | `execute` returns only for an entry that has left the stream, and for each entry at most once over all consumers |
| RedisPipeline.ClosedAcknowledgesNothing | app/infrastructure/queue/drivers/redis.py:57-62 | after `aclose` no delivery whose acknowledgement had not been sent ever returns, in any later run |
| RedisPipeline.UndisturbedExecution | app/interfaces/worker/executor.py:142-207 | from the handler on, with nothing in between and the entry still owned by an open consumer, a success is acknowledged and a failure first recorded, unless its job has a record already; the entry is gone |
| RedisPipeline.DuplicateIsOnlyAcknowledged | app/interfaces/worker/executor.py:112-152 | a flagged delivery whose job has a record is acknowledged at once; nothing else changes |
| RedisPipeline.DeletionDuringSave | app/infrastructure/queue/failed/sql/store.py:33-56 | if the record is deleted while it is being saved, the execution ends without an acknowledgement exactly if the save had found it there |
| RedisPipeline.CancelledForGood | app/infrastructure/queue/drivers/redis.py:136-148 | a cancelled task does nothing more, in any later run |
| RedisPipeline.CancelledAckTakesEffect | app/infrastructure/queue/drivers/redis.py:57-68 | an acknowledgement sent before the cancellation still takes effect, once; without one nothing is left behind |
| RedisPipeline.RepliesAreReadOnce | app/infrastructure/queue/drivers/redis.py:107-133 | a reply that was received, refused or lost is not there again in any later run |
| RedisPipeline.UnflaggedDeliveryIsTheFirstHandOut | app/infrastructure/queue/drivers/redis.py:107-131 | each entry has at most one delivery not flagged as possibly redelivered, and it comes from the first hand-out |
| RedisPipeline.SuppressedOnceRecorded | app/interfaces/worker/executor.py:112-152 | while a failure record exists it never changes, and no flagged delivery whose duplicate check comes later runs the handler: it only acknowledges |
| RedisPipeline.HandlerRunsBesideRecordIff | app/interfaces/worker/executor.py:109-152 | whenever a reply arrives and the record of its job exists, the delivery can run its handler beside that record if and only if it is not flagged and its payload decodes |
| RedisPipeline.UnflaggedAfterSaveWasTakenOver | app/infrastructure/queue/drivers/redis.py:107-133 | with fresh job ids, an unflagged reply that arrives after the record was stored belongs to an entry taken over while that reply was under way |
| RedisPipeline.LateReplyRunsHandlerAgain | app/infrastructure/queue/drivers/redis.py:107-133 | such a reply does occur: a reachable state with the handler running beside the record |
| JobExecution.RunAttempts | app/interfaces/worker/executor.py:42-89 | for every sequence of outcomes: the number of invocations is the first outcome that is not retried, or the maximum; it sleeps the policy's delays; which end of the last attempt gives which answer, reason by reason; the final RuntimeError is never reached |
| JobExecution.EndIsUnique | app/interfaces/worker/executor.py:46-72 | that number is uniquely determined by the outcomes and the maximum |
| JobExecution.TotalDelay | app/infrastructure/queue/policies.py:25-30 | closed form of the total delay slept, with the last interval repeated |
| JobExecution.Execute | app/interfaces/worker/executor.py:104-161 | the requests the executor makes, in their order, are those of the delivery automaton for whatever the surroundings answer; it returns exactly when the acknowledgement was accepted; a handler that failed is followed by the saving of a record with that reason and that number of attempts, a defect or a cancellation by nothing |
| JobExecution.FinishDelivery | app/interfaces/worker/executor.py:163-207 | a failure is saved before the acknowledgement is requested, and nothing is requested after a failed save |
| JobExecution.AcknowledgesOnlyWithCause | app/interfaces/worker/executor.py:112-199 | for every exchange: an acknowledgement follows a success, a stored record of this very delivery, or a found record; after a found record the handler is never run |
| JobExecution.EachRequestExactlyWhen | app/interfaces/worker/executor.py:104-207 | each request is made exactly when the last exchange calls for it; the record that is saved names the failure id, payload, time, attempts, reason and job id of this very failure; the execution is over in good order exactly after an accepted acknowledgement |
| FailedStore.FirstRecordWins | app/infrastructure/queue/failed/sql/store.py:25-56 | after any sequence of saves and deletions the store holds for an id exactly the first record saved since its last deletion, and nothing if there is none |
| FailedStore.SqlFailedJobStore.Save | app/infrastructure/queue/failed/sql/store.py:33-56 | with no deletion in between, a save never raises, stores the record if the id is new and leaves the existing one otherwise |
| FailedStore.SqlFailedJobStore.Recheck | app/infrastructure/queue/failed/sql/store.py:53-56 | after a conflict the error is raised again exactly if the record has meanwhile gone |
| KafkaDriver.KafkaConsumer.Receive | app/infrastructure/queue/drivers/kafka.py:124-139 | once a record has arrived, a close in between included: refuses it when the partition has a delivery in flight; otherwise pauses the partition and flags the delivery unless the partition is trusted |
| KafkaDriver.KafkaConsumer.FinishAcknowledge | app/infrastructure/queue/drivers/kafka.py:59-66 | a rebalance during the commit raises; otherwise the partition is freed, trusted and resumed |
| KafkaDriver.KafkaConsumer.OnPartitionsRevoked | app/infrastructure/queue/drivers/kafka.py:77-87 | bumps the generation, drops trust, cancels the owner of every delivery in flight and forgets them |
| KafkaGroup.StepKeepsInv | app/infrastructure/queue/drivers/kafka.py:53-139 | every step of the group (produce, rebalance, assignment, fetch, commit sent, accepted and answered, cancellation, close) keeps the invariant |
| KafkaGroup.NoRecordIsSkipped | app/infrastructure/queue/drivers/kafka.py:53-66 | a record ever produced is, at every later point, at or past the committed offset or acknowledged; the committed offset never moves back |
| KafkaGroup.AcknowledgedByADelivery | app/infrastructure/queue/drivers/kafka.py:53-59 | a record counts as acknowledged only by an accepted commit of a delivery of that record |
| KafkaGroup.DeliveredOnlyAfterItsPredecessors | app/infrastructure/queue/drivers/kafka.py:118-139 | whenever a record is delivered, to whomever, all earlier records of its partition are acknowledged |
| KafkaGroup.UnflaggedIsTheFirstDelivery | app/infrastructure/queue/drivers/kafka.py:89-137 | an unflagged delivery to a member of the present generation is the first delivery of that record to anyone |
| KafkaGroup.UnflaggedRepeatsIffEvicted | app/infrastructure/queue/drivers/kafka.py:77-137 | in every reachable state the next delivery from a trusted partition can become a repeated, unflagged one; for a member of the present generation only through a rebalance that passes it by |
| KafkaGroup.EvictedMemberReceivesUnflagged | app/infrastructure/queue/drivers/kafka.py:82-137 | a member evicted without having been told can receive, unflagged, a record another member already has: a reachable state |
| KafkaGroup.OutdatedCommitIsRefused | app/infrastructure/queue/drivers/kafka.py:56-61 | a commit of an older broker generation moves nothing, whenever it arrives |
| KafkaGroup.PendingIsWhatIsInFlight | app/infrastructure/queue/drivers/kafka.py:77-87 | `pending`, whose owners a revocation cancels, names for each partition exactly the delivery received since the last revocation and not settled |
| KafkaGroup.FetchesIffNothingInFlight | app/infrastructure/queue/drivers/kafka.py:118-139 | an assigned partition can be fetched from exactly while none of its deliveries is in flight: it is paused until the acknowledgement and no longer |
| KafkaGroup.AssignmentStartsAfresh | app/infrastructure/queue/drivers/kafka.py:89-95 | after an assignment the first record not acknowledged can be fetched at once, and is flagged |
| KafkaGroup.UndisturbedAcknowledge | app/infrastructure/queue/drivers/kafka.py:53-66 | an acknowledgement nothing comes between goes its way exactly for an open consumer without a revocation since the delivery; if the broker has not moved on either, the committed offset is the next one, the delivery is settled and its partition trusted and free; if it has, nothing changes |
| KafkaGroup.CutOffNeverCommits | app/infrastructure/queue/drivers/kafka.py:53-66 | after its task has been cancelled or its member closed, a delivery whose commit has not been sent is never committed |
| KafkaGroup.ReceiveNeverRefuses | app/infrastructure/queue/drivers/kafka.py:126-129 | pausing is enough: a partition with a delivery in flight is never fetched from |
| KafkaPipeline.StepKeepsInv | app/infrastructure/queue/drivers/kafka.py:53-139 | every step of group, executor and store together keeps the invariant |
| KafkaPipeline.AcknowledgedWithCause | app/interfaces/worker/executor.py:104-199 | a commit is accepted for a record only after its handler succeeded or a failure record was stored under its failure id |
| KafkaPipeline.NoJobVanishes | app/interfaces/worker/executor.py:104-207 | in every run a published record stays ahead of the committed offset until its handler has succeeded or its failure is recorded |
| KafkaPipeline.ReturnMeansAcknowledged | app/interfaces/worker/executor.py:104-161 | `execute` returns exactly for settled deliveries, and their records are acknowledged and behind the committed offset |
| KafkaPipeline.UndisturbedExecution | app/interfaces/worker/executor.py:142-207 | from the handler on, with nothing in between and an open member that is up to date, a success is acknowledged and a failure first recorded, unless its job has a record already; the committed offset is then the next one |
| KafkaPipeline.DuplicateIsOnlyAcknowledged | app/interfaces/worker/executor.py:112-152 | a flagged delivery whose job has a record is acknowledged at once; nothing else changes |
| KafkaPipeline.RefusedAcknowledgeRaises | app/infrastructure/queue/drivers/kafka.py:56-57 | an acknowledgement raises at once exactly for a closed member or after a revocation |
| KafkaPipeline.SuppressedOnceRecorded | app/interfaces/worker/executor.py:112-152 | while a failure record exists it never changes, and no flagged delivery of its job whose check comes later reaches the handler |
| KafkaPipeline.HandlerRunsBesideRecordIff | app/interfaces/worker/executor.py:109-152 | whenever a record is received whose job has a failure record, its handler can run beside that record if and only if the partition is trusted and the payload decodes |
| KafkaPipeline.CurrentTrustMeetsNoRecord | app/infrastructure/queue/drivers/kafka.py:77-137 | with fresh job ids, what a member of the present generation receives unflagged has no failure record and never had one |
| WorkerRunner.Runner.CancelReceivers | app/interfaces/worker/runner.py:37-40 | exactly the lanes in receive are cancelled, and closing is set before |
| WorkerRunner.Runner.CancelTasks | app/interfaces/worker/runner.py:42-54 | every lane that has not ended is cancelled |
| WorkerRunner.Runner.CollectErrors | app/interfaces/worker/runner.py:45-48 | the errors of the group, in lane order |
| WorkerRunner.RaisesIffALaneFailed | app/interfaces/worker/runner.py:45-48 | the group is raised exactly when a lane failed or lost its delivery |
| WorkerRunner.ErrorsAreTheFailures | app/interfaces/worker/runner.py:45-48 | the result of every lane that failed or lost its delivery stands in the group at the place its predecessors leave it |
| WorkerRunner.ErrorsAreNoMore | app/interfaces/worker/runner.py:45-48 | and the group holds nothing else |
| WorkerRunner.ConcurrencyIsRespected | app/interfaces/worker/runner.py:30-68 | what has been received and is not done with is exactly what the lanes execute, each delivery in one lane, so never more than the concurrency |
| WorkerRunner.ExecutionsDrainUndisturbed | app/interfaces/worker/runner.py:37-44 | the runner cancels a begun execution only after the drain limit, a failed lane at the first wait, or its own cancellation |
| WorkerRunner.CancellationIsAnErrorOnlyWhileWaiting | app/interfaces/worker/runner.py:56-73 | a cancelled lane reports a lost delivery, and so makes `run` raise, exactly if the runner was still in its first wait |
| WorkerRunner.HowALaneEnds | app/interfaces/worker/runner.py:56-73 | which event ends a lane as failed, normally or cancelled, and which lets it receive again |
| WorkerRunner.WakeDrainsIff | app/interfaces/worker/runner.py:33-40 | the first wait turns into the drain exactly if every lane that ended did so normally, and then exactly the receiving lanes are cancelled |
| WorkerRunner.EveryLaneIsToldToStop | app/interfaces/worker/runner.py:42-54 | at the drain limit, and whenever the `finally` block is entered, every lane has ended or is cancelled |
| WorkerRunner.DrainedRunEnds | app/interfaces/worker/runner.py:41-54 | once all lanes have ended in the drain `run` can end, and raises exactly if a lane failed or lost its delivery |
| WorkerRunner.NoNewWorkWhileDraining | app/interfaces/worker/runner.py:37-45 | after draining has begun no run receives one more delivery |
| WorkerRunner.LeavesNoLaneBehind | app/interfaces/worker/runner.py:49-54 | whatever the way out, cancellation of `run` included, every lane has ended |
| WorkerRunner.NormalReturn | app/interfaces/worker/runner.py:33-54 | a normal return means a stop signal, no cancellation of `run`, and lanes that all ended normally or cancelled |
| WorkerRunner.ReceivesLaterIff | app/interfaces/worker/runner.py:56-73 | from any state, more work can still be taken on if and only if a lane is receiving uncancelled, or no stop has come and a lane is executing or about to start |
| WorkerRunner.FinallyReceivesIff | app/interfaces/worker/runner.py:49-54 | from the `finally` block more work can be taken on if and only if no stop has come and a lane is still executing |
| WorkerRunner.SwallowedCancellationReceivesAgain | app/interfaces/worker/runner.py:49-68 | without a stop signal a handler that swallows its cancellation lets its lane receive again in the `finally` wait: a reachable state |
| AsyncLazy.Lazy.Created | app/infrastructure/resources/lazy.py:45-51 | the result is stored before the seal is looked at again, so a late creation is kept for the closer but not handed out |
| AsyncLazy.AtMostOneResource | app/infrastructure/resources/lazy.py:34-51 | under any interleaving at most one resource is ever made, and every get that returns one returns that one |
| AsyncLazy.CreatesAgainIff | app/infrastructure/resources/lazy.py:34-51 | in every reachable state the factory can succeed once more if and only if all it has returned so far is None and the resource is not sealed or a get is inside the factory |
| AsyncLazy.GetsReturnWhatWasMade | app/infrastructure/resources/lazy.py:29-51 | before sealing, a get that gets the lock returns the resource at once if it has been made, and otherwise returns what its factory makes |
| AsyncLazy.FailuresOnlyEndTheirTask | app/infrastructure/resources/lazy.py:34-64 | a failing factory or closer, a refusal and a cancelled wait end their task, free the lock and change nothing else |
| AsyncLazy.UndisturbedClose | app/infrastructure/resources/lazy.py:53-64 | with the lock free an `aclose` can go through at once and leaves nothing live |
| AsyncLazy.FactoryAndCloserNeverOverlap | app/infrastructure/resources/lazy.py:40-64 | at most one task is inside the factory or the closer at any time |
| AsyncLazy.ResourceIsNeverLost | app/infrastructure/resources/lazy.py:53-64 | what was made is live, or closed successfully exactly once and after sealing |
| AsyncLazy.NoGetReturnsAfterSealing | app/infrastructure/resources/lazy.py:29-51 | from sealing on no get returns, whatever was under way |
| AsyncLazy.SealingStopsGets | app/infrastructure/resources/lazy.py:29-57 | `begin_close` and `aclose` seal at once: in no later run does a get start or return |
| AsyncLazy.ClosedForGood | app/infrastructure/resources/lazy.py:53-64 | after a normal return of aclose no resource is live and none appears in any later run |
| Shutdown.CloseLazyResources | app/infrastructure/resources/closing.py:10-31 | for every subset of failing closers: all seals come before the first attempt, every handle is attempted in reverse order, the errors are exactly the failures in that order, and exactly the handles whose every attempt failed stay initialized |
| Shutdown.FailureListIsUnique | app/infrastructure/resources/closing.py:22-31 | there is only one such list of failures |
| Shutdown.QueueManager.Close | app/infrastructure/queue/manager.py:181-203 | consumers are asked in reverse before any backend is closed, everything is attempted, the errors are the failures of both in order, and the registry is emptied |
| Shutdown.CloseContainer | app/runtime/container.py:41-76 | asynchronous callbacks in reverse, then synchronous ones in reverse, whatever fails; the errors are exactly the failures in that order |
| ConsumerRegistry.EveryConsumerIsAskedToClose | app/infrastructure/queue/manager.py:128-158 | once a close has passed its consumers, aclose has been called on every consumer ever created, and on every one created later |
| ConsumerRegistry.NoUseKeepsAnUnaskedConsumer | app/infrastructure/queue/manager.py:145-158 | a consumer in use is registered or has been asked; one that was refused or left has been asked |
| ConsumerRegistry.RegisteredIffInUse | app/infrastructure/queue/manager.py:145-158 | while the manager is open the registry holds exactly the consumers in use, each once; a use that is over leaves nothing behind |
| ConsumerRegistry.UndisturbedUse | app/infrastructure/queue/manager.py:128-158 | a use of an open manager gets its consumer, registered meanwhile, and leaves the registry as it was |
| ConsumerRegistry.CloseCanGoThrough | app/infrastructure/queue/manager.py:181-196 | from any reachable state a close can go through: closed, nothing registered, every consumer asked |
| Users.UnitOfWork.Update | app/contexts/user/infrastructure/persistence/repository.py:70-86 | the conditional UPDATE replaces the row exactly when the versions agree, advances the version of row and object together, and tells a missing user from a stale one |
| Users.Services.Create | app/contexts/user/application/service.py:55-61 | a new user is committed exactly when neither name nor email is taken, the name being looked at first |
| Users.Services.Update | app/contexts/user/application/service.py:87-107 | refused for a missing user or a taken name or email, and then nothing is committed; otherwise the row with the given name and email, the time and the next version is, all else as it was |
| Users.Services.SetStatus | app/contexts/user/application/service.py:109-126 | disabling removes all sessions of the user in the same unit of work; enabling removes none |
| Users.Services.ReplacePassword | app/contexts/user/application/service.py:141-151 | the new hash and the removal of all sessions are committed together |
| Users.Services.Delete | app/contexts/user/application/service.py:153-162 | the user goes together with all sessions |
| Users.Services.IssueSession | app/contexts/user/application/auth_service.py:57-88 | the second half of a login: the session is added, and expired ones removed, exactly when the password verifies and the account is unchanged |
| Users.Services.WhoAmI | app/contexts/user/application/auth_service.py:125-137 | a user exactly for a stored session with issuedAt <= now < expiresAt whose user exists and is active; otherwise authentication is required |
| UserSessions.StepKeepsInv | app/contexts/user/application/auth_service.py:41-144 | every unit of work keeps sessions backed, users and logins recorded and names unique |
| UserSessions.EverySessionIsBacked | app/contexts/user/application/auth_service.py:53-94 | in every interleaving a stored session belongs to an existing active user whose hash is the very one the login verified |
| UserSessions.CurrentUserIffValidSession | app/contexts/user/application/auth_service.py:125-137 | a token is answered exactly when its session is stored and issuedAt <= now < expiresAt, with the row of the session's user; the account checks never decide |
| UserSessions.TokenLivesExactly | app/contexts/user/application/auth_service.py:53-137 | after a login the token is answered, in every later run, exactly within its lifetime and unless a step of the run has ended the session: a revocation of this user, a sign-out of this token, a sweep at or after its end; the answer is the user's row at the time |
| UserSessions.NewUserLogsIn | app/contexts/user/application/auth_service.py:41-94 | from any reachable state a new user can log in with the password behind the hash, with no other, and is answered for exactly the lifetime |
| UserSessions.RevokedForGood | app/contexts/user/application/service.py:109-162 | after a reset, a disabling or a deletion no earlier token of the user is ever valid again, in any later run |
| UserSessions.StaleLoginNeverSucceeds | app/contexts/user/application/auth_service.py:64-70 | a login that read the account before a reset or deletion never leaves a session, in any later run |
| UserSessions.LoginCanSucceedIff | app/contexts/user/application/auth_service.py:64-70 | whatever has happened since it read the account, a verified login can still succeed in some run if and only if the user still exists with the very hash it verified; disabling and renaming do not void it for good |
| UserSessions.CleanupTakesAway | app/contexts/user/infrastructure/persistence/session_repository.py:61-66 | a cleanup at t changes an answer at now exactly for a valid session with now < expiry <= t, so only for a clock set back |
| UserSessions.CleanupChangesNoAnswer | app/contexts/user/application/auth_service.py:117-123 | a cleanup at t changes no answer at any time from t on |
| UserSessions.NamesStayUnique | app/contexts/user/application/service.py:177-202 | no two users ever share a name or an email |
| UserVersions.StepKeepsInv | app/contexts/user/infrastructure/persistence/repository.py:70-93 | every statement of any transaction keeps the chain of committed rows |
| UserVersions.EachUpdateBuildsOnTheLast | app/contexts/user/infrastructure/persistence/repository.py:70-83 | no lost update: every committed row was computed by its transaction from the row committed immediately before |
| UserVersions.EveryCommitIsALink | app/contexts/user/infrastructure/persistence/repository.py:70-83 | every committed transaction is a link of the chain, and no two are the same |
| UserVersions.VersionCountsUpdates | app/contexts/user/infrastructure/persistence/mapper.py:40-50 | the stored version is one more than the number of successful updates |
| UserVersions.CommitAgreesWithMemory | app/contexts/user/infrastructure/persistence/mapper.py:40-50 | the columns the UPDATE wrote over the stored row make exactly the object in memory, creation time and version included, so the two agree after the commit |
| UserVersions.RollbackLeavesMemoryAhead | app/contexts/user/infrastructure/persistence/repository.py:81-83 | after a rollback the object's version is ahead of the row exactly when its update had been executed |
| UserVersions.RefusalsAreJustified | app/contexts/user/infrastructure/persistence/repository.py:85-86 | a conflict means another update was committed after the read; not found stays true for good |
| UserVersions.UndisturbedUpdateSucceeds | app/contexts/user/infrastructure/persistence/repository.py:70-83 | an update succeeds exactly when the stored row is still the one that was read |
| UserVersions.UndisturbedTransaction | app/contexts/user/infrastructure/persistence/repository.py:70-83 | insert, read, change, update and commit with nothing in between store the changed row with version 2, free the lock and touch nobody else |
| UserVersions.DisturbedUpdateIsRefused | app/contexts/user/infrastructure/persistence/repository.py:85-86 | an update that finds its row changed or gone is refused as a conflict or as not found, and stores nothing |
| UserVersions.DeletedForGood | app/contexts/user/infrastructure/persistence/repository.py:88-93 | a deleted user is stored in no later state, whatever transactions were under way |
| Ulid.NewUlid | app/infrastructure/database/identifiers.py:13-30 | for all 48-bit times and 80-bit random values the 26 characters, written from the end, read back as the same number; the first is at most 7; nothing is left over; any other time raises |
| Ulid.OrOfShiftedAdds | app/infrastructure/database/identifiers.py:25 | or-ing the shifted time with the random bits is adding them |
| Ulid.OrIsBitwise | app/infrastructure/database/identifiers.py:25 | a bit of the result is set exactly if it is set in one of the two numbers |
| Ulid.RoundTrip | app/infrastructure/database/identifiers.py:26-30 | decoding inverts encoding |
| Ulid.OrderIsNumeric | app/infrastructure/database/identifiers.py:26-30 | texts compare as the numbers they encode |
| Ulid.SortsByTimeThenRandom | app/infrastructure/database/identifiers.py:13-30 | an earlier millisecond always sorts first; within one the random part decides |
| Ulid.IsInjective | app/infrastructure/database/identifiers.py:13-30 | distinct inputs give distinct identifiers |
| Utf8.RepairKeepsValid | app/interfaces/http/middleware/query_param_decode.py:41 | decoding with replacement leaves well-formed text alone |
| Utf8.RepairIsValid | app/interfaces/http/middleware/query_param_decode.py:41 | and makes well-formed text of anything |
| Utf8.ValidIffEncodes | app/interfaces/http/middleware/query_param_decode.py:41 | well-formed byte strings are exactly the encodings of sequences of Unicode scalar values by the table of RFC 3629 |
| Utf8.BrokenIsTheLongestBeginning | app/interfaces/http/middleware/query_param_decode.py:41 | each replacement character stands for the longest beginning of a character that is there, or for one byte |
| QueryParam.StretchesAreIndependent | app/interfaces/http/middleware/query_param_decode.py:41 | unquoting works on each stretch between characters that are not ASCII by itself |
| QueryParam.UnquoteInvertsQuote | app/interfaces/http/middleware/query_param_decode.py:21-41 | percent-decoding inverts percent-encoding for every byte string |
| QueryParam.QuotesByTheTable | app/interfaces/http/middleware/query_param_decode.py:21 | the unreserved characters and the slash stay, every other byte becomes a percent sign and two upper-case digits |
| QueryParam.LettersAreTheAlphabet | app/interfaces/http/middleware/query_param_decode.py:22 | the letters are the alphabet of RFC 4648 |
| QueryParam.DecodeInvertsEncode | app/interfaces/http/middleware/query_param_decode.py:22-40 | strict Base64 decoding inverts encoding |
| QueryParam.DecodeAcceptsExactly | app/interfaces/http/middleware/query_param_decode.py:40 | exactly which texts strict decoding accepts |
| QueryParam.DecodeReadsTheBits | app/interfaces/http/middleware/query_param_decode.py:40 | each decoded byte consists of the eight bits at its place in the string of six-bit letters |
| QueryParam.RepadInvertsStrip | app/interfaces/http/middleware/query_param_decode.py:23-37 | padding by length restores what was stripped, and the stripped length is never 1 modulo 4 |
| QueryParam.RoundTrip | app/interfaces/http/middleware/query_param_decode.py:13-41 | whatever the text and whichever plus signs arrive as spaces, decoding gives the text back, unless it is empty |
| QueryParam.ParamRoundTrip | app/interfaces/http/middleware/query_param_decode.py:27-49 | so the decoder returns what the parser makes of the encoded text |
| QueryParam.ImpossibleLengthIsRefused | app/interfaces/http/middleware/query_param_decode.py:35-44 | every value of length 1 modulo 4 is refused |
| QueryParam.AcceptedExactly | app/interfaces/http/middleware/query_param_decode.py:30-44 | exactly which values decode to a text: those strict Base64 accepts and whose bytes are well-formed UTF-8 |
| QueryParam.CarriedExactly | app/interfaces/http/middleware/query_param_decode.py:33-40 | exactly which values strict Base64 accepts once plus signs and padding are restored |
| QueryParam.IllFormedBytesAreRefused | app/interfaces/http/middleware/query_param_decode.py:40-44 | good Base64 alone is not enough |
| JobCatalog.ValidateLegacyReferences | app/infrastructure/queue/job.py:157-166 | accepts exactly valid references, pairwise distinct and different from the current one |
| JobCatalog.DescribeJob | app/infrastructure/queue/job.py:98-138 | the loop over the legacy decoders describes a type exactly when all its declarations are valid |
| JobCatalog.Build | app/interfaces/worker/resolver.py:87-113 | the nested loops accept exactly the lists of valid types with globally distinct references, and then the index answers every query as the naive search does |
| JobCatalog.AddJob | app/interfaces/worker/resolver.py:99-107 | one type's loops extend the index to the longer list, or find a reference already taken |
| JobCatalog.SearchFindsTheOwner | app/interfaces/worker/resolver.py:115-125 | a reference resolves to the one type that owns it, currently or by legacy, if it supports the version; unknown references and unsupported versions are told apart |
| JobCatalog.EachVersionHasItsDecoder | app/infrastructure/queue/job.py:66-76 | under every reference an accepted type goes by, its own version is read by its codec, each legacy version by the decoder declared for it, and any other version is unsupported |
| JobCatalog.EncodedJobsResolve | app/infrastructure/queue/job.py:58-71 | what is encoded always resolves to its own type and current codec |
| JobCatalog.EncodedJobIsHandled | app/interfaces/worker/resolver.py:61-75 | and executing the binding hands the same job to its handler, given a codec that reads back what it writes |
| JobCatalog.OrderDoesNotDecideAcceptance | app/interfaces/worker/resolver.py:87-113 | acceptance does not depend on the order of discovery |
| JobCatalog.OrderDoesNotDecideAnswers | app/interfaces/worker/resolver.py:115-125 | nor does any answer |
| Chroma.ReplacementReplaces | app/infrastructure/vector/drivers/chroma.py:326-341 | merging the patch into any metadata whose fields were all seen leaves exactly the given metadata |
| Chroma.PatchesOverwrite | app/infrastructure/vector/drivers/chroma.py:188-200 | the patched upsert of a batch is a plain overwrite of its points and touches no other |
| Chroma.Collection.Upsert | app/infrastructure/vector/drivers/chroma.py:177-200 | read and patched write, nothing in between, act as a plain overwrite |
| Chroma.UpsertsArePlainOverwrites | app/infrastructure/vector/drivers/chroma.py:177-225 | any interleaving of upserts and deletions of one client, failing writes included, leaves what plain overwrites in lock order and deletions leave |
| Chroma.UndisturbedUpsert | app/infrastructure/vector/drivers/chroma.py:177-200 | with the lock free an upsert can go through, frees the lock and overwrites its points and no other |
| Chroma.FailureFreesTheLock | app/infrastructure/vector/drivers/chroma.py:186-200 | a failing upsert frees the lock and has overwritten its points exactly if the write reached the store |
| Chroma.UnlockedUpsertsMix | app/infrastructure/vector/drivers/chroma.py:186-188 | without the common lock a field of one point survives in the other |
| Chroma.GetPoints | app/infrastructure/vector/drivers/chroma.py:202-215 | in whatever order the store answers, the existing points come in the caller's order; lists of different length raise |
| Chroma.InOrderKeepsOrder | app/infrastructure/vector/drivers/chroma.py:214-215 | each existing requested point appears at the place its predecessors leave it |
| Chroma.InOrderHasNoMore | app/infrastructure/vector/drivers/chroma.py:214-215 | the answer is as long as the request has existing points |
| HttpPool.WarningIsWithinTheLimit | app/infrastructure/http/drivers/httpx2/pool.py:32-42 | for ratios in (0, 1] the threshold lies in 1..limit and is the least such count reaching the ratio |
| HttpPool.Runtime.Acquire | app/infrastructure/http/drivers/httpx2/pool.py:19-25 | counts, keeps the peak, and answers whether this acquire crosses the threshold |
| HttpPool.Runtime.Open | app/infrastructure/http/drivers/httpx2/stream.py:80-91 | the count is taken before the warning is written; if writing raises, the stream is not opened and the count stays |
| HttpPool.Runtime.Leave | app/infrastructure/http/drivers/httpx2/stream.py:95-123 | every exit notes its reason and releases exactly once |
| HttpPool.ActiveCountsOpenStreams | app/infrastructure/http/drivers/httpx2/stream.py:80-123 | active equals the open streams if and only if no pressure warning failed to be written; the clamp at zero never acts |
| HttpPool.LeaksExactlyAtAFailedWarning | app/infrastructure/http/drivers/httpx2/stream.py:80-91 | an opening leaks its count exactly if it reaches the threshold from just below and its warning cannot be written |
| HttpPool.FailuresAreCounted | app/infrastructure/http/drivers/httpx2/stream.py:95-123 | the two failure counters count the streams left by cancellation and by pool timeout |
| HttpPool.FailedWarningLeaks | app/infrastructure/http/drivers/httpx2/stream.py:81-91 | a warning that cannot be written, as when a filter of the logger raises, leaves a count behind: a reachable state |
| HttpPool.PeakIsTheMaximum | app/infrastructure/http/drivers/httpx2/pool.py:22-25 | the peak is the maximum of the active count over the whole run |
| HttpPool.WarnsExactlyAtCrossings | app/infrastructure/http/drivers/httpx2/pool.py:19-25 | acquire answers True exactly at a crossing from below |
| HttpPool.DropsBetweenWarnings | app/infrastructure/http/drivers/httpx2/pool.py:19-30 | between two warnings the count was below the threshold |
| HttpPool.EveryRiseWarns | app/infrastructure/http/drivers/httpx2/pool.py:19-30 | every rise to the threshold has its warning |

## Left out

- RedisPipeline.SuppressedOnceRecorded: speaks of flagged deliveries, because for unflagged ones it is false of the code, as `RedisPipeline.HandlerRunsBesideRecordIff` shows.
- KafkaPipeline.SuppressedOnceRecorded: speaks of flagged deliveries for the same reason; `KafkaPipeline.HandlerRunsBesideRecordIff` gives the exact condition.
- KafkaGroup.UnflaggedIsTheFirstDelivery: requires a member of the present generation, because without it the statement is false of the code, as `KafkaGroup.UnflaggedRepeatsIffEvicted` shows.
- Job payloads are opaque: the JSON envelope and the Pydantic codecs are partial functions, and so is the JSON parser of the query parameter.
- SHA-256, uuid5, password hashing and token generation: digests and failure ids are injective, a hash is its password and its salt, fresh ids and salts have not been used before.
- Redis: XAUTOCLAIM may claim any entry idle long enough, so the cursor and the batch size are not modelled; in the pipeline (not in the consumer class) `receive` may go on although the renewal task has failed, which is more than the code does; consumer group creation is left out.
- Redis: a cancellation during the waits between attempts is the same step as one during the handler.
- Kafka: the position is read together with the assignment; auto-commit, heartbeats and the broker's storage are left out.
- Login limiters and HTTP rate limiter: their Lua scripts are not part of this model; a limiter that fails before the commit is a login that never ends.
- Databases: each unit of work of the sessions model is atomic; the version model interleaves statements but takes one conditional UPDATE as atomic and a written row as locked; isolation anomalies below that are left out.
- The names of unique constraints by which driver errors are told apart; a duplicate key is one failure.
- Chroma: a write that takes effect at the store only after its call has already failed and the lock has been given on, and other clients, for which the repository promises nothing (`Chroma.UnlockedUpsertsMix` shows why).
- HTTP pool ratios are reals; floating-point rounding of the product is left out.
- `UserSession` and policy constructors raise for values the types here exclude.
- Queue manager: `replay`, name resolution and dispatch; the sorted list of job descriptors.
- The RabbitMQ driver, the scheduler, logging, tracing, configuration, routing, CLI and migrations.
