# Verified model of the judge-node agent

go-judge's judge-node agent (`internal/hnieoj`) is a client that must survive crashes, lost
replies and failed writes: it rotates its signing key in two phases, executes leased
tasks, and keeps terminal results in a bounded durable queue. This project models that agent, and
a few self-contained algorithms beside it, in Dafny, and proves what they promise.
`dafny verify dfyconfig.toml` checks the whole project.

| file | what it models |
|---|---|
| `identity.dfy` | the key store: file state, transitions, memory and disk |
| `rotation.dfy` | key rotation as a world of node, disk, server and messages; the rotation manager |
| `resultqueue.dfy`, `queueobject.dfy` | the durable result queue: operations, accounting, reopening; the object |
| `tasks.dfy` | the registry of in-flight attempts |
| `attempts.dfy`, `attemptruns.dfy` | the life of an attempt across registry, workers, queue, disk and session; whole runs |
| `clientobject.dfy` | `handleAssign` and `resume` on the registry and queue objects |
| `lease.dfy` | lease renewal under a deadline |
| `expiryheap.dfy` | the expiring file store's indexed heap |
| `pipeproxy.dfy` | the zero-copy and the simple pipe proxy |
| `canonical.dfy` | the signed byte encoding |
| `cachecleanup.dfy` | cache eviction |
| `score.dfy` | score apportionment |

## How to read the model

- **Atomic writes** end in one of three ways: nothing changed, file replaced but an error reported, or
  replaced and confirmed (`Basics.WriteOutcome`). After a failed commit the identity file can
  therefore be one transition ahead of memory.
- **Keys** are opaque tokens; a public key determines its seed, and generated seeds and rotation
  ids are new. Key ids are assumed trimmed.
- **The server** is a partner with three duties: the key ids it assigns are new and non-empty, preparing
  is idempotent per rotation id, and a rotation leaves PENDING once. Requests and
  replies may be lost, delayed and repeated. What a status reply says is relied on only for the
  rotation whose id, key id and public key it names (EXPIRED may omit the last two); any other reply may say anything, and the
  client's own validation has to keep it out. `prepare` does not check that a returned key id is new;
  `Identity.RecordKeepsIff` shows that the store's invariant survives exactly when it is.
- **Admission** of a task is three separate steps (checks, reservation, start), and the release of a
  reservation after a completion is a step of its own, so other threads run in between. So are
  reading the epoch for a renewal and writing it to the registry, and the drain check of READY and
  its sending. Facts from the program that are built in: the next session starts only after the
  reader and the loops of the previous one have returned, a worker waits for its renewal loop before
  it completes a task, and the release callback runs within `doneTTL`. The loops of `resume` after
  its reply, and the two stores of `applyAuthOK`, are one step each.
- **Clocks** are integers (milliseconds). The clock of the attempt model never goes back.
- **Ids.** Attempt keys join three parts with NUL. The model keys everything by that string, so equal
  keys are one attempt, as in the program; `Tasks.TaskKeyInjective` says when the string
  determines the parts.
- **Events** are stored and reloaded byte for byte, and a file's name determines its record's id.
  `metaBytes` is the size the JSON wrapping adds to a record file.

Behaviour worth knowing, kept as the code has it:

- The zero-copy proxy does not always record a prefix: the chunk at which `tee` first fails is
  discarded. `PipeProxy.CopyIsPrefixIff` says exactly when the copy is a prefix, and
  `PipeProxy.CopyNeedNotBePrefix` gives a run where it is not.
- A queue that is not `Full` can still refuse a reservation (`ResultQueue.NotFullYetRefused`).
- Adding an id that is already tracked breaks the heap's index (`ExpiryHeap.Timeout.Add`).
- Before enrollment two keys can share the empty id, and then grace cleanup can be visible to a lookup
  of "" (`Identity.GraceCleanupInvisibleIff`, reached by the run in `Identity.GraceCleanupVisibleWithoutIds`).
- `Renew` reads the session epoch before it writes the registry. A renewal that is between the two
  while the node reconnects puts the old epoch on a live attempt (`AttemptRuns.EpochFence`,
  `AttemptRuns.FenceKeptIff`; `AttemptRuns.FenceCanBreak` gives the run).
- `Score.Judge`: an OI task with a non-positive full score is accepted whatever the results.
- An assignment, and one READY, that passed the drain check just before a local drain began still go
  through (`AttemptRuns.LocalDrainIrreversible`, `AttemptRuns.DrainExceptions`).

## Model

| member | source | states |
|---|---|---|
| Identity.Store.Commit | internal/hnieoj/identity/identity.go:672-683 | memory changes only if the write reported success; the file changes if the rename happened |
| Identity.Store.ApplyEnrollment | internal/hnieoj/identity/identity.go:440-458 | for every write outcome the current key takes the id and nothing else changes; the store stays valid if and only if no other key had the id; empty ids are rejected |
| Identity.Store.BeginRotation | internal/hnieoj/identity/identity.go:463-497 | an existing pending rotation is returned unchanged; otherwise the new key is persisted before it is published |
| Identity.Store.RecordRotationPrepared | internal/hnieoj/identity/identity.go:501-519 | succeeds exactly for the pending rotation id and a confirmed write; then only the pending rotation and its key take the id |
| Identity.Store.MarkRotationConfirmed | internal/hnieoj/identity/identity.go:522-533 | succeeds exactly if a rotation is pending and the write is confirmed; keys, current key and validity stay |
| Identity.Store.ActivateRotatedKey | internal/hnieoj/identity/identity.go:537-566 | a valid store switches exactly if the rotation is confirmed and the write succeeds; then the pending key is current and ACTIVE, the old one under grace, every other key untouched |
| Identity.Store.ExpireGraceKeys | internal/hnieoj/identity/identity.go:569-594 | the filter loop keeps exactly the keys not past grace, and reports change, refusal or neither |
| Identity.Store.DiscardPendingRotation | internal/hnieoj/identity/identity.go:608-625 | only an unconfirmed rotation goes, with exactly its key; a valid store is never refused and keeps its current key |
| Identity.Store.PrivateKeyByID | internal/hnieoj/identity/identity.go:324-349 | the loop finds the private key of the first record with the id, if it is ACTIVE or within grace |
| Identity.Store.CanSign | internal/hnieoj/identity/identity.go:352-372 | the loop answers for a pending id, or the first ACTIVE or GRACE record with the id |
| Identity.CurrentKeyOf | internal/hnieoj/identity/identity.go:642-659 | the two loops find the key by current id, else the first ACTIVE, else the first |
| Identity.CurrentIs | internal/hnieoj/identity/identity.go:642-659 | in a good state the current-key lookup finds the one ACTIVE key, and the key lookups find theirs |
| Identity.BeginKeeps | internal/hnieoj/identity/identity.go:463-497 | beginning with a new key keeps the store invariant |
| Identity.RecordKeepsIff | internal/hnieoj/identity/identity.go:501-519 | recording an id for the pending rotation keeps the invariant if and only if no other key has it, and labels only the pending key |
| Identity.EnrollKeepsIff | internal/hnieoj/identity/identity.go:440-458 | enrollment keeps the invariant if and only if no other key has the id |
| Identity.ConfirmKeeps | internal/hnieoj/identity/identity.go:522-533 | confirming keeps the invariant |
| Identity.ActivateKeeps | internal/hnieoj/identity/identity.go:537-566 | activation of a confirmed rotation always succeeds; exactly the old key is retired and the pending key becomes the only ACTIVE and current one |
| Identity.ActivateSwitches | internal/hnieoj/identity/identity.go:537-566 | position by position: ACTIVE becomes GRACE with the deadline, PENDING becomes ACTIVE and current, the rest stays |
| Identity.KeptMembers | internal/hnieoj/identity/identity.go:573-581 | a key is kept if and only if it was there and is not past grace |
| Identity.CleanupMeans | internal/hnieoj/identity/identity.go:569-594 | cleanup acts exactly if some GRACE key has a positive deadline at or before now, and exactly those keys go |
| Identity.ExpireKeeps | internal/hnieoj/identity/identity.go:569-594 | cleanup keeps the invariant and never meets the "refusing to remove all keys" guard |
| Identity.DiscardKeeps | internal/hnieoj/identity/identity.go:608-625 | a rotation is discarded exactly if it is unconfirmed; that keeps the invariant and the current key, and never meets the "refusing to discard the current key" guard |
| Identity.DiscardMembers | internal/hnieoj/identity/identity.go:616-621 | only the pending key goes |
| Identity.StoreRunSafe | internal/hnieoj/identity/identity.go:440-659 | over every run of store transitions: one ACTIVE key and it is current, a PENDING record exactly mirrors the pending rotation, non-empty ids are distinct, no refusal guard fires |
| Identity.LookupIsMembership | internal/hnieoj/identity/identity.go:324-372 | with a unique id both signing lookups answer for exactly the usable key of that id |
| Identity.FirstKeyDecides | internal/hnieoj/identity/identity.go:324-349 | in every state the first record with the id decides: ACTIVE, or GRACE before its deadline |
| Identity.KeySignsWhen | internal/hnieoj/identity/identity.go:324-372 | with a unique id both lookups answer for ACTIVE keys always, for GRACE keys until the deadline, and the second also for a pending id |
| Identity.PendingKeyNeverSigns | internal/hnieoj/identity/identity.go:322-372 | a pending key counts as held but is never handed out as an ordinary signing key |
| Identity.GraceCleanupInvisibleIff | internal/hnieoj/identity/identity.go:324-372 | for every state and key id: both signing lookups answer the same at all times from now on if and only if the first record they meet is not past grace, or no usable one survives behind it |
| Identity.GraceCleanupInvisible | internal/hnieoj/identity/identity.go:324-372 | so in every state of the store cleanup is invisible for every non-empty id, and for "" too once all keys have ids |
| Identity.GraceCleanupVisibleWithoutIds | internal/hnieoj/identity/identity.go:328-348 | a run of the store, before enrollment, to a state where cleanup changes the answer for "" |
| Identity.GraceKeyUsableExactlyUntilDeadline | internal/hnieoj/identity/identity.go:324-372 | in every valid state both lookups answer for a GRACE key with an id exactly until its deadline |
| Identity.RotatedOutKeyUsableExactlyUntilGrace | internal/hnieoj/identity/identity.go:537-566 | confirming with a deadline and activating puts the old key under exactly that deadline, and both lookups honour it |
| Identity.GraceKeyKept | internal/hnieoj/identity/identity.go:440-625 | no step but a cleanup past its deadline touches a GRACE key |
| Identity.RotatedOutKeyThroughRun | internal/hnieoj/identity/identity.go:324-372 | over every run of the store a rotated-out key signs until its deadline, and no longer |
| Rotation.PreparedFresh | internal/hnieoj/rotation/rotation.go:255-264 | the key id in a prepare reply belongs to no other local key |
| Rotation.PreparedOk | internal/hnieoj/rotation/rotation.go:237-266 | recording a truthful prepare reply keeps agreement with the server |
| Rotation.ConfirmedOk | internal/hnieoj/rotation/rotation.go:313-320 | recording an ACTIVE reply keeps agreement with the server |
| Rotation.ActivatedOk | internal/hnieoj/rotation/rotation.go:411-422 | switching to a confirmed key leaves the server's active key the current one |
| Rotation.DiscardedOk | internal/hnieoj/rotation/rotation.go:350-352 | discarding after EXPIRED never drops the server's active key |
| Rotation.CleanedOk | internal/hnieoj/rotation/rotation.go:185-191 | grace cleanup keeps agreement with the server |
| Rotation.CommitInv | internal/hnieoj/securefile/securefile.go:36-70 | publishing a good state keeps the invariant of memory and file however the write ends |
| Rotation.StepInv | internal/hnieoj/rotation/rotation.go:208-360 | every client, server, message and crash step keeps the rotation invariant |
| Rotation.RunInv | internal/hnieoj/rotation/rotation.go:208-360 | the invariant holds after every run |
| Rotation.NeverLockedOut | internal/hnieoj/wss/run.go:73-86 | after every run, the candidates built from memory and those built from the file contain the server's active key with its private key held, and an AUTH_OK naming that key passes the local check |
| Rotation.GraceAlwaysEnds | internal/hnieoj/rotation/rotation.go:313-316 | in every reachable state, in memory and in the file, a rotated-out key has a positive deadline and signs exactly until then |
| Rotation.AuthCandidates | internal/hnieoj/wss/run.go:73-86 | the current key first, then the pending key exactly if its id is recorded and different; never the same id twice, and the empty id only alone |
| Rotation.SwitchOk | internal/hnieoj/rotation/rotation.go:411-422 | activating a confirmed rotation keeps every promise: nothing given up before the server has settled it, and a done call leaves the server's active key current |
| Rotation.ConcludeOk | internal/hnieoj/rotation/rotation.go:303-320 | the same for acting on a validated ACTIVE or EXPIRED reply |
| Rotation.ConfirmOk | internal/hnieoj/rotation/rotation.go:273-321 | the same for confirming, with lost and undecodable answers |
| Rotation.QueryOk | internal/hnieoj/rotation/rotation.go:323-360 | the same for the status query; a rotation reported open stays pending with its id recorded |
| Rotation.PrepareOk | internal/hnieoj/rotation/rotation.go:237-266 | the same for preparing |
| Rotation.RecoverOk | internal/hnieoj/rotation/rotation.go:208-222 | the same for recovery from every reachable state |
| Rotation.RotateOk | internal/hnieoj/rotation/rotation.go:225-235 | the same for a whole round |
| Rotation.CooperativeRoundCompletes | internal/hnieoj/rotation/rotation.go:225-321 | from every reachable state without a pending rotation, if the server goes along and the writes succeed, a round ends with the new key current here and active there, also when the answer to the confirm is lost, and whether or not the server repeats nonce and deadline |
| Rotation.RecoverConfirmed | internal/hnieoj/rotation/rotation.go:214-216 | from every reachable state a confirmed rotation and one successful write end with its key current |
| Rotation.RecoverCompletes | internal/hnieoj/rotation/rotation.go:208-222 | from every reachable state an unconfirmed rotation, with its id recorded or not, completes with a server that goes along, also when the answer to the confirm is lost or the server had already activated the key |
| Rotation.RecoverPreparesIff | internal/hnieoj/rotation/rotation.go:217-221 | recovery sends a prepare exactly if no id is recorded, and always for the same rotation and key |
| Rotation.ConfirmRejected | internal/hnieoj/rotation/rotation.go:296-311 | an answer for another rotation, or neither ACTIVE nor EXPIRED, changes nothing |
| Rotation.ConfirmExpired | internal/hnieoj/rotation/rotation.go:303-306 | an EXPIRED answer drops the rotation and keeps the current key |
| Rotation.ConfirmUnanswered | internal/hnieoj/rotation/rotation.go:289-301 | an unreadable answer is an error; a lost one is settled by asking, and a rotation reported open stays open |
| Rotation.PrepareRefused | internal/hnieoj/rotation/rotation.go:251-264 | a prepare without a usable answer for this rotation records nothing |
| Rotation.RejectedIff | internal/hnieoj/rotation/rotation.go:364-409 | a status reply is turned down exactly for one of the listed mismatches |
| Rotation.VerdictMeans | internal/hnieoj/rotation/rotation.go:303-320 | an accepted ACTIVE with a grace deadline confirms, an accepted EXPIRED discards an unconfirmed rotation, anything else changes nothing |
| Rotation.Manager.SwitchKey | internal/hnieoj/rotation/rotation.go:411-422 | takes exactly the activation step and is done exactly if its write succeeds |
| Rotation.Manager.Conclude | internal/hnieoj/rotation/rotation.go:303-320 | is done exactly if the write succeeds and the reply says EXPIRED, or ACTIVE with a positive grace and the switch is written |
| Rotation.Manager.ConfirmOnce | internal/hnieoj/rotation/rotation.go:273-321 | world and ending are those of the confirming run, for every answer |
| Rotation.Manager.Query | internal/hnieoj/rotation/rotation.go:323-360 | world and ending are those of the querying run, for every answer |
| Rotation.Manager.Prepare | internal/hnieoj/rotation/rotation.go:237-266 | world and ending are those of the preparing run, for every answer and write |
| Rotation.Manager.Recover | internal/hnieoj/rotation/rotation.go:208-222 | keeps every promise; a confirmed rotation and a successful write make its key current, any other completes with a server that goes along, and a prepare is sent exactly if no id is recorded |
| Rotation.Manager.RotateOnce | internal/hnieoj/rotation/rotation.go:225-235 | keeps every promise; without a pending rotation a new one completes with a server that goes along, with one it recovers that one |
| ResultQueue.ChargeIsProduct | internal/hnieoj/resultqueue/queue.go:304-326 | the reservation budget is the number of reservations times maxRecord |
| ResultQueue.EnqueueInv | internal/hnieoj/resultqueue/queue.go:140-191 | enqueueing keeps both budgets and the agreement with the directory, for every write outcome |
| ResultQueue.ReserveInv | internal/hnieoj/resultqueue/queue.go:197-220 | reserving keeps them |
| ResultQueue.ReleaseInv | internal/hnieoj/resultqueue/queue.go:225-229 | releasing keeps them |
| ResultQueue.AckInv | internal/hnieoj/resultqueue/queue.go:268-287 | acknowledging keeps them, and the negative-bytes clamp never acts |
| ResultQueue.AlwaysWithinLimits | internal/hnieoj/resultqueue/queue.go:140-229 | over all operation sequences: bytes is the sum of event lengths, record and reservation ids are disjoint, both budgets hold, the directory holds every record and at most one more |
| ResultQueue.NeverNegative | internal/hnieoj/resultqueue/queue.go:336-361 | after any operations the negative-bytes clamp of pruning changes nothing |
| ResultQueue.FullRefusesReserve | internal/hnieoj/resultqueue/queue.go:304-309 | a full queue refuses every fresh reservation |
| ResultQueue.NotFullYetRefused | internal/hnieoj/resultqueue/queue.go:304-326 | a queue that is not full refuses a fresh reservation if and only if the byte budget left is below maxRecord |
| ResultQueue.ReservedNeverFull | internal/hnieoj/resultqueue/queue.go:172-181 | a reserved id is never told that the queue is full; within the size limits only the disk decides |
| ResultQueue.AcceptedIsOnDisk | internal/hnieoj/resultqueue/queue.go:160-191 | an accepted result is on disk with exactly its bytes, and a new one with every field as reported but the arrival time |
| ResultQueue.EnqueueReplies | internal/hnieoj/resultqueue/queue.go:140-181 | when each of the seven replies is given, in numbers; equal content under a known id is accepted, a reserved id always has room, any other needs a slot and its bytes |
| ResultQueue.EnqueueEffect | internal/hnieoj/resultqueue/queue.go:182-191 | what each reply leaves in records, reservations, bytes and directory |
| ResultQueue.ReserveReplies | internal/hnieoj/resultqueue/queue.go:197-220 | when each reply is given, in numbers, and that a new reservation is the sole effect |
| ResultQueue.FullMeans | internal/hnieoj/resultqueue/queue.go:304-309 | full means degraded, no record slot, or no byte left beside the reserved budgets |
| ResultQueue.LoadedExactly | internal/hnieoj/resultqueue/queue.go:112-135 | loading distinct files keeps every record and counts every byte |
| ResultQueue.LoadOneMore | internal/hnieoj/resultqueue/queue.go:112-135 | one more entry adds its record and bytes exactly if it is a .json file |
| ResultQueue.LoadAcceptsMeans | internal/hnieoj/resultqueue/queue.go:88-137 | the directories load accepts, in numbers |
| ResultQueue.ReopenSucceeds | internal/hnieoj/resultqueue/queue.go:88-137 | reopening any listing of the directory with the same limits succeeds, returns every record and at most one more |
| QueueObject.Queue.constructor | internal/hnieoj/resultqueue/queue.go:57-83 | non-positive limits are replaced by 256 records, 64 MiB and 4 MiB |
| QueueObject.Queue.CheckSizes | internal/hnieoj/resultqueue/queue.go:95-111 | the first loop accepts exactly listings within the count and file-size limits |
| QueueObject.Queue.ReadAll | internal/hnieoj/resultqueue/queue.go:112-135 | the second loop accepts exactly intact contents within the byte budget and loads all of them |
| QueueObject.Queue.Load | internal/hnieoj/resultqueue/queue.go:88-137 | load succeeds exactly within the limits and then holds all records |
| QueueObject.Queue.Enqueue | internal/hnieoj/resultqueue/queue.go:140-191 | new state and reply for every branch, duplicates, conflicts and storage failure included |
| QueueObject.Queue.Reserve | internal/hnieoj/resultqueue/queue.go:197-220 | new state and reply for every branch |
| QueueObject.Queue.Release | internal/hnieoj/resultqueue/queue.go:225-229 | only the reservation goes |
| QueueObject.Queue.Ack | internal/hnieoj/resultqueue/queue.go:268-287 | record and file go together; a removal error changes nothing |
| QueueObject.Queue.Prune | internal/hnieoj/resultqueue/queue.go:336-361 | exactly records with a TTL set and age above it go, each with its file; success leaves none; failure means a removal failed on such a record or the sync failed; reservations stay and limits stay respected |
| Tasks.SplitKeyNamesSameAttempt | internal/hnieoj/wss/run.go:474-486 | splitting a key at NUL gives parts with the same key, so the omitted attempt is the one cancelled |
| Tasks.TaskKeyInjective | internal/hnieoj/tasks/registry.go:23-26 | for ids without NUL the key determines the attempt |
| Tasks.RegistryObject.PruneDone | internal/hnieoj/tasks/registry.go:191-200 | exactly the completions older than the TTL are forgotten |
| Tasks.RegistryObject.HasAttempt | internal/hnieoj/tasks/registry.go:56-66 | true exactly for attempts in flight or completed within the TTL |
| Tasks.RegistryObject.StartAttempt | internal/hnieoj/tasks/registry.go:69-81 | registers unless the key is in flight |
| Tasks.RegistryObject.UpdateLeaseOf | internal/hnieoj/tasks/registry.go:84-98 | only the lease of that attempt changes |
| Tasks.RegistryObject.ResumeAttempt | internal/hnieoj/tasks/registry.go:102-117 | only lease and epoch of that attempt change |
| Tasks.RegistryObject.CancelAttempt | internal/hnieoj/tasks/registry.go:164-175 | only that attempt is cancelled and it stays registered |
| Tasks.RegistryObject.CancelEverything | internal/hnieoj/tasks/registry.go:227-242 | all attempts are cancelled and stay registered |
| Tasks.RegistryObject.CompleteAttempt | internal/hnieoj/tasks/registry.go:178-189 | the attempt leaves the registry and is remembered from now |
| Attempts.AssignBranchesDead | internal/hnieoj/wss/client.go:639-663 | the failed-start branch and the channel-overflow branch cannot be reached |
| Attempts.StepLedger | internal/hnieoj/wss/client.go:589-664 | every step keeps conservation, the concurrency bound, remembered completions, promised capacity and the epoch fence |
| Attempts.StepQueue | internal/hnieoj/wss/client.go:666-679 | every step of the node is one operation of the queue |
| Attempts.CheckAssignDecides | internal/hnieoj/wss/client.go:603-622 | known attempts and drained nodes change nothing; otherwise mode and the number of attempts against the server's quota decide between admission and a closed session |
| Attempts.UnusableAssignIgnored | internal/hnieoj/wss/client.go:595-598 | a message without all ids or a lease is ignored |
| Attempts.ChannelOrder | internal/hnieoj/wss/client.go:651-653 | the worker channel is first in, first out |
| Attempts.AvailableSlotsMeans | internal/hnieoj/wss/run.go:509-519 | the slots offered: none while the queue is full, else what the server's quota leaves |
| Attempts.RemoteDrainEffect | internal/hnieoj/wss/client.go:559-587 | NODE_DRAIN and a DRAINING notice start a remote drain, ACTIVE sets it as it says, nothing else changes |
| Attempts.OtherFlagEffects | internal/hnieoj/wss/client.go:318-332 | an unknown status changes nothing, a local drain just its flag |
| Attempts.DrainStops | internal/hnieoj/wss/run.go:497-500 | either drain stops READY and admission; without both a ready node offers its slots |
| Attempts.AuthEffects | internal/hnieoj/wss/run.go:365-391 | a session takes epoch and quota from AUTH_OK; a refresh takes the quota, under the same epoch alone |
| Attempts.AckEffect | internal/hnieoj/wss/run.go:657-674 | an acknowledgement of exactly the delivered record takes record and file away, any other nothing |
| Attempts.PruneEffect | internal/hnieoj/resultqueue/queue.go:336-361 | a record past the TTL goes with its file, any other stays |
| Attempts.ResultRecordNames | internal/hnieoj/wss/run.go:767-787 | a result's record names its attempt and is filed under its key |
| Attempts.ResumedMapMeans | internal/hnieoj/wss/run.go:433-439 | the last complete item for a key counts |
| Attempts.FinishInv | internal/hnieoj/tasks/registry.go:178-189 | completing an attempt keeps all of the above while its release is still to come |
| AttemptRuns.AttemptsConserved | internal/hnieoj/wss/client.go:618-664 | in every reachable state registry entries are exactly the queued, claimed and executing tasks, each once, at most the local concurrency |
| AttemptRuns.AdmittedNeverFull | internal/hnieoj/wss/client.go:623-629 | in every reachable state an attempt in flight whose key has had no record never gets the full error, and within the size limits only the disk decides |
| AttemptRuns.ReservationsAreOwned | internal/hnieoj/wss/client.go:137-145 | no reservation leaks: in every reachable state each belongs to an attempt in flight, to the one being started, or to a completed one whose release is still to run |
| AttemptRuns.ChainQueue | internal/hnieoj/wss/client.go:589-664 | to the queue, a run of n steps is n queue operations |
| AttemptRuns.HadRecordMeans | internal/hnieoj/wss/run.go:767-787 | a key has had a record only through an accepted report or a file found at a restart |
| AttemptRuns.NoResultLost | internal/hnieoj/wss/run.go:634-674 | after a report was accepted, every later state has that exact event on disk, or a step in between was a matching acknowledgement or a TTL removal of that key |
| AttemptRuns.SettlingAckNamesAttempt | internal/hnieoj/wss/run.go:657-667 | for ids without NUL the acknowledgement names exactly the reporting attempt |
| AttemptRuns.RunReopenSucceeds | internal/hnieoj/resultqueue/queue.go:88-137 | in every reachable state reopening succeeds and returns every record and at most one more |
| AttemptRuns.StrayFileMeansFailedReport | internal/hnieoj/resultqueue/queue.go:182-186 | a file without a record is exactly the record of a report that failed with a storage error |
| AttemptRuns.NeverTwiceAtOnce | internal/hnieoj/wss/client.go:603-608 | an attempt is queued, claimed or executing at most once in total |
| AttemptRuns.ExecutionTracked | internal/hnieoj/worker/worker.go:204-278 | an execution once started is going on or has completed |
| AttemptRuns.AtMostOnce | internal/hnieoj/tasks/registry.go:177-200 | in one process a second execution starts only after the first completed and more than doneTTL later |
| AttemptRuns.EpochFence | internal/hnieoj/wss/run.go:395-490 | in every reachable state with a ready session, each attempt is cancelled, carries the session epoch, or has had a renewal whose epoch was read before the node reconnected and written after |
| AttemptRuns.FenceKeptIff | internal/hnieoj/wss/lease.go:40-40 | a step keeps the fence if and only if it does not write a renewal with an older epoch to a live attempt of a ready session |
| AttemptRuns.FenceCanBreak | internal/hnieoj/wss/lease.go:40-40 | a run of the node that ends with such an attempt |
| AttemptRuns.ResumeKeepsExactlyApproved | internal/hnieoj/wss/run.go:431-486 | for every RESUME_RESULT exactly the live attempts whose last complete item is uncompleted with a future lease, and whose key is nowhere rejected, stay live, with the new epoch and that lease |
| AttemptRuns.EpochChangesOnlyOnConnect | internal/hnieoj/wss/run.go:365-377 | refresh never changes the epoch |
| AttemptRuns.NothingUncancels | internal/hnieoj/tasks/registry.go:100-117 | no step revives a cancelled attempt |
| AttemptRuns.CancelHitsItsTarget | internal/hnieoj/wss/client.go:731-743 | a cancel message changes exactly its target, an inactive identity cancels every attempt |
| AttemptRuns.CancelledStaysOut | internal/hnieoj/worker/worker.go:241-245 | while it stays registered, a cancelled attempt never enters the handler |
| AttemptRuns.StartsWithinQuota | internal/hnieoj/wss/client.go:618-664 | over every run, no start takes the registry above the quota in force when the assignment was checked |
| AttemptRuns.OnlyStartAdds | internal/hnieoj/wss/client.go:631-653 | an attempt enters the registry only by being started, with its lease and the session epoch |
| AttemptRuns.AdvertisedSlotAdmitted | internal/hnieoj/wss/run.go:497-519 | with free slots advertised a fresh assignment passes every check, and is refused if and only if the byte budget left is below maxRecord |
| AttemptRuns.LocalDrainIrreversible | internal/hnieoj/wss/client.go:318-332 | after a local drain begins, no attempt is added and no READY sent except the one of each already past the drain check, over any messages and reconnects |
| AttemptRuns.DrainExceptions | internal/hnieoj/wss/client.go:603-664 | an admission that holds its reservation, and a READY past its check, do go through |
| AttemptRuns.RemoteDrainEndsOnlyByActive | internal/hnieoj/wss/client.go:559-587 | a drain ordered by the server ends only by an ACTIVE notice that does not itself say draining, or a restart |
| AttemptRuns.DrainTransparent | internal/hnieoj/wss/run.go:524-534 | draining changes neither the possibility nor the effect of any other step |
| ClientObject.CollectResumed | internal/hnieoj/wss/run.go:433-439 | later duplicates win and incomplete items are skipped |
| ClientObject.CancelRejected | internal/hnieoj/wss/run.go:440-447 | exactly the rejected keys are cancelled |
| ClientObject.DecideResumed | internal/hnieoj/wss/run.go:448-472 | listed resumed attempts are renewed if granted and cancelled otherwise, in any order |
| ClientObject.CancelOmitted | internal/hnieoj/wss/run.go:473-486 | exactly the listed keys neither resumed nor rejected are cancelled |
| ClientObject.ListKeys | internal/hnieoj/wss/run.go:398-418 | the listed keys are those of complete attempts and results, and all of them split back |
| ClientObject.ResumeTasks | internal/hnieoj/wss/run.go:431-490 | the four loops together do what the one-line rule per attempt says |
| ClientObject.NodeClient.HandleAssign | internal/hnieoj/wss/client.go:589-664 | performs exactly the admission steps; acknowledges exactly known or newly queued attempts, rejects exactly when the queue refuses, and is silent exactly when draining or on an unusable message; starts only below the server's quota, and closes the session on a fresh allowed assignment exactly when the quota is used up |
| Lease.Renew | internal/hnieoj/wss/lease.go:14-42 | a valid answer moves the registry lease, its epoch and the executor's deadline; anything else changes nothing |
| Lease.TryOnce | internal/hnieoj/worker/worker.go:329-373 | one retry pass: a grant wins exactly if it is in before the deadline read when the request was sent, and then lease and registry entry carry what was granted |
| Lease.PassMeans | internal/hnieoj/worker/worker.go:328-374 | the exact condition of each pass, on the clock, the deadline and the answer: not sent, won, quit or tried again |
| Lease.VerdictMeans | internal/hnieoj/worker/worker.go:328-374 | a renewal succeeds if and only if its first decisive round was answered before the deadline it was sent under, and is given up if and only if that round was refused, late, out of time or not sent |
| Lease.TimelyGrantWins | internal/hnieoj/worker/worker.go:341-354 | a first round granted in time succeeds with the lease granted, whatever it is |
| Lease.RetriedGrantWins | internal/hnieoj/worker/worker.go:328-374 | so does one granted in time after rounds that failed with time left |
| Lease.RenewWithRetry | internal/hnieoj/worker/worker.go:328-374 | ends with that verdict and leaves the lease it won; a late answer is given up although it has moved the deadline |
| Lease.RetryBound | internal/hnieoj/worker/worker.go:360-373 | with no lease update and a monotone clock at most ceil((deadline - now) / backoff) requests are sent |
| Lease.WakesInTime | internal/hnieoj/worker/worker.go:308-324 | the loop wakes within a period; with a lease set it wakes at the safety margin before the deadline, not later and not needlessly earlier |
| Lease.PunctualWakeSends | internal/hnieoj/worker/worker.go:308-324 | a loop woken on time with a running lease always gets to send its request |
| Lease.LostIff | internal/hnieoj/worker/worker.go:280-306 | a lease is lost if and only if the renewal of some turn on a running task failed or came late, all earlier turns having won theirs |
| Lease.LateAnswerLoses | internal/hnieoj/worker/worker.go:341-349 | an answer after the deadline it was sent under loses the lease, whatever follows |
| Lease.TimelyGrantKeepsLease | internal/hnieoj/worker/worker.go:280-306 | a renewal granted in time keeps the lease and the loop goes on with it |
| Lease.FailedRenewalLoses | internal/hnieoj/worker/worker.go:296-304 | a denied, late or unsent renewal of a running task loses the lease at once |
| Lease.RenewLoop | internal/hnieoj/worker/worker.go:280-306 | ends exactly as the environment decides; the lost flag goes up and the task is cancelled exactly on a lost lease; the sleeps asked for are the computed delays |
| ExpiryHeap.RootIsEarliest | filestore/timeout.go:62-72 | the root is the earliest entry |
| ExpiryHeap.PushKeepsIndexIff | filestore/timeout.go:88-92 | pushing keeps the index exact if and only if the id is untracked |
| ExpiryHeap.Timeout.Swap | filestore/timeout.go:82-86 | swapping keeps the index exact and the contents |
| ExpiryHeap.Timeout.Up | filestore/timeout.go:101-115 | sifting up restores the heap and keeps index and contents |
| ExpiryHeap.Timeout.Down | filestore/timeout.go:117-129 | sifting down restores the heap, or leaves at most the parent link open, and keeps index and contents |
| ExpiryHeap.Timeout.DropLast | filestore/timeout.go:94-99 | the last element leaves sequence and index |
| ExpiryHeap.Timeout.Push | filestore/timeout.go:111-112 | always a heap afterwards; index exact and contents extended if and only if the id was untracked, otherwise the id sits there twice |
| ExpiryHeap.Timeout.RemoveAt | filestore/timeout.go:123-128 | the contents lose exactly the file at that position |
| ExpiryHeap.Timeout.Touch | filestore/timeout.go:141-142 | the contents change exactly in the time of that file |
| ExpiryHeap.Timeout.Add | filestore/timeout.go:101-115 | a map update if and only if the id is not tracked yet; otherwise the index is no longer exact |
| ExpiryHeap.Timeout.Get | filestore/timeout.go:131-145 | a map update for tracked ids, nothing otherwise |
| ExpiryHeap.Timeout.Remove | filestore/timeout.go:117-129 | a map removal, also in the underlying store |
| ExpiryHeap.Timeout.CheckTimeoutAndRemove | filestore/timeout.go:62-72 | exactly the files with time + timeout before now go, here and in the underlying store |
| PipeProxy.ZeroCopyRound | envexec/file_pipe_linux.go:79-131 | one round serves, tears or drains; where it ends and what it loses is fixed by the call's pace and by whether the reader is there |
| PipeProxy.ZeroCopy | envexec/file_pipe_linux.go:75-131 | copy, delivered bytes and position are functions of the environment: the source is drained, the reader gets what was moved before it went, and the copy is the limited prefix unless it went while recording, and then misses exactly one run of 1 to 65536 bytes |
| PipeProxy.EveryCallMoves | envexec/file_pipe_linux.go:79-131 | a reader that lasts for as many calls as there are bytes gets them all |
| PipeProxy.CopyIsPrefixIff | envexec/file_pipe_linux.go:87-124 | the copy is the limited prefix of every source of a length if and only if the reader stays until the copy is full or the source ends |
| PipeProxy.CopyNeedNotBePrefix | envexec/file_pipe_linux.go:87-124 | a run whose copy is not a prefix of the source |
| PipeProxy.CopyOut | envexec/file_prepare.go:453-456 | copying goes on to the end or to the call that finds the reader gone, and what got through by then is fixed by the environment |
| PipeProxy.Simple | envexec/file_prepare.go:433-466 | the copy is always the limited prefix, the source is drained, and the reader gets exactly what was written before it went |
| PipeProxy.Compare | envexec/file_prepare.go:433-466 | the copies agree unless the reader of the fast proxy goes while it records, and then the gap is exact; each reader gets a prefix, with a byte at least for every call it lasts, and all of it if it lasts |
| Canonical.NumberOfBigEndian | internal/hnieoj/protocol/protocol.go:92-94 | the four length bytes hold the length modulo 2^32 |
| Canonical.Build | internal/hnieoj/protocol/protocol.go:84-98 | the loop builds the framed concatenation |
| Canonical.EncodeLayout | internal/hnieoj/protocol/protocol.go:84-98 | each field is four length bytes and its own bytes, one field after the other |
| Canonical.RoundTripIff | internal/hnieoj/protocol/protocol.go:84-98 | decoding gives back the fields if and only if none is 2^32 bytes or longer |
| Canonical.Injective | internal/hnieoj/protocol/protocol.go:84-98 | different field lists of any length have different encodings |
| Canonical.DomainsSeparate | internal/hnieoj/protocol/protocol.go:100-123 | bytes built for two signing domains are never equal, whatever the fields |
| Canonical.FieldOrder | internal/hnieoj/protocol/protocol.go:100-123 | domain and fields of each message in the contract's order |
| Canonical.UpperMeaning | internal/hnieoj/protocol/protocol.go:111-113 | the verb is signed in capitals |
| Canonical.SignedBytesNameMessage | internal/hnieoj/protocol/protocol.go:100-123 | signed bytes determine the message, up to the letter case of the HTTP method |
| CacheCleanup.RemoveIdle | internal/hnieoj/testdata/cleanup.go:28-42 | the first pass removes only entries unused for longer than the limit, and all of them unless a removal fails |
| CacheCleanup.RemoveOldest | internal/hnieoj/testdata/cleanup.go:47-68 | the second pass removes oldest entries first, until the rest fits and no more than needed |
| CacheCleanup.TotalIsSum | internal/hnieoj/testdata/cleanup.go:47-50 | totals are sums of sizes |
| CacheCleanup.Cleanup | internal/hnieoj/testdata/cleanup.go:18-69 | removed and freed count what is gone; exactly entries unused for longer than the limit go first; the rest fits; victims are no more recent than survivors; sparing the last would exceed the limit; an error means a surviving entry could not be removed |
| Score.MaximaShareFullScore | internal/hnieoj/processor/processor.go:289-298 | the per-case maxima sum to the full score and differ by at most one |
| Score.CaseMaxMeaning | internal/hnieoj/processor/processor.go:289-298 | a maximum is the full score over the number of cases, rounded down or up, larger ones first |
| Score.CaseScoreBounds | internal/hnieoj/processor/processor.go:226-235 | a case score lies between 0 and the case maximum |
| Score.CaseScoreMeaning | internal/hnieoj/processor/processor.go:226-235 | a checker's score counts as far as it fits the case; without one a case earns its maximum exactly when accepted |
| Score.EarnedWithin | internal/hnieoj/processor/processor.go:165-187 | the accumulated score is at most the sum of maxima, with equality if and only if every case got its maximum |
| Score.AcceptedEverywhereEarnsFullScore | internal/hnieoj/processor/processor.go:165-204 | accepted on every case without checker scores earns exactly the full score |
| Score.Judge | internal/hnieoj/processor/processor.go:165-204 | score in [0, IOScore], full exactly when every case is; final status is the first failure, except that a full OI score is accepted and an all-accepted ACM task gets the full score |

## Left out

- WebSocket, HTTP and JSON transport, TLS, URL checks, enrollment requests, heartbeat, logging, metrics, configuration and the web UI: no hard property.
- Ed25519, SHA-256 and base64: keys and file names are abstract.
- Sandbox back ends, cgroups, pty and CPU affinity: foreign calls.
- Request correlation inside a session, backoff jitter and timers: only their effects (a reply, an error, a later time) appear.
- Which key signs the rotation requests, and `SignWithCredential`: the server partner accepts requests by what they say.
- Creation and update timestamps of keys and the scheduling of automatic rotation (`nextDue`).
- Delivery counts of results (`MarkAttempt`) and the delivery order (`Peek`): they do not affect what is kept.
- Identity files not written by the store: only states the store itself produces are considered.
- 64-bit overflow of byte budgets, sizes and times: integers are unbounded.
- Short writes and failing writes to the pipe copy or the null device; the variants of both proxies without a name, which record nothing.
- Identity.Store.ApplyEnrollment: takes ids already trimmed of white space.
- Attempts.StepLedger: a worker may also skip a task whose lease has expired; which tasks expire is left open, and a server notice that the identity is inactive cancels all attempts each time, not only the first.
- Attempts.FinishInv: assumes, as the clock step does, that the release callback of a completion runs within doneTTL.
- AttemptRuns.AtMostOnce: memory of completions does not survive a restart, so it speaks about one process.
- AttemptRuns.NoResultLost: a successful file removal counts as durable even if the directory sync after it fails.
- ClientObject.NodeClient.HandleAssign: the handler alone; interleavings with other threads are in the step model of `attempts.dfy`.
- ExpiryHeap.Timeout.Add: the underlying store is a set of ids; errors of its own `Add` are left out.
- PipeProxy.Simple: partial output is possible only at the first failing write.
- Lease.RenewLoop: sleeping and the handler are represented by whether the task has ended at each point.
