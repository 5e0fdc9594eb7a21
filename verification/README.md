# Verification of the crash-safe and history-rewriting parts of clonoth

These Dafny modules model the parts of the system that must not lose, split or repeat anything under crashes,
interleavings and rewriting, and prove what those parts promise. Verify with `dafny verify dfyconfig.toml`.

| file | models |
|---|---|
| `Rotation.dfy` | manifest-driven rotation of an append-only log and its recovery (`engine/eventlog_rotation.py`) |
| `Outbox.dfy` | the durable outbox: rows under leases, cursors, tombstones (`clonoth_sdk/outbound_store.py`) |
| `DeliverySystem.dfy` | several processes over one outbox and one replayable server log |
| `Router.dfy` | receiving frames and delivering rows (`clonoth_sdk/event_router.py`), tied to `DeliverySystem` |
| `Lanes.dfy` | per-conversation delivery lanes (`clonoth_sdk/delivery_lanes.py`) |
| `Messages.dfy` | message records as the three rewriting algorithms read them |
| `Compaction.dfy` | compaction plans (`engine/compaction_plan.py`) |
| `Snip.dfy` | replacing finished rounds by markers (`engine/task_record.py`) |
| `Digest.dfy` | progress digests inside one task (`engine/task_digest.py`) |
| `Conversation.dfy` | conversation files, tallies and caches (`engine/conversation_store.py`) |
| `Archive.dfy` | paged reading of archives (`engine/context_archive.py`) |
| `Rekey.dfy` | moving table rows to new conversation keys (`engine/conversation_migration.py`) |
| `Watermark.dfy` | out-of-order watermark confirmation (`clonoth_sdk/state.py`) |
| `Common.dfy` | an option type and map lookup |

Every rename, unlink, manifest access, SQL transaction and uninterrupted stretch of the event loop is one
atomic step. What the outside world decides (a crash, a failing system call, where a write is torn, the clock,
the answer of a platform, which process acts next) is a parameter or a step of its own, so a contract or a
lemma over runs holds for every choice. Objects whose methods update their fields are classes; their methods are
proved against functions on plain values, and the lemmas over whole runs are about those functions.

## Results that differ from what one might expect

- Rolling back a publishing manifest is not re-entrant. One undisturbed recovery restores exactly the old or the
  shifted chain (`CrashThenRecover`), but a recovery killed after it restored two neighbouring files makes the
  next one raise (`SecondPassRaises`). `RollbackManifest` states exactly when it succeeds; contents are conserved.
- When the committing manifest was written but its write raised, and reading it back fails too, the program rolls
  back under a durable committing manifest. An undisturbed recovery then spends that manifest whatever it finds,
  and succeeds exactly if nothing but the backup to be discarded is still staged (`Recover`); otherwise access is
  barred from then on (`HalfUndoneCommitIsBarred`). Nothing but the oldest backup can be missing.
- `clonoth_sdk/README.md` says that deduplication records are kept until receipt is checkpointed. The receive
  cursor is the maximum over all connections of a store, so with two connected receivers a tombstone can go while
  a slower connection is still owed its event, and that connection stores the event anew.
  `PrunedComesBackIffLaggard` gives the exact condition, `LaggardIsReachable` the run; in every run that prunes
  nothing still owed it cannot happen (`AcknowledgedStaysAcknowledged`).
- Comments in the outbox allow two events of different type to share a sequence number in recovery. Every other
  received event is safe (`NothingReceivedIsLost`), but of any two such events the second one can be lost when the
  receiver stops between them (`SharedNumberIsLost`) or cannot make the second one durable (`AskedForAgainIff`,
  `SharedNumberNotAskedForAgain`). The server of this repository never issues such a pair.
- As long as no receive cursor is recorded a connection starts from the newest event, so of two such connections
  the later one can move the cursor past events that only the earlier one was going to supply (`SecondStartLoses`).
- `append_lines` promises that a torn write loses only its own line. The readable lines are kept, but lines hold
  unescaped UTF-8 (engine/conversation_store.py:315) and `load` decodes strictly (engine/conversation_store.py:364),
  so a write that stops inside a character makes the whole history unreadable from then on (`HistoryDecodes` is
  the exact condition, `TornCharacterIsForever` the input).
- A lane worker cancelled before its body was entered leaves its queue and keys behind until the next submission
  to the lane (`StalledLaneWaitsForSubmit`).
- A view mark put on a record whose metadata is an empty object changes its fingerprint, because the emptied
  metadata is dropped; in every other case it does not (`MarkIsInvisible`).
- A snip marker copies the metadata of the message it stands for, so a legacy result id kept there still counts as
  a tool result whose call is gone. `PairingAfterSnip` says exactly when a rewritten history stays paired,
  `ResultStaysBehind` gives an input where it does not.
- A tool round in which some call has no id counts as complete by number alone, so it can be covered by a digest
  although the result of one of its calls is missing (`RoundAnswered` in `Digest.dfy` is the exact condition,
  `MixedRoundIsComplete` an input).
- A tally recognizes a recreated file with a reused inode by its last 256 bytes, so it notices a short file's
  replacement but not every long one's (`EdgeRecognizes`).
- `replace_all` protects only instances that have loaded the history; one that has not overwrites blindly
  (`BlindReplaceDiscards`), and so does one that could not because the history does not decode
  (`LateReplaceIsRefused`).
- `read` accepts offsets up to 1,000,000. An archive can be read to its end exactly if no page begins behind that
  (`ReadAll`); with short records the last multiple of the limit decides (`ShortArchiveIsReadable`).
- When a migration turns two bot accounts into one, rows that then share a unique key are decided by the order in
  which the database lists the accounts: the later one stays (`LaterAccountWins`).
- The order of acceptance and registration of a message does not matter unless the acceptance is evicted first or
  the trigger is cleaned up in between (`WatermarkIsMaximum`, `EvictedAcceptanceIsMissed`, `DroppedIsMissed`);
  `WatermarkInEveryRun` says what the mark is in every run.

## Model

| member | source | states |
|---|---|---|
| Rotation.ShiftedReadsOn | engine/eventlog_rotation.py:389-430 | The shifted chain read oldest first is the old one without its oldest backup: each other file has its content under the next index, files beyond the backups stay, and there is no live file |
| Rotation.Directory.RenameNoReplace | engine/eventlog_rotation.py:250-254 | A rename succeeds only onto a name that does not exist; whatever happens, the bag of all contents stays the same |
| Rotation.Directory.WriteManifest | engine/eventlog_rotation.py:261-274 | A manifest is replaced as a whole or not at all, and the call may raise after it was replaced |
| Rotation.Directory.Unpublish | engine/eventlog_rotation.py:290-299 | Taking published files back ends with none published, and loses a file exactly if two neighbours had already been restored |
| Rotation.Directory.Restore | engine/eventlog_rotation.py:301-308 | Every staged file goes back to its original name; undisturbed, this fails exactly if a file was lost, and contents are conserved either way |
| Rotation.Directory.RollbackManifest | engine/eventlog_rotation.py:285-318 | Success restores exactly the old chain and removes the manifest; undisturbed it succeeds if and only if nothing was lost and, outside staging, no two neighbours were restored before; otherwise the manifest stays |
| Rotation.Directory.FinishCommittedManifest | engine/eventlog_rotation.py:321-337 | Under a committing manifest only the oldest backup's staging file is destroyed; restartable after any crash, and it never raises by itself |
| Rotation.Directory.RecoverManifest | engine/eventlog_rotation.py:340-361 | One manifest: finished if committing, else rolled back; kept unless that succeeded |
| Rotation.Directory.Recover | engine/eventlog_rotation.py:340-375 | A normal return leaves no manifest, no staging file and exactly the old chain or (only from a committing manifest) exactly the shifted one; otherwise it fails closed. Undisturbed it succeeds from every state of a forward rotation, from publishing exactly if no restored neighbours are there, and from committing exactly if nothing but the backup to be discarded is staged |
| Rotation.Directory.CollectEntries | engine/eventlog_rotation.py:389-407 | The manifest lists exactly the existing files of the chain, ascending, whatever gaps there are |
| Rotation.Directory.StageAll | engine/eventlog_rotation.py:421-423 | Staging moves every listed file without overwriting any, stoppable at any rename |
| Rotation.Directory.PublishAll | engine/eventlog_rotation.py:427-430 | Publishing moves every staged file but the oldest up by one, into names that are free |
| Rotation.Directory.TryRotate | engine/eventlog_rotation.py:420-444 | The forward rotation ends with exactly the shifted chain, or in a state the next recovery handles; nothing but the oldest backup is destroyed, and only under a durable committing manifest |
| Rotation.Directory.RotateLocked | engine/eventlog_rotation.py:378-467 | A rotation returns true with exactly the shifted chain, or leaves the old chain or an open transaction of it; what is gone is at most the oldest backup |
| Rotation.Directory.CrashThenRecover | engine/eventlog_rotation.py:340-467 | For every chain with gaps and every crash point of a rotation, one undisturbed recovery ends with no manifest or staging file and exactly the shifted chain if the rotation returned or the manifest on disk at the crash said committing, exactly the old one if not |
| Rotation.Directory.RotateEventLog | engine/eventlog_rotation.py:470-480 | Each lock acquisition recovers first, which leaves the chain as it was or completes the rotation left open; that chain is then rotated exactly if its live file has reached the threshold, with exactly the given number of backups, and every content is accounted for: kept, dropped by a finished rotation, or pending in the open one |
| Rotation.Directory.RotateSettled | engine/eventlog_rotation.py:378-480 | On a settled directory a normal return leaves the chain shifted with the given number of backups if the live file has reached the threshold, and untouched if not |
| Rotation.Directory.RunSessions | engine/eventlog_rotation.py:340-480 | Any number of acquisitions, each crashing or failing anywhere, recovery included: the chain only moves by whole rotations, each of them that of one acquisition of its own, in order, which found the threshold reached, with its number of backups; everything ever destroyed is the oldest backup of a committed rotation |
| Rotation.SecondPassRaises | engine/eventlog_rotation.py:290-308 | The re-entrance gap of a publishing rollback: with two restored neighbours the next recovery raises, keeps its manifest and destroys no content |
| Rotation.SecondPassLoses | engine/eventlog_rotation.py:290-299 | Why: the second pass takes a restored file for the published copy of its lower neighbour |
| Rotation.HalfUndoneCommitIsBarred | engine/eventlog_rotation.py:321-375 | The failing input under a committing manifest: half undone, the next recovery spends the manifest and raises because of the live file that stays staged; no content is gone |
| Rotation.RecoveredIsExact | engine/eventlog_rotation.py:321-375 | When a committing manifest is spent and no staging file is left, the chain is exactly the old or exactly the shifted one, and the oldest backup is gone exactly in the second case |
| Rotation.BagRename | engine/eventlog_rotation.py:250-254 | A rename that does not overwrite conserves the bag of contents |
| Outbox.OutboundStore.Find | clonoth_sdk/outbound_store.py:293-307 | An event is known by its id if a row has it, else by type and sequence number; None means no row matches |
| Outbox.OutboundStore.Enqueue | clonoth_sdk/outbound_store.py:309-345 | A known event is never stored twice, only missing delivery details are added, known ones are kept and empty ones ignored; a new row is due at once; a sent row answers a replay with nothing to deliver; the only refusal is a foreign row under the same key |
| Outbox.OutboundStore.Claim | clonoth_sdk/outbound_store.py:347-364 | A row changes hands exactly if it is pending and due or its lease has run out, for a lease of at least a second; nothing else of it changes |
| Outbox.OutboundStore.Heartbeat | clonoth_sdk/outbound_store.py:366-379 | Only the owner of a delivering row prolongs its lease, to at least a second from now; anybody else is told that ownership was lost and changes nothing |
| Outbox.OutboundStore.ReleaseClaim | clonoth_sdk/outbound_store.py:381-388 | Only the owner gives a row back |
| Outbox.OutboundStore.Acknowledge | clonoth_sdk/outbound_store.py:390-404 | Only the owner turns a row into a tombstone, and the processed cursor moves with it in the same transaction |
| Outbox.OutboundStore.Defer | clonoth_sdk/outbound_store.py:406-421 | Only the owner defers, the attempt count stays, and the row is not due again at once |
| Outbox.OutboundStore.ResumeDeferred | clonoth_sdk/outbound_store.py:423-430 | Exactly the quietly deferred rows of the conversation become due, and the count is theirs |
| Outbox.OutboundStore.MarkFailed | clonoth_sdk/outbound_store.py:432-451 | Only the owner records a failure; the retry lies the capped exponential backoff ahead |
| Outbox.OutboundStore.MarkDeadLetter | clonoth_sdk/outbound_store.py:453-465 | Only the owner buries a row |
| Outbox.OutboundStore.ForceReplay | clonoth_sdk/outbound_store.py:467-506 | Any row but one in active delivery becomes due again under a new replay generation; without a record type the id or the number is enough, and an ambiguous or empty identity is refused and changes nothing |
| Outbox.OutboundStore.FindReplay | clonoth_sdk/outbound_store.py:475-494 | The row a replay is about: by type, or the only one that has the event id or the number; otherwise which refusal is due |
| Outbox.OutboundStore.PruneExcess | clonoth_sdk/outbound_store.py:522-536 | While too many sent rows remain, the oldest prunable ones go and no more than needed |
| Outbox.OldestArePrunable | clonoth_sdk/outbound_store.py:508-537 | What goes as excess is sent and at or below both cursors, and no such row that stays was sent before it |
| Outbox.OutboundStore.PruneSent | clonoth_sdk/outbound_store.py:508-537 | Only sent rows at or below both cursors ever go: those past their time to live, then the oldest while too many remain |
| Outbox.OutboundStore.NextRetryAt | clonoth_sdk/outbound_store.py:550-555 | The first moment at which a scan finds anything, None if none ever will |
| Outbox.OutboundStore.AdvanceReceivedSeq | clonoth_sdk/outbound_store.py:143-150 | The receive cursor only moves up |
| Outbox.ClaimHidesFromScanners | clonoth_sdk/outbound_store.py:347-364 | Claiming a row a scanner offers hides it, and nothing else, from every scanner until the lease ends |
| Outbox.BackoffDoubles | clonoth_sdk/outbound_store.py:432-440 | Retry delays start at the initial one and double until they reach the greatest or have doubled thirty times |
| Outbox.RemoveOldest | clonoth_sdk/outbound_store.py:525-536 | Removing the oldest prunable row keeps the removed rows older than all prunable ones that stay |
| Router.EventRouter.Receive | clonoth_sdk/event_router.py:430-437 | A reply is accepted exactly when it is durable or not ours; an accepted one of ours has a row, which is offered for delivery exactly if it is not sent yet and due |
| Router.EventRouter.HandleFrame | clonoth_sdk/event_router.py:340-367 | One frame changes store and cursor as the fold says, or changes nothing when an event could not be made durable |
| Router.EventRouter.RunWs | clonoth_sdk/event_router.py:340-367 | Frames are consumed in order up to the first event that cannot be made durable; store, cursor and the rows offered for delivery are exactly those of the frames before it |
| Router.OfferedAre | clonoth_sdk/event_router.py:340-367 | The rows put into the lanes are exactly those of consumed owned events that were unsent and due right after being stored |
| Router.HighestIsHighest | clonoth_sdk/event_router.py:354-367 | The consumed position is the greatest sequence number among the old one and all frames consumed |
| Router.EventRouter.BeginDelivery | clonoth_sdk/event_router.py:579-610 | One process never takes a row twice at once: a row is claimed exactly if it is not in flight here and due |
| Router.EventRouter.EndDelivery | clonoth_sdk/event_router.py:612-750 | The platform's answer is written only while the claim is still ours, and the row leaves flight in every case: sent becomes a tombstone with the processed cursor moved, deferred keeps the attempt count and waits, a permanent failure is buried, a retryable one waits with one attempt more, a cancelled one goes back as it was; no other row changes but prunable tombstones |
| Router.EventRouter.WriteAnswer | clonoth_sdk/event_router.py:612-750 | An answer is one transaction of the outbox, and takes effect exactly if the claim is still ours |
| Router.DeliveryIsARun | clonoth_sdk/event_router.py:579-750 | A delivery is a run of the many-process system: the claim, anything the others do while the platform is asked, and the answer; a sent answer under ownership settles the row |
| Router.SentIsNeverDueAgain | clonoth_sdk/event_router.py:669-692 | After a sent answer was written under ownership the row is due at no later time, in any run with careful pruning and without a forced replay |
| Router.EventRouter.MaybePrune | clonoth_sdk/event_router.py:752-773 | Pruning waits for its interval unless forced, and then removes only prunable tombstones: all expired ones, and the oldest while too many remain |
| Router.RefusedEventIsAskedForAgain | clonoth_sdk/event_router.py:354-367 | A persistence failure stops consumption with the cursor still below the refused event, so the next connection asks for it again; every event consumed before is at or below the cursor |
| Router.AskedForAgainIff | clonoth_sdk/event_router.py:340-367 | Without any promise of the server: a refused event is asked for again if and only if the cursor and everything consumed before lie strictly below its sequence number |
| Router.SharedNumberNotAskedForAgain | clonoth_sdk/event_router.py:340-367 | The failing input: of any two owned events under one number the second one, not made durable after the first, lies at the cursor and is not asked for again |
| Router.StoreIsEnqueue | clonoth_sdk/event_router.py:498-517 | On reachable tables looking an event up by id or sequence number is the same as by its stable key, and storing never fails |
| Router.ConsumptionIsARun | clonoth_sdk/event_router.py:340-367 | Whatever the router consumes from a server that keeps its promises is a run of the many-process system that ends in the router's store |
| Router.InterleavedIsARun | clonoth_sdk/event_router.py:340-367 | The same while other processes act between any two frames and between writing an event and moving the cursor: the writes go to the table the others left, and all of it is one run of the system |
| Router.ReceivingKeepsAcknowledged | clonoth_sdk/event_router.py:340-367 | While routers receive side by side, from any reachable state and with careful pruning: an acknowledged event is not claimable and no generation is sent twice |
| DeliverySystem.InvStep | clonoth_sdk/outbound_store.py:309-537 | Every step of every process (issue, connect, receive, advance, claim, heartbeat, finish, replay, prune, crash) keeps the system invariant: rows are owned events under their own key and delivering exactly while owned, everything received under an unshared number is stored or pruned, connections are served in order, only sent rows are pruned, and an owner holds the latest claim |
| DeliverySystem.NothingReceivedIsLost | clonoth_sdk/event_router.py:340-367 | In every run, from an outbox with or without a cursor: every owned event above the base and at or below the received cursor that has its number to itself is in the outbox, or was sent and then pruned |
| DeliverySystem.SharedNumberIsLost | clonoth_sdk/event_router.py:340-367 | Exactly there it fails: for any two events of different type under one number there is a run in which the receiver stops between them and the second one is lost |
| DeliverySystem.SecondStartLoses | supervisor/api.py:1110-1131 | Why the base is needed: an event issued between two connections made without a cursor is lost when the first one breaks |
| DeliverySystem.HarmlessRun | clonoth_sdk/event_router.py:340-367 | What is gone and owed to no connection stays so in every later run and is never claimable again |
| DeliverySystem.AcknowledgedStaysAcknowledged | clonoth_sdk/outbound_store.py:309-345 | With any number of receivers, in every run that prunes no event a live connection is still owed: an acknowledged event is not claimable again without a forced replay, and each (key, replay generation) is sent at most once |
| DeliverySystem.SettledUntilReplay | clonoth_sdk/outbound_store.py:467-506 | Only a forced replay ends the acknowledgement of an event |
| DeliverySystem.OneReceiverAtATime | clonoth_sdk/outbound_store.py:309-345 | With one receiver at a time and no shared numbers pruning is always careful, so the same holds of every such run |
| DeliverySystem.PrunedComesBackIffLaggard | clonoth_sdk/outbound_store.py:508-537 | With several receivers on one store, a pruned event can become claimable again if and only if the server still owes it to some live connection |
| DeliverySystem.LaggardIsReachable | clonoth_sdk/outbound_store.py:508-537 | For any owned event there is a run from the start in which it is acknowledged and prunable while a second connection is owed it, and a longer one in which it is claimable again without a forced replay |
| DeliverySystem.ClaimsDistinctInEveryRun | clonoth_sdk/outbound_store.py:347-364 | In every run no two deliveries under way come from the same claim |
| DeliverySystem.FinishNeedsLatestClaim | clonoth_sdk/outbound_store.py:390-465 | Whoever acknowledges, fails, defers, releases or buries a row with effect holds its latest claim; without ownership nothing changes |
| DeliverySystem.LeaseHolds | clonoth_sdk/outbound_store.py:347-379 | Until the lease runs out no step of anybody else takes the row or shortens the lease |
| DeliverySystem.HeartbeatsKeepTheRow | clonoth_sdk/outbound_store.py:366-379 | With heartbeats on time the row stays with its owner through every run |
| DeliverySystem.FoundByKey | clonoth_sdk/outbound_store.py:293-307 | On reachable tables `_find` recognizes an event exactly by its stable key, that is, by type and id, or among events without an id by type and number |
| Lanes.DeliveryLanes.Submit | clonoth_sdk/delivery_lanes.py:33-42 | Refused exactly while the key is queued or running anywhere; else at the end of its lane, with a new worker if the lane has none that is still to run |
| Lanes.DeliveryLanes.Begin | clonoth_sdk/delivery_lanes.py:44-49 | A starting worker takes hold of its lane's queue |
| Lanes.DeliveryLanes.JobEnds | clonoth_sdk/delivery_lanes.py:47-66 | The finished job leaves the queue and the key set; the next one starts, or queue and worker are taken down |
| Lanes.DeliveryLanes.CancelWorker | clonoth_sdk/delivery_lanes.py:52-66 | Cancelling a waiting worker drops its whole lane and frees all its keys; cancelling one that never ran only ends it |
| Lanes.DeliveryLanes.Close | clonoth_sdk/delivery_lanes.py:68-81 | Afterwards no worker is live, and only lanes whose worker had never started still hold keys |
| Lanes.SubmitIs | clonoth_sdk/delivery_lanes.py:33-42 | What a submission changes: nothing if its key is present; else the entry is last in its lane, its key is added, a worker of the lane is live, and no other lane is touched |
| Lanes.BeginIs | clonoth_sdk/delivery_lanes.py:44-49 | A starting worker holds the queue of its own lane, and nothing else changes |
| Lanes.EndIs | clonoth_sdk/delivery_lanes.py:47-66 | The end of a job takes exactly the head off the queue and its key out of the set; with more to do the worker stays, otherwise worker and lane are gone |
| Lanes.CancelIs | clonoth_sdk/delivery_lanes.py:52-66 | A worker cancelled on a job drops all that is queued behind it unstarted and takes its lane down; one that never began leaves all of it behind |
| Lanes.LanesInOrder | clonoth_sdk/delivery_lanes.py:33-66 | Under any interleaving a lane has at most one live worker, jobs leave it in the order of submission, and a running worker is on the first entry that has not left |
| Lanes.RefusedWhileQueued | clonoth_sdk/delivery_lanes.py:33-66 | Under any interleaving the key set is the duplicate-free union of the keys in all queues, so an accepted key is refused until it leaves |
| Lanes.StepKeeps | clonoth_sdk/delivery_lanes.py:33-66 | Every submission, start, end and cancellation keeps the lanes' invariant |
| Lanes.StalledLaneWaitsForSubmit | clonoth_sdk/delivery_lanes.py:33-42 | A lane whose worker was cancelled unstarted keeps its queue until an accepted submission to that lane brings a new worker, and nothing else changes it |
| Messages.CallIds | engine/compaction_plan.py:64-71 | The ids a message calls are never empty |
| Messages.CallIdsAre | engine/compaction_plan.py:64-70 | Exactly the non-empty ids of an assistant's calls, or of its metadata if there are no calls |
| Messages.SameView | engine/compaction_plan.py:15-28 | Two messages have the same fingerprint view if and only if they agree in every field but the view mark, an empty metadata object counting as a field |
| Messages.MarkIsInvisible | engine/compaction_plan.py:15-28 | Setting a view mark leaves the fingerprint as it was exactly if the metadata was absent or not empty |
| Messages.MarksDoNotMatter | engine/compaction_plan.py:15-28 | Task, call ids, result id and flags do not depend on view marks |
| Compaction.Segments | engine/compaction_plan.py:45-61 | Summaries and segments of the history in one pass |
| Compaction.SegmentsFlatten | engine/compaction_plan.py:45-61 | Segments hold exactly the visible messages in order, none is empty, and each is of one task |
| Compaction.SegmentCuts | engine/compaction_plan.py:56-61 | A segment starts exactly where the task changes or a user speaks outside all tasks |
| Compaction.WhatIsVisible | engine/compaction_plan.py:45-56 | By the fields of a message: what is a candidate, what an old summary, and what is never covered |
| Compaction.Boundaries | engine/compaction_plan.py:77-93 | The difference array's running sum is zero at a segment boundary if and only if every call made before it is answered before it |
| Compaction.JoinToolSegments | engine/compaction_plan.py:74-101 | The interval merge yields exactly the blocks that start where no call is open |
| Compaction.GroupedFlattens | engine/compaction_plan.py:94-101 | The blocks concatenate to the input in order |
| Compaction.BlocksStartSettled | engine/compaction_plan.py:74-101 | No block boundary separates a call from its result; an unanswered call is in the last block |
| Compaction.FinestBlocks | engine/compaction_plan.py:74-101 | The blocks are the finest such division: they cut between two segments exactly where no call is open |
| Compaction.SegmentsWithinTokenBudget | engine/compact.py:526-551 | As many last blocks as the token budget allows, at least one |
| Compaction.TailWeighs | engine/compact.py:541-551 | The last blocks weigh what all their messages weigh together |
| Compaction.RenderedTogether | engine/compaction_plan.py:104-106 | The text of two stretches is the two texts joined by a newline, and one message renders as its JSON |
| Compaction.ReorderedLength | engine/compaction_plan.py:141-161 | Putting the selection back into history order does not change the length of its text |
| Compaction.TakeFitting | engine/compaction_plan.py:124-139 | The greedy loop takes the longest front stretch that fits the budget |
| Compaction.Choose | engine/compaction_plan.py:120-139 | Whole old blocks while they fit; if not even the first does, the sub-blocks of it that fit; whatever is taken fits the budget together with the old summaries |
| Compaction.BuildCompactionPlan | engine/compaction_plan.py:109-161 | The plan names exactly the old summaries and the greedy front stretch of the blocks before the kept ones; its text is their rendering in history order and never exceeds the budget |
| Compaction.PlanListsSelection | engine/compaction_plan.py:143-159 | A plan lists the selected positions once each, ascending and with their fingerprints; its full tasks are exactly the tasks a selected message belongs to or, as a summary, names, of which no message is left outside |
| Compaction.TakenInFront | engine/compaction_plan.py:116-142 | The last kept blocks stay; of the others a number is taken whole from the front, or sub-blocks from the front of the oldest, and taken and left items together are all items in order |
| Compaction.TakenIsSettledPrefix | engine/compaction_plan.py:119-139 | What is chosen, the partial fallback included, is a front stretch of the visible messages in which every call is answered |
| Compaction.PairsStayTogether | engine/compaction_plan.py:119-139 | Such a stretch holds a call exactly if it holds its result, and never an unanswered call |
| Compaction.CoveredStaysPaired | engine/compaction_plan.py:119-202 | Calls and results stay together also on the later, longer and re-marked history the plan is applied to |
| Compaction.AppliesIs | engine/compaction_plan.py:164-202 | A plan is refused exactly if its version is not 1, it names nothing, its lists differ in length or in a fingerprint, a position is out of range or not above the one before, or a message there has changed |
| Compaction.CoveredIndices | engine/compaction_plan.py:164-188 | The covered positions are returned exactly if the plan is well formed, its indices ascend in range, and every fingerprint still matches |
| Compaction.ReplaceCovered | engine/compaction_plan.py:191-202 | The result is the history with exactly the covered positions removed, in order, and the summary in place of the first one; None exactly if the plan does not apply |
| Compaction.PlanSurvivesGrowth | engine/compaction_plan.py:142-188 | A plan still names exactly the same positions after messages were appended and view marks changed, every other field being the same |
| Compaction.OnlyUnchangedAreReplaced | engine/compaction_plan.py:164-188 | On any history whatever, a plan that applies names only messages equal in every field but the view mark to those it was made from |
| Snip.SafeSnipTaskIds | engine/task_record.py:191-223 | The loop ends with the greatest set of requested tasks in which no call id is torn apart |
| Snip.IndexCalls | engine/task_record.py:192-212 | The scan collects for every id exactly the tasks that call it and those that hold a result, and the tasks that cannot be paired |
| Snip.AllOrNothing | engine/task_record.py:213-223 | For every call id all messages that call or answer it are in snipped tasks or none, and snipped ids have both a call and a result |
| Snip.SafestIsStable | engine/task_record.py:213-223 | Asking again with the set found gives the same set |
| Snip.RecentTaskIds | engine/task_record.py:164-177 | The kept tasks are the given number of real tasks whose last message is latest |
| Snip.RealTasksAre | engine/task_record.py:164-177 | The tasks counted are those with a message, except the nameless one and that of the summaries |
| Snip.CollectAlreadySnipped | engine/task_record.py:260-278 | A task counts as snipped exactly if a message of it begins with the marker or some metadata lists it as compressed |
| Snip.MarkingMarks | engine/task_record.py:315-323 | Each marker is a user message with the task, the summary and the other metadata of the message it stands for; the stored form names task and kind in fields, the running one in the metadata |
| Snip.SnipHistory | engine/task_record.py:226-303 | At most the given number of the oldest tasks that are neither recent nor marked already are snipped, as far as that is safe; a negative number spares that many of the newest |
| Snip.OldestAreFirst | engine/task_record.py:279-303 | The chosen tasks are exactly as many as the slice allows, and each is named in the records before every eligible one left out |
| Snip.SnipHistoryTasks | engine/task_record.py:306-330 | Each safe task becomes one marker with its summary at its first message, everything else stays in order |
| Snip.SnipStore | engine/task_record.py:333-368 | The same rewrite on the stored history |
| Snip.SnippedIs | engine/task_record.py:306-368 | Message by message: what is not snipped stays itself, the first one of each snipped task becomes its marker, the rest is gone, in order |
| Snip.SummariesAre | engine/task_record.py:156-161 | A task has a summary exactly if some record of it is not blank, and then the last such one |
| Snip.PersistedRewriteAgrees | engine/task_record.py:306-368 | Snipping the stored history with the tasks the running rewrite reported gives sequences equal in role, content and task position by position |
| Snip.SnippedIsMarked | engine/task_record.py:306-368 | After a rewrite every snipped task is marked, and so is every task that was marked before |
| Snip.NeverSnippedAgain | engine/task_record.py:255-303 | However many messages arrive and other tasks are snipped, a task replaced by a marker is never chosen again |
| Snip.PairingAfterSnip | engine/task_record.py:306-368 | The rewritten history, running or stored, keeps all references to a call id or none, if and only if no marker stands for a message that carries the id in its metadata |
| Snip.ResultStaysBehind | engine/task_record.py:321-327 | The failing input: a result kept in the metadata of its task's first message stays without its call |
| Digest.Round | engine/task_digest.py:247-272 | A round reaches to the first message that is neither one of its results nor an attachment of the task, and is complete by the ids it answers |
| Digest.TaskLayout | engine/task_digest.py:228-273 | The nested loops yield the instruction and the units |
| Digest.LayoutUnits | engine/task_digest.py:228-273 | Every unit of a layout, over the messages: one message without calls, or a round that reaches to the first message that does not go with its calls; complete exactly if every call id is answered in it, or, if some call has no id, there are as many results as calls |
| Digest.LayoutPartitions | engine/task_digest.py:228-273 | Units are disjoint stretches in order, and with the instruction they hold every message of the task |
| Digest.LayoutKept | engine/task_digest.py:228-273 | Appending messages changes at most the last unit: every other unit and the instruction depend only on the prefix |
| Digest.VerifiedCoverage | engine/task_digest.py:294-308 | A number of units is returned exactly if that many complete units have exactly the recorded fingerprints |
| Digest.OnlyUnchangedIsCovered | engine/task_digest.py:276-308 | A digest that verifies was composed from messages with the same roles, contents, calls, call ids and names, position by position |
| Digest.CoverageIsUnique | engine/task_digest.py:294-308 | A digest covers at most one number of units |
| Digest.DigestVerifies | engine/task_digest.py:570-604 | A digest composed from a plan verifies on the same history and on every longer one with coverage exactly the plan's target |
| Digest.CoverableUnits | engine/task_digest.py:360-371 | The units that may be covered stop before the kept tail and before the first incomplete unit, and the kept tail is as long as its budget allows |
| Digest.PlanTaskDigest | engine/task_digest.py:374-412 | A plan is made exactly if enough is uncovered and more complete units than before can be covered, never the last one; no round it covers leaves a call without its result |
| Digest.MixedRoundIsComplete | engine/task_digest.py:267-270 | A round of one call with an id and one without is complete as soon as there are two results, even if none answers the id |
| Digest.UncoveredWeighs | engine/task_digest.py:351-357 | What is uncovered weighs what the messages at its positions weigh together |
| Digest.ApplyTaskDigest | engine/task_digest.py:328-348 | One user message with the digest's text takes the place of the first covered message; covered units, all of them answered, and strays between them go, the rest stays in order; None exactly if nothing verifies |
| Digest.OnlyCoveredUnitsGo | engine/task_digest.py:328-348 | Of the task's messages exactly those of the covered units go; the instruction, later units and everything before stay, and of the others exactly the strays between the first and the last covered message go |
| Conversation.AppendKeepsBoundaries | engine/eventlog_rotation.py:44-59 | However an append is torn it starts at a line boundary and keeps every earlier one |
| Conversation.ReadableSplit | engine/conversation_store.py:187-196 | Reading a file in two parts at a line boundary reads the same messages |
| Conversation.DecodableSplit | engine/conversation_store.py:187-196 | Strict UTF-8 decoding after a decodable stretch fails exactly if decoding the rest fails |
| Conversation.DecodableCut | engine/conversation_store.py:187-196 | A front stretch of decodable bytes decodes exactly if it does not end inside a character |
| Conversation.EdgeRecognizes | engine/conversation_store.py:203-257 | When another file gets the tallied inode: of at most 256 tallied bytes the edge recognizes the whole content, and the tally then still holds exactly if no line crosses its end; of more it compares the last 256 bytes only and any new front passes |
| Conversation.ResumedTallyIsExact | engine/conversation_store.py:243-263 | From any file through any sequence of torn appends, counting on from the old size equals the full recount and fails in the same cases |
| Conversation.RecountIs | engine/conversation_store.py:187-196 | A recount is the number of readable messages and the id of the last one |
| Conversation.ConversationFile.TallyUp | engine/conversation_store.py:243-263 | The incremental tally always equals a full recount: missing, undecodable, or the count and last id |
| Conversation.ConversationFile.AppendLines | engine/eventlog_rotation.py:44-59 | Appends, torn anywhere, keep tally and caches truthful and change the stamp |
| Conversation.DecodableIsEncoded | engine/conversation_store.py:187-189 | Strict decoding succeeds exactly on the UTF-8 encodings of sequences of scalar values |
| Conversation.LinesEndAtBreaks | engine/conversation_store.py:187-196 | Bytes without LF and CR are one line, and each LF and each CR ends one |
| Conversation.EncodedIsReadable | engine/conversation_store.py:402-432 | What is written out whole is read back whole |
| Conversation.KeptAreLasting | engine/conversation_store.py:411-411 | What is written are exactly the messages that are not ephemeral, in order |
| Conversation.AppendAddsOne | engine/conversation_store.py:306-328 | A complete append adds just its message, whatever torn line the file ended with, and the history decodes afterwards exactly if it did before |
| Conversation.TornDecodes | engine/eventlog_rotation.py:44-59 | A torn append leaves the history decodable if and only if it was and the write did not stop inside a character |
| Conversation.HistoryDecodes | engine/conversation_store.py:306-376 | After any sequence of torn appends the history decodes if and only if it did at the start and none of them stopped inside a character |
| Conversation.TornCharacterIsForever | engine/conversation_store.py:315-376 | The failing input: a line torn after two bytes makes the history undecodable, whatever is appended afterwards |
| Conversation.ConversationFile.Append | engine/conversation_store.py:306-328 | The message is added to the readable ones of any file and, in place, to a cache whose stamp matched; a torn append leaves no cache, and decoding works afterwards exactly if it did before and the write did not stop inside a character |
| Conversation.ConversationFile.Load | engine/conversation_store.py:347-376 | A load returns what the file holds, from the cache exactly when the stamp matches |
| Conversation.ConversationFile.ReplaceAll | engine/conversation_store.py:402-432 | Refused exactly if the instance's stamp is stale; an instance that had loaded the history replaces only what it has seen; afterwards exactly the messages that are not ephemeral can be read, in order |
| Conversation.LateReplaceIsRefused | engine/conversation_store.py:402-409 | A late replacement is refused exactly if the instance has ever loaded the history, which it cannot if that does not decode; then the other instance's message stays, else it is overwritten |
| Conversation.BlindReplaceDiscards | engine/conversation_store.py:402-409 | An instance that never loaded overwrites what others wrote |
| Conversation.ConversationFile.Install | engine/conversation_store.py:562-569 | A copy replaces a missing or empty file and goes behind unreadable remains, and is then what is read |
| Conversation.ConversationFile.CopyHistory | engine/conversation_store.py:509-560 | The target ends with exactly the source's messages, or keeps its own if it had any, and the reported count and last id are those of that prefix |
| Archive.EscapedAtMostDoubles | engine/context_archive.py:379-392 | Escaping stored JSON again at most doubles it, section 7 of RFC 8259 |
| Archive.EscapedReadsBack | engine/context_archive.py:379-392 | Escaped text reads back as the text, section 7 of RFC 8259 |
| Archive.DigitsReadBack | engine/context_archive.py:379-392 | Decimal numbers read back as the numbers |
| Archive.WholeTextHolds | engine/context_archive.py:379-381 | The text of a whole item holds the record's JSON and its offset, and is that much longer |
| Archive.ChunkTextHolds | engine/context_archive.py:383-392 | The text of a chunk holds the escaped piece, and is that much longer |
| Archive.FirstItemFits | engine/context_archive.py:375-394 | Whatever the record, the first item of a page fits the budget |
| Archive.Read | engine/context_archive.py:348-401 | A page reads on without a gap from the requested position to the next one it names, goes on as long as items fit the budget and the limit, is empty only behind the end, and fails exactly for the listed arguments |
| Archive.AssembledIsText | engine/context_archive.py:375-401 | Items read on from the beginning assemble to exactly the text up to where they end |
| Archive.ReadAll | engine/context_archive.py:348-401 | Following the offsets from (0,0) ends and returns every record once, in order, whole or as chunks that concatenate to it, if and only if no page begins behind offset 1,000,000; always up to 1,000,001 records and never beyond 1,000,000 and the limit |
| Archive.ShortArchiveIsReadable | engine/context_archive.py:355-401 | In between, for records of at most 300 characters: exactly if the last multiple of the limit within the archive is at most 1,000,000 |
| Rekey.MakeRekeying | engine/conversation_migration.py:58-67 | A mapping is accepted exactly if no new key is an old one and no two keys become one, identities and empty keys aside, and is then taken over exactly |
| Rekey.ConversationTable.RekeyGroup | engine/conversation_migration.py:188-213 | Rows in the way are deleted, the group is moved, and both counts are exact |
| Rekey.GroupSubstitutes | engine/conversation_migration.py:188-213 | Moving one more group gives the simultaneous substitution of that group too |
| Rekey.ConversationTable.RekeyTable | engine/conversation_migration.py:139-166 | The table is the simultaneous substitution of all pairs and accounts; the row count drops by exactly the reported `replaced`, and `moved` counts the rows under old keys |
| Rekey.NoOldKeyLeft | engine/conversation_migration.py:139-166 | No row is left under an old key, and every survivor is its original with the new key, the mapped account, the same columns and the rewritten document |
| Rekey.OthersStay | engine/conversation_migration.py:139-166 | A row not under an old key is gone exactly if a row was moved onto its key, account and columns, and unchanged otherwise; scopes outside the mapping are untouched |
| Rekey.KeyStaysUnique | engine/conversation_migration.py:188-213 | The unique key on scope, account and extra columns still holds, also when two accounts become one |
| Rekey.PairOrderIsIrrelevant | engine/conversation_migration.py:154-166 | The result does not depend on the order of the pairs |
| Rekey.MovedRowsSurvive | engine/conversation_migration.py:154-166 | While no two accounts of one key become one, no moved row is lost in any order |
| Rekey.LaterAccountWins | engine/conversation_migration.py:154-166 | Where two accounts become one, of two rows under the same key the one moved later stays |
| Watermark.SessionState.PruneAccepted | clonoth_sdk/state.py:485-491 | The oldest acceptances go one by one while too many are left or the oldest is too old, and no others |
| Watermark.SessionState.RegisterWatermark | clonoth_sdk/state.py:461-480 | A registration of an old generation is dropped, one of an accepted message advances at once, any other waits |
| Watermark.SessionState.AcceptWatermark | clonoth_sdk/state.py:505-524 | An acceptance advances the waiting mark of its message, if any, and is remembered |
| Watermark.SessionState.AdvanceWatermark | clonoth_sdk/state.py:493-503 | A direct advance never lowers the mark |
| Watermark.SessionState.ResetChannelWatermark | clonoth_sdk/state.py:526-538 | A reset forgets the channel's mark and waiting registrations and starts a new generation |
| Watermark.AlwaysApart | clonoth_sdk/state.py:461-538 | In every run, evictions included, no message is both pending and accepted, and a mark falls only at a reset |
| Watermark.NoneEvicted | clonoth_sdk/state.py:485-491 | With at most the limit of acceptances, all times within the time to live, nothing is evicted |
| Watermark.WatermarkInEveryRun | clonoth_sdk/state.py:461-538 | In every run, with any evictions and repeated registrations, the mark is the greatest of the direct advances and of the marks registered since the last reset whose message was accepted before and still remembered, or later and before another registration replaced the waiting one or its trigger was cleaned up |
| Watermark.WatermarkIsMaximum | clonoth_sdk/state.py:461-538 | While no acceptance is evicted before its registration arrives, other evictions allowed, no trigger is cleaned up between registration and acceptance, and every message is registered once, the mark is the greatest of the direct advances and of the marks registered since the last reset whose message was accepted at any time, before or after |
| Watermark.MissedMarksDecide | clonoth_sdk/state.py:461-538 | In any other run the mark is that maximum if and only if no accepted registration that was missed has a greater mark |
| Watermark.SessionState.DropPending | clonoth_sdk/state.py:331-334 | Cleaning up a trigger drops the waiting registration of its message |
| Watermark.DroppedIsMissed | clonoth_sdk/state.py:331-334 | The failing input: a registration whose trigger was cleaned up is not advanced by the late acceptance |
| Watermark.NothingEvictedIsRemembered | clonoth_sdk/state.py:485-491 | A run without any eviction forgets no acceptance too early |
| Watermark.LateAcceptance | clonoth_sdk/state.py:505-524 | A wait of 700 seconds for the acceptance evicts nothing and the mark is raised |
| Watermark.EvictedAcceptanceIsMissed | clonoth_sdk/state.py:461-491 | The failing input: an acceptance evicted after 700 seconds is forgotten, and the late registration never counts |

## Left out

- The directory lock of the event log, its owner files, process probes and stale-lock stealing, and the session file locks: mutual exclusion is taken as given.
- Malformed manifests, several manifests at once (a rotation starts only when none is left, so at most one exists) and fsync.
- SQLite, JSON and YAML themselves: transactions are atomic, parsing and rendering are function parameters with the round trip they need, fingerprints are injective where that matters.
- `OutboundStore` schema upgrades, legacy import, the received-at order of scan results, stored event JSON and truncation of error texts.
- Outbox.OutboundStore.Claim: keeps status and owner in agreement only for a non-empty owner, which is what every process has.
- Event ids and conversation keys carry no surrounding whitespace here; the program strips it in some places.
- DeliverySystem.NothingReceivedIsLost: says nothing of an event that shares its number with another one, because the property fails there, see `SharedNumberIsLost`; what was issued before the first recorded cursor counts as handled.
- DeliverySystem.AcknowledgedStaysAcknowledged: assumes that no event still owed to a live connection is pruned, because the property fails otherwise, see `PrunedComesBackIffLaggard`.
- In the server: retained logs end somewhere, so a replay can begin behind the requested cursor (the gap frame is modelled as having no effect, the lost events are not), and sessions, filters and heartbeats.
- Ownership of an event is a property of the event: the program derives it from routing state that may differ between two receptions.
- In the event router: reminder receipts, adapter callbacks, approval reconciliation, logging, transient events beyond their sequence number, and the retry loop's sleeping.
- The event loop's cancellation of a worker is one step at the moment it takes effect; shielding inside adapters, `join`, and the waiting in `close` are not modelled.
- Compaction.CoveredIndices: plan fields of a wrong JSON type are not represented, so the checks for them are not modelled.
- Compaction.BuildCompactionPlan: `full_task_ids` is a set, the sorting of the list is not modelled; metadata is one object, not the two alternative keys `meta` and `_meta`.
- Contents made of several parts are strings here; the mark parsing, the summary text and all prompts are left out.
- Snip.SnipHistory: marker ids and timestamps of the stored form are left out.
- Digest: narrative, operation lists, persistence of digests and the decision when to ask a model; a digest's counts besides `covered_units` are left out.
- Conversation.ConversationFile.TallyUp: an inode number is never reused for another file, and a stamp never comes back, so there the edge comparison never decides; `EdgeRecognizes` says what it would notice.
- Conversation.ConversationFile.Load: a list handed out is a value here; callers that change the cached list in place are not modelled. Deletion, batches and forks of a conversation are left out.
- Archive.Read: the expiry, session and id checks around the page are left out, and a stored record is canonical JSON.
- Rekey.ConversationTable.RekeyTable: whitespace around accounts, null accounts, and the channel and platform rewriting of documents (a function parameter) are not modelled; neither is the moving of memory directories.
- Watermark.WatermarkIsMaximum: assumes that nothing is forgotten or cleaned up too early and that messages are registered once; `WatermarkInEveryRun` and `MissedMarksDecide` cover the other runs. Which triggers are stale is not modelled, only what cleaning one up does.
- Duration parsing, schedules, thresholds, budgets, handles and namespaces: small or one-branch behaviour.
