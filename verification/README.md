# The mail plugin, modelled and proved in Dafny

This project models the parts of a Rust e-mail plugin where state, crashes and
concurrency meet, and proves what they keep over whole runs.

- **Outbound delivery.** An append-only log of job rows (`QueueLog`), the bytes
  it is stored in and what torn writes do to them (`QueueFile`, `Utf8`,
  `CodecExists`), the queue object over two files (`OutboundQueueStore`), the two
  ways into it (`OutboundEnqueue`), the retry delays (`Backoff`), the worker as a
  state machine with concurrent enqueues, I/O errors and crashes (`Dispatcher`,
  `DispatcherRuns`, `DlqOrder`), the results about every such run
  (`OutboundTheorems`, `Verdicts`), the same machine over a file whose last line
  may be torn (`TornRuns`, `TornLedgers`, `TornTheorems`) and under ids that are
  used twice (`ReusedIds`), two queue objects over one file (`TwoHandles`), and
  the worker object that walks along that machine (`OutboundWorkerModel`).
- **Inbound cursor protocol.** The cursor table and the bootstrap arithmetic
  (`Cursor`), the session state machine against a mailbox that changes under it
  (`Inbound`, `InboundTheorems`), what its history skip takes with it
  (`InboundSkips`) and the worker object (`InboundWorkerModel`).
- **Threading.** Canonical ids, roots, truncation (`Threading`) and reply chains
  of any length (`ReplyChains`).
- **Scanners and printers.** The delivery-status scanner (`Dsn`), IMAP quoting,
  the SEARCH printer and the label-list printer, each read back by the grammar of
  section 9 of RFC 3501 (`ImapText`), UTF-8 truncation (`Utf8`).
- **Hot reload.** The account diff (`Reload`) and its application to two worker
  tables that share health records (`PluginModel`).
- **Attachments.** The content-addressed files, the row table and the two
  directories (`Attachments`), and arrivals racing the garbage collector step by
  step (`AttachmentRace`).

Code that updates an object is a class here, proved against functions on values;
the theorems are lemmas about those functions or about every reachable state of
a machine. An event of a machine is one step that nothing can interleave with:
one append under the queue's lock, one SQL statement, one unlink, one rename.

## Assumptions

- SMTP replies, IMAP answers, broker publishes, clocks and jitter are inputs. A
  search returns the present UIDs above its argument in ascending order, UIDs
  only grow and a new UIDVALIDITY is larger than the old one, as section 2.3.1.1
  of RFC 3501 has it; the client crate is not part of this model.
- The JSON codec is any pair of functions that keeps `QueueFile.Codec.Lawful`:
  rows are one-line UTF-8 objects that parse back, and neither a row cut short
  nor rows run together on one line parse. `CodecExists` exhibits one that prints
  characters beyond ASCII raw, so a cut can split one. Date formatting is any
  function to atoms. The attachment hash is any function; where bytes are
  compared it is collision free.
- The theorems about outbound and inbound runs start from an empty queue and an
  empty table. `Dispatcher.Accept` takes each id once; `ReusedIds` says what
  happens otherwise.
- An append reaches the file whole, or stops at any byte. In `Dispatcher` and
  `OutboundWorkerModel` one that fails leaves nothing behind; `QueueFile` and the
  torn runs are about those that leave a part.
- The instance ids of a config are distinct; the source does not check it.

## Where the code differs from what it says

- Compaction is described as dropping tombstones "once they're >50% of the rows"
  (src/outbound_queue.rs:17-19). The test is on distinct ids and includes exactly
  half (`NeedsCompactionWhen`).
- A malformed line is logged and skipped (src/outbound_queue.rs:277-285), as if one
  row were lost. The row glued onto it is lost as well (`TornAppends`): an accepted
  job may vanish, and a delivered one may come back to life, be sent again and be
  acknowledged twice (`SentTwice`; `TornConservation` has the exact account). A row
  that lacks nothing but its newline is read, listed and sent, until the next
  append takes it away. A cut inside a character makes every later read of the
  queue fail, because reading a line that is not UTF-8 is an error rather than a
  malformed row (`UnreadableCut`, `UnreadableForGood`).
- The order of the appends in `move_to_dlq` is to keep what is in the DLQ from
  being sent again. It does (`NeverLiveAndInDlq`), unless a torn line swallows the
  tombstone (`TornDlq`).
- A caller may supply the Message-ID of a job that is in the queue already. The
  outcome of the earlier job then ends or replaces the later one, unsent, unless a
  tick begins in between (`FateOfReusedId`, `SecondNeverSent`); and an earlier job
  that no tick holds is superseded, and never sent again (`EarlierIsSuperseded`).
- The queue's lock belongs to the object. After a reload an enqueue may still hold
  the old one; what it appends, and reports as enqueued, can be lost to a
  compaction under the new lock (`TwoHandles.LostExactly`, `LostToCompaction`).
- A bounce whose announcement fails is logged and the cursor moves on: nobody
  hears of it (`BounceIsLost`). It is the only message so lost
  (`AtLeastOnce`, `PassedWasHandled`).
- The history skip is described as one for a first run or a new UIDVALIDITY. It is
  taken at any connect while the stored cursor is 0: mail that came after a first
  connect to an empty mailbox is skipped as history when more than the limit has
  come since (`SkipReachesArrivals`, `ArrivalIsSkipped`).
- `limit + 1` (src/inbound.rs:279-280) wraps at the largest limit in a release
  build and panics in a debug build; the wrapped value leaves no message at all
  (`BootstrapLeavesLimit`).
- The comment on `jittered_backoff` is one attempt off: the first delay after
  one failure is about 2 s (src/inbound.rs:583-592).
- Retry delays are listed up to 30 s, but the fifth failure ends the job, so the
  last delay ever scheduled is the 16 s one (`RetryIsDueLater`).
- Original-Recipient is described as a fallback. It is simply first come, first
  served: an Original-Recipient in front of a Final-Recipient wins (`Dsn.Reading`).
- Labels are said to be quoted when they hold characters an atom may not hold.
  `{`, `%`, `*`, controls and characters beyond 7 bits are not among those looked
  for, and a quoted label keeps its line breaks (`LabelListRoundTrip`,
  `UnreadableLabels`). Search values pass characters beyond 7 bits and NUL
  through, which a quoted string may not hold (`SearchRoundTrip`,
  `AccentUnreadable`).
- The thread root is stable along replies only from an anchored message
  (`ChainKeepsRoot`, `UnanchoredDrifts`); truncation is idempotent only for ids
  that canonicalise (`IdempotentExactly`), and its bound fails at 0 and 1
  (`BoundExactly`).
- The plugin keeps diffing against the config it was built with, so a second
  reload reaches its config only under the condition of `ReloadReachesExactly`;
  and a changed `bootstrap_limit` is not noticed (`ReloadReachesNewConfig`,
  `ChangedLimitIgnored`).
- A plugin started without accounts says that a reload will add one
  (src/plugin.rs:454-459). Its managers were never started, and every such reload
  fails (`NoFirstAccount`).
- When the queue file of a spawned account cannot be opened, its inbound worker
  runs on without an outbound one (`HalfStartLeaves`).
- The collector joins the attachment directory to the data directory, the inbound
  worker takes it as configured. Unless the two name one place, sweeps drop rows
  and never a file (`SweepReachesFiles`).
- A row without its attachment file is reachable without any fault
  (`RowWithoutFileReachable`); `LostExactly` says when that is so.
- The guard against empty Message-IDs lets brackets around a blank pass
  (`BlankIdAccepted`), and commands from the broker may have no recipients.

## Model

| member | source | states |
|---|---|---|
| `QueueLog.LastWriteWins` | src/outbound_queue.rs:260-289 | an id folds to the row of its last occurrence, and to nothing exactly when it has none |
| `QueueLog.LiveExactly` | src/outbound_queue.rs:200-230 | an id is pending, or finished, exactly when its last row says so, and the pending job is that row |
| `QueueLog.OpRefines` | src/outbound_queue.rs:95-144 | every queue operation on the log is the abstract operation on the map of live jobs |
| `QueueLog.LogRefinesMap` | src/outbound_queue.rs:95-144 | after any interleaving of enqueue, update, mark_done, move_to_dlq, compaction and reopen the log folds to the abstract map, at every point |
| `QueueLog.CompactFold` | src/outbound_queue.rs:218-244 | compaction drops exactly the finished ids and keeps every live job, whatever order the hash map yields |
| `QueueLog.NeedsCompactionWhen` | src/outbound_queue.rs:218-228 | compaction is due exactly when there is an id and at least half of the distinct ids are finished |
| `QueueLog.CompactionUnobservable` | src/outbound_queue.rs:218-244 | any operations after compaction give the same live jobs as without it, at every point |
| `QueueLog.IdleCompactionEmpties` | src/outbound.rs:461-463 | with nothing live, the compaction of an idle tick leaves a log that folds to the empty map |
| `QueueLog.SnapshotStillLatest` | src/outbound_queue.rs:109-122 | a row read earlier is still the latest one exactly when no later row of its id says otherwise |
| `QueueFile.ReadAppend` | src/outbound_queue.rs:247-258 | appending a line to a terminated file adds exactly that row to what is read |
| `QueueFile.ReadEncodeAll` | src/outbound_queue.rs:232-243 | a file written row by row reads back as those rows |
| `QueueFile.TornAppends` | src/outbound_queue.rs:247-289 | after any appends, each whole or cut anywhere, the file is readable exactly when no cut split a character, and then it holds what it held and every row that is whole on a line of its own |
| `QueueFile.TornAppendsSpareOthers` | src/outbound_queue.rs:260-289 | every id of which no row was cut or glued folds as if there were no damage |
| `QueueFile.UnreadableForGood` | src/outbound_queue.rs:260-289 | after a cut inside a character no later append makes the file readable again |
| `QueueFile.TornTail` | src/outbound_queue.rs:247-289 | one tear: the torn row is lost, and the next append with it, and nothing more |
| `QueueFile.NoTear` | src/outbound_queue.rs:247-289 | without a cut the same appends lose nothing |
| `QueueFile.LineEndings` | src/outbound_queue.rs:270 | a line is read back from a line feed or a carriage return and line feed, and the last one also without |
| `QueueFile.BlankExactly` | src/outbound_queue.rs:271 | a line of UTF-8 is passed over as blank exactly when all its characters are Unicode whitespace |
| `CodecExists.LawfulCodecExists` | src/outbound_queue.rs:254-256 | the laws asked of the row codec can be met by one that prints characters beyond ASCII as raw UTF-8 |
| `CodecExists.UnreadableCut` | src/outbound_queue.rs:269-289 | a row of that codec and a byte at which cutting it makes the file unreadable |
| `OutboundQueueStore.OutboundQueue.Open` | src/outbound_queue.rs:73-93 | missing files are created empty, present ones are kept as they are; an error exactly when a missing one cannot be created |
| `OutboundQueueStore.OutboundQueue.Enqueue` | src/outbound_queue.rs:95-98 | one line is appended, as far as the write gets; a write that works leaves exactly one row more |
| `OutboundQueueStore.OutboundQueue.Update` | src/outbound_queue.rs:100-107 | the same for a changed row; the earlier row stays |
| `OutboundQueueStore.OutboundQueue.ReadLatestPerId` | src/outbound_queue.rs:260-289 | the line loop computes the fold of the rows, skips blank and malformed lines, and fails on a line that is not UTF-8 |
| `OutboundQueueStore.OutboundQueue.MarkDone` | src/outbound_queue.rs:109-122 | the latest row of the id comes back as a tombstone, an unknown id writes nothing, an unreadable queue and a failing append are errors |
| `OutboundQueueStore.OutboundQueue.MoveToDlq` | src/outbound_queue.rs:124-144 | a tombstone in the queue and then the row as it was in the DLQ; when the first append fails the second is not tried |
| `OutboundQueueStore.OutboundQueue.TrimDlq` | src/outbound_queue.rs:165-198 | the newest lines stay and the number dropped is returned, 0 switches the cap off, an unreadable file is left alone, and a failure before the rename leaves the DLQ as it was beside a part of the new file |
| `OutboundQueueStore.TrimExactly` | src/outbound_queue.rs:165-198 | of the lines that are not blank the newest `max` are left, in their order, when there are more; 0 is no cap and a line that is not UTF-8 an error |
| `OutboundQueueStore.TrimKeepsNewest` | src/outbound_queue.rs:183-197 | over whole rows, trimming is dropping the oldest ones |
| `OutboundQueueStore.OutboundQueue.ListPending` | src/outbound_queue.rs:200-205 | every live job once, ordered by creation, jobs of the same second in any order |
| `OutboundQueueStore.ListingDuringAppend` | src/outbound_queue.rs:200-205 | a listing that reads in the middle of an append fails or sees the rows before it or after it, and which of these at which byte |
| `OutboundQueueStore.SortByCreatedAt` | src/outbound_queue.rs:203 | a sorted permutation |
| `OutboundQueueStore.LiveValues` | src/outbound_queue.rs:202 | the values that are not done, each once, in some order |
| `OutboundQueueStore.OutboundQueue.CompactIfNeeded` | src/outbound_queue.rs:218-244 | the file becomes a listing of the live jobs when compaction is due, and a failure before the rename leaves it untouched beside a part of the new file |
| `OutboundEnqueue.DispatcherCore.EnqueueForInstance` | src/outbound.rs:72-140 | refuses a command without recipients and an unknown instance, in this order; otherwise one fresh live job joins that instance's queue, spelled out field by field from the command, under the id returned: the caller's, out of any number of brackets, or the generated one when there is none; unless the message cannot be built or the append fails |
| `OutboundEnqueue.EnqueueCommand` | src/outbound.rs:407-453 | the same row under the same id without either check |
| `OutboundEnqueue.SuppliedIdRoundTrip` | src/outbound.rs:100-110 | an id comes back from any number of brackets around it, none included, and blanks around those |
| `OutboundEnqueue.GoesByOne` | src/outbound.rs:100-110 | every command goes by exactly one id, and it is the one its job is queued under |
| `OutboundEnqueue.SuppliedIdDropped` | src/outbound.rs:100-110 | a supplied id gives way to a generated one exactly when, trimmed, it is opening brackets and then closing ones |
| `OutboundEnqueue.BlankIdAccepted` | src/outbound.rs:100-110 | a blank id gets into the queue exactly when the supplied text, trimmed, is brackets with nothing but blanks between them |
| `OutboundEnqueue.BlankIdExample` | src/outbound.rs:100-110 | the shortest such text |
| `Backoff.RetryDelayBands` | src/outbound.rs:622-630 | the four scheduled delays lie in 1-2, 3-4, 6-9 and 12-19 seconds for every jitter |
| `Backoff.RetryDelaysGrow` | src/outbound.rs:622-630 | each exceeds every delay of the attempt before it |
| `Backoff.RetryDelayIs` | src/outbound.rs:622-630 | the delays are 2, 4, 8, 16 and then 30 s times the jitter, cut to whole seconds |
| `Backoff.InboundBackoffBounds` | src/inbound.rs:585-592 | the reconnect delay never saturates, lies between 0.8 s and 72 s, and from the sixth attempt on is at least 48 s |
| `Backoff.InboundBackoffIs` | src/inbound.rs:585-592 | the reconnect delays are 1, 2, 4, 8, 16, 32 and then 60 s times the jitter |
| `Dispatcher.StepLive` | src/outbound.rs:455-611 | what each step of the worker does to the map of live jobs |
| `Dispatcher.DecideExactly` | src/outbound.rs:521-588 | reply by reply: done, given up, or put off as the same job with one attempt more, its new time and its error, which happens exactly below four attempts; and the text of row and ack |
| `Dispatcher.SendOrSkip` | src/outbound.rs:485-494 | a job of the snapshot is skipped exactly when it is not due or in flight, and sent otherwise |
| `DispatcherRuns.SettledLive` | src/outbound.rs:516-588 | handling an outcome touches no other job, and its own stays only for a retry, one attempt further and below the cap |
| `DispatcherRuns.SettleDecreases` | src/outbound.rs:516-588 | every handled job strictly decreases the attempts left over all live jobs |
| `OutboundTheorems.SnapshotRowIsLatest` | src/outbound.rs:481-495 | the snapshot row of a job is still its latest row when its outcome is handled, whatever was enqueued meanwhile |
| `OutboundTheorems.GuardNeverFires` | src/outbound.rs:488-494 | the single-flight guard never holds back a job that is due |
| `OutboundTheorems.Conservation` | src/outbound.rs:516-611 | without faults every accepted id is live or has exactly one terminal ack, and at most four retry acks |
| `OutboundTheorems.HealthCountsAcks` | src/outbound.rs:523-547 | the health totals are the numbers of terminal acks, up to the counter's width |
| `OutboundTheorems.AtMostOneTerminalAck` | src/outbound.rs:516-611 | crashes and failed appends never produce a second terminal ack, or one for a live job |
| `OutboundTheorems.BrokerHears` | src/outbound.rs:590-611 | the broker never hears two terminal acks of an id, and without faults it hears one for every id that is not live any more, unless that publish failed |
| `OutboundTheorems.SendsPerId` | src/outbound.rs:542-588 | a live row is below five attempts, and an id is sent at most five times plus once per fault |
| `OutboundTheorems.SendsInAll` | src/outbound.rs:481-495 | n jobs cost at most 5n sends plus one per fault |
| `OutboundTheorems.QueueEmptiesWithinBudget` | src/outbound.rs:542-588 | after 5n sends without a fault nothing is live |
| `OutboundTheorems.NeverLiveAndInDlq` | src/outbound_queue.rs:124-144 | with crashes between any two appends, an id in the DLQ is never live and is there once |
| `OutboundTheorems.DlqIsTail` | src/outbound_queue.rs:165-198 | the DLQ is the newest part of everything ever moved there, all of it while untrimmed |
| `OutboundTheorems.MissingFromDlq` | src/outbound_queue.rs:126-142 | the failed ids missing from an untrimmed DLQ are exactly those cut between the two appends |
| `OutboundTheorems.TombstoneHasReply` | src/outbound.rs:521-588 | a tombstone exists only after a final SMTP outcome for its id |
| `Verdicts.RepliesDecide` | src/outbound.rs:516-588 | without faults a job counts as sent once for each acceptance, failed exactly when it was refused or put off five times, and while it is live it was put off as often as its row says, below five |
| `TornTheorems.RowsAreRead` | src/outbound_queue.rs:247-289 | whatever was torn and glued in the file, as long as no cut splits a character, the rows the worker goes by are those a reader gets of its bytes |
| `TornTheorems.TornConservation` | src/outbound_queue.rs:247-289 | with crashes, errors and torn appends anywhere, down to one that lacks only its newline, an accepted id is live, or has a terminal ack, or a fault dropped that ack, or its only row was swallowed, plus one for every end of it that was swallowed and for every time a tick still held the swallowed row and settled it |
| `TornTheorems.TearsBoundLosses` | src/outbound_queue.rs:247-258 | a tear swallows at most one row, or two if it took only the newline, and a fault drops at most one ack |
| `TornTheorems.TornSends` | src/outbound.rs:542-588 | an id is sent at most five times, plus once per fault and once per swallowed row of an outcome of its own |
| `TornTheorems.TornDlq` | src/outbound_queue.rs:124-144 | what reached the DLQ is live again only when a torn line swallowed an end of it |
| `TornTheorems.SentTwice` | src/outbound_queue.rs:109-122 | for any two jobs and any cut of the second, a run with that one tear in which the first is delivered and acknowledged twice |
| `ReusedIds.FateOfReusedId` | src/outbound.rs:481-497 | the next outcome for a reused id is the second job's own exactly when a tick begins in between; otherwise it is that of an older row the tick was holding, and the second was never answered |
| `ReusedIds.SafeWhileNotHeld` | src/outbound.rs:481-497 | while the worker holds no row of the id, a second job under it is handled as itself, whatever happens in between |
| `ReusedIds.SafeExactly` | src/outbound.rs:481-497 | a second job under an id in use is handled as itself, whatever happens next, exactly when the worker is not sending a row of the id and none that is due waits in its tick |
| `ReusedIds.UnsafeRun` | src/outbound.rs:481-497 | otherwise, a run in which the outcome handled is that of an older row |
| `ReusedIds.EarlierIsSuperseded` | src/outbound.rs:481-588 | while no tick holds a row of the id, whatever is sent, answered or settled under it from then on is the second job: the earlier one is never sent again |
| `ReusedIds.OlderOutcomeEndsSecond` | src/outbound.rs:516-588 | the outcome of an older row ends the second job, or puts the older row in its place, for every reply |
| `ReusedIds.ReusedIdIsLost` | src/outbound.rs:100-140 | enqueued while an outcome of its id is handled, the second job is not the live row afterwards, for every outcome |
| `ReusedIds.SecondNeverSent` | src/outbound.rs:100-140 | for any two jobs of one id, a run from the empty queue in which the first is delivered, the id is acknowledged, nothing is left, and the second was never sent |
| `TwoHandles.LostExactly` | src/outbound_queue.rs:247-258 | a row the old object writes, and reports as enqueued, is lost exactly when the file was replaced between its open and its write, or a compaction that had read the file by then goes on to replace it |
| `TwoHandles.OpenStays` | src/outbound_queue.rs:247-258 | an open file is still the one the path leads to exactly when no compaction has renamed since |
| `TwoHandles.OneLockKeeps` | src/outbound_queue.rs:64-71 | with one lock over both no row is lost |
| `TwoHandles.LostToCompaction` | src/outbound.rs:212-231 | for every file that is due for compaction and every job, the run that loses it |
| `OutboundWorkerModel.RetryIsDueLater` | src/outbound.rs:556-560 | a retry is due strictly later than the clock that scheduled it, within the band of its attempt |
| `OutboundWorkerModel.FailsExactly` | src/outbound.rs:521-588 | handling an outcome ends early exactly when the queue append fails, or the DLQ append of a final failure |
| `OutboundWorkerModel.OutboundWorker.FinishJob` | src/outbound.rs:521-530 | a delivered job takes the machine's step: tombstone, then one more in the sent total |
| `OutboundWorkerModel.OutboundWorker.RetryJob` | src/outbound.rs:555-566 | a retry appends the bumped row and nothing else |
| `OutboundWorkerModel.OutboundWorker.GiveUpJob` | src/outbound.rs:531-548 | a failure takes the two DLQ steps in their order, then one more in the failed total |
| `OutboundWorkerModel.OutboundWorker.HalfGiveUp` | src/outbound.rs:531-548 | when the DLQ append fails, the tombstone is written, the DLQ row is not, and the tick is over |
| `OutboundWorkerModel.OutboundWorker.FailFirst` | src/outbound.rs:516-588 | when the queue append fails, nothing is written and the tick is over |
| `OutboundWorkerModel.OutboundWorker.FailJob` | src/outbound.rs:531-548 | a failure takes the two DLQ steps, or the first of them and the fault |
| `OutboundWorkerModel.OutboundWorker.RetryOrFail` | src/outbound.rs:541-587 | a transient failure takes the retry or the failure steps, as the attempt count decides, up to the first append that fails |
| `OutboundWorkerModel.OutboundWorker.SettleJob` | src/outbound.rs:521-588 | every reply takes the machine's steps of its branch, up to the first append that fails |
| `OutboundWorkerModel.OutboundWorker.HandleOutcome` | src/outbound.rs:516-611 | an outcome takes exactly the machine's steps, up to the ack, which the broker takes or not, or to the first append that fails; handed over is one ack with the decision's status and reason, and the appends are those of the decision |
| `OutboundWorkerModel.OutboundWorker.SendOne` | src/outbound.rs:488-495 | the id is in flight during the send and off the table before the outcome is handled |
| `OutboundWorkerModel.OutboundWorker.DrainJob` | src/outbound.rs:482-496 | a job that is not due or in flight is skipped, any other is sent and settled |
| `OutboundWorkerModel.OutboundWorker.DrainSnapshot` | src/outbound.rs:481-497 | the loop over the snapshot takes the machine's steps job by job, up to the first whose handling fails |
| `OutboundWorkerModel.OutboundWorker.DrainTick` | src/outbound.rs:455-498 | a tick is a listing and its drain up to the job at which cancellation is seen or handling fails, or an idle sweep when nothing is pending, or nothing while the breaker is open or the queue cannot be read |
| `OutboundWorkerModel.OutboundWorker.IdleSweep` | src/outbound.rs:461-478 | an idle tick compacts and then caps the DLQ, and passes over an error of either |
| `OutboundWorkerModel.SweepEmptiesLog` | src/outbound.rs:461-478 | when both work the log folds to nothing and the DLQ holds at most the cap |
| `OutboundWorkerModel.TrimmedRows` | src/outbound_queue.rs:165-198 | trimming the DLQ file is dropping its oldest rows |
| `Cursor.CursorStore.Set` | src/cursor.rs:87-103 | one row is replaced or added, no other changes |
| `Cursor.CursorStore.ResetIfValidityChanged` | src/cursor.rs:105-126 | the row stays under the same UIDVALIDITY and otherwise restarts at UID 0; when a statement fails nothing changes |
| `Cursor.BootstrapLeavesLimit` | src/inbound.rs:277-299 | the persisted start is positive and leaves exactly the limit below the next UID, except at the largest limit |
| `Cursor.StartExactly` | src/inbound.rs:271-300 | a positive cursor of the same UIDVALIDITY is resumed; otherwise a connect starts at 0, or behind all but the newest `limit` UIDs when more are taken, and at the largest limit behind all of them |
| `InboundTheorems.AtLeastOnce` | src/inbound.rs:375-546 | a message still in the mailbox, above the start and not above the stored cursor, was handled; it was published, announced as a bounce or skipped as a loop exactly when it is not a bounce whose announcement failed each time |
| `InboundTheorems.PassedWasHandled` | src/inbound.rs:375-546 | the same for a message that was there when its range was searched and which the cursor then reached, even if it is gone now |
| `InboundTheorems.HandledAs` | src/inbound.rs:430-525 | every handling published its message, unless it parsed as a bounce, which became a bounce event with its report, or parsed as a loop, which became nothing |
| `InboundTheorems.PassedBecame` | src/inbound.rs:369-545 | a message the cursor is past, present or expunged, was published each time if it is neither bounce nor loop; a bounce became a bounce event and a loop nothing each time it parsed |
| `InboundTheorems.BounceIsLost` | src/inbound.rs:433-468 | a concrete run without faults in which the cursor passes a bounce nobody hears of |
| `InboundTheorems.BoundedDuplication` | src/inbound.rs:527-543 | handlings are at most the distinct messages plus the faults |
| `InboundTheorems.ExactlyOnceWithoutFaults` | src/inbound.rs:375-546 | without a fault no message is handled twice |
| `InboundTheorems.MemoryMatchesCursor` | src/inbound.rs:323-369 | at every loop head the position in memory is the stored cursor, under the mailbox's UIDVALIDITY |
| `InboundTheorems.NoSecondSkip` | src/inbound.rs:271-300 | history is skipped at most once per UIDVALIDITY |
| `InboundTheorems.CursorMonotone` | src/inbound.rs:526-543 | the cursor never moves back under one UIDVALIDITY |
| `InboundTheorems.KindsOfRepeats` | src/inbound.rs:389-525 | a message handled twice was so because of a fault, and became the same thing both times exactly when it is published anyway, or it parsed alike and, for a bounce, fared alike |
| `InboundSkips.SkippedArrivals` | src/inbound.rs:271-300 | of the messages that came after the first connect and lie at or below the cursor, exactly those at or below the start were skipped: the others were handled, and without faults none of these was |
| `InboundSkips.SkipReachesArrivals` | src/inbound.rs:271-300 | a connect skips mail that came after the first one exactly when the stored cursor is still 0 and more UIDs than the limit were assigned since |
| `InboundSkips.ArrivalIsSkipped` | src/inbound.rs:271-300 | for every limit from 1, a run without faults that skips a message which came after the first connect |
| `InboundWorkerModel.AccountWorker.HandleOne` | src/inbound.rs:389-525 | one message takes the machine's handling step: a bounce that parsed becomes a bounce event with its report, a loop that parsed nothing, and every other message is published and counted by the health counter up to its width |
| `InboundWorkerModel.AccountWorker.DeliverOne` | src/inbound.rs:389-525 | a failing fetch is a fault, also of a message expunged since the search, and so is a failing publish of a message that is neither bounce nor loop or did not parse; a failing announcement of a bounce is not |
| `InboundWorkerModel.AccountWorker.PersistOne` | src/inbound.rs:526-543 | the cursor moves behind the message and keeps its UIDVALIDITY, other accounts keep their rows |
| `InboundWorkerModel.AccountWorker.AdvanceOne` | src/inbound.rs:526-543 | the cursor moves behind the message, or reading or writing it fails and the session ends |
| `InboundWorkerModel.AccountWorker.DrainOne` | src/inbound.rs:378-543 | one turn of the loop takes the machine's steps, with a fault where a call fails |
| `InboundWorkerModel.AccountWorker.DrainTurn` | src/inbound.rs:377-545 | one turn of the loop leaves the rest of the drain to do, or ends it at the failing call |
| `InboundWorkerModel.AccountWorker.DrainAll` | src/inbound.rs:377-545 | the loop takes the machine's steps up to the first failing call, expunges before their fetch among them, and returns the last UID when none fails |
| `InboundWorkerModel.AccountWorker.DrainPending` | src/inbound.rs:375-546 | the same from the search on, which may fail as well |
| `InboundWorkerModel.DrainsExactly` | src/inbound.rs:375-546 | a drain ends well exactly when every fetch, every publish that is needed and every read and write of the cursor works |
| `InboundWorkerModel.DrainHandlesAll` | src/inbound.rs:375-546 | then each message of the search was handled once, in the order of the search |
| `InboundWorkerModel.DrainMovesCursor` | src/inbound.rs:526-545 | and the cursor is at the last of them, under the UIDVALIDITY it had |
| `InboundWorkerModel.AccountWorker.ResetCursor` | src/inbound.rs:247-270 | the reset of the cursor is the machine's step, or a fault when a statement fails |
| `InboundWorkerModel.AccountWorker.Skip` | src/inbound.rs:271-300 | the history skip is the machine's step, or a fault when its upsert fails |
| `InboundWorkerModel.AccountWorker.ConnectAndBootstrap` | src/inbound.rs:247-300 | a connect selects, resets the cursor if needed and skips history at most as the machine does, up to the first call that fails |
| `InboundWorkerModel.BootsExactly` | src/inbound.rs:247-300 | a connect ends well exactly when its SELECT, its read and the upserts it needs work |
| `Threading.CanonicalForms` | src/threading.rs:36-55 | every result is canonical, and every canonical id comes back from its brackets as it is |
| `Threading.CanonicalBracketed` | src/threading.rs:36-55 | any id without controls, blanks and commas, capitals included, comes back in lower case from brackets with blanks around and inside them |
| `Threading.CanonicalBare` | src/threading.rs:36-55 | and from blanks around it alone, unless it is bracketed itself |
| `Threading.CanonicalRefused` | src/threading.rs:36-55 | an id is refused exactly when nothing is left between the brackets, or a control, a blank or a comma is |
| `Threading.CanonicalCase` | src/threading.rs:54 | the case of ASCII letters never matters |
| `Threading.CanonicalWithoutBrackets` | src/threading.rs:36-55 | without brackets it is a fixed point exactly when it is not bracketed itself |
| `Threading.RootExactly` | src/threading.rs:57-79 | the first usable one of first reference, In-Reply-To and Message-ID in brackets, or else an orphan id of the UID in decimal and the account, or nexo without one |
| `Threading.RootOfId` | src/threading.rs:57-79 | a header with an id in brackets leads to that id in lower case, in brackets |
| `Threading.TruncateReferences` | src/threading.rs:89-119 | the list edits compute the specified list |
| `Threading.TruncatedShape` | src/threading.rs:86-119 | for a cap of two or more: root, newest references, and the id unless it is known already, within the cap |
| `Threading.KnownExactly` | src/threading.rs:100-107 | an id is known exactly when the first or one of the newest max - 1 references has the same canonical form |
| `Threading.BoundExactly` | src/threading.rs:86-119 | the cap is exceeded exactly at 1 with a root or at 0, when an id is added |
| `Threading.IdempotentExactly` | src/threading.rs:86-119 | truncating twice changes nothing exactly when the id canonicalises or already fills the list |
| `ReplyChains.EnrichReplyThreading` | src/threading.rs:128-137 | the command gets the parent's id, and at most ten references: the first, the newest others, and the parent's id at the end unless it is known already |
| `ReplyChains.ReplyAnchored` | src/threading.rs:61-79 | a reply to an anchored message has a usable first reference and the same root |
| `ReplyChains.ChainKeepsRoot` | src/threading.rs:61-137 | replies of any depth to an anchored message resolve to its root, whatever truncation dropped |
| `ReplyChains.UnanchoredDrifts` | src/threading.rs:61-137 | from every other message some chain of at most two replies reaches another root |
| `Dsn.ParsedBounce.FlushDsnField` | src/dsn.rs:259-286 | a non-blank value, trimmed, fills the free slot it is for and no other; an address loses everything up to its first semicolon |
| `Dsn.ParsedBounce.ExtractDeliveryStatusFields` | src/dsn.rs:219-257 | the scanner's slots are the unfolded fields' first non-blank values, on top of what was there; a report of one field, folded or not, fills the slot of its name, in any case, and of an address type, a semicolon and an address it takes the address |
| `Dsn.ScanSplits` | src/dsn.rs:219-257 | a report of several fields is read field by field, in order |
| `Dsn.UnfoldsLast` | src/dsn.rs:223-226 | each continuation line joins its field with one space |
| `Dsn.LeadingLines` | src/dsn.rs:219-257 | continuation lines before the first field fill nothing |
| `Dsn.LineWithoutColon` | src/dsn.rs:219-257 | neither do a line without a colon and the lines that continue it |
| `Dsn.ScanIsReading` | src/dsn.rs:219-286 | the two-variable loop and the unfold-then-look-up reading agree on every list of lines |
| `Dsn.ScanTwoBodies` | src/dsn.rs:219-286 | scanning two reports in turn is one reading of all their fields |
| `Dsn.StatusClass` | src/dsn.rs:29-35 | 5 is permanent, 4 is transient, anything else and nothing at all is unknown, blanks in front ignored |
| `Dsn.FirstStatusDecides` | src/dsn.rs:29-35 | the classification hangs on the first non-blank Status alone |
| `ImapText.ImapQuote` | src/tool/imap_op.rs:56-68 | the loop computes the escaped string between quotes |
| `ImapText.LexEscaped` | src/tool/imap_op.rs:56-68 | a quoted value reads back, line breaks as spaces, and ends where it should, exactly when it is 7-bit text without NUL |
| `ImapText.BuildSearchAtoms` | src/tool/search.rs:231-282 | a bad date is an error; otherwise a reader of the text finds each field that is set under its own key and nothing else, in the order of the source, the domain behind one @, ALL when nothing is set, and finds nothing at all exactly when some value is not 7-bit text without NUL |
| `ImapText.SearchRoundTrip` | src/tool/search.rs:231-282 | a reader of the printed query finds exactly the criteria set in it, in order, exactly when every value is 7-bit text without NUL |
| `ImapText.SendableExactly` | src/tool/search.rs:231-282 | which queries these are, value by value |
| `ImapText.SevenBitQueryIs` | src/tool/search.rs:231-282 | the same, field by field and character by character |
| `ImapText.AccentUnreadable` | src/tool/imap_op.rs:56-68 | one accented name makes the query unreadable |
| `ImapText.LabelListRoundTrip` | src/tool/label.rs:132-151 | a label list reads back as its labels exactly when each is an astring that needs no quotes, or needs them and is made of 7-bit text without NUL and line breaks |
| `ImapText.QuotedExactly` | src/tool/label.rs:132-151 | a label goes out in quotes exactly when it is empty or holds whitespace, a parenthesis, a quote or a backslash |
| `ImapText.ReadableExactly` | src/tool/label.rs:132-151 | which characters a quoted and an unquoted label may hold to be readable |
| `ImapText.UnreadableLabels` | src/tool/label.rs:132-151 | a brace, a list wildcard and a line break as failing labels |
| `Utf8.TruncateUtf8` | src/mime_parse.rs:289-300 | the longest valid prefix within the allowance, the flag exactly when something was dropped, at most three bytes unused |
| `Utf8.BoundaryIsCut` | src/mime_parse.rs:296 | the one-byte boundary test finds exactly the positions where a cut leaves valid text |
| `Utf8.ValidIsEncoded` | src/mime_parse.rs:289-300 | the valid texts are the encodings of characters and nothing else (with `EncodedIsValid`) |
| `Utf8.GlueValid` | src/outbound_queue.rs:269-289 | valid text appended never repairs a broken tail, nor breaks a valid one |
| `Reload.EqualUpToBootstrapLimit` | src/reload.rs:72-87 | accounts count as equal exactly when they differ in nothing but the bootstrap limit |
| `Reload.ComputeAccountDiff` | src/reload.rs:45-66 | the loops compute the specified diff |
| `Reload.DiffMembers` | src/reload.rs:45-66 | which ids are removed, added and changed, by what the two configs say of them |
| `Reload.AddedInOrder` | src/reload.rs:45-58 | added accounts come in the order of the new config, each entry judged by itself |
| `Reload.ChangedInOrder` | src/reload.rs:45-58 | and so do changed ones |
| `Reload.RemovedInOrder` | src/reload.rs:59-64 | and removed ones in the order of the old config |
| `Reload.ApplyDiffAt` | src/plugin.rs:206-287 | what applying the diff leaves, id by id |
| `Reload.ReloadReachesNewConfig` | src/plugin.rs:206-287 | from the configured accounts a reload reaches the new config up to the bootstrap limits, and to the letter exactly when no account keeps everything but its limit |
| `Reload.ReloadReachesExactly` | src/plugin.rs:206-216 | from any accounts it reaches the new config, up to the limits or to the letter, exactly when every id reconciles |
| `Reload.ChangedLimitIgnored` | src/reload.rs:72-87 | two configs between which a reload does nothing though a limit changed |
| `Reload.StrayStays` | src/plugin.rs:206-216 | an account neither config knows survives every reload |
| `Reload.AddedThenDroppedStays` | src/plugin.rs:206-216 | the smallest such history: one account configured, another added, then dropped |
| `PluginModel.InboundManager.AddAccount` | src/inbound.rs:120-162 | a new worker with a health record of its own, or nothing when one is there |
| `PluginModel.InboundManager.RemoveAccount` | src/inbound.rs:100-108 | the worker and its record go |
| `PluginModel.OutboundDispatcher.AddAccount` | src/outbound.rs:212-264 | a new worker that joins the record in the map, and makes one only if none is there; nothing when its queue file cannot be opened |
| `PluginModel.OutboundDispatcher.RemoveAccount` | src/outbound.rs:271-279 | the worker and the address to enqueue from go, the record stays |
| `PluginModel.EmailPlugin.Start` | src/plugin.rs:448-590 | the managers are started only for an enabled plugin that has accounts; then both sides run exactly those, unless the cursor store or a queue file cannot be opened |
| `PluginModel.EmailPlugin.SpawnAccount` | src/plugin.rs:307-363 | without a credential or with managers that were never started nothing is spawned; otherwise both sides are, sharing one new record, or only the inbound one when the queue file cannot be opened |
| `PluginModel.StopKeeps` | src/plugin.rs:221-252 | stopping on both sides keeps the tables in agreement and every other account untouched |
| `PluginModel.StartKeeps` | src/plugin.rs:307-363 | so does starting on both sides |
| `PluginModel.HalfStartLeaves` | src/plugin.rs:347-363 | a half-started account is the only one on which the two sides disagree |
| `PluginModel.OneMoreSpawn` | src/plugin.rs:307-363 | one account more: which error ends a reload first, and what it leaves running |
| `PluginModel.SpawnsInTurn` | src/plugin.rs:270-287 | added accounts are spawned in order and the first error ends it |
| `PluginModel.RespawnsInTurn` | src/plugin.rs:245-269 | and changed ones are replaced likewise |
| `PluginModel.EmailPlugin.ApplyAccountDiff` | src/plugin.rs:206-287 | removed, changed, added, in this order and up to the first error: a cursor store that cannot be opened, an account without a credential, managers never started, a queue file that cannot be opened. Otherwise inbound workers, outbound workers, dispatcher instances, addresses and health keys are the new config's, up to the limits or to the letter, exactly when every id reconciles, and always from the configured accounts; accounts that did not change keep their worker objects and records |
| `PluginModel.ReloadConcludes` | src/plugin.rs:206-287 | these conclusions from what the loops leave in the tables |
| `PluginModel.NoFirstAccount` | src/plugin.rs:339-361 | a plugin built without accounts never gets one: every reload that adds an account fails and runs nothing |
| `PluginModel.UnaffectedIds` | src/reload.rs:45-66 | the unaffected instances are those with equal accounts in both configs, and those in neither |
| `Attachments.Directory.WriteDedup` | src/mime_parse.rs:302-322 | a name that exists is left alone, a new one appears only with all its bytes, a failed write leaves a stray temporary file |
| `Attachments.Directory.Persist` | src/mime_parse.rs:125-190 | the attachment loop lists every attachment part cut to the maximum, keeps every file named after its contents, and on an error has written exactly the parts before it |
| `Attachments.AttachmentsNamed` | src/mime_parse.rs:140-190 | the names listed are the names written |
| `Attachments.AttachmentsOne` | src/mime_parse.rs:126-190 | a binary and a text part are listed under the hash of their first max bytes, with their size and whether they were cut; any other part is not |
| `Attachments.AttachmentsConcat` | src/mime_parse.rs:126-190 | part by part, in order |
| `Attachments.KeptExactly` | src/mime_parse.rs:126-147 | the file of every binary and every text part holds its first max bytes |
| `Attachments.Directory.RemoveAll` | src/attachment_store.rs:111-130 | the unlink loop removes exactly the listed files it can and counts those that were there |
| `Attachments.AttachmentStore.Record` | src/attachment_store.rs:75-93 | insert or bump, and nothing for the empty name |
| `Attachments.TableRemembers` | src/attachment_store.rs:73-93 | whatever is recorded in whatever order, a name has a row exactly when it was referenced and is not empty, the row counts the references, and its two times are those of the first and the last |
| `Attachments.AttachmentStore.LastSeen` | src/attachment_store.rs:148-155 | after any references, the time of the last one to the name, if there is one |
| `Attachments.AttachmentStore.Gc` | src/attachment_store.rs:95-139 | an undisturbed sweep keeps exactly the rows referenced within the retention, as they were, and removes exactly the files of the others that are not stuck; it counts the files, is off at retention 0, keeps every row backed by a file, and leaves the rows when a statement fails |
| `Attachments.SamePlaceExactly` | src/plugin.rs:378-383 | worker and collector use one directory exactly when the configured path is absolute or the data directory is the working directory |
| `Attachments.SweepReachesFiles` | src/plugin.rs:484-486 | a sweep removes any of the worker's files exactly when they use one directory and a stale name has a removable file |
| `AttachmentRace.FilesHashToNames` | src/mime_parse.rs:302-322 | in every reachable state every file's contents hash to its name |
| `AttachmentRace.LostExactly` | src/attachment_store.rs:101-139 | an unexpired row has no file exactly when the file was unlinked under a fresh row or under an arrival that counted on it, and no arrival has put it back since |
| `AttachmentRace.StrikeIsRace` | src/attachment_store.rs:101-139 | every such unlink strikes a name of which an arrival was between check and record during that very sweep |
| `AttachmentRace.DeleteDropsOnlyListed` | src/attachment_store.rs:131-137 | while the clock is never set back the bulk DELETE drops only rows the SELECT listed |
| `AttachmentRace.StrikeLosesFile` | src/attachment_store.rs:111-118 | every such unlink, from every reachable state, leaves the fresh row, and the row of every arrival that counted on the file, without a file |
| `AttachmentRace.LossPersists` | src/attachment_store.rs:101-139 | through any run, only a new arrival that writes the file, or a later sweep, ends that |
| `AttachmentRace.OrphanStays` | src/attachment_store.rs:101-139 | a file without a row stays through any run in which its name is not recorded again |
| `AttachmentRace.RowWithoutFileReachable` | src/attachment_store.rs:101-139 | a concrete run without faults that ends with a row and no file |

## Left out

- TornTheorems.RowsAreRead: runs after a cut inside a character, in which no read succeeds any more (`UnreadableForGood`).
- OutboundWorkerModel.OutboundWorker.SettleJob: an append that fails leaves nothing behind here; one that leaves part of a row is a step of `TornRuns`. Torn DLQ lines are left to `QueueFile`.
- OutboundWorkerModel.OutboundWorker.DrainTick: crashes are events of the state machine, not inputs of the object.
- PluginModel.EmailPlugin.Start: what a start that fails halfway leaves running.
- PluginModel.EmailPlugin.ApplyAccountDiff: a reload after a start or a reload that failed halfway; cancelling and joining workers, and those that do not stop within five seconds.
- TwoHandles.LostExactly: two workers over one file; two processes over one data directory are declared unsupported by the source.
- InboundTheorems.AtLeastOnce: whether the bounce store took the row is recorded, but only the announcement counts as hearing of a bounce.
- Attachments.SamePlaceExactly: paths are lists of components; links, `.` and `..` are not resolved.
- ImapText.SearchRoundTrip: the reader knows no literals; the printers never announce one.
- `Backoff` multiplies real numbers; rounding of the source's floating-point product is not modelled.
- Timestamps are unbounded integers; the source's are 64 bits wide.
- MIME building is an input that yields bytes or fails, and generated ids are inputs.
- The texts of SMTP replies and network errors are inputs; those of rows and acks are made of them as the source makes them.
- The circuit breaker is one answer per tick; its own state machine belongs to another crate.
- `parse_bounce` up to the choice of the delivery-status parts, and `should_skip`, are arbitrary functions of a message.
- A mailbox is recreated only while no session has it selected.
- `AttachmentRace` has one arrival per attachment; the source finishes all files of a message before it records any of them, which are some of the model's interleavings.
- SQL, connection pools, JSON, MIME parsing and building, TLS and the broker.
- `bounce_store.rs`, `boot.rs`, `loop_prevent.rs`, `metrics.rs`, configuration, credentials and the other tool handlers: single statements, counters and argument handling that would add only easy members.
