# Verified model of a transaction load generator

The project models the algorithms inside a load generator for EVM chains and proves
their properties for all inputs, all runs and all interleavings. Check everything with
`dafny verify dfyconfig.toml`.

## What is modelled

- **Sender** (`SenderState`, `SenderProofs`, `SubmitTx`, `Admission`, `Sender`, `SenderRuns`). The bounded
  sender is a class whose methods follow `send`, `send_setup`, `flush` and `pump`; workers are values that still
  have to drop a permit and send completions, and may run between any two operations. The class and the step
  system share one set of transition functions, so the invariants are proved once. A ledger counts what every
  worker and every unread completion still owes: keys, setup results, pending slots, permits.
- **Setup order** (`SetupOrder`, `SetupLaws`). A topological sort over explicit edges and per-key order, against an
  independent definition of the declared graph, and what the order promises of the transactions themselves.
- **RPC ordering** (`RpcOrdering`). The lock-and-notify scheduler: a class for its critical sections, and a step
  system for tickets, inclusion releases and notifications that lag behind the critical section they follow.
- **Receipt tracker** (`ReceiptTracker`, `ReceiptTrackerRuns`). The locked state as a class, and the protocol
  between registrants, scanners and a growing chain. The chain only grows; heads may be stale, and requests may fail,
  time out or be refused for good at every await. Only the theorems about `Expired` and about passed blocks ask for
  more, of the chain or of when their own interest is registered.
- **Response scanner** (`ResponseScanner`, `ResponseJson`). Two resumable byte automata as classes, refined to a
  byte-at-a-time fold, and proved against a grammar of RFC 8259. Hashing is accumulation of bytes.
- **Replay recorder** (`ReplayRecorder`, `ReplayOrder`). Digest accounting, when its total is independent of the
  order of arrival, and the closed-loop workers' ticket protocol.
- **Access-list merge** (`BlockAccessLists`, `BlockAccessMerge`), **call arguments** (`CallArgs`, and
  in `CallLaws` one law for each kind of expression in terms of the entries of a call file), **report
  upload** (`ReportUpload`), **metric labels** (`MetricLabels`), **block RLP** (`BlockRlp`) and the **rate
  limiter** (`RateLimiter`).

## Where the code falls short of the plain reading

- After an error clears the queue, ids of dropped setup transactions stay known, so a later setup transaction may
  wait for one forever. `SenderRuns.CancelledRunGetsStuck` is such a run; `SenderCore.Sender.Flush` says exactly when
  the call succeeds: every queued dependency was grounded, nothing was deferred, and nothing went wrong outside.
  `SenderCore.Sender.Send` then waits forever exactly when the queue is full of entries stuck in this way.
- Acquiring a ticket does not notify, so a parked ticket can be the first ready one with nothing on its way
  (`RpcOrderingRuns.AcquireOverlooksDisjointTicket`). `RpcOrderingRuns.RunOverlooks` says exactly which grants do
  this and until when: the ticket is next in line, and stays overlooked until another ticket joins, leaves or
  releases. A key is then held by somebody alive whose release will wake it (`RpcOrderingRuns.RunNoLostWakeup`).
- The scanner drops the backslash of an escaped member name without decoding it. `ResponseJson.NamesMisread` says
  exactly which names are misread, and `ResponseJson.DigestReadRight` when that changes the answer. One escaped name
  turns a good answer into an RPC error (`ResponseJson.EscapedNameTakenForError`).
- A hash registered after the scanner has passed its block can be answered `Expired`
  (`ReceiptTrackerRuns.LateRegistrationExpires`). `ReceiptTrackerRuns.RunExpiredExactly` says exactly when such an
  answer is wrong: the block was passed at registration, or a block holds the hash at or after its expiry.
- Passes are cut to 32 bits; (record, pass) pairs are distinct exactly when they fit
  (`ReplayRuns.TicketsAreDistinct`).
- The number of disagreements a recorder counts depends on the order of arrival, though whether it is zero does not
  (`ReplayRecorder.TotalDependsOnOrder`). `ReplayOrder.TotalIsOrderFree` says exactly which answers give one total
  however the recorder is called, and `ReplayOrder.PhasedTotalIsOrderFree` which do when only the orders within
  the open loop and within the closed loop after it vary, as in a replay.

## Model

| member | source | states |
|---|---|---|
| Scheduling.NormalizeKeySets | crates/bench-core/src/sender.rs:1347-1362 | Refused exactly when both lists are empty; otherwise duplicate-free lists that share no key and together hold exactly the input keys, a key of both lists staying an inclusion key |
| SetupOrder.SetupSubmissionOrder | crates/txgen-core/src/setup.rs:9-77 | Succeeds exactly when ids are valid and unique, dependencies known, and the graph of explicit edges plus input order between all users of a shared key is acyclic; the order is a permutation that respects every declared edge and is a function of the batch alone; an id error names the first transaction that breaks a rule about ids and that rule, an unknown dependency the first one, and a cycle report the transactions never freed, among which a declared cycle lies |
| SetupLaws.OrderHonours | crates/txgen-core/src/setup.rs:6-57 | In an order that respects the declared graph every transaction stands after those it names, and two users of a common key stand in input order |
| SetupLaws.DeclaredOnly | crates/txgen-core/src/setup.rs:22-50 | Every declared edge comes from a named dependency or from an earlier user of a common key |
| SetupLaws.UnconstrainedFirst | crates/txgen-core/src/setup.rs:52-65 | The order begins with all transactions that name none of the batch and share no key with an earlier one, in input order |
| SetupLaws.InputOrderKept | crates/txgen-core/src/setup.rs:6-65 | A batch without constraints keeps its input order |
| SetupLaws.ReportNames | crates/txgen-core/src/setup.rs:66-75 | A cycle report names, ascending, the first twelve transactions that were never emitted |
| SetupOrder.BuildEdges | crates/txgen-core/src/setup.rs:22-50 | The counters and successor lists describe the graph in which each key links only to its last user |
| SetupOrder.BuiltOrdersDeclared | crates/txgen-core/src/setup.rs:36-49 | An order that respects the last-user edges respects the order of every two users of a key |
| SetupOrder.BuiltCycleIsDeclared | crates/txgen-core/src/setup.rs:36-49 | The last-user edges have a cycle exactly when the declared graph has one |
| SetupOrder.LowerCounters | crates/txgen-core/src/setup.rs:59-64 | Each emitted node lowers exactly its successors' counters, which are never zero before; nodes reaching zero join the ready queue once |
| SetupOrder.LeftoverHasCycle | crates/txgen-core/src/setup.rs:66-75 | When nodes are left over, a cycle lies wholly among them |
| SetupOrder.RespectedGraphIsAcyclic | crates/txgen-core/src/setup.rs:6-8 | A permutation that respects all edges exists only for an acyclic graph |
| SetupOrder.StuckSetHasCycle | crates/txgen-core/src/setup.rs:66-75 | When each node of a set waits for one of the set, a cycle lies wholly inside the set |
| SubmitTx.Submit | crates/bench-core/src/sender.rs:1364-1532 | On every exit path each key is released exactly once. After an accepted reply to an observed transaction exactly the submission keys are released before inclusion is awaited, and the inclusion keys only after it; on every other path all keys are released first. Success exactly when an observed receipt says so; an error exactly when inclusion could not be resolved |
| SubmitTx.Work | crates/bench-core/src/sender.rs:1311-1331 | The whole worker: one release per key, no inclusion key before a submission key of the same transaction, then one setup result and one pending result where due; what is sent before inclusion is awaited; the setup result is positive exactly when a successful receipt was seen, the slot result exactly when inclusion was resolved |
| Admission.Prepare | crates/bench-core/src/sender.rs:985-1021 | Accepts exactly the admissible transactions and otherwise names the first broken rule in the order of the checks, and of several unqueued dependencies the first |
| SenderProofs.RunWorkerKeeps | crates/bench-core/src/sender.rs:1311-1331 | A worker dropping its permit or sending a completion keeps all invariants of the sender |
| SenderProofs.HandleKeeps | crates/bench-core/src/sender.rs:1104-1133 | Applying a completion keeps all invariants |
| SenderProofs.HandleEnabled | crates/bench-core/src/sender.rs:1104-1127 | The counters that a completion decrements are never zero |
| SenderProofs.DispatchKeeps | crates/bench-core/src/sender.rs:1226-1257 | Dispatching the next ready transaction keeps key ownership, conflict order, counters and setup truth |
| SenderProofs.EnqueueKeeps | crates/bench-core/src/sender.rs:994-1021 | Accepting a transaction whose dependencies are known keeps all invariants |
| SenderProofs.ExclusiveOwnership | crates/bench-core/src/sender.rs:1253-1257 | A key owed by one unfinished worker is active and owed by no other |
| SenderProofs.DispatchKeepsConflictOrder | crates/bench-core/src/sender.rs:958-962 | Two dispatched transactions that share a key were dispatched in order of acceptance |
| SenderProofs.QuietLedger | crates/bench-core/src/sender.rs:1104-1133 | When no completion is owed, no key, setup counter, pending slot or permit is held |
| SenderProofs.QuietProgress | crates/bench-core/src/sender.rs:1135-1251 | With nothing owed a permit and a slot are free and the queue head can be dispatched, unless it waits for an orphaned setup id, which cannot be while nothing was cancelled and no setup failed |
| SenderProofs.SettledOwesNothing | crates/bench-core/src/sender.rs:1058-1081 | When keys and counters are all free, no worker has anything left to report |
| SenderProofs.SettledReceipts | crates/bench-core/src/sender.rs:1104-1127 | With everything settled and no failure, every dispatched setup transaction has a successful receipt |
| SenderProofs.FailureHasCause | crates/bench-core/src/sender.rs:1104-1127 | A failure is recorded only if a worker lost track of its transaction, a setup worker saw no successful receipt, or a setup transaction was refused authentication |
| SenderProofs.SettledIsUnharmed | crates/bench-core/src/sender.rs:1058-1133 | With everything settled a failure is recorded exactly when one of these happened |
| SenderProofs.BlockedWasOrphaned | crates/bench-core/src/sender.rs:1058-1075 | A sender that waits with nothing owed had an orphaned dependency, after a cancellation, when the call began |
| SenderProofs.StuckWaits | crates/bench-core/src/sender.rs:1234-1251 | An entry with an orphaned dependency, or behind a stuck entry whose key or setup id it needs, is not ready |
| SenderProofs.BlockedWasStuck | crates/bench-core/src/sender.rs:1135-1151 | A sender that waits with nothing owed behind an unchanged queue held only stuck entries when the call began |
| SenderCore.Sender.HandleCompletion | crates/bench-core/src/sender.rs:1104-1127 | Exactly one completion is applied, the debt of messages falls, and the invariants stay |
| SenderCore.Sender.NextReadyIndex | crates/bench-core/src/sender.rs:1234-1251 | The least index whose keys are neither active nor named by an earlier queued transaction and whose dependencies have completed; none exactly when there is no such index |
| SenderCore.Sender.Authenticate | crates/bench-core/src/sender.rs:1188-1224 | One authentication is tried; if it fails that transaction, and no other, leaves the queue and is recorded as refused |
| SenderCore.Sender.Pump | crates/bench-core/src/sender.rs:1153-1232 | Dispatches the next ready transaction only, and only into a free pending slot. It stops exactly where it may: no permit is left, or every completion that arrived was read and nothing is ready or the pending slots are full; a transaction then waits only if a completion is owed or the head waits for a setup result. After a recorded failure it dispatches nothing; a transaction that fails authentication is the only one dropped; every failure has its recorded cause |
| SenderCore.Sender.WaitForBufferCapacity | crates/bench-core/src/sender.rs:1135-1151 | Leaves room in the queue, or reports an error that has its recorded cause, with the queue cleared; without an error it waits forever exactly when the queue was full of entries that can never be dispatched |
| SenderCore.Sender.PumpFor | crates/bench-core/src/sender.rs:1022-1045 | After an error the caller's transaction is neither queued nor dispatched; a failure is deferred only if it was dispatched; what is returned or deferred has its recorded cause |
| SenderCore.Sender.Send | crates/bench-core/src/sender.rs:963-1046 | Done: accepted under a fresh id and either queued or dispatched, not both. Anything else: never dispatched and not queued. A deferred error is returned at once; any other failure explains what is wrong with the transaction or has a cause recorded in this call, so while nothing went wrong a call fails only for the transaction itself. Unless a sender error is reported it waits forever exactly when the queue was full of entries that can never be dispatched; after Done with nothing deferred nothing more could be dispatched |
| SenderCore.Sender.SendSetup | crates/bench-core/src/sender.rs:940-956 | A batch that cannot be ordered or repeats a known id changes nothing; otherwise no transaction is refused for its id or an unqueued dependency; Done means all were accepted; while nothing went wrong it fails only for the batch, a missing signer or missing keys; never blocks unless the queue was once cancelled |
| SenderCore.Sender.Flush | crates/bench-core/src/sender.rs:1049-1087 | Done: everything listed was dispatched, all keys, slots and workers are free and every setup transaction has a successful receipt. It answers Done exactly when nothing was deferred, every queued dependency was grounded at the call, nobody was refused authentication during it, and no worker lost track or missed its setup receipt; a failure is the deferred one or has a cause recorded in this call |
| SenderRuns.RunKeepsInv | crates/bench-core/src/sender.rs:963-1133 | Every state of every run, under any interleaving of workers and calls, satisfies the invariants |
| SenderRuns.RunNeverStuck | crates/bench-core/src/sender.rs:940-1087 | No deadlock: in every run without a cancelled queue or failed setup, a waiting transaction can be dispatched or a completion is still owed |
| SenderRuns.RunWithinLimits | crates/bench-core/src/sender.rs:1153-1177 | In every run at most `maxConcurrent` workers hold a permit, at most `maxPending` transactions are tracked from their dispatch until their result was read, and at most `maxBuffered` wait |
| SenderRuns.RunHoldsInclusionKeys | crates/bench-core/src/sender.rs:1495-1530 | In every run a transaction that still owes a submission key owes, and holds, every one of its inclusion keys |
| SenderRuns.RunExcludesAndOrders | crates/bench-core/src/sender.rs:1234-1257 | In every run keys are owned exclusively and conflicting transactions are dispatched in order of acceptance |
| SenderRuns.CancelledRunGetsStuck | crates/bench-core/src/sender.rs:1022-1045 | A concrete run: after a cancelled queue the ids of dropped setup transactions stay known, a dependent one is accepted, and nothing can ever be dispatched or received |
| RpcOrdering.Ordering.Enqueue | crates/bench-core/src/sender.rs:574-593 | A ticket with any key joins the back of the queue with normalized keys; one without keys changes nothing |
| RpcOrdering.Ordering.NextReadyIndex | crates/bench-core/src/sender.rs:628-641 | The first entry none of whose keys is active or named by an earlier entry; none exactly when there is no such entry |
| RpcOrdering.Ordering.TryAcquire | crates/bench-core/src/sender.rs:595-607 | Grants exactly the first ready ticket, whose keys become active; otherwise nothing changes |
| RpcOrdering.Ordering.CancelPending | crates/bench-core/src/sender.rs:609-616 | Removes the ticket's entry if there is one and nothing else |
| RpcOrdering.Ordering.Release | crates/bench-core/src/sender.rs:618-625 | Exactly the given keys stop being active |
| RpcOrderingRuns.StepKeepsInv | crates/bench-core/src/sender.rs:573-700 | Every step of a ticket, guard or notification keeps ownership, queue, grant order and wake-ups |
| RpcOrderingRuns.RunKeysAreOwned | crates/bench-core/src/sender.rs:679-700 | In every run a key is active exactly while a live ticket or inclusion release owns it, and no two tickets do |
| RpcOrderingRuns.RunGrantsInOrder | crates/bench-core/src/sender.rs:595-607 | In every run tickets that share a key acquire in the order of their enqueueing |
| RpcOrderingRuns.RunNoLostWakeup | crates/bench-core/src/sender.rs:652-664 | A parked ticket with no notification pending is not the first ready one, or a key is held by somebody alive whose release will notify, and another ticket acquired while it was parked |
| RpcOrderingRuns.RunNeverStuck | crates/bench-core/src/sender.rs:652-700 | While tickets wait, some ticket can step, a notification is on its way, or a live holder has yet to release |
| RpcOrderingRuns.GrantOverlooks | crates/bench-core/src/sender.rs:595-607 | A grant leaves a ticket parked, first ready and without a notification on its way exactly when, before it, nothing was owed and that parked ticket was the first behind the granted one to conflict with nothing |
| RpcOrderingRuns.OtherOverlooks | crates/bench-core/src/sender.rs:573-700 | Any other step leaves a ticket overlooked exactly when it already was and no notification became due |
| RpcOrderingRuns.RunOverlooks | crates/bench-core/src/sender.rs:595-664 | In every run a ticket is overlooked exactly when some grant passed it over as the next in line and no notification became due since |
| RpcOrderingRuns.AcquireOverlooksDisjointTicket | crates/bench-core/src/sender.rs:595-607 | A concrete run in which a parked ticket is the first ready one and no notification is on its way, because acquiring does not notify |
| ReceiptTracker.Tracker.Prepare | crates/bench-core/src/receipt_tracker.rs:77-97 | Counts the registration and starts a scanner exactly when none is running |
| ReceiptTracker.Tracker.Register | crates/bench-core/src/receipt_tracker.rs:121-149 | Succeeds exactly when a scanner runs and has announced its baseline; the interest joins its hash's bucket under a fresh id |
| ReceiptTracker.Tracker.DropWaiter | crates/bench-core/src/receipt_tracker.rs:185-196 | Removes the waiter's own interest and no other, and no empty bucket stays |
| ReceiptTracker.Tracker.StopIfIdle | crates/bench-core/src/receipt_tracker.rs:202-211 | Stops exactly when nobody waits and nobody prepares |
| ReceiptTracker.Tracker.Dispatch | crates/bench-core/src/receipt_tracker.rs:213-225 | Answers exactly the interests in the receipts' hashes, each once |
| ReceiptTracker.Tracker.DispatchHashes | crates/bench-core/src/receipt_tracker.rs:228-248 | Answers exactly the hash-only interests of the block, each once, and reports exactly whether a receipt is wanted |
| ReceiptTracker.Tracker.Expire | crates/bench-core/src/receipt_tracker.rs:250-265 | Afterwards every pending interest has no expiry or one after the timestamp; exactly the interests with an expiry at or before it are answered, each once with `Expired`, and all others stay |
| ReceiptTracker.Tracker.Shutdown | crates/bench-core/src/receipt_tracker.rs:275-295 | Announces the failure and answers every interest with an error, once |
| ReceiptTrackerRuns.StepKeepsInv | crates/bench-core/src/receipt_tracker.rs:77-360 | Every step of registrants, waiters, scanners and the chain, whatever the chain holds, keeps accounts, lifecycle, cursor bounds and genuine inclusions |
| ReceiptTrackerRuns.StepKeepsTimelyInv | crates/bench-core/src/receipt_tracker.rs:228-360 | A step that does not register an interest after its block was passed keeps its coverage by the cursor and the proof of its expiry |
| ReceiptTrackerRuns.RunIncludedIsTrue | crates/bench-core/src/receipt_tracker.rs:228-248 | In every run `Included` is answered only for a hash on the chain |
| ReceiptTrackerRuns.RunExpiredIsForever | crates/bench-core/src/receipt_tracker.rs:250-265 | An interest registered before the cursor passed a block with its hash is answered `Expired` only if no block holds the hash then or later, given ordered block times and no block that holds it from its expiry on |
| ReceiptTrackerRuns.RunPassedBlocksAreAnswered | crates/bench-core/src/receipt_tracker.rs:323-359 | Under the same conditions, once the cursor has passed the block with the hash of an interest that was not withdrawn, it was answered, and not as expired |
| ReceiptTrackerRuns.RunExpiredExactly | crates/bench-core/src/receipt_tracker.rs:121-265 | With ordered block times, a hash answered `Expired` is on the chain, then or later, exactly when the cursor had passed a block with it at the step that registered the interest, or a block holds it at or after its expiry |
| ReceiptTrackerRuns.LateRegistrationExpires | crates/bench-core/src/receipt_tracker.rs:121-149 | A concrete run: a hash registered when its block is already scanned is answered `Expired` while it is on the chain |
| ReceiptTrackerRuns.RunInterestNotLost | crates/bench-core/src/receipt_tracker.rs:199-211 | Every interest is pending under a live scanner with a baseline, answered, or withdrawn, and never two of these |
| ReceiptTrackerRuns.RunAnsweredOnce | crates/bench-core/src/receipt_tracker.rs:213-265 | No interest is answered twice |
| ReceiptTrackerRuns.RunAnswersFit | crates/bench-core/src/receipt_tracker.rs:228-265 | In every run an interest that wants a receipt is never answered without one, and `Expired` is answered only to an interest that some block has reached the expiry of |
| ReceiptTrackerRuns.ExpiryClears | crates/bench-core/src/receipt_tracker.rs:250-265 | After the expiry step of a block every interest still pending expires later than that block, and none without an expiry is dropped |
| ReceiptTrackerRuns.ScanReads | crates/bench-core/src/receipt_tracker.rs:327-357 | A scan reads the blocks from the cursor on one by one and stops after 64 of them or past the head |
| ReceiptTrackerRuns.HeadResets | crates/bench-core/src/receipt_tracker.rs:309-325 | Without a baseline, or with the head fallen behind, the next block read is the one after the head |
| ReceiptTrackerRuns.RunOneScanner | crates/bench-core/src/receipt_tracker.rs:77-97 | `running` holds exactly while a scanner is alive, and at most one is |
| ReceiptTrackerRuns.RunRegistersAfterBaseline | crates/bench-core/src/receipt_tracker.rs:121-149 | A registration succeeds only under a live scanner that has its baseline, and the interest is then pending |
| ReceiptTrackerRuns.StopLeavesNobody | crates/bench-core/src/receipt_tracker.rs:267-296 | A scanner stops only with no interest and no preparation outstanding, or after every interest was answered or withdrawn |
| ReceiptTrackerRuns.RunPreparerNotLost | crates/bench-core/src/receipt_tracker.rs:77-112 | A preparing caller's channel has a value or the live scanner will set it |
| ResponseScanner.ValueScan.Feed | crates/bench-core/src/call.rs:1165-1229 | A chunk fed to the value scan ends where the byte automaton does; the depth counter is decremented only when positive |
| ResponseScanner.ResponseScanner.Feed | crates/bench-core/src/call.rs:408-486 | Feeding a chunk gives the same error or the same state as feeding its bytes one at a time, captured bytes included |
| ResponseScanner.ValueFeeds | crates/bench-core/src/call.rs:462-470 | Consuming a value in one slice equals consuming it byte by byte |
| ResponseScanner.DigestResponse | crates/bench-core/src/call.rs:1104-1110 | The outcome is that of the whole body, however it is cut into chunks |
| ResponseScanner.ChunksAgree | crates/bench-core/src/call.rs:408-486 | Any two ways of cutting the same bytes give the same error or the same state |
| ResponseScanner.RunStaysFit | crates/bench-core/src/call.rs:519-551 | From any fitting state on, the value under scan stays balanced and the retained key and error stay within their caps |
| ResponseScanner.RetainsLittle | crates/bench-core/src/call.rs:519-551 | Whatever the body, at most 33 bytes of a name and 65536 bytes of an error are retained |
| ResponseJson.ValueFeedsInside | crates/bench-core/src/call.rs:1165-1229 | Inside a bracket every valid JSON value is consumed whole and leaves the depth as it was |
| ResponseJson.ObjectScanned | crates/bench-core/src/call.rs:408-486 | Every valid object, with any members, order and whitespace, is scanned to the texts of its last `result` and its last `error` |
| ResponseJson.AnswersWithResultText | crates/bench-core/src/call.rs:499-517 | With unescaped keys, one `result` and no `error`, the digested bytes are exactly the text of the `result` value |
| ResponseJson.AnswersWithErrorText | crates/bench-core/src/call.rs:499-551 | With one `error` member its text is captured up to the cap and decides the outcome |
| ResponseJson.DigestIsVerdict | crates/bench-core/src/call.rs:408-517 | Every valid object is digested to its deciding member: the last one read as `error`, captured up to the cap, or else the last one read as `result` |
| ResponseJson.TruncatedIsRefused | crates/bench-core/src/call.rs:499-503 | A body cut off anywhere before the closing brace of a valid object, after any whitespace, is refused as truncated |
| ResponseJson.NotAnObjectIsRefused | crates/bench-core/src/call.rs:411-419 | A body whose first non-blank byte is not an opening brace is refused as no object |
| ResponseJson.StrayMemberIsRefused | crates/bench-core/src/call.rs:420-433 | Only a name, a comma or the closing brace may stand where a member begins; anything else is malformed |
| ResponseJson.StrayColonIsRefused | crates/bench-core/src/call.rs:451-461 | Only a colon may follow the name of a member |
| ResponseJson.StrayEndIsRefused | crates/bench-core/src/call.rs:471-480 | Only a comma or the closing brace may follow a string, array or object |
| ResponseJson.NamesMisread | crates/bench-core/src/call.rs:436-450 | A valid name is read as something other than it means exactly when it is escaped and either is read as, or means, `result` or `error` |
| ResponseJson.DigestReadRight | crates/bench-core/src/call.rs:436-517 | The answer is the one the decoded names call for exactly when both readings pick the same member, or two that say the same |
| ResponseJson.DigestKind | crates/bench-core/src/call.rs:499-510 | An object is taken for an RPC error exactly when some name is read as `error`, and ought to be exactly when some name means it |
| ResponseJson.DigestWithoutMisreading | crates/bench-core/src/call.rs:436-517 | Without an escaped name that is read as or means `result` or `error`, the answer is the one the decoded names call for |
| ResponseJson.EscapedNameTakenForResult | crates/bench-core/src/call.rs:439-450 | A concrete escaped name that means something else and is taken for `result` |
| ResponseJson.EscapedNameTakenForError | crates/bench-core/src/call.rs:439-450 | A concrete object with a good `result` and no `error` that is digested as an RPC error because of an escaped name |
| ResponseJson.EscapedResultMissed | crates/bench-core/src/call.rs:439-450 | A concrete escaped `result` that is not found |
| ReplayRecorder.Recorder.RecordOpenLoop | crates/bench-core/src/call.rs:671-682 | Adds one row and one non-authoritative observation |
| ReplayRecorder.Recorder.RecordClosedLoop | crates/bench-core/src/call.rs:685-696 | Adds one row and one observation, authoritative exactly for pass 0 |
| ReplayRecorder.Recorder.RecordDropped | crates/bench-core/src/call.rs:700-704 | Adds one to the dropped count of the record's key and changes nothing else |
| ReplayRecorder.FinalReference | crates/bench-core/src/call.rs:745-777 | Whatever the order of arrival, a record's reference has the digest of its first-pass answer if there was one, else of the first answer |
| ReplayRecorder.FinalIsAnswer | crates/bench-core/src/call.rs:745-777 | A record's reference is, in full, an answer that the record got |
| ReplayRecorder.ResponsesAre | crates/bench-core/src/call.rs:706-726 | The response rows are those of the answered records, in corpus order, each with its own key and reference |
| ReplayRecorder.TotalCountsDisagreement | crates/bench-core/src/call.rs:745-777 | The total is zero exactly when all answers of each record have equal digests |
| ReplayRecorder.ReportIsCapped | crates/bench-core/src/call.rs:763-768 | The reported list is as long as the total, up to the cap |
| ReplayOrder.TotalIsSum | crates/bench-core/src/call.rs:745-777 | The total is the sum over records of a count that looks at that record's digests, in order, only |
| ReplayOrder.TotalIsOrderFree | crates/bench-core/src/call.rs:745-777 | All orders in which the recorder can be called give one total exactly when each record's answers are balanced: with a first-pass answer, digests all alike or all distinct; without one, every digest that occurs equally often |
| ReplayOrder.PhasedTotalIsOrderFree | crates/bench-core/src/call.rs:745-777 | With the open loop before the closed one, all orders within them give one total exactly when each record is balanced: without open-loop answers as above; else its open-loop digests occur equally often in all its answers, and a first pass repeats their one digest or neither its digest nor theirs comes back |
| ReplayOrder.ListNamesCounted | crates/bench-core/src/call.rs:761-768 | The reported list names the records of the first counted answers, in order of arrival, up to the cap |
| ReplayRecorder.TotalDependsOnOrder | crates/bench-core/src/call.rs:745-777 | The same three answers in two orders give totals two and one |
| ReplayRuns.RunRecordsEveryTicket | crates/bench-cli/src/call.rs:266-293 | When all workers have stopped, every ticket was recorded exactly once |
| ReplayRuns.TicketsAreDistinct | crates/bench-cli/src/call.rs:283-289 | Tickets stand for distinct (record, pass) pairs exactly when the passes fit in 32 bits |
| ReplayRuns.TicketsInOrder | crates/bench-cli/src/call.rs:283-289 | Ticket `pass * records + slot` stands for that pass and slot |
| ReplayRuns.RunReplaysEveryPair | crates/bench-cli/src/call.rs:266-293 | Under any interleaving every (record, pass) pair is replayed and recorded exactly once |
| ReplayRuns.RunReferences | crates/bench-cli/src/call.rs:266-293 | Under any interleaving the references are first-pass answers where there are any, and nothing is counted exactly when all answers agree |
| BlockAccessLists.ShiftAccountChanges | crates/txgen-cli/src/bal.rs:108-133 | Every change of every field moves by the offset plus two per earlier segment; reads and written slots stay |
| BlockAccessLists.MergeSlotChanges | crates/txgen-cli/src/bal.rs:151-166 | For any lists every slot's changes are the existing ones followed by the incoming ones |
| BlockAccessLists.MergeAccountChanges | crates/txgen-cli/src/bal.rs:135-149 | Every field's log is appended; the reads are all reads minus all written slots, once each |
| BlockAccessLists.MergeBlockAccessList | crates/txgen-cli/src/bal.rs:84-106 | Every address and field gains exactly the shifted incoming changes; tidy lists stay tidy |
| BlockAccessMerge.SortAccountChanges | crates/txgen-cli/src/bal.rs:73-82 | Every list of the account keeps its elements and is in order; an account whose logs increase becomes well formed and says what it said |
| BlockAccessMerge.MergeBlockAccessLists | crates/txgen-cli/src/bal.rs:42-71 | Nothing is returned exactly when no block has a list; for well-formed lists the result obeys the EIP-7928 rules over the whole index range, holds every change of every block, and reads all reads minus all written slots |
| BlockAccessMerge.WalkIncreases | crates/txgen-cli/src/bal.rs:113-117 | The shifted changes of successive blocks strictly increase below the next block's start |
| BlockAccessMerge.MergedLookup | crates/txgen-cli/src/bal.rs:42-166 | Looking up any slot, balance, nonce or code at a merged index equals executing the blocks in order up to that point |
| BlockAccessMerge.RangesTile | crates/txgen-cli/src/bal.rs:113-117 | Every merged index lies in the range of exactly one block |
| CallArgs.ResolveVar | crates/txgen-core/src/abi.rs:452-473 | Agrees with plain evaluation, memoises, and reports a cycle only for a variable under way or one that never finishes |
| CallArgs.EvalExpr | crates/txgen-core/src/abi.rs:475-509 | Agrees with plain evaluation; terminates on every table; starts no variable twice |
| CallArgs.EvalIf | crates/txgen-core/src/abi.rs:526-546 | Evaluates the condition and only the branch it selects |
| CallArgs.Resolve | crates/txgen-core/src/abi.rs:235-266 | All values, or the failure of the first item without a value; each variable started at most once, and exactly once on success |
| CallArgs.OutcomeMeaning | crates/txgen-core/src/abi.rs:234-266 | Succeeds exactly when plain evaluation of every variable and argument does; circular exactly when the first item without a value never finishes |
| CallArgs.OutcomeIsUnique | crates/txgen-core/src/abi.rs:234-266 | Plain evaluation fixes the outcome, but for which variable of a cycle is named |
| CallArgs.SelfAwaitDiverges | crates/txgen-core/src/abi.rs:464-466 | A variable whose expression must first evaluate itself has no value at any depth |
| CallLaws.ScalarLaw | crates/txgen-core/src/abi.rs:475-509 | Every value that is neither mapping nor sequence stands for itself |
| CallLaws.VarLaw | crates/txgen-core/src/abi.rs:452-486 | A reference gives exactly what the expression under that name gives; an unknown name is an error |
| CallLaws.VarNameLaw | crates/txgen-core/src/abi.rs:483-486 | A variable name that is no string is an error |
| CallLaws.CompanyLaw | crates/txgen-core/src/abi.rs:511-524 | `var` or `if` beside other keys is an error; `var` is looked for first |
| CallLaws.IfKeysLaw | crates/txgen-core/src/abi.rs:533-555 | An `if` without a mapping, or without `cond`, `then` or `else`, is an error that names the first key missing |
| CallLaws.ThenLaw | crates/txgen-core/src/abi.rs:533-546 | With a true condition an `if` gives exactly what the value under the key `then` gives |
| CallLaws.ElseLaw | crates/txgen-core/src/abi.rs:533-546 | With a false condition an `if` gives exactly what the value under the key `else` gives |
| CallLaws.ConditionLaw | crates/txgen-core/src/abi.rs:533-546 | A condition that fails, never finishes or is no truth value decides for the whole `if` |
| CallLaws.SequenceLaw | crates/txgen-core/src/abi.rs:502-507 | A sequence gives its items' values in place |
| CallLaws.SequenceErrorLaw | crates/txgen-core/src/abi.rs:502-507 | The first item that fails decides the error of a sequence |
| CallLaws.MappingLaw | crates/txgen-core/src/abi.rs:492-500 | Any other mapping gives what the value resolver makes of it, its keys and order kept and its values evaluated |
| CallLaws.MappingErrorLaw | crates/txgen-core/src/abi.rs:492-500 | The first value that fails decides the error of such a mapping |
| ReportUpload.SplitCovers | crates/bench-core/src/prometheus_reporter.rs:448-470 | The bodies are the consecutive slices that hold a valid sample; they cover all valid samples in order and fit the limit |
| ReportUpload.FittingIsWhole | crates/bench-core/src/prometheus_reporter.rs:448-470 | A batch within the limit is sent whole, or not at all when it holds no valid sample |
| ReportUpload.CutOnlyIfLarge | crates/bench-core/src/prometheus_reporter.rs:448-470 | Every body is the batch itself or a half of a part that exceeds the limit |
| ReportUpload.SplitFailsOnLargeSample | crates/bench-core/src/prometheus_reporter.rs:448-470 | Splitting fails exactly when one sample alone exceeds the limit |
| ReportUpload.FillEncodeTasks | crates/bench-core/src/prometheus_reporter.rs:284-304 | At most `workers` tasks are outstanding, and it stops only when they are all busy or the input ended |
| ReportUpload.PushReport | crates/bench-core/src/prometheus_reporter.rs:235-281 | For every order in which workers finish and every endpoint: succeeds exactly when every chunk can be sent and the endpoint accepts every body; then every body was accepted once, in input order; an error names an unreadable chunk, a sample that is too large or a refused body, after a prefix of that order; never more than `workers` tasks at once |
| ReportUpload.UploadCovers | crates/bench-core/src/prometheus_reporter.rs:235-281 | The bodies of a finished upload hold every valid sample of the report once, in input order, and the count is that of all samples |
| ReportUpload.NothingLeft | crates/bench-core/src/prometheus_reporter.rs:270-277 | The loop never waits with no task outstanding while a batch is missing |
| MetricLabels.ReadsValue | crates/bench-core/src/prometheus.rs:76-81 | An escaped value is read back as it was |
| MetricLabels.LabelsRoundTrip | crates/bench-core/src/prometheus.rs:63-121 | Parsing printed pairs, with or without a trailing comma, yields their map and the suffix |
| MetricLabels.MapRoundTrip | crates/bench-core/src/prometheus.rs:63-121 | For every map of identifier keys to arbitrary strings, in any order, and every suffix, printing and parsing gives them back |
| MetricLabels.WrittenRoundTrip | crates/bench-core/src/prometheus.rs:63-121 | Labels with blanks around a name or with bare values, which are trimmed, are read as the pairs that they mean |
| MetricLabels.UnclosedIsRefused | crates/bench-core/src/prometheus.rs:63-121 | Labels without a closing brace are refused |
| BlockRlp.BlockRoundTrip | crates/bench-cli/src/send_blocks.rs:608-655 | From the encoding of any block with any mix of legacy and typed transactions their encodings are extracted in order |
| BlockRlp.BlockIsCanonical | crates/bench-cli/src/send_blocks.rs:608-655 | Only encodings of blocks are accepted, and the encodings of their transactions are what is returned |
| BlockRlp.ItemsReencode | crates/bench-cli/src/send_blocks.rs:634-655 | Whatever is extracted encodes back to the payload it came from |
| BlockRlp.DecodeIsCanonical | crates/bench-cli/src/send_blocks.rs:608-616 | No second encoding of an item is accepted |
| BlockRlp.ExtractReorgTransactions | crates/bench-cli/src/send_blocks.rs:662-692 | Fails exactly when extraction does; otherwise the non-blob transactions without every tenth |
| BlockRlp.NineOfTenKeeps | crates/bench-cli/src/send_blocks.rs:694-696 | Of n transactions n - n/10 remain, and which ones |
| BlockRlp.ReorgRoundTrip | crates/bench-cli/src/send_blocks.rs:662-696 | The synthetic fork keeps the encodings of the transactions of any body that carry no blobs (EIP-2718 type 3), in order, but for every tenth of them |
| RateLimiter.Limiter.TryAcquireOrDelay | crates/bench-core/src/sender.rs:1746-1770 | One refill at the current rate, capped at its burst, then one token or the delay to the next |
| RateLimiter.Limiter.RateAt | crates/bench-core/src/sender.rs:1735-1744 | The step in force at that time, the last one's rate afterwards |
| RateLimiter.WindowBound | crates/bench-core/src/sender.rs:1746-1770 | At a constant rate r any window grants at most max(1, r/100) plus r times its length |
| RateLimiter.BurstGrants | crates/bench-core/src/sender.rs:1746-1770 | Of n requests at one instant exactly min(n, whole tokens held) are granted, where the bucket holds the credit since its last refill cut at max(1, r/100) |
| RateLimiter.StepInForce | crates/bench-core/src/sender.rs:1735-1744 | The rate is that of the step whose span holds the moment, and of the last step after all of them |
| RateLimiter.DelaySuffices | crates/bench-core/src/sender.rs:1755-1761 | An undisturbed refused caller is granted after exactly the returned delay, and not before |
| RateLimiter.ScheduleGrants | crates/bench-core/src/sender.rs:1722-1770 | From the start of a schedule grants stay within the entered steps' bursts plus rate times time spent |

## Left out

- HTTP, RPC providers, retries, authentication headers, signing and the async runtime: their outcomes are arbitrary
  choices (accepted, refused, lost reply, timed out), and whether an authentication succeeds is a function of the
  attempt that the sender is given.
- Failure texts: errors are kinds with the data that decides them.
- Panicking or aborted workers: key release is claimed for submissions that run to a return.
- Metrics, receipt collection for gas reports, logging, reporters, the CLI, file and stdin sources.
- SenderCore.Sender.Pump: the rate limiter may refuse any finite number of times in a row here; its own timing is the
  subject of `RateLimiter`.
- SenderCore.Sender.Recv: waiting is modelled as running some worker until a completion arrives, which presumes that
  every dispatched worker is eventually scheduled.
- SenderCore.Sender.Flush: the completion channel never closes, because the sender keeps one end of it.
- RpcOrdering.Ordering.Enqueue: ticket ids do not wrap at 64 bits; queue and interest ids likewise.
- ReceiptTrackerRuns.RunExpiredIsForever: the chain is append-only; reorganisations beyond a cursor moved back by a
  stale head are not modelled, as the tracker observes inclusion and not finality. Block numbers stay below 2^64 - 1,
  where the saturating increments would matter.
- ReceiptTracker.Tracker.Prepare: the wait for readiness with its timeout is a step of the protocol in
  `ReceiptTrackerRuns`, not part of this method.
- ResponseScanner.RunStaysFit: bounds the bytes held, not the capacity the allocator reserved for them.
- ResponseJson.AnswersWithErrorText: decoding the captured error into code and message is a library call.
- ReplayRecorder.Recorder.Finish: the final sort of the rows, percentiles and other statistics.
- ReplayRuns.RunReplaysEveryPair: the shared cursor does not overflow 64 bits.
- BlockAccessLists.ShiftAccountChanges: indexes are unbounded, without 64-bit overflow. RLP encoding of the merged
  list is a library call. Vectors changed through a mutable reference are passed in and returned.
- CallArgs.Resolve: the value resolver is a function of the mapping it is given, so a resolver that draws random
  numbers is covered only for one fixed outcome per mapping; YAML tags are not modelled.
- ReportUpload.PushReport: the endpoint's answers are a function of the number of bodies it accepted before; snappy
  compression cannot fail, workers do not panic, and a body stands for the samples it encodes. Grouping into time
  series and label sanitising are behind the size function.
- ReportUpload.SplitFailsOnLargeSample: assumes that part of a batch never encodes longer than the whole.
- MetricLabels.MapRoundTrip: numbers and the rest of a metric line are not parsed here.
- BlockRlp.BlockRoundTrip: the block header is one item that is skipped; decoding it into fields is a library call.
- RateLimiter.WindowBound: exact arithmetic in place of 64-bit floating point, and instants that never go back.
- Float percentages, latency summaries, fee sums and nonce tracking would only add easy members.
