# A verified model of the payment bridge between vending machines and PVS

A vending machine (GS) asks for a payment QR, PVS shows it and reports what the
customer did, and the bridge keeps an order row per sale. Webhook deliveries,
the background reconciler, machine calls (create, complete, cancel, refund) and
payment notices to GS all read a row, perhaps ask an external party, and write
back later. Deliveries and corrections write on condition that the status is
still the one they read; all other writes are unconditional.

The project models that at two levels.

* **Interleaved.** `Protocol` cuts every call into steps (read, ask, write), any
  number of calls are in flight, and each keeps the row it read, however stale.
  `Interleaved` holds an inductive invariant over rows and stale snapshots and
  the guarantees that follow from it. `Simulation` shows that every interleaved
  run has the tables of a run in which deliveries and corrections happen whole.
  `Overwrites` and `Repeats` say exactly when interleaving breaks the laws it can
  break, and `Races` gives a run with a clock for each.
* **Serial.** `Serial`, `Refunds` and `Notices` treat each call as one act, whose
  statements may fail, and prove transition-table paths, terminal statuses,
  replay, one reverse per order, refund answers and no notice after a marked one.

`Wording` writes out the two external vocabularies, and `Outcomes` what each call
does when it runs alone and is answered: rows, outside calls and replies in plain
values, apart from the translations and tables the program uses to get there.

`Services` and `Reconciler` are the program's own classes and loops over a
mutable store. Each method is proved to do exactly what its call does when run
alone in `Protocol`, so the lemmas are about the same statements the methods
execute. `Draining` proves what scans achieve. `UpdateBuilder` and `Joining`
treat the generated SQL statement as a small syntax tree with a meaning.
`Crockford`, `Truncate`, `Sanitizer` and `Money` are self-contained.

## Conventions

* The surroundings are an `Env` per step: whether the database answers, the
  clock, and what PVS and GS reply. Missing answers mean everything is down.
* Texts that are only compared (order numbers, QR ids, image data) are numbers,
  0 being the empty text. New order numbers are generated fresh.
* The reconciler's rows are independent calls at the interleaved level (`Correct`
  and `RetryNotify`, started at any time), which allows more runs than its two
  loops do; the loops themselves are the class `Reconciler.Worker`.
* A row or an argument outside the model's types cannot be expressed, so the
  fallback branch of the status code translation has no counterpart.

## Results that qualify the code

* **Terminal statuses.** A notice that GS accepts late moves a cancelled order
  back to PAYMENT_CONFIRMED. A terminal order can still change if and only if a
  call in flight threatens it: one about to write another status blindly, a
  creation that has not asked PVS, or a notice or refund whose row was read in time
  (`Overwrites.TerminalCanChangeIff`). A step leaves the transition table if and
  only if it is a blind write of a status that no path leads to.
* **Reverses.** Two refund calls that overlap can reverse one order twice. A paid
  order can be reversed (again) if and only if its status is refundable or a call
  in flight reverses or reopens it (`Repeats.CanBeReversedIff`). When refund calls
  and unconditional writers of an order take turns, it is reversed at most once
  (`Repeats.ReversedAtMostOnce`). Without overlap it is reversed again if and only
  if the statement on the order after the reverse was lost
  (`Refunds.ReversedAgainIff`).
* **Notices.** An order can be noticed although an earlier notice was accepted and
  marked, because the reconciler checks the age of a row it listed before the
  mark. This happens if and only if a call in flight still holds an unmarked row
  (`Repeats.NoticedAgainIff`); in serial runs a marked order is never noticed
  again, and a retry repeats a notice if and only if it was refused or its mark
  was lost (`Notices.RetriedAgainIff`).
* **An empty image.** A repeated create request gets the first answer again if and
  only if that answer had an image; with an empty image it meets the unique key and
  fails (`Outcomes.AnswerIsRepeated`).
* **Short last chunk.** The Crockford encoder prints the low bits of a last chunk
  aligned to the left of 40 bits. Nothing is kept of one or two bytes, 9 bits of
  three and 27 bits of four; two inputs share their text if and only if they agree
  in the rest. A 16-byte request id therefore loses its last byte, never any of its
  time stamp.
* **Sanitizing twice.** A text under a large-field key is replaced by its marker
  whatever its length, so sanitizing is idempotent if and only if each such text
  has exactly twenty bytes.
* **Cents.** `parseMonto` truncates, so "1.15" becomes 114 cents. With n the number
  of cents doubled until it is at least 100 * 2^52, a cent is lost if and only if
  n < 2^59 and n leaves a remainder between 33 and 49 modulo 100.
* **Builder.** The statement is refused by SQL if and only if the caller's map
  names `status` or `updated_at`; all other maps are the plain row update.

## Model

| member | source | states |
|---|---|---|
| Status.PathLowersRank | internal/domain/status.go:48-74 | every path in the transition table lowers a rank, so the table has no cycles and a terminal status starts no path |
| Tables.PerformKeepsKeys | migrations/007_gs_v2_fields.up.sql:9-11 | no statement of the program makes two orders share a machine order number or a QR id |
| Tables.PerformKeepsHistory | migrations/006_order_status_history.up.sql:17-38 | every single statement keeps the history chained per order and ending at the current status |
| Tables.Store.Create | internal/store/order_repo.go:34-53 | the insert takes effect and is recorded exactly when both keys are free; otherwise nothing changes |
| Tables.Store.UpdateStatusAndFields | internal/store/order_repo.go:124-153 | the whole new state of an unconditional update, the history row included, and when it reports success |
| Tables.Store.UpdateStatusGuardedAndFields | internal/store/order_repo.go:158-201 | the same for the update that also requires the expected status: updated is true exactly when it took effect |
| Tables.Store.CreateRefund | internal/store/refund_repo.go:27-40 | a refund row is inserted exactly when its number is unused |
| Tables.Store.UpdateRefund | internal/store/refund_repo.go:106-118 | the state of the one named refund changes, if it exists |
| Tables.Store.GetByGsOrderNo | internal/store/order_repo.go:66-73 | finds the order of a machine order number, if any |
| Tables.Store.GetByPVSQrID | internal/store/order_repo.go:97-104 | finds the order of a QR id, if any |
| Interleaved.StepKeepsInv | internal/service/order_service.go:181-572 | one step of any call, from any state that satisfies the invariant, keeps it for all rows, all events so far and all stale snapshots in flight |
| Interleaved.OneQRPerMachineOrder | internal/service/order_service.go:205-271 | over any interleaving PVS is asked for a QR at most once per machine order number, and all successful replies for that number carry the same order number and QR |
| Interleaved.ConfirmedAtMostOnce | internal/service/order_service.go:350-362 | with all writers racing, an order has at most one confirming write and at most one write that shows its QR |
| Interleaved.PaidIffConfirmed | internal/reconciler/reconciler.go:162-168 | an order carries a payment moment exactly when its one confirming write happened |
| Interleaved.PaymentMarkStays | internal/store/order_repo.go:124-201 | from any state of a run, no continuation clears or rewrites a payment moment |
| Interleaved.OnlyPaidOrdersReversedOrNotified | internal/service/refund_service.go:109-145 | every reverse and every payment notice goes out for an order that is paid at that moment, however old the row its caller read; the paid statuses are only held by paid orders |
| Interleaved.OneReversePerRefundNumber | internal/service/refund_service.go:117-129 | in any interleaving PVS is asked to reverse at most once per refund number |
| Interleaved.PendingCodeNeverReturns | internal/service/order_service.go:293-297 | once the QR is shown, a machine that has read a code other than "1" never reads "1" again, whatever all writers do |
| Interleaved.HistoryAlwaysAgrees | migrations/006_order_status_history.up.sql:17-38 | in every reachable state the history of each order starts at its creation, chains without gaps or repetitions and ends at its current status |
| Simulation.InterleavedRunsAreSerial | internal/service/order_service.go:313-362 | all tables after any interleaved run are those of its indivisible acts in sequence: a delivery or correction happens whole at its conditional write or not at all |
| Simulation.DeliverIsHandler | internal/service/order_service.go:306-391 | the indivisible delivery of the simulation is the handler itself, run without interruption |
| Simulation.RepairIsCorrection | internal/reconciler/reconciler.go:140-172 | the indivisible correction is the reconciler's query and guarded write, run without interruption |
| Simulation.EffectiveDeliveryFollowsTable | internal/service/order_service.go:341-362 | a delivery that changes anything follows a table edge from the status the row has at that very moment, sets the payment moment exactly when it confirms, and leaves all other orders alone |
| Simulation.AnswersAgreeWithDeliveries | internal/reconciler/reconciler.go:148-161 | PVS's answers 5 and 3 about a shown order do what the deliveries APPROVED and REJECTED do, and 4 about a pending refund does what REVERSED does |
| Overwrites.StatusChangesIff | internal/store/order_repo.go:107-201 | in any interleaving a step changes the status of an order exactly when the database answers and it is an unconditional write of another status or a conditional one whose condition holds |
| Overwrites.OffTableIff | internal/domain/status.go:48-70 | a step takes an order off the transition table exactly when it is an unconditional write of a status that no path leads to |
| Overwrites.TerminalCanChangeIff | internal/service/order_service.go:445-562 | from any state of a run, some continuation changes a terminal order exactly when a call in flight threatens it |
| Repeats.CanBeReversedIff | internal/service/refund_service.go:97-145 | from any state of a run, some continuation reverses a paid order (again) exactly when its status is refundable or a call in flight reverses or reopens it |
| Repeats.ReversedAtMostOnce | internal/service/refund_service.go:109-145 | in every run in which refund calls and unconditional writers of an order take turns after their reads, and reverses are written down, it is reversed at most once; deliveries and corrections interleave freely, up to the notice one of them may send |
| Repeats.NoticedAgainIff | internal/service/order_service.go:396-449 | from any state of a run, some continuation notices a marked order again exactly when a call in flight still holds an unmarked row of it |
| Notices.MarkedNeverNoticed | internal/service/order_service.go:400-402 | in serial runs an order whose notice was accepted and marked is never noticed again |
| Notices.RetryAsksIff | internal/reconciler/reconciler.go:119-130 | a retry asks GS exactly when the row is confirmed, unmarked, notifiable and at least 30 seconds old, and marks it exactly when GS accepts and the statement is answered |
| Notices.RetriedAgainIff | internal/reconciler/reconciler.go:119-130 | after a retry that asked GS, a later one asks again exactly when the first was refused or lost its mark |
| Notices.MarksAreTaken | internal/service/order_service.go:433-449 | over serial runs an order is marked only after GS answered a notice with the empty code or "success" |
| Notices.RefusedStaysListed | internal/service/order_service.go:425-442 | a retry that GS does not answer, or answers with another code, writes nothing, so the order stays among the unnotified |
| Races.CancelledOrderComesBack | internal/service/order_service.go:445-449 | a run with a clock in which one step takes a cancelled order to PAYMENT_CONFIRMED, along no path of the table |
| Races.TwoNotices | internal/reconciler/reconciler.go:112-130 | a run with a clock in which the reconciler notices an order again although the first notice was accepted and marked, from a row listed before the mark and 40 seconds old at its turn |
| Races.TwoReverses | internal/service/refund_service.go:101-129 | a run with a clock in which one order has been reversed under two refund numbers |
| Races.LostStatementReversesTwice | internal/service/refund_service.go:144-145 | two serial refund calls that reverse one order twice, the first losing its statement on the order |
| Serial.EveryChangeIsPath | internal/domain/status.go:48-61 | in serial runs, whichever statements fail, every recorded status change is a non-empty path in the transition table and every order starts RECEIVED |
| Serial.TerminalIsFinal | internal/domain/status.go:72-74 | in serial runs, whichever statements fail, a terminal status never changes and each change lowers the rank |
| Serial.AtMostFiveChanges | internal/service/order_service.go:181-572 | in serial runs, whichever statements fail, an order changes status at most five times after it is created |
| Serial.DeliverySettles | internal/service/order_service.go:341-362 | after an approved or rejected delivery of an order with a QR, the order is past the statuses in which that content matters |
| Serial.DuplicateDeliveryDropsOut | internal/service/order_service.go:303-348 | deleting a later duplicate of an approved or rejected delivery whose read and write were answered, under either name of the order, leaves the final tables and all external calls of the whole serial run unchanged |
| Serial.AtMostTwoReversals | internal/service/order_service.go:590-604 | in any serial run at most two REVERSED deliveries change an order |
| Serial.RunKeeps | internal/service/order_service.go:181-572 | serial runs, whichever statements fail, keep the invariants of rows and history, move orders forward only and keep payment and notice marks |
| Refunds.RunKeepsRefunds | internal/service/refund_service.go:101-145 | serial runs whose refund calls settle the order keep refunds in agreement with their order's status, one per order |
| Refunds.OneReversePerOrder | internal/service/refund_service.go:109-145 | in serial runs whose refund calls settle the order, PVS is asked to reverse at most once per order, whatever the refund numbers |
| Refunds.RefundAsksIff | internal/service/refund_service.go:71-129 | a refund call reaches PVS exactly when its request is complete, matches a paid refundable order, has an unused number and its first three statements are answered |
| Refunds.ReversedAgainIff | internal/service/refund_service.go:129-145 | after a refund call that reached PVS, a second request reaches it exactly when the first lost its statement on the order |
| Refunds.OneRefundPerOrder | internal/service/refund_service.go:117-127 | after any such run each order has at most one refund row |
| Refunds.AnswersNeverRegress | internal/service/refund_service.go:201-215 | over any such run the status answers for a refund are pending and then maybe success for good, or fail for good |
| Refunds.AnswersMean | internal/service/refund_service.go:201-215 | in agreement of refunds and orders, success is a confirmed reversal, fail a refund that PVS turned down, pending everything between |
| Refunds.MismatchGetsNone | internal/service/refund_service.go:239-280 | a refund is told exactly to matching numbers |
| Refunds.LookupRoutesAgree | internal/service/refund_service.go:239-303 | asking by refund number, by our order number or by the machine's order number alone finds the same refund and gives the same answer |
| Wording.TextMeaning | internal/domain/status.go:97-126 | which callback texts, and without a text which state ids, say approved, rejected, reversed and in process; all others are refused |
| Wording.ToldMeaning | internal/service/order_service.go:575-604 | for every status and every delivery, the status that the translations and the transition table together lead to, written out |
| Wording.FixedMeaning | internal/reconciler/reconciler.go:148-212 | for every status and every answer of PVS, the status a correction leads to, written out |
| Wording.MachineEdges | internal/domain/status.go:48-70 | from which statuses an order can be completed, failed, cancelled and refunded |
| Outcomes.NoticeOutcome | internal/service/order_service.go:396-449 | GS is asked about every untold row; the row is marked, and nothing else written, exactly when GS answers with the empty code or "success" and the mark is answered |
| Outcomes.GuardedOutcome | internal/service/order_service.go:350-388 | a guarded write that takes effect sets the status, with a confirmation also the payment moment, tells GS, and changes no other order |
| Outcomes.CorrectionOutcome | internal/reconciler/reconciler.go:140-218 | an answered correction: 5 confirms and tells GS, 3 fails, 6 times out, 4 reverses a shown order or completes a refund, every other answer changes nothing |
| Outcomes.RepeatedCreate | internal/service/order_service.go:204-213 | a complete request for an order with a QR image is answered with that image and number, without a write or a question to PVS |
| Outcomes.AnswerIsRepeated | internal/service/order_service.go:204-213 | from any reachable state in which a machine was given a QR, every later complete and answered request for that order gets the same answer and writes nothing, exactly when the QR has an image |
| Outcomes.FirstCreate | internal/service/order_service.go:215-271 | the first request asks PVS once and leaves the whole row written out, shown for 180 seconds and answered, or FAILED |
| Outcomes.CompleteOutcome | internal/service/order_service.go:461-516 | a completion that fits the order leaves its whole row written out, with the moment of a success or the reason of a failure; any other leaves the tables |
| Outcomes.CancelOutcome | internal/service/order_service.go:520-572 | a cancellation of a shown or confirmed order leaves its whole row written out, remark included; any other leaves the tables |
| Outcomes.RefundOutcome | internal/service/refund_service.go:97-145 | an entitled request leaves one refund row with its amount, makes one reverse and settles both rows as PVS said |
| Outcomes.ReversalIsTold | internal/service/refund_service.go:201-215 | a refund under way is answered pending, and success once the reversal was delivered |
| Outcomes.CodesMean | internal/domain/status.go:77-94 | which statuses each of the six codes stands for, and that exactly a matching pair of numbers gets one |
| Outcomes.CodeTwoIsPaid | internal/service/order_service.go:277-298 | in every reachable state, code 2 is told of orders with a confirming write only |
| Services.OrderService.CreateOrder | internal/service/order_service.go:181-272 | does to tables and external calls exactly what the create call does alone; a repeated answered request gets its order's QR with no write; invalid input exactly for a missing field; the reply is the last event, and an error means no QR was handed out |
| Services.OrderService.NotifyPaymentIfNeeded | internal/service/order_service.go:396-456 | does exactly what the notice does alone; nothing changes without an answer or with a code other than the empty one and "success", and with one of these and the mark answered both the row and the in-memory order are marked |
| Services.OrderService.Deliver | internal/service/order_service.go:350-389 | the guarded write and the notice; true exactly when the row still had the status that was read |
| Services.OrderService.HandlePVSWebhook | internal/service/order_service.go:306-391 | does exactly what the delivery does alone; for every status, text and state id the status the order then has, paid exactly for an approval of a shown order, no other order changed; a non-empty text decides, and when a delivery is refused as unknown or invalid |
| Services.OrderService.CompleteOrder | internal/service/order_service.go:461-516 | does exactly what the completion does alone; success leaves the completed row, an error leaves the tables, and the exact condition of each error |
| Services.OrderService.CancelOrder | internal/service/order_service.go:520-572 | does exactly what the cancellation does alone; success leaves the cancelled row with its remark, an already cancelled order gives success and no change, an error leaves the tables, and the exact condition of each error |
| Services.RefundService.Settle | internal/service/refund_service.go:129-145 | the two best-effort writes after PVS answered, in the order the code runs them |
| Services.RefundService.Reverse | internal/service/refund_service.go:117-163 | insert first, then one reverse; the answer is PVS's, and no reverse means another error |
| Services.RefundService.Check | internal/service/refund_service.go:97-115 | a known refund number changes nothing and is answered from its row; the exact condition of not refundable |
| Services.RefundService.Refund | internal/service/refund_service.go:71-163 | does exactly what the refund call does alone, with the answers of its parts; a repeated number is answered success, waiting or fail from its rows; the exact conditions of invalid and unknown |
| Reconciler.List | internal/store/reconciler_store.go:25-47 | a listing holds the min(limit, count) oldest matching rows, oldest first, each once |
| Reconciler.Worker.ReconcileQRShown | internal/reconciler/reconciler.go:140-189 | asks PVS, corrects by guarded write to the status that PVS's number stands for, notifies on confirmation, counts exactly the effective corrections; otherwise changes no order |
| Reconciler.Worker.ReconcileRefundPending | internal/reconciler/reconciler.go:193-218 | completes a refund that PVS reports reversed, by guarded write, and counts it if effective |
| Reconciler.Worker.RecordRun | internal/store/reconciler_store.go:49-60 | one record with the two counters is added when the statement is answered |
| Reconciler.Worker.RetryUnnotified | internal/reconciler/reconciler.go:108-136 | lists the oldest unnotified orders, retries those of sufficient age in order and counts exactly the notices that landed |
| Reconciler.Worker.Scan | internal/reconciler/reconciler.go:67-105 | one pass is its two listings and two loops in order, and the run record holds the two exact counters |
| Reconciler.Worker.BothLoops | internal/reconciler/reconciler.go:73-94 | the first listing and its corrections, then the second listing of the tables as corrected and its notices; the scanned counter is the length of both listings |
| Draining.ScanIsExact | internal/reconciler/reconciler.go:79-105 | row by row what a scan changes, and its counter is the number of statuses corrected plus the number of notices that landed |
| Draining.OthersAreLeft | internal/store/reconciler_store.go:26-29 | a scan leaves alone every order but an expired QR, a refund pending for more than 600 seconds and a payment GS was not told |
| Draining.YoungNoticeIsLeft | internal/reconciler/reconciler.go:122-124 | a notice is left alone while its row is younger than 30 seconds at its turn |
| Draining.StuckAreCorrected | internal/reconciler/reconciler.go:73-91 | when all fit the batch, every expired QR and every older refund is corrected as PVS's number for it says |
| Draining.OldNoticesAreTold | internal/reconciler/reconciler.go:112-130 | when all fit the batch, every untold payment of 30 seconds is noticed and, if GS takes it, marked |
| Draining.ScanDrainsStuck | internal/store/reconciler_store.go:26-29 | with PVS answering, a scan with batch B and U < B unresolvable orders clears at least min(B - U, R) of the R resolvable ones and makes no new one stuck |
| Draining.BacklogDrains | internal/reconciler/reconciler.go:84-91 | so over n scans a fixed backlog shrinks by B - U per scan until only unresolvable orders are left |
| Draining.ScanDrainsNotices | internal/store/order_repo.go:75-95 | with GS accepting, a scan clears min(B, E) of the E overdue notices, because the oldest rows come first |
| Draining.NoticesDrain | internal/reconciler/reconciler.go:119-135 | so E overdue notices are gone after E / B scans, rounded up |
| Draining.ScanIsSerialRun | internal/reconciler/reconciler.go:84-94 | a whole scan, tables and external calls, is a serial run of its corrections followed by its retries, so all laws of serial runs hold of it |
| UpdateBuilder.SetParts | internal/store/order_repo.go:131-138 | for every iteration order the k-th placeholder is paired with the argument at k - 1, with no gap |
| UpdateBuilder.UpdateStatusAndFields | internal/store/order_repo.go:124-153 | for every field map and every iteration order the statement, interpreted on any table, is the direct row update, or is refused exactly when a field collides |
| UpdateBuilder.UpdateStatusGuardedAndFields | internal/store/order_repo.go:174-201 | the same for the conditional statement, whose guard is bound to the expected status |
| UpdateBuilder.BuiltMeans | internal/store/order_repo.go:131-142 | each column's placeholder meets its own value, and the statement is well formed exactly when no caller column collides |
| Joining.JoinString | internal/store/order_repo.go:287-296 | the loop joins the parts with the separator between them only |
| Joining.SplitUndoesJoin | internal/store/order_repo.go:287-296 | the joined SET list reads back as exactly its parts, in order, when no part holds a comma |
| Crockford.EncodeCrockford | internal/logging/ids.go:12-35 | the shifting loops in 64-bit arithmetic compute the base 32 digits of each chunk's value |
| Crockford.LengthLaw | internal/logging/ids.go:26-31 | n bytes give ceil(8n / 5) characters of the alphabet |
| Crockford.AlphabetMeans | internal/logging/ids.go:10 | digit by digit, the alphabet is 0 to 9 and then the capital letters without I, L, O and U |
| Crockford.WholeChunksDecode | internal/logging/ids.go:14-33 | the first 8m characters decode to the first 5m bytes, whatever follows |
| Crockford.OrderPreserved | internal/logging/ids.go:12-35 | inputs that first differ inside a whole chunk keep their dictionary order |
| Crockford.EarlierSortsFirst | internal/logging/ids.go:39-52 | an identifier with an earlier millisecond stamp (modulo 2^48) sorts first, whatever its random bytes |
| Crockford.SameTextIff | internal/logging/ids.go:12-35 | two inputs share their text exactly when they have one length and agree in their whole chunks and in the low 0, 0, 9 or 27 bits of a last chunk of one to four bytes |
| Crockford.InjectiveIffWholeChunks | internal/logging/ids.go:12-35 | different inputs of length n always get different texts if and only if n is a multiple of five |
| Truncate.TruncateString | internal/logging/sanitize.go:101-118 | the result fits the limit, is cut at the largest rune start within it, and valid UTF-8 stays valid and loses at most three bytes to alignment |
| Truncate.PrefixValid | internal/logging/sanitize.go:106-117 | a prefix of valid UTF-8 that ends before a rune start is valid |
| Truncate.CutLosesLittle | internal/logging/sanitize.go:113-117 | in valid UTF-8 a rune start lies within three bytes below any position |
| Sanitizer.SanitizeValue | internal/logging/sanitize.go:62-95 | the traversal gives the same tree for every iteration order of every map, and that tree is exactly what may be logged |
| Sanitizer.KeysMean | internal/logging/sanitize.go:17-34 | a key is treated as one of the eight secret or five large words exactly when it is that word up to the case of each letter |
| Sanitizer.SanitizedIsLogged | internal/logging/sanitize.go:62-99 | "***" under every secret key and the written-out marker under every large one, in any letter case and at any depth, the marker for texts of more than 256 characters, and all else unchanged |
| Sanitizer.SecretsDoNotShow | internal/logging/sanitize.go:66-71 | two bodies that differ only under sensitive keys, at any depth and in any letter case, are logged alike |
| Sanitizer.ShapeIsKept | internal/logging/sanitize.go:62-95 | key sets, array lengths and scalars outside redacted values are kept |
| Sanitizer.NothingLongIsLeft | internal/logging/sanitize.go:87-99 | no text over 256 characters remains anywhere |
| Sanitizer.MarkerStable | internal/logging/sanitize.go:97-99 | marking a marker gives the same marker only for texts of twenty bytes |
| Sanitizer.IdempotentIffStable | internal/logging/sanitize.go:62-99 | sanitizing twice equals sanitizing once if and only if the texts under large-field keys have twenty bytes |
| Money.ParsedCents | internal/service/order_service.go:635-646 | a decimal worth c cents, c up to 2^50, parses to c, or to c - 1 for exactly the amounts of a condition on c alone |
| Money.EveryAmountParses | internal/service/order_service.go:639-644 | every such amount has a float it is read as and a rounded product |
| Money.OneFifteenLosesACent | internal/service/order_service.go:639-645 | "1.15" parses to 114 cents |
| Money.AmountReadsBack | internal/service/order_service.go:423 | the printed amount, read without its point, is the number of cents, with the point before the last two digits |
| Money.BothSeeTheSameAmount | internal/client/pvs/client.go:74 | for every c up to 2^50 the hundredths nearest to the float sent to PVS are c, and print the same as the amount GS is sent by integer arithmetic (internal/service/order_service.go:423) |

## Left out

- HTTP handlers, middleware, configuration, metrics and log contexts: routing and wiring.
- The PVS and GS clients (tokens, signing, rate limits): their answers are the `Env` of a step, unconstrained.
- SQL itself, drivers and NULL scanning: tables are maps with their unique keys, and only the generated UPDATE is a syntax tree, in which a column assigned twice is an error; `third_order_no` as a caller column is an ordinary column of the update.
- Running without a GS client or notifier (both nil): then no notice is ever sent.
- Required fields of requests that are read but never stored (`subject`, `cancelTime`), device fields, the sync log and the pay and order times inside a notice: single-branch facts or text only.
- Trimming and upper-casing of the callback text, and trimming, decimal comma and parsing of the amount text: the model starts from the normalised text and from the correctly rounded value of the decimal.
- The QR lifetime is its default of 180 seconds rather than an option.
- Refund times inside replies, and the two error messages of a query whose numbers do not belong together: only that there is no answer.
- Generation of order numbers, UUIDs and random bytes: assumed fresh, or given.
- JSON parsing and printing around the sanitizer, and lower-casing of letters that cannot turn a key into one of the listed ones.
- Floats from 2^53 on and below the normal range: amounts of 1 to 2^50 cents never reach them.
- The recent-duplicate lookup, the stale-order lookup and the idempotency store: not called by the live flow.
