# Verified model of the operator journals, the export reader, the planner and the publication primitives

This project models four parts of the automation repository in Dafny and proves what they
are relied on for.

* **The operator control plane.** The durable queue of accepted actions, the broker's own
  journal, the dispatcher of systemd jobs and the bridge between them. A journal is a
  directory of write-once records. Each create and each unlink has a fate: done, raised
  with something left behind, or the process died in it. A file can be whole, unreadable,
  or whole but for its final newline. Two views of a directory are kept, as seen and as on
  stable storage, and a power loss keeps what was synced and may drop, keep or tear the
  rest. Histories are arbitrary sequences of events, refused locks included.
  (`Journal`, `QueueRules`, `BrokerRules`, `SystemdAdmission`, `OneSlot`, `QueueInvariant`,
  `QueueSections`, `ControlPlane`, `ControlTheorems`, `JournalHistory`, `Receipts`,
  `CompletionConverse`, `ControlWitnesses`, `OperationQueue`, `ControlBridge`,
  `OperatorRuntime`, `BrokerEffects`, `JournalReadings`, `Replies`.)
* **The export reader.** Branch selection over an untrusted parent graph, normalization,
  paging with a two-part cursor and UTF-8 byte budgets (section 3 of RFC 3629), the
  separate page check, evidence candidates and the archive inventory. (`BranchSelection`,
  `ExportNormalize`, `Utf8Text`, `SourceContract`, `SourceTheorems`, `SourceReader`,
  `SourceChecker`, `SourceGreedy`, `SourceUnits`, `CandidateContract`, `CandidateReader`,
  `ArchiveInventory`, `InventoryCalls`.)
* **The input planner.** The coverage schedule and the write-ahead journal of selections.
  (`PlannerSchedule`, `PlannerJournal`, `PlannerRuns`, `InputPlanner`.)
* **Two crash-safe primitives.** The host runtime transaction over the timers and the
  no-overwrite publication of immutable artifacts. (`RuntimeRules`,
  `RuntimeTransaction`, `RuntimeSuccess`, `ImmutableStore`.)

Code that changes state is a class or a method proved against a function of the old state;
code that computes is a function with lemmas about it. What an operation means is stated
beside its function in other terms: by the files behind a receipt, by what a command makes
of a host, by the rows a batch changes. Where an environment decides an outcome, it is
an input of the event, a fate, or an arbitrary choice.

## What the proofs found

* A receipt can move backward, and the active marker and the history scan can disagree,
  but only when something in view had not been synced and a power loss then took it away,
  or brought a removed marker back: `LostResultReverts`, `MarkerComesBack`,
  `LostRequestWedges`. The exact conditions, on what is synced before the loss, are in
  `ReceiptAcrossAnyPowerLoss` and `ScanAfterAnyPowerLoss`.
* After an effect has run, a settlement refused because the lock is busy leaves the worker
  looking healthy until its next pass, and that is the only way it can
  (`UnnoticedExactlyWhenSettleWasBusy`, `BusySettlementGoesUnnoticed`, `NextPassNotices`).
* A confirmed pause, or a job that was started, can be receipted as indeterminate
  (`BrokerMaySucceedAlone`, `JobMayRunUnreceipted`); exactly when they are not is in
  `CompletedReceiptExactlyWhen` and `JobReceiptExactlyWhen`.
* A lone surrogate anywhere in one exported conversation, in a message that is omitted or
  off the branch too, refuses the whole export, because the revision digest is taken of
  everything (`OmittedTextRefuses`, `UnhashableRefusesAll`). Otherwise what is off the
  branch does not matter (`OffBranchMattersOnlyByHash`).
* The schedule passes over an entry too large for a context without moving the cursor past
  it, so a later entry is selected twice (`OversizeRepeats`); a tail of such entries stops
  coverage for good (`FailsExactlyWhenNothingFits`, `FailureIsPermanent`). The catalog
  never lists files over 128 KiB, so with the constants as they are neither arises
  (`VaultIsCovered`).
* A recipe changed while a selection is pending leaves exactly one live job only under the
  condition of `RecipeChangeLeavesOneJobExactlyWhen`. Otherwise an earlier job stays live
  beside the new one, because it was journalled only as prepared (`PreparedJobStaysLive`)
  or because the change that made it was itself interrupted (`ThirdRecipeLeavesTwoJobs`);
  or, after a change there and back, the wanted job was superseded and none is live
  (`ThereAndBackLeavesNone`).
* If the last directory sync of a finished host update raises, the containment that follows
  disables the timers while no record of them is on disk. The originals are then lost if
  and only if a command changed some timer and the record was not written again, which a
  failed write brings about as well as the end of the process
  (`UpdateLosesExactlyWhen`, `LateFailureLoses`). No other attempt loses them.
* An archive that becomes ready after a later one was committed makes every further
  inventory call for the scope refuse, whatever is published later (`InventoryReady`,
  `Continue`, and `FirstComesLate`, which gets there).

## Model

| member | source | states |
|---|---|---|
| ControlTheorems.ExecutedAtMostOnce | src/obsidian_automation/admin_operation_queue.py:664-836 | Over every history of submissions, claims, executions, settlements, attestations, reconciliations, crashes, lost locks and power losses, each request id is executed at most once and never while an earlier executed request is unsettled |
| ControlTheorems.QueueRefinesOneSlot | src/obsidian_automation/admin_operation_queue.py:711-804 | Every event is one step, or no step, of a machine with one slot and no journal |
| ControlTheorems.RunRefinesOneSlot | src/obsidian_automation/admin_operation_queue.py:664-836 | So every history of the control plane is a history of that machine, begun with nothing begun and nothing settled |
| OneSlot.SlotStepKeepsAtMostOnce | src/obsidian_automation/admin_operation_queue.py:711-746 | That machine never begins an id twice or begins one while another is open |
| ControlTheorems.UnsettledIsActive | src/obsidian_automation/admin_operation_queue.py:476-552 | At every point of every history a request in view that is not over is exactly the one the active marker durably records, and a result is never in view without its claim |
| ControlTheorems.CompletedMeansEffect | src/obsidian_automation/admin_control_bridge.py:58-96 | A receipt of completion for pause or resume means the broker durably recorded the same completion and exactly one command was ever issued for the id, whose effect was then observed |
| ControlTheorems.JobMeansOneStart | src/obsidian_automation/admin_systemd_admission.py:166-231 | A receipt naming a systemd job means exactly one StartUnit request was ever sent for the id, under the recorded boot, and was answered with that job |
| ControlTheorems.FailStopForever | src/obsidian_automation/admin_operation_broker.py:382-504 | Once a command was issued whose completion is not durably recorded, no command is issued again in any continuation; at most one issued command is ever unconcluded |
| ControlTheorems.PendingBlocksForever | src/obsidian_automation/admin_operation_broker.py:382-387 | Whatever occupies the broker's pending name, readable or not, stops every later command: for ever when it is on stable storage, and otherwise until a power loss |
| CompletionConverse.CompletedReceiptExactlyWhen | src/obsidian_automation/admin_control_bridge.py:58-96 | The converse of CompletedMeansEffect, with its exact condition: after any history, a pass that ran a pause or resume to its durable completion leaves a receipt of completion if and only if the broker removed its own marker and its gate was released, the queue's lock was free at settlement, and the result record was left readable |
| ControlWitnesses.BrokerMaySucceedAlone | src/obsidian_automation/admin_control_bridge.py:58-96 | Without that condition it fails: one history in which the broker concluded and the queue's receipt is indeterminate |
| CompletionConverse.JobReceiptExactlyWhen | src/obsidian_automation/admin_systemd_admission.py:166-231 | The converse of JobMeansOneStart, with its exact condition: after any history, a manual run the manager answered with a job is receipted with that job if and only if the path is valid, the boot was unchanged and readable, the process lived on, the lock was free at settlement, and the result record was left readable |
| ControlWitnesses.JobMayRunUnreceipted | src/obsidian_automation/admin_systemd_admission.py:166-231 | Without that condition it fails: one history in which the manager answered with a job and the receipt is indeterminate |
| ControlPlane.RunKeepsInvariant | src/obsidian_automation/admin_operation_queue.py:477-552 | The joint invariant of both journals, the worker's hand and the effects issued holds at every crash point of every history |
| QueueInvariant.StoreRecordKeepsCore | src/obsidian_automation/admin_operation_broker.py:250-280 | Exclusive creation of a record keeps the queue's journal invariant, whatever is left if it fails or the process dies in it |
| QueueInvariant.StoreMarkerKeepsCore | src/obsidian_automation/admin_operation_queue.py:682-697 | Creating the active marker keeps the journal invariant at every crash point |
| QueueInvariant.UnlinkMarkerKeepsCore | src/obsidian_automation/admin_operation_queue.py:197-203 | Removing the active marker of a closed request keeps it, done, undone or durable only later |
| QueueInvariant.PowerLossKeepsCore | src/obsidian_automation/admin_operation_broker.py:250-280 | So does a power loss that drops or tears whatever was not synced |
| QueueSections.SubmitKeepsCore | src/obsidian_automation/admin_operation_queue.py:664-697 | Submission keeps the journal invariant and overwrites nothing |
| QueueSections.ClaimKeepsCore | src/obsidian_automation/admin_operation_queue.py:711-746 | So does a claim; an id that is granted was never executed before and joins the history durably claimed |
| QueueSections.SettleKeepsCore | src/obsidian_automation/admin_operation_queue.py:748-804 | So does settlement, which closes the request exactly when a durable outcome other than indeterminate is on record |
| QueueSections.AttestKeepsCore | tools/reconcile_admin_operator_queue.py:424-455 | So does the root tool's evidence record |
| QueueSections.ReconcileKeepsCore | src/obsidian_automation/admin_operation_queue.py:554-662 | So does human reconciliation, which closes only a request that was executed |
| BrokerRules.BrokerIsFailStop | src/obsidian_automation/admin_operation_broker.py:462-504 | In the broker's journal at most one issued command lacks a durable completion, and it is the one in pending.json |
| BrokerRules.ApplyKeepsInvariant | src/obsidian_automation/admin_operation_broker.py:358-510 | Applying an operation keeps the broker's invariant: one command per id, recorded pending before it is issued |
| BrokerRules.ConfirmedIsConcluded | src/obsidian_automation/admin_operation_broker.py:462-504 | A confirmed effect implies a durable completed result |
| BrokerEffects.ObeyedIsCompleted | src/obsidian_automation/admin_operation_broker.py:85-95 | The broker asks for the right thing: on a host that obeys, where disable leaves the timer paused, enable leaves it scheduled and start runs the service to success, an admitted pause, resume or manual run issues exactly one command and is recorded and reported completed |
| BrokerEffects.ShownIsWhatTheCommandMakes | src/obsidian_automation/admin_operation_broker.py:464-486 | Wherever a request counts as completed, what was observed afterwards is what the command issued for it makes of the host |
| BrokerEffects.CompletedIsAChange | src/obsidian_automation/admin_operation_broker.py:474-486 | What is reported completed is a change seen under one boot: scheduled before and paused after, paused before and scheduled after, or a run that began later and succeeded |
| BrokerEffects.RecordsSayWhatWasSeen | src/obsidian_automation/admin_operation_broker.py:453-463 | Before the command the journal durably says what was about to be done, when, under which boot and when the service last started, and the marker says the same while it is there |
| BrokerEffects.OutcomeIsRecorded | src/obsidian_automation/admin_operation_broker.py:487-502 | No command goes without an outcome on record unless storing it failed: what was not confirmed is recorded as unknown and the marker stays |
| BrokerEffects.ApplyIsGuarded | src/obsidian_automation/admin_operation_broker.py:391-442 | Whatever the action, no command is issued unless the gate is held, the snapshot is current before and under it and agrees with the host, the timer is in the state the action is for, and for a manual run the last one did not fail and the workflow is quiescent |
| BrokerEffects.EveryCommandGuarded | src/obsidian_automation/admin_operation_broker.py:391-442 | Over every history, every command was issued in an event in which all of that held |
| BrokerEffects.EveryStartGuarded | src/obsidian_automation/admin_systemd_admission.py:185-218 | Over every history, every StartUnit request was sent with the gate held, the workflow chain idle, the boot readable, and the timer observed paused and not failed, as the snapshot says |
| JournalHistory.ScanAgreesWithMarker | src/obsidian_automation/admin_operation_queue.py:477-552 | In every faithful history an absent active marker means the full-history scan succeeds, up to its entry bound: the two guards agree |
| JournalHistory.ScanAfterPowerLoss | src/obsidian_automation/admin_operation_queue.py:477-552 | After a given power loss that leaves no active marker the history is settled if and only if that loss took no record out of view and tore none |
| JournalHistory.ScanAfterAnyPowerLoss | src/obsidian_automation/admin_operation_queue.py:477-552 | Known before the loss: in a faithful history whose marker is not on stable storage, the history is settled after every power loss that leaves no marker if and only if every other record in view is synced |
| JournalHistory.FaithfulIsKept | src/obsidian_automation/admin_operation_queue.py:334-435 | Requests of executed operations, the order of evidence and proof, and human closings stay on record through every faithful history |
| ControlWitnesses.LostRequestWedges | src/obsidian_automation/admin_operation_queue.py:682-697 | The two guards can disagree: a request record whose fsync failed, lost by a later power loss, leaves a free slot and a scan that refuses everything |
| Receipts.ReceiptsMoveForward | src/obsidian_automation/admin_operation_queue.py:437-475 | Between any two points of any history receipts go accepted, processing, then one fixed verdict, waiting for cleanup before cleaned up, and never back, as long as no power loss in between takes a record out of view or finds a removed marker still on stable storage; without power losses that is always so |
| Receipts.ReceiptAcrossPowerLoss | src/obsidian_automation/admin_operation_queue.py:437-475 | Across a given power loss a readable receipt is in order if and only if the claim and the result that were in view are still in view and a cleaned up request did not get its marker back |
| Receipts.ReceiptAcrossAnyPowerLoss | src/obsidian_automation/admin_operation_queue.py:437-475 | Known before the loss: a receipt cannot move back across the next power loss if and only if its claim and its result are synced, unless its marker is in neither view, and the removal of a cleaned up request's marker was synced |
| Receipts.DurableVerdictIsFinal | src/obsidian_automation/admin_operation_queue.py:284-321 | A verdict whose record is durable is the one every later receipt announces, in every continuation, power losses included |
| Receipts.DurableResultStays | src/obsidian_automation/admin_operation_broker.py:250-280 | A durable result record is never changed or lost again |
| ControlWitnesses.LostResultReverts | src/obsidian_automation/admin_operation_queue.py:437-475 | A receipt can move backward: a result whose fsync failed is announced and a power loss takes it away |
| ControlWitnesses.MarkerComesBack | src/obsidian_automation/admin_operation_queue.py:197-203 | A power loss that takes no record can move a receipt back too: a marker whose removal was not synced comes back, and completed turns into completed with cleanup pending |
| JournalHistory.NoPowerLossIsFaithful | src/obsidian_automation/admin_operation_queue.py:664-836 | Only a power loss can take a record out of view, so every history without one is faithful |
| Receipts.AcknowledgedStaysIndeterminate | src/obsidian_automation/admin_operation_queue.py:437-475 | A request acknowledged by a human keeps its indeterminate receipt for ever, whatever later requests are active |
| Receipts.ReconciliationResumes | src/obsidian_automation/admin_operation_queue.py:600-662 | A reconciliation interrupted between its proof and the removal of the marker can be repeated at once with the same decision and ends in the same view |
| Receipts.ReconciliationResumesLater | src/obsidian_automation/admin_operation_queue.py:554-662 | However much happens in between, as long as no record is lost, the same decision goes through if and only if no other request holds the slot and the journal is within its entry bound; it then leaves the journal as it is, without a marker |
| JournalReadings.ReceiptExactlyWhen | src/obsidian_automation/admin_operation_queue.py:437-475 | Each of the seven receipts has its files: which of marker, claim, result, evidence and acknowledgement must be there and say what, and which must not, if and only if the receipt is given |
| JournalReadings.ScanExactlyWhen | src/obsidian_automation/admin_operation_queue.py:477-552 | New work is authorised if and only if the directory is within its bound and every record belongs to a request that is over: claimed, with a known outcome and no acknowledgement, or with an unknown one acknowledged byte for byte |
| JournalReadings.AttestedOnRecords | tools/reconcile_admin_operator_queue.py:434-455 | An attestation quotes the four records as they are, of a claimed manual run whose outcome is unknown, and is durable |
| JournalReadings.ReconcileWritesOnlyWhenWarranted | src/obsidian_automation/admin_operation_queue.py:554-640 | A reconciliation writes nothing, not even its acknowledgement, unless the human approved exactly the evidence on disk, attested for this run with this approval under this boot, and the marker is still the request byte for byte |
| JournalReadings.ReconciledOnEvidence | src/obsidian_automation/admin_operation_queue.py:554-662 | One that succeeds leaves an acknowledgement bound byte for byte to the records it was given on |
| Replies.SubmitTellsTheJournal | src/obsidian_automation/admin_operation_queue.py:664-697 | The receipt of a submission is the one the journal then shows, for the operation submitted |
| Replies.AcceptedExactlyWhen | src/obsidian_automation/admin_operation_queue.py:664-697 | A new operation is accepted if and only if it is enabled, the lock and the slot are free, the history is settled and both records became durable; it is then receipted as accepted |
| Replies.ResubmissionIsAnswered | src/obsidian_automation/admin_operation_queue.py:676-680 | A request already on record is answered from the record as it stands now, and nothing is written |
| Replies.SubmitRefusesTruly | src/obsidian_automation/admin_operation_queue.py:664-697 | Every refusal of a submission is true of it, and only a failed write leaves anything behind |
| Replies.GrantedExactlyWhen | src/obsidian_automation/admin_operation_queue.py:711-746 | A claim is granted if and only if the operation is accepted, unclaimed and unsettled and its claim became durable |
| Replies.SettleTellsTheJournal | src/obsidian_automation/admin_operation_queue.py:748-804 | The receipt of a settlement is the one the journal then shows; it succeeds if and only if the verdict is one the action may have, the result became durable and, unless the outcome is unknown, the slot was given up |
| Replies.AttestTellsTheJournal | tools/reconcile_admin_operator_queue.py:424-455 | After an attestation the journal still shows the request as indeterminate; its refusals are true |
| Replies.ReconcileTellsTheJournal | src/obsidian_automation/admin_operation_queue.py:554-662 | The receipt of a reconciliation is the one the journal then shows, with the slot free |
| Replies.PassTellsTheJournal | src/obsidian_automation/admin_operation_queue.py:806-837 | What the worker is told of a pass is what the journal then shows of the operation it ran: a success is a known outcome and clears the failure flag, an unknown outcome is reported as an indeterminate effect and sets it |
| Replies.IdlePassKeepsTheFlag | src/obsidian_automation/admin_operator_runtime.py:321-346 | A pass with nothing active changes nothing and leaves the failure flag as it was |
| Replies.VerdictIsHonest | src/obsidian_automation/admin_operation_queue.py:806-837 | The verdict recorded is completed exactly for a confirmed pause or resume, and a job exactly for the manager's own answer to this very operation |
| OperationQueue.PriorWorkFullySettled | src/obsidian_automation/admin_operation_queue.py:477-552 | The two loops over the directory decide exactly the scan predicate |
| OperationQueue.CheckRequest | src/obsidian_automation/admin_operation_queue.py:515-552 | One request's records pass exactly when it is settled or validly acknowledged |
| OperationQueue.DurableOperationQueue.SubmitOperation | src/obsidian_automation/admin_operation_queue.py:664-697 | The journal and the reply after a submission, for every outcome of every create; what the reply must be is proved in Replies |
| OperationQueue.DurableOperationQueue.ReadReceipt | src/obsidian_automation/admin_operation_queue.py:699-709 | A receipt is read from the journal alone and changes nothing |
| OperationQueue.DurableOperationQueue.ClaimForWorker | src/obsidian_automation/admin_operation_queue.py:711-746 | The journal and the reply after a claim |
| OperationQueue.DurableOperationQueue.SettleOperation | src/obsidian_automation/admin_operation_queue.py:748-804 | The journal and the reply after a settlement |
| OperationQueue.DurableOperationQueue.ManuallyReconcileUnknown | src/obsidian_automation/admin_operation_queue.py:554-662 | The journal and the reply after a human reconciliation |
| ControlBridge.OperationBroker.Apply | src/obsidian_automation/admin_operation_broker.py:358-510 | The broker's journal, the commands issued and the reply after one application, step by step; what the commands must be is proved in BrokerEffects |
| ControlBridge.RunOnceJobDispatcher.SendStart | src/obsidian_automation/admin_systemd_admission.py:166-231 | The StartUnit request sent and the admission returned by one dispatch |
| ControlBridge.RunAcceptedControlOnce | src/obsidian_automation/admin_control_bridge.py:23-96 | One worker pass over both journals does exactly what claim, execution and settlement do in turn |
| OperatorRuntime.OperatorWorker.ProcessPendingOnce | src/obsidian_automation/admin_operator_runtime.py:321-346 | One pass of the worker thread leaves both journals and the effects as one claim, execution and settlement do, and sets, keeps or clears the failure flag by the reply |
| OperatorRuntime.OpenRequestBlocksClaims | src/obsidian_automation/admin_operation_queue.py:711-746 | In every reachable state an executed request that is not over stops every later claim |
| OperatorRuntime.NextPassNotices | src/obsidian_automation/admin_operator_runtime.py:321-346 | So a request left open sets the failure flag at the next pass at the latest |
| OperatorRuntime.UnnoticedExactlyWhenSettleWasBusy | src/obsidian_automation/admin_operator_runtime.py:329-331 | A pass leaves an executed request open with the flag still clear if and only if the lock was busy at settlement |
| ControlWitnesses.BusySettlementGoesUnnoticed | src/obsidian_automation/admin_operator_runtime.py:321-346 | And it happens: a pass that paused a timer, found the lock busy at settlement and left the flag clear |
| Utf8Text.SizeBounds | src/obsidian_automation/chatgpt_export_source.py:158-167 | Every code point takes 1 to 4 octets |
| SourceReader.ValidateConversation | src/obsidian_automation/chatgpt_export_source.py:96-155 | Accepts exactly the valid conversations; each refusal is true of the conversation it refuses |
| SourceReader.Prefix | src/obsidian_automation/chatgpt_export_source.py:158-167 | The longest prefix that fits: any end fits in the limit if and only if it is not past the one returned |
| SourceReader.FillUnit | src/obsidian_automation/chatgpt_export_source.py:232-270 | One unit takes whole messages and at most one cut, at least one code point, and nothing more fits; the branch for no slice at all cannot be reached |
| SourceReader.BuildSourceContextPage | src/obsidian_automation/chatgpt_export_source.py:195-309 | Builds a page exactly when its arguments are legal, from the cursor given or else from the start; the page is one the independent check accepts, within every bound, and takes all the text the bounds allow |
| SourceGreedy.GreedyPageIsUnique | src/obsidian_automation/chatgpt_export_source.py:230-309 | Only one accepted page from a cursor takes all the text the bounds allow, so the builder's contract determines its result |
| SourceGreedy.GreedyKeepsTheBounds | src/obsidian_automation/chatgpt_export_source.py:232-270 | Every unit of such a page holds at least one octet and keeps max_segments and max_unit_bytes |
| SourceChecker.ValidateSourceContextPage | src/obsidian_automation/chatgpt_export_source.py:312-419 | Passes a page exactly when it meets every demand of the contract; what those demands mean is proved in SourceTheorems, SourceUnits and CandidateContract.SlicesNameTheirAuthors |
| SourceTheorems.AcceptedPageIsSpan | src/obsidian_automation/chatgpt_export_source.py:350-419 | An accepted page, however produced, is exactly the conversation's text between its cursors, glyph by glyph with message and offset; it moves forward unless the text is finished; complete means finished; its byte count is the text's |
| SourceTheorems.ChainIsSpan | src/obsidian_automation/chatgpt_export_source.py:350-419 | Accepted pages chained by cursor compose to one contiguous span |
| SourceTheorems.PagingIsLossless | src/obsidian_automation/chatgpt_export_source.py:230-309 | Following next_cursor from the start to a complete page gives the whole text with no gap, overlap or change of attribution |
| SourceTheorems.PagingTerminates | src/obsidian_automation/chatgpt_export_source.py:230-309 | A chain of pages none of which is complete has no more pages than the text has code points left |
| SourceTheorems.FlatKeepsMessages | src/obsidian_automation/chatgpt_export_source.py:195-309 | Every message's text can be read back whole from the flat text |
| SourceTheorems.AcceptedPageIsItsCuts | src/obsidian_automation/chatgpt_export_source.py:312-419 | Two accepted pages from one cursor with the same cuts are equal in every field: nothing on a page is left unchecked |
| SourceUnits.UnitNeighbours | src/obsidian_automation/chatgpt_export_source.py:312-419 | A unit of an accepted page names the digest of the message before its first slice, and of the one its reader goes on with, exactly when there is one |
| SourceUnits.UnitIdIsItsReading | src/obsidian_automation/chatgpt_export_source.py:174-191 | Units of two accepted pages have the same identity if and only if they show the same text at the same places of the same content, whatever the opaque node and message identifiers are |
| SourceUnits.ContentIsWhatIsSaid | src/obsidian_automation/chatgpt_export_source.py:140-155 | Two valid conversations have the same content digest if and only if they are the same conversation saying the same in the same roles and kinds, in order |
| SourceUnits.ValidIsReadable | src/obsidian_automation/chatgpt_export_source.py:96-155 | A valid conversation is named, bounded, and made of named, encodable messages of known authors and kinds |
| SourceUnits.PageClaimsNothing | src/obsidian_automation/chatgpt_export_source.py:312-419 | Nothing on an accepted page is authorised for anything; its header, scope, source, coverage and byte counts are the conversation's own |
| CandidateReader.SafeProposal | src/obsidian_automation/chatgpt_export_candidates.py:124-149 | A proposal is bound exactly when it quotes an existing slice correctly and its texts are safe; each refusal is true of it |
| CandidateReader.BuildCandidateBatch | src/obsidian_automation/chatgpt_export_candidates.py:207-252 | A batch is built exactly from legal proposals on an accepted page |
| CandidateReader.ValidateCandidateBatch | src/obsidian_automation/chatgpt_export_candidates.py:255-320 | A batch passes exactly when some legal proposals build it: every built batch passes unchanged and nothing else does |
| CandidateReader.GenuineHasOneOrigin | src/obsidian_automation/chatgpt_export_candidates.py:283-320 | The proposals behind an accepted batch can be read off the batch itself, and rebuild it |
| CandidateReader.BatchNamesItsProposals | src/obsidian_automation/chatgpt_export_candidates.py:283-320 | Reading a built batch back gives the proposals it was built from |
| CandidateContract.CandidatesAreGrounded | src/obsidian_automation/chatgpt_export_candidates.py:152-204 | Every excerpt of an accepted batch is the original message's text between its recorded offsets, under its true author: a user report if and only if a user wrote it, an assistant claim if and only if the assistant did |
| CandidateContract.SlicesNameTheirAuthors | src/obsidian_automation/chatgpt_export_source.py:170-171 | Every slice of an accepted page, however produced, is attributed to the user if and only if the user wrote the message it is cut from, and to the assistant if and only if the assistant did |
| CandidateContract.SafeIsPresentable | src/obsidian_automation/chatgpt_export_candidates.py:112-121 | A text is safe exactly when something in it is visible, it holds no NUL, and it encodes within its bound |
| CandidateContract.CandidatesAreAccountable | src/obsidian_automation/chatgpt_export_candidates.py:173-204 | Every candidate stands for its conversation and scope, asks for review only, and its texts are presentable and of a known kind |
| CandidateContract.BatchStatesItsTotals | src/obsidian_automation/chatgpt_export_candidates.py:242-252 | A batch states the octets its excerpts and summaries take, within the bounds, and claims no authority |
| CandidateContract.IdentityIsTheClaim | src/obsidian_automation/chatgpt_export_candidates.py:159-177 | Two candidates have the same anchor if and only if they quote the same place of the same unit, and the same identity if and only if they also say the same of it under the same kind |
| CandidateContract.CandidatesAreDistinct | src/obsidian_automation/chatgpt_export_candidates.py:229-243 | No two candidates of an accepted batch share an evidence anchor or an identity |
| CandidateContract.SlicesDisjoint | src/obsidian_automation/chatgpt_export_source.py:382-398 | Different slices of an accepted page never overlap |
| BranchSelection.SelectedPath | src/obsidian_automation/chatgpt_export_normalize.py:105-140 | Returns the branch, with its unverified links counted, exactly when there is one, for any mapping, circular or malformed; a refusal is true of the node the climb stopped at |
| BranchSelection.BranchIsConsistent | src/obsidian_automation/chatgpt_export_normalize.py:105-140 | Each node of a branch is in the mapping under the identifier it states, names its predecessor as its parent and is listed by it if it lists its children |
| BranchSelection.PathIsUnique | src/obsidian_automation/chatgpt_export_normalize.py:105-140 | Parent links admit at most one duplicate-free root-to-current path |
| BranchSelection.PathFits | src/obsidian_automation/chatgpt_export_normalize.py:105-140 | It is no longer than the mapping has nodes |
| BranchSelection.Chain | src/obsidian_automation/chatgpt_export_inspect.py:163-179 | The inspector's walk resolves exactly when such a path exists, and counts its nodes |
| BranchSelection.BranchResolves | src/obsidian_automation/chatgpt_export_inspect.py:163-179 | Where a branch is selected the inspector follows the same path, of the same length |
| ExportNormalize.KeptIsSound | src/obsidian_automation/chatgpt_export_normalize.py:143-212 | A message that is kept has visible, encodable, bounded text and its own digest |
| ExportNormalize.CollectMessages | src/obsidian_automation/chatgpt_export_normalize.py:226-244 | The loop over the branch keeps and omits exactly what each node's own rules say, and fails exactly on a bad node or a repeated message id |
| ExportNormalize.JoinConsists | src/obsidian_automation/chatgpt_export_normalize.py:200 | The text of a message is its parts whole and in order, each readable back at its own offset, with exactly one line feed between neighbours and nothing else |
| ExportNormalize.FirstGroundDecides | src/obsidian_automation/chatgpt_export_normalize.py:143-212 | A message is kept if and only if none of nineteen grounds applies; otherwise its reason or fault is the first that does, each of them read off the node alone |
| ExportNormalize.OmissionsAreCounted | src/obsidian_automation/chatgpt_export_normalize.py:229-254 | Coverage counts each reason as often as it occurs on the branch |
| ExportNormalize.UnverifiedAreCounted | src/obsidian_automation/chatgpt_export_normalize.py:131-132 | Coverage counts exactly the links of the branch whose parent lists no children |
| ExportNormalize.StatedIdsAgree | src/obsidian_automation/chatgpt_export_normalize.py:218-220 | Every identifier an accepted conversation states is the one it is accepted under, and it states one |
| ExportNormalize.AcceptedIsEncodable | src/obsidian_automation/chatgpt_export_normalize.py:259 | No part of any message of an accepted conversation holds a surrogate, whether it is kept or not |
| ExportNormalize.KeptAreTheShown | src/obsidian_automation/chatgpt_export_normalize.py:143-212 | What is kept along a branch is what is in plain sight on it and can be stored: the same nodes in the same order, each with its own parts joined by single line feeds, under its own author, identifiers and kind |
| ExportNormalize.NormalizeOne | src/obsidian_automation/chatgpt_export_normalize.py:215-260 | A conversation is accepted exactly when it has an acceptable branch and the whole of it, omitted and off-branch parts included, can be encoded for its revision digest; it is then what that branch says |
| ExportNormalize.OffBranchMattersOnlyByHash | src/obsidian_automation/chatgpt_export_normalize.py:245-260 | What lies off the branch changes nothing that is read off it, and acceptance only by whether the whole can be encoded |
| ExportNormalize.UnhashableRefusesAll | src/obsidian_automation/chatgpt_export_normalize.py:259-313 | A conversation that cannot be encoded refuses the whole export it is part of |
| ExportNormalize.OmittedTextRefuses | src/obsidian_automation/chatgpt_export_normalize.py:85-90 | It happens: one lone surrogate in a message that is omitted refuses a conversation whose branch is in order, and its export |
| ExportNormalize.NodesAreConserved | src/obsidian_automation/chatgpt_export_normalize.py:224-254 | Kept and omitted nodes make up the path |
| ExportNormalize.AcceptedIsValid | src/obsidian_automation/chatgpt_export_normalize.py:215-260 | Path and off-branch nodes make up the mapping; an accepted conversation passes the source contract's validation if and only if it is within its two size limits |
| ExportNormalize.Consume | src/obsidian_automation/chatgpt_export_normalize.py:287-313 | An export is accepted exactly when some batch within the limits has one conversation for every item that is not an empty slot, in order, with distinct ids, each from an acceptable branch of an object that can be encoded; that batch is returned |
| ExportNormalize.BatchIsValidSource | src/obsidian_automation/chatgpt_export_normalize.py:287-313 | Every conversation of an accepted batch passes the source contract's own validation when the node limit is at most 500000, as the default is |
| PlannerSchedule.FitEntries | src/obsidian_automation/ai_input_planner.py:857-873 | Selects the longest run within count and bytes from the first entry that fits at all |
| PlannerSchedule.FitIsPrefix | src/obsidian_automation/ai_input_planner.py:857-873 | The selection is a prefix of its candidates if and only if the first of them fits or none does |
| PlannerSchedule.PhaseIsRemainder | src/obsidian_automation/ai_input_planner.py:927-928 | The cycle's phase is its remainder by the period |
| PlannerSchedule.OneCycle | src/obsidian_automation/ai_input_planner.py:904-976 | A coverage turn takes the next entries of the epoch's permutation; a random turn leaves epoch and cursor alone |
| PlannerSchedule.NewCatalogStartsOver | src/obsidian_automation/ai_input_planner.py:924-925 | A new catalog is worked through from the start of its first epoch, whatever came before |
| PlannerSchedule.CoverageFollowsThePermutation | src/obsidian_automation/ai_input_planner.py:904-976 | Over any run, with any random cycles in between, what an epoch's coverage cycles select is exactly the stretch of its permutation between where the run found it and where it left it |
| PlannerSchedule.EpochCoversTheCatalog | src/obsidian_automation/ai_input_planner.py:904-976 | An epoch begun and left within a run covers every entry exactly as often as the catalog lists it |
| PlannerSchedule.PeriodsOfTurns | src/obsidian_automation/ai_input_planner.py:927-928 | k periods hold k times the coverage cycles, wherever they begin |
| PlannerSchedule.EpochEndsInTime | src/obsidian_automation/ai_input_planner.py:904-976 | An epoch with n entries left ends within k periods for any k with k times coverage_cycles at least n |
| PlannerSchedule.ScanListsExactly | src/obsidian_automation/ai_input_planner.py:302-311 | The catalog lists exactly the active notes of admissible size, and each of them fits a context; whether front matter and project status make a note active is one flag |
| PlannerSchedule.VaultIsCovered | src/obsidian_automation/ai_input_planner.py:360-425 | So over any vault, with no assumption on the sizes of its notes, no turn fails and an epoch begun and left in a run selects every active note of admissible size |
| PlannerSchedule.FailsExactlyWhenNothingFits | src/obsidian_automation/ai_input_planner.py:924-957 | From any state, at the end of an epoch and under a new catalog too, a turn fails if and only if it is a coverage turn and everything left of the epoch it draws on is larger than a context |
| PlannerSchedule.FailureIsPermanent | src/obsidian_automation/ai_input_planner.py:955-957 | A failed turn stores nothing, so it fails again while the catalog stays as it is |
| PlannerSchedule.OversizeRepeats | src/obsidian_automation/ai_input_planner.py:857-873 | With an entry too large at the cursor, the entry after it is selected twice |
| PlannerSchedule.SelectionIsLongestRun | src/obsidian_automation/ai_input_planner.py:857-976 | Every selection is the longest run within both limits of what its turn draws from, the order drawn for a random cycle or what the epoch still has, labelled with its own epoch and cycle |
| PlannerJournal.EverySelectionAdvancesOnce | src/obsidian_automation/ai_input_planner.py:1133-1319 | Over every schedule of calls stopped anywhere, each journalled selection moves the state exactly once, to the state journalled with it, before anything else moves it or is journalled |
| PlannerJournal.RecoveryIsNeverAmbiguous | src/obsidian_automation/ai_input_planner.py:1173-1200 | With a selection pending the stored state is its before or its after and not both, and recovery always finishes it unless the input mode was changed |
| PlannerJournal.OneJobPerSelection | src/obsidian_automation/ai_input_planner.py:1241-1319 | Under one recipe every selection that moved the state has its one job, its cadence record and both projections, and no job is superseded |
| PlannerJournal.FinishedInItsOwnMode | src/obsidian_automation/ai_input_planner.py:1151-1173 | A pending selection is finished if and only if its own mode is wanted: for a semantic one, its own policy over its own index or the active one |
| PlannerJournal.CadenceNeverGoesBack | src/obsidian_automation/ai_input_planner.py:1183-1188 | The cadence record never goes back, whatever is recovered when and wherever calls are stopped |
| PlannerRuns.CrashesKeepToTheSchedule | src/obsidian_automation/ai_input_planner.py:1133-1319 | Over every schedule of calls stopped anywhere under an unchanged catalog, the state is where a run of the schedule has come to, one choice for each time it moved |
| PlannerRuns.EpochCoveredDespiteCrashes | src/obsidian_automation/ai_input_planner.py:904-976 | So an epoch begun and left by calls stopped anywhere still covers every entry of the catalog exactly as often as it lists it |
| PlannerJournal.RecipeChangeLeavesOneJobExactlyWhen | src/obsidian_automation/ai_input_planner.py:1241-1272 | A recovery under any recipe, equal or changed, leaves the job of that recipe as the only live one of its context if and only if every live job of the context is that job or the one journalled as submitted, and that job was not superseded earlier; once the state has moved it leaves the jobs alone |
| PlannerJournal.RunLeavesOneJobExactlyWhen | src/obsidian_automation/ai_input_planner.py:1133-1319 | The same after every run of calls stopped anywhere |
| PlannerJournal.ThirdRecipeLeavesTwoJobs | src/obsidian_automation/ai_input_planner.py:1241-1272 | A run in which it fails: a recovery under a second recipe stopped after superseding the first job and making its own leaves that one live beside the job of a third recipe |
| PlannerJournal.PreparedJobStaysLive | src/obsidian_automation/ai_input_planner.py:1241-1272 | Another: a job made but journalled only as prepared stays live beside that of the next recipe |
| PlannerJournal.ThereAndBackLeavesNone | src/obsidian_automation/ai_input_planner.py:1241-1272 | Another: after a change there and back the wanted job is superseded and none is live |
| PlannerJournal.FinishEffect | src/obsidian_automation/ai_input_planner.py:1727-1788 | An uninterrupted submission ends with the job made, announced and recorded, the state moved and the journal clear |
| InputPlanner.Planner.RecoverPendingSubmission | src/obsidian_automation/ai_input_planner.py:1133-1319 | What is on disk after a recovery that ends after any number of its effects |
| InputPlanner.Planner.Plan | src/obsidian_automation/ai_input_planner.py:1436-1800 | What is on disk after a call that ends after any number of its effects |
| RuntimeRules.PrepareKeeps | tools/host_runtime_lifecycle.py:403-456 | For every outcome of every query, command and write: no timer is changed before the originals are on record, all are inert on return, and an earlier attempt's record is taken over only for the same target |
| RuntimeRules.StageKeeps | tools/host_runtime_lifecycle.py:458-534 | The record keeps the originals whatever staging does to the timers, and all are inert on return |
| RuntimeRules.RestoreKeeps | tools/host_runtime_lifecycle.py:536-558 | Returns only with every timer as it was, and reports activation if and only if one was on |
| RuntimeRules.RemoveKeeps | tools/host_runtime_lifecycle.py:560-573 | The record is removed only with every timer as it was; if removing it raises, it is still there |
| RuntimeRules.SweptAt | tools/host_runtime_lifecycle.py:389-401 | The disabling loop reaches each timer exactly while the process lives, whatever happened to the others, and succeeds only if all were seen inert |
| RuntimeRules.ExitLosesExactlyWhen | tools/host_runtime_lifecycle.py:576-587 | Containment after a failure loses the originals if and only if the record is gone, some command that was reached left a timer other than it was, and the record was not written again, because the process died first or the write failed unseen |
| RuntimeRules.FailedIsTruthful | tools/host_runtime_lifecycle.py:576-587 | A failed attempt whose record was written says contained if and only if every timer was seen inert, and then every timer is; the record still holds the originals |
| RuntimeRules.UpdateLosesExactlyWhen | tools/production_bootstrap.py:742-766 | A whole attempt loses the originals if and only if everything went through to the last directory sync, that sync raised, and the containment that followed forgot them; it succeeds only with every timer back and the record gone |
| RuntimeRules.ContainedLosesWhenAnyOn | tools/host_runtime_lifecycle.py:576-587 | A containment that saw every timer inert but could not write the record loses the originals if and only if some timer was on |
| RuntimeRules.ForgottenWasOn | tools/host_runtime_lifecycle.py:389-401 | If the commands do no more than switch off, a timer is lost if and only if it was changed, and then it was on |
| RuntimeRules.LateFailureLoses | tools/host_runtime_lifecycle.py:573-582 | It happens, with and without the process dying: one timer, on, and a last directory sync that raises |
| RuntimeRules.OriginalsSurviveExactlyWhen | tools/host_runtime_lifecycle.py:403-587 | Over any sequence of failed, crashed and successful attempts and operator changes the originals are recoverable throughout if and only if no attempt loses them in that way |
| RuntimeSuccess.SucceedsExactlyWhenFlawless | tools/production_bootstrap.py:742-766 | An update succeeds if and only if nothing goes wrong: every query, command, smoke check, write and sync returned, every timer was seen inert twice and then read back as it was, and an earlier record was of the same target |
| RuntimeSuccess.FirstRecordDescribes | tools/host_runtime_lifecycle.py:288-300 | Without an earlier record, the one written first says of every timer whether it existed, was enabled and was active |
| RuntimeTransaction.Transaction.TakeSnapshot | tools/host_runtime_lifecycle.py:288-300 | The loop over the timers describes every one or stops at the first that it cannot |
| RuntimeTransaction.Transaction.DisableAll | tools/host_runtime_lifecycle.py:389-401 | The loop disables, reads back and goes on, timer by timer, as the fates say |
| RuntimeTransaction.Transaction.PrepareUpdate | tools/host_runtime_lifecycle.py:403-456 | Timers, record and memory after preparation, for every outcome of each of its steps |
| RuntimeTransaction.Transaction.StageAndSmokeUnits | tools/host_runtime_lifecycle.py:458-534 | The same after staging and smoke checks |
| RuntimeTransaction.Transaction.RestoreTimers | tools/host_runtime_lifecycle.py:536-558 | The same after the loop that puts every timer back and reads it back |
| RuntimeTransaction.Transaction.FinishUpdate | tools/host_runtime_lifecycle.py:560-574 | The same after the record is removed and the directory synced |
| RuntimeTransaction.Transaction.ExitUpdate | tools/host_runtime_lifecycle.py:576-587 | The same after the containment of a failed attempt |
| RuntimeTransaction.UpdateHost | tools/production_bootstrap.py:742-766 | Timers and record after one whole attempt, contained if it raised |
| ImmutableStore.FinalIsWhole | src/obsidian_automation/artifact_lifecycle.py:239-347 | Under every interleaving of writers, failures, crashes and power losses the final name is absent or holds one writer's complete, stable bytes |
| ImmutableStore.PublishedStaysExactlyWhen | src/obsidian_automation/artifact_lifecycle.py:190-210 | A step leaves published bytes alone, unless and only unless it is a power loss that drops a directory entry not yet synced |
| ImmutableStore.DurableStaysForever | src/obsidian_automation/artifact_lifecycle.py:190-210 | Once its entry is stable the bytes under the final name never change again |
| ImmutableStore.ReturnedIsDurable | src/obsidian_automation/artifact_lifecycle.py:239-347 | A writer that returned has its own bytes under the final name, stable in content and entry, for ever, and its staged name will not come back |
| ImmutableStore.SuccessesAgree | src/obsidian_automation/artifact_lifecycle.py:239-347 | Writers of different bytes cannot both succeed, however far apart they run |
| ImmutableStore.RunningOnEnds | src/obsidian_automation/artifact_lifecycle.py:239-347 | From any reachable state a writer that runs on without a failure ends and leaves no staged name: it returns if and only if the final name is free or holds its bytes, and is refused if and only if it holds others |
| ImmutableStore.RefusedForOtherBytes | src/obsidian_automation/artifact_lifecycle.py:268-279 | In any interleaving a step that refuses a writer finds other bytes under the final name |
| ImmutableStore.TakenNameStagesNothing | src/obsidian_automation/artifact_lifecycle.py:262-279 | A writer that finds the name taken stages nothing |
| ImmutableStore.RunKeepsInv | src/obsidian_automation/artifact_lifecycle.py:239-347 | The invariant behind these holds after every step of every run |
| ImmutableStore.SameImmutableBytes | src/obsidian_automation/artifact_lifecycle.py:213-236 | The chunked read of a colliding file decides equality, whatever each read returns |
| ImmutableStore.WriteAll | src/obsidian_automation/artifact_lifecycle.py:181-187 | The write loop appends all the data or fails, however little each write takes |
| ArchiveInventory.TakeInventory | src/obsidian_automation/chatgpt_export_intake.py:503-542 | Compares a batch with the table, counting each conversation once; refused exactly when an identity repeats; what the statuses and counts mean is in the two rows below |
| ArchiveInventory.StatusesSayWhatChanged | src/obsidian_automation/chatgpt_export_intake.py:519-526 | Each status is what the override does to that conversation's row: new, other content, other revision of the same content, or as it was |
| ArchiveInventory.CountsSayWhatChanged | src/obsidian_automation/chatgpt_export_intake.py:519-542 | The receipt counts the sizes of exactly those four sets, and the known conversations the batch does not mention |
| ArchiveInventory.InventoryConserves | src/obsidian_automation/chatgpt_export_intake.py:503-542 | The four counts make up the batch, the table grows by exactly the added ones, and the ones known before are in the batch or counted absent |
| ArchiveInventory.NothingIsRemoved | src/obsidian_automation/chatgpt_export_intake.py:640-668 | Keys and first-seen revisions only accumulate |
| ArchiveInventory.LatestIsLastMention | src/obsidian_automation/chatgpt_export_intake.py:662-668 | The table knows exactly the conversations some run mentions, each as the last run that mentions it has it |
| ArchiveInventory.RevisionIsFirstSeen | src/obsidian_automation/chatgpt_export_intake.py:653-657 | Every revision some run carries is known, with the content it was first seen with, and no other |
| ArchiveInventory.TableGrowsByAdded | src/obsidian_automation/chatgpt_export_intake.py:640-668 | The table's size is the sum of what the committed runs report as added |
| InventoryCalls.Inventory.Commit | src/obsidian_automation/chatgpt_export_intake.py:640-668 | A committed run overrides the table, keeps the table the left-to-right override of the runs, and keeps the runs in strictly increasing publication order |
| InventoryCalls.Inventory.InventoryReady | src/obsidian_automation/chatgpt_export_intake.py:545-675 | Every reply of a call and what it leaves: refused for its limit, for a preview of several, for a changed selection, or as out of order if and only if a ready archive is older than a committed one, and then nothing has changed; otherwise it takes the archives that are due, in order, up to its limit or to the first whose file is not as published or whose batch repeats an identity, says which, and keeps exactly what it had committed by then; a preview changes nothing |
| InventoryCalls.RefusedExactlyWhen | src/obsidian_automation/chatgpt_export_intake.py:553-600 | Each outright refusal has its exact condition on the limit, the preview, the selections on record and the order of the archives committed |
| InventoryCalls.FaultIsTrue | src/obsidian_automation/chatgpt_export_intake.py:612-640 | A fault a call reports is a fault of the first due archive it did not take: its file does not verify, or its batch names a conversation twice |
| InventoryCalls.DealtIsJournalled | src/obsidian_automation/chatgpt_export_intake.py:583-668 | The archives dealt with by such a call are exactly those journalled after it and not before |
| InventoryCalls.FinishedIsCaughtUp | src/obsidian_automation/chatgpt_export_intake.py:583-668 | A committing call that finished below its limit left no ready archive undone |
| InventoryCalls.PublishKeeps | src/obsidian_automation/chatgpt_export_intake.py:432-458 | Each archive keeps its one number for good and is never withdrawn, however often it is published; a reply of published or existing means it is ready under its own digest and size |
| InventoryCalls.PublishSaysTruly | src/obsidian_automation/chatgpt_export_intake.py:424-458 | Each reply of a publication has its exact condition: nothing is registered uninspected, one digest never stands for two sizes, and published and existing tell whether the archive was ready before |
| InventoryCalls.Inventory.PublishArchive | src/obsidian_automation/chatgpt_export_intake.py:424-458 | Archives and replies after one publication: inspected, found by its digest or registered, refused if its size differs, ready once its file is in place |
| InventoryCalls.Inventory.Continue | src/obsidian_automation/chatgpt_export_intake.py:545-675 | Once an archive is late, whatever is published afterwards and however often the inventory is called: each call has its own refusal, no run is added, and the archives are what the publications alone make of them |
| InventoryCalls.FirstComesLate | src/obsidian_automation/chatgpt_export_intake.py:545-675 | It happens: a scope in which the second archive is committed before the first is in place |

## Left out

- Digests: SHA-256 and HMAC are injective; a digest is the value it was computed from, and two digests of the same kind agree exactly when their inputs do. Digests of different kinds are never compared.
- JSON text, request-id patterns and Python type confusions: a record that does not parse or has the wrong shape is one case (`Malformed`, unreadable, or an `Invalid` constructor).
- Error codes of the queue's damaged-journal refusals are one code, `JournalFault`; ownership, mode, link-count and symlink checks on private directories are not modelled.
- Whether the queue's lock is busy or unsafe: both are one refusal, `Unavailable`.
- A later directory sync that happens to make an earlier unsynced record, or an earlier unsynced removal, durable: here only its own step makes it so. The losses considered include every one the code admits, and exact conditions read "synced" as synced by its own step.
- Clocks and boot ids: a clock reading is an input; a boot id is a number that grows at each boot and never recurs.
- The systemd adapter: what it observes and whether a command succeeds are inputs; every command and every StartUnit request is logged.
- The broker's `lookup_result`, its maintenance gate and its update locks: a refusal by any of them is a refused authority check.
- The worker's loop, its stop event, the socket and the dashboard: a pass is one claim, one execution and one settlement, each of which may be refused or cut off.
- The root reconciliation tool is fixed to one incident; here it may attest any id, and its checks of the host are not modelled.
- A power loss restores an unsynced file whole, torn or not at all; restoring it without only its last newline is not modelled.
- Journal writes of a queue record with any state the code never writes are not modelled.
- SourceReader.BuildSourceContextPage: says why an argument was refused but not which of several faults is reported first.
- SourceChecker.ValidateSourceContextPage: says exactly when a page passes, not which code a refusal carries.
- CandidateReader.ValidateCandidateBatch: says exactly when a batch passes, not which code a refusal carries.
- contract_version, source_kind and trust_level of a page are one header; review state, authority and approval flags of a candidate are one standing.
- BranchSelection.Chain: says exactly when the inspector's walk resolves, not which status it has otherwise.
- ExportNormalize.Consume: says exactly when an export is accepted, not which of several faults is reported; reading ZIP members, the archive hash and titles are not modelled.
- The proposal wire decoder and `inventory_delta` would only add single-pass checks.
- PlannerSchedule: the shuffles are parameters, any permutation per epoch and any order per random cycle; of the catalog's scan only the choice of files by size and activity is modelled.
- PlannerSchedule.ScanListsExactly: whether front matter and the status of its project make a note active is one flag.
- PlannerJournal: each durable effect is one atomic step, so a power loss between a rename and its directory sync is not modelled; contexts, cadence, projections and the job table are sets of what was written; regenerated jobs and a generation that already started are not modelled.
- The semantic input mode differs only in how a selection is made, and that choice is a parameter.
- RuntimeTransaction: draining services, staging units, smoke checks, the inhibitor, the history entry and the success receipt each succeed, raise or end the process, and staging may leave the timers in any state; the private-authority rules inside the smoke stage are not modelled, nor is a power loss that undoes a synced record.
- ImmutableStore: the permission probe, chmod and link-count checks are not modelled; the staged name is never shared.
- ArchiveInventory: one scope, since every query is restricted to one; the copy of a published file, its inspection and its placing each succeed or fail; the checks of an archive's file before normalization are one outcome; a failed database write, quarantine and coverage counters of a receipt are not modelled.
- The HTTP dashboard, headers, peer credentials, unit tables, deployment scripts and static authority checks have no state worth a theorem here.
