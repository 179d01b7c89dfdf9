# Milvance: contract, indexer and metrics, verified in Dafny

Milvance protects milestone payments on a Soroban contract. A buyer locks a milestone's payment in the contract; a
supplier may ask funders to advance capital against it; the funder is repaid first out of the verified milestone, the
supplier gets the rest; a dispute freezes one milestone until a resolver decides. Off chain, an indexer folds the
contract's events into database tables, and public metrics are computed from those tables.

This project models the three layers and proves that they fit together.

**The contract.** `Storage` holds everything the contract keeps as one value, `Core` is each entry point as a function
from one storage to the next, guard by guard, and `Contract.MilvanceCore` is the contract as it is written: separate
keyed entries, early returns, loops. Every method of the class is proved to do what its function in `Core` says,
including the error it returns; `Invoke` reverts what a failed call wrote. `Runs` adds everything that happens around
calls: ledgers close, temporary entries lapse, others transfer tokens. `Lifecycle` says independently what a milestone
can go through (thirteen changes) and which records exist in which status; `Effects` proves that every call on a
milestone is exactly one of those changes with its tokens and its events; `Invariant` and the two preservation modules
prove the joint invariant over every run; `Guarantees`, `Totals`, `Figures`, `Guards`, `Refusals`, `Answers`,
`Liveness`, `Evidence`, `OfferIndex`, `Lifetimes` and `Deadlines` derive the promises; `Scenarios` holds the runs that
show each exception to be real.

**The indexer.** `Projector` is the projection of each of the twenty events onto nine tables, `ReadModelStore` the same
as an object that updates rows in place, `Coupling` what it means that tables and contract agree, `RowReplay` and
`Replay` the proof that they always do, and `Midway` that they do between the events of one call too; `Skipped` adds the
events of reverted calls and of unknown names, `RowHistory` what a projection does to any tables. `Indexer` models
the transaction per page, the cursor, deduplication, `reset` and any number of racing workers; `CatchUp` the page loop,
`Arrival` that it arrives; `IndexerService` both as an object. `EventOrder` proves exactly when comparing the decoded places of two events agrees
with comparing their ids, `PageOrder` when sorting a page by place restores the chain's order, and `Misplaced` shows what
happens when it does not. `Pipeline` puts contract and indexer together.

**The metrics.** `Metrics` proves that daily counters, table recounts and totals of the contract's run are the same
numbers, `Pipeline` that this holds at every moment of every history of workers; `Decimals` that printed amounts read
back exactly.

Three auxiliary parts of the state are read by no entry point: `history` (every offer ever made under its latest
status, whatever became of its temporary entry), `donated` (tokens others sent the contract unasked) and the event
log. The contract's own address authorises no call. A token transfer that cannot be made, a missing authorisation and
a counter overflow abort the call (`HostTrap`). A 32-byte digest is a number, zero being the all-zero digest; an
event's id is its place in the chain's order (`EventOrder.Rank`); times are whole seconds.

## What turned out different from what one might expect

- Escrow *can* be stranded, in exactly one family of cases: the contract's own address is accepted as resolver or
  attestor and never signs. `Scenarios.EscrowCanStrand` is a run that ends there; `Liveness.NoStrandedEscrow` proves the
  exact condition, both ways.
- `accept_offer` does not compare the offer's principal with the request's: in the run `Scenarios.EarlierOfferIsTaken`
  an offer of fifty is accepted against a request for forty. `OfferIndex.IndexedAcceptanceMatches` proves that this never
  happens to an offer the milestone's index still names. The converse is not claimed, because the index may lapse before
  the offers it names.
- A verified milestone may have no evidence (`Scenarios.VerifiedWithNothing`); `Evidence.EvidenceIsExact` proves over
  every run that it has some if and only if it was never disputed or was disputed when submitted.
- Temporary storage keeps an offer while it is live only if ledgers close slowly enough; `Lifetimes.LiveOfferIsThere`
  proves the exact condition, three seconds between ledgers fail it (`Lifetimes.FasterLedgersLoseOffers`).
- After a commit every event strictly below `scannedThroughLedger` is stored, unless the page was empty and the chain
  holds more below the latest ledger; `Pipeline.CoverageIsExact` proves the exact condition, `Pipeline.EmptyPageMayMiss`
  is a history that misses an event.
- Sorting a page can undo the chain's order. The node may leave out an event's transaction and operation index, and what
  is left out decodes as zero; two events of one ledger are then compared by their event indexes alone
  (`EventOrder.OrdersCanDisagree`). `Misplaced.DepositIsSkipped` is a run and a history in which a request is projected
  before the deposit of an earlier transaction, whose event is then skipped: the contract holds a hundred, the tables
  say nothing. `EventOrder.OrdersAgreeExactly` and `PageOrder.PageComesOutInOrder` prove the exact condition for two
  events and for a page. Events are stored exactly once even so (`Indexer.WorkersStoreOnce`); whatever is said about the
  tables assumes that sorting puts the fetched pages in order (`Indexer.History.InOrder`, and `Indexer.PageOf` in
  `CatchUp`), which `PageOrder.CarryingChainOrderlyPages` derives from the node carrying the indexes.
- `projectEvent` alone is not idempotent; `Projector.RedeliveryIsExact` says for which events it throws.
- The contract accepts any deadline in the future, the tables only dates a JavaScript `Date` can hold:
  `Scenarios.DeadlineStopsIndexer` is a run the indexer never gets past, and `Replay.ReplayIsExact` proves this to be the
  only reason a projection of a run throws. `ledgerTimeToDate` itself throws from 9,007,199,254,741 seconds on; between
  8,640,000,000,001 and that it makes an invalid `Date`, which the database client is assumed to refuse to write.
- The header of `contracts/milvance-core/src/lib.rs` (lines 19-27) still says that no value can move through the
  contract; the code below it moves value, and the model follows the code. The comment at
  `apps/api/src/indexer/projector.ts:11-21` calls every write idempotent; the code at lines 608-618 and 658-668 is not.

## Model

| member | source | states |
|---|---|---|
| Contract.MilvanceCore.constructor | contracts/milvance-core/src/lib.rs:67-75 | A new contract keeps the asset and admin it was deployed with, and nothing else: no entry, every counter at zero. |
| Contract.MilvanceCore.CreateOrder | contracts/milvance-core/src/lib.rs:97-148 | The whole new storage, the new id and the one event, or the first failing guard's error with the same precedence as the code. |
| Contract.MilvanceCore.CreateMilestone | contracts/milvance-core/src/lib.rs:162-218 | As `Core.CreateMilestone` says, error for error: only on an order its buyer created and nobody answered, at most as many as the limit; the milestone goes to the end of the order's list. |
| Contract.MilvanceCore.AcceptOrder | contracts/milvance-core/src/lib.rs:228-249 | As `Core.AcceptOrder` says: the supplier alone turns a created order with at least one milestone active; nothing else changes. |
| Contract.MilvanceCore.CancelOrder | contracts/milvance-core/src/lib.rs:257-275 | As `Core.CancelOrder` says: the buyer alone ends an order, and only one that was never accepted. |
| Contract.MilvanceCore.FundMilestone | contracts/milvance-core/src/lib.rs:304-347 | As `Core.FundMilestone` says: tokens, escrow, status and event move together, or the error is the code's and `Invoke` restores everything. |
| Contract.MilvanceCore.RequestFinance | contracts/milvance-core/src/lib.rs:367-436 | As `Core.RequestFinance` says; a request replaces a cancelled or lapsed one only, on a milestone that holds its whole amount. |
| Contract.MilvanceCore.MakeOffer | contracts/milvance-core/src/lib.rs:453-518 | As `Core.MakeOffer` says, with the offer's entry, its index and its remembered history written alike. |
| Contract.MilvanceCore.CancelOffer | contracts/milvance-core/src/lib.rs:524-545 | As `Core.CancelOffer` says: entry and history change status together. |
| Contract.MilvanceCore.AcceptOffer | contracts/milvance-core/src/lib.rs:558-612 | As `Core.AcceptOffer` says: the frozen copy, the entry, the request and the history agree afterwards. |
| Contract.MilvanceCore.FundAdvance | contracts/milvance-core/src/lib.rs:629-709 | As `Core.FundAdvance` says; the advance moves from funder to supplier, the escrow is what it was, the temporary entry stays accepted while the copy is funded. |
| Contract.MilvanceCore.ReleaseExpiredAcceptance | contracts/milvance-core/src/lib.rs:739-807 | As `Core.ReleaseExpiredAcceptance` says, for both recoveries, whether or not the offer's temporary entry has lapsed; which of the two it is, `Answers.ReleaseReopensWhileLive` tells from the clock. |
| Contract.MilvanceCore.SubmitEvidence | contracts/milvance-core/src/lib.rs:828-865 | As `Core.SubmitEvidence` says, the zero digest refused. |
| Contract.MilvanceCore.AttestMilestone | contracts/milvance-core/src/lib.rs:880-917 | As `Core.AttestMilestone` says: only for the digest on record. |
| Contract.MilvanceCore.SettleMilestone | contracts/milvance-core/src/lib.rs:933-1005 | As `Core.SettleMilestone` says; both payouts, the position and the order's completion written piece by piece amount to that one step. |
| Contract.MilvanceCore.OpenDispute | contracts/milvance-core/src/lib.rs:1016-1064 | As `Core.OpenDispute` says: record, link and counter written apart agree afterwards. |
| Contract.MilvanceCore.ResolveDispute | contracts/milvance-core/src/lib.rs:1080-1156 | As `Core.ResolveDispute` says, for both resolutions. |
| Contract.MilvanceCore.CancelPartialFunding | contracts/milvance-core/src/lib.rs:1172-1232 | As `Core.CancelPartialFunding` says, all barriers checked in the code's order. |
| Contract.MilvanceCore.CancelFinanceRequest | contracts/milvance-core/src/lib.rs:1251-1297 | As `Core.CancelFinanceRequest` says, for a live and a lapsed request. |
| Contract.MilvanceCore.CompleteOrderIfFinished | contracts/milvance-core/src/lib.rs:1424-1445 | The loop completes the order exactly when its list is not empty and names only terminal milestones. |
| Contract.MilvanceCore.GetOpenOffers | contracts/milvance-core/src/lib.rs:1355-1365 | The loop returns the open and live offers among the indexed ids, in index order. |
| Contract.OpenAmongIsExact | contracts/milvance-core/src/lib.rs:1350-1365 | An offer is returned if and only if some indexed id leads to it and it is open and live: nothing dead is presented, nothing selectable is dropped. |
| Contract.OpenAmongKeepsOrder | contracts/milvance-core/src/lib.rs:1355-1365 | Each indexed id that leads to an open and live offer has its own place in the answer, as many places from the start as there are such ids before it; there are no other places. |
| Contract.MilvanceCore.Deposit | contracts/milvance-core/src/escrow.rs:26-53 | The token movement and the milestone's new escrow are paired; on an error neither happens. |
| Contract.MilvanceCore.Release | contracts/milvance-core/src/escrow.rs:65-88 | The only way escrow leaves: the milestone's escrow falls by exactly what the payee receives; on an error neither happens. |
| Contract.MilvanceCore.PayOut | contracts/milvance-core/src/lib.rs:960-981 | The funder's leg before the supplier's, either of them left out when it is zero. |
| Contract.MilvanceCore.Invoke | contracts/milvance-core/src/lib.rs:644-646 | A call that fails anywhere leaves every entry, every balance and the event log as they were. |
| Contract.MilvanceCore.Act | contracts/milvance-core/src/lib.rs:97-1297 | One step of the object is one step of a run, and any legal step keeps the joint invariant. |
| Contract.MilvanceCore.WriteMilestone | contracts/milvance-core/src/storage.rs:167-171 | Writing a milestone changes that milestone's entry and no other entry. |
| Contract.MilvanceCore.WriteDispute | contracts/milvance-core/src/storage.rs:357-365 | Writes the record and the milestone's link to it, and nothing else. |
| Contract.MilvanceCore.RemoveAcceptedOffer | contracts/milvance-core/src/storage.rs:262-266 | Clears the selection and nothing else. |
| Contract.MilvanceCore.NextOrderId | contracts/milvance-core/src/storage.rs:108-117 | Ids are handed out in sequence from one, and the counter traps instead of wrapping. |
| Settlement.ComputeSplitsEscrow | contracts/milvance-core/src/settlement.rs:30-69 | The two legs are not negative, sum to exactly the escrow and put an active funder first; the split fails exactly when there is nothing to pay or the repayment does not fit. |
| Token.TransferMoves | contracts/milvance-core/src/escrow.rs:45-49 | A transfer conserves supply and changes the two parties' balances only, by opposite amounts; a transfer to oneself changes nothing. |
| Token.TransferSucceeds | contracts/milvance-core/src/escrow.rs:83 | With a bounded supply a transfer succeeds exactly when the amount is not negative and covered. |
| Lifecycle.ChangeKeepsSlot | contracts/milvance-core/src/lib.rs:304-1297 | Each of the thirteen changes keeps the milestone's records in step with its status: which of request, selection, position, evidence and dispute exist, in which status, and how much escrow is held. |
| Lifecycle.ChangeIsForward | contracts/milvance-core/src/lib.rs:629-1156 | No change moves a milestone's phase back, touches frozen evidence, alters a position's terms or its end, or changes a terminal milestone. |
| Effects.FundMilestoneRealises | contracts/milvance-core/src/lib.rs:304-347 | A successful deposit is exactly the change "deposited": escrow and status of that milestone, buyer to contract, one event, nothing else. |
| Effects.CancelPartialFundingRealises | contracts/milvance-core/src/lib.rs:1172-1232 | A cancelled partial funding empties the escrow back to the buyer, status unchanged, nothing else. |
| Effects.RequestFinanceRealises | contracts/milvance-core/src/lib.rs:367-436 | A request moves no token and opens the one request slot with these terms. |
| Effects.AcceptOfferRealises | contracts/milvance-core/src/lib.rs:558-612 | Selecting an offer freezes a copy of exactly its terms, marks request and offer accepted and moves no token. |
| Effects.FundAdvanceRealises | contracts/milvance-core/src/lib.rs:629-709 | An advance moves the frozen principal from funder to supplier, creates the position on the frozen terms and leaves escrow alone. |
| Effects.ReleaseExpiredAcceptanceRealises | contracts/milvance-core/src/lib.rs:739-807 | A release removes the selection, cancels its offer and reopens the request if and only if it is still live, else returns the milestone to funded; no token moves; the answer says which. |
| Effects.CancelFinanceRequestRealises | contracts/milvance-core/src/lib.rs:1251-1297 | Closing a request returns the milestone to funded, and the answer says whether the request had lapsed; no token moves. |
| Effects.SubmitEvidenceRealises | contracts/milvance-core/src/lib.rs:828-865 | Evidence replaces the digest and moves the milestone to submitted; the event says whether it replaced one. |
| Effects.AttestMilestoneRealises | contracts/milvance-core/src/lib.rs:880-917 | Attestation verifies the milestone for the digest on record. |
| Effects.SettleMilestoneRealises | contracts/milvance-core/src/lib.rs:933-1005 | Settlement empties the milestone into the two legs, marks an active position repaid and completes the order if this was its last milestone. |
| Effects.OpenDisputeRealises | contracts/milvance-core/src/lib.rs:1016-1064 | A dispute gets the next id and the order's resolver and freezes this milestone only. |
| Effects.UpholdRealises | contracts/milvance-core/src/lib.rs:1080-1113 | Resolving for the supplier verifies the milestone and moves no token. |
| Effects.ReturnRealises | contracts/milvance-core/src/lib.rs:1114-1156 | Resolving for the buyer returns the whole escrow, closes an active position without clawing the advance back and completes the order if this was its last milestone. |
| OrderPreservation.CallRealises | contracts/milvance-core/src/lib.rs:304-1297 | Every successful call on a milestone is exactly one change, made at the time of its ledger, and publishes exactly what the change says. |
| Answers.ReleaseReopensWhileLive | contracts/milvance-core/src/lib.rs:770-807 | In every run a release leaves the request open and the milestone seeking finance if and only if the ledger time is before the request's expiry, and otherwise the request cancelled and the milestone funded; the returned flag and the event say which. |
| Answers.ClosingTellsLapse | contracts/milvance-core/src/lib.rs:1251-1297 | In every run a closed request is cancelled and its milestone funded; the answer and the event say it had lapsed if and only if its expiry had come. |
| Answers.FundingAnswers | contracts/milvance-core/src/lib.rs:304-347 | A deposit answers with what the milestone holds afterwards, a cancelled funding with what it held before. |
| Answers.CreationAnswers | contracts/milvance-core/src/lib.rs:97-518 | An order, a milestone and an offer are answered with an id that nothing had and that the new record has. |
| Answers.DisputeAnswers | contracts/milvance-core/src/lib.rs:1016-1064 | A dispute is answered with a new id, which its milestone links to. |
| Preservation.ChangeKeepsInv | contracts/milvance-core/src/lib.rs:304-1297 | Every change of one milestone keeps the joint invariant of the whole storage, its order's completion included. |
| OrderPreservation.RunKeepsInv | contracts/milvance-core/src/lib.rs:304-1297 | In every state of every run: escrow bounds per status, records exactly in matching statuses, 0 < principal <= repayment <= amount, offers accepted or funded exactly while selected, lists and links consistent, an active order has work left, balances cover escrow. |
| Guarantees.Solvency | contracts/milvance-core/src/escrow.rs:26-88 | The contract's balance is the sum of escrow over all milestones of all orders plus what others sent it unasked; the token supply never changes. |
| Guarantees.Conservation | contracts/milvance-core/src/lib.rs:304-1232 | Over any run, deposits less partial deposits handed back equal escrow still held plus all funder repayments, supplier payouts and refunds. |
| Guarantees.CallIsLocal | contracts/milvance-core/src/lib.rs:1007-1156 | A call on one milestone leaves every other milestone with all its records and every other order unchanged, and moves tokens of that milestone's parties only. |
| Guarantees.UntouchedStays | contracts/milvance-core/src/lib.rs:162-217 | Across any interleaving, a milestone no call names stays as it is; time alone changes nothing. |
| Guarantees.MilestoneMovesForward | contracts/milvance-core/src/lib.rs:629-1156 | Between any two moments of a run a milestone's phase never decreases, it has at most one position and one dispute, its position's terms never change, its evidence is frozen once disputed or verified, and terminal is final. |
| Guarantees.AcceptedOnce | contracts/milvance-core/src/lib.rs:228-249 | An order is active or completed exactly if it was active at some earlier moment. |
| Guarantees.CompletionIsExact | contracts/milvance-core/src/lib.rs:1424-1445 | An order is completed exactly when it was accepted and all its milestones are settled or refunded; an active one has something left to finish; any other holds no escrow. |
| Guards.BarriersNeverDecide | contracts/milvance-core/src/lib.rs:304-1297 | In every reachable state a call on a milestone succeeds if and only if a short condition its caller can check holds, and the belt-and-braces errors are never returned. |
| Guards.OtherCallsDecide | contracts/milvance-core/src/lib.rs:97-545 | The same, both ways, for the calls that create or answer orders, milestones and offers. |
| Refusals.RefusalsAreExact | contracts/milvance-core/src/lib.rs:97-1297 | In every run each of the eighteen calls fails with exactly the first of a short list of reasons its caller can check, and succeeds if there is none; no secondary barrier is ever the reason. |
| Guards.SettlementIsExact | contracts/milvance-core/src/lib.rs:933-1005 | In every reachable state a verified milestone settles for its supplier and for its funder alike, without any error, paying the funder exactly the repayment frozen at acceptance, the supplier the rest of the amount, and nobody else. |
| OfferIndex.IndexedOffersAnswer | contracts/milvance-core/src/lib.rs:453-518 | In every state of every run, whatever offer the index of a milestone names was made for that milestone and for the principal of its current request, through every later call, lapse and new round. |
| OfferIndex.IndexedAcceptanceMatches | contracts/milvance-core/src/lib.rs:558-612 | In every run, accepting an offer that the index still names freezes exactly the requested principal. |
| Scenarios.EarlierOfferIsTaken | contracts/milvance-core/src/lib.rs:591-592 | A run in which an offer of an earlier round is accepted against a later request for less. |
| Liveness.WayOut | contracts/milvance-core/src/lib.rs:739-1297 | From any state satisfying the invariant and `CanFinish`, a continuation by the milestone's own four parties and time that empties its escrow, from a partial deposit, a lapsed request or an abandoned acceptance too. |
| Liveness.StuckForever | contracts/milvance-core/src/lib.rs:120-128 | Where `CanFinish` fails, no continuation by anybody ever empties the escrow. |
| Liveness.NoStrandedEscrow | contracts/milvance-core/src/lib.rs:739-1297 | For every reachable state and every milestone, such a continuation exists if and only if `CanFinish` holds. |
| Scenarios.EscrowCanStrand | contracts/milvance-core/src/lib.rs:120-128 | A run after which a milestone holds its whole amount and no continuation whatsoever releases any of it. |
| Liveness.VerifiedWithoutEvidence | contracts/milvance-core/src/lib.rs:1030-1106 | From any funded milestone two calls lead to a verified one with no evidence on record. |
| Scenarios.VerifiedWithNothing | contracts/milvance-core/src/lib.rs:1030-1106 | A run from deployment to a verified milestone with no evidence. |
| Evidence.DisputeFindsEvidence | contracts/milvance-core/src/lib.rs:1016-1064 | In every reachable state a successful dispute leaves the evidence as it was, and there is some if and only if the milestone was submitted. |
| Evidence.EvidenceIsExact | contracts/milvance-core/src/lib.rs:828-1156 | In every run, whatever was disputed, verified, settled or refunded has evidence on record if and only if it was never disputed or its dispute was opened over a submission. |
| Deadlines.DeadlinesAreInert | contracts/milvance-core/src/lib.rs:177-217 | Two runs whose actions differ in milestone deadlines only return the same results, move the same balances, publish the same events and reach the same states, but for the deadline fields. |
| Totals.ChangeAddsUp | contracts/milvance-core/src/lib.rs:304-1232 | For twelve quantities, the events a change publishes add exactly what the change adds to the storage. |
| Totals.TotalsFollowLog | contracts/milvance-core/src/lib.rs:304-1232 | In every run each quantity of the storage is the total of the event log. |
| Replay.QuietStep | apps/api/src/indexer/projector.ts:245-573 | Projecting the event of a deposit, a partial cancellation, a request, its closing, evidence or attestation throws exactly if a date does not fit, and otherwise brings the tables to the new storage. |
| Replay.FinancingStep | apps/api/src/indexer/projector.ts:389-509 | The same for selection, advance and release, which never throw. |
| Replay.PaidStep | apps/api/src/indexer/projector.ts:575-620 | The same for a settlement: one settlement row, escrow emptied, the one active position repaid. |
| Replay.RefundedStep | apps/api/src/indexer/projector.ts:622-670 | The same for a refund: the count of closed positions is what the chain implies. |
| Replay.CallFollows | apps/api/src/indexer/projector.ts:139-745 | Whatever a successful call publishes, one to three events, carries the tables from the old storage to the new one, and every projection reports that it projected. |
| Replay.ReplayIsExact | apps/api/src/indexer/projector.ts:139-745 | For every run, folding the projections over everything published never throws if and only if every published date fits; then orders, milestones, requests, effective offers, positions, disputes, settlements, refunds and anchors equal the contract's storage. |
| Midway.PrefixReplays | apps/api/src/indexer/projector.ts:139-745 | The same for any number of the run's events, wherever in a call they end: between a refund, the resolution of its dispute and the completion of its order too. |
| Midway.PrefixAccounted | contracts/milvance-core/src/lib.rs:304-1445 | After any number of a run's events, every quantity, order count, offer count and the set of requested milestones is what those events add up to. |
| Midway.RowsKeepWithinAmount | apps/api/prisma/migrations/20260919183500_one_active_finance_position/migration.sql:19-23 | After every single event of a run each milestone row holds between nothing and its amount, so the database's check never refuses a row. |
| Skipped.FoldSkips | apps/api/src/indexer/projector.ts:139-150 | On any tables, folding any events is folding those of successful calls under known names: the others change nothing and throw nothing. |
| Skipped.IngestOnlyApplied | apps/api/src/indexer/indexer.service.ts:263-313 | Any page of the contract's events leaves the same nine tables and daily counters as only its successful, known events, and is refused exactly if those are. |
| Skipped.IngestTallies | apps/api/src/indexer/indexer.service.ts:276-313 | Whatever a page is and does to the tables: records stay as they were, the tally of projected events is the number of new records marked so, and new and duplicate events add up to the page. |
| RowHistory.ProjectionSteps | apps/api/src/indexer/projector.ts:139-745 | On any tables and for any event: orders, milestones, requests, disputes and anchors move only to the event and only forward; settlements and refunds never change; new rows bear the event's time, ended positions and resolved disputes that of their end; what a row was created with stays. |
| RowHistory.GapsAreRefused | apps/api/src/indexer/projector.ts:120-137 | An event of an order, milestone, request, offer or dispute the tables do not know is refused, so nothing is indexed over a gap. |
| RowHistory.ReportsNoChange | apps/api/src/indexer/projector.ts:139-745 | A projection that reports it projected nothing has changed nothing. |
| Scenarios.DeadlineStopsIndexer | contracts/milvance-core/src/lib.rs:177-181 | A run whose published deadline no date can hold, so that folding its events always throws. |
| Coupling.DateFits | apps/api/src/common/amounts.ts:107-117 | Zero means no date, which a deadline may be and an expiry may not; the conversion refuses exactly the seconds from 9,007,199,254,741 on; with the database client's refusal of invalid dates a deadline is stored exactly up to 8,640,000,000,000. |
| Projector.RedeliveryIsExact | apps/api/src/indexer/projector.ts:608-668 | Projecting an event twice in a row leaves what once left, and throws if and only if the event repaid a funder or closed a financed refund. |
| ReadModelStore.Store.ProjectEvent | apps/api/src/indexer/projector.ts:139-745 | The in-place projector returns the same result and leaves the same tables as the projection function, on any tables and any event, those of reverted calls included. |
| ReadModelStore.Store.UpdatePositions | apps/api/src/indexer/projector.ts:658-662 | Ends every active position of the milestone, no other, and reports how many there were. |
| Indexer.SortRestores | apps/api/src/indexer/indexer.service.ts:176 | Whatever order the node answered in, sorting by `compareEventOrder` restores the chain's order of a page if and only if the comparison puts every two of its events the way their ids are. |
| PageOrder.PageComesOutInOrder | apps/api/src/indexer/decoder.ts:251-265 | A page of events with well-formed, distinct ids, indexes carried or not, comes out of sorting strictly increasing if and only if none of its events overtakes a later one. |
| PageOrder.LackingPage | apps/api/src/indexer/decoder.ts:232-265 | On a page whose events all lack their indexes that is so if and only if, within one ledger, no event of an earlier transaction or operation has a larger event index. |
| PageOrder.OrderlyChainOrderlyPages | apps/api/src/indexer/indexer.service.ts:163-203 | On a chain whose events never overtake each other every page any worker fetches is put in order. |
| PageOrder.CarryingChainOrderlyPages | apps/api/src/indexer/decoder.ts:102-103 | In particular if the node carries both indexes of every event. |
| PageOrder.LedgerOfRank | apps/api/src/indexer/decoder.ts:132-139 | An event's ledger can be read off its id. |
| Misplaced.DepositIsSkipped | apps/api/src/indexer/projector.ts:245-262 | A run, placed with well-formed ids and answered in order by a node that leaves the indexes out, after whose complete ingestion the milestone's row says nothing is funded, while the contract holds a hundred; the deposit is stored unprojected. |
| Indexer.CommitKeeps | apps/api/src/indexer/indexer.service.ts:227-343 | However much of a page that sorting puts in order was stored before, a commit leaves exactly a prefix of the chain stored, each event once, with its tables and counters. |
| Indexer.WorkersStoreOnce | apps/api/src/indexer/indexer.service.ts:150-342 | Under any interleaving of cursor reads, fetches, commits, failures and resets by any number of workers, and however sorting orders their pages, the stored events are a prefix of the chain, each once, and `eventsIngested` is its length; if pages name their cursors it is exactly what the cursor is past. |
| Indexer.WorkersIngestOnce | apps/api/src/indexer/indexer.service.ts:150-342 | If sorting puts every fetched page in order, besides: tables and daily counters are always those of that prefix. |
| Indexer.OnlyResetRewinds | apps/api/src/indexer/indexer.service.ts:363-398 | No move but a reset moves the cursor back. |
| Indexer.CommitsAgainstCheckpoint | apps/api/src/indexer/indexer.service.ts:236-256 | A commit is refused as stale if and only if the cursor or the scanned ledger is no longer the one its page was fetched for. |
| Indexer.ScanOnlyGrows | apps/api/src/indexer/indexer.service.ts:236-343 | However many workers race, nothing but a reset takes back how far the scan has come, if no page is scanned less far than the checkpoint it answers. |
| Indexer.RebuildIsEqual | apps/api/src/indexer/indexer.service.ts:352-398 | Two moments, before and after any resets, with equally many events ingested hold equal derived tables, if sorting puts the pages in order. |
| CatchUp.StaleMeansChanged | apps/api/src/indexer/indexer.service.ts:186-194 | An iteration is given back only if somebody else changed the checkpoint while the page was fetched; a page is counted as fetched unless the fetch threw. |
| CatchUp.FetchesAreBounded | apps/api/src/indexer/indexer.service.ts:163-203 | A catch-up fetches at most `maxPages` pages plus one per foreign change of the checkpoint. |
| CatchUp.CatchUpIsSound | apps/api/src/indexer/indexer.service.ts:150-222 | Whatever others do between its steps, a catch-up whose pages sorting puts in order keeps the exactly-once property and the tables. |
| CatchUp.CaughtUpIsExact | apps/api/src/indexer/indexer.service.ts:163-203 | A catch-up says it caught up if and only if its last iteration committed a page without events, and no earlier one did; one that neither caught up nor failed has used up its pages or its turns. |
| CatchUp.CaughtUpMeansAll | apps/api/src/indexer/indexer.service.ts:199-202 | With a node that has nothing more only where the chain has nothing more, and whatever others do meanwhile, a catch-up that says it caught up leaves every event of the chain stored, each once, with its tables. |
| Arrival.LeftAloneArrives | apps/api/src/indexer/indexer.service.ts:150-222 | Left alone and given more pages than there are events left, a catch-up ingests exactly those, counts them and its pages, and says it caught up. |
| IndexerService.Service.IngestPage | apps/api/src/indexer/indexer.service.ts:263-313 | The loop with its `seen` set and counters stores, projects, marks and counts exactly the new events of the page, in order, or reports the first refusal; what the marks say, `Pipeline.RecordsAreTheChain` tells. |
| IndexerService.Service.ApplyBatch | apps/api/src/indexer/indexer.service.ts:227-343 | Rows, tables, counters and cursor are committed together, or nothing is. |
| IndexerService.Service.CatchUp | apps/api/src/indexer/indexer.service.ts:150-222 | The loop with its flag, its page counter, its retries and fetches that throw does what the page-by-page function says, returns its counters and the last latest ledger, and leaves the flag cleared. |
| IndexerService.Service.Reset | apps/api/src/indexer/indexer.service.ts:363-404 | Every derived table is emptied and the cursor rewound: what is left is a database that nothing was ever ingested into. |
| Pipeline.ReadModelsAreTheContract | apps/api/src/indexer/indexer.service.ts:150-342 | Whenever what any workers, whose pages sorting puts in order, have ingested are, beside reverted and unknown events, those of the first n steps of a run, the tables equal the contract's storage after those steps. |
| Pipeline.MetricsAreTheContract | apps/api/src/indexer/indexer.service.ts:263-343 | At every moment of every history of workers whose pages sorting puts in order, duplicates, retries, resets, pages ending inside a call and reverted or unknown events included: the tables are the storage as the ingested events tell it, every public figure is what those events add up to, the daily counters agree with recounts of the tables, and each day counts exactly that day's events. |
| Pipeline.RecordsAreTheChain | apps/api/src/indexer/indexer.service.ts:124-126 | At every moment of every such history each ingested event is on record as it came, as projected if and only if it is the run's own; so the successful, unprojected events the status counts are exactly the ingested ones this build does not know. |
| Pipeline.CurrentPageCommits | apps/api/src/indexer/indexer.service.ts:227-343 | If every published date fits, a page fetched for the current checkpoint that sorting puts in order is always committed. |
| Pipeline.CoverageIsExact | apps/api/src/indexer/rpc.ts:129-143 | After any worker's successful commit every event in a ledger strictly below `scannedThroughLedger` is stored if and only if the page named a ledger, or the chain holds nothing below the latest ledger beyond what is ingested. |
| Pipeline.EmptyPageMayMiss | apps/api/src/indexer/rpc.ts:139-143 | A history whose checkpoint claims ledger 10 while an event of ledger 5 is not stored. |
| Pipeline.ScannedIsExact | apps/api/src/indexer/rpc.ts:129-143 | A page that names a ledger is scanned through the largest one it names, any other through the latest. |
| EventOrder.CompareIsOrder | apps/api/src/indexer/decoder.ts:251-265 | The comparison is a strict total order on any events whatsoever. |
| EventOrder.IdsFollowChain | apps/api/src/indexer/decoder.ts:126-139 | Ids of the zero-padded layout compare as strings exactly as the chain orders the events, and differ whenever the events do. |
| EventOrder.DecodeReads | apps/api/src/indexer/decoder.ts:212-240 | What is decoded of a well-formed id and optional indexes: the ledger, the event index, and zero for an index that is left out. |
| EventOrder.OrdersAgreeExactly | apps/api/src/indexer/decoder.ts:251-265 | Of two events with well-formed ids, `compareEventOrder` puts the earlier first if and only if they are of two ledgers or what is decoded of the earlier does not overtake what is decoded of the later. |
| EventOrder.CarriedNeverOvertakes | apps/api/src/indexer/decoder.ts:232-265 | Events that carry both indexes are always compared in the order of their ids. |
| EventOrder.LackingOvertakesExactly | apps/api/src/indexer/decoder.ts:232-265 | Two events without indexes are compared the wrong way round if and only if they are of one ledger and the one with the smaller TOID has the larger event index. |
| EventOrder.LaterLackingOvertakesExactly | apps/api/src/indexer/decoder.ts:232-265 | If only the later event lacks them: if and only if they are of one ledger, unless the earlier is in its very first place with no larger event index. |
| EventOrder.EarlierLackingOvertakesExactly | apps/api/src/indexer/decoder.ts:232-265 | If only the earlier one does: if and only if the later is in that ledger's very first place with a smaller event index. |
| EventOrder.OrdersCanDisagree | apps/api/src/indexer/decoder.ts:232-233 | Two events of one ledger, well-formed ids, no indexes: the ids are in order, the comparison is not. |
| EventOrder.ParseReadsFormat | apps/api/src/indexer/decoder.ts:132-139 | Parsing an id of the layout gives back its two numbers. |
| EventOrder.ParseIsExact | apps/api/src/indexer/decoder.ts:132-139 | The parser accepts exactly digits, a dash and digits, and reads the two numbers. |
| Metrics.IngestIsFold | apps/api/src/indexer/indexer.service.ts:270-313 | Ingesting new events folds the projections over them, and each counter grows over all days by exactly the number of successful, known events it stands for. |
| Metrics.IngestCountsDays | apps/api/src/indexer/indexer.service.ts:288-306 | Each day's counters grow by exactly the events of that day. |
| Metrics.DayIsExact | apps/api/src/indexer/indexer.service.ts:290-293 | A time belongs to the day whose twenty-four hours, counted from the epoch, it lies in. |
| Metrics.SumColumn | apps/api/src/metrics/public-metrics.ts:30-34 | The loop adds a column exactly, in whatever order the rows come. |
| Metrics.ComputePublicMetrics | apps/api/src/metrics/public-metrics.ts:150-267 | The figures shown are exactly the stated sums and counts of the tables, the accepted and completed orders by status. |
| Metrics.VolumeRecount | apps/api/src/metrics/public-metrics.ts:150-161 | Settled plus refunded plus still held counts every milestone's kept deposits once: the three sets are disjoint and exhaustive. |
| Metrics.MetricsFollowRun | apps/api/src/metrics/public-metrics.ts:150-267 | After indexing any number of a run's events among any reverted and unknown ones, all sixteen figures equal what those events add up to: orders created, accepted and completed, milestones, requests counted once a milestone, offers, advances, settlements, refunds, disputes and their volumes; protected volume is all buyer deposits less partial deposits handed back. |
| Metrics.DailyIsRecount | apps/api/src/metrics/daily.ts:5-15 | After ingesting any number of a run's events, wherever in a call they end and whatever reverted or unknown ones come between, the daily counters summed over all days equal full recounts of the tables: orders, advances, settlements, refunds, disputes, and fully funded events equal milestones in a protected state. |
| Decimals.DecimalRoundTrip | apps/api/src/metrics/public-metrics.ts:43-55 | For every integer and every number of places, what is printed has exactly that many decimals and reads back as the same integer. |
| Decimals.PrintsExactly | apps/api/src/metrics/public-metrics.ts:48-55 | What is printed: a sign if and only if the total is negative, the whole units without a leading zero unless there are none, a point, and the rest with exactly its decimals. |
| Decimals.PrintedOneWay | apps/api/src/metrics/public-metrics.ts:48-55 | There is one such string for a total, so the printed form is determined. |
| Decimals.ReadsToFixed | apps/api/src/metrics/public-metrics.ts:43-46 | The digits `toFixed` prints of a stored decimal, with the point left out, are its exact value in units of the last place. |
| Decimals.SumFiat | apps/api/src/metrics/public-metrics.ts:202-215 | The printed total is the exact sum of the rows that have a value, in the one form there is: seven decimals, no leading zero, a sign only if it is negative. |
| Lifetimes.LiveOfferIsThere | contracts/milvance-core/src/storage.rs:294-313 | However an offer's entry is read and written, it is never missing while the offer is live if and only if the longest validity is over by the time the first lifetime is. |
| Lifetimes.ExtensionIsExact | contracts/milvance-core/src/storage.rs:294-313 | Touching an entry leaves it two days of ledgers at least, and extends it, to ten, exactly when it had less. |
| Lifetimes.SpacedIsSlowEnough | contracts/milvance-core/src/storage.rs:21-31 | Ledgers at least 3.5 seconds apart are slow enough. |
| Lifetimes.LiveOffersStay | contracts/milvance-core/src/storage.rs:294-313 | In every state of every run whose temporary entries live as long as storage gives them, the entry of an unexpired offer is there if ledgers closed slowly enough after it was made, and an open one says what was offered. |
| Lifetimes.FasterLedgersLoseOffers | contracts/milvance-core/src/storage.rs:294-313 | With a ledger every three seconds a live offer can be gone, in whatever ledger it was made. |

## Left out

- Expiry of persistent and instance storage: records are assumed to persist, so `NotInitialized` cannot be returned.
- The token's supply is assumed to fit the contract's 128-bit amounts when the contract is deployed (`Runs.Deployed`, through `Token.BalancesOk`); the guards, the payouts and liveness rely on it, so that no credit overflows.
- Projector.Project: the database's own check that a milestone row holds between nothing and its amount is no branch of the model, because `Midway.RowsKeepWithinAmount` proves that it never fires on the events of a run.
- Trustlines, token-issuer controls and the token's own authorisation tree: a transfer fails only on a negative amount, an uncovered one or an overflow.
- OfferIndex.IndexedAcceptanceMatches: one direction only, because the `MilestoneOffers` index may vanish at any time while the offers it named stay acceptable.
- The `MilestoneOffers` index is a hint that may vanish at any time; no cap of ten offers per milestone is claimed.
- `createdLedger`, transaction hashes and the other columns that only record where an event was found. The times a row keeps (`createdAt`, `repaidAt`, `closedAt`, `resolvedAt`, `settledAt`, `refundedAt`) are told event by event by `RowHistory.ProjectionSteps`, not compared with the contract, which does not keep them.
- `EvidenceObject` flags: they depend on when a file was uploaded.
- PostgreSQL's 64-bit `BIGINT` columns: identifiers are compared as 64-bit unsigned numbers, as the code's own checks do. The second unique constraint on stored events (ledger, transaction, index) is implied by distinct ids and not modelled.
- Coupling.DateFits: that the database client refuses to write an invalid `Date` (from 8,640,000,000,001 seconds on) is an assumption about that client, not part of the cited function.
- Indexer.WorkersIngestOnce: that sorting puts fetched pages in order is assumed, because a node that leaves the indexes out can break it; the exact condition is proved in `PageOrder`. One event is taken to be described alike in every answer.
- XDR decoding, RPC transport and retries: a page is assumed to hold the chain's events after the given cursor up to the returned one; the backfill is assumed to start at or before the contract's first ledger.
- A failed catch-up writes its redacted error text to the cursor row; that text is not modelled.
- CatchUp.Run: the outside world plays finitely many turns, so the loop ends when they are used up; the original would go on.
- ReadModelStore.Store.ProjectEvent: the state after a throw is not specified, because the caller rolls it back.
- Contract.MilvanceCore.SettleMilestone: the state after an error is not specified by the entry points themselves, because the host rolls it back; `Invoke` specifies it.
- IndexerService.Service.CatchUp: of what a fetch may throw only that it throws is modelled, not the message, which tells an expired resume point from other errors.
- Median timings, wallet sets, local-payment cycles and consent tags: single-pass filters over the same tables.
- The single-record read helpers of the contract, the Anchor client, evidence upload, configuration, health checks and the web application.
