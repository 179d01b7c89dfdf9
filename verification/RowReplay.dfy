/** What projecting the events of one change does to the rows of its milestone. */
module RowReplay {
  import opened Wrappers
  import opened Types
  import opened Token
  import opened Storage
  import opened Financing
  import opened Core
  import opened Runs
  import opened Lifecycle
  import opened Invariant
  import opened Effects
  import opened Preservation
  import opened OrderPreservation
  import opened Totals
  import opened Guarantees
  import opened Guards
  import opened Projector
  import opened Coupling

  // ---- the milestone's own rows, change by change -----------------------------------------------

  ghost predicate Elsewhere(db: ReadModels, db': ReadModels, id: nat) {
    db'.orders == db.orders && forall k: nat | k != id :: RowsOf(db', k) == RowsOf(db, k)
  }

  /** `db'` is `db` with milestone `id`'s rows brought up to `y`, and nothing about any other milestone. */
  ghost predicate BroughtTo(db: ReadModels, db': ReadModels, id: nat, buyer: Address, y: Slot, bound: nat) {
    SlotMatches(buyer, y, RowsOf(db', id), bound) && Elsewhere(db, db', id)
  }

  /** A projection that succeeds and reports so, brings milestone `id` up to `y`, and leaves these offers and
      disputes. */
  ghost predicate Yields(p: Projected, db: ReadModels, id: nat, buyer: Address, y: Slot, bound: nat,
                         offers: map<nat, OfferRow>, disputes: map<nat, DisputeRow>) {
    && p.Ok? && p.value.1 && BroughtTo(db, p.value.0, id, buyer, y, bound)
    && p.value.0.offers == offers && p.value.0.disputes == disputes
  }

  /** What the projections may take for granted about the numbers in a run. */
  predicate InRange(x: Slot) {
    && x.milestone.id <= U64_MAX && x.milestone.orderId <= U64_MAX && x.milestone.index <= U32_MAX
    && (x.accepted.Some? ==> x.accepted.value.id <= U64_MAX)
    && (x.position.Some? ==> x.position.value.offerId <= U64_MAX)
  }

  predicate Ready(db: ReadModels, d: Delivered, buyer: Address, x: Slot) {
    InRange(x) && SlotMatches(buyer, x, RowsOf(db, x.milestone.id), d.id)
  }

  // ---- one row written ------------------------------------------------------------------------

  lemma ElsewhereThen(a: ReadModels, b: ReadModels, c: ReadModels, id: nat)
    requires Elsewhere(a, b, id) && Elsewhere(b, c, id)
    ensures Elsewhere(a, c, id)
  {
  }

  lemma MilestoneRowWritten(db: ReadModels, id: nat, row: MilestoneRow, at: nat)
    requires id in db.milestones && db.milestones[id].last < at
    ensures var db' := PutMilestone(db, id, row, at);
            && RowsOf(db', id) == RowsOf(db, id).(milestone := Some(row.(last := at))) && Elsewhere(db, db', id)
            && db' == db.(milestones := db'.milestones)
  {
    var db' := PutMilestone(db, id, row, at);
    forall k: nat ensures PositionsOf(db', k) == PositionsOf(db, k) {
    }
  }

  lemma RequestRowWritten(db: ReadModels, id: nat, row: RequestRow, at: nat)
    requires id in db.requests && db.requests[id].last < at
    ensures var db' := PutRequest(db, id, row, at);
            && RowsOf(db', id) == RowsOf(db, id).(request := Some(row.(last := at))) && Elsewhere(db, db', id)
            && db' == db.(requests := db'.requests)
  {
    var db' := PutRequest(db, id, row, at);
    forall k: nat ensures PositionsOf(db', k) == PositionsOf(db, k) {
    }
  }

  lemma RequestRowAdded(db: ReadModels, id: nat, row: RequestRow)
    ensures var db' := db.(requests := db.requests[id := row]);
            RowsOf(db', id) == RowsOf(db, id).(request := Some(row)) && Elsewhere(db, db', id)
  {
    var db' := db.(requests := db.requests[id := row]);
    forall k: nat ensures PositionsOf(db', k) == PositionsOf(db, k) {
    }
  }

  lemma AnchorRowAdded(db: ReadModels, id: nat, row: AnchorRow)
    ensures var db' := db.(anchors := db.anchors[id := row]);
            RowsOf(db', id) == RowsOf(db, id).(anchor := Some(row)) && Elsewhere(db, db', id)
  {
    var db' := db.(anchors := db.anchors[id := row]);
    forall k: nat ensures PositionsOf(db', k) == PositionsOf(db, k) {
    }
  }

  lemma SettlementRowAdded(db: ReadModels, id: nat, row: SettlementRow)
    ensures var db' := db.(settlements := db.settlements[id := row]);
            RowsOf(db', id) == RowsOf(db, id).(settlement := Some(row)) && Elsewhere(db, db', id)
  {
    var db' := db.(settlements := db.settlements[id := row]);
    forall k: nat ensures PositionsOf(db', k) == PositionsOf(db, k) {
    }
  }

  lemma RefundRowAdded(db: ReadModels, id: nat, row: RefundRow)
    ensures var db' := db.(refunds := db.refunds[id := row]);
            RowsOf(db', id) == RowsOf(db, id).(refund := Some(row)) && Elsewhere(db, db', id)
  {
    var db' := db.(refunds := db.refunds[id := row]);
    forall k: nat ensures PositionsOf(db', k) == PositionsOf(db, k) {
    }
  }

  lemma PositionRowAdded(db: ReadModels, id: nat, offerId: nat, row: PositionRow)
    ensures var db' := db.(positions := db.positions[(id, offerId) := row]);
            && RowsOf(db', id) == RowsOf(db, id).(positions := RowsOf(db, id).positions[(id, offerId) := row])
            && Elsewhere(db, db', id)
  {
    var db' := db.(positions := db.positions[(id, offerId) := row]);
    assert PositionsOf(db', id) == PositionsOf(db, id)[(id, offerId) := row];
    forall k: nat | k != id ensures PositionsOf(db', k) == PositionsOf(db, k) {
    }
  }

  lemma OfferRowSet(db: ReadModels, offerId: nat, status: OfferStatus, last: nat, id: nat)
    requires offerId in db.offers
    ensures var db' := SetOffer(db, offerId, status, last);
            && RowsOf(db', id) == RowsOf(db, id) && Elsewhere(db, db', id) && db' == db.(offers := db'.offers)
            && db'.milestones == db.milestones && db'.requests == db.requests && db'.positions == db.positions
  {
    var db' := SetOffer(db, offerId, status, last);
    forall k: nat ensures PositionsOf(db', k) == PositionsOf(db, k) {
    }
  }

  /** With one active position, ending the milestone's active positions ends that one; with none, nothing. */
  lemma PositionsEnded(db: ReadModels, id: nat, status: PositionStatus, at: U64, last: nat)
    requires status != PositionActive
    ensures var db' := EndPositions(db, id, status, at, last); var before := RowsOf(db, id).positions;
            && Elsewhere(db, db', id) && db' == db.(positions := db'.positions)
            && RowsOf(db', id) == RowsOf(db, id).(positions := RowsOf(db', id).positions)
            && RowsOf(db', id).positions.Keys == before.Keys
            && forall k | k in before :: RowsOf(db', id).positions[k] ==
                 if before[k].status == PositionActive then Ended(before[k], status, at, last) else before[k]
  {
    var db' := EndPositions(db, id, status, at, last);
    forall k: nat | k != id ensures PositionsOf(db', k) == PositionsOf(db, k) {
    }
  }

  lemma ActiveAre(db: ReadModels, id: nat)
    ensures ActiveKeys(db, id) ==
            set k | k in RowsOf(db, id).positions && RowsOf(db, id).positions[k].status == PositionActive
  {
  }

  // ---- change by change -----------------------------------------------------------------------

  lemma RowsGive(db: ReadModels, id: nat)
    ensures RowsOf(db, id).milestone == Get(db.milestones, id) && RowsOf(db, id).request == Get(db.requests, id)
    ensures RowsOf(db, id).settlement == Get(db.settlements, id) && RowsOf(db, id).refund == Get(db.refunds, id)
    ensures RowsOf(db, id).anchor == Get(db.anchors, id)
  {
  }

  lemma DepositedReplays(self: Address, db: ReadModels, d: Delivered, order: Order, x: Slot, dispute: Option<Dispute>,
                         amount: I128)
    requires SlotOk(self, order, x, dispute) && Enabled(self, order, x, Deposited(amount)) && Ready(db, d,
            order.buyer, x)
    ensures var funded := x.milestone.funded + amount;
            Yields(ProjectMilestoneFunded(db, d, x.milestone.id, funded, funded == x.milestone.amount), db,
                    x.milestone.id,
                   order.buyer, Changed(self, order, x, Deposited(amount)), d.id + 1, db.offers, db.disputes)
  {
  }

  lemma UnwoundReplays(self: Address, db: ReadModels, d: Delivered, order: Order, x: Slot, dispute: Option<Dispute>)
    requires SlotOk(self, order, x, dispute) && Enabled(self, order, x, Unwound) && Ready(db, d, order.buyer, x)
    ensures Yields(ProjectPartialFundingCancelled(db, d, x.milestone.id), db, x.milestone.id,
                   order.buyer, Changed(self, order, x, Unwound), d.id + 1, db.offers, db.disputes)
  {
  }

  /** A new request's row is written whether or not an earlier round left one. */
  lemma RequestRowBecomes(db: ReadModels, d: Delivered, order: Order, x: Slot, principal: I128, expiresAt: U64)
    requires Ready(db, d, order.buyer, x) && 0 < principal && 0 <= x.milestone.funded
            && 0 < expiresAt <= MAX_DATE_SECONDS
    ensures var id := x.milestone.id;
            var p := ProjectFinanceRequested(db, d, id, order.supplier, principal, x.milestone.funded, expiresAt);
            && p.Ok? && p.value.1
            && p.value.0 == db.(milestones := p.value.0.milestones, requests := p.value.0.requests)
            && Elsewhere(db, p.value.0, id)
            && RowsOf(p.value.0, id) == RowsOf(db, id).(
                 milestone := Some(db.milestones[id].(status := FinanceRequested, last := d.id)),
                 request := RowsOf(p.value.0, id).request)
            && RowsOf(p.value.0, id).request.Some?
            && var w := RowsOf(p.value.0, id).request.value;
               && w.supplier == order.supplier && w.principal == principal && w.protectedAmount == x.milestone.funded
               && w.status == RequestOpen && w.expiresAt == expiresAt && w.last == d.id
  {
    hide RowsOf, PutMilestone, PutRequest, Elsewhere, RefundMatches, SettlementMatches, AnchorMatches, PositionsMatch;
    DateFits(expiresAt);
    var id := x.milestone.id;
    RowsGive(db, id);
    var m := db.milestones[id];
    if id in db.requests {
      var row := RequestRow(order.supplier, principal, x.milestone.funded, RequestOpen, expiresAt, None,
                            db.requests[id].createdAt, d.id);
      RequestRowWritten(db, id, row, d.id);
      var db1 := PutRequest(db, id, row, d.id);
      MilestoneRowWritten(db1, id, m.(status := FinanceRequested), d.id);
      ElsewhereThen(db, db1, PutMilestone(db1, id, m.(status := FinanceRequested), d.id), id);
    } else {
      var row := RequestRow(order.supplier, principal, x.milestone.funded, RequestOpen, expiresAt, None, d.at, d.id);
      RequestRowAdded(db, id, row);
      var db1 := db.(requests := db.requests[id := row]);
      MilestoneRowWritten(db1, id, m.(status := FinanceRequested), d.id);
      ElsewhereThen(db, db1, PutMilestone(db1, id, m.(status := FinanceRequested), d.id), id);
    }
  }

  lemma RequestedReplays(self: Address, db: ReadModels, d: Delivered, order: Order, x: Slot, dispute: Option<Dispute>,
                         principal: I128, expiresAt: U64)
    requires SlotOk(self, order, x, dispute) && Enabled(self, order, x, Requested(principal, expiresAt, d.at))
    requires Ready(db, d, order.buyer, x) && expiresAt > 0
    ensures var c := Requested(principal, expiresAt, d.at); var m := x.milestone;
            var p := ProjectFinanceRequested(db, d, m.id, order.supplier, principal, m.funded, expiresAt);
            && (p.Ok? <==> expiresAt <= MAX_DATE_SECONDS)
            && (p.Ok? ==> Yields(p, db, m.id, order.buyer, Changed(self, order, x, c), d.id + 1, db.offers,
                    db.disputes))
  {
    hide RowsOf, PutMilestone, PutRequest, Elsewhere, StageOk, LedgerTimeToDate, Storable;
    DateFits(expiresAt);
    RowsGive(db, x.milestone.id);
    RequestedHolds(self, order, x, dispute, Requested(principal, expiresAt, d.at));
    if expiresAt <= MAX_DATE_SECONDS {
      RequestRowBecomes(db, d, order, x, principal, expiresAt);
    }
  }

  lemma RequestedHolds(self: Address, order: Order, x: Slot, dispute: Option<Dispute>, c: Change)
    requires SlotOk(self, order, x, dispute) && Enabled(self, order, x, c) && c.Requested?
    ensures 0 < c.principal && x.milestone.funded == x.milestone.amount > 0
  {
  }

  lemma WithdrawnReplays(self: Address, db: ReadModels, d: Delivered, order: Order, x: Slot, dispute: Option<Dispute>,
                         wasExpired: bool)
    requires SlotOk(self, order, x, dispute) && Enabled(self, order, x, Withdrawn(wasExpired)) && Ready(db, d,
            order.buyer, x)
    ensures Yields(ProjectFinanceRequestCancelled(db, d, x.milestone.id, wasExpired), db, x.milestone.id,
                   order.buyer, Changed(self, order, x, Withdrawn(wasExpired)), d.id + 1, db.offers, db.disputes)
  {
  }

  lemma EvidencedReplays(self: Address, db: ReadModels, d: Delivered, order: Order, x: Slot, dispute: Option<Dispute>,
                         digest: Digest)
    requires SlotOk(self, order, x, dispute) && Enabled(self, order, x, Evidenced(digest)) && Ready(db, d,
            order.buyer, x)
    ensures Yields(ProjectEvidenceSubmitted(db, d, x.milestone.id, digest), db, x.milestone.id,
                   order.buyer, Changed(self, order, x, Evidenced(digest)), d.id + 1, db.offers, db.disputes)
  {
    hide RowsOf, PutMilestone, Elsewhere, SlotOk;
    var id := x.milestone.id;
    RowsGive(db, id);
    var row := db.milestones[id].(evidence := Some(digest), status := Submitted);
    MilestoneRowWritten(db, id, row, d.id);
    var db1 := PutMilestone(db, id, row, d.id);
    RowsGive(db1, id);
    AnchorRowAdded(db1, id, AnchorRow(digest, d.at, d.id));
    ElsewhereThen(db, db1, db1.(anchors := db1.anchors[id := AnchorRow(digest, d.at, d.id)]), id);
  }

  lemma AttestedReplays(self: Address, db: ReadModels, d: Delivered, order: Order, x: Slot, dispute: Option<Dispute>)
    requires SlotOk(self, order, x, dispute) && Enabled(self, order, x, Attested) && Ready(db, d, order.buyer, x)
    ensures x.milestone.evidence.Some?
    ensures Yields(ProjectMilestoneVerified(db, d, x.milestone.id, x.milestone.evidence.value), db, x.milestone.id,
                   order.buyer, Changed(self, order, x, Attested), d.id + 1, db.offers, db.disputes)
  {
  }

  lemma SelectedReplays(self: Address, db: ReadModels, d: Delivered, order: Order, x: Slot, dispute: Option<Dispute>,
                        offer: Offer)
    requires SlotOk(self, order, x, dispute) && Enabled(self, order, x, Selected(offer)) && Ready(db, d, order.buyer, x)
    requires offer.id <= U64_MAX && offer.id in db.offers && db.offers[offer.id].last < d.id
    ensures Yields(ProjectOfferAccepted(db, d, x.milestone.id, offer.id), db, x.milestone.id,
                   order.buyer, Changed(self, order, x, Selected(offer)), d.id + 1,
                   SetOffer(db, offer.id, OfferAccepted, d.id).offers, db.disputes)
  {
    hide RowsOf, PutRequest, SetOffer, Elsewhere, SlotOk;
    var id := x.milestone.id;
    RowsGive(db, id);
    OfferRowSet(db, offer.id, OfferAccepted, d.id, id);
    var db1 := SetOffer(db, offer.id, OfferAccepted, d.id);
    var row := db.requests[id].(status := RequestAccepted);
    RequestRowWritten(db1, id, row, d.id);
    ElsewhereThen(db, db1, PutRequest(db1, id, row, d.id), id);
  }

  /** An advance adds the milestone's only position row and marks its offer funded. */
  lemma AdvanceRows(db: ReadModels, d: Delivered, id: nat, a: Offer, supplier: Address, funded: int)
    requires id <= U64_MAX && a.id <= U64_MAX && a.id in db.offers && id in db.milestones
            && db.milestones[id].last < d.id
    requires 0 <= a.principal && 0 <= a.repayment && 0 <= funded <= I128_MAX && RowsOf(db, id).positions == map[]
    ensures var p := ProjectAdvanceFunded(db, d, id, a.id, a.funder, supplier, a.principal, a.repayment, funded);
            var row := PositionRow(a.funder, supplier, a.principal, a.repayment, funded, PositionActive, d.at, None,
                    None, d.id);
            && p.Ok? && p.value.1
            && p.value.0 == db.(milestones := p.value.0.milestones, positions := p.value.0.positions,
                    offers := p.value.0.offers)
            && p.value.0.offers == SetOffer(db, a.id, OfferFunded, d.id).offers
            && Elsewhere(db, p.value.0, id)
            && RowsOf(p.value.0, id) == RowsOf(db, id).(
                 milestone := Some(db.milestones[id].(status := Financed, last := d.id)),
                 positions := map[(id, a.id) := row])
  {
    hide RowsOf, PutMilestone, SetOffer, Elsewhere, ActiveKeys;
    ActiveAre(db, id);
    NoPositions(db, id, a.id);
    var row := PositionRow(a.funder, supplier, a.principal, a.repayment, funded, PositionActive, d.at, None, None,
            d.id);
    PositionRowAdded(db, id, a.id, row);
    var db1 := db.(positions := db.positions[(id, a.id) := row]);
    OfferRowSet(db1, a.id, OfferFunded, d.id, id);
    var db2 := SetOffer(db1, a.id, OfferFunded, d.id);
    OfferRowsAlone(db, db1, a.id, OfferFunded, d.id);
    var m := db.milestones[id].(status := Financed);
    MilestoneRowWritten(db2, id, m, d.id);
    ElsewhereThen(db, db1, db2, id);
    ElsewhereThen(db, db2, PutMilestone(db2, id, m, d.id), id);
  }

  lemma AdvancedReplays(self: Address, db: ReadModels, d: Delivered, order: Order, x: Slot, dispute: Option<Dispute>)
    requires SlotOk(self, order, x, dispute) && Enabled(self, order, x, Advanced(d.at)) && Ready(db, d, order.buyer, x)
    requires x.accepted.value.id in db.offers
    ensures var a := x.accepted.value; var id := x.milestone.id;
            Yields(ProjectAdvanceFunded(db, d, id, a.id, a.funder, order.supplier, a.principal, a.repayment,
                    x.milestone.funded),
                   db, id, order.buyer, Changed(self, order, x, Advanced(d.at)), d.id + 1,
                   SetOffer(db, a.id, OfferFunded, d.id).offers, db.disputes)
  {
    hide RowsOf, ProjectAdvanceFunded, SetOffer, Elsewhere, SlotOk;
    SeekingMeans(self, order, x, dispute);
    RowsGive(db, x.milestone.id);
    AdvanceRows(db, d, x.milestone.id, x.accepted.value, order.supplier, x.milestone.funded);
  }

  lemma OfferRowsAlone(db: ReadModels, db1: ReadModels, offerId: nat, status: OfferStatus, last: nat)
    requires offerId in db.offers && db1.offers == db.offers
    ensures SetOffer(db1, offerId, status, last).offers == SetOffer(db, offerId, status, last).offers
  {
  }

  lemma NoPositions(db: ReadModels, id: nat, offerId: nat)
    requires RowsOf(db, id).positions == map[]
    ensures (id, offerId) !in db.positions
  {
    assert (id, offerId) in db.positions ==> (id, offerId) in PositionsOf(db, id);
  }

  lemma LapsedReplays(self: Address, db: ReadModels, d: Delivered, order: Order, x: Slot, dispute: Option<Dispute>,
                      reopened: bool)
    requires SlotOk(self, order, x, dispute) && Enabled(self, order, x, Lapsed(reopened)) && Ready(db, d, order.buyer,
            x)
    requires x.accepted.value.id in db.offers
    ensures var a := x.accepted.value; var id := x.milestone.id;
            Yields(ProjectAcceptanceReleased(db, d, id, a.id, reopened), db, id,
                   order.buyer, Changed(self, order, x, Lapsed(reopened)), d.id + 1,
                   SetOffer(db, a.id, OfferCancelled, d.id).offers, db.disputes)
  {
    hide RowsOf, PutMilestone, PutRequest, SetOffer, Elsewhere, SlotOk;
    var a := x.accepted.value;
    var id := x.milestone.id;
    RowsGive(db, id);
    OfferRowSet(db, a.id, OfferCancelled, d.id, id);
    var db1 := SetOffer(db, a.id, OfferCancelled, d.id);
    var row := db.requests[id].(status := if reopened then RequestOpen else RequestCancelled);
    RequestRowWritten(db1, id, row, d.id);
    var db2 := PutRequest(db1, id, row, d.id);
    var m := db.milestones[id].(status := if reopened then FinanceRequested else Funded);
    MilestoneRowWritten(db2, id, m, d.id);
    ElsewhereThen(db, db1, db2, id);
    ElsewhereThen(db, db2, PutMilestone(db2, id, m, d.id), id);
  }

  lemma ContestedReplays(self: Address, db: ReadModels, d: Delivered, order: Order, x: Slot, dispute: Option<Dispute>,
                         raised: Dispute)
    requires SlotOk(self, order, x, dispute) && Enabled(self, order, x, Contested(raised)) && Ready(db, d,
            order.buyer, x)
    requires raised.id <= U64_MAX && raised.id !in db.disputes
    ensures var row := DisputeRow(x.milestone.id, raised.openedBy, order.resolver, DisputeOpen, d.at, None, d.id);
            Yields(ProjectDisputeOpened(db, d, x.milestone.id, raised.id, raised.openedBy, order.resolver), db,
                    x.milestone.id,
                   order.buyer, Changed(self, order, x, Contested(raised)), d.id + 1,
                   db.offers, db.disputes[raised.id := row])
  {
    hide RowsOf, PutMilestone, Elsewhere, SlotOk;
    var id := x.milestone.id;
    RowsGive(db, id);
    var row := DisputeRow(id, raised.openedBy, order.resolver, DisputeOpen, d.at, None, d.id);
    var db1 := db.(disputes := db.disputes[raised.id := row]);
    DisputeRowsApart(db, db1, id);
    MilestoneRowWritten(db1, id, db.milestones[id].(status := Disputed), d.id);
    ElsewhereThen(db, db1, PutMilestone(db1, id, db.milestones[id].(status := Disputed), d.id), id);
  }

  lemma DisputeRowsApart(db: ReadModels, db1: ReadModels, id: nat)
    requires db1 == db.(disputes := db1.disputes)
    ensures RowsOf(db1, id) == RowsOf(db, id) && Elsewhere(db, db1, id)
  {
    forall k: nat ensures PositionsOf(db1, k) == PositionsOf(db, k) {
    }
  }

  lemma UpheldReplays(self: Address, db: ReadModels, d: Delivered, order: Order, x: Slot, dispute: Option<Dispute>)
    requires SlotOk(self, order, x, dispute) && Enabled(self, order, x, Upheld) && Ready(db, d, order.buyer, x)
    requires dispute.Some? && dispute.value.id <= U64_MAX && dispute.value.id in db.disputes
    requires db.disputes[dispute.value.id].milestoneId == x.milestone.id && db.disputes[dispute.value.id].last < d.id
    ensures var row := db.disputes[dispute.value.id].(status := ResolvedSettle, resolvedAt := Some(d.at), last := d.id);
            Yields(ProjectDisputeResolved(db, d, dispute.value.id, true), db, x.milestone.id,
                   order.buyer, Changed(self, order, x, Upheld), d.id + 1,
                   db.offers, db.disputes[dispute.value.id := row])
  {
    hide RowsOf, PutMilestone, Elsewhere, SlotOk;
    var id := x.milestone.id;
    RowsGive(db, id);
    var row := db.disputes[dispute.value.id].(status := ResolvedSettle, resolvedAt := Some(d.at), last := d.id);
    var db1 := db.(disputes := db.disputes[dispute.value.id := row]);
    DisputeRowsApart(db, db1, id);
    MilestoneRowWritten(db1, id, db.milestones[id].(status := Verified), d.id);
    ElsewhereThen(db, db1, PutMilestone(db1, id, db.milestones[id].(status := Verified), d.id), id);
  }

  /** A settlement adds its row, empties the milestone and, if a funder is repaid, ends the one active position. */
  lemma SettlementRows(db: ReadModels, d: Delivered, orderId: nat, id: nat, total: int, owed: int, rest: int)
    requires id <= U64_MAX && orderId <= U64_MAX && id in db.milestones && db.milestones[id].last < d.id
    requires id !in db.settlements && 0 <= owed <= I128_MAX && 0 <= total <= I128_MAX && 0 <= rest <= I128_MAX
    requires owed > 0 ==> |ActiveKeys(db, id)| == 1
    ensures var p := ProjectMilestoneSettled(db, d, orderId, id, total, owed, rest);
            && p.Ok? && p.value.1
            && p.value.0 == db.(milestones := p.value.0.milestones, settlements := p.value.0.settlements,
                                positions := p.value.0.positions)
            && Elsewhere(db, p.value.0, id)
            && RowsOf(p.value.0, id) == RowsOf(db, id).(
                 milestone := Some(db.milestones[id].(status := Settled, funded := 0, last := d.id)),
                 settlement := Some(SettlementRow(orderId, total, owed, rest, d.at, d.id)),
                 positions := if owed > 0 then RowsOf(EndPositions(db, id, PositionRepaid, d.at, d.id), id).positions
                              else RowsOf(db, id).positions)
  {
    hide RowsOf, PutMilestone, EndPositions, Elsewhere, ActiveKeys;
    RowsGive(db, id);
    var row := SettlementRow(orderId, total, owed, rest, d.at, d.id);
    SettlementRowAdded(db, id, row);
    var db1 := db.(settlements := db.settlements[id := row]);
    var m := db.milestones[id].(status := Settled, funded := 0);
    MilestoneRowWritten(db1, id, m, d.id);
    var db2 := PutMilestone(db1, id, m, d.id);
    ElsewhereThen(db, db1, db2, id);
    if owed > 0 {
      PositionsAlone(db, db2, id, PositionRepaid, d.at, d.id);
      PositionsEnded(db2, id, PositionRepaid, d.at, d.id);
      ElsewhereThen(db, db2, EndPositions(db2, id, PositionRepaid, d.at, d.id), id);
    }
  }

  lemma PositionsAlone(db: ReadModels, db2: ReadModels, id: nat, status: PositionStatus, at: U64, last: nat)
    requires db2.positions == db.positions
    ensures ActiveKeys(db2, id) == ActiveKeys(db, id)
    ensures RowsOf(EndPositions(db2, id, status, at, last), id).positions == RowsOf(EndPositions(db, id, status, at,
            last), id).positions
  {
  }

  /** The active positions a milestone's rows hold, and what ending them leaves. */
  lemma OnePosition(db: ReadModels, buyer: Address, x: Slot, status: PositionStatus, at: U64, last: nat, bound: nat)
    requires SlotMatches(buyer, x, RowsOf(db, x.milestone.id), bound) && status != PositionActive
    requires x.position.Some? ==> x.position.value.status == PositionActive
    ensures var id := x.milestone.id;
            && |ActiveKeys(db, id)| == (if x.position.Some? then 1 else 0)
            && PositionsMatch(WithPosition(x, status), RowsOf(EndPositions(db, id, status, at, last), id).positions)
            && RowsOf(EndPositions(db, id, status, at, last), id).positions.Keys == RowsOf(db, id).positions.Keys
  {
    hide RowsOf, EndPositions, ActiveKeys, MilestoneMatches, RequestMatches, SettlementMatches, RefundMatches;
    hide AnchorMatches;
    ActiveAre(db, x.milestone.id);
    PositionsEnded(db, x.milestone.id, status, at, last);
    if x.position.Some? {
      var key: (nat, nat) := (x.milestone.id, x.position.value.offerId);
      assert ActiveKeys(db, x.milestone.id) == {key};
    } else {
      assert ActiveKeys(db, x.milestone.id) == {};
    }
  }

  lemma PaidRows(self: Address, order: Order, x: Slot, dispute: Option<Dispute>, rows: Rows, after: Rows, at: U64,
                 last: nat)
    requires SlotOk(self, order, x, dispute) && Enabled(self, order, x, Paid)
    requires SlotMatches(order.buyer, x, rows, last)
    requires rows.milestone.Some? && PositionsMatch(WithPosition(x, PositionRepaid), after.positions)
    requires var m := x.milestone; var owed := OwedToFunder(x);
             after == rows.(milestone := Some(rows.milestone.value.(status := Settled, funded := 0, last := last)),
                            settlement := Some(SettlementRow(m.orderId, m.funded, owed, m.funded - owed, at, last)),
                            positions := after.positions)
    ensures SlotMatches(order.buyer, Changed(self, order, x, Paid), after, last + 1)
  {
    hide SlotOk, PositionsMatch;
    OwedWhenFinanced(self, order, x, dispute);
    PositionsIgnoreStatus(WithPosition(x, PositionRepaid), Changed(self, order, x, Paid), after.positions);
  }

  lemma PaidReplays(self: Address, db: ReadModels, d: Delivered, order: Order, x: Slot, dispute: Option<Dispute>)
    requires SlotOk(self, order, x, dispute) && Enabled(self, order, x, Paid) && Ready(db, d, order.buyer, x)
    ensures var m := x.milestone;
            Yields(ProjectMilestoneSettled(db, d, m.orderId, m.id, m.funded, OwedToFunder(x),
                    m.funded - OwedToFunder(x)),
                   db, m.id, order.buyer, Changed(self, order, x, Paid), d.id + 1, db.offers, db.disputes)
  {
    hide RowsOf, ProjectMilestoneSettled, EndPositions, ActiveKeys, Elsewhere, SlotOk, SlotMatches, Changed;
    var m := x.milestone;
    OwedWhenFinanced(self, order, x, dispute);
    OpenRows(order.buyer, x, db, d.id);
    OnePosition(db, order.buyer, x, PositionRepaid, d.at, d.id, d.id);
    SettlementRows(db, d, m.orderId, m.id, m.funded, OwedToFunder(x), m.funded - OwedToFunder(x));
    var p := ProjectMilestoneSettled(db, d, m.orderId, m.id, m.funded, OwedToFunder(x), m.funded - OwedToFunder(x));
    PaidRows(self, order, x, dispute, RowsOf(db, m.id), RowsOf(p.value.0, m.id), d.at, d.id);
  }

  /** The rows of a milestone that is neither settled nor refunded. */
  lemma OpenRows(buyer: Address, x: Slot, db: ReadModels, bound: nat)
    requires SlotMatches(buyer, x, RowsOf(db, x.milestone.id), bound) && !Terminal(x.milestone.status)
    ensures var id := x.milestone.id;
            && id in db.milestones && db.milestones[id].last < bound && id !in db.settlements && id !in db.refunds
            && RowsOf(db, id).milestone == Some(db.milestones[id])
            && PositionsMatch(x, RowsOf(db, id).positions)
  {
    hide PositionsOf, PositionsMatch;
  }

  lemma PositionsIgnoreStatus(x: Slot, y: Slot, rows: map<(nat, nat), PositionRow>)
    requires y.position == x.position && y.milestone.id == x.milestone.id && y.milestone.amount == x.milestone.amount
    ensures PositionsMatch(y, rows) == PositionsMatch(x, rows)
  {
  }

  lemma OwedWhenFinanced(self: Address, order: Order, x: Slot, dispute: Option<Dispute>)
    requires SlotOk(self, order, x, dispute) && (x.milestone.status == Verified || x.milestone.status == Disputed)
    ensures x.milestone.funded == x.milestone.amount > 0
    ensures x.position.Some? ==>
              && x.position.value.status == PositionActive && x.position.value.principal > 0
              && 0 < OwedToFunder(x) <= x.milestone.funded
    ensures x.position.None? ==> OwedToFunder(x) == 0
  {
  }

  lemma RefundRows(db: ReadModels, d: Delivered, orderId: nat, id: nat, buyer: Address, amount: int, outstanding: int)
    requires id <= U64_MAX && orderId <= U64_MAX && id in db.milestones && db.milestones[id].last < d.id
    requires id !in db.refunds && 0 <= amount <= I128_MAX && 0 <= outstanding <= I128_MAX
    requires |ActiveKeys(db, id)| == (if outstanding > 0 then 1 else 0)
    ensures var p := ProjectMilestoneRefunded(db, d, orderId, id, buyer, amount, outstanding);
            && p.Ok? && p.value.1
            && p.value.0 == db.(milestones := p.value.0.milestones, refunds := p.value.0.refunds,
                                positions := p.value.0.positions)
            && Elsewhere(db, p.value.0, id)
            && RowsOf(p.value.0, id) == RowsOf(db, id).(
                 milestone := Some(db.milestones[id].(status := Refunded, funded := 0, last := d.id)),
                 refund := Some(RefundRow(orderId, buyer, amount, outstanding, d.at, d.id)),
                 positions := RowsOf(EndPositions(db, id, PositionClosed, d.at, d.id), id).positions)
  {
    hide RowsOf, PutMilestone, EndPositions, Elsewhere, ActiveKeys;
    RowsGive(db, id);
    var row := RefundRow(orderId, buyer, amount, outstanding, d.at, d.id);
    RefundRowAdded(db, id, row);
    var db1 := db.(refunds := db.refunds[id := row]);
    var m := db.milestones[id].(status := Refunded, funded := 0);
    MilestoneRowWritten(db1, id, m, d.id);
    var db2 := PutMilestone(db1, id, m, d.id);
    ElsewhereThen(db, db1, db2, id);
    PositionsAlone(db, db2, id, PositionClosed, d.at, d.id);
    PositionsEnded(db2, id, PositionClosed, d.at, d.id);
    ElsewhereThen(db, db2, EndPositions(db2, id, PositionClosed, d.at, d.id), id);
  }

  lemma ReturnedRows(self: Address, order: Order, x: Slot, dispute: Option<Dispute>, rows: Rows, after: Rows, at: U64,
                     last: nat)
    requires SlotOk(self, order, x, dispute) && Enabled(self, order, x, Returned)
    requires SlotMatches(order.buyer, x, rows, last)
    requires rows.milestone.Some? && PositionsMatch(WithPosition(x, PositionClosed), after.positions)
    requires var m := x.milestone;
             after == rows.(milestone := Some(rows.milestone.value.(status := Refunded, funded := 0, last := last)),
                            refund := Some(RefundRow(m.orderId, order.buyer, m.funded, OutstandingAdvance(x), at,
                                    last)),
                            positions := after.positions)
    ensures SlotMatches(order.buyer, Changed(self, order, x, Returned), after, last + 1)
  {
    hide SlotOk, PositionsMatch;
    OwedWhenFinanced(self, order, x, dispute);
    PositionsIgnoreStatus(WithPosition(x, PositionClosed), Changed(self, order, x, Returned), after.positions);
  }

  lemma ReturnedReplays(self: Address, db: ReadModels, d: Delivered, order: Order, x: Slot, dispute: Option<Dispute>)
    requires SlotOk(self, order, x, dispute) && Enabled(self, order, x, Returned) && Ready(db, d, order.buyer, x)
    ensures var m := x.milestone;
            Yields(ProjectMilestoneRefunded(db, d, m.orderId, m.id, order.buyer, m.funded, OutstandingAdvance(x)),
                   db, m.id, order.buyer, Changed(self, order, x, Returned), d.id + 1, db.offers, db.disputes)
  {
    hide RowsOf, ProjectMilestoneRefunded, EndPositions, ActiveKeys, Elsewhere, SlotOk, SlotMatches, Changed;
    var m := x.milestone;
    OwedWhenFinanced(self, order, x, dispute);
    OpenRows(order.buyer, x, db, d.id);
    OnePosition(db, order.buyer, x, PositionClosed, d.at, d.id, d.id);
    RefundRows(db, d, m.orderId, m.id, order.buyer, m.funded, OutstandingAdvance(x));
    var p := ProjectMilestoneRefunded(db, d, m.orderId, m.id, order.buyer, m.funded, OutstandingAdvance(x));
    ReturnedRows(self, order, x, dispute, RowsOf(db, m.id), RowsOf(p.value.0, m.id), d.at, d.id);
  }

  /** The resolving half of a refund touches the dispute's row only. */
  lemma RefundResolutionReplays(db: ReadModels, d: Delivered, disputeId: nat, id: nat)
    requires disputeId <= U64_MAX && disputeId in db.disputes && db.disputes[disputeId].last < d.id
    requires db.disputes[disputeId].milestoneId == id && id in db.milestones
    ensures var row := db.disputes[disputeId].(status := ResolvedRefund, resolvedAt := Some(d.at), last := d.id);
            var p := ProjectDisputeResolved(db, d, disputeId, false);
            && p.Ok? && p.value.1 && p.value.0 == db.(disputes := db.disputes[disputeId := row])
            && RowsOf(p.value.0, id) == RowsOf(db, id) && Elsewhere(db, p.value.0, id)
  {
    hide RowsOf, Elsewhere;
    var row := db.disputes[disputeId].(status := ResolvedRefund, resolvedAt := Some(d.at), last := d.id);
    DisputeRowsApart(db, db.(disputes := db.disputes[disputeId := row]), id);
  }
}
