/** What one event does to any tables at all: which rows move, how far, and what times they keep. */
module RowHistory {
  import opened Wrappers
  import opened Types
  import opened Projector

  /** A row that moves is newer afterwards, and as new as the event. */
  predicate Moves(before: nat, after: nat, d: Delivered) {
    before < after == d.id
  }

  predicate OrderStep(x: Option<OrderRow>, y: Option<OrderRow>, d: Delivered) {
    if x.None? then y.Some? ==> y.value.createdAt == d.at && y.value.last == d.id && y.value.status == Created
    else
      && y.Some?
      && (y == x || (Moves(x.value.last, y.value.last, d)
                     && y.value == x.value.(status := y.value.status, last := y.value.last)))
  }

  predicate MilestoneStep(x: Option<MilestoneRow>, y: Option<MilestoneRow>, d: Delivered) {
    if x.None? then
      y.Some? ==>
        && y.value.createdAt == d.at && y.value.last == d.id && y.value.status == Unfunded && y.value.funded == 0
        && y.value.evidence.None?
    else
      && y.Some?
      && (y == x || (Moves(x.value.last, y.value.last, d)
                     && y.value == x.value.(funded := y.value.funded, evidence := y.value.evidence,
                                            status := y.value.status, last := y.value.last)))
  }

  /** A request keeps the time it was first made; whether it had lapsed is known from its closing on, until the next
      request. */
  predicate RequestStep(x: Option<RequestRow>, y: Option<RequestRow>, d: Delivered) {
    if x.None? then
      y.Some? ==> y.value.createdAt == d.at && y.value.last == d.id && y.value.cancelledWhileExpired.None?
    else
      && y.Some?
      && (y == x || (&& Moves(x.value.last, y.value.last, d) && y.value.createdAt == x.value.createdAt && d.body.Some?
                     && y.value.cancelledWhileExpired ==
                        match d.body.value
                        case FinanceRequestClosed(_, _, wasExpired) => Some(wasExpired)
                        case FinanceRequestOpened(_, _, _, _, _) => None
                        case _ => x.value.cancelledWhileExpired))
  }

  predicate OfferStep(x: Option<OfferRow>, y: Option<OfferRow>, d: Delivered) {
    if x.None? then y.Some? ==> y.value.createdAt == d.at && y.value.last == d.id && y.value.status == OfferOpen
    else
      && y.Some?
      && (y == x || (y.value.last == d.id && y.value == x.value.(status := y.value.status, last := d.id)))
  }

  /** A position ends at the time of the event that ends it. */
  predicate PositionStep(x: Option<PositionRow>, y: Option<PositionRow>, d: Delivered) {
    if x.None? then
      y.Some? ==>
        && y.value.fundedAt == d.at && y.value.last == d.id && y.value.status == PositionActive
        && y.value.repaidAt.None? && y.value.closedAt.None?
    else
      && y.Some?
      && (|| y == x
          || (&& x.value.status == PositionActive
              && (|| y.value == x.value.(status := PositionRepaid, repaidAt := Some(d.at), last := d.id)
                  || y.value == x.value.(status := PositionClosed, closedAt := Some(d.at), last := d.id))))
  }

  predicate DisputeStep(x: Option<DisputeRow>, y: Option<DisputeRow>, d: Delivered) {
    if x.None? then
      y.Some? ==>
        y.value.openedAt == d.at && y.value.last == d.id && y.value.status == DisputeOpen && y.value.resolvedAt.None?
    else
      && y.Some?
      && (y == x || (Moves(x.value.last, y.value.last, d)
                     && y.value == x.value.(status := y.value.status, resolvedAt := Some(d.at), last := d.id)))
  }

  /** Settlements and refunds are written once and never touched again. */
  predicate SettlementStep(x: Option<SettlementRow>, y: Option<SettlementRow>, d: Delivered) {
    if x.None? then y.Some? ==> y.value.settledAt == d.at && y.value.last == d.id else y == x
  }

  predicate RefundStep(x: Option<RefundRow>, y: Option<RefundRow>, d: Delivered) {
    if x.None? then y.Some? ==> y.value.refundedAt == d.at && y.value.last == d.id else y == x
  }

  predicate AnchorStep(x: Option<AnchorRow>, y: Option<AnchorRow>, d: Delivered) {
    if x.None? then y.Some? ==> y.value.submittedAt == d.at && y.value.last == d.id
    else y.Some? && (y == x || (Moves(x.value.last, y.value.last, d) && y.value.submittedAt == d.at))
  }

  // ---- whole tables -----------------------------------------------------------------------------

  ghost predicate OrdersStep(x: map<nat, OrderRow>, y: map<nat, OrderRow>, d: Delivered) {
    forall id :: OrderStep(Get(x, id), Get(y, id), d)
  }

  ghost predicate MilestonesStep(x: map<nat, MilestoneRow>, y: map<nat, MilestoneRow>, d: Delivered) {
    forall id :: MilestoneStep(Get(x, id), Get(y, id), d)
  }

  ghost predicate RequestsStep(x: map<nat, RequestRow>, y: map<nat, RequestRow>, d: Delivered) {
    forall id :: RequestStep(Get(x, id), Get(y, id), d)
  }

  ghost predicate OffersStep(x: map<nat, OfferRow>, y: map<nat, OfferRow>, d: Delivered) {
    forall id :: OfferStep(Get(x, id), Get(y, id), d)
  }

  ghost predicate PositionsStep(x: map<(nat, nat), PositionRow>, y: map<(nat, nat), PositionRow>, d: Delivered) {
    forall key :: PositionStep(Get(x, key), Get(y, key), d)
  }

  ghost predicate DisputesStep(x: map<nat, DisputeRow>, y: map<nat, DisputeRow>, d: Delivered) {
    forall id :: DisputeStep(Get(x, id), Get(y, id), d)
  }

  ghost predicate SettlementsStep(x: map<nat, SettlementRow>, y: map<nat, SettlementRow>, d: Delivered) {
    forall id :: SettlementStep(Get(x, id), Get(y, id), d)
  }

  ghost predicate RefundsStep(x: map<nat, RefundRow>, y: map<nat, RefundRow>, d: Delivered) {
    forall id :: RefundStep(Get(x, id), Get(y, id), d)
  }

  ghost predicate AnchorsStep(x: map<nat, AnchorRow>, y: map<nat, AnchorRow>, d: Delivered) {
    forall id :: AnchorStep(Get(x, id), Get(y, id), d)
  }

  ghost predicate Steps(x: ReadModels, y: ReadModels, d: Delivered) {
    && OrdersStep(x.orders, y.orders, d) && MilestonesStep(x.milestones, y.milestones, d)
    && RequestsStep(x.requests, y.requests, d) && OffersStep(x.offers, y.offers, d)
    && PositionsStep(x.positions, y.positions, d) && DisputesStep(x.disputes, y.disputes, d)
    && SettlementsStep(x.settlements, y.settlements, d) && RefundsStep(x.refunds, y.refunds, d)
    && AnchorsStep(x.anchors, y.anchors, d)
  }

  lemma NoStep(x: ReadModels, d: Delivered)
    ensures Steps(x, x, d)
  {
  }

  lemma OrderWritten(x: map<nat, OrderRow>, id: nat, row: OrderRow, d: Delivered)
    requires OrderStep(Get(x, id), Some(row), d)
    ensures OrdersStep(x, x[id := row], d)
  {
    assert forall k | k != id :: Get(x[id := row], k) == Get(x, k);
  }

  lemma MilestoneWritten(x: map<nat, MilestoneRow>, id: nat, row: MilestoneRow, d: Delivered)
    requires MilestoneStep(Get(x, id), Some(row), d)
    ensures MilestonesStep(x, x[id := row], d)
  {
    assert forall k | k != id :: Get(x[id := row], k) == Get(x, k);
  }

  lemma OfferWritten(x: map<nat, OfferRow>, id: nat, row: OfferRow, d: Delivered)
    requires OfferStep(Get(x, id), Some(row), d)
    ensures OffersStep(x, x[id := row], d)
  {
    assert forall k | k != id :: Get(x[id := row], k) == Get(x, k);
  }

  lemma SameMilestones(x: map<nat, MilestoneRow>, d: Delivered)
    ensures MilestonesStep(x, x, d)
  {
  }

  lemma MilestonePutSteps(db: ReadModels, id: nat, row: MilestoneRow, d: Delivered)
    requires id in db.milestones
    requires row == db.milestones[id].(funded := row.funded, evidence := row.evidence, status := row.status)
    ensures var y := PutMilestone(db, id, row, d.id);
            y == db.(milestones := y.milestones) && MilestonesStep(db.milestones, y.milestones, d)
  {
    hide MilestonesStep;
    if IsNewer(db.milestones[id].last, d.id) {
      MilestoneWritten(db.milestones, id, row.(last := d.id), d);
    } else {
      SameMilestones(db.milestones, d);
    }
  }

  lemma RequestWritten(x: map<nat, RequestRow>, id: nat, row: RequestRow, d: Delivered)
    requires RequestStep(Get(x, id), Some(row), d)
    ensures RequestsStep(x, x[id := row], d)
  {
    assert forall k | k != id :: Get(x[id := row], k) == Get(x, k);
  }

  lemma SameRequests(x: map<nat, RequestRow>, d: Delivered)
    ensures RequestsStep(x, x, d)
  {
  }

  lemma RequestPutSteps(db: ReadModels, id: nat, row: RequestRow, d: Delivered)
    requires id in db.requests && row.createdAt == db.requests[id].createdAt && d.body.Some?
    requires row.cancelledWhileExpired ==
             match d.body.value
             case FinanceRequestClosed(_, _, wasExpired) => Some(wasExpired)
             case FinanceRequestOpened(_, _, _, _, _) => None
             case _ => db.requests[id].cancelledWhileExpired
    ensures var y := PutRequest(db, id, row, d.id);
            y == db.(requests := y.requests) && RequestsStep(db.requests, y.requests, d)
  {
    hide RequestsStep;
    if IsNewer(db.requests[id].last, d.id) {
      RequestWritten(db.requests, id, row.(last := d.id), d);
    } else {
      SameRequests(db.requests, d);
    }
  }

  lemma OfferSetSteps(db: ReadModels, id: nat, status: OfferStatus, d: Delivered)
    requires id in db.offers
    ensures var y := SetOffer(db, id, status, d.id);
            y == db.(offers := y.offers) && OffersStep(db.offers, y.offers, d)
  {
    hide OffersStep;
    OfferWritten(db.offers, id, db.offers[id].(status := status, last := d.id), d);
  }

  lemma PositionWritten(x: map<(nat, nat), PositionRow>, key: (nat, nat), row: PositionRow, d: Delivered)
    requires PositionStep(Get(x, key), Some(row), d)
    ensures PositionsStep(x, x[key := row], d)
  {
    assert forall k | k != key :: Get(x[key := row], k) == Get(x, k);
  }

  lemma PositionsEndSteps(db: ReadModels, id: nat, status: PositionStatus, d: Delivered)
    requires status == PositionRepaid || status == PositionClosed
    ensures var y := EndPositions(db, id, status, d.at, d.id);
            y == db.(positions := y.positions) && PositionsStep(db.positions, y.positions, d)
  {
  }

  lemma DisputeWritten(x: map<nat, DisputeRow>, id: nat, row: DisputeRow, d: Delivered)
    requires DisputeStep(Get(x, id), Some(row), d)
    ensures DisputesStep(x, x[id := row], d)
  {
    assert forall k | k != id :: Get(x[id := row], k) == Get(x, k);
  }

  lemma SettlementWritten(x: map<nat, SettlementRow>, id: nat, row: SettlementRow, d: Delivered)
    requires id !in x && row.settledAt == d.at && row.last == d.id
    ensures SettlementsStep(x, x[id := row], d)
  {
    assert forall k | k != id :: Get(x[id := row], k) == Get(x, k);
  }

  lemma RefundWritten(x: map<nat, RefundRow>, id: nat, row: RefundRow, d: Delivered)
    requires id !in x && row.refundedAt == d.at && row.last == d.id
    ensures RefundsStep(x, x[id := row], d)
  {
    assert forall k | k != id :: Get(x[id := row], k) == Get(x, k);
  }

  lemma AnchorWritten(x: map<nat, AnchorRow>, id: nat, row: AnchorRow, d: Delivered)
    requires AnchorStep(Get(x, id), Some(row), d)
    ensures AnchorsStep(x, x[id := row], d)
  {
    assert forall k | k != id :: Get(x[id := row], k) == Get(x, k);
  }

  // ---- event by event ---------------------------------------------------------------------------

  lemma OrderStatusSteps(db: ReadModels, d: Delivered, orderId: nat, status: OrderStatus)
    ensures var p := ProjectOrderStatus(db, d, orderId, status);
            p.Ok? ==> Steps(db, p.value.0, d)
  {
    hide OrdersStep, MilestonesStep, RequestsStep, OffersStep, PositionsStep, DisputesStep, SettlementsStep;
    hide RefundsStep, AnchorsStep, PutMilestone, PutRequest, SetOffer, EndPositions, ReadAmount, ReadExpiry;
    NoStep(db, d);
    if orderId in db.orders && IsNewer(db.orders[orderId].last, d.id) {
      OrderWritten(db.orders, orderId, db.orders[orderId].(status := status, last := d.id), d);
    }
  }

  lemma MilestoneFundedSteps(db: ReadModels, d: Delivered, milestoneId: nat, fundedAmount: int, full: bool)
    ensures var p := ProjectMilestoneFunded(db, d, milestoneId, fundedAmount, full);
            p.Ok? ==> Steps(db, p.value.0, d)
  {
    hide OrdersStep, MilestonesStep, RequestsStep, OffersStep, PositionsStep, DisputesStep, SettlementsStep;
    hide RefundsStep, AnchorsStep, PutMilestone, PutRequest, SetOffer, EndPositions, ReadAmount, ReadExpiry;
    NoStep(db, d);
    var p := ProjectMilestoneFunded(db, d, milestoneId, fundedAmount, full);
    if p.Ok? && p.value.1 {
      var row := db.milestones[milestoneId].(funded := ReadAmount(fundedAmount).value,
                                             status := if full then Funded else Unfunded);
      MilestonePutSteps(db, milestoneId, row, d);
    }
  }

  lemma PartialFundingCancelledSteps(db: ReadModels, d: Delivered, milestoneId: nat)
    ensures var p := ProjectPartialFundingCancelled(db, d, milestoneId);
            p.Ok? ==> Steps(db, p.value.0, d)
  {
    hide OrdersStep, MilestonesStep, RequestsStep, OffersStep, PositionsStep, DisputesStep, SettlementsStep;
    hide RefundsStep, AnchorsStep, PutMilestone, PutRequest, SetOffer, EndPositions, ReadAmount, ReadExpiry;
    NoStep(db, d);
    if milestoneId in db.milestones {
      MilestonePutSteps(db, milestoneId, db.milestones[milestoneId].(funded := 0, status := Unfunded), d);
    }
  }

  lemma FinanceRequestedSteps(db: ReadModels, d: Delivered, milestoneId: nat, supplier: Address, principal: int,
                              protectedAmount: int, expiresAt: U64)
    requires d.body.Some? && d.body.value.FinanceRequestOpened?
    ensures var p := ProjectFinanceRequested(db, d, milestoneId, supplier, principal, protectedAmount, expiresAt);
            p.Ok? ==> Steps(db, p.value.0, d)
  {
    hide OrdersStep, MilestonesStep, RequestsStep, OffersStep, PositionsStep, DisputesStep, SettlementsStep;
    hide RefundsStep, AnchorsStep, PutMilestone, PutRequest, SetOffer, EndPositions, ReadAmount, ReadExpiry;
    NoStep(db, d);
    var p := ProjectFinanceRequested(db, d, milestoneId, supplier, principal, protectedAmount, expiresAt);
    if p.Ok? {
      var row := RequestRow(supplier, ReadAmount(principal).value, ReadAmount(protectedAmount).value, RequestOpen,
                            ReadExpiry(expiresAt).value, None, d.at, d.id);
      var db1 := NewRequestSteps(db, milestoneId, row, d);
      MilestonePutSteps(db1, milestoneId, db.milestones[milestoneId].(status := FinanceRequested), d);
    }
  }

  /** The request row of a new request, whether or not there was one before. */
  lemma NewRequestSteps(db: ReadModels, id: nat, row: RequestRow, d: Delivered) returns (db1: ReadModels)
    requires d.body.Some? && d.body.value.FinanceRequestOpened? && row.createdAt == d.at && row.last == d.id
    requires row.cancelledWhileExpired.None?
    ensures db1 == if id !in db.requests then db.(requests := db.requests[id := row])
                   else PutRequest(db, id, row.(createdAt := db.requests[id].createdAt), d.id)
    ensures db1 == db.(requests := db1.requests) && RequestsStep(db.requests, db1.requests, d)
  {
    hide RequestsStep, PutRequest;
    if id !in db.requests {
      db1 := db.(requests := db.requests[id := row]);
      RequestWritten(db.requests, id, row, d);
    } else {
      db1 := PutRequest(db, id, row.(createdAt := db.requests[id].createdAt), d.id);
      RequestPutSteps(db, id, row.(createdAt := db.requests[id].createdAt), d);
    }
  }

  lemma FinanceRequestCancelledSteps(db: ReadModels, d: Delivered, milestoneId: nat, wasExpired: bool)
    requires d.body.Some? && d.body.value.FinanceRequestClosed? && d.body.value.wasExpired == wasExpired
    ensures var p := ProjectFinanceRequestCancelled(db, d, milestoneId, wasExpired);
            p.Ok? ==> Steps(db, p.value.0, d)
  {
    hide OrdersStep, MilestonesStep, RequestsStep, OffersStep, PositionsStep, DisputesStep, SettlementsStep;
    hide RefundsStep, AnchorsStep, PutMilestone, PutRequest, SetOffer, EndPositions, ReadAmount, ReadExpiry;
    NoStep(db, d);
    if ProjectFinanceRequestCancelled(db, d, milestoneId, wasExpired).Ok? {
      var row := db.requests[milestoneId].(status := RequestCancelled, cancelledWhileExpired := Some(wasExpired));
      RequestPutSteps(db, milestoneId, row, d);
      MilestonePutSteps(PutRequest(db, milestoneId, row, d.id), milestoneId,
                        db.milestones[milestoneId].(status := Funded), d);
    }
  }

  lemma OfferCancelledSteps(db: ReadModels, d: Delivered, offerId: nat)
    ensures var p := ProjectOfferCancelled(db, d, offerId);
            p.Ok? ==> Steps(db, p.value.0, d)
  {
    hide OrdersStep, MilestonesStep, RequestsStep, OffersStep, PositionsStep, DisputesStep, SettlementsStep;
    hide RefundsStep, AnchorsStep, PutMilestone, PutRequest, SetOffer, EndPositions, ReadAmount, ReadExpiry;
    NoStep(db, d);
    if offerId in db.offers {
      OfferSetSteps(db, offerId, OfferCancelled, d);
    }
  }

  lemma OfferAcceptedSteps(db: ReadModels, d: Delivered, milestoneId: nat, offerId: nat)
    requires d.body.Some? && d.body.value.FundingOfferAccepted?
    ensures var p := ProjectOfferAccepted(db, d, milestoneId, offerId);
            p.Ok? ==> Steps(db, p.value.0, d)
  {
    hide OrdersStep, MilestonesStep, RequestsStep, OffersStep, PositionsStep, DisputesStep, SettlementsStep;
    hide RefundsStep, AnchorsStep, PutMilestone, PutRequest, SetOffer, EndPositions, ReadAmount, ReadExpiry;
    NoStep(db, d);
    var p := ProjectOfferAccepted(db, d, milestoneId, offerId);
    if p.Ok? && p.value.1 {
      OfferSetSteps(db, offerId, OfferAccepted, d);
      RequestPutSteps(SetOffer(db, offerId, OfferAccepted, d.id), milestoneId,
                      db.requests[milestoneId].(status := RequestAccepted), d);
    }
  }

  lemma AdvanceFundedSteps(db: ReadModels, d: Delivered, milestoneId: nat, offerId: nat, funder: Address,
                           supplier: Address,
                           principal: int, repayment: int, protectedAmount: int)
    ensures var p := ProjectAdvanceFunded(db, d, milestoneId, offerId, funder, supplier, principal, repayment,
                    protectedAmount);
            p.Ok? ==> Steps(db, p.value.0, d)
  {
    hide OrdersStep, MilestonesStep, RequestsStep, OffersStep, PositionsStep, DisputesStep, SettlementsStep;
    hide RefundsStep, AnchorsStep, PutMilestone, PutRequest, SetOffer, EndPositions, ReadAmount, ReadExpiry;
    NoStep(db, d);
    hide ActiveKeys;
    if ProjectAdvanceFunded(db, d, milestoneId, offerId, funder, supplier, principal, repayment, protectedAmount).Ok? {
      var key: (nat, nat) := (milestoneId, offerId);
      var row := PositionRow(funder, supplier, ReadAmount(principal).value, ReadAmount(repayment).value,
                             ReadAmount(protectedAmount).value, PositionActive, d.at, None, None, d.id);
      var db1 := if key in db.positions then db else db.(positions := db.positions[key := row]);
      if key !in db.positions {
        PositionWritten(db.positions, key, row, d);
      }
      OfferSetSteps(db1, offerId, OfferFunded, d);
      MilestonePutSteps(SetOffer(db1, offerId, OfferFunded, d.id), milestoneId,
                        db.milestones[milestoneId].(status := Financed), d);
    }
  }

  lemma AcceptanceReleasedSteps(db: ReadModels, d: Delivered, milestoneId: nat, offerId: nat, reopened: bool)
    requires d.body.Some? && d.body.value.AcceptanceReleased?
    ensures var p := ProjectAcceptanceReleased(db, d, milestoneId, offerId, reopened);
            p.Ok? ==> Steps(db, p.value.0, d)
  {
    hide OrdersStep, MilestonesStep, RequestsStep, OffersStep, PositionsStep, DisputesStep, SettlementsStep;
    hide RefundsStep, AnchorsStep, PutMilestone, PutRequest, SetOffer, EndPositions, ReadAmount, ReadExpiry;
    NoStep(db, d);
    if ProjectAcceptanceReleased(db, d, milestoneId, offerId, reopened).Ok? {
      OfferSetSteps(db, offerId, OfferCancelled, d);
      var db1 := SetOffer(db, offerId, OfferCancelled, d.id);
      var row := db.requests[milestoneId].(status := if reopened then RequestOpen else RequestCancelled);
      RequestPutSteps(db1, milestoneId, row, d);
      MilestonePutSteps(PutRequest(db1, milestoneId, row, d.id), milestoneId,
                        db.milestones[milestoneId].(status := if reopened then FinanceRequested else Funded), d);
    }
  }

  lemma EvidenceSubmittedSteps(db: ReadModels, d: Delivered, milestoneId: nat, evidence: Digest)
    ensures var p := ProjectEvidenceSubmitted(db, d, milestoneId, evidence);
            p.Ok? ==> Steps(db, p.value.0, d)
  {
    hide OrdersStep, MilestonesStep, RequestsStep, OffersStep, PositionsStep, DisputesStep, SettlementsStep;
    hide RefundsStep, AnchorsStep, PutMilestone, PutRequest, SetOffer, EndPositions, ReadAmount, ReadExpiry;
    NoStep(db, d);
    if ProjectEvidenceSubmitted(db, d, milestoneId, evidence).Ok? {
      MilestonePutSteps(db, milestoneId,
                        db.milestones[milestoneId].(evidence := Some(evidence), status := Submitted), d);
      if milestoneId !in db.anchors || IsNewer(db.anchors[milestoneId].last, d.id) {
        AnchorWritten(db.anchors, milestoneId, AnchorRow(evidence, d.at, d.id), d);
      }
    }
  }

  lemma MilestoneVerifiedSteps(db: ReadModels, d: Delivered, milestoneId: nat, evidence: Digest)
    ensures var p := ProjectMilestoneVerified(db, d, milestoneId, evidence);
            p.Ok? ==> Steps(db, p.value.0, d)
  {
    hide OrdersStep, MilestonesStep, RequestsStep, OffersStep, PositionsStep, DisputesStep, SettlementsStep;
    hide RefundsStep, AnchorsStep, PutMilestone, PutRequest, SetOffer, EndPositions, ReadAmount, ReadExpiry;
    NoStep(db, d);
    if milestoneId in db.milestones {
      MilestonePutSteps(db, milestoneId,
                        db.milestones[milestoneId].(evidence := Some(evidence), status := Verified), d);
    }
  }

  /** A milestone row written, and then its active positions ended, or not. */
  lemma EndSteps(db: ReadModels, id: nat, m: MilestoneRow, status: PositionStatus, d: Delivered)
    requires id in db.milestones && m == db.milestones[id].(funded := m.funded, status := m.status)
    requires status == PositionRepaid || status == PositionClosed
    ensures var y := PutMilestone(db, id, m, d.id); var z := EndPositions(y, id, status, d.at, d.id);
            && y == db.(milestones := y.milestones) && MilestonesStep(db.milestones, y.milestones, d)
            && z == db.(milestones := y.milestones, positions := z.positions)
            && PositionsStep(db.positions, z.positions, d)
  {
    hide MilestonesStep, PositionsStep, PutMilestone, EndPositions;
    MilestonePutSteps(db, id, m, d);
    PositionsEndSteps(PutMilestone(db, id, m, d.id), id, status, d);
  }

  lemma MilestoneSettledSteps(db: ReadModels, d: Delivered, orderId: nat, milestoneId: nat, protectedAmount: int,
                              funderRepayment: int, supplierPayout: int)
    ensures var p := ProjectMilestoneSettled(db, d, orderId, milestoneId, protectedAmount, funderRepayment,
                    supplierPayout);
            p.Ok? ==> Steps(db, p.value.0, d)
  {
    hide OrdersStep, MilestonesStep, RequestsStep, OffersStep, PositionsStep, DisputesStep, SettlementsStep;
    hide RefundsStep, AnchorsStep, PutMilestone, PutRequest, SetOffer, EndPositions, ReadAmount, ReadExpiry;
    NoStep(db, d);
    hide ActiveKeys;
    if ProjectMilestoneSettled(db, d, orderId, milestoneId, protectedAmount, funderRepayment, supplierPayout).Ok? {
      var row := SettlementRow(orderId, ReadAmount(protectedAmount).value, ReadAmount(funderRepayment).value,
                               ReadAmount(supplierPayout).value, d.at, d.id);
      var db1 := if milestoneId in db.settlements then db
                 else db.(settlements := db.settlements[milestoneId := row]);
      if milestoneId !in db.settlements {
        SettlementWritten(db.settlements, milestoneId, row, d);
      }
      EndSteps(db1, milestoneId, db.milestones[milestoneId].(status := Settled, funded := 0), PositionRepaid, d);
    }
  }

  lemma MilestoneRefundedSteps(db: ReadModels, d: Delivered, orderId: nat, milestoneId: nat, buyer: Address,
                               refundedAmount: int, outstandingAdvance: int)
    ensures var p := ProjectMilestoneRefunded(db, d, orderId, milestoneId, buyer, refundedAmount, outstandingAdvance);
            p.Ok? ==> Steps(db, p.value.0, d)
  {
    hide OrdersStep, MilestonesStep, RequestsStep, OffersStep, PositionsStep, DisputesStep, SettlementsStep;
    hide RefundsStep, AnchorsStep, PutMilestone, PutRequest, SetOffer, EndPositions, ReadAmount, ReadExpiry;
    NoStep(db, d);
    hide ActiveKeys;
    if ProjectMilestoneRefunded(db, d, orderId, milestoneId, buyer, refundedAmount, outstandingAdvance).Ok? {
      var row := RefundRow(orderId, buyer, ReadAmount(refundedAmount).value, ReadAmount(outstandingAdvance).value,
                           d.at, d.id);
      var db1 := if milestoneId in db.refunds then db else db.(refunds := db.refunds[milestoneId := row]);
      if milestoneId !in db.refunds {
        RefundWritten(db.refunds, milestoneId, row, d);
      }
      EndSteps(db1, milestoneId, db.milestones[milestoneId].(status := Refunded, funded := 0), PositionClosed, d);
    }
  }

  lemma DisputeOpenedSteps(db: ReadModels, d: Delivered, milestoneId: nat, disputeId: nat, openedBy: Address,
                           resolver: Address)
    ensures var p := ProjectDisputeOpened(db, d, milestoneId, disputeId, openedBy, resolver);
            p.Ok? ==> Steps(db, p.value.0, d)
  {
    hide OrdersStep, MilestonesStep, RequestsStep, OffersStep, PositionsStep, DisputesStep, SettlementsStep;
    hide RefundsStep, AnchorsStep, PutMilestone, PutRequest, SetOffer, EndPositions, ReadAmount, ReadExpiry;
    NoStep(db, d);
    if ProjectDisputeOpened(db, d, milestoneId, disputeId, openedBy, resolver).Ok? {
      var row := DisputeRow(milestoneId, openedBy, resolver, DisputeOpen, d.at, None, d.id);
      var db1 := if disputeId in db.disputes then db else db.(disputes := db.disputes[disputeId := row]);
      if disputeId !in db.disputes {
        DisputeWritten(db.disputes, disputeId, row, d);
      }
      MilestonePutSteps(db1, milestoneId, db.milestones[milestoneId].(status := Disputed), d);
    }
  }

  lemma DisputeResolvedSteps(db: ReadModels, d: Delivered, disputeId: nat, settled: bool)
    ensures var p := ProjectDisputeResolved(db, d, disputeId, settled);
            p.Ok? ==> Steps(db, p.value.0, d)
  {
    hide OrdersStep, MilestonesStep, RequestsStep, OffersStep, PositionsStep, DisputesStep, SettlementsStep;
    hide RefundsStep, AnchorsStep, PutMilestone, PutRequest, SetOffer, EndPositions, ReadAmount, ReadExpiry;
    NoStep(db, d);
    var p := ProjectDisputeResolved(db, d, disputeId, settled);
    if p.Ok? && p.value.1 {
      var was := db.disputes[disputeId];
      var row := was.(status := if settled then ResolvedSettle else ResolvedRefund, resolvedAt := Some(d.at),
                      last := d.id);
      DisputeWritten(db.disputes, disputeId, row, d);
      var db1 := db.(disputes := db.disputes[disputeId := row]);
      MilestonePutSteps(db1, was.milestoneId, db.milestones[was.milestoneId].(status := Verified), d);
    }
  }

  lemma OrderCreatedSteps(db: ReadModels, d: Delivered, orderId: nat, buyer: Address, supplier: Address,
                          attestor: Address, resolver: Address, asset: Address)
    ensures var p := ProjectOrderCreated(db, d, orderId, buyer, supplier, attestor, resolver, asset);
            p.Ok? ==> Steps(db, p.value.0, d)
  {
    hide OrdersStep, MilestonesStep, RequestsStep, OffersStep, PositionsStep, DisputesStep, SettlementsStep;
    hide RefundsStep, AnchorsStep, ReadAmount, ReadExpiry, OptionalDeadline, ReadU32;
    NoStep(db, d);
    if orderId !in db.orders {
      OrderWritten(db.orders, orderId, OrderRow(buyer, supplier, attestor, resolver, asset, Created, d.at, d.id), d);
    }
  }

  lemma MilestoneCreatedSteps(db: ReadModels, d: Delivered, orderId: nat, milestoneId: nat, index: nat, amount: int,
                              deadline: Option<U64>)
    ensures var p := ProjectMilestoneCreated(db, d, orderId, milestoneId, index, amount, deadline);
            p.Ok? ==> Steps(db, p.value.0, d)
  {
    hide OrdersStep, MilestonesStep, RequestsStep, OffersStep, PositionsStep, DisputesStep, SettlementsStep;
    hide RefundsStep, AnchorsStep, ReadAmount, ReadExpiry, OptionalDeadline, ReadU32;
    NoStep(db, d);
    if ProjectMilestoneCreated(db, d, orderId, milestoneId, index, amount, deadline).Ok?
       && milestoneId !in db.milestones {
      MilestoneWritten(db.milestones, milestoneId,
                       MilestoneRow(orderId, ReadU32(index).value, ReadAmount(amount).value, 0,
                                    OptionalDeadline(deadline).value, None, Unfunded, d.at, d.id), d);
    }
  }

  lemma OfferCreatedSteps(db: ReadModels, d: Delivered, milestoneId: nat, offerId: nat, funder: Address,
                          principal: int, repayment: int, expiresAt: U64)
    ensures var p := ProjectOfferCreated(db, d, milestoneId, offerId, funder, principal, repayment, expiresAt);
            p.Ok? ==> Steps(db, p.value.0, d)
  {
    hide OrdersStep, MilestonesStep, RequestsStep, OffersStep, PositionsStep, DisputesStep, SettlementsStep;
    hide RefundsStep, AnchorsStep, ReadAmount, ReadExpiry, OptionalDeadline, ReadU32;
    NoStep(db, d);
    if ProjectOfferCreated(db, d, milestoneId, offerId, funder, principal, repayment, expiresAt).Ok?
       && offerId !in db.offers {
      OfferWritten(db.offers, offerId,
                   OfferRow(milestoneId, funder, ReadAmount(principal).value, ReadAmount(repayment).value, OfferOpen,
                            ReadExpiry(expiresAt).value, d.at, d.id), d);
    }
  }

  /** On any tables, whatever event is projected: rows that are guarded move only to the event, and only forward; new
      rows bear its time; and what a row was created with, and when, stays. */
  lemma ProjectionSteps(db: ReadModels, d: Delivered)
    ensures Project(db, d).Ok? ==> Steps(db, Project(db, d).value.0, d)
  {
    hide Steps, ProjectOrderStatus, ProjectMilestoneFunded, ProjectPartialFundingCancelled, ProjectFinanceRequested;
    hide ProjectFinanceRequestCancelled, ProjectOfferCancelled, ProjectOfferAccepted, ProjectAdvanceFunded;
    hide ProjectAcceptanceReleased, ProjectEvidenceSubmitted, ProjectMilestoneVerified, ProjectMilestoneSettled;
    hide ProjectMilestoneRefunded, ProjectDisputeOpened, ProjectDisputeResolved, ProjectOrderCreated;
    hide ProjectMilestoneCreated, ProjectOfferCreated;
    if d.body.None? || !d.successful {
      NoStep(db, d);
    } else {
      match d.body.value {
        case OrderCreated(orderId, buyer, supplier, attestor, resolver, asset) =>
          OrderCreatedSteps(db, d, orderId, buyer, supplier, attestor, resolver, asset);
        case MilestoneCreated(orderId, milestoneId, index, amount, deadline) =>
          MilestoneCreatedSteps(db, d, orderId, milestoneId, index, amount, deadline);
        case FundingOfferCreated(milestoneId, offerId, funder, principal, repayment, expiresAt) =>
          OfferCreatedSteps(db, d, milestoneId, offerId, funder, principal, repayment, expiresAt);
        case OrderAccepted(orderId, _) => OrderStatusSteps(db, d, orderId, Active);
        case OrderCancelled(orderId, _) => OrderStatusSteps(db, d, orderId, Cancelled);
        case OrderCompleted(orderId) => OrderStatusSteps(db, d, orderId, Completed);
        case MilestoneFunded(_, milestoneId, _, _, fundedAmount, full) =>
          MilestoneFundedSteps(db, d, milestoneId, fundedAmount, full);
        case PartialFundingCancelled(_, milestoneId, _, _) => PartialFundingCancelledSteps(db, d, milestoneId);
        case FinanceRequestOpened(milestoneId, supplier, principal, protectedAmount, expiresAt) =>
          FinanceRequestedSteps(db, d, milestoneId, supplier, principal, protectedAmount, expiresAt);
        case FinanceRequestClosed(milestoneId, _, wasExpired) =>
          FinanceRequestCancelledSteps(db, d, milestoneId, wasExpired);
        case FundingOfferCancelled(_, offerId, _) => OfferCancelledSteps(db, d, offerId);
        case FundingOfferAccepted(milestoneId, offerId, _, _, _) => OfferAcceptedSteps(db, d, milestoneId, offerId);
        case AdvanceFunded(milestoneId, offerId, funder, supplier, principal, repayment, protectedAmount) =>
          AdvanceFundedSteps(db, d, milestoneId, offerId, funder, supplier, principal, repayment, protectedAmount);
        case AcceptanceReleased(milestoneId, offerId, _, _, reopened) =>
          AcceptanceReleasedSteps(db, d, milestoneId, offerId, reopened);
        case EvidenceSubmitted(milestoneId, _, evidence, _) => EvidenceSubmittedSteps(db, d, milestoneId, evidence);
        case MilestoneVerified(milestoneId, _, evidence) => MilestoneVerifiedSteps(db, d, milestoneId, evidence);
        case MilestoneSettled(orderId, milestoneId, protectedAmount, funderRepayment, supplierPayout) =>
          MilestoneSettledSteps(db, d, orderId, milestoneId, protectedAmount, funderRepayment, supplierPayout);
        case MilestoneRefunded(orderId, milestoneId, buyer, refundedAmount, outstandingAdvance) =>
          MilestoneRefundedSteps(db, d, orderId, milestoneId, buyer, refundedAmount, outstandingAdvance);
        case DisputeOpened(milestoneId, disputeId, openedBy, resolver) =>
          DisputeOpenedSteps(db, d, milestoneId, disputeId, openedBy, resolver);
        case DisputeResolved(_, disputeId, _, settled) => DisputeResolvedSteps(db, d, disputeId, settled);
      }
    }
  }

  // ---- events of things the tables do not know ------------------------------------------------------

  /** The tables lack a row that the event presupposes. */
  predicate LacksRowFor(db: ReadModels, e: Event) {
    match e
    case OrderCreated(_, _, _, _, _, _) => false
    case OrderAccepted(orderId, _) => orderId !in db.orders
    case OrderCancelled(orderId, _) => orderId !in db.orders
    case OrderCompleted(orderId) => orderId !in db.orders
    case MilestoneCreated(orderId, _, _, _, _) => orderId !in db.orders
    case FundingOfferCancelled(_, offerId, _) => offerId !in db.offers
    case FundingOfferAccepted(_, offerId, _, _, _) => offerId !in db.offers
    case AdvanceFunded(milestoneId, offerId, _, _, _, _, _) =>
      milestoneId !in db.milestones || offerId !in db.offers
    case AcceptanceReleased(milestoneId, offerId, _, _, _) =>
      milestoneId !in db.milestones || offerId !in db.offers || milestoneId !in db.requests
    case FinanceRequestClosed(milestoneId, _, _) => milestoneId !in db.milestones || milestoneId !in db.requests
    case DisputeResolved(_, disputeId, _, _) => disputeId !in db.disputes
    case MilestoneFunded(_, milestoneId, _, _, _, _) => milestoneId !in db.milestones
    case PartialFundingCancelled(_, milestoneId, _, _) => milestoneId !in db.milestones
    case FinanceRequestOpened(milestoneId, _, _, _, _) => milestoneId !in db.milestones
    case FundingOfferCreated(milestoneId, _, _, _, _, _) => milestoneId !in db.milestones
    case EvidenceSubmitted(milestoneId, _, _, _) => milestoneId !in db.milestones
    case MilestoneVerified(milestoneId, _, _) => milestoneId !in db.milestones
    case MilestoneSettled(_, milestoneId, _, _, _) => milestoneId !in db.milestones
    case MilestoneRefunded(_, milestoneId, _, _, _) => milestoneId !in db.milestones
    case DisputeOpened(milestoneId, _, _, _) => milestoneId !in db.milestones
  }

  /** An event of something the tables do not know is refused, so nothing is ever indexed over a gap. */
  lemma GapsAreRefused(db: ReadModels, d: Delivered)
    requires d.successful && d.body.Some? && LacksRowFor(db, d.body.value)
    ensures Project(db, d).Err?
  {
    hide ReadAmount, ReadExpiry, OptionalDeadline, ReadU32, PutMilestone, PutRequest, EndPositions, ActiveKeys;
  }

  /** Events whose projection may find its row newer than they are. */
  predicate MayBeOld(e: Event) {
    || e.OrderCreated? || e.OrderAccepted? || e.OrderCancelled? || e.OrderCompleted? || e.MilestoneFunded?
    || e.PartialFundingCancelled? || e.FundingOfferCancelled? || e.FundingOfferAccepted? || e.MilestoneVerified?
    || e.DisputeResolved?
  }

  lemma OldReportsNoChange(db: ReadModels, d: Delivered, e: Event)
    requires MayBeOld(e)
    ensures var p := ProjectKnown(db, d, e); p.Ok? && !p.value.1 ==> p.value.0 == db
  {
    hide ProjectMilestoneCreated, ProjectFinanceRequested, ProjectFinanceRequestCancelled, ProjectOfferCreated;
    hide ProjectAdvanceFunded, ProjectAcceptanceReleased, ProjectEvidenceSubmitted, ProjectMilestoneSettled;
    hide ProjectMilestoneRefunded, ProjectDisputeOpened, ReadAmount, PutMilestone, PutRequest, SetOffer;
  }

  lemma OthersReport(db: ReadModels, d: Delivered, e: Event)
    requires !MayBeOld(e)
    ensures var p := ProjectKnown(db, d, e); p.Ok? ==> p.value.1
  {
    hide ProjectOrderCreated, ProjectOrderStatus, ProjectMilestoneFunded, ProjectPartialFundingCancelled;
    hide ProjectOfferCancelled, ProjectOfferAccepted, ProjectMilestoneVerified, ProjectDisputeResolved;
    hide ReadAmount, ReadExpiry, OptionalDeadline, ReadU32, PutMilestone, PutRequest, EndPositions, ActiveKeys;
    hide SetOffer;
  }

  /** A projection that reports it projected nothing has changed nothing. */
  lemma ReportsNoChange(db: ReadModels, d: Delivered)
    ensures Project(db, d).Ok? && !Project(db, d).value.1 ==> Project(db, d).value.0 == db
  {
    hide ProjectKnown;
    if d.successful && d.body.Some? {
      if MayBeOld(d.body.value) {
        OldReportsNoChange(db, d, d.body.value);
      } else {
        OthersReport(db, d, d.body.value);
      }
    }
  }
}
