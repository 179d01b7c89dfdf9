/** The projector as it is written: one event at a time, rows created and updated in place. */
module ReadModelStore {
  import opened Wrappers
  import opened Types
  import opened Projector

  class Store {
    var orders: map<nat, OrderRow>
    var milestones: map<nat, MilestoneRow>
    var requests: map<nat, RequestRow>
    var offers: map<nat, OfferRow>
    var positions: map<(nat, nat), PositionRow>
    var disputes: map<nat, DisputeRow>
    var settlements: map<nat, SettlementRow>
    var refunds: map<nat, RefundRow>
    var anchors: map<nat, AnchorRow>

    function View(): ReadModels
      reads this
    {
      ReadModels(orders, milestones, requests, offers, positions, disputes, settlements, refunds, anchors)
    }

    /** A projection that returned `r` did what `spec` says; a throw is rolled back by the caller. */
    predicate Did(spec: Projected, r: Result<bool, Fault>)
      reads this
    {
      match spec
      case Ok(p) => r == Ok(p.1) && View() == p.0
      case Err(e) => r == Err(e)
    }

    constructor ()
      ensures View() == Empty()
    {
      orders, milestones, requests, offers, positions := map[], map[], map[], map[], map[];
      disputes, settlements, refunds, anchors := map[], map[], map[], map[];
    }

    /** The tables as a transaction sees them when it begins. */
    constructor From(db: ReadModels)
      ensures View() == db
    {
      orders, milestones, requests, offers, positions := db.orders, db.milestones, db.requests, db.offers, db.positions;
      disputes, settlements, refunds, anchors := db.disputes, db.settlements, db.refunds, db.anchors;
    }

    // ---- single rows --------------------------------------------------------------------------

    method UpdateMilestone(id: nat, row: MilestoneRow, eventId: nat)
      requires id in milestones
      modifies this
      ensures View() == PutMilestone(old(View()), id, row, eventId)
    {
      if IsNewer(milestones[id].last, eventId) {
        milestones := milestones[id := row.(last := eventId)];
      }
    }

    method UpdateRequest(id: nat, row: RequestRow, eventId: nat)
      requires id in requests
      modifies this
      ensures View() == PutRequest(old(View()), id, row, eventId)
    {
      if IsNewer(requests[id].last, eventId) {
        requests := requests[id := row.(last := eventId)];
      }
    }

    /** Updates every active position of the milestone and reports how many there were. */
    method UpdatePositions(milestoneId: nat, status: PositionStatus, at: U64, eventId: nat) returns (count: nat)
      modifies this
      ensures count == |ActiveKeys(old(View()), milestoneId)|
      ensures View() == EndPositions(old(View()), milestoneId, status, at, eventId)
    {
      var active := set k | k in positions && k.0 == milestoneId && positions[k].status == PositionActive;
      assert active == ActiveKeys(View(), milestoneId);
      count := |active|;
      positions := map k | k in positions ::
          if k in active then Ended(positions[k], status, at, eventId) else positions[k];
    }

    // ---- event by event -----------------------------------------------------------------------

    method OnOrderCreated(d: Delivered, orderId: nat, buyer: Address, supplier: Address, attestor: Address,
                          resolver: Address, asset: Address) returns (r: Result<bool, Fault>)
      modifies this
      ensures Did(ProjectOrderCreated(old(View()), d, orderId, buyer, supplier, attestor, resolver, asset), r)
    {
      var id :- ReadU64(orderId);
      if id in orders { return Ok(false); }
      orders := orders[id := OrderRow(buyer, supplier, attestor, resolver, asset, Created, d.at, d.id)];
      return Ok(true);
    }

    method OnOrderStatus(d: Delivered, orderId: nat, status: OrderStatus) returns (r: Result<bool, Fault>)
      modifies this
      ensures Did(ProjectOrderStatus(old(View()), d, orderId, status), r)
    {
      var id :- ReadU64(orderId);
      if id !in orders { return Err(NoProjection); }
      if !IsNewer(orders[id].last, d.id) { return Ok(false); }
      orders := orders[id := orders[id].(status := status, last := d.id)];
      return Ok(true);
    }

    method OnMilestoneCreated(d: Delivered, orderId: nat, milestoneId: nat, index: nat, amount: int,
                              deadline: Option<U64>) returns (r: Result<bool, Fault>)
      modifies this
      ensures Did(ProjectMilestoneCreated(old(View()), d, orderId, milestoneId, index, amount, deadline), r)
    {
      var oid :- ReadU64(orderId);
      var id :- ReadU64(milestoneId);
      if oid !in orders { return Err(NoProjection); }
      var place :- ReadU32(index);
      var total :- ReadAmount(amount);
      var due :- OptionalDeadline(deadline);
      if id !in milestones {
        milestones := milestones[id := MilestoneRow(oid, place, total, 0, due, None, Unfunded, d.at, d.id)];
      }
      return Ok(true);
    }

    method OnMilestoneFunded(d: Delivered, milestoneId: nat, fundedAmount: int, full: bool) returns (r: Result<bool,
                             Fault>)
      modifies this
      ensures Did(ProjectMilestoneFunded(old(View()), d, milestoneId, fundedAmount, full), r)
    {
      var id :- ReadU64(milestoneId);
      if id !in milestones { return Err(NoProjection); }
      if !IsNewer(milestones[id].last, d.id) { return Ok(false); }
      var funded :- ReadAmount(fundedAmount);
      UpdateMilestone(id, milestones[id].(funded := funded, status := if full then Funded else Unfunded), d.id);
      return Ok(true);
    }

    method OnPartialFundingCancelled(d: Delivered, milestoneId: nat) returns (r: Result<bool, Fault>)
      modifies this
      ensures Did(ProjectPartialFundingCancelled(old(View()), d, milestoneId), r)
    {
      var id :- ReadU64(milestoneId);
      if id !in milestones { return Err(NoProjection); }
      if !IsNewer(milestones[id].last, d.id) { return Ok(false); }
      UpdateMilestone(id, milestones[id].(funded := 0, status := Unfunded), d.id);
      return Ok(true);
    }

    method OnFinanceRequested(d: Delivered, milestoneId: nat, supplier: Address, principal: int, protectedAmount: int,
                              expiresAt: U64) returns (r: Result<bool, Fault>)
      modifies this
      ensures Did(ProjectFinanceRequested(old(View()), d, milestoneId, supplier, principal, protectedAmount,
              expiresAt), r)
    {
      hide ReadU64, ReadAmount, ReadExpiry;
      var id :- ReadU64(milestoneId);
      if id !in milestones { return Err(NoProjection); }
      var expiry :- ReadExpiry(expiresAt);
      var wanted :- ReadAmount(principal);
      var held :- ReadAmount(protectedAmount);
      var row := RequestRow(supplier, wanted, held, RequestOpen, expiry, None, d.at, d.id);
      var status := milestones[id].(status := FinanceRequested);
      if id !in requests {
        requests := requests[id := row];
      } else {
        UpdateRequest(id, row.(createdAt := requests[id].createdAt), d.id);
      }
      UpdateMilestone(id, status, d.id);
      return Ok(true);
    }

    method OnFinanceRequestCancelled(d: Delivered, milestoneId: nat, wasExpired: bool) returns (r: Result<bool, Fault>)
      modifies this
      ensures Did(ProjectFinanceRequestCancelled(old(View()), d, milestoneId, wasExpired), r)
    {
      hide PutMilestone;
      var id :- ReadU64(milestoneId);
      if id !in milestones { return Err(NoProjection); }
      if id !in requests { return Err(NoProjection); }
      UpdateRequest(id, requests[id].(status := RequestCancelled, cancelledWhileExpired := Some(wasExpired)), d.id);
      UpdateMilestone(id, milestones[id].(status := Funded), d.id);
      return Ok(true);
    }

    method OnOfferCreated(d: Delivered, milestoneId: nat, offerId: nat, funder: Address, principal: int, repayment: int,
                          expiresAt: U64) returns (r: Result<bool, Fault>)
      modifies this
      ensures Did(ProjectOfferCreated(old(View()), d, milestoneId, offerId, funder, principal, repayment, expiresAt), r)
    {
      hide ReadU64, ReadAmount, ReadExpiry;
      var mid :- ReadU64(milestoneId);
      var id :- ReadU64(offerId);
      if mid !in milestones { return Err(NoProjection); }
      var expiry :- ReadExpiry(expiresAt);
      var lent :- ReadAmount(principal);
      var owed :- ReadAmount(repayment);
      if id !in offers {
        offers := offers[id := OfferRow(mid, funder, lent, owed, OfferOpen, expiry, d.at, d.id)];
      }
      return Ok(true);
    }

    method OnOfferCancelled(d: Delivered, offerId: nat) returns (r: Result<bool, Fault>)
      modifies this
      ensures Did(ProjectOfferCancelled(old(View()), d, offerId), r)
    {
      var id :- ReadU64(offerId);
      if id !in offers { return Err(NoProjection); }
      if !IsNewer(offers[id].last, d.id) { return Ok(false); }
      offers := offers[id := offers[id].(status := OfferCancelled, last := d.id)];
      return Ok(true);
    }

    method OnOfferAccepted(d: Delivered, milestoneId: nat, offerId: nat) returns (r: Result<bool, Fault>)
      modifies this
      ensures Did(ProjectOfferAccepted(old(View()), d, milestoneId, offerId), r)
    {
      var id :- ReadU64(offerId);
      if id !in offers { return Err(NoProjection); }
      if !IsNewer(offers[id].last, d.id) { return Ok(false); }
      offers := offers[id := offers[id].(status := OfferAccepted, last := d.id)];
      var mid :- ReadU64(milestoneId);
      if mid !in requests { return Err(NoProjection); }
      UpdateRequest(mid, requests[mid].(status := RequestAccepted), d.id);
      return Ok(true);
    }

    method OnAdvanceFunded(d: Delivered, milestoneId: nat, offerId: nat, funder: Address, supplier: Address,
                           principal: int, repayment: int, protectedAmount: int) returns (r: Result<bool, Fault>)
      modifies this
      ensures Did(ProjectAdvanceFunded(old(View()), d, milestoneId, offerId, funder, supplier, principal, repayment,
                                       protectedAmount), r)
    {
      hide ReadU64, ReadAmount, ActiveKeys, PutMilestone;
      var mid :- ReadU64(milestoneId);
      var oid :- ReadU64(offerId);
      if mid !in milestones { return Err(NoProjection); }
      var lent :- ReadAmount(principal);
      var owed :- ReadAmount(repayment);
      var held :- ReadAmount(protectedAmount);
      if (mid, oid) !in positions {
        if ActiveKeys(View(), mid) != {} { return Err(UniqueViolation); }
        positions := positions[(mid, oid) := PositionRow(funder, supplier, lent, owed, held, PositionActive, d.at,
                                                         None, None, d.id)];
      }
      if oid !in offers { return Err(NoProjection); }
      offers := offers[oid := offers[oid].(status := OfferFunded, last := d.id)];
      UpdateMilestone(mid, milestones[mid].(status := Financed), d.id);
      return Ok(true);
    }

    method OnAcceptanceReleased(d: Delivered, milestoneId: nat, offerId: nat, reopened: bool) returns (r: Result<bool,
                                Fault>)
      modifies this
      ensures Did(ProjectAcceptanceReleased(old(View()), d, milestoneId, offerId, reopened), r)
    {
      hide ReadU64, PutMilestone;
      var mid :- ReadU64(milestoneId);
      var oid :- ReadU64(offerId);
      if mid !in milestones { return Err(NoProjection); }
      if oid !in offers { return Err(NoProjection); }
      offers := offers[oid := offers[oid].(status := OfferCancelled, last := d.id)];
      if mid !in requests { return Err(NoProjection); }
      UpdateRequest(mid, requests[mid].(status := if reopened then RequestOpen else RequestCancelled), d.id);
      UpdateMilestone(mid, milestones[mid].(status := if reopened then FinanceRequested else Funded), d.id);
      return Ok(true);
    }

    method OnEvidenceSubmitted(d: Delivered, milestoneId: nat, evidence: Digest) returns (r: Result<bool, Fault>)
      modifies this
      ensures Did(ProjectEvidenceSubmitted(old(View()), d, milestoneId, evidence), r)
    {
      var id :- ReadU64(milestoneId);
      if id !in milestones { return Err(NoProjection); }
      UpdateMilestone(id, milestones[id].(evidence := Some(evidence), status := Submitted), d.id);
      if id !in anchors || IsNewer(anchors[id].last, d.id) {
        anchors := anchors[id := AnchorRow(evidence, d.at, d.id)];
      }
      return Ok(true);
    }

    method OnMilestoneVerified(d: Delivered, milestoneId: nat, evidence: Digest) returns (r: Result<bool, Fault>)
      modifies this
      ensures Did(ProjectMilestoneVerified(old(View()), d, milestoneId, evidence), r)
    {
      var id :- ReadU64(milestoneId);
      if id !in milestones { return Err(NoProjection); }
      if !IsNewer(milestones[id].last, d.id) { return Ok(false); }
      UpdateMilestone(id, milestones[id].(evidence := Some(evidence), status := Verified), d.id);
      return Ok(true);
    }

    method OnMilestoneSettled(d: Delivered, orderId: nat, milestoneId: nat, protectedAmount: int, funderRepayment: int,
                              supplierPayout: int) returns (r: Result<bool, Fault>)
      modifies this
      ensures Did(ProjectMilestoneSettled(old(View()), d, orderId, milestoneId, protectedAmount, funderRepayment,
                                          supplierPayout), r)
    {
      hide ReadU64, ActiveKeys, EndPositions, PutMilestone;
      var id :- ReadU64(milestoneId);
      var oid :- ReadU64(orderId);
      if id !in milestones { return Err(NoProjection); }
      var repayment :- ReadAmount(funderRepayment);
      var released :- ReadAmount(protectedAmount);
      var payout :- ReadAmount(supplierPayout);
      if id !in settlements {
        settlements := settlements[id := SettlementRow(oid, released, repayment, payout, d.at, d.id)];
      }
      UpdateMilestone(id, milestones[id].(status := Settled, funded := 0), d.id);
      if repayment > 0 {
        var repaid := UpdatePositions(id, PositionRepaid, d.at, d.id);
        if repaid != 1 { return Err(PositionCount); }
      }
      return Ok(true);
    }

    method OnMilestoneRefunded(d: Delivered, orderId: nat, milestoneId: nat, buyer: Address, refundedAmount: int,
                               outstandingAdvance: int) returns (r: Result<bool, Fault>)
      modifies this
      ensures Did(ProjectMilestoneRefunded(old(View()), d, orderId, milestoneId, buyer, refundedAmount,
                                           outstandingAdvance), r)
    {
      hide ReadU64, ActiveKeys, EndPositions, PutMilestone;
      var id :- ReadU64(milestoneId);
      if id !in milestones { return Err(NoProjection); }
      var oid :- ReadU64(orderId);
      var refunded :- ReadAmount(refundedAmount);
      var outstanding :- ReadAmount(outstandingAdvance);
      if id !in refunds {
        refunds := refunds[id := RefundRow(oid, buyer, refunded, outstanding, d.at, d.id)];
      }
      UpdateMilestone(id, milestones[id].(status := Refunded, funded := 0), d.id);
      var closed := UpdatePositions(id, PositionClosed, d.at, d.id);
      if closed != (if outstanding > 0 then 1 else 0) { return Err(PositionCount); }
      return Ok(true);
    }

    method OnDisputeOpened(d: Delivered, milestoneId: nat, disputeId: nat, openedBy: Address, resolver: Address)
      returns (r: Result<bool, Fault>)
      modifies this
      ensures Did(ProjectDisputeOpened(old(View()), d, milestoneId, disputeId, openedBy, resolver), r)
    {
      hide ReadU64;
      var mid :- ReadU64(milestoneId);
      var id :- ReadU64(disputeId);
      if mid !in milestones { return Err(NoProjection); }
      if id !in disputes {
        disputes := disputes[id := DisputeRow(mid, openedBy, resolver, DisputeOpen, d.at, None, d.id)];
      }
      UpdateMilestone(mid, milestones[mid].(status := Disputed), d.id);
      return Ok(true);
    }

    method OnDisputeResolved(d: Delivered, disputeId: nat, settled: bool) returns (r: Result<bool, Fault>)
      modifies this
      ensures Did(ProjectDisputeResolved(old(View()), d, disputeId, settled), r)
    {
      hide ReadU64;
      var id :- ReadU64(disputeId);
      if id !in disputes { return Err(NoProjection); }
      var row := disputes[id];
      if !IsNewer(row.last, d.id) { return Ok(false); }
      disputes := disputes[id := row.(status := if settled then ResolvedSettle else ResolvedRefund,
                                      resolvedAt := Some(d.at), last := d.id)];
      if row.milestoneId !in milestones { return Err(NoProjection); }
      if settled {
        UpdateMilestone(row.milestoneId, milestones[row.milestoneId].(status := Verified), d.id);
      }
      return Ok(true);
    }

    method ProjectEvent(d: Delivered) returns (r: Result<bool, Fault>)
      modifies this
      ensures Did(Project(old(View()), d), r)
    {
      hide ProjectOrderCreated, ProjectOrderStatus, ProjectMilestoneCreated, ProjectMilestoneFunded;
      hide ProjectPartialFundingCancelled, ProjectFinanceRequested, ProjectFinanceRequestCancelled;
      hide ProjectOfferCreated, ProjectOfferCancelled, ProjectOfferAccepted, ProjectAdvanceFunded;
      hide ProjectAcceptanceReleased, ProjectEvidenceSubmitted, ProjectMilestoneVerified, ProjectMilestoneSettled;
      hide ProjectMilestoneRefunded, ProjectDisputeOpened, ProjectDisputeResolved;
      if d.body.None? || !d.successful { return Ok(false); }
      match d.body.value {
        case OrderCreated(orderId, buyer, supplier, attestor, resolver, asset) =>
          r := OnOrderCreated(d, orderId, buyer, supplier, attestor, resolver, asset);
        case OrderAccepted(orderId, _) => r := OnOrderStatus(d, orderId, Active);
        case OrderCancelled(orderId, _) => r := OnOrderStatus(d, orderId, Cancelled);
        case OrderCompleted(orderId) => r := OnOrderStatus(d, orderId, Completed);
        case MilestoneCreated(orderId, milestoneId, index, amount, deadline) =>
          r := OnMilestoneCreated(d, orderId, milestoneId, index, amount, deadline);
        case MilestoneFunded(_, milestoneId, _, _, fundedAmount, full) =>
          r := OnMilestoneFunded(d, milestoneId, fundedAmount, full);
        case PartialFundingCancelled(_, milestoneId, _, _) => r := OnPartialFundingCancelled(d, milestoneId);
        case FinanceRequestOpened(milestoneId, supplier, principal, protectedAmount, expiresAt) =>
          r := OnFinanceRequested(d, milestoneId, supplier, principal, protectedAmount, expiresAt);
        case FinanceRequestClosed(milestoneId, _, wasExpired) => r := OnFinanceRequestCancelled(d, milestoneId,
                wasExpired);
        case FundingOfferCreated(milestoneId, offerId, funder, principal, repayment, expiresAt) =>
          r := OnOfferCreated(d, milestoneId, offerId, funder, principal, repayment, expiresAt);
        case FundingOfferCancelled(_, offerId, _) => r := OnOfferCancelled(d, offerId);
        case FundingOfferAccepted(milestoneId, offerId, _, _, _) => r := OnOfferAccepted(d, milestoneId, offerId);
        case AdvanceFunded(milestoneId, offerId, funder, supplier, principal, repayment, protectedAmount) =>
          r := OnAdvanceFunded(d, milestoneId, offerId, funder, supplier, principal, repayment, protectedAmount);
        case AcceptanceReleased(milestoneId, offerId, _, _, reopened) => r := OnAcceptanceReleased(d, milestoneId,
                offerId, reopened);
        case EvidenceSubmitted(milestoneId, _, evidence, _) => r := OnEvidenceSubmitted(d, milestoneId, evidence);
        case MilestoneVerified(milestoneId, _, evidence) => r := OnMilestoneVerified(d, milestoneId, evidence);
        case MilestoneSettled(orderId, milestoneId, protectedAmount, funderRepayment, supplierPayout) =>
          r := OnMilestoneSettled(d, orderId, milestoneId, protectedAmount, funderRepayment, supplierPayout);
        case MilestoneRefunded(orderId, milestoneId, buyer, refundedAmount, outstandingAdvance) =>
          r := OnMilestoneRefunded(d, orderId, milestoneId, buyer, refundedAmount, outstandingAdvance);
        case DisputeOpened(milestoneId, disputeId, openedBy, resolver) =>
          r := OnDisputeOpened(d, milestoneId, disputeId, openedBy, resolver);
        case DisputeResolved(_, disputeId, _, settled) => r := OnDisputeResolved(d, disputeId, settled);
      }
    }
  }
}
