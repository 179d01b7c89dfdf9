/** The read models, and how one delivered event changes them. */
module Projector {
  import opened Wrappers
  import opened Types
  import opened EventOrder

  /** An event as the indexer receives it. `id` is its place in the chain's order of events, `place` what was decoded
      of that; `body` is absent when its name is not one this build knows. */
  datatype Delivered = Delivered(
    id: nat, place: Place, contract: Address, at: U64, successful: bool, body: Option<Event>)

  datatype OrderRow = OrderRow(
    buyer: Address, supplier: Address, attestor: Address, resolver: Address, asset: Address,
    status: OrderStatus, createdAt: U64, last: nat)

  datatype MilestoneRow = MilestoneRow(
    orderId: nat, index: nat, amount: int, funded: int, deadline: Option<U64>, evidence: Option<Digest>,
    status: MilestoneStatus, createdAt: U64, last: nat)

  datatype RequestRow = RequestRow(
    supplier: Address, principal: int, protectedAmount: int, status: RequestStatus, expiresAt: U64,
    cancelledWhileExpired: Option<bool>, createdAt: U64, last: nat)

  datatype OfferRow = OfferRow(
    milestoneId: nat, funder: Address, principal: int, repayment: int, status: OfferStatus, expiresAt: U64,
    createdAt: U64, last: nat)

  datatype PositionRow = PositionRow(
    funder: Address, supplier: Address, principal: int, repayment: int, protectedAtFunding: int,
    status: PositionStatus, fundedAt: U64, repaidAt: Option<U64>, closedAt: Option<U64>, last: nat)

  datatype DisputeRow = DisputeRow(
    milestoneId: nat, openedBy: Address, resolver: Address, status: DisputeStatus, openedAt: U64,
    resolvedAt: Option<U64>, last: nat)

  datatype SettlementRow = SettlementRow(
    orderId: nat, protectedAmount: int, funderRepayment: int, supplierPayout: int, settledAt: U64, last: nat)

  datatype RefundRow = RefundRow(
    orderId: nat, buyer: Address, refundedAmount: int, advanceOutstanding: int, refundedAt: U64, last: nat)

  datatype AnchorRow = AnchorRow(contentHash: Digest, submittedAt: U64, last: nat)

  /** Every table is keyed by its chain identity; positions by milestone and offer. */
  datatype ReadModels = ReadModels(
    orders: map<nat, OrderRow>, milestones: map<nat, MilestoneRow>, requests: map<nat, RequestRow>,
    offers: map<nat, OfferRow>, positions: map<(nat, nat), PositionRow>, disputes: map<nat, DisputeRow>,
    settlements: map<nat, SettlementRow>, refunds: map<nat, RefundRow>, anchors: map<nat, AnchorRow>)

  function Empty(): ReadModels {
    ReadModels(map[], map[], map[], map[], map[], map[], map[], map[], map[])
  }

  /** What makes a projection throw. */
  datatype Fault = OutOfRange | InvalidDate | MissingExpiry | NoProjection | UniqueViolation | PositionCount

  type Projected = Result<(ReadModels, bool), Fault>

  // ---- reading fields -------------------------------------------------------------------------

  const U32_MAX := 0xffff_ffff

  /** The last second a valid JavaScript `Date` can hold: 8.64e15 milliseconds. */
  const MAX_DATE_SECONDS: U64 := 8_640_000_000_000

  const MAX_SAFE_INTEGER := 9_007_199_254_740_991

  function ReadU64(x: int): Result<nat, Fault> {
    if 0 <= x <= U64_MAX then Ok(x) else Err(OutOfRange)
  }

  function ReadAmount(x: int): Result<int, Fault> {
    if 0 <= x <= I128_MAX then Ok(x) else Err(OutOfRange)
  }

  function ReadU32(x: int): Result<nat, Fault> {
    if 0 <= x <= U32_MAX then Ok(x) else Err(OutOfRange)
  }

  /** Zero means unset. Seconds whose milliseconds are not safe integers are refused. */
  function LedgerTimeToDate(x: U64): Result<Option<U64>, Fault> {
    if x == 0 then Ok(None)
    else if x * 1000 > MAX_SAFE_INTEGER then Err(OutOfRange)
    else Ok(Some(x))
  }

  /** Between the last valid `Date` and the last safe integer a `Date` is made that is not valid; the database
      client refuses to write it. */
  function Storable(date: Option<U64>): Result<Option<U64>, Fault> {
    if date.Some? && date.value > MAX_DATE_SECONDS then Err(InvalidDate) else Ok(date)
  }

  function OptionalDeadline(deadline: Option<U64>): Result<Option<U64>, Fault> {
    if deadline.None? then Ok(None)
    else
      var date :- LedgerTimeToDate(deadline.value);
      Storable(date)
  }

  function ReadExpiry(x: U64): Result<U64, Fault> {
    var date :- LedgerTimeToDate(x);
    var date :- Storable(date);
    if date.None? then Err(MissingExpiry) else Ok(date.value)
  }

  predicate IsNewer(existing: nat, incoming: nat) {
    incoming > existing
  }

  // ---- one event ------------------------------------------------------------------------------

  function FindOrder(db: ReadModels, id: nat): Result<OrderRow, Fault> {
    if id in db.orders then Ok(db.orders[id]) else Err(NoProjection)
  }

  function RequireMilestone(db: ReadModels, id: nat): Result<MilestoneRow, Fault> {
    if id in db.milestones then Ok(db.milestones[id]) else Err(NoProjection)
  }

  function RequireRequest(db: ReadModels, id: nat): Result<RequestRow, Fault> {
    if id in db.requests then Ok(db.requests[id]) else Err(NoProjection)
  }

  function RequireOffer(db: ReadModels, id: nat): Result<OfferRow, Fault> {
    if id in db.offers then Ok(db.offers[id]) else Err(NoProjection)
  }

  /** Writes a milestone row unless it already reflects this event or a later one. */
  function PutMilestone(db: ReadModels, id: nat, row: MilestoneRow, at: nat): ReadModels {
    if id in db.milestones && IsNewer(db.milestones[id].last, at)
    then db.(milestones := db.milestones[id := row.(last := at)]) else db
  }

  function PutRequest(db: ReadModels, id: nat, row: RequestRow, at: nat): ReadModels {
    if id in db.requests && IsNewer(db.requests[id].last, at)
    then db.(requests := db.requests[id := row.(last := at)]) else db
  }

  function ActiveKeys(db: ReadModels, milestoneId: nat): set<(nat, nat)> {
    set k | k in db.positions && k.0 == milestoneId && db.positions[k].status == PositionActive
  }

  /** Moves every active position of a milestone to `status`. */
  function EndPositions(db: ReadModels, milestoneId: nat, status: PositionStatus, at: U64, last: nat): ReadModels {
    db.(positions := map k | k in db.positions ::
          if k.0 == milestoneId && db.positions[k].status == PositionActive
          then Ended(db.positions[k], status, at, last) else db.positions[k])
  }

  function Ended(row: PositionRow, status: PositionStatus, at: U64, last: nat): PositionRow {
    if status == PositionRepaid then row.(status := status, repaidAt := Some(at), last := last)
    else row.(status := status, closedAt := Some(at), last := last)
  }

  function SetOffer(db: ReadModels, id: nat, status: OfferStatus, last: nat): ReadModels
    requires id in db.offers
  {
    db.(offers := db.offers[id := db.offers[id].(status := status, last := last)])
  }

  function ProjectOrderCreated(db: ReadModels, d: Delivered, orderId: nat, buyer: Address, supplier: Address,
                               attestor: Address, resolver: Address, asset: Address): Projected {
    var id :- ReadU64(orderId);
    if id in db.orders then Ok((db, false))
    else Ok((db.(orders := db.orders[id := OrderRow(buyer, supplier, attestor, resolver, asset, Created, d.at,
            d.id)]), true))
  }

  function ProjectOrderStatus(db: ReadModels, d: Delivered, orderId: nat, status: OrderStatus): Projected {
    var id :- ReadU64(orderId);
    var order :- FindOrder(db, id);
    if !IsNewer(order.last, d.id) then Ok((db, false))
    else Ok((db.(orders := db.orders[id := order.(status := status, last := d.id)]), true))
  }

  function ProjectMilestoneCreated(db: ReadModels, d: Delivered, orderId: nat, milestoneId: nat, index: nat,
                                   amount: int, deadline: Option<U64>): Projected {
    var oid :- ReadU64(orderId);
    var id :- ReadU64(milestoneId);
    var order :- FindOrder(db, oid);
    var index :- ReadU32(index);
    var amount :- ReadAmount(amount);
    var deadline :- OptionalDeadline(deadline);
    if id in db.milestones then Ok((db, true))
    else
      var row := MilestoneRow(oid, index, amount, 0, deadline, None, Unfunded, d.at, d.id);
      Ok((db.(milestones := db.milestones[id := row]), true))
  }

  function ProjectMilestoneFunded(db: ReadModels, d: Delivered, milestoneId: nat, fundedAmount: int,
          full: bool): Projected {
    var id :- ReadU64(milestoneId);
    var m :- RequireMilestone(db, id);
    if !IsNewer(m.last, d.id) then Ok((db, false))
    else
      var funded :- ReadAmount(fundedAmount);
      Ok((PutMilestone(db, id, m.(funded := funded, status := if full then Funded else Unfunded), d.id), true))
  }

  function ProjectPartialFundingCancelled(db: ReadModels, d: Delivered, milestoneId: nat): Projected {
    var id :- ReadU64(milestoneId);
    var m :- RequireMilestone(db, id);
    if !IsNewer(m.last, d.id) then Ok((db, false))
    else Ok((PutMilestone(db, id, m.(funded := 0, status := Unfunded), d.id), true))
  }

  function ProjectFinanceRequested(db: ReadModels, d: Delivered, milestoneId: nat, supplier: Address, principal: int,
                                   protectedAmount: int, expiresAt: U64): Projected {
    var id :- ReadU64(milestoneId);
    var m :- RequireMilestone(db, id);
    var expiresAt :- ReadExpiry(expiresAt);
    var principal :- ReadAmount(principal);
    var protectedAmount :- ReadAmount(protectedAmount);
    var db :=
      if id !in db.requests then
        db.(requests := db.requests[id := RequestRow(supplier, principal, protectedAmount, RequestOpen, expiresAt,
                                                     None, d.at, d.id)])
      else
        PutRequest(db, id, RequestRow(supplier, principal, protectedAmount, RequestOpen, expiresAt, None,
                                      db.requests[id].createdAt, d.id), d.id);
    Ok((PutMilestone(db, id, m.(status := FinanceRequested), d.id), true))
  }

  function ProjectFinanceRequestCancelled(db: ReadModels, d: Delivered, milestoneId: nat, wasExpired: bool): Projected {
    var id :- ReadU64(milestoneId);
    var m :- RequireMilestone(db, id);
    var request :- RequireRequest(db, id);
    var db := PutRequest(db, id, request.(status := RequestCancelled, cancelledWhileExpired := Some(wasExpired)), d.id);
    Ok((PutMilestone(db, id, m.(status := Funded), d.id), true))
  }

  function ProjectOfferCreated(db: ReadModels, d: Delivered, milestoneId: nat, offerId: nat, funder: Address,
                               principal: int, repayment: int, expiresAt: U64): Projected {
    var mid :- ReadU64(milestoneId);
    var id :- ReadU64(offerId);
    var m :- RequireMilestone(db, mid);
    var expiresAt :- ReadExpiry(expiresAt);
    var principal :- ReadAmount(principal);
    var repayment :- ReadAmount(repayment);
    if id in db.offers then Ok((db, true))
    else
      var row := OfferRow(mid, funder, principal, repayment, OfferOpen, expiresAt, d.at, d.id);
      Ok((db.(offers := db.offers[id := row]), true))
  }

  function ProjectOfferCancelled(db: ReadModels, d: Delivered, offerId: nat): Projected {
    var id :- ReadU64(offerId);
    var offer :- RequireOffer(db, id);
    if !IsNewer(offer.last, d.id) then Ok((db, false))
    else Ok((SetOffer(db, id, OfferCancelled, d.id), true))
  }

  function ProjectOfferAccepted(db: ReadModels, d: Delivered, milestoneId: nat, offerId: nat): Projected {
    var id :- ReadU64(offerId);
    var offer :- RequireOffer(db, id);
    if !IsNewer(offer.last, d.id) then Ok((db, false))
    else
      var db := SetOffer(db, id, OfferAccepted, d.id);
      var mid :- ReadU64(milestoneId);
      var request :- RequireRequest(db, mid);
      Ok((PutRequest(db, mid, request.(status := RequestAccepted), d.id), true))
  }

  /** One active position per milestone is a constraint of the table. */
  function ProjectAdvanceFunded(db: ReadModels, d: Delivered, milestoneId: nat, offerId: nat, funder: Address,
                                supplier: Address, principal: int, repayment: int, protectedAmount: int): Projected {
    var mid :- ReadU64(milestoneId);
    var oid :- ReadU64(offerId);
    var m :- RequireMilestone(db, mid);
    var principal :- ReadAmount(principal);
    var repayment :- ReadAmount(repayment);
    var protectedAmount :- ReadAmount(protectedAmount);
    if (mid, oid) !in db.positions && ActiveKeys(db, mid) != {} then Err(UniqueViolation)
    else
      var row := PositionRow(funder, supplier, principal, repayment, protectedAmount, PositionActive, d.at, None,
              None, d.id);
      var db := if (mid, oid) in db.positions then db else db.(positions := db.positions[(mid, oid) := row]);
      if oid !in db.offers then Err(NoProjection)
      else Ok((PutMilestone(SetOffer(db, oid, OfferFunded, d.id), mid, m.(status := Financed), d.id), true))
  }

  function ProjectAcceptanceReleased(db: ReadModels, d: Delivered, milestoneId: nat, offerId: nat,
          reopened: bool): Projected {
    var mid :- ReadU64(milestoneId);
    var oid :- ReadU64(offerId);
    var m :- RequireMilestone(db, mid);
    if oid !in db.offers then Err(NoProjection)
    else
      var db := SetOffer(db, oid, OfferCancelled, d.id);
      var request :- RequireRequest(db, mid);
      var db := PutRequest(db, mid, request.(status := if reopened then RequestOpen else RequestCancelled), d.id);
      Ok((PutMilestone(db, mid, m.(status := if reopened then FinanceRequested else Funded), d.id), true))
  }

  function ProjectEvidenceSubmitted(db: ReadModels, d: Delivered, milestoneId: nat, evidence: Digest): Projected {
    var id :- ReadU64(milestoneId);
    var m :- RequireMilestone(db, id);
    var db := PutMilestone(db, id, m.(evidence := Some(evidence), status := Submitted), d.id);
    var anchor := AnchorRow(evidence, d.at, d.id);
    if id !in db.anchors || IsNewer(db.anchors[id].last, d.id)
    then Ok((db.(anchors := db.anchors[id := anchor]), true)) else Ok((db, true))
  }

  function ProjectMilestoneVerified(db: ReadModels, d: Delivered, milestoneId: nat, evidence: Digest): Projected {
    var id :- ReadU64(milestoneId);
    var m :- RequireMilestone(db, id);
    if !IsNewer(m.last, d.id) then Ok((db, false))
    else Ok((PutMilestone(db, id, m.(evidence := Some(evidence), status := Verified), d.id), true))
  }

  function ProjectMilestoneSettled(db: ReadModels, d: Delivered, orderId: nat, milestoneId: nat, protectedAmount: int,
                                   funderRepayment: int, supplierPayout: int): Projected {
    var id :- ReadU64(milestoneId);
    var oid :- ReadU64(orderId);
    var m :- RequireMilestone(db, id);
    var funderRepayment :- ReadAmount(funderRepayment);
    var protectedAmount :- ReadAmount(protectedAmount);
    var supplierPayout :- ReadAmount(supplierPayout);
    var row := SettlementRow(oid, protectedAmount, funderRepayment, supplierPayout, d.at, d.id);
    var db := if id in db.settlements then db else db.(settlements := db.settlements[id := row]);
    var db := PutMilestone(db, id, m.(status := Settled, funded := 0), d.id);
    if funderRepayment == 0 then Ok((db, true))
    else if |ActiveKeys(db, id)| != 1 then Err(PositionCount)
    else Ok((EndPositions(db, id, PositionRepaid, d.at, d.id), true))
  }

  function ProjectMilestoneRefunded(db: ReadModels, d: Delivered, orderId: nat, milestoneId: nat, buyer: Address,
                                    refundedAmount: int, outstandingAdvance: int): Projected {
    var id :- ReadU64(milestoneId);
    var m :- RequireMilestone(db, id);
    var oid :- ReadU64(orderId);
    var refundedAmount :- ReadAmount(refundedAmount);
    var outstanding :- ReadAmount(outstandingAdvance);
    var row := RefundRow(oid, buyer, refundedAmount, outstanding, d.at, d.id);
    var db := if id in db.refunds then db else db.(refunds := db.refunds[id := row]);
    var db := PutMilestone(db, id, m.(status := Refunded, funded := 0), d.id);
    if |ActiveKeys(db, id)| != (if outstanding > 0 then 1 else 0) then Err(PositionCount)
    else Ok((EndPositions(db, id, PositionClosed, d.at, d.id), true))
  }

  function ProjectDisputeOpened(db: ReadModels, d: Delivered, milestoneId: nat, disputeId: nat, openedBy: Address,
                                resolver: Address): Projected {
    var mid :- ReadU64(milestoneId);
    var id :- ReadU64(disputeId);
    var m :- RequireMilestone(db, mid);
    var row := DisputeRow(mid, openedBy, resolver, DisputeOpen, d.at, None, d.id);
    var db := if id in db.disputes then db else db.(disputes := db.disputes[id := row]);
    Ok((PutMilestone(db, mid, m.(status := Disputed), d.id), true))
  }

  function ProjectDisputeResolved(db: ReadModels, d: Delivered, disputeId: nat, settled: bool): Projected {
    var id :- ReadU64(disputeId);
    if id !in db.disputes then Err(NoProjection)
    else if !IsNewer(db.disputes[id].last, d.id) then Ok((db, false))
    else
      var row := db.disputes[id];
      var status := if settled then ResolvedSettle else ResolvedRefund;
      var db := db.(disputes := db.disputes[id := row.(status := status, resolvedAt := Some(d.at), last := d.id)]);
      var m :- RequireMilestone(db, row.milestoneId);
      Ok((if settled then PutMilestone(db, row.milestoneId, m.(status := Verified), d.id) else db, true))
  }

  function ProjectKnown(db: ReadModels, d: Delivered, e: Event): Projected {
    match e
    case OrderCreated(orderId, buyer, supplier, attestor, resolver, asset) =>
      ProjectOrderCreated(db, d, orderId, buyer, supplier, attestor, resolver, asset)
    case OrderAccepted(orderId, _) => ProjectOrderStatus(db, d, orderId, Active)
    case OrderCancelled(orderId, _) => ProjectOrderStatus(db, d, orderId, Cancelled)
    case OrderCompleted(orderId) => ProjectOrderStatus(db, d, orderId, Completed)
    case MilestoneCreated(orderId, milestoneId, index, amount, deadline) =>
      ProjectMilestoneCreated(db, d, orderId, milestoneId, index, amount, deadline)
    case MilestoneFunded(_, milestoneId, _, _, fundedAmount, full) =>
      ProjectMilestoneFunded(db, d, milestoneId, fundedAmount, full)
    case PartialFundingCancelled(_, milestoneId, _, _) => ProjectPartialFundingCancelled(db, d, milestoneId)
    case FinanceRequestOpened(milestoneId, supplier, principal, protectedAmount, expiresAt) =>
      ProjectFinanceRequested(db, d, milestoneId, supplier, principal, protectedAmount, expiresAt)
    case FinanceRequestClosed(milestoneId, _, wasExpired) => ProjectFinanceRequestCancelled(db, d, milestoneId,
            wasExpired)
    case FundingOfferCreated(milestoneId, offerId, funder, principal, repayment, expiresAt) =>
      ProjectOfferCreated(db, d, milestoneId, offerId, funder, principal, repayment, expiresAt)
    case FundingOfferCancelled(_, offerId, _) => ProjectOfferCancelled(db, d, offerId)
    case FundingOfferAccepted(milestoneId, offerId, _, _, _) => ProjectOfferAccepted(db, d, milestoneId, offerId)
    case AdvanceFunded(milestoneId, offerId, funder, supplier, principal, repayment, protectedAmount) =>
      ProjectAdvanceFunded(db, d, milestoneId, offerId, funder, supplier, principal, repayment, protectedAmount)
    case AcceptanceReleased(milestoneId, offerId, _, _, reopened) =>
      ProjectAcceptanceReleased(db, d, milestoneId, offerId, reopened)
    case EvidenceSubmitted(milestoneId, _, evidence, _) => ProjectEvidenceSubmitted(db, d, milestoneId, evidence)
    case MilestoneVerified(milestoneId, _, evidence) => ProjectMilestoneVerified(db, d, milestoneId, evidence)
    case MilestoneSettled(orderId, milestoneId, protectedAmount, funderRepayment, supplierPayout) =>
      ProjectMilestoneSettled(db, d, orderId, milestoneId, protectedAmount, funderRepayment, supplierPayout)
    case MilestoneRefunded(orderId, milestoneId, buyer, refundedAmount, outstandingAdvance) =>
      ProjectMilestoneRefunded(db, d, orderId, milestoneId, buyer, refundedAmount, outstandingAdvance)
    case DisputeOpened(milestoneId, disputeId, openedBy, resolver) =>
      ProjectDisputeOpened(db, d, milestoneId, disputeId, openedBy, resolver)
    case DisputeResolved(_, disputeId, _, settled) => ProjectDisputeResolved(db, d, disputeId, settled)
  }

  /** Unknown events and events of a reverted call are recorded, never projected. */
  function Project(db: ReadModels, d: Delivered): Projected {
    if d.body.None? || !d.successful then Ok((db, false)) else ProjectKnown(db, d, d.body.value)
  }

  // ---- the same event again -------------------------------------------------------------------

  /** Events whose projection counts the active positions it ends. */
  predicate EndsPosition(e: Event) {
    (e.MilestoneSettled? && e.funderRepayment > 0) || (e.MilestoneRefunded? && e.outstandingAdvance > 0)
  }

  function After(db: ReadModels, p: Projected): ReadModels {
    if p.Ok? then p.value.0 else db
  }

  /** The second delivery succeeds if the first did, and leaves what the first left. */
  predicate SameAgain(p: Projected, q: Projected) {
    p.Ok? ==> q.Ok? && q.value.0 == p.value.0
  }

  lemma AmountRead(x: int)
    ensures ReadAmount(x).Ok? ==> ReadAmount(x).value == x && 0 <= x
  {
  }

  /** After a guarded write the row reflects the event, so writing it again is a no-op. */
  lemma MilestonePut(db: ReadModels, id: nat, row: MilestoneRow, at: nat)
    requires id in db.milestones
    ensures var o := PutMilestone(db, id, row, at);
            && o == db.(milestones := o.milestones) && id in o.milestones && o.milestones[id].last >= at
  {
  }

  lemma MilestoneKept(db: ReadModels, id: nat, row: MilestoneRow, at: nat)
    requires id in db.milestones && db.milestones[id].last >= at
    ensures PutMilestone(db, id, row, at) == db
  {
  }

  lemma RequestPut(db: ReadModels, id: nat, row: RequestRow, at: nat)
    requires id in db.requests
    ensures var o := PutRequest(db, id, row, at);
            && o == db.(requests := o.requests) && id in o.requests && o.requests[id].last >= at
  {
  }

  lemma RequestKept(db: ReadModels, id: nat, row: RequestRow, at: nat)
    requires id in db.requests && db.requests[id].last >= at
    ensures PutRequest(db, id, row, at) == db
  {
  }

  lemma OfferSetTwice(db: ReadModels, other: ReadModels, id: nat, status: OfferStatus, last: nat)
    requires id in db.offers && other.offers == SetOffer(db, id, status, last).offers
    ensures id in other.offers && SetOffer(other, id, status, last) == other
    ensures SetOffer(db, id, status, last) == db.(offers := SetOffer(db, id, status, last).offers)
  {
    assert SetOffer(other, id, status, last).offers == other.offers;
  }

  lemma OrderCreatedAgain(db: ReadModels, d: Delivered, orderId: nat, buyer: Address, supplier: Address,
                          attestor: Address, resolver: Address, asset: Address)
    ensures var p := ProjectOrderCreated(db, d, orderId, buyer, supplier, attestor, resolver, asset);
            SameAgain(p, ProjectOrderCreated(After(db, p), d, orderId, buyer, supplier, attestor, resolver, asset))
  {
  }

  lemma OrderStatusAgain(db: ReadModels, d: Delivered, orderId: nat, status: OrderStatus)
    ensures var p := ProjectOrderStatus(db, d, orderId, status);
            SameAgain(p, ProjectOrderStatus(After(db, p), d, orderId, status))
  {
  }

  lemma MilestoneCreatedAgain(db: ReadModels, d: Delivered, orderId: nat, milestoneId: nat, index: nat, amount: int,
                              deadline: Option<U64>)
    ensures var p := ProjectMilestoneCreated(db, d, orderId, milestoneId, index, amount, deadline);
            SameAgain(p, ProjectMilestoneCreated(After(db, p), d, orderId, milestoneId, index, amount, deadline))
  {
    hide ProjectMilestoneCreated;
    var p := ProjectMilestoneCreated(db, d, orderId, milestoneId, index, amount, deadline);
    if p.Ok? {
      MilestoneWritten(db, d, orderId, milestoneId, index, amount, deadline);
      MilestoneKnown(db, p.value.0, d, orderId, milestoneId, index, amount, deadline);
    }
  }

  lemma MilestoneWritten(db: ReadModels, d: Delivered, orderId: nat, milestoneId: nat, index: nat, amount: int,
                         deadline: Option<U64>)
    requires ProjectMilestoneCreated(db, d, orderId, milestoneId, index, amount, deadline).Ok?
    ensures var once := ProjectMilestoneCreated(db, d, orderId, milestoneId, index, amount, deadline).value.0;
            milestoneId in once.milestones && once.orders == db.orders
  {
    hide ReadU32, ReadAmount, OptionalDeadline;
  }

  /** A milestone that has its row is left alone. */
  lemma MilestoneKnown(db: ReadModels, once: ReadModels, d: Delivered, orderId: nat, milestoneId: nat, index: nat,
                       amount: int, deadline: Option<U64>)
    requires ProjectMilestoneCreated(db, d, orderId, milestoneId, index, amount, deadline).Ok?
    requires milestoneId in once.milestones && once.orders == db.orders
    ensures ProjectMilestoneCreated(once, d, orderId, milestoneId, index, amount, deadline) == Ok((once, true))
  {
    hide ReadU32, ReadAmount, OptionalDeadline;
  }

  lemma MilestoneFundedAgain(db: ReadModels, d: Delivered, milestoneId: nat, fundedAmount: int, full: bool)
    ensures var p := ProjectMilestoneFunded(db, d, milestoneId, fundedAmount, full);
            SameAgain(p, ProjectMilestoneFunded(After(db, p), d, milestoneId, fundedAmount, full))
  {
  }

  lemma PartialFundingCancelledAgain(db: ReadModels, d: Delivered, milestoneId: nat)
    ensures var p := ProjectPartialFundingCancelled(db, d, milestoneId);
            SameAgain(p, ProjectPartialFundingCancelled(After(db, p), d, milestoneId))
  {
  }

  /** Requesting finance writes the request row, whether or not there was one, and then the milestone row. */
  lemma RequestWritten(db: ReadModels, id: nat, row: RequestRow, d: Delivered) returns (db1: ReadModels)
    requires id in db.milestones && row.last == d.id
    ensures db1 == if id !in db.requests then db.(requests := db.requests[id := row])
                   else PutRequest(db, id, row.(createdAt := db.requests[id].createdAt), d.id)
    ensures db1 == db.(requests := db1.requests) && id in db1.requests && db1.requests[id].last >= d.id
  {
    hide PutRequest;
    if id !in db.requests {
      db1 := db.(requests := db.requests[id := row]);
    } else {
      db1 := PutRequest(db, id, row.(createdAt := db.requests[id].createdAt), d.id);
      RequestPut(db, id, row.(createdAt := db.requests[id].createdAt), d.id);
    }
  }

  lemma FinanceRequestedAgain(db: ReadModels, d: Delivered, milestoneId: nat, supplier: Address, principal: int,
                              protectedAmount: int, expiresAt: U64)
    ensures var p := ProjectFinanceRequested(db, d, milestoneId, supplier, principal, protectedAmount, expiresAt);
            SameAgain(p, ProjectFinanceRequested(After(db, p), d, milestoneId, supplier, principal, protectedAmount,
                    expiresAt))
  {
    hide ReadU64, ReadAmount, ReadExpiry, PutMilestone, PutRequest;
    var p := ProjectFinanceRequested(db, d, milestoneId, supplier, principal, protectedAmount, expiresAt);
    if p.Ok? {
      var id := ReadU64(milestoneId).value;
      var once := p.value.0;
      var row := RequestRow(supplier, ReadAmount(principal).value, ReadAmount(protectedAmount).value, RequestOpen,
                            ReadExpiry(expiresAt).value, None, d.at, d.id);
      var db1 := RequestWritten(db, id, row, d);
      MilestonePut(db1, id, db.milestones[id].(status := FinanceRequested), d.id);
      RequestKept(once, id, row.(createdAt := once.requests[id].createdAt), d.id);
      MilestoneKept(once, id, once.milestones[id].(status := FinanceRequested), d.id);
    }
  }

  lemma FinanceRequestCancelledAgain(db: ReadModels, d: Delivered, milestoneId: nat, wasExpired: bool)
    ensures var p := ProjectFinanceRequestCancelled(db, d, milestoneId, wasExpired);
            SameAgain(p, ProjectFinanceRequestCancelled(After(db, p), d, milestoneId, wasExpired))
  {
    hide ReadU64, PutMilestone, PutRequest;
    var p := ProjectFinanceRequestCancelled(db, d, milestoneId, wasExpired);
    if p.Ok? {
      var id := ReadU64(milestoneId).value;
      var once := p.value.0;
      var row := db.requests[id].(status := RequestCancelled, cancelledWhileExpired := Some(wasExpired));
      RequestPut(db, id, row, d.id);
      MilestonePut(PutRequest(db, id, row, d.id), id, db.milestones[id].(status := Funded), d.id);
      RequestKept(once, id, once.requests[id].(status := RequestCancelled, cancelledWhileExpired := Some(wasExpired)),
              d.id);
      MilestoneKept(once, id, once.milestones[id].(status := Funded), d.id);
    }
  }

  lemma OfferCreatedAgain(db: ReadModels, d: Delivered, milestoneId: nat, offerId: nat, funder: Address,
                          principal: int, repayment: int, expiresAt: U64)
    ensures var p := ProjectOfferCreated(db, d, milestoneId, offerId, funder, principal, repayment, expiresAt);
            SameAgain(p, ProjectOfferCreated(After(db, p), d, milestoneId, offerId, funder, principal, repayment,
                    expiresAt))
  {
    hide ReadU64, ReadAmount, ReadExpiry;
    var p := ProjectOfferCreated(db, d, milestoneId, offerId, funder, principal, repayment, expiresAt);
    if p.Ok? {
      assert ReadU64(offerId).value in p.value.0.offers && p.value.0.milestones == db.milestones;
    }
  }

  lemma OfferCancelledAgain(db: ReadModels, d: Delivered, offerId: nat)
    ensures var p := ProjectOfferCancelled(db, d, offerId);
            SameAgain(p, ProjectOfferCancelled(After(db, p), d, offerId))
  {
  }

  lemma OfferAcceptedAgain(db: ReadModels, d: Delivered, milestoneId: nat, offerId: nat)
    ensures var p := ProjectOfferAccepted(db, d, milestoneId, offerId);
            SameAgain(p, ProjectOfferAccepted(After(db, p), d, milestoneId, offerId))
  {
  }

  lemma AdvanceFundedAgain(db: ReadModels, d: Delivered, milestoneId: nat, offerId: nat, funder: Address,
                           supplier: Address, principal: int, repayment: int, protectedAmount: int)
    ensures var p := ProjectAdvanceFunded(db, d, milestoneId, offerId, funder, supplier, principal, repayment,
            protectedAmount);
            SameAgain(p, ProjectAdvanceFunded(After(db, p), d, milestoneId, offerId, funder, supplier, principal,
                    repayment, protectedAmount))
  {
    hide ReadU64, ReadAmount, ActiveKeys, PutMilestone, SetOffer;
    var p := ProjectAdvanceFunded(db, d, milestoneId, offerId, funder, supplier, principal, repayment, protectedAmount);
    if p.Ok? {
      var mid := ReadU64(milestoneId).value;
      var oid := ReadU64(offerId).value;
      var once := p.value.0;
      var row := PositionRow(funder, supplier, ReadAmount(principal).value, ReadAmount(repayment).value,
                             ReadAmount(protectedAmount).value, PositionActive, d.at, None, None, d.id);
      var db1 := if (mid, oid) in db.positions then db else db.(positions := db.positions[(mid, oid) := row]);
      var db2 := SetOffer(db1, oid, OfferFunded, d.id);
      OfferSetTwice(db1, db2, oid, OfferFunded, d.id);
      MilestonePut(db2, mid, db.milestones[mid].(status := Financed), d.id);
      OfferSetTwice(db1, once, oid, OfferFunded, d.id);
      MilestoneKept(once, mid, once.milestones[mid].(status := Financed), d.id);
    }
  }

  lemma AcceptanceReleasedAgain(db: ReadModels, d: Delivered, milestoneId: nat, offerId: nat, reopened: bool)
    ensures var p := ProjectAcceptanceReleased(db, d, milestoneId, offerId, reopened);
            SameAgain(p, ProjectAcceptanceReleased(After(db, p), d, milestoneId, offerId, reopened))
  {
    hide ReadU64, PutMilestone, PutRequest, SetOffer;
    var p := ProjectAcceptanceReleased(db, d, milestoneId, offerId, reopened);
    if p.Ok? {
      var mid := ReadU64(milestoneId).value;
      var oid := ReadU64(offerId).value;
      var once := p.value.0;
      var db1 := SetOffer(db, oid, OfferCancelled, d.id);
      OfferSetTwice(db, db1, oid, OfferCancelled, d.id);
      var row := db.requests[mid].(status := if reopened then RequestOpen else RequestCancelled);
      RequestPut(db1, mid, row, d.id);
      var m := db.milestones[mid].(status := if reopened then FinanceRequested else Funded);
      MilestonePut(PutRequest(db1, mid, row, d.id), mid, m, d.id);
      OfferSetTwice(db, once, oid, OfferCancelled, d.id);
      RequestKept(once, mid, once.requests[mid].(status := if reopened then RequestOpen else RequestCancelled), d.id);
      MilestoneKept(once, mid, once.milestones[mid].(status := if reopened then FinanceRequested else Funded), d.id);
    }
  }

  lemma EvidenceSubmittedAgain(db: ReadModels, d: Delivered, milestoneId: nat, evidence: Digest)
    ensures var p := ProjectEvidenceSubmitted(db, d, milestoneId, evidence);
            SameAgain(p, ProjectEvidenceSubmitted(After(db, p), d, milestoneId, evidence))
  {
    hide ReadU64, PutMilestone;
    var p := ProjectEvidenceSubmitted(db, d, milestoneId, evidence);
    if p.Ok? {
      var id := ReadU64(milestoneId).value;
      var once := p.value.0;
      MilestonePut(db, id, db.milestones[id].(evidence := Some(evidence), status := Submitted), d.id);
      MilestoneKept(once, id, once.milestones[id].(evidence := Some(evidence), status := Submitted), d.id);
    }
  }

  lemma MilestoneVerifiedAgain(db: ReadModels, d: Delivered, milestoneId: nat, evidence: Digest)
    ensures var p := ProjectMilestoneVerified(db, d, milestoneId, evidence);
            SameAgain(p, ProjectMilestoneVerified(After(db, p), d, milestoneId, evidence))
  {
  }

  lemma DisputeOpenedAgain(db: ReadModels, d: Delivered, milestoneId: nat, disputeId: nat, openedBy: Address,
                           resolver: Address)
    ensures var p := ProjectDisputeOpened(db, d, milestoneId, disputeId, openedBy, resolver);
            SameAgain(p, ProjectDisputeOpened(After(db, p), d, milestoneId, disputeId, openedBy, resolver))
  {
    hide ReadU64, PutMilestone;
    var p := ProjectDisputeOpened(db, d, milestoneId, disputeId, openedBy, resolver);
    if p.Ok? {
      var mid := ReadU64(milestoneId).value;
      var id := ReadU64(disputeId).value;
      var once := p.value.0;
      var row := DisputeRow(mid, openedBy, resolver, DisputeOpen, d.at, None, d.id);
      var db1 := if id in db.disputes then db else db.(disputes := db.disputes[id := row]);
      MilestonePut(db1, mid, db.milestones[mid].(status := Disputed), d.id);
      MilestoneKept(once, mid, once.milestones[mid].(status := Disputed), d.id);
    }
  }

  lemma DisputeResolvedAgain(db: ReadModels, d: Delivered, disputeId: nat, settled: bool)
    ensures var p := ProjectDisputeResolved(db, d, disputeId, settled);
            SameAgain(p, ProjectDisputeResolved(After(db, p), d, disputeId, settled))
  {
  }

  /** Once a milestone's active positions have been ended, none is active, and ending them again does nothing. */
  lemma EndedOnce(db: ReadModels, id: nat, status: PositionStatus, at: U64, last: nat)
    requires status != PositionActive
    ensures var once := EndPositions(db, id, status, at, last);
            && ActiveKeys(once, id) == {} && EndPositions(once, id, status, at, last) == once
    ensures ActiveKeys(db, id) == {} ==> EndPositions(db, id, status, at, last) == db
  {
    var once := EndPositions(db, id, status, at, last);
    assert EndPositions(once, id, status, at, last).positions == once.positions;
    if ActiveKeys(db, id) == {} {
      forall k | k in db.positions ensures !(k.0 == id && db.positions[k].status == PositionActive) {
        assert k.0 == id && db.positions[k].status == PositionActive ==> k in ActiveKeys(db, id);
      }
      assert once.positions == db.positions;
    }
  }

  lemma UnfinancedSettledAgain(db: ReadModels, d: Delivered, orderId: nat, milestoneId: nat, protectedAmount: int,
                               supplierPayout: int)
    ensures var p := ProjectMilestoneSettled(db, d, orderId, milestoneId, protectedAmount, 0, supplierPayout);
            SameAgain(p, ProjectMilestoneSettled(After(db, p), d, orderId, milestoneId, protectedAmount, 0,
                    supplierPayout))
  {
    hide ReadU64, ReadAmount, ActiveKeys, EndPositions, PutMilestone;
    AmountRead(0);
    var p := ProjectMilestoneSettled(db, d, orderId, milestoneId, protectedAmount, 0, supplierPayout);
    if p.Ok? {
      var id := ReadU64(milestoneId).value;
      var once := p.value.0;
      var row := SettlementRow(ReadU64(orderId).value, ReadAmount(protectedAmount).value, 0,
                               ReadAmount(supplierPayout).value, d.at, d.id);
      var db1 := if id in db.settlements then db else db.(settlements := db.settlements[id := row]);
      MilestonePut(db1, id, db.milestones[id].(status := Settled, funded := 0), d.id);
      MilestoneKept(once, id, once.milestones[id].(status := Settled, funded := 0), d.id);
    }
  }

  /** With no position left active, a financed settlement is refused. */
  lemma SettlementRefused(db: ReadModels, d: Delivered, orderId: nat, milestoneId: nat, protectedAmount: int,
                          funderRepayment: int, supplierPayout: int)
    requires funderRepayment > 0 && ReadU64(milestoneId).Ok? && ActiveKeys(db, ReadU64(milestoneId).value) == {}
    ensures ProjectMilestoneSettled(db, d, orderId, milestoneId, protectedAmount, funderRepayment, supplierPayout).Err?
  {
    hide ReadAmount, EndPositions;
    AmountRead(funderRepayment);
  }

  lemma FinancedSettledAgain(db: ReadModels, d: Delivered, orderId: nat, milestoneId: nat, protectedAmount: int,
                             funderRepayment: int, supplierPayout: int)
    requires funderRepayment > 0
    ensures var p := ProjectMilestoneSettled(db, d, orderId, milestoneId, protectedAmount, funderRepayment,
            supplierPayout);
            p.Ok? ==> ProjectMilestoneSettled(p.value.0, d, orderId, milestoneId, protectedAmount, funderRepayment,
                        supplierPayout).Err?
  {
    hide ReadU64, ReadAmount, ActiveKeys, EndPositions, PutMilestone;
    AmountRead(funderRepayment);
    var p := ProjectMilestoneSettled(db, d, orderId, milestoneId, protectedAmount, funderRepayment, supplierPayout);
    if p.Ok? {
      var id := ReadU64(milestoneId).value;
      var once := p.value.0;
      var row := SettlementRow(ReadU64(orderId).value, ReadAmount(protectedAmount).value, funderRepayment,
                               ReadAmount(supplierPayout).value, d.at, d.id);
      var db1 := if id in db.settlements then db else db.(settlements := db.settlements[id := row]);
      var m := db.milestones[id].(status := Settled, funded := 0);
      MilestonePut(db1, id, m, d.id);
      EndedOnce(PutMilestone(db1, id, m, d.id), id, PositionRepaid, d.at, d.id);
      EndKeeps(PutMilestone(db1, id, m, d.id), id, PositionRepaid, d.at, d.id);
      assert ActiveKeys(once, id) == {};
      SettlementRefused(once, d, orderId, milestoneId, protectedAmount, funderRepayment, supplierPayout);
    }
  }

  lemma MilestoneSettledAgain(db: ReadModels, d: Delivered, orderId: nat, milestoneId: nat, protectedAmount: int,
                              funderRepayment: int, supplierPayout: int)
    ensures var p := ProjectMilestoneSettled(db, d, orderId, milestoneId, protectedAmount, funderRepayment,
            supplierPayout);
            var q := ProjectMilestoneSettled(After(db, p), d, orderId, milestoneId, protectedAmount, funderRepayment,
                    supplierPayout);
            if funderRepayment > 0 then p.Ok? ==> q.Err? else SameAgain(p, q)
  {
    hide ProjectMilestoneSettled;
    if funderRepayment > 0 {
      FinancedSettledAgain(db, d, orderId, milestoneId, protectedAmount, funderRepayment, supplierPayout);
    } else if funderRepayment == 0 {
      UnfinancedSettledAgain(db, d, orderId, milestoneId, protectedAmount, supplierPayout);
    } else {
      NegativeNotSettled(db, d, orderId, milestoneId, protectedAmount, funderRepayment, supplierPayout);
    }
  }

  lemma NegativeNotSettled(db: ReadModels, d: Delivered, orderId: nat, milestoneId: nat, protectedAmount: int,
                           funderRepayment: int, supplierPayout: int)
    requires funderRepayment < 0
    ensures ProjectMilestoneSettled(db, d, orderId, milestoneId, protectedAmount, funderRepayment, supplierPayout).Err?
  {
    hide ActiveKeys, EndPositions, PutMilestone;
  }

  lemma EndKeeps(db: ReadModels, id: nat, status: PositionStatus, at: U64, last: nat)
    ensures EndPositions(db, id, status, at, last) == db.(positions := EndPositions(db, id, status, at, last).positions)
  {
  }

  lemma EndNone(db: ReadModels, id: nat, status: PositionStatus, at: U64, last: nat)
    requires status != PositionActive && |ActiveKeys(db, id)| == 0
    ensures EndPositions(db, id, status, at, last) == db
  {
    EndedOnce(db, id, status, at, last);
  }

  lemma UnfinancedRefundedAgain(db: ReadModels, d: Delivered, orderId: nat, milestoneId: nat, buyer: Address,
                                refundedAmount: int, outstandingAdvance: int)
    requires outstandingAdvance <= 0
    ensures var p := ProjectMilestoneRefunded(db, d, orderId, milestoneId, buyer, refundedAmount, outstandingAdvance);
            SameAgain(p, ProjectMilestoneRefunded(After(db, p), d, orderId, milestoneId, buyer, refundedAmount,
                    outstandingAdvance))
  {
    hide ReadU64, ReadAmount, ActiveKeys, EndPositions, PutMilestone;
    AmountRead(outstandingAdvance);
    var p := ProjectMilestoneRefunded(db, d, orderId, milestoneId, buyer, refundedAmount, outstandingAdvance);
    if p.Ok? {
      var id := ReadU64(milestoneId).value;
      var once := p.value.0;
      var row := RefundRow(ReadU64(orderId).value, buyer, ReadAmount(refundedAmount).value,
                           ReadAmount(outstandingAdvance).value, d.at, d.id);
      var db1 := if id in db.refunds then db else db.(refunds := db.refunds[id := row]);
      var m := db.milestones[id].(status := Refunded, funded := 0);
      MilestonePut(db1, id, m, d.id);
      EndNone(PutMilestone(db1, id, m, d.id), id, PositionClosed, d.at, d.id);
      assert once == PutMilestone(db1, id, m, d.id);
      MilestoneKept(once, id, once.milestones[id].(status := Refunded, funded := 0), d.id);
    }
  }

  /** With no position left active, a financed refund is refused. */
  lemma RefundRefused(db: ReadModels, d: Delivered, orderId: nat, milestoneId: nat, buyer: Address,
                      refundedAmount: int, outstandingAdvance: int)
    requires outstandingAdvance > 0 && ReadU64(milestoneId).Ok? && ActiveKeys(db, ReadU64(milestoneId).value) == {}
    ensures ProjectMilestoneRefunded(db, d, orderId, milestoneId, buyer, refundedAmount, outstandingAdvance).Err?
  {
    hide ReadAmount, EndPositions;
    AmountRead(outstandingAdvance);
  }

  lemma FinancedRefundedAgain(db: ReadModels, d: Delivered, orderId: nat, milestoneId: nat, buyer: Address,
                              refundedAmount: int, outstandingAdvance: int)
    requires outstandingAdvance > 0
    ensures var p := ProjectMilestoneRefunded(db, d, orderId, milestoneId, buyer, refundedAmount, outstandingAdvance);
            p.Ok? ==> ProjectMilestoneRefunded(p.value.0, d, orderId, milestoneId, buyer, refundedAmount,
                        outstandingAdvance).Err?
  {
    hide ReadU64, ReadAmount, ActiveKeys, EndPositions, PutMilestone;
    AmountRead(outstandingAdvance);
    var p := ProjectMilestoneRefunded(db, d, orderId, milestoneId, buyer, refundedAmount, outstandingAdvance);
    if p.Ok? {
      var id := ReadU64(milestoneId).value;
      var once := p.value.0;
      var row := RefundRow(ReadU64(orderId).value, buyer, ReadAmount(refundedAmount).value,
                           ReadAmount(outstandingAdvance).value, d.at, d.id);
      var db1 := if id in db.refunds then db else db.(refunds := db.refunds[id := row]);
      var m := db.milestones[id].(status := Refunded, funded := 0);
      MilestonePut(db1, id, m, d.id);
      EndedOnce(PutMilestone(db1, id, m, d.id), id, PositionClosed, d.at, d.id);
      EndKeeps(PutMilestone(db1, id, m, d.id), id, PositionClosed, d.at, d.id);
      assert ActiveKeys(once, id) == {};
      RefundRefused(once, d, orderId, milestoneId, buyer, refundedAmount, outstandingAdvance);
    }
  }

  lemma MilestoneRefundedAgain(db: ReadModels, d: Delivered, orderId: nat, milestoneId: nat, buyer: Address,
                               refundedAmount: int, outstandingAdvance: int)
    ensures var p := ProjectMilestoneRefunded(db, d, orderId, milestoneId, buyer, refundedAmount, outstandingAdvance);
            var q := ProjectMilestoneRefunded(After(db, p), d, orderId, milestoneId, buyer, refundedAmount,
                    outstandingAdvance);
            if outstandingAdvance > 0 then p.Ok? ==> q.Err? else SameAgain(p, q)
  {
    hide ProjectMilestoneRefunded;
    if outstandingAdvance > 0 {
      FinancedRefundedAgain(db, d, orderId, milestoneId, buyer, refundedAmount, outstandingAdvance);
    } else {
      UnfinancedRefundedAgain(db, d, orderId, milestoneId, buyer, refundedAmount, outstandingAdvance);
    }
  }

  /** Delivering an event again right after it was projected leaves the read models as they are, and throws
      exactly when the event repaid a funder or closed a financed refund. `projectEvent` alone is therefore
      not idempotent; that nothing is projected twice is up to the indexer. */
  lemma RedeliveryIsExact(db: ReadModels, d: Delivered)
    requires Project(db, d).Ok?
    ensures var once := Project(db, d).value.0; var twice := Project(once, d);
            && (twice.Ok? <==> !(d.successful && d.body.Some? && EndsPosition(d.body.value)))
            && (twice.Ok? ==> twice.value.0 == once)
  {
    hide ProjectOrderCreated, ProjectOrderStatus, ProjectMilestoneCreated, ProjectMilestoneFunded;
    hide ProjectPartialFundingCancelled, ProjectFinanceRequested, ProjectFinanceRequestCancelled, ProjectOfferCreated;
    hide ProjectOfferCancelled, ProjectOfferAccepted, ProjectAdvanceFunded, ProjectAcceptanceReleased;
    hide ProjectEvidenceSubmitted, ProjectMilestoneVerified, ProjectMilestoneSettled, ProjectMilestoneRefunded;
    hide ProjectDisputeOpened, ProjectDisputeResolved;
    if d.body.Some? && d.successful {
      match d.body.value {
        case OrderCreated(orderId, buyer, supplier, attestor, resolver, asset) =>
          OrderCreatedAgain(db, d, orderId, buyer, supplier, attestor, resolver, asset);
        case OrderAccepted(orderId, _) => OrderStatusAgain(db, d, orderId, Active);
        case OrderCancelled(orderId, _) => OrderStatusAgain(db, d, orderId, Cancelled);
        case OrderCompleted(orderId) => OrderStatusAgain(db, d, orderId, Completed);
        case MilestoneCreated(orderId, milestoneId, index, amount, deadline) =>
          MilestoneCreatedAgain(db, d, orderId, milestoneId, index, amount, deadline);
        case MilestoneFunded(_, milestoneId, _, _, fundedAmount, full) =>
          MilestoneFundedAgain(db, d, milestoneId, fundedAmount, full);
        case PartialFundingCancelled(_, milestoneId, _, _) => PartialFundingCancelledAgain(db, d, milestoneId);
        case FinanceRequestOpened(milestoneId, supplier, principal, protectedAmount, expiresAt) =>
          FinanceRequestedAgain(db, d, milestoneId, supplier, principal, protectedAmount, expiresAt);
        case FinanceRequestClosed(milestoneId, _, wasExpired) => FinanceRequestCancelledAgain(db, d, milestoneId,
                wasExpired);
        case FundingOfferCreated(milestoneId, offerId, funder, principal, repayment, expiresAt) =>
          OfferCreatedAgain(db, d, milestoneId, offerId, funder, principal, repayment, expiresAt);
        case FundingOfferCancelled(_, offerId, _) => OfferCancelledAgain(db, d, offerId);
        case FundingOfferAccepted(milestoneId, offerId, _, _, _) => OfferAcceptedAgain(db, d, milestoneId, offerId);
        case AdvanceFunded(milestoneId, offerId, funder, supplier, principal, repayment, protectedAmount) =>
          AdvanceFundedAgain(db, d, milestoneId, offerId, funder, supplier, principal, repayment, protectedAmount);
        case AcceptanceReleased(milestoneId, offerId, _, _, reopened) =>
          AcceptanceReleasedAgain(db, d, milestoneId, offerId, reopened);
        case EvidenceSubmitted(milestoneId, _, evidence, _) => EvidenceSubmittedAgain(db, d, milestoneId, evidence);
        case MilestoneVerified(milestoneId, _, evidence) => MilestoneVerifiedAgain(db, d, milestoneId, evidence);
        case MilestoneSettled(orderId, milestoneId, protectedAmount, funderRepayment, supplierPayout) =>
          MilestoneSettledAgain(db, d, orderId, milestoneId, protectedAmount, funderRepayment, supplierPayout);
        case MilestoneRefunded(orderId, milestoneId, buyer, refundedAmount, outstandingAdvance) =>
          MilestoneRefundedAgain(db, d, orderId, milestoneId, buyer, refundedAmount, outstandingAdvance);
        case DisputeOpened(milestoneId, disputeId, openedBy, resolver) =>
          DisputeOpenedAgain(db, d, milestoneId, disputeId, openedBy, resolver);
        case DisputeResolved(_, disputeId, _, settled) => DisputeResolvedAgain(db, d, disputeId, settled);
      }
    }
  }
}
