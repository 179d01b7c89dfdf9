/** When the read models agree with the contract's storage, and what keeps them agreeing. */
module Coupling {
  import opened Wrappers
  import opened Types
  import opened Storage
  import opened Core
  import opened Lifecycle
  import opened Invariant
  import opened Totals
  import opened Projector

  predicate OrderMatches(o: Order, row: OrderRow, bound: nat) {
    && row == OrderRow(o.buyer, o.supplier, o.attestor, o.resolver, o.asset, o.status, o.createdAt, row.last)
    && row.last < bound
  }

  predicate MilestoneMatches(m: Milestone, row: MilestoneRow, bound: nat) {
    && row == MilestoneRow(m.orderId, m.index, m.amount, m.funded, m.deadline, m.evidence, m.status, m.createdAt,
            row.last)
    && row.last < bound
  }

  /** The row keeps the time of the first request; the contract's record that of the latest. */
  predicate RequestMatches(x: Slot, row: Option<RequestRow>, bound: nat) {
    match (x.request, row)
    case (Some(r), Some(w)) =>
      && w.supplier == r.supplier && w.principal == r.principal && w.protectedAmount == x.milestone.amount
      && w.status == r.status && w.expiresAt == r.expiresAt && w.last < bound
    case (None, None) => true
    case _ => false
  }

  predicate OfferMatches(o: Offer, row: OfferRow, bound: nat) {
    && row == OfferRow(o.milestoneId, o.funder, o.principal, o.repayment, o.status, o.expiresAt, row.createdAt,
            row.last)
    && row.last < bound
  }

  predicate DisputeMatches(d: Dispute, row: DisputeRow, bound: nat) {
    && row == DisputeRow(d.milestoneId, d.openedBy, d.resolver, d.status, d.openedAt, row.resolvedAt, row.last)
    && row.last < bound
  }

  predicate SettlementMatches(x: Slot, row: Option<SettlementRow>) {
    if x.milestone.status == Settled then
      row.Some? && row.value == SettlementRow(x.milestone.orderId, x.milestone.amount, Repaid(x),
                                              x.milestone.amount - Repaid(x), row.value.settledAt, row.value.last)
    else row.None?
  }

  predicate RefundMatches(buyer: Address, x: Slot, row: Option<RefundRow>) {
    if x.milestone.status == Refunded then
      row.Some? && row.value == RefundRow(x.milestone.orderId, buyer, x.milestone.amount,
                                          if x.position.Some? then x.position.value.principal else 0,
                                          row.value.refundedAt, row.value.last)
    else row.None?
  }

  /** The anchor holds the milestone's current digest. */
  predicate AnchorMatches(x: Slot, row: Option<AnchorRow>, bound: nat) {
    match (x.milestone.evidence, row)
    case (Some(digest), Some(w)) => w.contentHash == digest && w.last < bound
    case (None, None) => true
    case _ => false
  }

  predicate PositionMatches(p: Position, protectedAmount: int, row: PositionRow) {
    row == PositionRow(p.funder, p.supplier, p.principal, p.repayment, protectedAmount, p.status, p.fundedAt,
                       row.repaidAt, row.closedAt, row.last)
  }

  /** A milestone has the one position row its record speaks of, and no other. */
  predicate PositionsMatch(x: Slot, rows: map<(nat, nat), PositionRow>) {
    match x.position
    case None => rows == map[]
    case Some(p) =>
      var key: (nat, nat) := (x.milestone.id, p.offerId);
      rows.Keys == {key} && PositionMatches(p, x.milestone.amount, rows[key])
  }

  /** All rows about one milestone. */
  datatype Rows = Rows(
    milestone: Option<MilestoneRow>, request: Option<RequestRow>, settlement: Option<SettlementRow>,
    refund: Option<RefundRow>, anchor: Option<AnchorRow>, positions: map<(nat, nat), PositionRow>)

  function PositionsOf(db: ReadModels, id: nat): map<(nat, nat), PositionRow> {
    map k | k in db.positions && k.0 == id :: db.positions[k]
  }

  function RowsOf(db: ReadModels, id: nat): Rows {
    Rows(Get(db.milestones, id), Get(db.requests, id), Get(db.settlements, id), Get(db.refunds, id),
         Get(db.anchors, id), PositionsOf(db, id))
  }

  predicate SlotMatches(buyer: Address, x: Slot, rows: Rows, bound: nat) {
    && rows.milestone.Some? && MilestoneMatches(x.milestone, rows.milestone.value, bound)
    && RequestMatches(x, rows.request, bound)
    && SettlementMatches(x, rows.settlement) && RefundMatches(buyer, x, rows.refund)
    && AnchorMatches(x, rows.anchor, bound) && PositionsMatch(x, rows.positions)
  }

  /** No row speaks of a milestone that does not exist. */
  predicate NoRows(rows: Rows) {
    rows == Rows(None, None, None, None, None, map[])
  }

  predicate SlotCoupled(s: State, db: ReadModels, bound: nat, id: nat) {
    if id in s.slots then
      && s.slots[id].milestone.orderId in s.orders
      && SlotMatches(s.orders[s.slots[id].milestone.orderId].buyer, s.slots[id], RowsOf(db, id), bound)
    else NoRows(RowsOf(db, id))
  }

  ghost predicate SlotsCoupled(s: State, db: ReadModels, bound: nat) {
    forall id: nat :: SlotCoupled(s, db, bound, id)
  }

  predicate OrdersCoupled(s: State, db: ReadModels, bound: nat) {
    && db.orders.Keys == s.orders.Keys
    && forall id | id in s.orders :: OrderMatches(s.orders[id], db.orders[id], bound)
  }

  /** Offer rows follow the history: an offer's latest status, whatever became of its temporary entry. */
  predicate OffersCoupled(s: State, db: ReadModels, bound: nat) {
    && db.offers.Keys == s.history.Keys
    && forall id | id in s.history :: OfferMatches(s.history[id], db.offers[id], bound)
  }

  predicate DisputesCoupled(s: State, db: ReadModels, bound: nat) {
    && db.disputes.Keys == s.disputes.Keys
    && forall id | id in s.disputes :: DisputeMatches(s.disputes[id], db.disputes[id], bound)
  }

  /** The read models say what the storage says, row for row, and no row is newer than `bound`. */
  ghost predicate Coupled(s: State, db: ReadModels, bound: nat) {
    OrdersCoupled(s, db, bound) && SlotsCoupled(s, db, bound) && OffersCoupled(s, db, bound) && DisputesCoupled(s, db,
            bound)
  }

  lemma BoundGrows(s: State, db: ReadModels, bound: nat, more: nat)
    requires Coupled(s, db, bound) && bound <= more
    ensures Coupled(s, db, more)
  {
    forall id: nat ensures SlotCoupled(s, db, more, id) {
      assert SlotCoupled(s, db, bound, id);
    }
  }

  // ---- dates ----------------------------------------------------------------------------------

  /** Whether every date an event carries fits a JavaScript `Date`. */
  predicate DatesFit(e: Event) {
    match e
    case MilestoneCreated(_, _, _, _, deadline) => deadline.Some? ==> deadline.value <= MAX_DATE_SECONDS
    case FinanceRequestOpened(_, _, _, _, expiresAt) => expiresAt <= MAX_DATE_SECONDS
    case FundingOfferCreated(_, _, _, _, _, expiresAt) => expiresAt <= MAX_DATE_SECONDS
    case _ => true
  }

  /** A zero date is no date, which an optional deadline may be and an expiry may not. Any other is refused by the
      conversion from 9,007,199,254,741 on, and by the database client from 8,640,000,000,001 on. */
  lemma DateFits(x: U64)
    ensures LedgerTimeToDate(0) == OptionalDeadline(Some(0)) == Ok(None) && ReadExpiry(0) == Err(MissingExpiry)
    ensures LedgerTimeToDate(x).Err? <==> x > 9_007_199_254_740
    ensures OptionalDeadline(Some(x)).Ok? <==> x <= MAX_DATE_SECONDS
    ensures x > 0 ==> (ReadExpiry(x).Ok? <==> x <= MAX_DATE_SECONDS)
    ensures 0 < x <= MAX_DATE_SECONDS ==> ReadExpiry(x) == Ok(x) && OptionalDeadline(Some(x)) == Ok(Some(x))
  {
  }
}
