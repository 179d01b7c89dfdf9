/** The life of one milestone: which of its records exist in which status, and the changes a
    milestone can go through. Every entry point that touches a milestone makes one of these changes. */
module Lifecycle {
  import opened Wrappers
  import opened Types
  import opened Storage
  import opened Financing
  import opened Core

  // ---- which records exist when --------------------------------------------------------------
  /** Nothing selected, nothing financed, and no request outstanding. */
  predicate Unfinanced(x: Slot) {
    && x.accepted.None? && x.position.None?
    && (x.request.Some? ==> x.request.value.status == RequestCancelled)
  }

  /** Financed exactly on the terms frozen when the offer was accepted. */
  predicate FinancedAs(order: Order, x: Slot, status: PositionStatus) {
    && x.request.Some? && x.request.value.status == RequestAccepted
    && x.accepted.Some? && x.accepted.value.status == OfferFunded
    && x.position.Some?
    && var a := x.accepted.value;
       x.position.value == Position(x.milestone.id, a.id, a.funder, order.supplier, a.principal,
                                    a.repayment, status, x.position.value.fundedAt)
  }

  predicate Seeking(x: Slot) {
    && x.request.Some? && x.position.None?
    && (|| (x.request.value.status == RequestOpen && x.accepted.None?)
        || (x.request.value.status == RequestAccepted && x.accepted.Some?
            && x.accepted.value.status == OfferAccepted))
  }

  /** Which records exist, and in which status, for each milestone status. */
  predicate StageOk(order: Order, x: Slot, dispute: Option<Dispute>) {
    match x.milestone.status
    case Unfunded => x.milestone.evidence.None? && dispute.None? && Unfinanced(x) && x.request.None?
    case Funded => x.milestone.evidence.None? && dispute.None? && Unfinanced(x)
    case FinanceRequested => x.milestone.evidence.None? && dispute.None? && Seeking(x)
    case Financed => x.milestone.evidence.None? && dispute.None? && FinancedAs(order, x, PositionActive)
    case Submitted =>
      x.milestone.evidence.Some? && dispute.None? && (Unfinanced(x) || FinancedAs(order, x, PositionActive))
    case Disputed =>
      && dispute.Some? && dispute.value.status == DisputeOpen
      && (Unfinanced(x) || FinancedAs(order, x, PositionActive))
    case Verified =>
      && (if dispute.Some? then dispute.value.status == ResolvedSettle else x.milestone.evidence.Some?)
      && (Unfinanced(x) || FinancedAs(order, x, PositionActive))
    case Settled =>
      && (if dispute.Some? then dispute.value.status == ResolvedSettle else x.milestone.evidence.Some?)
      && (Unfinanced(x) || FinancedAs(order, x, PositionRepaid))
    case Refunded =>
      && dispute.Some? && dispute.value.status == ResolvedRefund
      && (Unfinanced(x) || FinancedAs(order, x, PositionClosed))
  }

  predicate EscrowOk(m: Milestone) {
    && 0 < m.amount
    && match m.status
       case Unfunded => 0 <= m.funded < m.amount
       case Settled => m.funded == 0
       case Refunded => m.funded == 0
       case _ => m.funded == m.amount
  }

  predicate TermsOk(self: Address, order: Order, m: Milestone, offer: Offer) {
    && 0 < offer.principal <= offer.repayment <= m.amount
    && Independent(order, offer.funder) && offer.funder != self
  }

  predicate SlotOk(self: Address, order: Order, x: Slot, dispute: Option<Dispute>) {
    && EscrowOk(x.milestone)
    && StageOk(order, x, dispute)
    && (x.milestone.evidence.Some? ==> x.milestone.evidence.value != 0)
    && (x.request.Some? ==>
          && x.request.value.milestoneId == x.milestone.id && x.request.value.supplier == order.supplier
          && 0 < x.request.value.principal <= x.milestone.amount)
    && (x.accepted.Some? ==>
          x.accepted.value.milestoneId == x.milestone.id && TermsOk(self, order, x.milestone, x.accepted.value))
    && (dispute.Some? ==> dispute.value.resolver == order.resolver)
    && (order.status == Created || order.status == Cancelled ==>
          x.milestone.status == Unfunded && x.milestone.funded == 0)
    && (order.status == Completed ==> Terminal(x.milestone.status))
  }

  // ---- the changes ----------------------------------------------------------------------------

  datatype Change =
    | Deposited(amount: I128)
    | Unwound
    | Requested(principal: I128, expiresAt: U64, at: U64)
    | Withdrawn(wasExpired: bool)
    | Selected(offer: Offer)
    | Advanced(at: U64)
    | Lapsed(reopened: bool)
    | Evidenced(digest: Digest)
    | Attested
    | Paid
    | Contested(dispute: Dispute)
    | Upheld
    | Returned

  /** What must hold of a milestone of an active order for a change to happen. */
  predicate Enabled(self: Address, order: Order, x: Slot, c: Change) {
    var m := x.milestone;
    && order.status == Active
    && match c
       case Deposited(amount) => m.status == Unfunded && 0 < amount && m.funded + amount <= m.amount
       case Unwound => m.status == Unfunded && 0 < m.funded
       case Requested(principal, _, _) =>
         && (m.status == Funded || (m.status == FinanceRequested && x.accepted.None?))
         && 0 < principal <= m.amount
       case Withdrawn(_) => m.status == FinanceRequested && x.accepted.None? && x.request.Some?
       case Selected(offer) =>
         && m.status == FinanceRequested && x.accepted.None? && x.request.Some?
         && offer.milestoneId == m.id && offer.status == OfferAccepted && TermsOk(self, order, m, offer)
       case Advanced(_) =>
         m.status == FinanceRequested && x.accepted.Some? && x.accepted.value.status == OfferAccepted
       case Lapsed(_) =>
         && m.status == FinanceRequested && x.request.Some?
         && x.accepted.Some? && x.accepted.value.status == OfferAccepted
       case Evidenced(digest) => OpenToEvidence(m.status) && digest != 0
       case Attested => m.status == Submitted
       case Paid => m.status == Verified
       case Contested(dispute) =>
         && OpenToEvidence(m.status) && dispute.milestoneId == m.id
         && dispute.status == DisputeOpen && dispute.resolver == order.resolver
       case Upheld => m.status == Disputed
       case Returned => m.status == Disputed
  }

  function WithStatus(x: Slot, status: MilestoneStatus): Slot {
    x.(milestone := x.milestone.(status := status))
  }

  function WithRequest(x: Slot, status: RequestStatus): Slot {
    if x.request.Some? then x.(request := Some(x.request.value.(status := status))) else x
  }

  function WithPosition(x: Slot, status: PositionStatus): Slot {
    if x.position.Some? && x.position.value.status == PositionActive
    then x.(position := Some(x.position.value.(status := status))) else x
  }

  function Emptied(x: Slot): Slot {
    x.(milestone := x.milestone.(funded := 0))
  }

  /** The slot after a change. */
  function Changed(self: Address, order: Order, x: Slot, c: Change): Slot
    requires Enabled(self, order, x, c)
  {
    var m := x.milestone;
    match c
    case Deposited(amount) =>
      var funded := m.funded + amount;
      x.(milestone := m.(funded := funded, status := if funded == m.amount then Funded else Unfunded))
    case Unwound => Emptied(x)
    case Requested(principal, expiresAt, at) =>
      WithStatus(x, FinanceRequested).(
        request := Some(FinanceRequest(m.id, order.supplier, principal, RequestOpen, expiresAt, at)))
    case Withdrawn(_) => WithStatus(WithRequest(x, RequestCancelled), Funded)
    case Selected(offer) => WithRequest(x, RequestAccepted).(accepted := Some(offer))
    case Advanced(at) =>
      var a := x.accepted.value;
      WithStatus(x, Financed).(
        accepted := Some(a.(status := OfferFunded)),
        position := Some(Position(m.id, a.id, a.funder, order.supplier, a.principal, a.repayment,
                                  PositionActive, at)))
    case Lapsed(reopened) =>
      if reopened then WithRequest(x, RequestOpen).(accepted := None)
      else WithStatus(WithRequest(x, RequestCancelled), Funded).(accepted := None)
    case Evidenced(digest) =>
      x.(milestone := m.(evidence := Some(digest), status := Submitted))
    case Attested => WithStatus(x, Verified)
    case Paid => WithStatus(Emptied(WithPosition(x, PositionRepaid)), Settled)
    case Contested(dispute) => WithStatus(x, Disputed).(dispute := Some(dispute.id))
    case Upheld => WithStatus(x, Verified)
    case Returned => WithStatus(Emptied(WithPosition(x, PositionClosed)), Refunded)
  }

  function ChangedDispute(d: Option<Dispute>, c: Change): Option<Dispute> {
    match c
    case Contested(dispute) => Some(dispute)
    case Upheld => if d.Some? then Some(d.value.(status := ResolvedSettle)) else d
    case Returned => if d.Some? then Some(d.value.(status := ResolvedRefund)) else d
    case _ => d
  }

  /** Every change keeps the milestone's records in step with its status. */
  lemma ChangeKeepsSlot(self: Address, order: Order, x: Slot, d: Option<Dispute>, c: Change)
    requires SlotOk(self, order, x, d) && Enabled(self, order, x, c)
    ensures SlotOk(self, order, Changed(self, order, x, c), ChangedDispute(d, c))
  {
  }

  // ---- the order of phases --------------------------------------------------------------------

  function Phase(status: MilestoneStatus): nat {
    match status
    case Unfunded => 0
    case Funded => 1
    case FinanceRequested => 1
    case Financed => 2
    case Submitted => 3
    case Disputed => 4
    case Verified => 5
    case Settled => 6
    case Refunded => 6
  }

  /** What never goes back: the phase, the evidence once frozen, a position's terms and its end,
      the dispute link, and everything about a terminal milestone. */
  predicate Forward(x: Slot, y: Slot) {
    && y.milestone.id == x.milestone.id && y.milestone.orderId == x.milestone.orderId
    && y.milestone.index == x.milestone.index && y.milestone.amount == x.milestone.amount
    && y.milestone.deadline == x.milestone.deadline && y.milestone.createdAt == x.milestone.createdAt
    && Phase(x.milestone.status) <= Phase(y.milestone.status)
    && (Phase(x.milestone.status) >= 4 ==> y.milestone.evidence == x.milestone.evidence)
    && (x.milestone.evidence.Some? ==> y.milestone.evidence.Some?)
    && (x.position.Some? ==>
          && y.position.Some?
          && y.position.value == x.position.value.(status := y.position.value.status)
          && (x.position.value.status != PositionActive ==> y.position == x.position))
    && (x.dispute.Some? ==> y.dispute == x.dispute)
    && (Terminal(x.milestone.status) ==> y == x)
  }

  lemma ForwardTransitive(x: Slot, y: Slot, z: Slot)
    requires Forward(x, y) && Forward(y, z)
    ensures Forward(x, z)
  {
  }

  lemma ChangeIsForward(self: Address, order: Order, x: Slot, d: Option<Dispute>, c: Change)
    requires SlotOk(self, order, x, d) && Enabled(self, order, x, c) && x.dispute.Some? == d.Some?
    ensures Forward(x, Changed(self, order, x, c))
  {
  }
}
