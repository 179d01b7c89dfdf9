/** Why a call is refused: in every reachable state the first of a short list of reasons its caller can check. */
module Refusals {
  import opened Wrappers
  import opened Types
  import opened Token
  import opened Storage
  import opened Escrow
  import opened Financing
  import opened Settlement
  import opened Core
  import opened Runs
  import opened Lifecycle
  import opened Invariant
  import opened Effects
  import opened OrderPreservation
  import opened Totals
  import opened Guarantees
  import opened Guards

  // ---- the reasons ------------------------------------------------------------------------------

  function OrElse(refused: bool, why: Error, otherwise: Option<Error>): Option<Error> {
    if refused then Some(why) else otherwise
  }

  function ExpiryRefusal(now: U64, expiresAt: U64, window: U64): Option<Error> {
    OrElse(expiresAt <= now, InvalidExpiry,
    OrElse(now + window > U64_MAX, HostTrap,
    OrElse(expiresAt > now + window, InvalidExpiry, None)))
  }

  function FundingRefusal(s: State, auth: Auth, id: nat, amount: I128, asset: Address): Option<Error> {
    if !Known(s, id) then Some(MilestoneNotFound)
    else
      var order, m := OrderOf(s, id), s.slots[id].milestone;
      OrElse(order.buyer !in auth, HostTrap,
      OrElse(order.status != Active, InvalidOrderStatus,
      OrElse(m.status != Unfunded, InvalidMilestoneStatus,
      OrElse(asset != s.config.usdc, InvalidAsset,
      OrElse(amount <= 0, InvalidAmount,
      OrElse(m.funded + amount > I128_MAX, ArithmeticOverflow,
      OrElse(m.funded + amount > m.amount, Overfunded,
      OrElse(Balance(s.balances, order.buyer) < amount, HostTrap, None))))))))
  }

  function UnwindingRefusal(s: State, auth: Auth, id: nat): Option<Error> {
    if !Known(s, id) then Some(MilestoneNotFound)
    else
      OrElse(OrderOf(s, id).buyer !in auth, HostTrap,
      OrElse(OrderOf(s, id).status != Active, InvalidOrderStatus,
      OrElse(s.slots[id].milestone.status != Unfunded, InvalidMilestoneStatus,
      OrElse(s.slots[id].milestone.funded == 0, NoPartialFunding, None))))
  }

  function RequestRefusal(s: State, auth: Auth, id: nat, principal: I128, expiresAt: U64): Option<Error> {
    if !Known(s, id) then Some(MilestoneNotFound)
    else
      var order, x := OrderOf(s, id), s.slots[id];
      OrElse(order.supplier !in auth, HostTrap,
      OrElse(order.status != Active, InvalidOrderStatus,
      OrElse(x.milestone.status != Funded && x.milestone.status != FinanceRequested, InvalidMilestoneStatus,
      OrElse(x.milestone.status == FinanceRequested && (x.accepted.Some? || RequestLives(s.now, x)),
             FinanceRequestActive,
      OrElse(principal <= 0, InvalidAmount,
      OrElse(principal > x.milestone.amount, RepaymentExceedsEscrow,
      ExpiryRefusal(s.now, expiresAt, MAX_REQUEST_VALIDITY_SECONDS)))))))
  }

  function OfferRefusal(s: State, auth: Auth, id: nat, funder: Address, principal: I128, repayment: I128,
                        expiresAt: U64): Option<Error> {
    if funder !in auth then Some(HostTrap)
    else if !Known(s, id) then Some(MilestoneNotFound)
    else
      var order, x := OrderOf(s, id), s.slots[id];
      if x.request.None? then Some(FinanceRequestNotFound)
      else
        OrElse(order.status != Active, InvalidOrderStatus,
        OrElse(x.milestone.status != FinanceRequested, InvalidMilestoneStatus,
        OrElse(x.accepted.Some?, InvalidFinanceRequestStatus,
        OrElse(!RequestLives(s.now, x), FinanceRequestExpired,
        OrElse(funder in {order.buyer, order.supplier, order.attestor, order.resolver}, InvalidFunder,
        OrElse(principal != x.request.value.principal, PrincipalMismatch,
        OrElse(repayment < principal, InvalidRepayment,
        OrElse(repayment > x.milestone.amount, RepaymentExceedsEscrow,
        if ExpiryRefusal(s.now, expiresAt, MAX_OFFER_VALIDITY_SECONDS).Some?
        then ExpiryRefusal(s.now, expiresAt, MAX_OFFER_VALIDITY_SECONDS)
        else
          OrElse(|ReadMilestoneOffers(s, id)| >= MAX_OFFERS_PER_MILESTONE, OfferLimitReached,
          OrElse(s.offerCount == U64_MAX, HostTrap, None))))))))))
  }

  function AcceptanceRefusal(s: State, auth: Auth, offerId: nat): Option<Error> {
    if offerId !in s.offers then Some(OfferNotFound)
    else
      var o := s.offers[offerId];
      if !Known(s, o.milestoneId) then Some(MilestoneNotFound)
      else
        var order, x := OrderOf(s, o.milestoneId), s.slots[o.milestoneId];
        if x.request.None? then Some(FinanceRequestNotFound)
        else
          OrElse(order.supplier !in auth, HostTrap,
          OrElse(order.status != Active, InvalidOrderStatus,
          OrElse(x.milestone.status != FinanceRequested, InvalidMilestoneStatus,
          OrElse(x.accepted.Some?, InvalidFinanceRequestStatus,
          OrElse(!RequestLives(s.now, x), FinanceRequestExpired,
          OrElse(o.status != OfferOpen, InvalidOfferStatus,
          OrElse(o.expiresAt <= s.now, OfferExpired, None)))))))
  }

  function AdvanceRefusal(s: State, auth: Auth, id: nat): Option<Error> {
    if !Known(s, id) then Some(MilestoneNotFound)
    else if s.slots[id].accepted.None? then Some(NoAcceptedOffer)
    else
      var a := s.slots[id].accepted.value;
      OrElse(s.slots[id].position.Some?, AlreadyFinanced,
      OrElse(a.expiresAt <= s.now, OfferExpired,
      OrElse(a.funder !in auth, HostTrap,
      OrElse(Balance(s.balances, a.funder) < a.principal, HostTrap, None))))
  }

  function ReleaseRefusal(s: State, auth: Auth, id: nat): Option<Error> {
    if !Known(s, id) then Some(MilestoneNotFound)
    else if OrderOf(s, id).supplier !in auth then Some(HostTrap)
    else if s.slots[id].position.Some? then Some(AlreadyFinanced)
    else if s.slots[id].accepted.None? then Some(NoAcceptedOffer)
    else OrElse(s.now < s.slots[id].accepted.value.expiresAt, OfferStillLive, None)
  }

  function ClosingRefusal(s: State, auth: Auth, id: nat): Option<Error> {
    if !Known(s, id) then Some(MilestoneNotFound)
    else
      OrElse(OrderOf(s, id).supplier !in auth, HostTrap,
      OrElse(OrderOf(s, id).status != Active, InvalidOrderStatus,
      OrElse(s.slots[id].milestone.status != FinanceRequested, InvalidMilestoneStatus,
      OrElse(s.slots[id].accepted.Some?, OfferAlreadyAccepted, None))))
  }

  function EvidenceRefusal(s: State, auth: Auth, id: nat, evidence: Digest): Option<Error> {
    if !Known(s, id) then Some(MilestoneNotFound)
    else
      OrElse(OrderOf(s, id).supplier !in auth, HostTrap,
      OrElse(OrderOf(s, id).status != Active, InvalidOrderStatus,
      OrElse(s.slots[id].milestone.status !in {Funded, Financed, Submitted}, InvalidMilestoneStatus,
      OrElse(evidence == 0, InvalidEvidence, None))))
  }

  function AttestationRefusal(s: State, auth: Auth, id: nat, evidence: Digest): Option<Error> {
    if !Known(s, id) then Some(MilestoneNotFound)
    else
      OrElse(OrderOf(s, id).attestor !in auth, HostTrap,
      OrElse(OrderOf(s, id).status != Active, InvalidOrderStatus,
      OrElse(s.slots[id].milestone.status != Submitted, InvalidMilestoneStatus,
      OrElse(s.slots[id].milestone.evidence != Some(evidence), EvidenceMismatch, None))))
  }

  function SettlementRefusal(s: State, auth: Auth, id: nat, caller: Address): Option<Error> {
    if caller !in auth then Some(HostTrap)
    else if !Known(s, id) then Some(MilestoneNotFound)
    else
      OrElse(OrderOf(s, id).status != Active, InvalidOrderStatus,
      OrElse(s.slots[id].milestone.status != Verified, InvalidMilestoneStatus,
      OrElse(!IsBeneficiary(OrderOf(s, id), s.slots[id].position, caller), Unauthorized, None)))
  }

  function DisputeRefusal(s: State, auth: Auth, id: nat, caller: Address): Option<Error> {
    if caller !in auth then Some(HostTrap)
    else if !Known(s, id) then Some(MilestoneNotFound)
    else
      OrElse(OrderOf(s, id).status != Active, InvalidOrderStatus,
      OrElse(caller != OrderOf(s, id).buyer && caller != OrderOf(s, id).supplier, Unauthorized,
      OrElse(s.slots[id].milestone.status !in {Funded, Financed, Submitted}, InvalidMilestoneStatus,
      OrElse(s.disputeCount == U64_MAX, HostTrap, None))))
  }

  function ResolutionRefusal(s: State, auth: Auth, id: nat): Option<Error> {
    if !Known(s, id) then Some(MilestoneNotFound)
    else
      OrElse(s.slots[id].dispute.None?, DisputeNotFound,
      OrElse(OrderOf(s, id).resolver !in auth, HostTrap,
      OrElse(OrderOf(s, id).status != Active, InvalidOrderStatus,
      OrElse(s.slots[id].milestone.status != Disputed, InvalidMilestoneStatus, None))))
  }

  function OrderingRefusal(s: State, auth: Auth, buyer: Address, supplier: Address, attestor: Address,
                           resolver: Address): Option<Error> {
    OrElse(buyer !in auth, HostTrap,
    OrElse(buyer == supplier, InvalidParties,
    OrElse(attestor in {buyer, supplier}, InvalidAttestor,
    OrElse(resolver in {buyer, supplier}, InvalidResolver,
    OrElse(attestor == resolver, AttestorResolverConflict,
    OrElse(s.orderCount == U64_MAX, HostTrap, None))))))
  }

  function PlanningRefusal(s: State, auth: Auth, orderId: nat, amount: I128, deadline: Option<U64>): Option<Error> {
    if orderId !in s.orders then Some(OrderNotFound)
    else
      OrElse(s.orders[orderId].buyer !in auth, HostTrap,
      OrElse(s.orders[orderId].status != Created, InvalidOrderStatus,
      OrElse(amount <= 0, InvalidAmount,
      OrElse(deadline.Some? && deadline.value <= s.now, InvalidDeadline,
      OrElse(|ReadOrderMilestones(s, orderId)| >= MAX_MILESTONES_PER_ORDER, MilestoneLimitReached,
      OrElse(s.milestoneCount == U64_MAX, HostTrap, None))))))
  }

  /** The reason a call is refused, or none. */
  function Refusal(s: State, auth: Auth, call: Call): Option<Error> {
    match call
    case CallCreateOrder(buyer, supplier, attestor, resolver) =>
      OrderingRefusal(s, auth, buyer, supplier, attestor, resolver)
    case CallCreateMilestone(orderId, amount, deadline) => PlanningRefusal(s, auth, orderId, amount, deadline)
    case CallAcceptOrder(orderId) =>
      if orderId !in s.orders then Some(OrderNotFound)
      else
        OrElse(s.orders[orderId].supplier !in auth, HostTrap,
        OrElse(s.orders[orderId].status != Created, InvalidOrderStatus,
        OrElse(ReadOrderMilestones(s, orderId) == [], OrderHasNoMilestones, None)))
    case CallCancelOrder(orderId) =>
      if orderId !in s.orders then Some(OrderNotFound)
      else
        OrElse(s.orders[orderId].buyer !in auth, HostTrap,
        OrElse(s.orders[orderId].status != Created, InvalidOrderStatus, None))
    case CallFundMilestone(id, amount, asset) => FundingRefusal(s, auth, id, amount, asset)
    case CallCancelPartialFunding(id) => UnwindingRefusal(s, auth, id)
    case CallRequestFinance(id, principal, expiresAt) => RequestRefusal(s, auth, id, principal, expiresAt)
    case CallMakeOffer(id, funder, principal, repayment, expiresAt) =>
      OfferRefusal(s, auth, id, funder, principal, repayment, expiresAt)
    case CallCancelOffer(offerId) =>
      if offerId !in s.offers then Some(OfferNotFound)
      else
        OrElse(s.offers[offerId].funder !in auth, HostTrap,
        OrElse(s.offers[offerId].status != OfferOpen, InvalidOfferStatus, None))
    case CallAcceptOffer(offerId) => AcceptanceRefusal(s, auth, offerId)
    case CallFundAdvance(id) => AdvanceRefusal(s, auth, id)
    case CallReleaseExpiredAcceptance(id) => ReleaseRefusal(s, auth, id)
    case CallCancelFinanceRequest(id) => ClosingRefusal(s, auth, id)
    case CallSubmitEvidence(id, evidence) => EvidenceRefusal(s, auth, id, evidence)
    case CallAttestMilestone(id, evidence) => AttestationRefusal(s, auth, id, evidence)
    case CallSettleMilestone(id, caller) => SettlementRefusal(s, auth, id, caller)
    case CallOpenDispute(id, caller) => DisputeRefusal(s, auth, id, caller)
    case CallResolveDispute(id, _) => ResolutionRefusal(s, auth, id)
  }

  /** A call fails with exactly this reason, or, if there is none, succeeds. */
  predicate FailsWith<T>(r: Result<T, Error>, why: Option<Error>) {
    match r
    case Ok(_) => why.None?
    case Err(e) => why == Some(e)
  }

  // ---- call by call -----------------------------------------------------------------------------

  lemma FundingFails(s: State, auth: Auth, id: nat, amount: I128, asset: Address)
    requires Inv(s)
    ensures FailsWith(FundMilestone(s, auth, id, amount, asset), FundingRefusal(s, auth, id, amount, asset))
  {
    hide Inv, Transfer, BalancesOk, FindMilestoneDispute;
    SlotFacts(s, id);
    if Known(s, id) {
      TransferSucceeds(s.balances, OrderOf(s, id).buyer, s.self, amount);
      TransferErrs(s.balances, OrderOf(s, id).buyer, s.self, amount);
    }
  }

  lemma UnwindingFails(s: State, auth: Auth, id: nat)
    requires Inv(s)
    ensures FailsWith(CancelPartialFunding(s, auth, id), UnwindingRefusal(s, auth, id))
  {
    hide Inv, Transfer, BalancesOk, FindMilestoneDispute;
    SlotFacts(s, id);
    if Known(s, id) {
      TransferSucceeds(s.balances, s.self, OrderOf(s, id).buyer, s.slots[id].milestone.funded);
    }
  }

  lemma RequestFails(s: State, auth: Auth, id: nat, principal: I128, expiresAt: U64)
    requires Inv(s)
    ensures FailsWith(RequestFinance(s, auth, id, principal, expiresAt),
                      RequestRefusal(s, auth, id, principal, expiresAt))
  {
    hide Inv, BalancesOk, FindMilestoneDispute;
    SlotFacts(s, id);
  }

  lemma OfferFails(s: State, auth: Auth, id: nat, funder: Address, principal: I128, repayment: I128, expiresAt: U64)
    requires Inv(s)
    ensures FailsWith(MakeOffer(s, auth, id, funder, principal, repayment, expiresAt),
                      OfferRefusal(s, auth, id, funder, principal, repayment, expiresAt))
  {
    hide Inv, BalancesOk, FindMilestoneDispute;
    SlotFacts(s, id);
  }

  lemma AcceptanceFails(s: State, auth: Auth, offerId: nat)
    requires Inv(s)
    ensures FailsWith(AcceptOffer(s, auth, offerId), AcceptanceRefusal(s, auth, offerId))
  {
    hide Inv, BalancesOk, FindMilestoneDispute;
    if offerId in s.offers {
      OfferFacts(s, offerId);
      SlotFacts(s, s.offers[offerId].milestoneId);
    }
  }

  lemma AdvanceFails(s: State, auth: Auth, id: nat)
    requires Inv(s)
    ensures FailsWith(FundAdvance(s, auth, id), AdvanceRefusal(s, auth, id))
  {
    hide Inv, Transfer, BalancesOk, FindMilestoneDispute;
    SlotFacts(s, id);
    if Known(s, id) && s.slots[id].accepted.Some? {
      var a := s.slots[id].accepted.value;
      TransferSucceeds(s.balances, a.funder, OrderOf(s, id).supplier, a.principal);
      TransferErrs(s.balances, a.funder, OrderOf(s, id).supplier, a.principal);
    }
  }

  lemma ReleaseFails(s: State, auth: Auth, id: nat)
    requires Inv(s)
    ensures FailsWith(ReleaseExpiredAcceptance(s, auth, id), ReleaseRefusal(s, auth, id))
  {
    hide Inv, BalancesOk, FindMilestoneDispute;
    SlotFacts(s, id);
  }

  lemma ClosingFails(s: State, auth: Auth, id: nat)
    requires Inv(s)
    ensures FailsWith(CancelFinanceRequest(s, auth, id), ClosingRefusal(s, auth, id))
  {
    hide Inv, BalancesOk, FindMilestoneDispute;
    SlotFacts(s, id);
  }

  lemma EvidenceFails(s: State, auth: Auth, id: nat, evidence: Digest)
    requires Inv(s)
    ensures FailsWith(SubmitEvidence(s, auth, id, evidence), EvidenceRefusal(s, auth, id, evidence))
    ensures FailsWith(AttestMilestone(s, auth, id, evidence), AttestationRefusal(s, auth, id, evidence))
  {
    hide Inv, BalancesOk, FindMilestoneDispute;
    SlotFacts(s, id);
  }

  lemma SettlementFails(s: State, auth: Auth, id: nat, caller: Address)
    requires Inv(s)
    ensures FailsWith(SettleMilestone(s, auth, id, caller), SettlementRefusal(s, auth, id, caller))
  {
    hide Inv, BalancesOk, FindMilestoneDispute, PayOut, Compute, StageOk, CompleteOrderIfFinished;
    SlotFacts(s, id);
    SettleMilestoneExact(s, auth, id, caller);
  }

  lemma DisputeFails(s: State, auth: Auth, id: nat, caller: Address)
    requires Inv(s)
    ensures FailsWith(OpenDispute(s, auth, id, caller), DisputeRefusal(s, auth, id, caller))
  {
    hide Inv, BalancesOk, FindMilestoneDispute;
    SlotFacts(s, id);
  }

  lemma ResolutionFails(s: State, auth: Auth, id: nat, resolution: Resolution)
    requires Inv(s)
    ensures FailsWith(ResolveDispute(s, auth, id, resolution), ResolutionRefusal(s, auth, id))
  {
    hide Inv, BalancesOk, FindMilestoneDispute, Transfer, StageOk, SlotOk, CompleteOrderIfFinished, RefundEscrow;
    SlotFacts(s, id);
    ResolveDisputeExact(s, auth, id, resolution);
    if id in s.slots {
      InvSlot(s, id);
    }
  }

  lemma OrderCallsFail(s: State, auth: Auth, call: Call)
    requires call.CallCreateOrder? || call.CallCreateMilestone? || call.CallAcceptOrder? || call.CallCancelOrder?
             || call.CallCancelOffer?
    ensures FailsWith(Execute(s, auth, call), Refusal(s, auth, call))
  {
  }

  lemma CallFails(s: State, auth: Auth, call: Call)
    requires Inv(s)
    ensures FailsWith(Execute(s, auth, call), Refusal(s, auth, call))
  {
    hide Inv, FundMilestone, CancelPartialFunding, RequestFinance, MakeOffer, AcceptOffer, FundAdvance;
    hide ReleaseExpiredAcceptance, CancelFinanceRequest, SubmitEvidence, AttestMilestone, SettleMilestone;
    hide OpenDispute, ResolveDispute, FundingRefusal, UnwindingRefusal, RequestRefusal, OfferRefusal;
    hide AcceptanceRefusal, AdvanceRefusal, ReleaseRefusal, ClosingRefusal, EvidenceRefusal, AttestationRefusal;
    hide SettlementRefusal, DisputeRefusal, ResolutionRefusal;
    match call {
      case CallFundMilestone(id, amount, asset) => FundingFails(s, auth, id, amount, asset);
      case CallCancelPartialFunding(id) => UnwindingFails(s, auth, id);
      case CallRequestFinance(id, principal, expiresAt) => RequestFails(s, auth, id, principal, expiresAt);
      case CallMakeOffer(id, funder, principal, repayment, expiresAt) =>
        OfferFails(s, auth, id, funder, principal, repayment, expiresAt);
      case CallAcceptOffer(offerId) => AcceptanceFails(s, auth, offerId);
      case CallFundAdvance(id) => AdvanceFails(s, auth, id);
      case CallReleaseExpiredAcceptance(id) => ReleaseFails(s, auth, id);
      case CallCancelFinanceRequest(id) => ClosingFails(s, auth, id);
      case CallSubmitEvidence(id, evidence) => EvidenceFails(s, auth, id, evidence);
      case CallAttestMilestone(id, evidence) => EvidenceFails(s, auth, id, evidence);
      case CallSettleMilestone(id, caller) => SettlementFails(s, auth, id, caller);
      case CallOpenDispute(id, caller) => DisputeFails(s, auth, id, caller);
      case CallResolveDispute(id, resolution) => ResolutionFails(s, auth, id, resolution);
      case _ =>
        OrderCallsFail(s, auth, call);
    }
  }

  /** In every state of every run a call fails with the first of its reasons, and succeeds if there is none. Of the
      contract's further barriers none is ever the reason. */
  lemma RefusalsAreExact(r: Trace, n: nat, auth: Auth, call: Call)
    requires r.IsRun() && n < |r.states|
    ensures FailsWith(Execute(r.states[n], auth, call), Refusal(r.states[n], auth, call))
  {
    hide Step, Inv, Execute, Refusal, FailsWith;
    RunKeepsInv(r, n);
    CallFails(r.states[n], auth, call);
  }
}
