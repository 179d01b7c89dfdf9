/** The contract's entry points as functions from one storage value to the next: guard by guard in the
    order the contract checks them, with the events each call publishes. */
module Core {
  import opened Wrappers
  import opened Types
  import opened Token
  import opened Storage
  import opened Escrow
  import opened Financing
  import opened Settlement

  /** A call that returned: the new storage, its value and the events it published, in order. */
  datatype Done<+T> = Done(state: State, value: T, events: seq<Event>)

  type Auth = set<Address>

  // ---- orders ---------------------------------------------------------------------------------

  function CreateOrder(s: State, auth: Auth, buyer: Address, supplier: Address, attestor: Address,
                       resolver: Address): Result<Done<nat>, Error> {
    var asset := s.config.usdc;
    :- Need(buyer in auth, HostTrap);
    :- Need(buyer != supplier, InvalidParties);
    :- Need(attestor != buyer && attestor != supplier, InvalidAttestor);
    :- Need(resolver != buyer && resolver != supplier, InvalidResolver);
    :- Need(attestor != resolver, AttestorResolverConflict);
    var id :- NextId(s.orderCount);
    var order := Order(id, buyer, supplier, attestor, resolver, asset, Created, s.now);
    Ok(Done(WriteOrder(s.(orderCount := id), order), id,
            [OrderCreated(id, buyer, supplier, attestor, resolver, asset)]))
  }

  function CreateMilestone(s: State, auth: Auth, orderId: nat, amount: I128, deadline: Option<U64>)
    : Result<Done<nat>, Error>
  {
    var order :- ReadOrder(s, orderId);
    :- Need(order.buyer in auth, HostTrap);
    :- Need(order.status == Created, InvalidOrderStatus);
    :- Need(amount > 0, InvalidAmount);
    :- Need(deadline.Some? ==> deadline.value > s.now, InvalidDeadline);
    var ids := ReadOrderMilestones(s, orderId);
    :- Need(|ids| < MAX_MILESTONES_PER_ORDER, MilestoneLimitReached);
    var id :- NextId(s.milestoneCount);
    var x := Milestone(id, orderId, |ids|, amount, 0, deadline, None, Unfunded, s.now);
    Ok(Done(WriteOrderMilestones(WriteMilestone(s.(milestoneCount := id), x), orderId, ids + [id]), id,
            [MilestoneCreated(orderId, id, |ids|, amount, deadline)]))
  }

  function AcceptOrder(s: State, auth: Auth, orderId: nat): Result<Done<()>, Error> {
    var order :- ReadOrder(s, orderId);
    :- Need(order.supplier in auth, HostTrap);
    :- Need(order.status == Created, InvalidOrderStatus);
    :- Need(ReadOrderMilestones(s, orderId) != [], OrderHasNoMilestones);
    Ok(Done(WriteOrder(s, order.(status := Active)), (), [OrderAccepted(orderId, order.supplier)]))
  }

  function CancelOrder(s: State, auth: Auth, orderId: nat): Result<Done<()>, Error> {
    var order :- ReadOrder(s, orderId);
    :- Need(order.buyer in auth, HostTrap);
    :- Need(order.status == Created, InvalidOrderStatus);
    Ok(Done(WriteOrder(s, order.(status := Cancelled)), (), [OrderCancelled(orderId, order.buyer)]))
  }

  /** A milestone that is missing or not terminal keeps the order open. */
  predicate AllTerminal(s: State, ids: seq<nat>) {
    forall i | 0 <= i < |ids| :: ids[i] in s.slots && Terminal(s.slots[ids[i]].milestone.status)
  }

  function CompleteOrderIfFinished(s: State, order: Order): Done<()> {
    var ids := ReadOrderMilestones(s, order.id);
    if ids == [] || !AllTerminal(s, ids) then Done(s, (), [])
    else Done(WriteOrder(s, order.(status := Completed)), (), [OrderCompleted(order.id)])
  }

  // ---- milestone escrow -----------------------------------------------------------------------

  function FundMilestone(s: State, auth: Auth, id: nat, amount: I128, asset: Address)
    : Result<Done<I128>, Error>
  {
    var x :- ReadMilestone(s, id);
    var order :- ReadOrder(s, x.orderId);
    :- Need(order.buyer in auth, HostTrap);
    :- Need(order.status == Active, InvalidOrderStatus);
    :- Need(x.status == Unfunded, InvalidMilestoneStatus);
    :- Need(asset == order.asset, InvalidAsset);
    var (s, x) :- Deposit(s, order, x, amount);
    var full := IsFullyFunded(x);
    var x := if full then x.(status := Funded) else x;
    Ok(Done(WriteMilestone(s, x), x.funded,
            [MilestoneFunded(x.orderId, id, order.buyer, amount, x.funded, full)]))
  }

  function CancelPartialFunding(s: State, auth: Auth, id: nat): Result<Done<I128>, Error> {
    var x :- ReadMilestone(s, id);
    var order :- ReadOrder(s, x.orderId);
    :- Need(order.buyer in auth, HostTrap);
    :- Need(order.status == Active, InvalidOrderStatus);
    :- Need(x.status == Unfunded, InvalidMilestoneStatus);
    :- Need(x.funded > 0, NoPartialFunding);
    :- Need(x.evidence.None?, InvalidMilestoneStatus);
    var request := FindRequest(s, id);
    :- Need(request.Some? ==> request.value.status == RequestCancelled, FinanceRequestActive);
    :- Need(FindAccepted(s, id).None?, OfferAlreadyAccepted);
    :- Need(FindPosition(s, id).None?, AlreadyFinanced);
    var dispute := FindMilestoneDispute(s, id);
    :- Need(dispute.Some? ==> dispute.value.status != DisputeOpen, DisputeAlreadyOpen);
    var amount := x.funded;
    var (s, x) :- Release(s, x, order.buyer, amount);
    Ok(Done(WriteMilestone(s, x), amount,
            [PartialFundingCancelled(x.orderId, id, order.buyer, amount)]))
  }

  // ---- financing ------------------------------------------------------------------------------

  function RequestFinance(s: State, auth: Auth, id: nat, principal: I128, expiresAt: U64)
    : Result<Done<()>, Error>
  {
    var x :- ReadMilestone(s, id);
    var order :- ReadOrder(s, x.orderId);
    :- Need(order.supplier in auth, HostTrap);
    :- Need(order.status == Active, InvalidOrderStatus);
    :- Need(x.status == Funded || x.status == FinanceRequested, InvalidMilestoneStatus);
    :- Need(x.status == FinanceRequested ==> FindRequest(s, id).Some?, FinanceRequestNotFound);
    :- Need(x.status == FinanceRequested ==>
              var existing := FindRequest(s, id).value;
              && existing.status != RequestAccepted
              && !(existing.status == RequestOpen && IsLive(s.now, existing.expiresAt)),
            FinanceRequestActive);
    :- Need(IsFullyFunded(x), MilestoneNotFullyFunded);
    :- Need(principal > 0, InvalidAmount);
    :- Need(principal <= x.funded, RepaymentExceedsEscrow);
    :- ValidateExpiry(s.now, expiresAt, MAX_REQUEST_VALIDITY_SECONDS);
    var request := FinanceRequest(id, order.supplier, principal, RequestOpen, expiresAt, s.now);
    var x := x.(status := FinanceRequested);
    Ok(Done(WriteMilestoneOffers(WriteMilestone(WriteRequest(s, request), x), id, []), (),
            [FinanceRequestOpened(id, order.supplier, principal, x.funded, expiresAt)]))
  }

  function MakeOffer(s: State, auth: Auth, id: nat, funder: Address, principal: I128,
                     repayment: I128, expiresAt: U64): Result<Done<nat>, Error> {
    var authorised := funder in auth;
    :- Need(authorised, HostTrap);
    var x :- ReadMilestone(s, id);
    var order :- ReadOrder(s, x.orderId);
    var request :- ReadRequest(s, id);
    :- Need(order.status == Active, InvalidOrderStatus);
    :- Need(x.status == FinanceRequested, InvalidMilestoneStatus);
    :- Need(request.status == RequestOpen, InvalidFinanceRequestStatus);
    :- Need(IsLive(s.now, request.expiresAt), FinanceRequestExpired);
    :- Need(Independent(order, funder), InvalidFunder);
    :- Need(principal == request.principal, PrincipalMismatch);
    :- ValidateEconomics(x, principal, repayment);
    :- ValidateExpiry(s.now, expiresAt, MAX_OFFER_VALIDITY_SECONDS);
    var ids := ReadMilestoneOffers(s, id);
    :- Need(|ids| < MAX_OFFERS_PER_MILESTONE, OfferLimitReached);
    var offerId :- NextId(s.offerCount);
    var offer := Offer(offerId, id, funder, principal, repayment, expiresAt, OfferOpen);
    Ok(Done(WriteMilestoneOffers(WriteOffer(s.(offerCount := offerId), offer), id, ids + [offerId]), offerId,
            [FundingOfferCreated(id, offerId, funder, principal, repayment, expiresAt)]))
  }

  function CancelOffer(s: State, auth: Auth, offerId: nat): Result<Done<()>, Error> {
    var offer :- ReadOffer(s, offerId);
    :- Need(offer.funder in auth, HostTrap);
    :- Need(offer.status == OfferOpen, InvalidOfferStatus);
    Ok(Done(WriteOffer(s, offer.(status := OfferCancelled)), (),
            [FundingOfferCancelled(offer.milestoneId, offerId, offer.funder)]))
  }

  function AcceptOffer(s: State, auth: Auth, offerId: nat): Result<Done<()>, Error> {
    var offer :- ReadOffer(s, offerId);
    var x :- ReadMilestone(s, offer.milestoneId);
    var order :- ReadOrder(s, x.orderId);
    var request :- ReadRequest(s, offer.milestoneId);
    :- Need(order.supplier in auth, HostTrap);
    :- Need(order.status == Active, InvalidOrderStatus);
    :- Need(x.status == FinanceRequested, InvalidMilestoneStatus);
    :- Need(request.status == RequestOpen, InvalidFinanceRequestStatus);
    :- Need(IsLive(s.now, request.expiresAt), FinanceRequestExpired);
    :- Need(offer.status == OfferOpen, InvalidOfferStatus);
    :- Need(IsLive(s.now, offer.expiresAt), OfferExpired);
    :- Need(FindAccepted(s, offer.milestoneId).None?, FinanceRequestActive);
    :- Need(FindPosition(s, offer.milestoneId).None?, AlreadyFinanced);
    :- ValidateEconomics(x, offer.principal, offer.repayment);
    var offer := offer.(status := OfferAccepted);
    var request := request.(status := RequestAccepted);
    Ok(Done(WriteAccepted(WriteRequest(WriteOffer(s, offer), request), offer.milestoneId, offer), (),
            [FundingOfferAccepted(offer.milestoneId, offerId, offer.funder, offer.principal, offer.repayment)]))
  }

  function FundAdvance(s: State, auth: Auth, id: nat): Result<Done<()>, Error> {
    var x :- ReadMilestone(s, id);
    var order :- ReadOrder(s, x.orderId);
    var accepted :- ReadAccepted(s, id);
    :- Need(FindPosition(s, id).None?, AlreadyFinanced);
    :- Need(accepted.status == OfferAccepted, InvalidOfferStatus);
    :- Need(IsLive(s.now, accepted.expiresAt), OfferExpired);
    :- Need(order.status == Active, InvalidOrderStatus);
    :- Need(x.status == FinanceRequested, InvalidMilestoneStatus);
    :- Need(accepted.funder in auth, HostTrap);
    :- Need(Independent(order, accepted.funder), InvalidFunder);
    :- ValidateEconomics(x, accepted.principal, accepted.repayment);
    var before := x.funded;
    :- Need(accepted.principal > 0, InvalidAmount);
    var balances :- Transfer(s.balances, accepted.funder, order.supplier, accepted.principal);
    var position := Position(id, accepted.id, accepted.funder, order.supplier, accepted.principal,
                             accepted.repayment, PositionActive, s.now);
    var accepted := accepted.(status := OfferFunded);
    var x := x.(status := Financed);
    if x.funded != before then Err(EscrowMutated)
    else Ok(Done(WriteMilestone(WriteAccepted(WritePosition(s.(balances := balances), position), id, accepted), x), (),
            [AdvanceFunded(id, accepted.id, accepted.funder, order.supplier, accepted.principal,
                           accepted.repayment, x.funded)]))
  }

  function ReleaseExpiredAcceptance(s: State, auth: Auth, id: nat): Result<Done<bool>, Error> {
    var x :- ReadMilestone(s, id);
    var order :- ReadOrder(s, x.orderId);
    :- Need(order.supplier in auth, HostTrap);
    :- Need(FindPosition(s, id).None?, AlreadyFinanced);
    var accepted :- ReadAccepted(s, id);
    :- Need(accepted.status == OfferAccepted, InvalidOfferStatus);
    :- Need(!IsLive(s.now, accepted.expiresAt), OfferStillLive);
    :- Need(order.status == Active, InvalidOrderStatus);
    :- Need(x.status == FinanceRequested, InvalidMilestoneStatus);
    var request :- ReadRequest(s, id);
    var reopened := IsLive(s.now, request.expiresAt);
    var s := RemoveAccepted(s, id, accepted);
    var entry := FindOffer(s, accepted.id);
    var s := if entry.Some? then WriteOffer(s, entry.value.(status := OfferCancelled)) else s;
    var s := if reopened then s else WriteMilestone(s, x.(status := Funded));
    var request := request.(status := if reopened then RequestOpen else RequestCancelled);
    Ok(Done(WriteRequest(s, request), reopened,
            [AcceptanceReleased(id, accepted.id, order.supplier, accepted.funder, reopened)]))
  }

  function CancelFinanceRequest(s: State, auth: Auth, id: nat): Result<Done<bool>, Error> {
    var x :- ReadMilestone(s, id);
    var order :- ReadOrder(s, x.orderId);
    :- Need(order.supplier in auth, HostTrap);
    :- Need(order.status == Active, InvalidOrderStatus);
    :- Need(x.status == FinanceRequested, InvalidMilestoneStatus);
    :- Need(FindPosition(s, id).None?, AlreadyFinanced);
    :- Need(FindAccepted(s, id).None?, OfferAlreadyAccepted);
    var request :- ReadRequest(s, id);
    :- Need(request.status == RequestOpen, InvalidFinanceRequestStatus);
    var wasExpired := !IsLive(s.now, request.expiresAt);
    var request := request.(status := RequestCancelled);
    Ok(Done(WriteMilestoneOffers(WriteMilestone(WriteRequest(s, request), x.(status := Funded)), id, []), wasExpired,
            [FinanceRequestClosed(id, order.supplier, wasExpired)]))
  }

  // ---- evidence, settlement, dispute ----------------------------------------------------------

  predicate OpenToEvidence(status: MilestoneStatus) {
    status == Funded || status == Financed || status == Submitted
  }

  function SubmitEvidence(s: State, auth: Auth, id: nat, evidence: Digest): Result<Done<()>, Error> {
    var x :- ReadMilestone(s, id);
    var order :- ReadOrder(s, x.orderId);
    :- Need(order.supplier in auth, HostTrap);
    :- Need(order.status == Active, InvalidOrderStatus);
    :- Need(OpenToEvidence(x.status), InvalidMilestoneStatus);
    :- Need(evidence != 0, InvalidEvidence);
    Ok(Done(WriteMilestone(s, x.(evidence := Some(evidence), status := Submitted)), (),
            [EvidenceSubmitted(id, order.supplier, evidence, x.evidence.Some?)]))
  }

  function AttestMilestone(s: State, auth: Auth, id: nat, evidence: Digest): Result<Done<()>, Error> {
    var x :- ReadMilestone(s, id);
    var order :- ReadOrder(s, x.orderId);
    :- Need(order.attestor in auth, HostTrap);
    :- Need(order.status == Active, InvalidOrderStatus);
    :- Need(x.status == Submitted, InvalidMilestoneStatus);
    :- Need(x.evidence.Some?, EvidenceNotFound);
    :- Need(x.evidence.value == evidence, EvidenceMismatch);
    Ok(Done(WriteMilestone(s, x.(status := Verified)), (),
            [MilestoneVerified(id, order.attestor, evidence)]))
  }

  predicate IsBeneficiary(order: Order, position: Option<Position>, caller: Address) {
    || caller == order.supplier
    || (position.Some? && position.value.status == PositionActive && caller == position.value.funder)
  }

  /** The funder's leg, then the supplier's. */
  function PayOut(s: State, order: Order, x: Milestone, position: Option<Position>, w: Waterfall)
    : Result<(State, Milestone), Error>
  {
    var payable := w.funderRepayment > 0 ==> position.Some?;
    :- Need(payable, FinancePositionNotFound);
    var (s, x) :- if w.funderRepayment > 0 then Release(s, x, position.value.funder, w.funderRepayment)
                  else Ok((s, x));
    if w.supplierPayout > 0 then Release(s, x, order.supplier, w.supplierPayout) else Ok((s, x))
  }

  function SettleMilestone(s: State, auth: Auth, id: nat, caller: Address): Result<Done<()>, Error> {
    var authorised := caller in auth;
    :- Need(authorised, HostTrap);
    var x :- ReadMilestone(s, id);
    var order :- ReadOrder(s, x.orderId);
    :- Need(order.status == Active, InvalidOrderStatus);
    :- Need(x.status == Verified, InvalidMilestoneStatus);
    var position := FindPosition(s, id);
    :- Need(IsBeneficiary(order, position, caller), Unauthorized);
    var w :- Compute(x, position);
    var total :- w.Total();
    var (s, x) :- PayOut(s, order, x, position, w);
    var s := if position.Some? && position.value.status == PositionActive
             then WritePosition(s, position.value.(status := PositionRepaid)) else s;
    var s := WriteMilestone(s, x.(status := Settled));
    var completion := CompleteOrderIfFinished(s, order);
    Ok(Done(completion.state, (),
            [MilestoneSettled(x.orderId, id, total, w.funderRepayment, w.supplierPayout)] + completion.events))
  }

  function OpenDispute(s: State, auth: Auth, id: nat, caller: Address): Result<Done<nat>, Error> {
    var authorised := caller in auth;
    :- Need(authorised, HostTrap);
    var x :- ReadMilestone(s, id);
    var order :- ReadOrder(s, x.orderId);
    :- Need(order.status == Active, InvalidOrderStatus);
    :- Need(caller == order.buyer || caller == order.supplier, Unauthorized);
    :- Need(OpenToEvidence(x.status), InvalidMilestoneStatus);
    var existing := FindMilestoneDispute(s, id);
    :- Need(existing.Some? ==> existing.value.status != DisputeOpen, DisputeAlreadyOpen);
    var disputeId :- NextId(s.disputeCount);
    var dispute := Dispute(disputeId, id, caller, order.resolver, DisputeOpen, s.now);
    Ok(Done(WriteMilestone(WriteDispute(s.(disputeCount := disputeId), dispute), x.(status := Disputed)), disputeId,
            [DisputeOpened(id, disputeId, caller, order.resolver)]))
  }

  /** Closes a live position, whose advance is not reversed, and hands the buyer what the milestone holds. */
  function RefundEscrow(s: State, id: nat, order: Order, x: Milestone): Result<(State, Milestone, I128), Error> {
    var position := FindPosition(s, id);
    var live := position.Some? && position.value.status == PositionActive;
    var outstanding: I128 := if live then position.value.principal else 0;
    var s := if live then WritePosition(s, position.value.(status := PositionClosed)) else s;
    var (s, x) :- Release(s, x, order.buyer, x.funded);
    Ok((s, x, outstanding))
  }

  function ResolveDispute(s: State, auth: Auth, id: nat, resolution: Resolution): Result<Done<()>, Error> {
    var x :- ReadMilestone(s, id);
    var order :- ReadOrder(s, x.orderId);
    var dispute :- ReadMilestoneDispute(s, id);
    :- Need(order.resolver in auth, HostTrap);
    :- Need(order.status == Active, InvalidOrderStatus);
    :- Need(x.status == Disputed, InvalidMilestoneStatus);
    :- Need(dispute.status == DisputeOpen, InvalidDisputeStatus);
    if resolution == Settle then
      Ok(Done(WriteDispute(WriteMilestone(s, x.(status := Verified)), dispute.(status := ResolvedSettle)), (),
              [DisputeResolved(id, dispute.id, order.resolver, true)]))
    else
      :- Need(x.funded > 0, NothingToSettle);
      var amount := x.funded;
      var (s, x, outstanding) :- RefundEscrow(s, id, order, x);
      var s := WriteDispute(WriteMilestone(s, x.(status := Refunded)), dispute.(status := ResolvedRefund));
      var completion := CompleteOrderIfFinished(s, order);
      Ok(Done(completion.state, (),
              [MilestoneRefunded(x.orderId, id, order.buyer, amount, outstanding),
               DisputeResolved(id, dispute.id, order.resolver, false)] + completion.events))
  }

  // ---- one invocation -------------------------------------------------------------------------

  datatype Call =
    | CallCreateOrder(buyer: Address, supplier: Address, attestor: Address, resolver: Address)
    | CallCreateMilestone(orderId: nat, amount: I128, deadline: Option<U64>)
    | CallAcceptOrder(orderId: nat)
    | CallCancelOrder(orderId: nat)
    | CallFundMilestone(id: nat, amount: I128, asset: Address)
    | CallCancelPartialFunding(id: nat)
    | CallRequestFinance(id: nat, principal: I128, expiresAt: U64)
    | CallMakeOffer(id: nat, funder: Address, principal: I128, repayment: I128, expiresAt: U64)
    | CallCancelOffer(offerId: nat)
    | CallAcceptOffer(offerId: nat)
    | CallFundAdvance(id: nat)
    | CallReleaseExpiredAcceptance(id: nat)
    | CallCancelFinanceRequest(id: nat)
    | CallSubmitEvidence(id: nat, evidence: Digest)
    | CallAttestMilestone(id: nat, evidence: Digest)
    | CallSettleMilestone(id: nat, caller: Address)
    | CallOpenDispute(id: nat, caller: Address)
    | CallResolveDispute(id: nat, resolution: Resolution)

  function Forget<T>(r: Result<Done<T>, Error>): Result<Done<()>, Error> {
    var d :- r;
    Ok(Done(d.state, (), d.events))
  }

  function Execute(s: State, auth: Auth, call: Call): Result<Done<()>, Error> {
    match call
    case CallCreateOrder(buyer, supplier, attestor, resolver) =>
      Forget(CreateOrder(s, auth, buyer, supplier, attestor, resolver))
    case CallCreateMilestone(orderId, amount, deadline) => Forget(CreateMilestone(s, auth, orderId, amount, deadline))
    case CallAcceptOrder(orderId) => AcceptOrder(s, auth, orderId)
    case CallCancelOrder(orderId) => CancelOrder(s, auth, orderId)
    case CallFundMilestone(id, amount, asset) => Forget(FundMilestone(s, auth, id, amount, asset))
    case CallCancelPartialFunding(id) => Forget(CancelPartialFunding(s, auth, id))
    case CallRequestFinance(id, principal, expiresAt) => RequestFinance(s, auth, id, principal, expiresAt)
    case CallMakeOffer(id, funder, principal, repayment, expiresAt) =>
      Forget(MakeOffer(s, auth, id, funder, principal, repayment, expiresAt))
    case CallCancelOffer(offerId) => CancelOffer(s, auth, offerId)
    case CallAcceptOffer(offerId) => AcceptOffer(s, auth, offerId)
    case CallFundAdvance(id) => FundAdvance(s, auth, id)
    case CallReleaseExpiredAcceptance(id) => Forget(ReleaseExpiredAcceptance(s, auth, id))
    case CallCancelFinanceRequest(id) => Forget(CancelFinanceRequest(s, auth, id))
    case CallSubmitEvidence(id, evidence) => SubmitEvidence(s, auth, id, evidence)
    case CallAttestMilestone(id, evidence) => AttestMilestone(s, auth, id, evidence)
    case CallSettleMilestone(id, caller) => SettleMilestone(s, auth, id, caller)
    case CallOpenDispute(id, caller) => Forget(OpenDispute(s, auth, id, caller))
    case CallResolveDispute(id, resolution) => ResolveDispute(s, auth, id, resolution)
  }
}
