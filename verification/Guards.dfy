/** When exactly a call succeeds in a reachable state, and which of its guards can never fire. */
module Guards {
  import opened Wrappers
  import opened Types
  import opened Sums
  import opened Token
  import opened Storage
  import opened Escrow
  import opened Financing
  import opened Settlement
  import opened Core
  import opened Lifecycle
  import opened Invariant
  import opened Effects
  import opened OrderPreservation
  import opened Guarantees
  import opened Runs

  function OrderOf(s: State, id: nat): Order
    requires id in s.slots && s.slots[id].milestone.orderId in s.orders
  {
    s.orders[s.slots[id].milestone.orderId]
  }

  predicate Known(s: State, id: nat) {
    id in s.slots && s.slots[id].milestone.orderId in s.orders
  }

  /** What a caller can check beforehand: who signs, the milestone's status, the offer in question, the
      clock and the payer's balance. None of the contract's secondary barriers appears here. */
  predicate Admissible(s: State, auth: Auth, call: Call)
    requires OnMilestone(call)
  {
    match call
    case CallFundMilestone(id, amount, asset) =>
      && Known(s, id) && s.slots[id].milestone.status == Unfunded && OrderOf(s, id).status == Active
      && OrderOf(s, id).buyer in auth && asset == s.config.usdc
      && 0 < amount <= s.slots[id].milestone.amount - s.slots[id].milestone.funded
      && amount <= Balance(s.balances, OrderOf(s, id).buyer)
    case CallCancelPartialFunding(id) =>
      && Known(s, id) && s.slots[id].milestone.status == Unfunded && s.slots[id].milestone.funded > 0
      && OrderOf(s, id).buyer in auth
    case CallRequestFinance(id, principal, expiresAt) =>
      && Known(s, id) && OrderOf(s, id).supplier in auth
      && (|| s.slots[id].milestone.status == Funded
          || (&& s.slots[id].milestone.status == FinanceRequested && s.slots[id].accepted.None?
              && s.slots[id].request.Some? && s.slots[id].request.value.expiresAt <= s.now))
      && 0 < principal <= s.slots[id].milestone.amount
      && s.now + MAX_REQUEST_VALIDITY_SECONDS <= U64_MAX
      && s.now < expiresAt <= s.now + MAX_REQUEST_VALIDITY_SECONDS
    case CallAcceptOffer(offerId) =>
      && offerId in s.offers
      && var o := s.offers[offerId];
      && o.status == OfferOpen && s.now < o.expiresAt
      && Known(s, o.milestoneId) && OrderOf(s, o.milestoneId).supplier in auth
      && var x := s.slots[o.milestoneId];
      && x.milestone.status == FinanceRequested && x.accepted.None?
      && x.request.Some? && s.now < x.request.value.expiresAt
    case CallFundAdvance(id) =>
      && Known(s, id) && s.slots[id].milestone.status == FinanceRequested && s.slots[id].accepted.Some?
      && var a := s.slots[id].accepted.value;
      && s.now < a.expiresAt && a.funder in auth && a.principal <= Balance(s.balances, a.funder)
    case CallReleaseExpiredAcceptance(id) =>
      && Known(s, id) && s.slots[id].milestone.status == FinanceRequested && s.slots[id].accepted.Some?
      && s.slots[id].accepted.value.expiresAt <= s.now && OrderOf(s, id).supplier in auth
    case CallCancelFinanceRequest(id) =>
      && Known(s, id) && s.slots[id].milestone.status == FinanceRequested && s.slots[id].accepted.None?
      && OrderOf(s, id).supplier in auth
    case CallSubmitEvidence(id, evidence) =>
      && Known(s, id) && OpenToEvidence(s.slots[id].milestone.status)
      && OrderOf(s, id).supplier in auth && evidence != 0
    case CallAttestMilestone(id, evidence) =>
      && Known(s, id) && s.slots[id].milestone.status == Submitted
      && OrderOf(s, id).attestor in auth && s.slots[id].milestone.evidence == Some(evidence)
    case CallSettleMilestone(id, caller) =>
      && Known(s, id) && s.slots[id].milestone.status == Verified
      && caller in auth && IsBeneficiary(OrderOf(s, id), s.slots[id].position, caller)
    case CallOpenDispute(id, caller) =>
      && Known(s, id) && OpenToEvidence(s.slots[id].milestone.status)
      && caller in auth && (caller == OrderOf(s, id).buyer || caller == OrderOf(s, id).supplier)
      && s.disputeCount < U64_MAX
    case CallResolveDispute(id, _) =>
      Known(s, id) && s.slots[id].milestone.status == Disputed && OrderOf(s, id).resolver in auth
  }

  /** The secondary barriers: errors a call on a milestone never returns from a reachable state. */
  predicate NeverReturns(call: Call, e: Error)
    requires OnMilestone(call)
  {
    || e.EscrowMutated? || e.MilestoneNotFullyFunded? || e.InsufficientEscrow? || e.NothingToSettle?
    || e.DisputeAlreadyOpen? || e.InvalidDisputeStatus? || e.EvidenceNotFound? || e.FinancePositionNotFound?
    || (match call
        case CallCancelPartialFunding(_) =>
          e.FinanceRequestActive? || e.OfferAlreadyAccepted? || e.AlreadyFinanced? || e.InvalidAmount?
        case CallRequestFinance(_, _, _) => e.FinanceRequestNotFound?
        case CallAcceptOffer(_) =>
          || e.FinanceRequestActive? || e.AlreadyFinanced? || e.InvalidAmount? || e.InvalidRepayment?
          || e.RepaymentExceedsEscrow?
        case CallFundAdvance(_) =>
          || e.InvalidFunder? || e.InvalidAmount? || e.InvalidRepayment? || e.RepaymentExceedsEscrow?
          || e.InvalidOrderStatus? || e.InvalidMilestoneStatus? || e.InvalidOfferStatus?
        case CallReleaseExpiredAcceptance(_) =>
          e.InvalidOfferStatus? || e.InvalidOrderStatus? || e.InvalidMilestoneStatus? || e.FinanceRequestNotFound?
        case CallCancelFinanceRequest(_) =>
          e.AlreadyFinanced? || e.FinanceRequestNotFound? || e.InvalidFinanceRequestStatus?
        case CallSettleMilestone(_, _) => e.ArithmeticOverflow? || e.RepaymentExceedsEscrow? || e.InvalidAmount?
        case CallResolveDispute(_, _) => e.InvalidAmount?
        case _ => false)
  }

  // ---- what a reachable state says about one milestone ------------------------------------------

  lemma SlotFacts(s: State, id: nat)
    requires Inv(s)
    ensures id in s.slots ==>
              && Known(s, id) && s.slots[id].milestone.id == id
              && SlotOk(s.self, OrderOf(s, id), s.slots[id], FindMilestoneDispute(s, id))
              && OrderOf(s, id).asset == s.config.usdc
              && s.slots[id].milestone.funded <= Balance(s.balances, s.self)
    ensures BalancesOk(s.balances)
  {
    hide SlotOk;
    InvParts(s);
    hide Inv;
    if id in s.slots {
      assert MilestoneOk(s, id);
      assert OrderOk(s, s.slots[id].milestone.orderId);
      EscrowCovers(s, id);
    }
  }

  lemma EscrowCovers(s: State, id: nat)
    requires MilestonesOk(s) && TokenOk(s) && id in s.slots
    ensures s.slots[id].milestone.funded <= Balance(s.balances, s.self)
  {
    hide BalancesOk, StageOk;
    forall k | k in s.slots ensures Held(s.slots[k]) >= 0 {
      assert MilestoneOk(s, k);
    }
    SumBounds(s.slots, Held, id);
  }

  // ---- call by call -----------------------------------------------------------------------------

  lemma FundMilestoneExact(s: State, auth: Auth, id: nat, amount: I128, asset: Address)
    requires Inv(s)
    ensures var r := FundMilestone(s, auth, id, amount, asset); var call := CallFundMilestone(id, amount, asset);
            && (r.Ok? <==> Admissible(s, auth, call))
            && (r.Err? ==> !NeverReturns(call, r.error))
  {
    hide Inv, Transfer, BalancesOk, FindMilestoneDispute;
    SlotFacts(s, id);
    if Known(s, id) {
      TransferSucceeds(s.balances, OrderOf(s, id).buyer, s.self, amount);
      TransferErrs(s.balances, OrderOf(s, id).buyer, s.self, amount);
    }
  }

  lemma TransferErrs(b: Balances, from: Address, to: Address, amount: int)
    ensures Transfer(b, from, to, amount).Err? ==> Transfer(b, from, to, amount).error == HostTrap
  {
  }

  lemma CancelPartialFundingExact(s: State, auth: Auth, id: nat)
    requires Inv(s)
    ensures var r := CancelPartialFunding(s, auth, id); var call := CallCancelPartialFunding(id);
            && (r.Ok? <==> Admissible(s, auth, call))
            && (r.Err? ==> !NeverReturns(call, r.error))
  {
    hide Inv, Transfer, BalancesOk, FindMilestoneDispute;
    SlotFacts(s, id);
    if Known(s, id) {
      TransferSucceeds(s.balances, s.self, OrderOf(s, id).buyer, s.slots[id].milestone.funded);
      TransferErrs(s.balances, s.self, OrderOf(s, id).buyer, s.slots[id].milestone.funded);
    }
  }

  lemma RequestFinanceExact(s: State, auth: Auth, id: nat, principal: I128, expiresAt: U64)
    requires Inv(s)
    ensures var r := RequestFinance(s, auth, id, principal, expiresAt);
            var call := CallRequestFinance(id, principal, expiresAt);
            && (r.Ok? <==> Admissible(s, auth, call))
            && (r.Err? ==> !NeverReturns(call, r.error))
  {
    hide Inv, BalancesOk, FindMilestoneDispute;
    SlotFacts(s, id);
  }

  lemma SubmitEvidenceExact(s: State, auth: Auth, id: nat, evidence: Digest)
    requires Inv(s)
    ensures var r := SubmitEvidence(s, auth, id, evidence); var call := CallSubmitEvidence(id, evidence);
            && (r.Ok? <==> Admissible(s, auth, call))
            && (r.Err? ==> !NeverReturns(call, r.error))
  {
    hide Inv, BalancesOk, FindMilestoneDispute;
    SlotFacts(s, id);
  }

  lemma AttestMilestoneExact(s: State, auth: Auth, id: nat, evidence: Digest)
    requires Inv(s)
    ensures var r := AttestMilestone(s, auth, id, evidence); var call := CallAttestMilestone(id, evidence);
            && (r.Ok? <==> Admissible(s, auth, call))
            && (r.Err? ==> !NeverReturns(call, r.error))
  {
    hide Inv, BalancesOk, FindMilestoneDispute;
    SlotFacts(s, id);
  }

  lemma CancelFinanceRequestExact(s: State, auth: Auth, id: nat)
    requires Inv(s)
    ensures var r := CancelFinanceRequest(s, auth, id); var call := CallCancelFinanceRequest(id);
            && (r.Ok? <==> Admissible(s, auth, call))
            && (r.Err? ==> !NeverReturns(call, r.error))
  {
    hide Inv, BalancesOk, FindMilestoneDispute;
    SlotFacts(s, id);
  }

  lemma ReleaseExpiredAcceptanceExact(s: State, auth: Auth, id: nat)
    requires Inv(s)
    ensures var r := ReleaseExpiredAcceptance(s, auth, id); var call := CallReleaseExpiredAcceptance(id);
            && (r.Ok? <==> Admissible(s, auth, call))
            && (r.Err? ==> !NeverReturns(call, r.error))
  {
    hide Inv, BalancesOk, FindMilestoneDispute;
    SlotFacts(s, id);
  }

  lemma FundAdvanceExact(s: State, auth: Auth, id: nat)
    requires Inv(s)
    ensures var r := FundAdvance(s, auth, id); var call := CallFundAdvance(id);
            && (r.Ok? <==> Admissible(s, auth, call))
            && (r.Err? ==> !NeverReturns(call, r.error))
  {
    hide Inv, Transfer, BalancesOk, FindMilestoneDispute;
    SlotFacts(s, id);
    if Known(s, id) && s.slots[id].accepted.Some? {
      var a := s.slots[id].accepted.value;
      TransferSucceeds(s.balances, a.funder, OrderOf(s, id).supplier, a.principal);
      TransferErrs(s.balances, a.funder, OrderOf(s, id).supplier, a.principal);
    }
  }

  lemma OpenDisputeExact(s: State, auth: Auth, id: nat, caller: Address)
    requires Inv(s)
    ensures var r := OpenDispute(s, auth, id, caller); var call := CallOpenDispute(id, caller);
            && (r.Ok? <==> Admissible(s, auth, call))
            && (r.Err? ==> !NeverReturns(call, r.error))
  {
    hide Inv, BalancesOk, FindMilestoneDispute;
    SlotFacts(s, id);
  }

  /** An offer that can be read is on file, made on terms its milestone can carry. */
  lemma OfferFacts(s: State, offerId: nat)
    requires Inv(s) && offerId in s.offers
    ensures var o := s.offers[offerId];
            && o.milestoneId in s.slots && Known(s, o.milestoneId)
            && TermsOk(s.self, OrderOf(s, o.milestoneId), s.slots[o.milestoneId].milestone, o)
  {
    hide Inv, TermsOk;
    InvParts(s);
    EntryMeans(s, offerId);
    var o := s.offers[offerId];
    TermsIgnoreStatus(s.self, OrderOf(s, o.milestoneId), s.slots[o.milestoneId].milestone, s.history[offerId],
            o.status);
  }

  lemma AcceptOfferExact(s: State, auth: Auth, offerId: nat)
    requires Inv(s)
    ensures var r := AcceptOffer(s, auth, offerId); var call := CallAcceptOffer(offerId);
            && (r.Ok? <==> Admissible(s, auth, call))
            && (r.Err? ==> !NeverReturns(call, r.error))
  {
    hide Inv, BalancesOk, FindMilestoneDispute;
    if offerId in s.offers {
      OfferFacts(s, offerId);
      SlotFacts(s, s.offers[offerId].milestoneId);
    }
  }

  /** The contract can always pay out what a milestone holds: neither leg can fail. */
  lemma PayOutSucceeds(s: State, order: Order, x: Slot)
    requires Covered(x) && BalancesOk(s.balances) && x.milestone.funded <= Balance(s.balances, s.self)
    ensures PayOut(s, order, x.milestone, x.position,
                   Waterfall(OwedToFunder(x), x.milestone.funded - OwedToFunder(x))).Ok?
  {
    hide Transfer, BalancesOk;
    var owed := OwedToFunder(x);
    if owed > 0 {
      TransferSucceeds(s.balances, s.self, x.position.value.funder, owed);
      TransferMoves(s.balances, s.self, x.position.value.funder, owed);
      var paid := Transfer(s.balances, s.self, x.position.value.funder, owed).value;
      TransferSucceeds(paid, s.self, order.supplier, x.milestone.funded - owed);
    } else {
      TransferSucceeds(s.balances, s.self, order.supplier, x.milestone.funded);
    }
  }

  lemma SettleMilestoneExact(s: State, auth: Auth, id: nat, caller: Address)
    requires Inv(s)
    ensures var r := SettleMilestone(s, auth, id, caller); var call := CallSettleMilestone(id, caller);
            && (r.Ok? <==> Admissible(s, auth, call))
            && (r.Err? ==> !NeverReturns(call, r.error))
  {
    hide Inv, BalancesOk, FindMilestoneDispute, PayOut, Compute, StageOk, CompleteOrderIfFinished;
    SlotFacts(s, id);
    if Known(s, id) && s.slots[id].milestone.status == Verified {
      var x := s.slots[id];
      VerifiedIsCovered(s.self, OrderOf(s, id), x, FindMilestoneDispute(s, id));
      ComputeIs(x);
      PayOutSucceeds(s, OrderOf(s, id), x);
    }
  }

  lemma DisputedHasDispute(self: Address, order: Order, x: Slot, d: Option<Dispute>)
    requires SlotOk(self, order, x, d) && x.milestone.status == Disputed
    ensures d.Some? && d.value.status == DisputeOpen && order.status == Active && x.milestone.funded > 0
  {
  }

  lemma ResolveDisputeExact(s: State, auth: Auth, id: nat, resolution: Resolution)
    requires Inv(s)
    ensures var r := ResolveDispute(s, auth, id, resolution); var call := CallResolveDispute(id, resolution);
            && (r.Ok? <==> Admissible(s, auth, call))
            && (r.Err? ==> !NeverReturns(call, r.error))
  {
    hide Inv, BalancesOk, FindMilestoneDispute, Transfer, StageOk, SlotOk, CompleteOrderIfFinished;
    SlotFacts(s, id);
    if Known(s, id) && s.slots[id].milestone.status == Disputed {
      var x := s.slots[id];
      DisputedHasDispute(s.self, OrderOf(s, id), x, FindMilestoneDispute(s, id));
      TransferSucceeds(s.balances, s.self, OrderOf(s, id).buyer, x.milestone.funded);
    }
  }

  // ---- any call on a milestone ------------------------------------------------------------------

  lemma CallExact(s: State, auth: Auth, call: Call)
    requires Inv(s) && OnMilestone(call)
    ensures Execute(s, auth, call).Ok? <==> Admissible(s, auth, call)
    ensures Execute(s, auth, call).Err? ==> !NeverReturns(call, Execute(s, auth, call).error)
  {
    hide Inv, Admissible, NeverReturns, FundMilestone, CancelPartialFunding, RequestFinance, AcceptOffer, FundAdvance;
    hide ReleaseExpiredAcceptance, CancelFinanceRequest, SubmitEvidence, AttestMilestone, SettleMilestone;
    hide OpenDispute, ResolveDispute;
    match call {
      case CallFundMilestone(id, amount, asset) => FundMilestoneExact(s, auth, id, amount, asset);
      case CallCancelPartialFunding(id) => CancelPartialFundingExact(s, auth, id);
      case CallRequestFinance(id, principal, expiresAt) => RequestFinanceExact(s, auth, id, principal, expiresAt);
      case CallAcceptOffer(offerId) => AcceptOfferExact(s, auth, offerId);
      case CallFundAdvance(id) => FundAdvanceExact(s, auth, id);
      case CallReleaseExpiredAcceptance(id) => ReleaseExpiredAcceptanceExact(s, auth, id);
      case CallCancelFinanceRequest(id) => CancelFinanceRequestExact(s, auth, id);
      case CallSubmitEvidence(id, evidence) => SubmitEvidenceExact(s, auth, id, evidence);
      case CallAttestMilestone(id, evidence) => AttestMilestoneExact(s, auth, id, evidence);
      case CallSettleMilestone(id, caller) => SettleMilestoneExact(s, auth, id, caller);
      case CallOpenDispute(id, caller) => OpenDisputeExact(s, auth, id, caller);
      case CallResolveDispute(id, resolution) => ResolveDisputeExact(s, auth, id, resolution);
    }
  }

  /** In every state of every run, a call on a milestone succeeds exactly when what its caller can check
      beforehand holds; none of its secondary barriers ever decides. */
  lemma BarriersNeverDecide(r: Trace, n: nat, auth: Auth, call: Call)
    requires r.IsRun() && n < |r.states| && OnMilestone(call)
    ensures Execute(r.states[n], auth, call).Ok? <==> Admissible(r.states[n], auth, call)
    ensures Execute(r.states[n], auth, call).Err? ==> !NeverReturns(call, Execute(r.states[n], auth, call).error)
  {
    hide Step, Inv, Execute, Admissible, NeverReturns;
    RunKeepsInv(r, n);
    CallExact(r.states[n], auth, call);
  }

  /** The repayment frozen when the offer was accepted. */
  function FrozenRepayment(x: Slot): int {
    if x.accepted.Some? then x.accepted.value.repayment else 0
  }

  lemma OwedIsFrozen(self: Address, order: Order, x: Slot, d: Option<Dispute>)
    requires SlotOk(self, order, x, d) && x.milestone.status == Verified
    ensures OwedToFunder(x) == FrozenRepayment(x) && 0 <= FrozenRepayment(x) <= x.milestone.amount
    ensures x.milestone.funded == x.milestone.amount
    ensures x.position.Some? <==> x.accepted.Some?
    ensures x.position.Some? ==>
              && x.position.value.status == PositionActive && x.position.value.funder == x.accepted.value.funder
              && Independent(order, x.position.value.funder) && x.position.value.funder != self
  {
  }

  /** The milestone's amount leaves the contract in two legs: to the funder the repayment frozen at acceptance,
      to the supplier the rest; nobody else's balance changes. */
  ghost predicate PaidOut(s: State, t: State, id: nat) {
    && Known(s, id) && id in t.slots
    && var x := s.slots[id]; var supplier := OrderOf(s, id).supplier;
    && t.slots[id].milestone == x.milestone.(status := Settled, funded := 0)
    && Balance(t.balances, s.self) == Balance(s.balances, s.self) - x.milestone.amount
    && Balance(t.balances, supplier) == Balance(s.balances, supplier) + x.milestone.amount - FrozenRepayment(x)
    && (x.accepted.Some? ==>
          var funder := x.accepted.value.funder;
          Balance(t.balances, funder) == Balance(s.balances, funder) + FrozenRepayment(x))
    && forall a | a != s.self && a != supplier && (x.accepted.None? || a != x.accepted.value.funder) ::
         Balance(t.balances, a) == Balance(s.balances, a)
  }

  lemma MadePayment(s: State, t: State, id: nat)
    requires Known(s, id) && Makes(s, t, id, Paid)
    requires SlotOk(s.self, OrderOf(s, id), s.slots[id], FindMilestoneDispute(s, id))
    requires OrderOf(s, id).supplier != s.self
    ensures PaidOut(s, t, id)
  {
    hide SlotOk, BalancesOk, MovesOffers, MovesDisputes, MovesOrders, FindMilestoneDispute;
    OwedIsFrozen(s.self, OrderOf(s, id), s.slots[id], FindMilestoneDispute(s, id));
  }

  lemma SettlementPays(s: State, auth: Auth, id: nat, caller: Address)
    requires Inv(s) && Admissible(s, auth, CallSettleMilestone(id, caller))
    ensures SettleMilestone(s, auth, id, caller).Ok?
    ensures PaidOut(s, SettleMilestone(s, auth, id, caller).value.state, id)
  {
    hide Inv, SlotOk, SettleMilestone, EventsOf, Makes, PaidOut;
    SettleMilestoneExact(s, auth, id, caller);
    InvParts(s);
    hide Consistent;
    SlotFacts(s, id);
    SettleMilestoneRealises(s, auth, id, caller);
    VerifiedIsActive(s.self, OrderOf(s, id), s.slots[id], FindMilestoneDispute(s, id));
    SupplierIsOther(s, s.slots[id].milestone.orderId);
    MadePayment(s, SettleMilestone(s, auth, id, caller).value.state, id);
  }

  lemma VerifiedIsActive(self: Address, order: Order, x: Slot, d: Option<Dispute>)
    requires SlotOk(self, order, x, d) && x.milestone.status == Verified
    ensures order.status == Active
  {
  }

  /** In every state of every run a verified milestone settles for its supplier and for its funder alike,
      without any error, and pays out exactly. */
  lemma SettlementIsExact(r: Trace, n: nat, auth: Auth, id: nat, caller: Address)
    requires r.IsRun() && n < |r.states| && Known(r.states[n], id)
    requires r.states[n].slots[id].milestone.status == Verified && caller in auth
    requires IsBeneficiary(OrderOf(r.states[n], id), r.states[n].slots[id].position, caller)
    ensures SettleMilestone(r.states[n], auth, id, caller).Ok?
    ensures PaidOut(r.states[n], SettleMilestone(r.states[n], auth, id, caller).value.state, id)
  {
    hide Step, Inv, SettleMilestone, PaidOut;
    RunKeepsInv(r, n);
    SettlementPays(r.states[n], auth, id, caller);
  }

  lemma SupplierIsOther(s: State, o: nat)
    requires OrdersOk(s) && o in s.orders
    ensures s.orders[o].buyer != s.self
    ensures s.orders[o].status == Active ==> s.orders[o].supplier != s.self
  {
    assert OrderOk(s, o);
  }

  // ---- the calls beside the milestones ------------------------------------------------------------

  /** What decides a call that creates an order, a milestone or an offer, or answers an order or an offer. */
  predicate Permitted(s: State, auth: Auth, call: Call)
    requires !OnMilestone(call)
  {
    match call
    case CallCreateOrder(buyer, supplier, attestor, resolver) =>
      && buyer in auth && buyer != supplier && attestor !in {buyer, supplier} && resolver !in {buyer, supplier,
              attestor}
      && s.orderCount < U64_MAX
    case CallCreateMilestone(orderId, amount, deadline) =>
      && orderId in s.orders && s.orders[orderId].status == Created && s.orders[orderId].buyer in auth
      && 0 < amount && (deadline.Some? ==> s.now < deadline.value)
      && |ReadOrderMilestones(s, orderId)| < MAX_MILESTONES_PER_ORDER && s.milestoneCount < U64_MAX
    case CallAcceptOrder(orderId) =>
      && orderId in s.orders && s.orders[orderId].status == Created && s.orders[orderId].supplier in auth
      && ReadOrderMilestones(s, orderId) != []
    case CallCancelOrder(orderId) =>
      orderId in s.orders && s.orders[orderId].status == Created && s.orders[orderId].buyer in auth
    case CallMakeOffer(id, funder, principal, repayment, expiresAt) =>
      && Known(s, id) && funder in auth && s.slots[id].milestone.status == FinanceRequested
      && s.slots[id].accepted.None? && s.slots[id].request.Some? && s.now < s.slots[id].request.value.expiresAt
      && Independent(OrderOf(s, id), funder)
      && principal == s.slots[id].request.value.principal && principal <= repayment <= s.slots[id].milestone.amount
      && s.now + MAX_OFFER_VALIDITY_SECONDS <= U64_MAX && s.now < expiresAt <= s.now + MAX_OFFER_VALIDITY_SECONDS
      && |ReadMilestoneOffers(s, id)| < MAX_OFFERS_PER_MILESTONE && s.offerCount < U64_MAX
    case CallCancelOffer(offerId) =>
      offerId in s.offers && s.offers[offerId].status == OfferOpen && s.offers[offerId].funder in auth
  }

  lemma MakeOfferExact(s: State, auth: Auth, id: nat, funder: Address, principal: I128, repayment: I128, expiresAt: U64)
    requires Inv(s)
    ensures MakeOffer(s, auth, id, funder, principal, repayment, expiresAt).Ok? <==>
            Permitted(s, auth, CallMakeOffer(id, funder, principal, repayment, expiresAt))
  {
    hide Inv, BalancesOk, FindMilestoneDispute, Independent;
    SlotFacts(s, id);
  }

  lemma OrderCallExact(s: State, auth: Auth, call: Call)
    requires !OnMilestone(call) && !call.CallMakeOffer?
    ensures Execute(s, auth, call).Ok? <==> Permitted(s, auth, call)
  {
  }

  /** In every state of every run these calls too succeed exactly when what their caller can check holds. */
  lemma OtherCallsDecide(r: Trace, n: nat, auth: Auth, call: Call)
    requires r.IsRun() && n < |r.states| && !OnMilestone(call)
    ensures Execute(r.states[n], auth, call).Ok? <==> Permitted(r.states[n], auth, call)
  {
    hide Step, Inv, Permitted;
    RunKeepsInv(r, n);
    if call.CallMakeOffer? {
      hide MakeOffer;
      MakeOfferExact(r.states[n], auth, call.id, call.funder, call.principal, call.repayment, call.expiresAt);
    } else {
      hide Execute;
      OrderCallExact(r.states[n], auth, call);
    }
  }
}
