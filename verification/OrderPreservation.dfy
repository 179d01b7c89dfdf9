/** The calls that change no milestone, and the environment, keep the invariant; so every run does. */
module OrderPreservation {
  import opened Wrappers
  import opened Types
  import opened Sums
  import opened Token
  import opened Storage
  import opened Financing
  import opened Core
  import opened Runs
  import opened Lifecycle
  import opened Invariant
  import opened Effects
  import opened Preservation

  // ---- what depends on which part of the storage ----------------------------------------------

  predicate SameRecords(s: State, t: State) {
    && t.self == s.self && t.config == s.config && t.orders == s.orders && t.lists == s.lists
    && t.slots == s.slots && t.disputes == s.disputes
  }

  lemma SameRecordsKeep(s: State, t: State)
    requires SameRecords(s, t) && OrdersOk(s) && ListsOk(s) && MilestonesOk(s) && DisputesOk(s)
    requires forall k | k in s.orders :: HasWork(s, k)
    ensures OrdersOk(t) && ListsOk(t) && MilestonesOk(t) && DisputesOk(t)
    ensures forall k | k in t.orders :: HasWork(t, k)
  {
    hide SlotOk;
    forall k | k in t.orders ensures OrderOk(t, k) && ListOk(t, k) && HasWork(t, k) {
      assert OrderOk(s, k) && ListOk(s, k) && HasWork(s, k);
      if t.orders[k].status == Active {
        var i :| 0 <= i < |ReadOrderMilestones(s, k)| && Unfinished(s, ReadOrderMilestones(s, k)[i]);
        assert Unfinished(t, ReadOrderMilestones(t, k)[i]);
      }
    }
    forall k | k in t.slots ensures MilestoneOk(t, k) && ListedOk(t, k) {
      assert MilestoneOk(s, k) && ListedOk(s, k);
    }
    forall k | k in t.disputes ensures DisputeOk(t, k) {
      assert DisputeOk(s, k);
    }
  }

  /** Old milestones stay as they are, new ones start blank, orders change at most their status. */
  predicate Extends(s: State, t: State) {
    && t.self == s.self && t.config == s.config
    && t.disputes == s.disputes && t.offers == s.offers && t.history == s.history
    && (forall k | k in s.slots :: k in t.slots && t.slots[k] == s.slots[k])
    && (forall k | k in t.slots && k !in s.slots :: t.slots[k].accepted.None? && t.slots[k].dispute.None?)
    && (forall k | k in s.orders :: k in t.orders && t.orders[k] == s.orders[k].(status := t.orders[k].status))
  }

  lemma ExtendsKeepsOffers(s: State, t: State)
    requires OffersOk(s) && Extends(s, t)
    ensures OffersOk(t)
  {
    hide TermsOk;
    forall k | k in t.slots ensures AcceptedOk(t, k) {
      assert k in s.slots ==> AcceptedOk(s, k);
    }
    forall k | k in t.history ensures OfferOk(t, k) {
      assert OfferOk(s, k);
      var m := s.slots[s.history[k].milestoneId].milestone;
      TermsStable(s.self, s.orders[m.orderId], m, m, t.orders[m.orderId].status, s.history[k]);
    }
  }

  lemma ExtendsKeepsDisputes(s: State, t: State)
    requires DisputesOk(s) && Extends(s, t)
    ensures DisputesOk(t)
  {
    forall k | k in t.disputes ensures DisputeOk(t, k) {
      assert DisputeOk(s, k);
    }
  }

  /** Orders may be accepted or cancelled while all their milestones are still unfunded. */
  lemma ExtendsKeepsMilestones(s: State, t: State)
    requires MilestonesOk(s) && Extends(s, t)
    requires forall k | k in t.slots && k !in s.slots :: MilestoneOk(t, k)
    requires forall k | k in s.orders && t.orders[k] != s.orders[k] ::
               s.orders[k].status == Created && t.orders[k].status != Completed
    ensures MilestonesOk(t)
  {
    hide SlotOk;
    forall k | k in t.slots ensures MilestoneOk(t, k) {
      if k in s.slots {
        assert MilestoneOk(s, k);
        var oid := s.slots[k].milestone.orderId;
        assert FindMilestoneDispute(t, k) == FindMilestoneDispute(s, k);
        if t.orders[oid] != s.orders[oid] {
          CreatedIsUnfunded(s.self, s.orders[oid], s.slots[k], FindMilestoneDispute(s, k));
          StatusOnly(s.self, s.orders[oid], t.orders[oid].status, s.slots[k], FindMilestoneDispute(s, k));
        }
      }
    }
  }

  lemma CreatedIsUnfunded(self: Address, order: Order, x: Slot, d: Option<Dispute>)
    requires SlotOk(self, order, x, d) && order.status == Created
    ensures x.milestone.status == Unfunded && x.milestone.funded == 0
  {
  }

  lemma ExtendsKeepsOrder(s: State, t: State, k: nat)
    requires Extends(s, t) && k in s.orders && t.orders[k] == s.orders[k]
    requires ReadOrderMilestones(t, k) == ReadOrderMilestones(s, k)
    requires OrderOk(s, k) && ListOk(s, k) && HasWork(s, k)
    ensures OrderOk(t, k) && ListOk(t, k) && HasWork(t, k)
  {
    if t.orders[k].status == Active {
      var i :| 0 <= i < |ReadOrderMilestones(s, k)| && Unfinished(s, ReadOrderMilestones(s, k)[i]);
      assert Unfinished(t, ReadOrderMilestones(t, k)[i]);
    }
  }

  lemma ExtendsKeepsListed(s: State, t: State, k: nat)
    requires Extends(s, t) && k in s.slots && ListedOk(s, k)
    requires ReadOrderMilestones(s, s.slots[k].milestone.orderId) <= ReadOrderMilestones(t,
            s.slots[k].milestone.orderId)
    ensures ListedOk(t, k)
  {
  }

  lemma ExtendsKeepsEscrow(s: State, t: State)
    requires Extends(s, t) && t.slots.Keys == s.slots.Keys && TokenOk(s)
    requires t.balances == s.balances && t.donated == s.donated
    ensures TokenOk(t)
  {
    assert t.slots == s.slots;
  }

  // ---- orders ---------------------------------------------------------------------------------

  lemma CreateOrderWrites(s: State, auth: Auth, buyer: Address, supplier: Address, attestor: Address, resolver: Address)
    requires CreateOrder(s, auth, buyer, supplier, attestor, resolver).Ok?
    ensures s.orderCount < U64_MAX && buyer in auth
    ensures buyer != supplier && attestor != buyer && attestor != supplier
            && resolver != buyer && resolver != supplier && attestor != resolver
    ensures var id := s.orderCount + 1;
            CreateOrder(s, auth, buyer, supplier, attestor, resolver).value ==
            Done(s.(orderCount := id,
                    orders := s.orders[id := Order(id, buyer, supplier, attestor, resolver, s.config.usdc, Created,
                            s.now)]),
                 id, [OrderCreated(id, buyer, supplier, attestor, resolver, s.config.usdc)])
  {
  }

  lemma CreateOrderKeeps(s: State, auth: Auth, buyer: Address, supplier: Address, attestor: Address, resolver: Address)
    requires Inv(s) && s.self !in auth && CreateOrder(s, auth, buyer, supplier, attestor, resolver).Ok?
    ensures Inv(CreateOrder(s, auth, buyer, supplier, attestor, resolver).value.state)
  {
    hide CreateOrder, MilestoneOk, OffersOk, DisputesOk, ListOk, ListedOk, HasWork, TokenOk, KeysOk;
    CreateOrderWrites(s, auth, buyer, supplier, attestor, resolver);
    var t := CreateOrder(s, auth, buyer, supplier, attestor, resolver).value.state;
    OrderKeys(s, t);
    ExtendsKeepsOffers(s, t);
    ExtendsKeepsDisputes(s, t);
    ExtendsKeepsMilestones(s, t);
    ExtendsKeepsEscrow(s, t);
    forall k | k in t.orders ensures OrderOk(t, k) && ListOk(t, k) && HasWork(t, k) {
      if k in s.orders {
        ExtendsKeepsOrder(s, t, k);
      } else {
        FreshOrder(t, k);
      }
    }
    forall k | k in t.slots ensures ListedOk(t, k) {
      ExtendsKeepsListed(s, t, k);
    }
  }

  lemma OrderKeys(s: State, t: State)
    requires KeysOk(s) && s.orderCount < U64_MAX && t.orderCount == s.orderCount + 1
    requires t.orderCount in t.orders
    requires t == s.(orderCount := t.orderCount, orders := s.orders[t.orderCount := t.orders[t.orderCount]])
    ensures KeysOk(t) && t.orderCount !in s.lists && t.orderCount !in s.orders
  {
  }

  lemma MilestoneKeys(s: State, t: State, orderId: nat)
    requires KeysOk(s) && s.milestoneCount < U64_MAX && t.milestoneCount == s.milestoneCount + 1
    requires t.milestoneCount in t.slots && orderId in t.lists && orderId in s.orders
    requires t == s.(milestoneCount := t.milestoneCount, lists := s.lists[orderId := t.lists[orderId]],
                     slots := s.slots[t.milestoneCount := t.slots[t.milestoneCount]])
    ensures KeysOk(t)
  {
  }

  lemma FreshOrder(t: State, k: nat)
    requires k in t.orders && t.orders[k].status == Created && ReadOrderMilestones(t, k) == []
    ensures ListOk(t, k) && HasWork(t, k)
  {
  }

  function FreshMilestone(s: State, id: nat, orderId: nat, amount: I128, deadline: Option<U64>): Slot {
    Slot(Milestone(id, orderId, |ReadOrderMilestones(s, orderId)|, amount, 0, deadline, None, Unfunded, s.now),
         None, None, None, None)
  }

  lemma CreateMilestoneWrites(s: State, auth: Auth, orderId: nat, amount: I128, deadline: Option<U64>)
    requires CreateMilestone(s, auth, orderId, amount, deadline).Ok? && KeysOk(s)
    ensures s.milestoneCount < U64_MAX && orderId in s.orders && s.orders[orderId].status == Created && amount > 0
    ensures deadline.Some? ==> deadline.value > s.now
    ensures |ReadOrderMilestones(s, orderId)| < MAX_MILESTONES_PER_ORDER
    ensures var id := s.milestoneCount + 1; var ids := ReadOrderMilestones(s, orderId);
            && id !in s.slots
            && CreateMilestone(s, auth, orderId, amount, deadline).value ==
               Done(s.(milestoneCount := id,
                       slots := s.slots[id := FreshMilestone(s, id, orderId, amount, deadline)],
                       lists := s.lists[orderId := ids + [id]]),
                    id, [MilestoneCreated(orderId, id, |ids|, amount, deadline)])
  {
  }

  /** The storage with one more blank milestone at the end of its order's list. */
  predicate AddsMilestone(s: State, t: State, orderId: nat, id: nat) {
    && id !in s.slots && id in t.slots && orderId in s.orders && orderId in t.lists
    && s.orders[orderId].status == Created
    && |ReadOrderMilestones(s, orderId)| < MAX_MILESTONES_PER_ORDER
    && t == s.(milestoneCount := t.milestoneCount, slots := s.slots[id := t.slots[id]],
               lists := s.lists[orderId := ReadOrderMilestones(s, orderId) + [id]])
    && t.slots[id].milestone.amount > 0
    && t.slots[id] == FreshMilestone(s, id, orderId, t.slots[id].milestone.amount, t.slots[id].milestone.deadline)
  }

  lemma AddsExtends(s: State, t: State, orderId: nat, id: nat)
    requires AddsMilestone(s, t, orderId, id)
    ensures Extends(s, t) && MilestoneOk(t, id) && ListedOk(t, id)
    ensures forall k :: ReadOrderMilestones(s, k) <= ReadOrderMilestones(t, k)
    ensures TokenOk(s) ==> TokenOk(t)
  {
    hide BalancesOk;
    SumUpdate(s.slots, Held, id, t.slots[id]);
  }

  lemma AddsKeepsLists(s: State, t: State, orderId: nat, id: nat)
    requires AddsMilestone(s, t, orderId, id) && OrdersOk(s) && ListsOk(s)
    requires forall k | k in s.orders :: HasWork(s, k)
    ensures OrdersOk(t) && ListsOk(t) && forall k | k in t.orders :: HasWork(t, k)
  {
    hide MilestoneOk, TokenOk, OrderOk, HasWork, ListOk;
    AddsExtends(s, t, orderId, id);
    GrownOrder(s, t, orderId, id);
    hide Extends;
    forall k | k in t.orders ensures OrderOk(t, k) && ListOk(t, k) && HasWork(t, k) {
      if k != orderId {
        ExtendsKeepsOrder(s, t, k);
      }
    }
    hide ListedOk;
    forall k | k in t.slots ensures ListedOk(t, k) {
      if k != id {
        ExtendsKeepsListed(s, t, k);
      }
    }
  }

  lemma CreateMilestoneKeeps(s: State, auth: Auth, orderId: nat, amount: I128, deadline: Option<U64>)
    requires Inv(s) && CreateMilestone(s, auth, orderId, amount, deadline).Ok?
    ensures Inv(CreateMilestone(s, auth, orderId, amount, deadline).value.state)
  {
    hide CreateMilestone, KeysOk, OrdersOk, ListsOk, OffersOk, DisputesOk, TokenOk, HasWork, MilestoneOk, ListedOk;
    CreateMilestoneWrites(s, auth, orderId, amount, deadline);
    var t := CreateMilestone(s, auth, orderId, amount, deadline).value.state;
    var id := t.milestoneCount;
    MilestoneKeys(s, t, orderId);
    AddsExtends(s, t, orderId, id);
    AddsKeepsLists(s, t, orderId, id);
    ExtendsKeepsOffers(s, t);
    ExtendsKeepsDisputes(s, t);
    ExtendsKeepsMilestones(s, t);
  }

  lemma GrownOrder(s: State, t: State, k: nat, id: nat)
    requires Extends(s, t) && k in s.orders && OrderOk(s, k) && ListOk(s, k)
    requires s.orders[k].status == t.orders[k].status == Created
    requires |ReadOrderMilestones(s, k)| < MAX_MILESTONES_PER_ORDER
    requires ReadOrderMilestones(t, k) == ReadOrderMilestones(s, k) + [id] && id in t.slots
    requires t.slots[id].milestone.orderId == k && t.slots[id].milestone.index == |ReadOrderMilestones(s, k)|
    ensures OrderOk(t, k) && ListOk(t, k) && HasWork(t, k)
  {
  }

  /** Accepting or cancelling an order writes its status and nothing else. */
  lemma StatusKeeps(s: State, t: State, id: nat, status: OrderStatus)
    requires Inv(s) && id in s.orders && s.orders[id].status == Created
    requires status == Cancelled || (status == Active && ReadOrderMilestones(s, id) != []
            && s.orders[id].supplier != s.self)
    requires t == s.(orders := s.orders[id := s.orders[id].(status := status)])
    ensures Inv(t)
  {
    hide MilestoneOk, OffersOk, DisputesOk, ListedOk, TokenOk, ListOk, HasWork;
    StatusKeys(s, t, id);
    hide KeysOk;
    ExtendsKeepsOffers(s, t);
    ExtendsKeepsDisputes(s, t);
    ExtendsKeepsMilestones(s, t);
    ExtendsKeepsEscrow(s, t);
    AcceptedOrder(s, t, id);
    forall k | k in t.orders ensures OrderOk(t, k) && ListOk(t, k) && HasWork(t, k) {
      if k != id {
        ExtendsKeepsOrder(s, t, k);
      }
    }
    forall k | k in t.slots ensures ListedOk(t, k) {
      ExtendsKeepsListed(s, t, k);
    }
  }

  lemma StatusKeys(s: State, t: State, id: nat)
    requires KeysOk(s) && id in s.orders && id in t.orders && t == s.(orders := s.orders[id := t.orders[id]])
    ensures KeysOk(t)
  {
  }

  lemma AcceptedOrder(s: State, t: State, id: nat)
    requires MilestonesOk(s) && id in s.orders && id in t.orders && OrderOk(s, id) && ListOk(s, id)
            && s.orders[id].status == Created
    requires t == s.(orders := s.orders[id := s.orders[id].(status := t.orders[id].status)])
    requires t.orders[id].status == Cancelled || (t.orders[id].status == Active && ReadOrderMilestones(s, id) != [])
    ensures ListOk(t, id) && HasWork(t, id)
  {
    var ids := ReadOrderMilestones(s, id);
    hide SlotOk;
    if t.orders[id].status == Active {
      assert MilestoneOk(s, ids[0]);
      CreatedIsUnfunded(s.self, s.orders[id], s.slots[ids[0]], FindMilestoneDispute(s, ids[0]));
      assert Unfinished(t, ids[0]);
    }
  }

  // ---- offers ---------------------------------------------------------------------------------

  lemma MakeOfferWrites(s: State, auth: Auth, id: nat, funder: Address, principal: I128, repayment: I128,
                        expiresAt: U64)
    requires MakeOffer(s, auth, id, funder, principal, repayment, expiresAt).Ok?
    ensures s.offerCount < U64_MAX && funder in auth && id in s.slots && s.slots[id].milestone.orderId in s.orders
    ensures s.slots[id].milestone.status == FinanceRequested
    ensures Independent(s.orders[s.slots[id].milestone.orderId], funder)
    ensures 0 < principal <= repayment <= s.slots[id].milestone.funded
    ensures s.now < expiresAt <= s.now + MAX_OFFER_VALIDITY_SECONDS
    ensures s.slots[id].request.Some? && s.slots[id].request.value.status == RequestOpen
            && s.slots[id].request.value.principal == principal
    ensures var offerId := s.offerCount + 1;
            var offer := Offer(offerId, id, funder, principal, repayment, expiresAt, OfferOpen);
            MakeOffer(s, auth, id, funder, principal, repayment, expiresAt).value ==
            Done(s.(offerCount := offerId, offers := s.offers[offerId := offer],
                    history := s.history[offerId := offer],
                    offerIndex := s.offerIndex[id := ReadMilestoneOffers(s, id) + [offerId]]),
                 offerId, [FundingOfferCreated(id, offerId, funder, principal, repayment, expiresAt)])
  {
  }

  lemma MakeOfferKeeps(s: State, auth: Auth, id: nat, funder: Address, principal: I128, repayment: I128, expiresAt: U64)
    requires Inv(s) && s.self !in auth && MakeOffer(s, auth, id, funder, principal, repayment, expiresAt).Ok?
    ensures Inv(MakeOffer(s, auth, id, funder, principal, repayment, expiresAt).value.state)
  {
    hide MakeOffer, OrdersOk, ListsOk, DisputesOk, MilestonesOk, HasWork, BalancesOk, Independent;
    MakeOfferWrites(s, auth, id, funder, principal, repayment, expiresAt);
    var t := MakeOffer(s, auth, id, funder, principal, repayment, expiresAt).value.state;
    SameRecordsKeep(s, t);
    var m := s.slots[id].milestone;
    FundedAtMost(s, id);
    OfferKeys(s, t);
    hide KeysOk;
    forall k | k in t.slots ensures AcceptedOk(t, k) {
      assert AcceptedOk(s, k);
    }
    forall k | k in t.history ensures OfferOk(t, k) {
      assert k in s.history ==> OfferOk(s, k);
      if k !in s.history {
        assert AcceptedOk(s, id);
      }
    }
  }

  lemma FundedAtMost(s: State, id: nat)
    requires MilestonesOk(s) && id in s.slots
    ensures s.slots[id].milestone.funded <= s.slots[id].milestone.amount
  {
    assert MilestoneOk(s, id);
  }

  lemma OfferKeys(s: State, t: State)
    requires KeysOk(s) && s.offerCount < U64_MAX && t.offerCount == s.offerCount + 1
    requires SameRecords(s, t) && t.orderCount == s.orderCount && t.milestoneCount == s.milestoneCount
    requires t.disputeCount == s.disputeCount && t.offerCount in t.history && t.offerCount in t.offers
    requires t.history == s.history[t.offerCount := t.history[t.offerCount]]
    requires t.offers == s.offers[t.offerCount := t.offers[t.offerCount]]
    ensures KeysOk(t) && t.offerCount !in s.history && t.offerCount !in s.offers
  {
  }

  lemma CancelOfferWrites(s: State, auth: Auth, offerId: nat)
    requires KeysOk(s) && OffersOk(s) && CancelOffer(s, auth, offerId).Ok?
    ensures offerId in s.offers && offerId in s.history && s.history[offerId] == s.offers[offerId]
    ensures s.offers[offerId].status == OfferOpen && s.offers[offerId].funder in auth
    ensures var o := s.offers[offerId]; var gone := o.(status := OfferCancelled);
            CancelOffer(s, auth, offerId).value ==
            Done(s.(offers := s.offers[offerId := gone], history := s.history[offerId := gone]), (),
                 [FundingOfferCancelled(o.milestoneId, offerId, o.funder)])
  {
    hide TermsOk;
    EntryMeans(s, offerId);
  }

  lemma CancelledOffersOk(s: State, t: State, offerId: nat)
    requires OffersOk(s) && offerId in s.history && s.history[offerId].status == OfferOpen
    requires var gone := s.history[offerId].(status := OfferCancelled);
             t == s.(offers := s.offers[offerId := gone], history := s.history[offerId := gone])
    ensures OffersOk(t)
  {
    hide TermsOk;
    assert OfferOk(s, offerId);
    forall k | k in t.slots ensures AcceptedOk(t, k) {
      assert AcceptedOk(s, k);
    }
    forall k | k in t.history ensures OfferOk(t, k) {
      assert OfferOk(s, k);
      var m := s.slots[s.history[k].milestoneId].milestone;
      TermsIgnoreStatus(s.self, s.orders[m.orderId], m, s.history[k], OfferCancelled);
    }
  }

  lemma CancelOfferKeeps(s: State, auth: Auth, offerId: nat)
    requires Inv(s) && CancelOffer(s, auth, offerId).Ok?
    ensures Inv(CancelOffer(s, auth, offerId).value.state)
  {
    hide CancelOffer, OrdersOk, ListsOk, DisputesOk, MilestonesOk, OffersOk, HasWork, BalancesOk;
    CancelOfferWrites(s, auth, offerId);
    var t := CancelOffer(s, auth, offerId).value.state;
    SameRecordsKeep(s, t);
    CancelledOffersOk(s, t, offerId);
  }

  // ---- any call -------------------------------------------------------------------------------

  /** Calls that change a milestone. */
  predicate OnMilestone(call: Call) {
    !(|| call.CallCreateOrder? || call.CallCreateMilestone? || call.CallAcceptOrder? || call.CallCancelOrder?
      || call.CallMakeOffer? || call.CallCancelOffer?)
  }

  function Target(s: State, call: Call): nat
    requires OnMilestone(call)
  {
    if call.CallAcceptOffer? then if call.offerId in s.offers then s.offers[call.offerId].milestoneId else 0
    else call.id
  }

  /** Which entry point makes which change. */
  predicate ComesFrom(c: Change, call: Call) {
    match c
    case Deposited(_) => call.CallFundMilestone?
    case Unwound => call.CallCancelPartialFunding?
    case Requested(_, _, _) => call.CallRequestFinance?
    case Withdrawn(_) => call.CallCancelFinanceRequest?
    case Selected(_) => call.CallAcceptOffer?
    case Advanced(_) => call.CallFundAdvance?
    case Lapsed(_) => call.CallReleaseExpiredAcceptance?
    case Evidenced(_) => call.CallSubmitEvidence?
    case Attested => call.CallAttestMilestone?
    case Paid => call.CallSettleMilestone?
    case Contested(_) => call.CallOpenDispute?
    case Upheld => call.CallResolveDispute? && call.resolution == Settle
    case Returned => call.CallResolveDispute? && call.resolution == Refund
  }

  /** A change carries the time of its ledger, and a request expires later than that. */
  predicate Timely(now: U64, c: Change) {
    match c
    case Requested(_, expiresAt, at) => at == now < expiresAt
    case Advanced(at) => at == now
    case Contested(dispute) => dispute.openedAt == now
    case _ => true
  }

  lemma RequestIsTimely(s: State, auth: Auth, id: nat, principal: I128, expiresAt: U64)
    requires RequestFinance(s, auth, id, principal, expiresAt).Ok?
    ensures s.now < expiresAt
  {
  }

  lemma ForgetRealises<T>(s: State, d: Result<Done<T>, Error>, id: nat, c: Change)
    requires d.Ok? && Realises(s, d.value, id, c)
    ensures Forget(d).Ok? && Realises(s, Forget(d).value, id, c)
  {
    hide Makes, SlotOk, EventsOf;
  }

  /** Every successful call on a milestone is one of its changes, publishing what the change says. */
  lemma CallRealises(s: State, auth: Auth, call: Call) returns (c: Change)
    requires Consistent(s) && OnMilestone(call) && Execute(s, auth, call).Ok?
    ensures Realises(s, Execute(s, auth, call).value, Target(s, call), c) && ComesFrom(c, call) && Timely(s.now, c)
  {
    hide Consistent, Realises, FundMilestone, CancelPartialFunding, RequestFinance, AcceptOffer, FundAdvance;
    hide ReleaseExpiredAcceptance, CancelFinanceRequest, SubmitEvidence, AttestMilestone, SettleMilestone;
    hide OpenDispute, ResolveDispute;
    match call {
      case CallFundMilestone(id, amount, asset) =>
        c := Deposited(amount);
        FundMilestoneRealises(s, auth, id, amount, asset);
        ForgetRealises(s, FundMilestone(s, auth, id, amount, asset), id, c);
      case CallCancelPartialFunding(id) =>
        c := Unwound;
        CancelPartialFundingRealises(s, auth, id);
        ForgetRealises(s, CancelPartialFunding(s, auth, id), id, c);
      case CallRequestFinance(id, principal, expiresAt) =>
        c := Requested(principal, expiresAt, s.now);
        RequestFinanceRealises(s, auth, id, principal, expiresAt);
        RequestIsTimely(s, auth, id, principal, expiresAt);
      case CallAcceptOffer(offerId) =>
        AcceptOfferRealises(s, auth, offerId);
        c := Selected(s.offers[offerId].(status := OfferAccepted));
      case CallFundAdvance(id) =>
        c := Advanced(s.now);
        FundAdvanceRealises(s, auth, id);
      case CallReleaseExpiredAcceptance(id) =>
        ReleaseExpiredAcceptanceRealises(s, auth, id);
        c := Lapsed(RequestLives(s.now, s.slots[id]));
        ForgetRealises(s, ReleaseExpiredAcceptance(s, auth, id), id, c);
      case CallCancelFinanceRequest(id) =>
        CancelFinanceRequestRealises(s, auth, id);
        c := Withdrawn(!RequestLives(s.now, s.slots[id]));
        ForgetRealises(s, CancelFinanceRequest(s, auth, id), id, c);
      case CallSubmitEvidence(id, evidence) =>
        c := Evidenced(evidence);
        SubmitEvidenceRealises(s, auth, id, evidence);
      case CallAttestMilestone(id, evidence) =>
        c := Attested;
        AttestMilestoneRealises(s, auth, id, evidence);
      case CallSettleMilestone(id, caller) =>
        c := Paid;
        SettleMilestoneRealises(s, auth, id, caller);
      case CallOpenDispute(id, caller) =>
        c := OpenDisputeChange(s, auth, id, caller);
        ForgetRealises(s, OpenDispute(s, auth, id, caller), id, c);
      case CallResolveDispute(id, resolution) =>
        if resolution == Settle {
          c := Upheld;
          UpholdRealises(s, auth, id);
        } else {
          c := Returned;
          ReturnRealises(s, auth, id);
        }
    }
  }

  lemma OpenDisputeChange(s: State, auth: Auth, id: nat, caller: Address) returns (c: Change)
    requires Consistent(s) && OpenDispute(s, auth, id, caller).Ok?
    ensures Realises(s, OpenDispute(s, auth, id, caller).value, id, c) && c.Contested? && c.dispute.openedAt == s.now
  {
    hide Consistent, Realises;
    c := Contested(Dispute(s.disputeCount + 1, id, caller, s.orders[s.slots[id].milestone.orderId].resolver,
                           DisputeOpen, s.now));
    OpenDisputeRealises(s, auth, id, caller);
  }

  /** The other six calls, by what they write. */
  lemma OtherCallKeepsInv(s: State, auth: Auth, call: Call)
    requires Inv(s) && s.self !in auth && !OnMilestone(call) && Execute(s, auth, call).Ok?
    ensures Inv(Execute(s, auth, call).value.state)
  {
    hide Inv, CreateOrder, CreateMilestone, MakeOffer, CancelOffer;
    match call {
      case CallCreateOrder(buyer, supplier, attestor, resolver) =>
        CreateOrderKeeps(s, auth, buyer, supplier, attestor, resolver);
      case CallCreateMilestone(orderId, amount, deadline) =>
        CreateMilestoneKeeps(s, auth, orderId, amount, deadline);
      case CallAcceptOrder(orderId) =>
        StatusCallKeeps(s, auth, orderId, call);
      case CallCancelOrder(orderId) =>
        StatusCallKeeps(s, auth, orderId, call);
      case CallMakeOffer(id, funder, principal, repayment, expiresAt) =>
        MakeOfferKeeps(s, auth, id, funder, principal, repayment, expiresAt);
      case CallCancelOffer(offerId) =>
        CancelOfferKeeps(s, auth, offerId);
    }
  }

  lemma StatusCallKeeps(s: State, auth: Auth, orderId: nat, call: Call)
    requires Inv(s) && s.self !in auth && Execute(s, auth, call).Ok?
    requires call == CallAcceptOrder(orderId) || call == CallCancelOrder(orderId)
    ensures Inv(Execute(s, auth, call).value.state)
  {
    OrderFacts(s, orderId);
    StatusKeeps(s, Execute(s, auth, call).value.state, orderId, if call.CallAcceptOrder? then Active else Cancelled);
  }

  lemma CallKeepsInv(s: State, auth: Auth, call: Call)
    requires Inv(s) && s.self !in auth && Execute(s, auth, call).Ok?
    ensures Inv(Execute(s, auth, call).value.state)
  {
    hide Consistent, HasWork, Execute, Makes, SlotOk;
    if OnMilestone(call) {
      var c := CallRealises(s, auth, call);
      ChangeKeepsInv(s, Execute(s, auth, call).value.state, Target(s, call), c);
    } else {
      OtherCallKeepsInv(s, auth, call);
    }
  }

  // ---- the environment, and any run -----------------------------------------------------------

  lemma DirectTransferKeeps(s: State, from: Address, to: Address, amount: I128)
    requires TokenOk(s) && from != s.self && Transfer(s.balances, from, to, amount).Ok?
    ensures TokenOk(s.(balances := Transfer(s.balances, from, to, amount).value,
                       donated := s.donated + if to == s.self then amount else 0))
  {
    TransferMoves(s.balances, from, to, amount);
  }

  /** Temporary entries may vanish; what is left still agrees with the history. */
  lemma ExpiryKeeps(s: State, t: State)
    requires KeysOk(s) && OffersOk(s)
    requires t == s.(offers := t.offers, offerIndex := t.offerIndex)
    requires forall k | k in t.offers :: k in s.offers && t.offers[k] == s.offers[k]
    ensures KeysOk(t) && OffersOk(t)
  {
    hide TermsOk;
    forall k | k in t.slots ensures AcceptedOk(t, k) {
      assert AcceptedOk(s, k);
    }
    forall k | k in t.history ensures OfferOk(t, k) {
      assert OfferOk(s, k);
    }
  }

  lemma EnvironmentKeepsInv(s: State, a: Action)
    requires Inv(s) && Legal(s, a) && !a.Invoke?
    ensures Inv(Step(s, a).0)
  {
    hide OrdersOk, ListsOk, DisputesOk, MilestonesOk, HasWork, Transfer, BalancesOk;
    var t := Step(s, a).0;
    SameRecordsKeep(s, t);
    if a.DirectTransfer? && Transfer(s.balances, a.from, a.to, a.amount).Ok? {
      DirectTransferKeeps(s, a.from, a.to, a.amount);
    }
    if a.ExpireTemporary? {
      ExpiryKeeps(s, t);
    } else {
      OffersDependOn(s, t);
    }
  }

  lemma OffersDependOn(s: State, t: State)
    requires KeysOk(s) && OffersOk(s)
    requires t == s.(now := t.now, balances := t.balances, donated := t.donated)
    ensures KeysOk(t) && OffersOk(t)
  {
    hide TermsOk;
    forall k | k in t.slots ensures AcceptedOk(t, k) {
      assert AcceptedOk(s, k);
    }
    forall k | k in t.history ensures OfferOk(t, k) {
      assert OfferOk(s, k);
    }
  }

  lemma StepKeepsInv(s: State, a: Action)
    requires Inv(s) && Legal(s, a)
    ensures Inv(Step(s, a).0)
  {
    hide Inv, Execute;
    if a.Invoke? {
      if Execute(s, a.auth, a.call).Ok? {
        CallKeepsInv(s, a.auth, a.call);
      }
    } else {
      EnvironmentKeepsInv(s, a);
    }
  }

  lemma DeployedIsInv(s: State)
    requires Deployed(s)
    ensures Inv(s)
  {
    hide SlotOk;
    assert s.self in s.balances ==> s.balances[s.self] >= 0;
  }

  lemma {:induction false} PathKeepsInv(r: Trace, n: nat)
    requires r.IsPath() && Inv(r.states[0]) && n < |r.states|
    ensures Inv(r.states[n])
  {
    hide Step, Inv;
    if n > 0 {
      PathKeepsInv(r, n - 1);
      assert Next(r.states[n - 1], r.actions[n - 1], r.states[n], r.logs[n - 1]);
      StepKeepsInv(r.states[n - 1], r.actions[n - 1]);
    }
  }

  /** The joint invariant holds in every state of every run, whoever calls what in whichever order. */
  lemma RunKeepsInv(r: Trace, n: nat)
    requires r.IsRun() && n < |r.states|
    ensures Inv(r.states[n])
  {
    hide Step, Inv;
    DeployedIsInv(r.states[0]);
    PathKeepsInv(r, n);
  }
}
