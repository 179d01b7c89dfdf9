/** What a call answers, and which of two ways it takes, told by the storage it was called in. */
module Answers {
  import opened Wrappers
  import opened Types
  import opened Storage
  import opened Financing
  import opened Core
  import opened Runs
  import opened Lifecycle
  import opened Invariant
  import opened Effects
  import opened Preservation
  import opened OrderPreservation
  import opened Totals
  import opened Guarantees
  import opened Guards
  import opened Evidence

  // ---- the two recoveries -----------------------------------------------------------------------

  /** After a release nothing is selected. A request that is still live is open again, and the milestone goes on
      seeking finance; one that has lapsed is cancelled, and the milestone is funded again. */
  predicate Released(now: U64, x: Slot, y: Slot) {
    && x.request.Some? && y.request.Some? && y.accepted.None?
    && if now < x.request.value.expiresAt
       then
         && y.request.value == x.request.value.(status := RequestOpen)
         && y.milestone == x.milestone && y.milestone.status == FinanceRequested
       else
         && y.request.value == x.request.value.(status := RequestCancelled)
         && y.milestone == x.milestone.(status := Funded)
  }

  lemma LapsedReleases(self: Address, order: Order, x: Slot, now: U64)
    requires x.request.Some? && Enabled(self, order, x, Lapsed(RequestLives(now, x)))
    ensures Released(now, x, Changed(self, order, x, Lapsed(RequestLives(now, x))))
  {
  }

  /** In every state of every run a release that succeeds reopens the request if and only if the ledger's time is
      before the request's expiry; its answer and its one event say which it was. */
  lemma ReleaseReopensWhileLive(r: Trace, n: nat, auth: Auth, id: nat)
    requires r.IsRun() && n < |r.states| && ReleaseExpiredAcceptance(r.states[n], auth, id).Ok?
    ensures var s := r.states[n]; var d := ReleaseExpiredAcceptance(s, auth, id).value;
            && id in s.slots && id in d.state.slots && s.slots[id].accepted.Some?
            && Released(s.now, s.slots[id], d.state.slots[id])
            && (d.value <==> s.now < s.slots[id].request.value.expiresAt)
            && (d.value <==> d.state.slots[id].request.value.status == RequestOpen)
            && (d.value <==> d.state.slots[id].milestone.status == FinanceRequested)
            && |d.events| == 1 && d.events[0].AcceptanceReleased? && d.events[0].reopened == d.value
  {
    hide Step, Inv, Consistent, ReleaseExpiredAcceptance, Realises, Enabled, Changed, Released;
    var s := r.states[n];
    var d := ReleaseExpiredAcceptance(s, auth, id).value;
    RunKeepsInv(r, n);
    InvParts(s);
    ReleaseExpiredAcceptanceRealises(s, auth, id);
    var c := Lapsed(RequestLives(s.now, s.slots[id]));
    RealisesDispute(s, d, id, c);
    LapsedReleases(s.self, OrderOf(s, id), s.slots[id], s.now);
    LapsedTells(s, d, id, RequestLives(s.now, s.slots[id]));
    ReleasedSays(s.now, s.slots[id], d.state.slots[id]);
  }

  lemma ReleasedSays(now: U64, x: Slot, y: Slot)
    requires Released(now, x, y)
    ensures x.request.Some? && y.request.Some?
    ensures now < x.request.value.expiresAt <==> y.request.value.status == RequestOpen
    ensures now < x.request.value.expiresAt <==> y.milestone.status == FinanceRequested
  {
  }

  lemma LapsedTells<T>(s: State, d: Done<T>, id: nat, reopened: bool)
    requires Realises(s, d, id, Lapsed(reopened))
    ensures id in s.slots && s.slots[id].accepted.Some?
    ensures |d.events| == 1 && d.events[0].AcceptanceReleased? && d.events[0].reopened == reopened
  {
    hide SlotOk, MovesTokens, MovesOffers, MovesDisputes, MovesOrders, Changed;
  }

  /** In every state of every run closing a request cancels it and returns its milestone to funded, and the answer and
      the one event say it had lapsed if and only if it had. */
  lemma ClosingTellsLapse(r: Trace, n: nat, auth: Auth, id: nat)
    requires r.IsRun() && n < |r.states| && CancelFinanceRequest(r.states[n], auth, id).Ok?
    ensures var s := r.states[n]; var d := CancelFinanceRequest(s, auth, id).value;
            && id in s.slots && id in d.state.slots && s.slots[id].request.Some?
            && d.state.slots[id] == s.slots[id].(
                 milestone := s.slots[id].milestone.(status := Funded),
                 request := Some(s.slots[id].request.value.(status := RequestCancelled)))
            && (d.value <==> s.slots[id].request.value.expiresAt <= s.now)
            && |d.events| == 1 && d.events[0].FinanceRequestClosed? && d.events[0].wasExpired == d.value
  {
    hide Step, Inv, Consistent, CancelFinanceRequest, Realises, Enabled;
    var s := r.states[n];
    var d := CancelFinanceRequest(s, auth, id).value;
    RunKeepsInv(r, n);
    InvParts(s);
    CancelFinanceRequestRealises(s, auth, id);
    var c := Withdrawn(!RequestLives(s.now, s.slots[id]));
    RealisesDispute(s, d, id, c);
    WithdrawnTells(s, d, id, !RequestLives(s.now, s.slots[id]));
  }

  lemma WithdrawnTells<T>(s: State, d: Done<T>, id: nat, wasExpired: bool)
    requires Realises(s, d, id, Withdrawn(wasExpired))
    ensures |d.events| == 1 && d.events[0].FinanceRequestClosed? && d.events[0].wasExpired == wasExpired
  {
    hide SlotOk, MovesTokens, MovesOffers, MovesDisputes, MovesOrders, Changed, Enabled;
  }

  // ---- answers ----------------------------------------------------------------------------------

  /** A deposit answers with what the milestone holds afterwards, a cancelled funding with what it held before. */
  lemma FundingAnswers(s: State, auth: Auth, id: nat, amount: I128, asset: Address)
    requires Inv(s)
    ensures var r := FundMilestone(s, auth, id, amount, asset);
            r.Ok? ==>
              && id in s.slots && id in r.value.state.slots
              && r.value.value == s.slots[id].milestone.funded + amount == r.value.state.slots[id].milestone.funded
    ensures var r := CancelPartialFunding(s, auth, id);
            r.Ok? ==>
              && id in s.slots && id in r.value.state.slots
              && r.value.value == s.slots[id].milestone.funded && r.value.state.slots[id].milestone.funded == 0
  {
    hide Inv, Token.Transfer, SlotOk, FindMilestoneDispute;
    SlotFacts(s, id);
  }

  /** A creating call answers with an id that nothing had, and that what it created has. */
  lemma CreationAnswers(s: State, auth: Auth, call: Call)
    requires Inv(s)
    ensures match call
            case CallCreateOrder(buyer, supplier, attestor, resolver) =>
              (var r := CreateOrder(s, auth, buyer, supplier, attestor, resolver);
               r.Ok? ==>
                 && r.value.value !in s.orders && r.value.value in r.value.state.orders
                 && r.value.state.orders[r.value.value].id == r.value.value
                 && r.value.state.orders[r.value.value].buyer == buyer)
            case CallCreateMilestone(orderId, amount, deadline) =>
              (var r := CreateMilestone(s, auth, orderId, amount, deadline);
               r.Ok? ==>
                 && r.value.value !in s.slots && r.value.value in r.value.state.slots
                 && r.value.state.slots[r.value.value].milestone.orderId == orderId
                 && ReadOrderMilestones(r.value.state, orderId) == ReadOrderMilestones(s, orderId) + [r.value.value])
            case CallMakeOffer(id, funder, principal, repayment, expiresAt) =>
              (var r := MakeOffer(s, auth, id, funder, principal, repayment, expiresAt);
               r.Ok? ==>
                 && r.value.value !in s.history && r.value.value in r.value.state.offers
                 && r.value.state.offers[r.value.value] ==
                    Offer(r.value.value, id, funder, principal, repayment, expiresAt, OfferOpen))
            case _ => true
  {
    hide Inv, KeysOk, CreateOrder, CreateMilestone, MakeOffer;
    InvParts(s);
    NewIds(s);
    match call {
      case CallCreateOrder(buyer, supplier, attestor, resolver) =>
        if CreateOrder(s, auth, buyer, supplier, attestor, resolver).Ok? {
          CreateOrderWrites(s, auth, buyer, supplier, attestor, resolver);
        }
      case CallCreateMilestone(orderId, amount, deadline) =>
        if CreateMilestone(s, auth, orderId, amount, deadline).Ok? {
          CreateMilestoneWrites(s, auth, orderId, amount, deadline);
        }
      case CallMakeOffer(id, funder, principal, repayment, expiresAt) =>
        if MakeOffer(s, auth, id, funder, principal, repayment, expiresAt).Ok? {
          MakeOfferWrites(s, auth, id, funder, principal, repayment, expiresAt);
        }
      case _ =>
    }
  }

  /** So does a dispute, which its milestone links to. */
  lemma DisputeAnswers(s: State, auth: Auth, id: nat, caller: Address)
    requires Inv(s) && OpenDispute(s, auth, id, caller).Ok?
    ensures var r := OpenDispute(s, auth, id, caller).value;
            && r.value !in s.disputes && r.value in r.state.disputes && r.state.disputes[r.value].milestoneId == id
            && r.state.disputes[r.value].openedBy == caller && r.state.disputes[r.value].status == DisputeOpen
            && id in r.state.slots && r.state.slots[id].dispute == Some(r.value)
  {
    hide Inv, SlotOk, FindMilestoneDispute;
    NewIds(s);
    SlotFacts(s, id);
  }

  lemma NewIds(s: State)
    requires Inv(s)
    ensures s.orderCount + 1 !in s.orders && s.milestoneCount + 1 !in s.slots && s.offerCount + 1 !in s.history
    ensures s.disputeCount + 1 !in s.disputes
  {
    hide OrdersOk, ListsOk, MilestonesOk, OffersOk, DisputesOk, TokenOk, HasWork;
  }
}
