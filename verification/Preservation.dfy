/** Every step of every run keeps the joint invariant. */
module Preservation {
  import opened Wrappers
  import opened Types
  import opened Sums
  import opened Token
  import opened Storage
  import opened Financing
  import opened Core
  import opened Runs
  import opened Lifecycle
  import opened Invariant
  import opened Effects

  // ---- one change of one milestone ------------------------------------------------------------

  /** A slot depends on its order's status only through the two extremes. */
  lemma StatusOnly(self: Address, order: Order, status: OrderStatus, x: Slot, d: Option<Dispute>)
    requires SlotOk(self, order, x, d)
    requires status == Created || status == Cancelled ==> x.milestone.status == Unfunded && x.milestone.funded == 0
    requires status == Completed ==> Terminal(x.milestone.status)
    ensures SlotOk(self, order.(status := status), x, d)
  {
  }

  lemma TermsStable(self: Address, order: Order, m: Milestone, n: Milestone, status: OrderStatus, offer: Offer)
    requires TermsOk(self, order, m, offer) && n.amount == m.amount
    ensures TermsOk(self, order.(status := status), n, offer)
  {
  }

  function ChangedAccepted(x: Slot, c: Change): Option<Offer> {
    match c
    case Selected(offer) => Some(offer)
    case Advanced(_) => if x.accepted.Some? then Some(x.accepted.value.(status := OfferFunded)) else None
    case Lapsed(_) => None
    case _ => x.accepted
  }

  /** The selection a change starts from. */
  lemma ChangeNeedsSelection(self: Address, order: Order, x: Slot, c: Change)
    requires Enabled(self, order, x, c)
    ensures c.Selected? ==>
              && x.accepted.None? && c.offer.milestoneId == x.milestone.id && c.offer.status == OfferAccepted
              && TermsOk(self, order, x.milestone, c.offer)
    ensures c.Advanced? || c.Lapsed? ==> x.accepted.Some? && x.accepted.value.status == OfferAccepted
  {
  }

  lemma ChangeKeepsIdentity(self: Address, order: Order, x: Slot, c: Change)
    requires Enabled(self, order, x, c)
    ensures var y := Changed(self, order, x, c);
            && y.milestone.id == x.milestone.id && y.milestone.orderId == x.milestone.orderId
            && y.milestone.index == x.milestone.index && y.milestone.amount == x.milestone.amount
            && y.dispute == (if c.Contested? then Some(c.dispute.id) else x.dispute)
            && (c.Contested? ==> c.dispute.milestoneId == x.milestone.id)
            && y.accepted == ChangedAccepted(x, c)
            && (!c.Paid? && !c.Returned? ==> !Terminal(y.milestone.status))
            && order.status == Active
  {
  }

  /** The dispute seen from the changed milestone, and from every other. */
  lemma DisputesAfter(s: State, t: State, id: nat, c: Change)
    requires KeysOk(s) && MilestonesOk(s) && DisputesOk(s) && Makes(s, t, id, c)
    ensures FindMilestoneDispute(t, id) == ChangedDispute(FindMilestoneDispute(s, id), c)
    ensures FindMilestoneDispute(t, id).Some? ==>
              && t.slots[id].dispute == Some(FindMilestoneDispute(t, id).value.id)
              && FindMilestoneDispute(t, id).value.milestoneId == id
    ensures forall k | k in s.slots && k != id :: FindMilestoneDispute(t, k) == FindMilestoneDispute(s, k)
  {
    hide SlotOk, MovesTokens, MovesOffers, MovesOrders, Enabled, Changed;
    assert MilestoneOk(s, id);
    ChangeKeepsIdentity(s.self, s.orders[s.slots[id].milestone.orderId], s.slots[id], c);
    forall k | k in s.slots && k != id ensures FindMilestoneDispute(t, k) == FindMilestoneDispute(s, k) {
      assert MilestoneOk(s, k);
    }
  }

  lemma ContestedOnce(self: Address, order: Order, x: Slot, d: Option<Dispute>, c: Change)
    requires SlotOk(self, order, x, d) && Enabled(self, order, x, c) && c.Contested?
    ensures d.None?
  {
  }

  lemma DisputesKept(s: State, t: State, id: nat, c: Change)
    requires KeysOk(s) && MilestonesOk(s) && DisputesOk(s) && Makes(s, t, id, c)
    ensures DisputesOk(t)
  {
    hide SlotOk, MovesTokens, MovesOffers, MovesOrders, Enabled, Changed;
    assert MilestoneOk(s, id);
    if c.Contested? {
      ContestedOnce(s.self, s.orders[s.slots[id].milestone.orderId], s.slots[id], FindMilestoneDispute(s, id), c);
    }
    ChangeKeepsIdentity(s.self, s.orders[s.slots[id].milestone.orderId], s.slots[id], c);
    forall k | k in t.disputes ensures DisputeOk(t, k) {
      if k in s.disputes {
        assert DisputeOk(s, k);
      }
    }
  }

  /** The records of the changed milestone are in order, before its order completes. */
  lemma RecordsKept(s: State, t: State, id: nat, c: Change)
    requires KeysOk(s) && MilestonesOk(s) && DisputesOk(s) && Makes(s, t, id, c)
    ensures RecordsOk(s.self, s.orders, id, t.slots[id], FindMilestoneDispute(t, id))
  {
    DisputesAfter(s, t, id, c);
    hide SlotOk, MovesTokens, MovesOffers, MovesDisputes, Enabled, Changed, FindMilestoneDispute, DisputesOk, KeysOk;
    var x := s.slots[id];
    var order := s.orders[x.milestone.orderId];
    assert MilestoneOk(s, id);
    ChangeKeepsSlot(s.self, order, x, FindMilestoneDispute(s, id), c);
    ChangeKeepsIdentity(s.self, order, x, c);
  }

  /** Completion means every milestone of the order, this one included, is terminal. */
  lemma CompletionCovers(s: State, t: State, oid: nat, k: nat)
    requires ListsOk(s) && k in s.slots && s.slots[k].milestone.orderId == oid
    requires t.lists == s.lists && AllTerminal(t, ReadOrderMilestones(t, oid))
    ensures k in t.slots && Terminal(t.slots[k].milestone.status)
  {
    assert ListedOk(s, k);
  }

  lemma MilestoneKeptAt(s: State, t: State, id: nat, c: Change, k: nat)
    requires ListsOk(s) && Makes(s, t, id, c) && k in s.slots && k in t.slots
    requires s.orders[s.slots[id].milestone.orderId].id == s.slots[id].milestone.orderId
    requires RecordsOk(s.self, s.orders, k, t.slots[k], FindMilestoneDispute(t, k))
    requires t.slots[k].milestone.orderId == s.slots[k].milestone.orderId
    ensures MilestoneOk(t, k)
  {
    hide SlotOk, MovesTokens, MovesOffers, MovesDisputes, Enabled, Changed, FindMilestoneDispute, ListsOk;
    var oid := s.slots[id].milestone.orderId;
    if t.orders != s.orders && t.slots[k].milestone.orderId == oid {
      CompletionCovers(s, t, oid, k);
      StatusOnly(s.self, s.orders[oid], Completed, t.slots[k], FindMilestoneDispute(t, k));
    }
  }

  lemma MilestonesKept(s: State, t: State, id: nat, c: Change)
    requires KeysOk(s) && MilestonesOk(s) && ListsOk(s) && DisputesOk(s) && Makes(s, t, id, c)
    requires s.orders[s.slots[id].milestone.orderId].id == s.slots[id].milestone.orderId
    ensures MilestonesOk(t)
  {
    hide SlotOk, MovesTokens, MovesOffers, MovesOrders, MovesDisputes, Enabled, Changed, FindMilestoneDispute;
    hide DisputesOk, KeysOk, ListsOk;
    DisputesAfter(s, t, id, c);
    RecordsKept(s, t, id, c);
    assert MilestoneOk(s, id);
    ChangeKeepsIdentity(s.self, s.orders[s.slots[id].milestone.orderId], s.slots[id], c);
    forall k | k in t.slots ensures MilestoneOk(t, k) {
      assert k != id ==> MilestoneOk(s, k);
      MilestoneKeptAt(s, t, id, c, k);
    }
  }

  lemma OrdersKept(s: State, t: State, id: nat, c: Change)
    requires OrdersOk(s) && Makes(s, t, id, c)
    ensures OrdersOk(t)
  {
    hide MovesTokens, MovesOffers, MovesDisputes, Enabled, Changed;
    assert OrderOk(s, s.slots[id].milestone.orderId);
    ChangeKeepsIdentity(s.self, s.orders[s.slots[id].milestone.orderId], s.slots[id], c);
    forall k | k in t.orders ensures OrderOk(t, k) {
      assert OrderOk(s, k);
    }
  }

  lemma ListsKept(s: State, t: State, id: nat, c: Change)
    requires OrdersOk(s) && ListsOk(s) && Makes(s, t, id, c)
    ensures ListsOk(t)
  {
    hide MovesTokens, MovesOffers, MovesDisputes, Enabled, Changed, Completes;
    OrderFacts(s, s.slots[id].milestone.orderId);
    hide OrdersOk;
    ChangeKeepsIdentity(s.self, s.orders[s.slots[id].milestone.orderId], s.slots[id], c);
    forall k | k in t.orders ensures ListOk(t, k) {
      assert ListOk(s, k);
    }
    forall k | k in t.slots ensures ListedOk(t, k) {
      assert ListedOk(s, k);
    }
  }

  lemma SameKeys(s: State, t: State)
    requires KeysOk(s) && t.orders.Keys == s.orders.Keys && t.slots.Keys == s.slots.Keys
    requires t.history.Keys == s.history.Keys && t.offers.Keys <= s.history.Keys && t.lists == s.lists
    requires t.orderCount == s.orderCount && t.milestoneCount == s.milestoneCount && t.offerCount == s.offerCount
    requires if t.disputeCount == s.disputeCount then t.disputes.Keys == s.disputes.Keys
             else t.disputeCount == s.disputeCount + 1 && t.disputes.Keys == s.disputes.Keys + {s.disputeCount + 1}
    ensures KeysOk(t)
  {
  }

  lemma KeysKept(s: State, t: State, id: nat, c: Change)
    requires KeysOk(s) && OrdersOk(s) && OffersOk(s) && MilestonesOk(s) && Makes(s, t, id, c)
    ensures KeysOk(t)
  {
    hide KeysOk, OrdersOk, MovesTokens, Enabled, Changed, Completes, SlotOk, TermsOk;
    OrderFacts(s, s.slots[id].milestone.orderId);
    assert MilestoneOk(s, id);
    assert AcceptedOk(s, id);
    assert s.slots[id].dispute.Some? ==> FindMilestoneDispute(s, id).Some?;
    hide OffersOk, MilestonesOk;
    SelectedEntry(s, t, id, c);
    SameKeys(s, t);
  }

  /** Only offers that were made are written. */
  lemma SelectedEntry(s: State, t: State, id: nat, c: Change)
    requires KeysOk(s) && OffersOk(s) && Makes(s, t, id, c)
    ensures t.offers.Keys <= s.history.Keys && t.history.Keys == s.history.Keys
  {
    hide MovesTokens, MovesOrders, MovesDisputes, Enabled, Changed, TermsOk;
    assert AcceptedOk(s, id);
  }

  lemma AcceptedKept(s: State, t: State, id: nat, c: Change)
    requires OffersOk(s) && Makes(s, t, id, c) && s.slots[id].milestone.id == id
    ensures forall k | k in t.slots :: AcceptedOk(t, k)
  {
    hide MovesTokens, MovesOrders, MovesDisputes, Enabled, Changed, OfferOk;
    var order := s.orders[s.slots[id].milestone.orderId];
    ChangeKeepsIdentity(s.self, order, s.slots[id], c);
    ChangeNeedsSelection(s.self, order, s.slots[id], c);
    assert AcceptedOk(s, id);
    forall k | k in t.slots ensures AcceptedOk(t, k) {
      assert AcceptedOk(s, k);
    }
  }

  lemma OfferTermsKept(s: State, t: State, id: nat, c: Change, k: nat)
    requires OffersOk(s) && OrdersOk(s) && Makes(s, t, id, c)
    requires k in s.history && k in t.history && t.history[k] == s.history[k].(status := t.history[k].status)
    ensures OfferTermsOk(t, k)
  {
    hide MovesTokens, MovesDisputes, MovesOffers, Enabled, Changed, TermsOk, Completes, OfferStatusOk;
    var oid := s.slots[id].milestone.orderId;
    OrderFacts(s, oid);
    hide OrdersOk;
    ChangeKeepsIdentity(s.self, s.orders[oid], s.slots[id], c);
    assert OfferOk(s, k);
    hide OffersOk;
    var m := s.slots[s.history[k].milestoneId].milestone;
    TermsStable(s.self, s.orders[m.orderId], m, t.slots[s.history[k].milestoneId].milestone,
                t.orders[m.orderId].status, s.history[k]);
    TermsIgnoreStatus(t.self, t.orders[m.orderId], t.slots[s.history[k].milestoneId].milestone, s.history[k],
                      t.history[k].status);
  }

  lemma OfferStatusKept(s: State, t: State, id: nat, c: Change, k: nat)
    requires OffersOk(s) && Makes(s, t, id, c) && s.slots[id].milestone.id == id
    requires k in s.history && k in t.history
    ensures OfferStatusOk(t, k)
    ensures t.history[k] == s.history[k].(status := t.history[k].status)
  {
    hide MovesTokens, MovesDisputes, MovesOrders, Enabled, Changed, TermsOk;
    ChangeKeepsIdentity(s.self, s.orders[s.slots[id].milestone.orderId], s.slots[id], c);
    ChangeNeedsSelection(s.self, s.orders[s.slots[id].milestone.orderId], s.slots[id], c);
    assert AcceptedOk(s, id);
    assert OfferOk(s, k);
  }

  lemma OffersKept(s: State, t: State, id: nat, c: Change)
    requires OffersOk(s) && OrdersOk(s) && Makes(s, t, id, c) && s.slots[id].milestone.id == id
    requires t.history.Keys == s.history.Keys
    ensures OffersOk(t)
  {
    hide Makes;
    AcceptedKept(s, t, id, c);
    forall k | k in t.history ensures OfferOk(t, k) {
      OfferStatusKept(s, t, id, c, k);
      OfferTermsKept(s, t, id, c, k);
    }
  }

  /** The contract receives through a change exactly what the milestone's escrow gains. */
  lemma FlowIsHeld(self: Address, order: Order, x: Slot, d: Option<Dispute>, c: Change)
    requires SlotOk(self, order, x, d) && Enabled(self, order, x, c)
    requires order.buyer != self && order.supplier != self
    ensures Flow(self, order, x, c, self) == Held(Changed(self, order, x, c)) - Held(x)
  {
  }

  lemma TokensKept(s: State, t: State, id: nat, c: Change)
    requires TokenOk(s) && OrdersOk(s) && MilestonesOk(s) && Makes(s, t, id, c)
    ensures TokenOk(t)
  {
    hide MovesDisputes, MovesOrders, MovesOffers, Enabled, Changed, SlotOk, Flow, BalancesOk;
    var x := s.slots[id];
    var order := s.orders[x.milestone.orderId];
    assert OrderOk(s, x.milestone.orderId);
    assert MilestoneOk(s, id);
    ChangeKeepsIdentity(s.self, order, x, c);
    FlowIsHeld(s.self, order, x, FindMilestoneDispute(s, id), c);
    SumUpdate(s.slots, Held, id, t.slots[id]);
  }

  lemma WorkKept(s: State, t: State, id: nat, c: Change)
    requires OrdersOk(s) && ListsOk(s) && Makes(s, t, id, c)
    requires forall k | k in s.orders :: HasWork(s, k)
    ensures forall k | k in t.orders :: HasWork(t, k)
  {
    hide MovesDisputes, MovesTokens, MovesOffers, Enabled, Changed;
    var oid := s.slots[id].milestone.orderId;
    OrderFacts(s, oid);
    hide OrdersOk;
    ChangeKeepsIdentity(s.self, s.orders[oid], s.slots[id], c);
    assert ListedOk(s, id);
    forall k | k in t.orders ensures HasWork(t, k) {
      assert HasWork(s, k) && ListOk(s, k);
      if k != oid && t.orders[k].status == Active {
        var i :| 0 <= i < |ReadOrderMilestones(s, k)| && Unfinished(s, ReadOrderMilestones(s, k)[i]);
        assert Unfinished(t, ReadOrderMilestones(t, k)[i]);
      } else if k == oid && t.orders[k].status == Active {
        var ids := ReadOrderMilestones(t, k);
        if !c.Paid? && !c.Returned? {
          assert Unfinished(t, ids[s.slots[id].milestone.index]);
        } else {
          assert !AllTerminal(t, ids);
          assert ListOk(s, oid);
          var i :| 0 <= i < |ids| && !(ids[i] in t.slots && Terminal(t.slots[ids[i]].milestone.status));
          assert Unfinished(t, ids[i]);
        }
      }
    }
  }

  lemma MakesNames(s: State, t: State, id: nat, c: Change)
    requires KeysOk(s) && KeysOk(t) && OrdersOk(s) && MilestonesOk(s) && Makes(s, t, id, c)
    ensures id in s.slots && s.slots[id].milestone.id == id && s.slots[id].milestone.orderId in s.orders
    ensures s.orders[s.slots[id].milestone.orderId].id == s.slots[id].milestone.orderId
    ensures t.history.Keys == s.history.Keys
  {
    hide MovesTokens, Changed, Enabled, SlotOk, MovesDisputes, MovesOrders;
    assert MilestoneOk(s, id);
    assert OrderOk(s, s.slots[id].milestone.orderId);
    assert t.offerCount == s.offerCount;
  }

  lemma ChangeKeepsInv(s: State, t: State, id: nat, c: Change)
    requires Inv(s) && Makes(s, t, id, c)
    ensures Inv(t)
  {
    hide Makes, KeysOk, OrdersOk, ListsOk, MilestonesOk, OffersOk, DisputesOk, TokenOk, HasWork;
    KeysKept(s, t, id, c);
    MakesNames(s, t, id, c);
    OrdersKept(s, t, id, c);
    ListsKept(s, t, id, c);
    MilestonesKept(s, t, id, c);
    DisputesKept(s, t, id, c);
    OffersKept(s, t, id, c);
    TokensKept(s, t, id, c);
    WorkKept(s, t, id, c);
  }
}
