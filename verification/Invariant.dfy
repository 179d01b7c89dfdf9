/** The joint invariant of the contract's records. */
module Invariant {
  import opened Wrappers
  import opened Types
  import opened Sums
  import opened Token
  import opened Storage
  import opened Escrow
  import opened Financing
  import opened Core
  import opened Lifecycle

  // ---- the records of one milestone, one order, one offer -----------------------------------

  predicate RecordsOk(self: Address, orders: map<nat, Order>, id: nat, x: Slot, d: Option<Dispute>) {
    && x.milestone.id == id && x.milestone.orderId in orders
    && x.dispute.Some? == d.Some?
    && (d.Some? ==> d.value.milestoneId == id && Some(d.value.id) == x.dispute)
    && SlotOk(self, orders[x.milestone.orderId], x, d)
  }

  predicate MilestoneOk(s: State, id: nat)
    requires id in s.slots
  {
    RecordsOk(s.self, s.orders, id, s.slots[id], FindMilestoneDispute(s, id))
  }

  predicate OrderOk(s: State, id: nat)
    requires id in s.orders
  {
    var o := s.orders[id];
    && o.id == id && o.asset == s.config.usdc
    && o.buyer != o.supplier && o.buyer != s.self
    && o.attestor != o.buyer && o.attestor != o.supplier
    && o.resolver != o.buyer && o.resolver != o.supplier && o.resolver != o.attestor
    && (o.status == Active || o.status == Completed ==>
          o.supplier != s.self && ReadOrderMilestones(s, id) != [])
  }

  /** An order that is still active has something left to do. */
  predicate HasWork(s: State, id: nat)
    requires id in s.orders
  {
    s.orders[id].status == Active ==>
      exists i | 0 <= i < |ReadOrderMilestones(s, id)| :: Unfinished(s, ReadOrderMilestones(s, id)[i])
  }

  predicate Unfinished(s: State, id: nat) {
    id in s.slots && !Terminal(s.slots[id].milestone.status)
  }

  predicate OfferTermsOk(s: State, id: nat)
    requires id in s.history
  {
    var h := s.history[id];
    && h.id == id && h.milestoneId in s.slots
    && var m := s.slots[h.milestoneId].milestone;
       m.orderId in s.orders && TermsOk(s.self, s.orders[m.orderId], m, h)
  }

  /** An offer is accepted or funded exactly while its milestone holds it as the selection. The temporary
      entry agrees with the history, except that funding an advance does not touch it. */
  predicate OfferStatusOk(s: State, id: nat)
    requires id in s.history
  {
    var h := s.history[id];
    && h.milestoneId in s.slots
    && (h.status == OfferAccepted || h.status == OfferFunded <==> s.slots[h.milestoneId].accepted == Some(h))
    && (id in s.offers ==>
          s.offers[id] == if h.status == OfferFunded then h.(status := OfferAccepted) else h)
  }

  predicate OfferOk(s: State, id: nat)
    requires id in s.history
  {
    OfferTermsOk(s, id) && OfferStatusOk(s, id)
  }

  predicate AcceptedOk(s: State, id: nat)
    requires id in s.slots
  {
    var a := s.slots[id].accepted;
    a.Some? ==> a.value.milestoneId == id && a.value.id in s.history && s.history[a.value.id] == a.value
  }

  // ---- the whole storage ----------------------------------------------------------------------

  ghost predicate KeysOk(s: State) {
    && (forall id :: id in s.orders <==> 1 <= id <= s.orderCount)
    && (forall id :: id in s.slots <==> 1 <= id <= s.milestoneCount)
    && (forall id :: id in s.history <==> 1 <= id <= s.offerCount)
    && (forall id :: id in s.disputes <==> 1 <= id <= s.disputeCount)
    && (forall id | id in s.offers :: id in s.history)
    && (forall id | id in s.lists :: id in s.orders)
  }

  /** The order's list holds exactly its milestones, each at its own index. */
  predicate ListOk(s: State, id: nat) {
    var ids := ReadOrderMilestones(s, id);
    && |ids| <= MAX_MILESTONES_PER_ORDER
    && forall i | 0 <= i < |ids| ::
         ids[i] in s.slots && s.slots[ids[i]].milestone.orderId == id && s.slots[ids[i]].milestone.index == i
  }

  predicate ListedOk(s: State, id: nat)
    requires id in s.slots
  {
    var m := s.slots[id].milestone;
    var ids := ReadOrderMilestones(s, m.orderId);
    m.index < |ids| && ids[m.index] == id
  }

  function Held(x: Slot): int {
    x.milestone.funded
  }

  /** Escrow held for all milestones of all orders. */
  ghost function EscrowHeld(s: State): int {
    SumBy(s.slots, Held)
  }

  ghost predicate TokenOk(s: State) {
    && BalancesOk(s.balances) && s.donated >= 0
    && Balance(s.balances, s.self) == EscrowHeld(s) + s.donated
  }

  /** A dispute record belongs to the milestone that links to it. */
  predicate DisputeOk(s: State, id: nat)
    requires id in s.disputes
  {
    var d := s.disputes[id];
    d.id == id && d.milestoneId in s.slots && s.slots[d.milestoneId].dispute == Some(id)
  }

  ghost predicate OrdersOk(s: State) {
    forall id | id in s.orders :: OrderOk(s, id)
  }

  ghost predicate ListsOk(s: State) {
    && (forall id | id in s.orders :: ListOk(s, id))
    && (forall id | id in s.slots :: ListedOk(s, id))
  }

  ghost predicate MilestonesOk(s: State) {
    forall id | id in s.slots :: MilestoneOk(s, id)
  }

  ghost predicate OffersOk(s: State) {
    && (forall id | id in s.slots :: AcceptedOk(s, id))
    && (forall id | id in s.history :: OfferOk(s, id))
  }

  ghost predicate DisputesOk(s: State) {
    forall id | id in s.disputes :: DisputeOk(s, id)
  }

  ghost predicate Consistent(s: State) {
    KeysOk(s) && OrdersOk(s) && ListsOk(s) && MilestonesOk(s) && OffersOk(s) && DisputesOk(s) && TokenOk(s)
  }

  ghost predicate Inv(s: State) {
    Consistent(s) && forall id | id in s.orders :: HasWork(s, id)
  }
}
