/** What holds over every run: solvency, isolation, forward-only milestones, exact completion. */
module Guarantees {
  import opened Wrappers
  import opened Types
  import opened Sums
  import opened Token
  import opened Storage
  import opened Core
  import opened Runs
  import opened Lifecycle
  import opened Invariant
  import opened Effects
  import opened Preservation
  import opened OrderPreservation
  import opened Totals

  // ---- solvency -------------------------------------------------------------------------------

  lemma CallKeepsSupply(s: State, auth: Auth, call: Call)
    requires Inv(s) && Execute(s, auth, call).Ok?
    ensures Supply(Execute(s, auth, call).value.state.balances) == Supply(s.balances)
    ensures Execute(s, auth, call).value.state.self == s.self
  {
    hide Execute, Inv, Flow, Changed, Enabled, EventsOf, SlotOk, Supply;
    InvParts(s);
    hide Consistent;
    if OnMilestone(call) {
      var c := CallRealises(s, auth, call);
    } else {
      OtherCallShape(s, auth, call);
    }
  }

  lemma InvParts(s: State)
    requires Inv(s)
    ensures Consistent(s) && KeysOk(s) && OrdersOk(s) && ListsOk(s) && MilestonesOk(s) && OffersOk(s) && TokenOk(s)
  {
  }

  lemma InvBacked(s: State)
    requires Inv(s)
    ensures Balance(s.balances, s.self) == EscrowHeld(s) + s.donated && s.donated >= 0
  {
    hide KeysOk, OrdersOk, ListsOk, MilestonesOk, OffersOk, DisputesOk, EscrowHeld, Balance;
  }

  lemma StepKeepsSupply(s: State, a: Action)
    requires Inv(s) && Legal(s, a)
    ensures Supply(Step(s, a).0.balances) == Supply(s.balances) && Step(s, a).0.self == s.self
  {
    hide Execute;
    InvParts(s);
    hide Inv, Supply;
    if a.Invoke? && Execute(s, a.auth, a.call).Ok? {
      CallKeepsSupply(s, a.auth, a.call);
    }
    if a.DirectTransfer? && Transfer(s.balances, a.from, a.to, a.amount).Ok? {
      TransferMoves(s.balances, a.from, a.to, a.amount);
    }
  }

  /** In every reachable state the contract holds exactly the escrow of all milestones of all orders,
      plus what others sent it unasked; and no call creates or destroys tokens. */
  lemma {:induction false} Solvency(r: Trace, n: nat)
    requires r.IsRun() && n < |r.states|
    ensures var s := r.states[n];
            && Balance(s.balances, s.self) == EscrowHeld(s) + s.donated
            && s.donated >= 0 && s.self == r.states[0].self
            && Supply(s.balances) == Supply(r.states[0].balances)
  {
    hide Step, Legal, Inv, Supply, EscrowHeld, Balance;
    RunKeepsInv(r, n);
    InvBacked(r.states[n]);
    if n > 0 {
      Solvency(r, n - 1);
      RunKeepsInv(r, n - 1);
      assert Next(r.states[n - 1], r.actions[n - 1], r.states[n], r.logs[n - 1]);
      StepKeepsSupply(r.states[n - 1], r.actions[n - 1]);
    }
  }

  // ---- conservation ---------------------------------------------------------------------------

  function EscrowAndPayouts(x: Slot): int {
    SlotPart(EscrowNow, x) + SlotPart(FunderRepayments, x) + SlotPart(SupplierPayouts, x) + SlotPart(RefundVolume, x)
  }

  lemma SlotConserves(self: Address, order: Order, x: Slot, d: Option<Dispute>)
    requires SlotOk(self, order, x, d)
    ensures SlotPart(DepositsKept, x) == EscrowAndPayouts(x)
    ensures forall q :: SlotPart(q, x) >= 0
  {
  }

  lemma {:induction false} SumSplits(m: map<nat, Slot>, f: Slot -> int, g: Slot -> int, h: Slot -> int,
                                     k: Slot -> int, j: Slot -> int)
    requires forall i | i in m :: f(m[i]) == g(m[i]) + h(m[i]) + k(m[i]) + j(m[i])
    ensures SumBy(m, f) == SumBy(m, g) + SumBy(m, h) + SumBy(m, k) + SumBy(m, j)
    decreases |m|
  {
    if m != map[] {
      var i :| i in m;
      SumRemove(m, f, i);
      SumRemove(m, g, i);
      SumRemove(m, h, i);
      SumRemove(m, k, i);
      SumRemove(m, j, i);
      SumSplits(m - {i}, f, g, h, k, j);
    }
  }

  /** Over the whole run: buyer deposits, less what was handed back from incomplete funding, equal the
      escrow still held plus everything ever paid to funders, to suppliers and back to buyers. */
  lemma Conservation(r: Trace, n: nat)
    requires r.IsRun() && n < |r.states|
    ensures var log := r.Published(n);
            LogTotal(DepositsKept, log) ==
            EscrowHeld(r.states[n]) + LogTotal(FunderRepayments, log) + LogTotal(SupplierPayouts, log)
            + LogTotal(RefundVolume, log)
  {
    hide Step, LogTotal;
    var s := r.states[n];
    RunKeepsInv(r, n);
    InvParts(s);
    hide Inv, SlotOk, SlotPart;
    TotalsFollowLog(DepositsKept, r, n);
    TotalsFollowLog(FunderRepayments, r, n);
    TotalsFollowLog(SupplierPayouts, r, n);
    TotalsFollowLog(RefundVolume, r, n);
    forall id | id in s.slots
      ensures SlotPart(DepositsKept, s.slots[id]) == EscrowAndPayouts(s.slots[id])
    {
      assert MilestoneOk(s, id);
      SlotConserves(s.self, s.orders[s.slots[id].milestone.orderId], s.slots[id], FindMilestoneDispute(s, id));
    }
    SumSplits(s.slots, PartOf(DepositsKept), PartOf(EscrowNow), PartOf(FunderRepayments), PartOf(SupplierPayouts),
              PartOf(RefundVolume));
    HeldIsEscrowNow(s);
  }

  lemma HeldIsEscrowNow(s: State)
    ensures EscrowHeld(s) == StateTotal(EscrowNow, s)
  {
    SumAlike(s.slots, Held, s.slots, PartOf(EscrowNow));
  }

  // ---- isolation ------------------------------------------------------------------------------

  predicate Touches(s: State, a: Action, id: nat) {
    a.Invoke? && OnMilestone(a.call) && Target(s, a.call) == id
  }

  /** Who a change of a milestone can move tokens for: the contract, the two parties and the funder. */
  predicate Party(self: Address, order: Order, x: Slot, a: Address) {
    || a == self || a == order.buyer || a == order.supplier
    || (x.accepted.Some? && a == x.accepted.value.funder)
  }

  lemma FlowReachesParties(self: Address, order: Order, x: Slot, d: Option<Dispute>, c: Change, a: Address)
    requires SlotOk(self, order, x, d) && Enabled(self, order, x, c) && !Party(self, order, x, a)
    ensures Flow(self, order, x, c, a) == 0
  {
  }

  /** `t` agrees with `s` on everything that is not milestone `id`'s own. */
  predicate LocalTo(s: State, t: State, id: nat) {
    && id in s.slots && s.slots[id].milestone.orderId in s.orders
    && t.slots.Keys == s.slots.Keys && t.orders.Keys == s.orders.Keys && t.lists == s.lists
    && (forall k | k in s.slots && k != id ::
          t.slots[k] == s.slots[k] && FindMilestoneDispute(t, k) == FindMilestoneDispute(s, k))
    && (forall k | k in s.orders && k != s.slots[id].milestone.orderId :: t.orders[k] == s.orders[k])
    && (forall k | k in s.history && s.history[k].milestoneId != id ::
          k in t.history && t.history[k] == s.history[k])
  }

  ghost predicate PaysPartiesOnly(s: State, t: State, id: nat)
    requires id in s.slots && s.slots[id].milestone.orderId in s.orders
  {
    forall a | !Party(s.self, s.orders[s.slots[id].milestone.orderId], s.slots[id], a) ::
      Balance(t.balances, a) == Balance(s.balances, a)
  }

  lemma ChangeIsLocal(s: State, t: State, id: nat, c: Change)
    requires Inv(s) && Makes(s, t, id, c)
    ensures LocalTo(s, t, id) && PaysPartiesOnly(s, t, id)
  {
    hide Inv, Changed, Enabled, Flow, Party, FindMilestoneDispute, BalancesOk, MovesDisputes, MovesOffers;
    OthersKept(s, t, id, c);
    var x := s.slots[id];
    var order := s.orders[x.milestone.orderId];
    InvSlot(s, id);
    forall a | !Party(s.self, order, x, a) ensures Balance(t.balances, a) == Balance(s.balances, a) {
      FlowReachesParties(s.self, order, x, FindMilestoneDispute(s, id), c, a);
    }
  }

  lemma InvSlot(s: State, id: nat)
    requires Inv(s) && id in s.slots
    ensures s.slots[id].milestone.orderId in s.orders && s.slots[id].milestone.id == id
    ensures s.orders[s.slots[id].milestone.orderId].id == s.slots[id].milestone.orderId
    ensures SlotOk(s.self, s.orders[s.slots[id].milestone.orderId], s.slots[id], FindMilestoneDispute(s, id))
    ensures s.slots[id].dispute.Some? == FindMilestoneDispute(s, id).Some?
  {
    hide SlotOk;
    InvParts(s);
    assert MilestoneOk(s, id);
    assert OrderOk(s, s.slots[id].milestone.orderId);
  }

  /** A call on one milestone leaves every other milestone, with all its records, and every other order
      as they were, and moves the tokens of nobody but that milestone's own parties. */
  lemma CallIsLocal(s: State, auth: Auth, call: Call)
    requires Inv(s) && OnMilestone(call) && Execute(s, auth, call).Ok?
    ensures LocalTo(s, Execute(s, auth, call).value.state, Target(s, call))
    ensures PaysPartiesOnly(s, Execute(s, auth, call).value.state, Target(s, call))
  {
    hide Execute, Makes, LocalTo, PaysPartiesOnly, EventsOf, SlotOk;
    InvParts(s);
    hide Inv, Consistent;
    var c := CallRealises(s, auth, call);
    ChangeIsLocal(s, Execute(s, auth, call).value.state, Target(s, call), c);
  }

  lemma OthersKept(s: State, t: State, id: nat, c: Change)
    requires Inv(s) && Makes(s, t, id, c)
    ensures s.orders[s.slots[id].milestone.orderId].id == s.slots[id].milestone.orderId
    ensures forall k | k in s.slots && k != id :: FindMilestoneDispute(t, k) == FindMilestoneDispute(s, k)
    ensures forall k | k in s.history && s.history[k].milestoneId != id ::
              k in t.history && t.history[k] == s.history[k]
  {
    hide Makes, FindMilestoneDispute, HasWork;
    InvParts(s);
    KeysKept(s, t, id, c);
    MakesNames(s, t, id, c);
    DisputesAfter(s, t, id, c);
    hide KeysOk, OrdersOk, ListsOk, MilestonesOk, DisputesOk, TokenOk;
    OtherOffersKept(s, t, id, c);
  }

  lemma OtherOffersKept(s: State, t: State, id: nat, c: Change)
    requires OffersOk(s) && Makes(s, t, id, c) && s.slots[id].milestone.id == id
    ensures forall k | k in s.history && s.history[k].milestoneId != id ::
              k in t.history && t.history[k] == s.history[k]
  {
    hide Changed, MovesTokens, MovesDisputes, MovesOrders, OfferOk;
    var order := s.orders[s.slots[id].milestone.orderId];
    ChangeNeedsSelection(s.self, order, s.slots[id], c);
    hide Enabled;
    assert AcceptedOk(s, id);
  }

  // ---- a milestone never goes back ------------------------------------------------------------

  lemma ChangeMovesForward(s: State, t: State, id: nat, c: Change, k: nat)
    requires Inv(s) && Makes(s, t, id, c) && k in s.slots
    ensures k in t.slots && Forward(s.slots[k], t.slots[k]) && (k != id ==> t.slots[k] == s.slots[k])
  {
    hide Inv, Changed, Enabled, SlotOk, MovesTokens, MovesOffers, MovesDisputes, MovesOrders, Forward;
    InvSlot(s, id);
    ChangeIsForward(s.self, s.orders[s.slots[id].milestone.orderId], s.slots[id], FindMilestoneDispute(s, id), c);
    SameIsForward(s.slots[k]);
  }

  lemma CallMovesForward(s: State, auth: Auth, call: Call, id: nat)
    requires Inv(s) && Execute(s, auth, call).Ok? && id in s.slots
    ensures var t := Execute(s, auth, call).value.state;
            && id in t.slots && Forward(s.slots[id], t.slots[id])
            && (!Touches(s, Invoke(auth, call), id) ==> t.slots[id] == s.slots[id])
  {
    hide Execute, Makes, Forward, EventsOf, SlotOk;
    InvParts(s);
    hide Inv, Consistent;
    if OnMilestone(call) {
      var c := CallRealises(s, auth, call);
      ChangeMovesForward(s, Execute(s, auth, call).value.state, Target(s, call), c, id);
    } else {
      OtherCallShape(s, auth, call);
      SameIsForward(s.slots[id]);
    }
  }

  lemma StepMovesForward(s: State, a: Action, id: nat)
    requires Inv(s) && Legal(s, a) && id in s.slots
    ensures var t := Step(s, a).0;
            && id in t.slots && Forward(s.slots[id], t.slots[id])
            && (!Touches(s, a, id) ==> t.slots[id] == s.slots[id])
  {
    hide Execute, Inv;
    if a.Invoke? && Execute(s, a.auth, a.call).Ok? {
      CallMovesForward(s, a.auth, a.call, id);
    }
  }

  /** Between any two moments of any run a milestone only moves forward: its phase never decreases, its
      evidence is frozen from a dispute or verification on, it is financed at most once and on unchanging
      terms, disputed at most once, and once terminal it never changes. */
  lemma {:induction false} MilestoneMovesForward(r: Trace, i: nat, j: nat, id: nat)
    requires r.IsRun() && i <= j < |r.states| && id in r.states[i].slots
    ensures id in r.states[j].slots && Forward(r.states[i].slots[id], r.states[j].slots[id])
  {
    hide Step, Inv, Forward;
    if i == j {
      SameIsForward(r.states[i].slots[id]);
    } else {
      MilestoneMovesForward(r, i, j - 1, id);
      RunKeepsInv(r, j - 1);
      assert Next(r.states[j - 1], r.actions[j - 1], r.states[j], r.logs[j - 1]);
      StepMovesForward(r.states[j - 1], r.actions[j - 1], id);
      ForwardTransitive(r.states[i].slots[id], r.states[j - 1].slots[id], r.states[j].slots[id]);
    }
  }

  lemma SameIsForward(x: Slot)
    ensures Forward(x, x)
  {
  }

  /** However many calls on other milestones, new orders, transfers and ledgers pass in between, a milestone
      nobody calls on stays as it is. In particular time alone, deadline or not, changes nothing. */
  lemma {:induction false} UntouchedStays(r: Trace, i: nat, j: nat, id: nat)
    requires r.IsRun() && i <= j < |r.states| && id in r.states[i].slots
    requires forall k | i <= k < j :: !Touches(r.states[k], r.actions[k], id)
    ensures id in r.states[j].slots && r.states[j].slots[id] == r.states[i].slots[id]
  {
    hide Step, Inv, Forward;
    if i < j {
      UntouchedStays(r, i, j - 1, id);
      RunKeepsInv(r, j - 1);
      assert Next(r.states[j - 1], r.actions[j - 1], r.states[j], r.logs[j - 1]);
      StepMovesForward(r.states[j - 1], r.actions[j - 1], id);
    }
  }

  // ---- orders complete exactly when they should -----------------------------------------------

  /** An order changes its status only, and only along created, active, completed or created, cancelled. */
  predicate OrderForward(x: Order, y: Order) {
    && y == x.(status := y.status)
    && (|| y.status == x.status
        || (x.status == Created && (y.status == Active || y.status == Cancelled))
        || (x.status == Active && y.status == Completed))
  }

  lemma ChangeMovesOrder(s: State, t: State, id: nat, c: Change)
    requires OrdersOk(s) && Makes(s, t, id, c)
    ensures t.orders.Keys == s.orders.Keys
    ensures forall o | o in s.orders :: OrderForward(s.orders[o], t.orders[o])
  {
    hide Changed, MovesTokens, MovesOffers, MovesDisputes, Completes;
    OrderFacts(s, s.slots[id].milestone.orderId);
    hide OrdersOk;
  }

  /** What the calls beside the milestones do to the orders. */
  lemma OtherCallOrders(s: State, auth: Auth, call: Call)
    requires KeysOk(s) && OrdersOk(s) && !OnMilestone(call) && Execute(s, auth, call).Ok?
    ensures var t := Execute(s, auth, call).value.state;
            match call
            case CallCreateOrder(_, _, _, _) =>
              s.orderCount + 1 !in s.orders
              && exists o: Order | o.status == Created :: t.orders == s.orders[s.orderCount + 1 := o]
            case CallAcceptOrder(id) =>
              id in s.orders && s.orders[id].status == Created
              && t.orders == s.orders[id := s.orders[id].(status := Active)]
            case CallCancelOrder(id) =>
              id in s.orders && s.orders[id].status == Created
              && t.orders == s.orders[id := s.orders[id].(status := Cancelled)]
            case _ => t.orders == s.orders
  {
    hide CreateOrder, CreateMilestone, MakeOffer, OrdersOk;
    match call {
      case CallCreateOrder(buyer, supplier, attestor, resolver) =>
        CreateOrderWrites(s, auth, buyer, supplier, attestor, resolver);
      case CallCreateMilestone(orderId, amount, deadline) => CreateMilestoneWrites(s, auth, orderId, amount, deadline);
      case CallMakeOffer(id, funder, principal, repayment, expiresAt) =>
        MakeOfferWrites(s, auth, id, funder, principal, repayment, expiresAt);
      case CallAcceptOrder(orderId) => OrderFacts(s, orderId);
      case CallCancelOrder(orderId) => OrderFacts(s, orderId);
      case CallCancelOffer(offerId) =>
    }
  }

  lemma OtherCallMovesOrder(s: State, auth: Auth, call: Call, o: nat)
    requires KeysOk(s) && OrdersOk(s) && !OnMilestone(call) && Execute(s, auth, call).Ok? && o in s.orders
    ensures var t := Execute(s, auth, call).value.state; o in t.orders && OrderForward(s.orders[o], t.orders[o])
  {
    hide Execute, KeysOk, OrdersOk;
    OtherCallOrders(s, auth, call);
  }

  lemma StepMovesOrder(s: State, a: Action, o: nat)
    requires Inv(s) && Legal(s, a) && o in s.orders
    ensures o in Step(s, a).0.orders && OrderForward(s.orders[o], Step(s, a).0.orders[o])
  {
    hide Execute, Makes, EventsOf, SlotOk;
    InvParts(s);
    hide Inv, Consistent, KeysOk, OrdersOk, ListsOk, MilestonesOk, OffersOk, TokenOk;
    if a.Invoke? && Execute(s, a.auth, a.call).Ok? {
      if OnMilestone(a.call) {
        var c := CallRealises(s, a.auth, a.call);
        ChangeMovesOrder(s, Execute(s, a.auth, a.call).value.state, Target(s, a.call), c);
      } else {
        OtherCallMovesOrder(s, a.auth, a.call, o);
      }
    }
  }

  /** At some moment up to `n` the supplier had accepted the order and it was active. */
  ghost predicate WasActive(r: Trace, n: nat, o: nat) {
    exists k | 0 <= k <= n && k < |r.states| :: o in r.states[k].orders && r.states[k].orders[o].status == Active
  }

  /** A new order starts as created. */
  lemma NewOrderIsCreated(s: State, a: Action, o: nat)
    requires Inv(s) && Legal(s, a) && o !in s.orders && o in Step(s, a).0.orders
    ensures Step(s, a).0.orders[o].status == Created
  {
    InvParts(s);
    hide Inv, Consistent, OrdersOk, ListsOk, MilestonesOk, OffersOk, TokenOk, SlotOk, EventsOf, Execute, Makes;
    if OnMilestone(a.call) {
      var c := CallRealises(s, a.auth, a.call);
      ChangeMovesOrder(s, Execute(s, a.auth, a.call).value.state, Target(s, a.call), c);
    } else {
      OtherCallNewOrder(s, a.auth, a.call, o);
    }
  }

  lemma OtherCallNewOrder(s: State, auth: Auth, call: Call, o: nat)
    requires KeysOk(s) && OrdersOk(s) && !OnMilestone(call) && Execute(s, auth, call).Ok?
    requires o !in s.orders && o in Execute(s, auth, call).value.state.orders
    ensures Execute(s, auth, call).value.state.orders[o].status == Created
  {
    hide Execute, KeysOk, OrdersOk;
    OtherCallOrders(s, auth, call);
  }

  lemma {:induction false} AcceptedOnce(r: Trace, n: nat, o: nat)
    requires r.IsRun() && n < |r.states| && o in r.states[n].orders
    ensures r.states[n].orders[o].status == Active || r.states[n].orders[o].status == Completed <==> WasActive(r, n, o)
  {
    hide Step, Inv;
    if n > 0 {
      var s := r.states[n - 1];
      RunKeepsInv(r, n - 1);
      assert Next(s, r.actions[n - 1], r.states[n], r.logs[n - 1]);
      if o in s.orders {
        AcceptedOnce(r, n - 1, o);
        StepMovesOrder(s, r.actions[n - 1], o);
      } else {
        NewOrderIsCreated(s, r.actions[n - 1], o);
        NotBefore(r, n - 1, o);
      }
    }
  }

  lemma {:induction false} NotBefore(r: Trace, n: nat, o: nat)
    requires r.IsRun() && n < |r.states| && o !in r.states[n].orders
    ensures forall k | 0 <= k <= n :: o !in r.states[k].orders
  {
    hide Step, Inv;
    if n > 0 {
      RunKeepsInv(r, n - 1);
      assert Next(r.states[n - 1], r.actions[n - 1], r.states[n], r.logs[n - 1]);
      if o in r.states[n - 1].orders {
        StepMovesOrder(r.states[n - 1], r.actions[n - 1], o);
      }
      NotBefore(r, n - 1, o);
    }
  }

  /** An order is completed exactly when it was once active and all its milestones are settled or refunded;
      an active order has a milestone left to finish; and only an active order holds escrow. */
  lemma CompletionIsExact(r: Trace, n: nat, o: nat)
    requires r.IsRun() && n < |r.states| && o in r.states[n].orders
    ensures var s := r.states[n]; var ids := ReadOrderMilestones(s, o);
            && (s.orders[o].status == Completed <==> WasActive(r, n, o) && AllTerminal(s, ids))
            && (s.orders[o].status == Active ==> exists i | 0 <= i < |ids| :: Unfinished(s, ids[i]))
            && (s.orders[o].status != Active ==>
                  forall i | 0 <= i < |ids| :: ids[i] in s.slots && s.slots[ids[i]].milestone.funded == 0)
  {
    hide Step;
    RunKeepsInv(r, n);
    AcceptedOnce(r, n, o);
    hide WasActive;
    var s := r.states[n];
    var ids := ReadOrderMilestones(s, o);
    InvParts(s);
    InvWork(s, o);
    hide Inv, SlotOk;
    assert ListOk(s, o);
    forall i | 0 <= i < |ids|
      ensures ids[i] in s.slots
      ensures s.orders[o].status == Completed ==> Terminal(s.slots[ids[i]].milestone.status)
      ensures s.orders[o].status != Active ==> s.slots[ids[i]].milestone.funded == 0
    {
      assert MilestoneOk(s, ids[i]);
      IdleHoldsNothing(s.self, s.orders[o], s.slots[ids[i]], FindMilestoneDispute(s, ids[i]));
    }
  }

  lemma InvWork(s: State, o: nat)
    requires Inv(s) && o in s.orders
    ensures HasWork(s, o)
  {
  }

  lemma IdleHoldsNothing(self: Address, order: Order, x: Slot, d: Option<Dispute>)
    requires SlotOk(self, order, x, d)
    ensures order.status != Active ==> x.milestone.funded == 0
    ensures order.status == Completed ==> Terminal(x.milestone.status)
  {
  }
}
