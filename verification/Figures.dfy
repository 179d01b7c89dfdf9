/** Orders, offers and requests counted two ways: in the storage and in the event log. */
module Figures {
  import opened Wrappers
  import opened Types
  import opened Token
  import opened Sums
  import opened Storage
  import opened Core
  import opened Runs
  import opened Lifecycle
  import opened Invariant
  import opened Effects
  import opened Preservation
  import opened OrderPreservation
  import opened Totals
  import opened Guarantees
  import opened Guards
  import opened Replay
  import opened OfferIndex

  datatype Figure = OrdersMade | OrdersAccepted | OrdersCompleted | OffersMade

  predicate Counts(f: Figure, e: Event) {
    match f
    case OrdersMade => e.OrderCreated?
    case OrdersAccepted => e.OrderAccepted?
    case OrdersCompleted => e.OrderCompleted?
    case OffersMade => e.FundingOfferCreated?
  }

  function CountIn(f: Figure, log: seq<Stamped>): int {
    if log == [] then 0 else Flag(Counts(f, log[0].event)) + CountIn(f, log[1..])
  }

  predicate CountsStatus(f: Figure, status: OrderStatus) {
    match f
    case OrdersMade => true
    case OrdersAccepted => status == Active || status == Completed
    case OrdersCompleted => status == Completed
    case OffersMade => false
  }

  function OrderPart(f: Figure): Order -> int {
    (o: Order) => Flag(CountsStatus(f, o.status))
  }

  ghost function FigureOf(f: Figure, s: State): int {
    if f.OffersMade? then |s.history| else SumBy(s.orders, OrderPart(f))
  }

  /** The milestones finance was ever requested for. */
  function RequestedIn(log: seq<Stamped>): set<nat> {
    if log == [] then {}
    else (if log[0].event.FinanceRequestOpened? then {log[0].event.milestoneId} else {}) + RequestedIn(log[1..])
  }

  function RequestedFor(s: State): set<nat> {
    set id | id in s.slots && s.slots[id].request.Some?
  }

  lemma {:induction false} CountConcat(f: Figure, a: seq<Stamped>, b: seq<Stamped>)
    ensures CountIn(f, a + b) == CountIn(f, a) + CountIn(f, b)
    ensures RequestedIn(a + b) == RequestedIn(a) + RequestedIn(b)
  {
    hide Counts;
    if a == [] {
      assert a + b == b;
    } else {
      assert (a + b)[1..] == a[1..] + b;
      CountConcat(f, a[1..], b);
    }
  }

  lemma CountOne(f: Figure, at: U64, e: Event)
    ensures CountIn(f, Stamp(at, [e])) == Flag(Counts(f, e))
    ensures RequestedIn(Stamp(at, [e])) == if e.FinanceRequestOpened? then {e.milestoneId} else {}
  {
    hide Counts;
    StampOne(at, e);
    assert [Stamped(at, e)][1..] == [];
  }

  lemma {:induction false} CountNone(f: Figure, log: seq<Stamped>)
    requires forall i | 0 <= i < |log| :: !Counts(f, log[i].event) && !log[i].event.FinanceRequestOpened?
    ensures CountIn(f, log) == 0 && RequestedIn(log) == {}
  {
    hide Counts;
    if log != [] {
      CountNone(f, log[1..]);
    }
  }

  // ---- a change of a milestone ------------------------------------------------------------------

  lemma ChangeCounts(f: Figure, self: Address, order: Order, x: Slot, d: Option<Dispute>, c: Change, completes: bool,
                     at: U64)
    requires SlotOk(self, order, x, d) && Enabled(self, order, x, c)
    requires completes ==> c.Paid? || c.Returned?
    ensures var log := Stamp(at, EventsOf(self, order, x, d, c, completes));
            && CountIn(f, log) == Flag(f.OrdersCompleted? && completes)
            && RequestedIn(log) == if c.Requested? then {x.milestone.id} else {}
  {
    hide SlotOk, CountIn, RequestedIn, Enabled;
    var es := EventsOf(self, order, x, d, c, completes);
    if completes {
      var n := |es| - 1;
      assert es == es[..n] + [OrderCompleted(order.id)];
      StampConcat(at, es[..n], [OrderCompleted(order.id)]);
      CountConcat(f, Stamp(at, es[..n]), Stamp(at, [OrderCompleted(order.id)]));
      CountNone(f, Stamp(at, es[..n]));
      CountOne(f, at, OrderCompleted(order.id));
    } else if c.Requested? {
      CountOne(f, at, es[0]);
    } else {
      CountNone(f, Stamp(at, es));
    }
  }

  lemma ChangeKeepsRequest(self: Address, order: Order, x: Slot, c: Change)
    requires Enabled(self, order, x, c)
    ensures Changed(self, order, x, c).request.Some? <==> x.request.Some? || c.Requested?
  {
  }

  lemma MakesRequests(s: State, t: State, id: nat, c: Change)
    requires Makes(s, t, id, c)
    ensures RequestedFor(t) == RequestedFor(s) + if c.Requested? then {id} else {}
  {
    hide MovesTokens, MovesOffers, MovesDisputes, MovesOrders, Changed, Enabled;
    ChangeKeepsRequest(s.self, s.orders[s.slots[id].milestone.orderId], s.slots[id], c);
  }

  lemma OrderStatusCounts(f: Figure, orders: map<nat, Order>, o: nat, status: OrderStatus)
    requires o in orders && !f.OffersMade?
    ensures SumBy(orders[o := orders[o].(status := status)], OrderPart(f)) ==
            SumBy(orders, OrderPart(f)) + Flag(CountsStatus(f, status)) - Flag(CountsStatus(f, orders[o].status))
  {
    SumUpdate(orders, OrderPart(f), o, orders[o].(status := status));
  }

  lemma MakesFigures(f: Figure, s: State, t: State, id: nat, c: Change)
    requires Inv(s) && Makes(s, t, id, c)
    ensures Known(s, id) && Enabled(s.self, OrderOf(s, id), s.slots[id], c)
    ensures FigureOf(f, t) == FigureOf(f, s) + Flag(f.OrdersCompleted? && Completes(t, OrderOf(s, id), c))
  {
    hide Inv, MovesTokens, MovesOffers, MovesDisputes, Changed, Consistent, KeysOk, ListsOk, MilestonesOk, OffersOk;
    hide TokenOk, Completes;
    InvParts(s);
    if f.OffersMade? {
      SelectedEntry(s, t, id, c);
      SameCount(s.history, t.history);
    } else {
      OrderFacts(s, s.slots[id].milestone.orderId);
      OrderStatusCounts(f, s.orders, s.slots[id].milestone.orderId, Completed);
    }
  }

  lemma SameCount<K, V, W>(m: map<K, V>, n: map<K, W>)
    requires m.Keys == n.Keys
    ensures |m| == |n|
  {
    assert |m| == |m.Keys| && |n| == |n.Keys|;
  }

  lemma OneMore<K, V>(m: map<K, V>, k: K, v: V)
    requires k !in m
    ensures |m[k := v]| == |m| + 1
  {
    assert m[k := v].Keys == m.Keys + {k};
    assert |m| == |m.Keys| && |m[k := v]| == |m[k := v].Keys|;
  }

  // ---- a call -----------------------------------------------------------------------------------

  /** What a call beside the milestones adds to the figures, and the one event that says so. */
  lemma OtherCallFigures(f: Figure, s: State, auth: Auth, call: Call)
    requires Inv(s) && !OnMilestone(call) && Execute(s, auth, call).Ok?
    ensures var d := Execute(s, auth, call).value;
            && |d.events| == 1 && !d.events[0].FinanceRequestOpened?
            && FigureOf(f, d.state) == FigureOf(f, s) + Flag(Counts(f, d.events[0]))
  {
    hide Inv, KeysOk, OrdersOk, ListsOk, MilestonesOk, OffersOk, TokenOk, Consistent, Execute, FigureOf;
    InvParts(s);
    var d := Execute(s, auth, call).value;
    OtherCallShape(s, auth, call);
    OtherCallOrders(s, auth, call);
    CallPublishes(s, auth, call);
    if f.OffersMade? {
      OtherCallOffers(s, auth, call);
    } else {
      OrdersCounted(f, s, auth, call);
    }
  }

  lemma CallPublishes(s: State, auth: Auth, call: Call)
    requires !OnMilestone(call) && Execute(s, auth, call).Ok? && |Execute(s, auth, call).value.events| == 1
    ensures var e := Execute(s, auth, call).value.events[0];
            && (e.OrderCreated? <==> call.CallCreateOrder?) && (e.OrderAccepted? <==> call.CallAcceptOrder?)
            && (e.FundingOfferCreated? <==> call.CallMakeOffer?) && !e.OrderCompleted?
  {
  }

  lemma OtherCallOffers(s: State, auth: Auth, call: Call)
    requires Inv(s) && !OnMilestone(call) && Execute(s, auth, call).Ok?
    ensures var d := Execute(s, auth, call).value;
            FigureOf(OffersMade, d.state) == FigureOf(OffersMade, s) + Flag(call.CallMakeOffer?)
  {
    hide Inv, KeysOk, OrdersOk, ListsOk, MilestonesOk, OffersOk, TokenOk, Consistent, CreateMilestone, CancelOffer;
    hide MakeOffer;
    InvParts(s);
    if call.CallCreateMilestone? {
      CreateMilestoneWrites(s, auth, call.orderId, call.amount, call.deadline);
    } else if call.CallCancelOffer? {
      CancelOfferWrites(s, auth, call.offerId);
      SameCount(s.history, CancelOffer(s, auth, call.offerId).value.state.history);
    } else if call.CallMakeOffer? {
      NewOfferId(s);
      MakeOfferWrites(s, auth, call.id, call.funder, call.principal, call.repayment, call.expiresAt);
      var o := MakeOffer(s, auth, call.id, call.funder, call.principal, call.repayment, call.expiresAt).value;
      OneMore(s.history, o.value, o.state.history[o.value]);
    }
  }

  lemma OrdersCounted(f: Figure, s: State, auth: Auth, call: Call)
    requires KeysOk(s) && OrdersOk(s) && !OnMilestone(call) && Execute(s, auth, call).Ok? && !f.OffersMade?
    ensures var d := Execute(s, auth, call).value;
            FigureOf(f, d.state) ==
            FigureOf(f, s) + Flag(|| (f.OrdersMade? && call.CallCreateOrder?)
                                  || (f.OrdersAccepted? && call.CallAcceptOrder?))
  {
    hide KeysOk, OrdersOk, Execute;
    OtherCallOrders(s, auth, call);
    var t := Execute(s, auth, call).value.state;
    match call {
      case CallCreateOrder(_, _, _, _) =>
        var id: nat := s.orderCount + 1;
        var o: Order :| o.status == Created && t.orders == s.orders[id := o];
        SumUpdate(s.orders, OrderPart(f), id, o);
      case CallAcceptOrder(id) => OrderStatusCounts(f, s.orders, id, Active);
      case CallCancelOrder(id) => OrderStatusCounts(f, s.orders, id, Cancelled);
      case _ =>
    }
  }

  lemma OtherCallRequests(s: State, auth: Auth, call: Call)
    requires KeysOk(s) && !OnMilestone(call) && Execute(s, auth, call).Ok?
    ensures RequestedFor(Execute(s, auth, call).value.state) == RequestedFor(s)
  {
    hide KeysOk, Execute;
    OtherCallShape(s, auth, call);
  }

  lemma CallFigures(f: Figure, s: State, auth: Auth, call: Call)
    requires Inv(s) && Execute(s, auth, call).Ok?
    ensures var d := Execute(s, auth, call).value; var log := Stamp(s.now, d.events);
            && FigureOf(f, d.state) == FigureOf(f, s) + CountIn(f, log)
            && RequestedFor(d.state) == RequestedFor(s) + RequestedIn(log)
  {
    hide Inv, Consistent, KeysOk, OrdersOk, ListsOk, MilestonesOk, OffersOk, TokenOk, Execute, FigureOf, Makes, SlotOk;
    hide EventsOf, CountIn, RequestedIn, RequestedFor, Enabled, AllTerminal;
    InvParts(s);
    var d := Execute(s, auth, call).value;
    if OnMilestone(call) {
      var c := CallRealises(s, auth, call);
      var id := Target(s, call);
      MakesFigures(f, s, d.state, id, c);
      SlotNamed(s, id);
      MakesRequests(s, d.state, id, c);
      ChangeCounts(f, s.self, OrderOf(s, id), s.slots[id], FindMilestoneDispute(s, id), c,
                   Completes(d.state, OrderOf(s, id), c), s.now);
    } else {
      OtherCallFigures(f, s, auth, call);
      OtherCallRequests(s, auth, call);
      assert d.events == [d.events[0]];
      CountOne(f, s.now, d.events[0]);
    }
  }

  lemma StepFigures(f: Figure, s: State, a: Action)
    requires Inv(s) && Legal(s, a)
    ensures FigureOf(f, Step(s, a).0) == FigureOf(f, s) + CountIn(f, Step(s, a).1)
    ensures RequestedFor(Step(s, a).0) == RequestedFor(s) + RequestedIn(Step(s, a).1)
  {
    hide Inv, Execute, FigureOf, Counts, RequestedFor, CountIn, RequestedIn, Legal, Stamp, Transfer;
    if a.Invoke? && Execute(s, a.auth, a.call).Ok? {
      CallFigures(f, s, a.auth, a.call);
    } else {
      SameFigures(f, s, Step(s, a).0);
    }
  }

  lemma SameFigures(f: Figure, s: State, t: State)
    requires t.orders == s.orders && t.history == s.history && t.slots == s.slots
    ensures FigureOf(f, t) == FigureOf(f, s) + CountIn(f, [])
    ensures RequestedFor(t) == RequestedFor(s) + RequestedIn([])
  {
  }

  /** In every state of every run, each figure of the storage is the count of the events that make it, and the
      milestones with a request are those that one was published for. */
  lemma {:induction false} FiguresFollowLog(f: Figure, r: Trace, n: nat)
    requires r.IsRun() && n < |r.states|
    ensures FigureOf(f, r.states[n]) == CountIn(f, r.Published(n))
    ensures RequestedFor(r.states[n]) == RequestedIn(r.Published(n))
  {
    hide Step, Inv, Counts, FigureOf, CountIn, RequestedIn, RequestedFor;
    if n == 0 {
      NoFigures(f, r.states[0]);
    } else {
      FiguresFollowLog(f, r, n - 1);
      RunKeepsInv(r, n - 1);
      assert Next(r.states[n - 1], r.actions[n - 1], r.states[n], r.logs[n - 1]);
      StepFigures(f, r.states[n - 1], r.actions[n - 1]);
      CountConcat(f, r.Published(n - 1), r.logs[n - 1]);
    }
  }

  lemma NoFigures(f: Figure, s: State)
    requires Deployed(s)
    ensures FigureOf(f, s) == CountIn(f, []) && RequestedFor(s) == RequestedIn([])
  {
  }
}
