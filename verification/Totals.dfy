/** Quantities of the storage that are running totals of the event log. */
module Totals {
  import opened Wrappers
  import opened Types
  import opened Sums
  import opened Token
  import opened Storage
  import opened Core
  import opened Runs
  import opened Lifecycle
  import opened Invariant
  import opened Effects
  import opened Preservation
  import opened OrderPreservation

  datatype Quantity =
    | EscrowNow          // what the contract still holds
    | DepositsKept       // buyer deposits, less partial deposits handed back
    | FunderRepayments
    | SupplierPayouts
    | RefundVolume
    | FullyFunded        // milestones that reached their full amount
    | Advances
    | AdvanceVolume
    | Settlements
    | Refunds
    | Disputes
    | Milestones

  function Flag(b: bool): int {
    if b then 1 else 0
  }

  function Minus(x: int): int {
    -x
  }

  /** What one event adds to a quantity. */
  function EventPart(q: Quantity, e: Event): int {
    match q
    case EscrowNow =>
      if e.MilestoneFunded? then e.amount
      else if e.PartialFundingCancelled? then Minus(e.amount)
      else if e.MilestoneSettled? then Minus(e.funderRepayment) + Minus(e.supplierPayout)
      else if e.MilestoneRefunded? then Minus(e.refundedAmount)
      else 0
    case DepositsKept =>
      if e.MilestoneFunded? then e.amount else if e.PartialFundingCancelled? then Minus(e.amount) else 0
    case FunderRepayments => if e.MilestoneSettled? then e.funderRepayment else 0
    case SupplierPayouts => if e.MilestoneSettled? then e.supplierPayout else 0
    case RefundVolume => if e.MilestoneRefunded? then e.refundedAmount else 0
    case FullyFunded => Flag(e.MilestoneFunded? && e.fullyFunded)
    case Advances => Flag(e.AdvanceFunded?)
    case AdvanceVolume => if e.AdvanceFunded? then e.principal else 0
    case Settlements => Flag(e.MilestoneSettled?)
    case Refunds => Flag(e.MilestoneRefunded?)
    case Disputes => Flag(e.DisputeOpened?)
    case Milestones => Flag(e.MilestoneCreated?)
  }

  /** What a settled milestone paid its funder. */
  function Repaid(x: Slot): int {
    if x.milestone.status == Settled && x.position.Some? then x.position.value.repayment else 0
  }

  /** What one milestone contributes to a quantity. */
  function SlotPart(q: Quantity, x: Slot): int {
    var m := x.milestone;
    match q
    case EscrowNow => m.funded
    case DepositsKept => if Terminal(m.status) then m.amount else m.funded
    case FunderRepayments => Repaid(x)
    case SupplierPayouts => if m.status == Settled then m.amount - Repaid(x) else 0
    case RefundVolume => if m.status == Refunded then m.amount else 0
    case FullyFunded => Flag(m.status != Unfunded)
    case Advances => Flag(x.position.Some?)
    case AdvanceVolume => if x.position.Some? then x.position.value.principal else 0
    case Settlements => Flag(m.status == Settled)
    case Refunds => Flag(m.status == Refunded)
    case Disputes => Flag(x.dispute.Some?)
    case Milestones => 1
  }

  function PartOf(q: Quantity): Slot -> int {
    (x: Slot) => SlotPart(q, x)
  }

  ghost function StateTotal(q: Quantity, s: State): int {
    SumBy(s.slots, PartOf(q))
  }

  function EventsTotal(q: Quantity, events: seq<Event>): int {
    if events == [] then 0 else EventPart(q, events[0]) + EventsTotal(q, events[1..])
  }

  function LogTotal(q: Quantity, log: seq<Stamped>): int {
    if log == [] then 0 else EventPart(q, log[0].event) + LogTotal(q, log[1..])
  }

  lemma {:induction false} LogTotalConcat(q: Quantity, a: seq<Stamped>, b: seq<Stamped>)
    ensures LogTotal(q, a + b) == LogTotal(q, a) + LogTotal(q, b)
  {
    hide EventPart;
    if a == [] {
      assert a + b == b;
    } else {
      assert (a + b)[1..] == a[1..] + b;
      LogTotalConcat(q, a[1..], b);
    }
  }

  lemma {:induction false} StampTotal(q: Quantity, at: U64, events: seq<Event>)
    ensures LogTotal(q, Stamp(at, events)) == EventsTotal(q, events)
  {
    hide EventPart;
    if events != [] {
      StampTotal(q, at, events[1..]);
      assert Stamp(at, events)[1..] == Stamp(at, events[1..]);
    }
  }

  lemma OneTotal(q: Quantity, e: Event)
    ensures EventsTotal(q, [e]) == EventPart(q, e)
  {
    hide EventPart;
    assert [e][1..] == [];
  }

  lemma TwoTotal(q: Quantity, e: Event, f: Event)
    ensures EventsTotal(q, [e, f]) == EventPart(q, e) + EventPart(q, f)
  {
    hide EventPart;
    OneTotal(q, f);
    assert [e, f][1..] == [f];
  }

  lemma {:induction false} CompletionAddsNothing(q: Quantity, events: seq<Event>, order: Order, completes: bool)
    ensures EventsTotal(q, events + Completion(order, completes)) == EventsTotal(q, events)
  {
    if events == [] {
      if completes {
        OneTotal(q, OrderCompleted(order.id));
      }
      assert events + Completion(order, completes) == Completion(order, completes);
    } else {
      assert (events + Completion(order, completes))[1..] == events[1..] + Completion(order, completes);
      CompletionAddsNothing(q, events[1..], order, completes);
    }
  }

  /** A change publishes exactly what it adds to every quantity. */
  lemma ChangeAddsUp(q: Quantity, self: Address, order: Order, x: Slot, d: Option<Dispute>, c: Change, completes: bool)
    requires SlotOk(self, order, x, d) && Enabled(self, order, x, c) && x.dispute.Some? == d.Some?
    ensures EventsTotal(q, EventsOf(self, order, x, d, c, completes)) ==
            SlotPart(q, Changed(self, order, x, c)) - SlotPart(q, x)
  {
    if c.Paid? {
      PayoutAddsUp(q, self, order, x, d, completes);
    } else if c.Returned? {
      RefundAddsUp(q, self, order, x, d, completes);
    } else {
      SingleAddsUp(q, self, order, x, d, c, completes);
    }
  }

  lemma SingleAddsUp(q: Quantity, self: Address, order: Order, x: Slot, d: Option<Dispute>, c: Change, completes: bool)
    requires SlotOk(self, order, x, d) && Enabled(self, order, x, c) && x.dispute.Some? == d.Some?
    requires !c.Paid? && !c.Returned?
    ensures EventsTotal(q, EventsOf(self, order, x, d, c, completes)) ==
            SlotPart(q, Changed(self, order, x, c)) - SlotPart(q, x)
  {
    hide EventsTotal;
    OneTotal(q, EventsOf(self, order, x, d, c, completes)[0]);
  }

  lemma PayoutAddsUp(q: Quantity, self: Address, order: Order, x: Slot, d: Option<Dispute>, completes: bool)
    requires SlotOk(self, order, x, d) && Enabled(self, order, x, Paid)
    ensures EventsTotal(q, EventsOf(self, order, x, d, Paid, completes)) ==
            SlotPart(q, Changed(self, order, x, Paid)) - SlotPart(q, x)
  {
    hide EventsTotal;
    var m := x.milestone;
    var e := MilestoneSettled(m.orderId, m.id, m.funded, OwedToFunder(x), m.funded - OwedToFunder(x));
    OneTotal(q, e);
    CompletionAddsNothing(q, [e], order, completes);
  }

  lemma RefundAddsUp(q: Quantity, self: Address, order: Order, x: Slot, d: Option<Dispute>, completes: bool)
    requires SlotOk(self, order, x, d) && Enabled(self, order, x, Returned)
    ensures EventsTotal(q, EventsOf(self, order, x, d, Returned, completes)) ==
            SlotPart(q, Changed(self, order, x, Returned)) - SlotPart(q, x)
  {
    hide EventsTotal;
    var m := x.milestone;
    var e := MilestoneRefunded(m.orderId, m.id, order.buyer, m.funded, OutstandingAdvance(x));
    var f := DisputeResolved(m.id, d.value.id, order.resolver, false);
    TwoTotal(q, e, f);
    CompletionAddsNothing(q, [e, f], order, completes);
  }

  // ---- over a run -----------------------------------------------------------------------------

  lemma CallAddsUp(q: Quantity, s: State, auth: Auth, call: Call)
    requires Inv(s) && s.self !in auth && Execute(s, auth, call).Ok?
    ensures var d := Execute(s, auth, call).value;
            StateTotal(q, d.state) == StateTotal(q, s) + EventsTotal(q, d.events)
  {
    hide Execute, Consistent, SlotOk, Enabled, Changed, EventsOf, EventsTotal, SlotPart, MovesTokens, MovesOffers;
    hide MovesDisputes, MovesOrders;
    if OnMilestone(call) {
      var c := CallRealises(s, auth, call);
      var d := Execute(s, auth, call).value;
      var id := Target(s, call);
      var x := s.slots[id];
      var order := s.orders[x.milestone.orderId];
      DisputeSeen(s, id);
      ChangeAddsUp(q, s.self, order, x, FindMilestoneDispute(s, id), c, Completes(d.state, order, c));
      SumUpdate(s.slots, PartOf(q), id, d.state.slots[id]);
    } else {
      InvKeys(s);
      OtherCallAddsUp(q, s, auth, call);
    }
  }

  lemma InvKeys(s: State)
    requires Inv(s)
    ensures KeysOk(s)
  {
  }

  lemma DisputeSeen(s: State, id: nat)
    requires Consistent(s) && id in s.slots
    ensures s.slots[id].dispute.Some? == FindMilestoneDispute(s, id).Some?
  {
    assert MilestoneOk(s, id);
  }

  /** What the calls beside the milestones publish, and that they leave the milestones alone. */
  lemma OtherCallShape(s: State, auth: Auth, call: Call)
    requires KeysOk(s) && !OnMilestone(call) && Execute(s, auth, call).Ok?
    ensures var d := Execute(s, auth, call).value;
            && |d.events| == 1 && d.state.balances == s.balances && d.state.donated == s.donated
            && d.state.self == s.self && d.state.disputeCount == s.disputeCount
            && (if call.CallCreateMilestone? then
                  && d.events[0].MilestoneCreated? && s.milestoneCount < U64_MAX
                  && s.milestoneCount + 1 !in s.slots
                  && d.state.slots == s.slots[s.milestoneCount + 1 :=
                       FreshMilestone(s, s.milestoneCount + 1, call.orderId, call.amount, call.deadline)]
                else
                  && d.state.slots == s.slots
                  && (|| d.events[0].OrderCreated? || d.events[0].OrderAccepted? || d.events[0].OrderCancelled?
                      || d.events[0].FundingOfferCreated? || d.events[0].FundingOfferCancelled?))
  {
    if call.CallCreateMilestone? {
      CreateMilestoneWrites(s, auth, call.orderId, call.amount, call.deadline);
    }
  }

  lemma OtherCallAddsUp(q: Quantity, s: State, auth: Auth, call: Call)
    requires KeysOk(s) && !OnMilestone(call) && Execute(s, auth, call).Ok?
    ensures var d := Execute(s, auth, call).value;
            StateTotal(q, d.state) == StateTotal(q, s) + EventsTotal(q, d.events)
  {
    hide KeysOk, Execute, EventsTotal;
    var d := Execute(s, auth, call).value;
    OtherCallShape(s, auth, call);
    assert d.events == [d.events[0]];
    OneTotal(q, d.events[0]);
    if call.CallCreateMilestone? {
      var id: nat := s.milestoneCount + 1;
      SumUpdate(s.slots, PartOf(q), id, d.state.slots[id]);
      assert PartOf(q)(d.state.slots[id]) == SlotPart(q, FreshMilestone(s, id, call.orderId, call.amount,
              call.deadline)) == EventPart(q, d.events[0]);
    } else {
      SameSlots(q, s, d.state);
    }
  }

  lemma StepAddsUp(q: Quantity, s: State, a: Action)
    requires Inv(s) && Legal(s, a)
    ensures StateTotal(q, Step(s, a).0) == StateTotal(q, s) + LogTotal(q, Step(s, a).1)
  {
    hide Execute, Inv, StateTotal, EventsTotal;
    if a.Invoke? && Execute(s, a.auth, a.call).Ok? {
      CallAddsUp(q, s, a.auth, a.call);
      StampTotal(q, s.now, Execute(s, a.auth, a.call).value.events);
    } else {
      SameSlots(q, s, Step(s, a).0);
    }
  }

  /** In every run each quantity of the storage is the total of what the log says about it. */
  lemma {:induction false} TotalsFollowLog(q: Quantity, r: Trace, n: nat)
    requires r.IsRun() && n < |r.states|
    ensures StateTotal(q, r.states[n]) == LogTotal(q, r.Published(n))
  {
    hide Step, Inv, StateTotal;
    if n == 0 {
      BlankTotal(q, r.states[0]);
    } else {
      TotalsFollowLog(q, r, n - 1);
      RunKeepsInv(r, n - 1);
      assert Next(r.states[n - 1], r.actions[n - 1], r.states[n], r.logs[n - 1]);
      LogTotalConcat(q, r.Published(n - 1), r.logs[n - 1]);
      StepAddsUp(q, r.states[n - 1], r.actions[n - 1]);
    }
  }

  lemma BlankTotal(q: Quantity, s: State)
    requires s.slots == map[]
    ensures StateTotal(q, s) == 0
  {
  }

  lemma SameSlots(q: Quantity, s: State, t: State)
    requires t.slots == s.slots
    ensures StateTotal(q, t) == StateTotal(q, s)
  {
  }
}
