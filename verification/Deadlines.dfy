/** Deadlines are inert: they are checked once, when a milestone is created, and nothing ever reads them again. */
module Deadlines {
  import opened Wrappers
  import opened Types
  import opened Token
  import opened Storage
  import opened Escrow
  import opened Financing
  import opened Settlement
  import opened Core
  import opened Runs

  predicate TwinMilestone(x: Milestone, y: Milestone) {
    y == x.(deadline := y.deadline)
  }

  /** The same slot but for the milestone's deadline. */
  predicate TwinSlot(x: Slot, y: Slot) {
    TwinMilestone(x.milestone, y.milestone) && y == x.(milestone := y.milestone)
  }

  /** The same storage but for deadlines. */
  predicate Twin(s: State, t: State) {
    && t == s.(slots := t.slots) && t.slots.Keys == s.slots.Keys
    && forall id | id in s.slots :: TwinSlot(s.slots[id], t.slots[id])
  }

  predicate TwinEvent(e: Event, f: Event) {
    if e.MilestoneCreated? then f.MilestoneCreated? && f == e.(deadline := f.deadline) else f == e
  }

  predicate TwinEvents(es: seq<Event>, fs: seq<Event>) {
    |es| == |fs| && forall i | 0 <= i < |es| :: TwinEvent(es[i], fs[i])
  }

  /** Same outcome, value or error, and same storage and events but for deadlines. */
  predicate TwinResult<T(==)>(r: Result<Done<T>, Error>, q: Result<Done<T>, Error>) {
    match r
    case Err(e) => q == Err(e)
    case Ok(d) => q.Ok? && Twin(d.state, q.value.state) && q.value.value == d.value && TwinEvents(d.events,
            q.value.events)
  }

  predicate Acceptable(now: U64, deadline: Option<U64>) {
    deadline.Some? ==> deadline.value > now
  }

  /** The same call but for a deadline, acceptable or not alike. */
  predicate TwinCall(now: U64, c: Call, d: Call) {
    || d == c
    || (&& c.CallCreateMilestone? && d.CallCreateMilestone? && d == c.(deadline := d.deadline)
        && (Acceptable(now, c.deadline) <==> Acceptable(now, d.deadline)))
  }

  // ---- reads see twins, writes keep them --------------------------------------------------------

  lemma TwinFields(s: State, t: State)
    requires Twin(s, t)
    ensures t.self == s.self && t.config == s.config && t.now == s.now && t.orders == s.orders && t.lists == s.lists
    ensures t.orderCount == s.orderCount && t.milestoneCount == s.milestoneCount
    ensures t.offerCount == s.offerCount && t.disputeCount == s.disputeCount
    ensures t.offers == s.offers && t.offerIndex == s.offerIndex && t.balances == s.balances
  {
  }

  lemma TwinRead(s: State, t: State, id: nat)
    requires Twin(s, t)
    ensures id in s.slots <==> id in t.slots
    ensures id in s.slots ==> TwinMilestone(s.slots[id].milestone, t.slots[id].milestone)
    ensures FindRequest(s, id) == FindRequest(t, id) && FindAccepted(s, id) == FindAccepted(t, id)
    ensures FindPosition(s, id) == FindPosition(t, id) && FindMilestoneDispute(s, id) == FindMilestoneDispute(t, id)
  {
  }

  lemma TwinPaid(s: State, t: State, b: Balances)
    requires Twin(s, t)
    ensures Twin(s.(balances := b), t.(balances := b))
  {
  }

  lemma TwinWriteMilestone(s: State, t: State, x: Milestone, y: Milestone)
    requires Twin(s, t) && TwinMilestone(x, y)
    ensures Twin(WriteMilestone(s, x), WriteMilestone(t, y))
  {
  }

  lemma TwinWriteRequest(s: State, t: State, r: FinanceRequest)
    requires Twin(s, t)
    ensures Twin(WriteRequest(s, r), WriteRequest(t, r))
  {
  }

  lemma TwinWriteAccepted(s: State, t: State, id: nat, o: Offer)
    requires Twin(s, t)
    ensures Twin(WriteAccepted(s, id, o), WriteAccepted(t, id, o))
    ensures Twin(RemoveAccepted(s, id, o), RemoveAccepted(t, id, o))
  {
  }

  lemma TwinWritePosition(s: State, t: State, p: Position)
    requires Twin(s, t)
    ensures Twin(WritePosition(s, p), WritePosition(t, p))
  {
  }

  lemma TwinWriteDispute(s: State, t: State, d: Dispute)
    requires Twin(s, t)
    ensures Twin(WriteDispute(s, d), WriteDispute(t, d))
  {
  }

  lemma TwinWriteOffers(s: State, t: State, o: Offer, id: nat, ids: seq<nat>)
    requires Twin(s, t)
    ensures Twin(WriteOffer(s, o), WriteOffer(t, o))
    ensures Twin(WriteMilestoneOffers(s, id, ids), WriteMilestoneOffers(t, id, ids))
  {
  }

  lemma TwinWriteOrders(s: State, t: State, o: Order, id: nat, ids: seq<nat>)
    requires Twin(s, t)
    ensures Twin(WriteOrder(s, o), WriteOrder(t, o))
    ensures Twin(WriteOrderMilestones(s, id, ids), WriteOrderMilestones(t, id, ids))
  {
  }

  lemma TwinCounters(s: State, t: State, orders: U64, milestones: U64, offers: U64, disputes: U64)
    requires Twin(s, t)
    ensures Twin(s.(orderCount := orders, milestoneCount := milestones, offerCount := offers, disputeCount := disputes),
                 t.(orderCount := orders, milestoneCount := milestones, offerCount := offers, disputeCount := disputes))
  {
  }

  lemma TwinRelease(s: State, t: State, x: Milestone, y: Milestone, to: Address, amount: I128)
    requires Twin(s, t) && TwinMilestone(x, y)
    ensures var r := Release(s, x, to, amount); var q := Release(t, y, to, amount);
            match r
            case Err(e) => q == Err(e)
            case Ok(p) => q.Ok? && Twin(p.0, q.value.0) && TwinMilestone(p.1, q.value.1)
                          && p.1 == x.(funded := x.funded - amount)
  {
    hide Twin, Transfer;
    TwinFields(s, t);
    if Release(s, x, to, amount).Ok? {
      TwinPaid(s, t, Release(s, x, to, amount).value.0.balances);
    }
  }

  lemma TwinCompletion(s: State, t: State, order: Order)
    requires Twin(s, t)
    ensures var d := CompleteOrderIfFinished(s, order); var e := CompleteOrderIfFinished(t, order);
            Twin(d.state, e.state) && e.events == d.events
  {
    hide Twin, WriteOrder;
    TwinFields(s, t);
    var ids := ReadOrderMilestones(s, order.id);
    forall i | 0 <= i < |ids|
      ensures ids[i] in s.slots <==> ids[i] in t.slots
      ensures ids[i] in s.slots ==> t.slots[ids[i]].milestone.status == s.slots[ids[i]].milestone.status
    {
      TwinRead(s, t, ids[i]);
    }
    assert AllTerminal(s, ids) <==> AllTerminal(t, ids);
    TwinWriteOrders(s, t, order.(status := Completed), 0, []);
  }

  // ---- call by call -----------------------------------------------------------------------------

  lemma CreateOrderTwin(s: State, t: State, auth: Auth, buyer: Address, supplier: Address, attestor: Address,
                        resolver: Address)
    requires Twin(s, t)
    ensures TwinResult(CreateOrder(s, auth, buyer, supplier, attestor, resolver),
                       CreateOrder(t, auth, buyer, supplier, attestor, resolver))
  {
    hide Twin, WriteOrder;
    TwinFields(s, t);
    if s.orderCount < U64_MAX {
      var id := s.orderCount + 1;
      TwinCounters(s, t, id, s.milestoneCount, s.offerCount, s.disputeCount);
      TwinWriteOrders(s.(orderCount := id), t.(orderCount := id),
                      Order(id, buyer, supplier, attestor, resolver, s.config.usdc, Created, s.now), 0, []);
    }
  }

  lemma CreateMilestoneTwin(s: State, t: State, auth: Auth, orderId: nat, amount: I128, deadline: Option<U64>,
                            other: Option<U64>)
    requires Twin(s, t) && (Acceptable(s.now, deadline) <==> Acceptable(s.now, other))
    ensures TwinResult(CreateMilestone(s, auth, orderId, amount, deadline),
                       CreateMilestone(t, auth, orderId, amount, other))
  {
    hide Twin, WriteMilestone, WriteOrderMilestones;
    TwinFields(s, t);
    if s.milestoneCount < U64_MAX {
      var id := s.milestoneCount + 1;
      var ids := ReadOrderMilestones(s, orderId);
      var x := Milestone(id, orderId, |ids|, amount, 0, deadline, None, Unfunded, s.now);
      var y := x.(deadline := other);
      TwinCounters(s, t, s.orderCount, id, s.offerCount, s.disputeCount);
      TwinWriteMilestone(s.(milestoneCount := id), t.(milestoneCount := id), x, y);
      TwinWriteOrders(WriteMilestone(s.(milestoneCount := id), x), WriteMilestone(t.(milestoneCount := id), y),
                      Order(0, s.self, s.self, s.self, s.self, s.self, Created, 0), orderId, ids + [id]);
    }
  }

  lemma OrderStatusTwin(s: State, t: State, auth: Auth, id: nat)
    requires Twin(s, t)
    ensures TwinResult(AcceptOrder(s, auth, id), AcceptOrder(t, auth, id))
    ensures TwinResult(CancelOrder(s, auth, id), CancelOrder(t, auth, id))
  {
    hide Twin, WriteOrder;
    TwinFields(s, t);
    if id in s.orders {
      TwinWriteOrders(s, t, s.orders[id].(status := Active), 0, []);
      TwinWriteOrders(s, t, s.orders[id].(status := Cancelled), 0, []);
    }
  }

  lemma FundMilestoneTwin(s: State, t: State, auth: Auth, id: nat, amount: I128, asset: Address)
    requires Twin(s, t)
    ensures TwinResult(FundMilestone(s, auth, id, amount, asset), FundMilestone(t, auth, id, amount, asset))
  {
    hide Twin, WriteMilestone, Transfer;
    TwinFields(s, t);
    TwinRead(s, t, id);
    if FundMilestone(s, auth, id, amount, asset).Ok? {
      var x := s.slots[id].milestone;
      var y := t.slots[id].milestone;
      var b := Transfer(s.balances, s.orders[x.orderId].buyer, s.self, amount).value;
      var funded := x.funded + amount;
      var status := if funded == x.amount then Funded else x.status;
      TwinPaid(s, t, b);
      TwinWriteMilestone(s.(balances := b), t.(balances := b), x.(funded := funded, status := status),
                         y.(funded := funded, status := status));
    }
  }

  lemma CancelPartialFundingTwin(s: State, t: State, auth: Auth, id: nat)
    requires Twin(s, t)
    ensures TwinResult(CancelPartialFunding(s, auth, id), CancelPartialFunding(t, auth, id))
  {
    hide Twin, WriteMilestone, Transfer, FindRequest, FindAccepted, FindPosition, FindMilestoneDispute;
    TwinFields(s, t);
    TwinRead(s, t, id);
    if CancelPartialFunding(s, auth, id).Ok? {
      var x := s.slots[id].milestone;
      var b := Transfer(s.balances, s.self, s.orders[x.orderId].buyer, x.funded).value;
      TwinPaid(s, t, b);
      TwinWriteMilestone(s.(balances := b), t.(balances := b), x.(funded := 0), t.slots[id].milestone.(funded := 0));
    }
  }

  lemma RequestFinanceTwin(s: State, t: State, auth: Auth, id: nat, principal: I128, expiresAt: U64)
    requires Twin(s, t)
    ensures TwinResult(RequestFinance(s, auth, id, principal, expiresAt), RequestFinance(t, auth, id, principal,
            expiresAt))
  {
    hide Twin, WriteMilestone, WriteRequest, WriteMilestoneOffers, FindRequest;
    TwinFields(s, t);
    TwinRead(s, t, id);
    if RequestFinance(s, auth, id, principal, expiresAt).Ok? {
      var x := s.slots[id].milestone;
      var y := t.slots[id].milestone;
      var request := FinanceRequest(id, s.orders[x.orderId].supplier, principal, RequestOpen, expiresAt, s.now);
      TwinWriteRequest(s, t, request);
      var u, v := WriteRequest(s, request), WriteRequest(t, request);
      TwinWriteMilestone(u, v, x.(status := FinanceRequested), y.(status := FinanceRequested));
      TwinWriteOffers(WriteMilestone(u, x.(status := FinanceRequested)),
                      WriteMilestone(v, y.(status := FinanceRequested)), NoOffer(s), id, []);
    }
  }

  function NoOffer(s: State): Offer {
    Offer(0, 0, s.self, 0, 0, 0, OfferOpen)
  }

  lemma MakeOfferTwin(s: State, t: State, auth: Auth, id: nat, funder: Address, principal: I128, repayment: I128,
                      expiresAt: U64)
    requires Twin(s, t)
    ensures TwinResult(MakeOffer(s, auth, id, funder, principal, repayment, expiresAt),
                       MakeOffer(t, auth, id, funder, principal, repayment, expiresAt))
  {
    hide Twin, WriteOffer, WriteMilestoneOffers, FindRequest;
    TwinFields(s, t);
    TwinRead(s, t, id);
    if MakeOffer(s, auth, id, funder, principal, repayment, expiresAt).Ok? {
      var offerId := s.offerCount + 1;
      var u, v := s.(offerCount := offerId), t.(offerCount := offerId);
      var offer := Offer(offerId, id, funder, principal, repayment, expiresAt, OfferOpen);
      TwinCounters(s, t, s.orderCount, s.milestoneCount, offerId, s.disputeCount);
      TwinWriteOffers(u, v, offer, id, []);
      TwinWriteOffers(WriteOffer(u, offer), WriteOffer(v, offer), offer, id, ReadMilestoneOffers(s, id) + [offerId]);
    }
  }

  lemma CancelOfferTwin(s: State, t: State, auth: Auth, offerId: nat)
    requires Twin(s, t)
    ensures TwinResult(CancelOffer(s, auth, offerId), CancelOffer(t, auth, offerId))
  {
    hide Twin, WriteOffer;
    TwinFields(s, t);
    if offerId in s.offers {
      TwinWriteOffers(s, t, s.offers[offerId].(status := OfferCancelled), 0, []);
    }
  }

  lemma AcceptOfferTwin(s: State, t: State, auth: Auth, offerId: nat)
    requires Twin(s, t)
    ensures TwinResult(AcceptOffer(s, auth, offerId), AcceptOffer(t, auth, offerId))
  {
    hide Twin, WriteOffer, WriteRequest, WriteAccepted, FindRequest, FindAccepted, FindPosition;
    TwinFields(s, t);
    if AcceptOffer(s, auth, offerId).Ok? {
      var o := s.offers[offerId].(status := OfferAccepted);
      var request := FindRequest(s, o.milestoneId).value.(status := RequestAccepted);
      TwinWriteOffers(s, t, o, 0, []);
      TwinWriteRequest(WriteOffer(s, o), WriteOffer(t, o), request);
      TwinWriteAccepted(WriteRequest(WriteOffer(s, o), request), WriteRequest(WriteOffer(t, o), request),
              o.milestoneId, o);
    }
    if offerId in s.offers {
      TwinRead(s, t, s.offers[offerId].milestoneId);
    }
  }

  lemma FundAdvanceTwin(s: State, t: State, auth: Auth, id: nat)
    requires Twin(s, t)
    ensures TwinResult(FundAdvance(s, auth, id), FundAdvance(t, auth, id))
  {
    hide Twin, WriteMilestone, WriteAccepted, WritePosition, Transfer, FindAccepted, FindPosition;
    TwinFields(s, t);
    TwinRead(s, t, id);
    if FundAdvance(s, auth, id).Ok? {
      var x := s.slots[id].milestone;
      var a := FindAccepted(s, id).value;
      var supplier := s.orders[x.orderId].supplier;
      var b := Transfer(s.balances, a.funder, supplier, a.principal).value;
      var p := Position(id, a.id, a.funder, supplier, a.principal, a.repayment, PositionActive, s.now);
      var o := a.(status := OfferFunded);
      TwinPaid(s, t, b);
      var u, v := s.(balances := b), t.(balances := b);
      TwinWritePosition(u, v, p);
      TwinWriteAccepted(WritePosition(u, p), WritePosition(v, p), id, o);
      TwinWriteMilestone(WriteAccepted(WritePosition(u, p), id, o), WriteAccepted(WritePosition(v, p), id, o),
                         x.(status := Financed), t.slots[id].milestone.(status := Financed));
    }
  }

  lemma ReleaseTwin(s: State, t: State, auth: Auth, id: nat)
    requires Twin(s, t)
    ensures TwinResult(ReleaseExpiredAcceptance(s, auth, id), ReleaseExpiredAcceptance(t, auth, id))
  {
    hide Twin, WriteMilestone, WriteRequest, WriteOffer, RemoveAccepted, FindAccepted, FindPosition, FindRequest;
    TwinFields(s, t);
    TwinRead(s, t, id);
    if ReleaseExpiredAcceptance(s, auth, id).Ok? {
      var x := s.slots[id].milestone;
      var y := t.slots[id].milestone;
      var a := FindAccepted(s, id).value;
      var request := FindRequest(s, id).value;
      TwinWriteAccepted(s, t, id, a);
      var u, v := RemoveAccepted(s, id, a), RemoveAccepted(t, id, a);
      TwinFields(u, v);
      if a.id in u.offers {
        var entry := u.offers[a.id].(status := OfferCancelled);
        TwinWriteOffers(u, v, entry, 0, []);
        u, v := WriteOffer(u, entry), WriteOffer(v, entry);
      }
      if IsLive(s.now, request.expiresAt) {
        TwinWriteRequest(u, v, request.(status := RequestOpen));
      } else {
        TwinWriteMilestone(u, v, x.(status := Funded), y.(status := Funded));
        TwinWriteRequest(WriteMilestone(u, x.(status := Funded)), WriteMilestone(v, y.(status := Funded)),
                         request.(status := RequestCancelled));
      }
    }
  }

  lemma CancelFinanceRequestTwin(s: State, t: State, auth: Auth, id: nat)
    requires Twin(s, t)
    ensures TwinResult(CancelFinanceRequest(s, auth, id), CancelFinanceRequest(t, auth, id))
  {
    hide Twin, WriteMilestone, WriteRequest, WriteMilestoneOffers, FindAccepted, FindPosition, FindRequest;
    TwinFields(s, t);
    TwinRead(s, t, id);
    if CancelFinanceRequest(s, auth, id).Ok? {
      var x := s.slots[id].milestone.(status := Funded);
      var y := t.slots[id].milestone.(status := Funded);
      var request := FindRequest(s, id).value.(status := RequestCancelled);
      TwinWriteRequest(s, t, request);
      TwinWriteMilestone(WriteRequest(s, request), WriteRequest(t, request), x, y);
      TwinWriteOffers(WriteMilestone(WriteRequest(s, request), x), WriteMilestone(WriteRequest(t, request), y),
                      NoOffer(s), id, []);
    }
  }

  lemma EvidenceCallsTwin(s: State, t: State, auth: Auth, id: nat, evidence: Digest)
    requires Twin(s, t)
    ensures TwinResult(SubmitEvidence(s, auth, id, evidence), SubmitEvidence(t, auth, id, evidence))
    ensures TwinResult(AttestMilestone(s, auth, id, evidence), AttestMilestone(t, auth, id, evidence))
  {
    hide Twin, WriteMilestone;
    TwinFields(s, t);
    TwinRead(s, t, id);
    if id in s.slots {
      var x := s.slots[id].milestone;
      var y := t.slots[id].milestone;
      TwinWriteMilestone(s, t, x.(evidence := Some(evidence), status := Submitted),
                         y.(evidence := Some(evidence), status := Submitted));
      TwinWriteMilestone(s, t, x.(status := Verified), y.(status := Verified));
    }
  }

  lemma PayOutTwin(s: State, t: State, order: Order, x: Milestone, y: Milestone, position: Option<Position>,
                   w: Waterfall)
    requires Twin(s, t) && TwinMilestone(x, y)
    ensures var r := PayOut(s, order, x, position, w); var q := PayOut(t, order, y, position, w);
            match r
            case Err(e) => q == Err(e)
            case Ok(p) => q.Ok? && Twin(p.0, q.value.0) && TwinMilestone(p.1, q.value.1)
  {
    hide Twin, Release, TwinMilestone;
    if w.funderRepayment > 0 && position.Some? {
      TwinRelease(s, t, x, y, position.value.funder, w.funderRepayment);
      var r, q := Release(s, x, position.value.funder, w.funderRepayment), Release(t, y, position.value.funder,
              w.funderRepayment);
      if r.Ok? {
        TwinRelease(r.value.0, q.value.0, r.value.1, q.value.1, order.supplier, w.supplierPayout);
      }
    } else {
      TwinRelease(s, t, x, y, order.supplier, w.supplierPayout);
    }
  }

  lemma SettleMilestoneTwin(s: State, t: State, auth: Auth, id: nat, caller: Address)
    requires Twin(s, t)
    ensures TwinResult(SettleMilestone(s, auth, id, caller), SettleMilestone(t, auth, id, caller))
  {
    hide Twin, WriteMilestone, WritePosition, FindPosition, PayOut, CompleteOrderIfFinished;
    TwinFields(s, t);
    TwinRead(s, t, id);
    if id in s.slots && s.slots[id].milestone.orderId in s.orders {
      var x := s.slots[id].milestone;
      var y := t.slots[id].milestone;
      var order := s.orders[x.orderId];
      var position := FindPosition(s, id);
      if Compute(x, position).Ok? {
        var w := Compute(x, position).value;
        PayOutTwin(s, t, order, x, y, position, w);
        var r, q := PayOut(s, order, x, position, w), PayOut(t, order, y, position, w);
        if r.Ok? {
          var u, v := r.value.0, q.value.0;
          if position.Some? && position.value.status == PositionActive {
            TwinWritePosition(u, v, position.value.(status := PositionRepaid));
            u, v := WritePosition(u, position.value.(status := PositionRepaid)),
                    WritePosition(v, position.value.(status := PositionRepaid));
          }
          var xs, ys := r.value.1.(status := Settled), q.value.1.(status := Settled);
          TwinWriteMilestone(u, v, xs, ys);
          TwinCompletion(WriteMilestone(u, xs), WriteMilestone(v, ys), order);
        }
      }
    }
  }

  lemma OpenDisputeTwin(s: State, t: State, auth: Auth, id: nat, caller: Address)
    requires Twin(s, t)
    ensures TwinResult(OpenDispute(s, auth, id, caller), OpenDispute(t, auth, id, caller))
  {
    hide Twin, WriteMilestone, WriteDispute, FindMilestoneDispute;
    TwinFields(s, t);
    TwinRead(s, t, id);
    if OpenDispute(s, auth, id, caller).Ok? {
      var x := s.slots[id].milestone.(status := Disputed);
      var y := t.slots[id].milestone.(status := Disputed);
      var disputeId := s.disputeCount + 1;
      var dispute := Dispute(disputeId, id, caller, s.orders[x.orderId].resolver, DisputeOpen, s.now);
      TwinCounters(s, t, s.orderCount, s.milestoneCount, s.offerCount, disputeId);
      var u, v := s.(disputeCount := disputeId), t.(disputeCount := disputeId);
      TwinWriteDispute(u, v, dispute);
      TwinWriteMilestone(WriteDispute(u, dispute), WriteDispute(v, dispute), x, y);
    }
  }

  lemma UpholdTwin(s: State, t: State, auth: Auth, id: nat)
    requires Twin(s, t)
    ensures TwinResult(ResolveDispute(s, auth, id, Settle), ResolveDispute(t, auth, id, Settle))
  {
    hide Twin, WriteMilestone, WriteDispute, FindMilestoneDispute, CompleteOrderIfFinished;
    TwinFields(s, t);
    TwinRead(s, t, id);
    if ResolveDispute(s, auth, id, Settle).Ok? {
      var x := s.slots[id].milestone.(status := Verified);
      var y := t.slots[id].milestone.(status := Verified);
      TwinWriteMilestone(s, t, x, y);
      TwinWriteDispute(WriteMilestone(s, x), WriteMilestone(t, y),
                       FindMilestoneDispute(s, id).value.(status := ResolvedSettle));
    }
  }

  lemma RefundTwin(s: State, t: State, auth: Auth, id: nat)
    requires Twin(s, t)
    ensures TwinResult(ResolveDispute(s, auth, id, Refund), ResolveDispute(t, auth, id, Refund))
  {
    hide Twin, WriteMilestone, WriteDispute, WritePosition, FindMilestoneDispute, FindPosition;
    hide CompleteOrderIfFinished, Release;
    TwinFields(s, t);
    TwinRead(s, t, id);
    if id in s.slots && s.slots[id].milestone.orderId in s.orders && FindMilestoneDispute(s, id).Some? {
      var x := s.slots[id].milestone;
      var y := t.slots[id].milestone;
      var order := s.orders[x.orderId];
      var position := FindPosition(s, id);
      var dispute := FindMilestoneDispute(s, id).value.(status := ResolvedRefund);
      var u, v := s, t;
      if position.Some? && position.value.status == PositionActive {
        TwinWritePosition(s, t, position.value.(status := PositionClosed));
        u, v := WritePosition(s, position.value.(status := PositionClosed)),
                WritePosition(t, position.value.(status := PositionClosed));
      }
      TwinRelease(u, v, x, y, order.buyer, x.funded);
      var r, q := Release(u, x, order.buyer, x.funded), Release(v, y, order.buyer, x.funded);
      if r.Ok? {
        var xs, ys := r.value.1.(status := Refunded), q.value.1.(status := Refunded);
        TwinWriteMilestone(r.value.0, q.value.0, xs, ys);
        u, v := WriteMilestone(r.value.0, xs), WriteMilestone(q.value.0, ys);
        TwinWriteDispute(u, v, dispute);
        TwinCompletion(WriteDispute(u, dispute), WriteDispute(v, dispute), order);
      }
    }
  }

  // ---- any call, any step, any run --------------------------------------------------------------

  lemma CallTwin(s: State, t: State, auth: Auth, call: Call, twin: Call)
    requires Twin(s, t) && TwinCall(s.now, call, twin)
    ensures TwinResult(Execute(s, auth, call), Execute(t, auth, twin))
  {
    hide Twin, CreateOrder, CreateMilestone, AcceptOrder, CancelOrder, FundMilestone, CancelPartialFunding;
    hide RequestFinance, MakeOffer, CancelOffer, AcceptOffer, FundAdvance, ReleaseExpiredAcceptance;
    hide CancelFinanceRequest, SubmitEvidence, AttestMilestone, SettleMilestone, OpenDispute, ResolveDispute;
    hide Acceptable;
    match call {
      case CallCreateOrder(buyer, supplier, attestor, resolver) =>
        CreateOrderTwin(s, t, auth, buyer, supplier, attestor, resolver);
      case CallCreateMilestone(orderId, amount, deadline) =>
        CreateMilestoneTwin(s, t, auth, orderId, amount, deadline, twin.deadline);
      case CallAcceptOrder(orderId) => OrderStatusTwin(s, t, auth, orderId);
      case CallCancelOrder(orderId) => OrderStatusTwin(s, t, auth, orderId);
      case CallFundMilestone(id, amount, asset) => FundMilestoneTwin(s, t, auth, id, amount, asset);
      case CallCancelPartialFunding(id) => CancelPartialFundingTwin(s, t, auth, id);
      case CallRequestFinance(id, principal, expiresAt) => RequestFinanceTwin(s, t, auth, id, principal, expiresAt);
      case CallMakeOffer(id, funder, principal, repayment, expiresAt) =>
        MakeOfferTwin(s, t, auth, id, funder, principal, repayment, expiresAt);
      case CallCancelOffer(offerId) => CancelOfferTwin(s, t, auth, offerId);
      case CallAcceptOffer(offerId) => AcceptOfferTwin(s, t, auth, offerId);
      case CallFundAdvance(id) => FundAdvanceTwin(s, t, auth, id);
      case CallReleaseExpiredAcceptance(id) => ReleaseTwin(s, t, auth, id);
      case CallCancelFinanceRequest(id) => CancelFinanceRequestTwin(s, t, auth, id);
      case CallSubmitEvidence(id, evidence) => EvidenceCallsTwin(s, t, auth, id, evidence);
      case CallAttestMilestone(id, evidence) => EvidenceCallsTwin(s, t, auth, id, evidence);
      case CallSettleMilestone(id, caller) => SettleMilestoneTwin(s, t, auth, id, caller);
      case CallOpenDispute(id, caller) => OpenDisputeTwin(s, t, auth, id, caller);
      case CallResolveDispute(id, resolution) =>
        if resolution == Settle {
          UpholdTwin(s, t, auth, id);
        } else {
          RefundTwin(s, t, auth, id);
        }
    }
  }

  predicate TwinAction(now: U64, a: Action, b: Action) {
    if a.Invoke? then b.Invoke? && b.auth == a.auth && TwinCall(now, a.call, b.call) else b == a
  }

  predicate TwinLog(log: seq<Stamped>, other: seq<Stamped>) {
    |log| == |other| && forall i | 0 <= i < |log| :: other[i].at == log[i].at && TwinEvent(log[i].event, other[i].event)
  }

  lemma StepTwin(s: State, t: State, a: Action, b: Action)
    requires Twin(s, t) && TwinAction(s.now, a, b)
    ensures Twin(Step(s, a).0, Step(t, b).0) && TwinLog(Step(s, a).1, Step(t, b).1)
  {
    hide Twin, Execute, TwinCall, Transfer, TwinEvent;
    TwinFields(s, t);
    match a {
      case Invoke(auth, call) => CallTwin(s, t, auth, call, b.call);
      case _ => EnvironmentTwin(s, t, a);
    }
  }

  lemma EnvironmentTwin(s: State, t: State, a: Action)
    requires Twin(s, t) && !a.Invoke?
    ensures Twin(Step(s, a).0, Step(t, a).0) && TwinLog(Step(s, a).1, Step(t, a).1)
  {
    hide Transfer;
  }

  /** Two invocations return alike: the same error, or the same value. */
  predicate SameAnswer(s: State, a: Action, t: State, b: Action) {
    a.Invoke? ==> b.Invoke? && TwinResult(Execute(s, a.auth, a.call), Execute(t, b.auth, b.call))
  }

  lemma AnswerTwin(s: State, t: State, a: Action, b: Action)
    requires Twin(s, t) && TwinAction(s.now, a, b)
    ensures SameAnswer(s, a, t, b)
  {
    hide Twin, Execute, TwinCall, TwinResult;
    if a.Invoke? {
      CallTwin(s, t, a.auth, a.call, b.call);
    }
  }

  /** Two runs from the same deployment whose actions differ in milestone deadlines only, each deadline
      acceptable in one exactly when it is in the other, go through the same states, return the same results
      and publish the same events, but for the deadline fields themselves. */
  lemma {:induction false} DeadlinesAreInert(r: Trace, q: Trace, n: nat)
    requires r.IsPath() && q.IsPath() && q.states[0] == r.states[0] && n < |r.states| && n < |q.states|
    requires forall i | 0 <= i < n :: TwinAction(r.states[i].now, r.actions[i], q.actions[i])
    ensures Twin(r.states[n], q.states[n])
    ensures forall i | 0 <= i < n :: TwinLog(r.logs[i], q.logs[i])
    ensures forall i | 0 <= i < n :: SameAnswer(r.states[i], r.actions[i], q.states[i], q.actions[i])
  {
    hide Step, Execute, SameAnswer, TwinLog, TwinAction;
    if n == 0 {
      TwinSelf(r.states[0]);
    } else {
      DeadlinesAreInert(r, q, n - 1);
      hide Twin;
      assert Next(r.states[n - 1], r.actions[n - 1], r.states[n], r.logs[n - 1]);
      assert Next(q.states[n - 1], q.actions[n - 1], q.states[n], q.logs[n - 1]);
      assert TwinAction(r.states[n - 1].now, r.actions[n - 1], q.actions[n - 1]);
      StepTwin(r.states[n - 1], q.states[n - 1], r.actions[n - 1], q.actions[n - 1]);
      AnswerTwin(r.states[n - 1], q.states[n - 1], r.actions[n - 1], q.actions[n - 1]);
    }
  }

  lemma TwinSelf(s: State)
    ensures Twin(s, s)
  {
  }
}
