/** What a successful call does, told as one change to one milestone and its consequences. */
module Effects {
  import opened Wrappers
  import opened Types
  import opened Sums
  import opened Token
  import opened Storage
  import opened Escrow
  import opened Financing
  import opened Settlement
  import opened Core
  import opened Lifecycle
  import opened Invariant

  // ---- tokens ---------------------------------------------------------------------------------

  function Credit(a: Address, who: Address, amount: int): int {
    if a == who then amount else 0
  }

  /** What the funder is owed first out of the milestone's escrow. */
  function OwedToFunder(x: Slot): int {
    if x.position.Some? && x.position.value.status == PositionActive then x.position.value.repayment else 0
  }

  /** Net tokens address `a` receives through a change. */
  function Flow(self: Address, order: Order, x: Slot, c: Change, a: Address): int {
    var held := x.milestone.funded;
    match c
    case Deposited(amount) => Credit(a, self, amount) - Credit(a, order.buyer, amount)
    case Unwound => Credit(a, order.buyer, held) - Credit(a, self, held)
    case Advanced(_) =>
      if x.accepted.None? then 0
      else var o := x.accepted.value; Credit(a, order.supplier, o.principal) - Credit(a, o.funder, o.principal)
    case Paid =>
      var owed := OwedToFunder(x);
      (if owed > 0 && x.position.Some? then Credit(a, x.position.value.funder, owed) else 0)
         + Credit(a, order.supplier, held - owed) - Credit(a, self, held)
    case Returned => Credit(a, order.buyer, held) - Credit(a, self, held)
    case _ => 0
  }

  ghost predicate MovesTokens(s: State, t: State, order: Order, x: Slot, c: Change) {
    && BalancesOk(t.balances) && Supply(t.balances) == Supply(s.balances) && t.donated == s.donated
    && forall a :: Balance(t.balances, a) == Balance(s.balances, a) + Flow(s.self, order, x, c, a)
  }

  // ---- the records beside the milestone -------------------------------------------------------

  predicate MovesDisputes(s: State, t: State, x: Slot, c: Change) {
    match c
    case Contested(d) =>
      && s.disputeCount < U64_MAX && d.id == s.disputeCount + 1 && t.disputeCount == d.id
      && t.disputes == s.disputes[d.id := d]
    case Upheld =>
      && t.disputeCount == s.disputeCount && x.dispute.Some? && x.dispute.value in s.disputes
      && var d := s.disputes[x.dispute.value];
         t.disputes == s.disputes[d.id := d.(status := ResolvedSettle)]
    case Returned =>
      && t.disputeCount == s.disputeCount && x.dispute.Some? && x.dispute.value in s.disputes
      && var d := s.disputes[x.dispute.value];
         t.disputes == s.disputes[d.id := d.(status := ResolvedRefund)]
    case _ => t.disputes == s.disputes && t.disputeCount == s.disputeCount
  }

  predicate MovesOffers(s: State, t: State, x: Slot, c: Change) {
    && t.offerCount == s.offerCount
    && match c
       case Selected(o) =>
         && o.id in s.history && s.history[o.id] == o.(status := OfferOpen)
         && t.history == s.history[o.id := o] && t.offers == s.offers[o.id := o]
       case Advanced(_) =>
         && x.accepted.Some?
         && t.history == s.history[x.accepted.value.id := x.accepted.value.(status := OfferFunded)]
         && t.offers == s.offers
       case Lapsed(_) =>
         && x.accepted.Some?
         && var gone := x.accepted.value.(status := OfferCancelled);
            && t.history == s.history[gone.id := gone]
            && t.offers == if gone.id in s.offers then s.offers[gone.id := gone] else s.offers
       case _ => t.history == s.history && t.offers == s.offers
  }

  /** Only the last payout or refund completes the order. */
  predicate Completes(t: State, order: Order, c: Change) {
    (c.Paid? || c.Returned?) && AllTerminal(t, ReadOrderMilestones(t, order.id))
  }

  predicate MovesOrders(s: State, t: State, order: Order, c: Change) {
    t.orders == if Completes(t, order, c) then s.orders[order.id := order.(status := Completed)] else s.orders
  }

  /** `t` is `s` after change `c` of milestone `id`, and nothing more. */
  ghost predicate Makes(s: State, t: State, id: nat, c: Change) {
    && id in s.slots && s.slots[id].milestone.orderId in s.orders
    && var x := s.slots[id]; var order := s.orders[x.milestone.orderId];
    && Enabled(s.self, order, x, c)
    && t.slots == s.slots[id := Changed(s.self, order, x, c)]
    && t.self == s.self && t.config == s.config && t.now == s.now && t.lists == s.lists
    && t.orderCount == s.orderCount && t.milestoneCount == s.milestoneCount
    && MovesDisputes(s, t, x, c) && MovesOffers(s, t, x, c)
    && MovesOrders(s, t, order, c) && MovesTokens(s, t, order, x, c)
  }

  // ---- the events a change publishes ----------------------------------------------------------

  function OutstandingAdvance(x: Slot): I128 {
    if x.position.Some? && x.position.value.status == PositionActive then x.position.value.principal else 0
  }

  function EventsOf(self: Address, order: Order, x: Slot, d: Option<Dispute>, c: Change, completes: bool)
    : seq<Event>
    requires SlotOk(self, order, x, d) && Enabled(self, order, x, c)
  {
    var m := x.milestone;
    match c
    case Deposited(amount) =>
      [MilestoneFunded(m.orderId, m.id, order.buyer, amount, m.funded + amount, m.funded + amount == m.amount)]
    case Unwound => [PartialFundingCancelled(m.orderId, m.id, order.buyer, m.funded)]
    case Requested(principal, expiresAt, _) =>
      [FinanceRequestOpened(m.id, order.supplier, principal, m.funded, expiresAt)]
    case Withdrawn(wasExpired) => [FinanceRequestClosed(m.id, order.supplier, wasExpired)]
    case Selected(o) => [FundingOfferAccepted(m.id, o.id, o.funder, o.principal, o.repayment)]
    case Advanced(_) =>
      var a := x.accepted.value;
      [AdvanceFunded(m.id, a.id, a.funder, order.supplier, a.principal, a.repayment, m.funded)]
    case Lapsed(reopened) =>
      var a := x.accepted.value;
      [AcceptanceReleased(m.id, a.id, order.supplier, a.funder, reopened)]
    case Evidenced(digest) => [EvidenceSubmitted(m.id, order.supplier, digest, m.evidence.Some?)]
    case Attested => [MilestoneVerified(m.id, order.attestor, m.evidence.value)]
    case Paid =>
      [MilestoneSettled(m.orderId, m.id, m.funded, OwedToFunder(x), m.funded - OwedToFunder(x))]
      + Completion(order, completes)
    case Contested(dispute) => [DisputeOpened(m.id, dispute.id, dispute.openedBy, order.resolver)]
    case Upheld => [DisputeResolved(m.id, d.value.id, order.resolver, true)]
    case Returned =>
      [MilestoneRefunded(m.orderId, m.id, order.buyer, m.funded, OutstandingAdvance(x)),
       DisputeResolved(m.id, d.value.id, order.resolver, false)]
      + Completion(order, completes)
  }

  function Completion(order: Order, completes: bool): seq<Event> {
    if completes then [OrderCompleted(order.id)] else []
  }

  /** A call that returned `d` made change `c` of milestone `id` and published what the change says. */
  ghost predicate Realises<T>(s: State, d: Done<T>, id: nat, c: Change) {
    && Makes(s, d.state, id, c)
    && var x := s.slots[id]; var order := s.orders[x.milestone.orderId];
    && SlotOk(s.self, order, x, FindMilestoneDispute(s, id))
    && d.events == EventsOf(s.self, order, x, FindMilestoneDispute(s, id), c, Completes(d.state, order, c))
  }

  /** Whether the milestone has a request that is still live at `now`. */
  predicate RequestLives(now: U64, x: Slot) {
    x.request.Some? && now < x.request.value.expiresAt
  }

  // ---- call by call ---------------------------------------------------------------------------

  lemma SubmitEvidenceRealises(s: State, auth: Auth, id: nat, evidence: Digest)
    requires Consistent(s) && SubmitEvidence(s, auth, id, evidence).Ok?
    ensures Realises(s, SubmitEvidence(s, auth, id, evidence).value, id, Evidenced(evidence))
  {
    hide KeysOk, OrdersOk, ListsOk, OffersOk, DisputesOk, SlotOk;
    assert MilestoneOk(s, id);
  }

  lemma AttestMilestoneRealises(s: State, auth: Auth, id: nat, evidence: Digest)
    requires Consistent(s) && AttestMilestone(s, auth, id, evidence).Ok?
    ensures Realises(s, AttestMilestone(s, auth, id, evidence).value, id, Attested)
  {
    hide KeysOk, OrdersOk, ListsOk, OffersOk, DisputesOk, SlotOk;
    assert MilestoneOk(s, id);
  }

  /** What a successful deposit writes, given that the milestone names itself. */
  lemma FundMilestoneWrites(s: State, auth: Auth, id: nat, amount: I128, asset: Address)
    requires FundMilestone(s, auth, id, amount, asset).Ok? && id in s.slots && s.slots[id].milestone.id == id
    ensures s.slots[id].milestone.orderId in s.orders
    ensures var x := s.slots[id]; var order := s.orders[x.milestone.orderId];
            var r := FundMilestone(s, auth, id, amount, asset).value;
            && Enabled(s.self, order, x, Deposited(amount))
            && Transfer(s.balances, order.buyer, s.self, amount).Ok?
            && r.state == s.(slots := s.slots[id := Changed(s.self, order, x, Deposited(amount))],
                             balances := Transfer(s.balances, order.buyer, s.self, amount).value)
            && r.events == [MilestoneFunded(x.milestone.orderId, id, order.buyer, amount, x.milestone.funded + amount,
                                            x.milestone.funded + amount == x.milestone.amount)]
  {
    hide Transfer;
  }

  lemma FundMilestoneRealises(s: State, auth: Auth, id: nat, amount: I128, asset: Address)
    requires Consistent(s) && FundMilestone(s, auth, id, amount, asset).Ok?
    ensures Realises(s, FundMilestone(s, auth, id, amount, asset).value, id, Deposited(amount))
  {
    hide FundMilestone, KeysOk, OrdersOk, ListsOk, OffersOk, DisputesOk, SlotOk, Transfer, Supply;
    DepositReads(s, auth, id, amount, asset);
    assert MilestoneOk(s, id);
    FundMilestoneWrites(s, auth, id, amount, asset);
    TransferMoves(s.balances, s.orders[s.slots[id].milestone.orderId].buyer, s.self, amount);
  }

  lemma DepositReads(s: State, auth: Auth, id: nat, amount: I128, asset: Address)
    requires FundMilestone(s, auth, id, amount, asset).Ok?
    ensures id in s.slots
  {
  }

  lemma CancelPartialFundingRealises(s: State, auth: Auth, id: nat)
    requires Consistent(s) && CancelPartialFunding(s, auth, id).Ok?
    ensures Realises(s, CancelPartialFunding(s, auth, id).value, id, Unwound)
  {
    hide KeysOk, OrdersOk, ListsOk, OffersOk, DisputesOk, SlotOk;
    assert MilestoneOk(s, id);
    TransferMoves(s.balances, s.self, s.orders[s.slots[id].milestone.orderId].buyer, s.slots[id].milestone.funded);
  }

  lemma SeekingMeans(self: Address, order: Order, x: Slot, d: Option<Dispute>)
    requires SlotOk(self, order, x, d) && x.milestone.status == FinanceRequested
    ensures x.request.Some? && x.position.None? && d.None? && x.milestone.evidence.None?
    ensures x.request.value.milestoneId == x.milestone.id
    ensures x.request.value.status == RequestAccepted <==> x.accepted.Some?
    ensures x.request.value.status == RequestOpen <==> x.accepted.None?
    ensures x.accepted.Some? ==>
              && x.accepted.value.status == OfferAccepted && x.accepted.value.milestoneId == x.milestone.id
              && TermsOk(self, order, x.milestone, x.accepted.value)
    ensures x.milestone.funded == x.milestone.amount > 0
  {
  }

  lemma RequestFinanceRealises(s: State, auth: Auth, id: nat, principal: I128, expiresAt: U64)
    requires Consistent(s) && RequestFinance(s, auth, id, principal, expiresAt).Ok?
    ensures Realises(s, RequestFinance(s, auth, id, principal, expiresAt).value, id, Requested(principal, expiresAt,
            s.now))
  {
    hide KeysOk, OrdersOk, ListsOk, OffersOk, DisputesOk, SlotOk, ValidateExpiry;
    assert MilestoneOk(s, id);
    var x := s.slots[id];
    var order := s.orders[x.milestone.orderId];
    var c := Requested(principal, expiresAt, s.now);
    var t := RequestFinance(s, auth, id, principal, expiresAt).value.state;
    assert Enabled(s.self, order, x, c) by {
      if x.milestone.status == FinanceRequested {
        SeekingMeans(s.self, order, x, FindMilestoneDispute(s, id));
      }
    }
    assert t.slots == s.slots[id := Changed(s.self, order, x, c)];
  }

  lemma CancelFinanceRequestRealises(s: State, auth: Auth, id: nat)
    requires Consistent(s) && CancelFinanceRequest(s, auth, id).Ok?
    ensures id in s.slots && s.slots[id].request.Some?
    ensures Realises(s, CancelFinanceRequest(s, auth, id).value, id, Withdrawn(!RequestLives(s.now, s.slots[id])))
    ensures CancelFinanceRequest(s, auth, id).value.value <==> !RequestLives(s.now, s.slots[id])
  {
    hide KeysOk, OrdersOk, ListsOk, OffersOk, DisputesOk, SlotOk;
    assert MilestoneOk(s, id);
    var x := s.slots[id];
    SeekingMeans(s.self, s.orders[x.milestone.orderId], x, FindMilestoneDispute(s, id));
  }

  /** What a successful dispute writes, given that the milestone names itself. */
  lemma OpenDisputeWrites(s: State, auth: Auth, id: nat, caller: Address)
    requires OpenDispute(s, auth, id, caller).Ok? && id in s.slots && s.slots[id].milestone.id == id
    ensures s.slots[id].milestone.orderId in s.orders && s.disputeCount < U64_MAX
    ensures var x := s.slots[id]; var order := s.orders[x.milestone.orderId];
            var d := Dispute(s.disputeCount + 1, id, caller, order.resolver, DisputeOpen, s.now);
            var r := OpenDispute(s, auth, id, caller).value;
            && Enabled(s.self, order, x, Contested(d))
            && r.state == s.(disputeCount := d.id, disputes := s.disputes[d.id := d],
                             slots := s.slots[id := Changed(s.self, order, x, Contested(d))])
            && r.events == [DisputeOpened(id, d.id, caller, order.resolver)]
  {
    hide FindMilestoneDispute;
  }

  lemma OpenDisputeRealises(s: State, auth: Auth, id: nat, caller: Address)
    requires Consistent(s) && OpenDispute(s, auth, id, caller).Ok?
    ensures Realises(s, OpenDispute(s, auth, id, caller).value, id,
              Contested(Dispute(s.disputeCount + 1, id, caller, s.orders[s.slots[id].milestone.orderId].resolver,
                                DisputeOpen, s.now)))
  {
    hide OpenDispute, KeysOk, OrdersOk, ListsOk, OffersOk, DisputesOk, SlotOk;
    DisputeReads(s, auth, id, caller);
    assert MilestoneOk(s, id);
    OpenDisputeWrites(s, auth, id, caller);
  }

  lemma DisputeReads(s: State, auth: Auth, id: nat, caller: Address)
    requires OpenDispute(s, auth, id, caller).Ok?
    ensures id in s.slots
  {
  }

  /** A temporary entry repeats the history, status included, unless its advance was funded. */
  lemma EntryMeans(s: State, offerId: nat)
    requires KeysOk(s) && OffersOk(s) && offerId in s.offers
    ensures offerId in s.history
    ensures var h := s.history[offerId]; var o := s.offers[offerId];
            && o.id == offerId && o == h.(status := o.status)
            && (o.status != OfferAccepted ==> o == h)
            && h.milestoneId in s.slots && s.slots[h.milestoneId].milestone.orderId in s.orders
            && var m := s.slots[h.milestoneId].milestone; TermsOk(s.self, s.orders[m.orderId], m, h)
  {
    assert OfferOk(s, offerId);
  }

  /** What a successful acceptance writes, given that the records it reads name themselves. */
  lemma AcceptOfferWrites(s: State, auth: Auth, offerId: nat)
    requires AcceptOffer(s, auth, offerId).Ok?
    requires offerId in s.offers && s.offers[offerId].id == offerId
    requires var m := s.offers[offerId].milestoneId;
             m in s.slots ==> s.slots[m].request.Some? ==> s.slots[m].request.value.milestoneId == m
    ensures var o := s.offers[offerId]; var chosen := o.(status := OfferAccepted); var id := o.milestoneId;
            && id in s.slots && s.slots[id].milestone.orderId in s.orders
            && var x := s.slots[id]; var order := s.orders[x.milestone.orderId];
            && order.status == Active && x.milestone.status == FinanceRequested && o.status == OfferOpen
            && x.accepted.None? && x.request.Some?
            && AcceptOffer(s, auth, offerId).value ==
               Done(s.(slots := s.slots[id := WithRequest(x, RequestAccepted).(accepted := Some(chosen))],
                       offers := s.offers[offerId := chosen],
                       history := s.history[offerId := chosen]), (),
                    [FundingOfferAccepted(id, offerId, o.funder, o.principal, o.repayment)])
  {
    var o := s.offers[offerId];
    var id := o.milestoneId;
    var x := s.slots[id];
    var chosen := o.(status := OfferAccepted);
    var t := AcceptOffer(s, auth, offerId).value.state;
    assert t.slots == s.slots[id := WithRequest(x, RequestAccepted).(accepted := Some(chosen))];
    assert t.history == s.history[offerId := chosen];
  }

  lemma AcceptOfferRealises(s: State, auth: Auth, offerId: nat)
    requires Consistent(s) && AcceptOffer(s, auth, offerId).Ok?
    ensures offerId in s.offers
    ensures Realises(s, AcceptOffer(s, auth, offerId).value, s.offers[offerId].milestoneId,
                     Selected(s.offers[offerId].(status := OfferAccepted)))
  {
    hide AcceptOffer, OrdersOk, ListsOk, DisputesOk, SlotOk, TermsOk;
    ReadsOffer(s, auth, offerId);
    EntryMeans(s, offerId);
    hide KeysOk, OffersOk;
    var id := s.offers[offerId].milestoneId;
    assert MilestoneOk(s, id);
    RequestNamed(s, id);
    AcceptOfferWrites(s, auth, offerId);
    TermsIgnoreStatus(s.self, s.orders[s.slots[id].milestone.orderId], s.slots[id].milestone,
                      s.history[offerId], OfferAccepted);
  }

  lemma ReadsOffer(s: State, auth: Auth, offerId: nat)
    requires AcceptOffer(s, auth, offerId).Ok?
    ensures offerId in s.offers
  {
  }

  lemma RequestNamed(s: State, id: nat)
    requires id in s.slots && MilestoneOk(s, id)
    ensures s.slots[id].request.Some? ==> s.slots[id].request.value.milestoneId == id
  {
  }

  lemma TermsIgnoreStatus(self: Address, order: Order, m: Milestone, offer: Offer, status: OfferStatus)
    ensures TermsOk(self, order, m, offer.(status := status)) == TermsOk(self, order, m, offer)
  {
  }

  /** What a successful advance writes, given that the milestone names itself. */
  lemma FundAdvanceWrites(s: State, auth: Auth, id: nat)
    requires FundAdvance(s, auth, id).Ok? && id in s.slots && s.slots[id].milestone.id == id
    ensures var x := s.slots[id];
            && x.milestone.orderId in s.orders && x.accepted.Some?
            && var order := s.orders[x.milestone.orderId]; var r := FundAdvance(s, auth, id).value;
            && Enabled(s.self, order, x, Advanced(s.now)) && order.status == Active && x.accepted.value.principal > 0
            && Transfer(s.balances, x.accepted.value.funder, order.supplier, x.accepted.value.principal).Ok?
            && r.state ==
               s.(slots := s.slots[id := Changed(s.self, order, x, Advanced(s.now))],
                  history := s.history[x.accepted.value.id := x.accepted.value.(status := OfferFunded)],
                  balances :=
                    Transfer(s.balances, x.accepted.value.funder, order.supplier, x.accepted.value.principal).value)
            && r.events ==
               [AdvanceFunded(id, x.accepted.value.id, x.accepted.value.funder, order.supplier,
                              x.accepted.value.principal, x.accepted.value.repayment, x.milestone.funded)]
  {
    hide Transfer;
  }

  lemma FundAdvanceRealises(s: State, auth: Auth, id: nat)
    requires Consistent(s) && FundAdvance(s, auth, id).Ok?
    ensures Realises(s, FundAdvance(s, auth, id).value, id, Advanced(s.now))
  {
    hide FundAdvance, KeysOk, OrdersOk, ListsOk, OffersOk, DisputesOk, SlotOk, Transfer, Supply;
    AdvanceReads(s, auth, id);
    assert MilestoneOk(s, id);
    FundAdvanceWrites(s, auth, id);
    var a := s.slots[id].accepted.value;
    TransferMoves(s.balances, a.funder, s.orders[s.slots[id].milestone.orderId].supplier, a.principal);
  }

  lemma AdvanceReads(s: State, auth: Auth, id: nat)
    requires FundAdvance(s, auth, id).Ok?
    ensures id in s.slots
  {
  }

  /** What a successful release writes, given that the records it reads name themselves. */
  lemma ReleaseWrites(s: State, auth: Auth, id: nat)
    requires ReleaseExpiredAcceptance(s, auth, id).Ok?
    requires id in s.slots && s.slots[id].milestone.id == id
    requires s.slots[id].request.Some? && s.slots[id].request.value.milestoneId == id
    requires s.slots[id].accepted.Some?
    requires var a := s.slots[id].accepted.value; a.id in s.offers ==> s.offers[a.id] == a
    ensures s.slots[id].milestone.orderId in s.orders
    ensures ReleaseExpiredAcceptance(s, auth, id).value.value <==> RequestLives(s.now, s.slots[id])
    ensures var r := ReleaseExpiredAcceptance(s, auth, id).value;
            var x := s.slots[id]; var order := s.orders[x.milestone.orderId];
            var gone := x.accepted.value.(status := OfferCancelled);
            && order.status == Active && x.milestone.status == FinanceRequested
            && x.accepted.value.status == OfferAccepted
            && r.state ==
               s.(slots := s.slots[id :=
                    if r.value then WithRequest(x, RequestOpen).(accepted := None)
                    else WithStatus(WithRequest(x, RequestCancelled), Funded).(accepted := None)],
                  offers := if gone.id in s.offers then s.offers[gone.id := gone] else s.offers,
                  history := s.history[gone.id := gone])
            && r.events == [AcceptanceReleased(id, gone.id, order.supplier, gone.funder, r.value)]
  {
    var r := ReleaseExpiredAcceptance(s, auth, id).value;
    var x := s.slots[id];
    var gone := x.accepted.value.(status := OfferCancelled);
    assert r.state.slots == s.slots[id :=
                    if r.value then WithRequest(x, RequestOpen).(accepted := None)
                    else WithStatus(WithRequest(x, RequestCancelled), Funded).(accepted := None)];
    assert r.state.history == s.history[gone.id := gone];
  }

  lemma ReleaseExpiredAcceptanceRealises(s: State, auth: Auth, id: nat)
    requires Consistent(s) && ReleaseExpiredAcceptance(s, auth, id).Ok?
    ensures id in s.slots && s.slots[id].request.Some?
    ensures Realises(s, ReleaseExpiredAcceptance(s, auth, id).value, id, Lapsed(RequestLives(s.now, s.slots[id])))
    ensures ReleaseExpiredAcceptance(s, auth, id).value.value <==> RequestLives(s.now, s.slots[id])
  {
    hide ReleaseExpiredAcceptance, KeysOk, OrdersOk, ListsOk, DisputesOk, SlotOk, TermsOk;
    ReleaseReads(s, auth, id);
    assert MilestoneOk(s, id);
    var x := s.slots[id];
    SeekingMeans(s.self, s.orders[x.milestone.orderId], x, FindMilestoneDispute(s, id));
    AcceptedMeans(s, id);
    hide OffersOk;
    ReleaseWrites(s, auth, id);
  }

  /** A standing selection is in the history, and its temporary entry, if any, is the same offer. */
  lemma AcceptedMeans(s: State, id: nat)
    requires OffersOk(s) && id in s.slots && s.slots[id].accepted.Some?
    ensures var a := s.slots[id].accepted.value;
            && a.id in s.history && s.history[a.id] == a
            && (a.id in s.offers && a.status == OfferAccepted ==> s.offers[a.id] == a)
  {
    assert AcceptedOk(s, id);
    assert OfferOk(s, s.slots[id].accepted.value.id);
  }

  lemma ReleaseReads(s: State, auth: Auth, id: nat)
    requires ReleaseExpiredAcceptance(s, auth, id).Ok?
    ensures id in s.slots && s.slots[id].milestone.status == FinanceRequested && s.slots[id].accepted.Some?
    ensures s.slots[id].accepted.value.status == OfferAccepted
  {
  }

  /** A slot whose active position, if any, is covered by its escrow. */
  predicate Covered(x: Slot) {
    && x.milestone.funded > 0
    && (x.position.Some? ==> x.position.value.milestoneId == x.milestone.id)
    && (x.position.Some? && x.position.value.status == PositionActive ==>
          0 < x.position.value.repayment <= x.milestone.funded)
  }

  lemma VerifiedIsCovered(self: Address, order: Order, x: Slot, d: Option<Dispute>)
    requires SlotOk(self, order, x, d) && (x.milestone.status == Verified || x.milestone.status == Disputed)
    ensures Covered(x)
  {
  }

  lemma ComputeIs(x: Slot)
    requires Covered(x)
    ensures Compute(x.milestone, x.position) ==
            Ok(Waterfall(OwedToFunder(x), x.milestone.funded - OwedToFunder(x)))
  {
  }

  /** Paying out empties the milestone's escrow into the two legs. */
  lemma PayOutMoves(s: State, order: Order, x: Slot)
    requires Covered(x) && BalancesOk(s.balances)
    requires PayOut(s, order, x.milestone, x.position,
                    Waterfall(OwedToFunder(x), x.milestone.funded - OwedToFunder(x))).Ok?
    ensures var r := PayOut(s, order, x.milestone, x.position,
                            Waterfall(OwedToFunder(x), x.milestone.funded - OwedToFunder(x))).value;
            && r.0 == s.(balances := r.0.balances) && r.1 == x.milestone.(funded := 0)
            && MovesTokens(s, r.0, order, x, Paid)
  {
    var owed := OwedToFunder(x);
    var rest := x.milestone.funded - owed;
    if owed > 0 {
      TransferMoves(s.balances, s.self, x.position.value.funder, owed);
      if rest > 0 {
        var paid := Transfer(s.balances, s.self, x.position.value.funder, owed).value;
        TransferMoves(paid, s.self, order.supplier, rest);
      }
    } else {
      TransferMoves(s.balances, s.self, order.supplier, rest);
    }
  }

  /** What a successful settlement does, short of the order's completion. */
  lemma SettleWrites(s: State, auth: Auth, id: nat, caller: Address)
    requires SettleMilestone(s, auth, id, caller).Ok? && BalancesOk(s.balances)
    requires id in s.slots && s.slots[id].milestone.id == id
    requires s.slots[id].milestone.status == Verified ==> Covered(s.slots[id])
    ensures var x := s.slots[id];
            && x.milestone.orderId in s.orders
            && var order := s.orders[x.milestone.orderId]; var t := SettleMilestone(s, auth, id, caller).value.state;
            var u := s.(balances := t.balances,
                        slots := s.slots[id := WithStatus(Emptied(WithPosition(x, PositionRepaid)), Settled)]);
            && order.status == Active && x.milestone.status == Verified
            && t == CompleteOrderIfFinished(u, order).state
            && MovesTokens(s, u, order, x, Paid)
            && SettleMilestone(s, auth, id, caller).value.events ==
               [MilestoneSettled(x.milestone.orderId, id, x.milestone.funded, OwedToFunder(x),
                                 x.milestone.funded - OwedToFunder(x))]
               + CompleteOrderIfFinished(u, order).events
  {
    hide CompleteOrderIfFinished, PayOut, Compute, MovesTokens, BalancesOk;
    var x := s.slots[id];
    ComputeIs(x);
    var order := s.orders[x.milestone.orderId];
    var w := Waterfall(OwedToFunder(x), x.milestone.funded - OwedToFunder(x));
    PayOutMoves(s, order, x);
    var paid := PayOut(s, order, x.milestone, x.position, w).value.0;
    var u := paid.(slots := s.slots[id := WithStatus(Emptied(WithPosition(x, PositionRepaid)), Settled)]);
    var written := WriteMilestone(
      if x.position.Some? && x.position.value.status == PositionActive
      then WritePosition(paid, x.position.value.(status := PositionRepaid)) else paid,
      x.milestone.(funded := 0).(status := Settled));
    assert written.slots == u.slots;
    assert SettleMilestone(s, auth, id, caller).value.state == CompleteOrderIfFinished(written, order).state;
    CompletionFrame(u, order);
    MovesTokensFrame(s, paid, u, order, x, Paid);
  }

  /** Completion touches the order's status only, and only when all of its milestones are terminal. */
  lemma CompletionFrame(u: State, order: Order)
    ensures var r := CompleteOrderIfFinished(u, order); var ids := ReadOrderMilestones(u, order.id);
            && r.state == u.(orders := r.state.orders)
            && (ids != [] ==>
                  && r.state.orders == (if AllTerminal(u, ids) then u.orders[order.id := order.(status := Completed)]
                                        else u.orders)
                  && r.events == Completion(order, AllTerminal(u, ids)))
  {
  }

  lemma MovesTokensFrame(s: State, t: State, u: State, order: Order, x: Slot, c: Change)
    requires MovesTokens(s, t, order, x, c) && u.balances == t.balances && u.donated == t.donated
    ensures MovesTokens(s, u, order, x, c)
  {
  }

  /** The list of an order that has been accepted is not empty, and its orders name themselves. */
  lemma OrderFacts(s: State, id: nat)
    requires OrdersOk(s) && id in s.orders
    ensures s.orders[id].id == id
    ensures s.orders[id].status == Active ==> ReadOrderMilestones(s, id) != []
  {
    assert OrderOk(s, id);
  }

  lemma SettleMilestoneRealises(s: State, auth: Auth, id: nat, caller: Address)
    requires Consistent(s) && SettleMilestone(s, auth, id, caller).Ok?
    ensures Realises(s, SettleMilestone(s, auth, id, caller).value, id, Paid)
  {
    hide SettleMilestone, KeysOk, OrdersOk, ListsOk, OffersOk, DisputesOk, SlotOk, BalancesOk, MovesTokens;
    SettleReads(s, auth, id, caller);
    assert MilestoneOk(s, id);
    var x := s.slots[id];
    var order := s.orders[x.milestone.orderId];
    if x.milestone.status == Verified {
      VerifiedIsCovered(s.self, order, x, FindMilestoneDispute(s, id));
    }
    SettleWrites(s, auth, id, caller);
    var t := SettleMilestone(s, auth, id, caller).value.state;
    var u := s.(balances := t.balances,
                slots := s.slots[id := WithStatus(Emptied(WithPosition(x, PositionRepaid)), Settled)]);
    OrderFacts(s, x.milestone.orderId);
    CompletionFrame(u, order);
    hide CompleteOrderIfFinished;
    MovesTokensFrame(s, u, t, order, x, Paid);
  }

  lemma SettleReads(s: State, auth: Auth, id: nat, caller: Address)
    requires SettleMilestone(s, auth, id, caller).Ok?
    ensures id in s.slots
  {
  }

  lemma UpholdRealises(s: State, auth: Auth, id: nat)
    requires Consistent(s) && ResolveDispute(s, auth, id, Settle).Ok?
    ensures Realises(s, ResolveDispute(s, auth, id, Settle).value, id, Upheld)
  {
    hide KeysOk, OrdersOk, ListsOk, OffersOk, DisputesOk, SlotOk, CompleteOrderIfFinished;
    assert MilestoneOk(s, id);
    var x := s.slots[id];
    var t := ResolveDispute(s, auth, id, Settle).value.state;
    assert t.slots == s.slots[id := WithStatus(x, Verified)];
  }

  lemma RefundMoves(s: State, order: Order, x: Slot)
    requires BalancesOk(s.balances) && Transfer(s.balances, s.self, order.buyer, x.milestone.funded).Ok?
    ensures MovesTokens(s, s.(balances := Transfer(s.balances, s.self, order.buyer, x.milestone.funded).value),
                        order, x, Returned)
  {
    TransferMoves(s.balances, s.self, order.buyer, x.milestone.funded);
  }

  /** Closing the position and releasing the escrow, as one step. */
  lemma RefundIs(s: State, id: nat, order: Order, x: Slot)
    requires id in s.slots && s.slots[id] == x && x.milestone.id == id && RefundEscrow(s, id, order, x.milestone).Ok?
    requires x.position.Some? ==> x.position.value.milestoneId == id
    ensures Transfer(s.balances, s.self, order.buyer, x.milestone.funded).Ok?
    ensures var paid := s.(balances := Transfer(s.balances, s.self, order.buyer, x.milestone.funded).value);
            RefundEscrow(s, id, order, x.milestone).value ==
            (paid.(slots := s.slots[id := WithPosition(x, PositionClosed)]), x.milestone.(funded := 0),
             OutstandingAdvance(x))
  {
    hide Transfer;
    assert s.slots == s.slots[id := x];
  }

  /** What a successful refund does, short of the order's completion. */
  lemma ReturnWrites(s: State, auth: Auth, id: nat)
    requires ResolveDispute(s, auth, id, Refund).Ok? && BalancesOk(s.balances)
    requires id in s.slots && s.slots[id].milestone.id == id
    requires s.slots[id].position.Some? ==> s.slots[id].position.value.milestoneId == id
    requires FindMilestoneDispute(s, id).Some? ==>
               var d := FindMilestoneDispute(s, id).value; d.milestoneId == id && Some(d.id) == s.slots[id].dispute
    ensures var x := s.slots[id]; var d := FindMilestoneDispute(s, id);
            && d.Some? && x.milestone.orderId in s.orders
            && var order := s.orders[x.milestone.orderId]; var t := ResolveDispute(s, auth, id, Refund).value.state;
            var u := s.(balances := t.balances,
                        disputes := s.disputes[d.value.id := d.value.(status := ResolvedRefund)],
                        slots := s.slots[id := WithStatus(Emptied(WithPosition(x, PositionClosed)), Refunded)]);
            && order.status == Active && x.milestone.status == Disputed
            && t == CompleteOrderIfFinished(u, order).state
            && MovesTokens(s, u, order, x, Returned)
            && ResolveDispute(s, auth, id, Refund).value.events ==
               [MilestoneRefunded(x.milestone.orderId, id, order.buyer, x.milestone.funded, OutstandingAdvance(x)),
                DisputeResolved(id, d.value.id, order.resolver, false)]
               + CompleteOrderIfFinished(u, order).events
  {
    hide CompleteOrderIfFinished, BalancesOk, Transfer, MovesTokens, RefundEscrow, FindMilestoneDispute;
    var x := s.slots[id];
    var d := FindMilestoneDispute(s, id).value;
    var order := s.orders[x.milestone.orderId];
    RefundIs(s, id, order, x);
    RefundMoves(s, order, x);
    var paid := s.(balances := Transfer(s.balances, s.self, order.buyer, x.milestone.funded).value);
    var u := paid.(disputes := s.disputes[d.id := d.(status := ResolvedRefund)],
                   slots := s.slots[id := WithStatus(Emptied(WithPosition(x, PositionClosed)), Refunded)]);
    var refunded := paid.(slots := s.slots[id := WithPosition(x, PositionClosed)]);
    var written := WriteDispute(WriteMilestone(refunded, x.milestone.(funded := 0).(status := Refunded)),
                                d.(status := ResolvedRefund));
    assert written.slots == u.slots;
    assert ResolveDispute(s, auth, id, Refund).value.state == CompleteOrderIfFinished(written, order).state;
    CompletionFrame(u, order);
    MovesTokensFrame(s, paid, u, order, x, Returned);
  }

  lemma ReturnRealises(s: State, auth: Auth, id: nat)
    requires Consistent(s) && ResolveDispute(s, auth, id, Refund).Ok?
    ensures Realises(s, ResolveDispute(s, auth, id, Refund).value, id, Returned)
  {
    hide ResolveDispute, KeysOk, OrdersOk, ListsOk, OffersOk, DisputesOk, SlotOk, BalancesOk, MovesTokens;
    ResolveReads(s, auth, id, Refund);
    assert MilestoneOk(s, id);
    var x := s.slots[id];
    var order := s.orders[x.milestone.orderId];
    PositionNamed(s, id);
    ReturnWrites(s, auth, id);
    var d := FindMilestoneDispute(s, id).value;
    var t := ResolveDispute(s, auth, id, Refund).value.state;
    var u := s.(balances := t.balances,
                disputes := s.disputes[d.id := d.(status := ResolvedRefund)],
                slots := s.slots[id := WithStatus(Emptied(WithPosition(x, PositionClosed)), Refunded)]);
    OrderFacts(s, x.milestone.orderId);
    CompletionFrame(u, order);
    hide CompleteOrderIfFinished;
    MovesTokensFrame(s, u, t, order, x, Returned);
  }

  lemma PositionNamed(s: State, id: nat)
    requires id in s.slots && MilestoneOk(s, id)
    ensures s.slots[id].position.Some? ==> s.slots[id].position.value.milestoneId == id
  {
  }

  lemma ResolveReads(s: State, auth: Auth, id: nat, resolution: Resolution)
    requires ResolveDispute(s, auth, id, resolution).Ok?
    ensures id in s.slots
  {
  }
}
