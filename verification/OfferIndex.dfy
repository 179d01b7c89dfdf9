/** What the index of a milestone's offers says while it lasts: every offer it names answers the current request. */
module OfferIndex {
  import opened Wrappers
  import opened Types
  import opened Token
  import opened Storage
  import opened Escrow
  import opened Settlement
  import opened Core
  import opened Runs
  import opened Lifecycle
  import opened Invariant
  import opened Effects
  import opened Preservation
  import opened OrderPreservation
  import opened Totals
  import opened Guarantees
  import opened Guards

  /** The offer was made for this milestone, for the principal its request names. */
  predicate Answers(s: State, id: nat, offerId: nat) {
    && id in s.slots && s.slots[id].request.Some? && offerId in s.history
    && s.history[offerId].milestoneId == id
    && s.history[offerId].principal == s.slots[id].request.value.principal
  }

  predicate IndexOk(s: State) {
    forall id, i | id in s.offerIndex && 0 <= i < |s.offerIndex[id]| :: Answers(s, id, s.offerIndex[id][i])
  }

  // ---- the index itself -------------------------------------------------------------------------

  lemma PayOutKeepsIndex(s: State, order: Order, x: Milestone, position: Option<Position>, w: Waterfall)
    ensures var r := PayOut(s, order, x, position, w); r.Ok? ==> r.value.0.offerIndex == s.offerIndex
  {
  }

  lemma SettleKeepsIndex(s: State, auth: Auth, id: nat, caller: Address)
    requires SettleMilestone(s, auth, id, caller).Ok?
    ensures SettleMilestone(s, auth, id, caller).value.state.offerIndex == s.offerIndex
  {
    hide PayOut, Compute, AllTerminal;
    var x := ReadMilestone(s, id).value;
    PayOutKeepsIndex(s, ReadOrder(s, x.orderId).value, x, FindPosition(s, id), Compute(x, FindPosition(s, id)).value);
  }

  lemma AdvanceKeepsIndex(s: State, auth: Auth, id: nat)
    requires FundAdvance(s, auth, id).Ok?
    ensures FundAdvance(s, auth, id).value.state.offerIndex == s.offerIndex
  {
    hide Transfer;
  }

  lemma AcceptanceKeepsIndex(s: State, auth: Auth, offerId: nat)
    requires AcceptOffer(s, auth, offerId).Ok?
    ensures AcceptOffer(s, auth, offerId).value.state.offerIndex == s.offerIndex
  {
  }

  lemma ReleaseKeepsIndex(s: State, auth: Auth, id: nat)
    requires ReleaseExpiredAcceptance(s, auth, id).Ok?
    ensures ReleaseExpiredAcceptance(s, auth, id).value.state.offerIndex == s.offerIndex
  {
  }

  /** A round's index starts empty and is emptied when the request is withdrawn. */
  lemma FinancingMovesIndex(s: State, auth: Auth, call: Call)
    requires call.CallRequestFinance? || call.CallCancelFinanceRequest? || call.CallAcceptOffer?
             || call.CallFundAdvance? || call.CallReleaseExpiredAcceptance?
    requires Execute(s, auth, call).Ok?
    ensures Execute(s, auth, call).value.state.offerIndex ==
            if call.CallRequestFinance? || call.CallCancelFinanceRequest? then s.offerIndex[call.id := []]
            else s.offerIndex
  {
    hide FundAdvance, AcceptOffer, ReleaseExpiredAcceptance;
    if call.CallFundAdvance? {
      AdvanceKeepsIndex(s, auth, call.id);
    } else if call.CallAcceptOffer? {
      AcceptanceKeepsIndex(s, auth, call.offerId);
    } else if call.CallReleaseExpiredAcceptance? {
      ReleaseKeepsIndex(s, auth, call.id);
    }
  }

  lemma CompletionKeepsIndex(s: State, order: Order)
    ensures CompleteOrderIfFinished(s, order).state.offerIndex == s.offerIndex
  {
    hide AllTerminal;
  }

  lemma RefundKeepsIndex(s: State, id: nat, order: Order, x: Milestone)
    ensures var r := RefundEscrow(s, id, order, x); r.Ok? ==> r.value.0.offerIndex == s.offerIndex
  {
    hide Transfer;
  }

  lemma ResolutionKeepsIndex(s: State, auth: Auth, id: nat, resolution: Resolution)
    requires ResolveDispute(s, auth, id, resolution).Ok?
    ensures ResolveDispute(s, auth, id, resolution).value.state.offerIndex == s.offerIndex
  {
    hide RefundEscrow, CompleteOrderIfFinished, FindMilestoneDispute;
    var x := ReadMilestone(s, id).value;
    var order := ReadOrder(s, x.orderId).value;
    var dispute := FindMilestoneDispute(s, id).value;
    if resolution == Refund {
      RefundKeepsIndex(s, id, order, x);
      var (u, y, _) := RefundEscrow(s, id, order, x).value;
      CompletionKeepsIndex(WriteDispute(WriteMilestone(u, y.(status := Refunded)),
                                        dispute.(status := ResolvedRefund)), order);
    }
  }

  lemma DisputeKeepsIndex(s: State, auth: Auth, id: nat, caller: Address)
    requires OpenDispute(s, auth, id, caller).Ok?
    ensures OpenDispute(s, auth, id, caller).value.state.offerIndex == s.offerIndex
  {
    hide FindMilestoneDispute;
  }

  lemma OthersKeepIndex(s: State, auth: Auth, call: Call)
    requires call.CallFundMilestone? || call.CallCancelPartialFunding? || call.CallSubmitEvidence?
             || call.CallAttestMilestone? || call.CallOpenDispute? || call.CallResolveDispute?
    requires Execute(s, auth, call).Ok?
    ensures Execute(s, auth, call).value.state.offerIndex == s.offerIndex
  {
    hide FindMilestoneDispute, Transfer, ResolveDispute, OpenDispute;
    if call.CallResolveDispute? {
      ResolutionKeepsIndex(s, auth, call.id, call.resolution);
    } else if call.CallOpenDispute? {
      DisputeKeepsIndex(s, auth, call.id, call.caller);
    }
  }

  /** No other call on a milestone touches any index. */
  lemma CallMovesIndex(s: State, auth: Auth, call: Call)
    requires OnMilestone(call) && Execute(s, auth, call).Ok?
    ensures Execute(s, auth, call).value.state.offerIndex ==
            if call.CallRequestFinance? || call.CallCancelFinanceRequest? then s.offerIndex[call.id := []]
            else s.offerIndex
  {
    if call.CallSettleMilestone? {
      hide SettleMilestone;
      SettleKeepsIndex(s, auth, call.id, call.caller);
    } else if call.CallFundMilestone? || call.CallCancelPartialFunding? || call.CallSubmitEvidence?
              || call.CallAttestMilestone? || call.CallOpenDispute? || call.CallResolveDispute? {
      hide Execute;
      OthersKeepIndex(s, auth, call);
    } else {
      hide Execute;
      FinancingMovesIndex(s, auth, call);
    }
  }

  // ---- one step ---------------------------------------------------------------------------------

  lemma ChangeKeepsPrincipal(self: Address, order: Order, x: Slot, c: Change)
    requires Enabled(self, order, x, c) && !c.Requested? && x.request.Some?
    ensures var y := Changed(self, order, x, c);
            y.request.Some? && y.request.value.principal == x.request.value.principal
  {
  }

  lemma ChangeKeepsAnswer(s: State, t: State, id: nat, c: Change, k: nat, offerId: nat)
    requires Inv(s) && Makes(s, t, id, c) && Answers(s, k, offerId) && (c.Requested? ==> k != id)
    ensures Answers(t, k, offerId)
  {
    hide Inv, Makes;
    OfferKept(s, t, id, c, offerId);
    RequestsKept(s, t, id, c, k);
  }

  lemma OfferKept(s: State, t: State, id: nat, c: Change, offerId: nat)
    requires Inv(s) && Makes(s, t, id, c) && offerId in s.history
    ensures offerId in t.history && t.history[offerId] == s.history[offerId].(status := t.history[offerId].status)
  {
    hide Inv, Makes, KeysOk, OrdersOk, ListsOk, MilestonesOk, OffersOk, TokenOk, SlotOk, OfferStatusOk, Consistent;
    InvParts(s);
    MakesKnown(s, t, id, c);
    SlotFacts(s, id);
    SelectedEntry(s, t, id, c);
    OfferStatusKept(s, t, id, c, offerId);
  }

  lemma MakesKnown(s: State, t: State, id: nat, c: Change)
    requires Makes(s, t, id, c)
    ensures id in s.slots
  {
    hide MovesTokens, MovesOffers, MovesDisputes, MovesOrders, Changed, Enabled;
  }

  lemma RequestsKept(s: State, t: State, id: nat, c: Change, k: nat)
    requires Makes(s, t, id, c) && (c.Requested? ==> k != id) && k in s.slots && s.slots[k].request.Some?
    ensures k in t.slots && t.slots[k].request.Some?
    ensures t.slots[k].request.value.principal == s.slots[k].request.value.principal
  {
    hide MovesTokens, MovesOffers, MovesDisputes, MovesOrders, Changed, Enabled;
    if k == id {
      ChangeKeepsPrincipal(s.self, OrderOf(s, id), s.slots[id], c);
    }
  }

  lemma CallKeepsIndex(s: State, auth: Auth, call: Call)
    requires Inv(s) && IndexOk(s) && OnMilestone(call) && Execute(s, auth, call).Ok?
    ensures IndexOk(Execute(s, auth, call).value.state)
  {
    hide Inv, Consistent, Execute, Makes, SlotOk, EventsOf, Answers;
    InvParts(s);
    CallMovesIndex(s, auth, call);
    var c := CallRealises(s, auth, call);
    var t := Execute(s, auth, call).value.state;
    forall id, i | id in t.offerIndex && 0 <= i < |t.offerIndex[id]| ensures Answers(t, id, t.offerIndex[id][i]) {
      assert t.offerIndex[id] == s.offerIndex[id];
      ChangeKeepsAnswer(s, t, Target(s, call), c, id, s.offerIndex[id][i]);
    }
  }

  /** Records of requests and offers stay as they are, but for an offer's status. */
  predicate KeepsAnswers(s: State, t: State) {
    && (forall id | id in s.slots :: id in t.slots && t.slots[id].request == s.slots[id].request)
    && (forall id | id in s.history ::
          id in t.history && t.history[id] == s.history[id].(status := t.history[id].status))
  }

  lemma KeptIndex(s: State, t: State)
    requires IndexOk(s) && KeepsAnswers(s, t)
    requires forall id | id in t.offerIndex :: id in s.offerIndex && t.offerIndex[id] == s.offerIndex[id]
    ensures IndexOk(t)
  {
    forall id, i | id in t.offerIndex && 0 <= i < |t.offerIndex[id]| ensures Answers(t, id, t.offerIndex[id][i]) {
      assert Answers(s, id, s.offerIndex[id][i]);
    }
  }

  lemma MakeOfferKeepsIndex(s: State, auth: Auth, call: Call)
    requires Inv(s) && IndexOk(s) && call.CallMakeOffer? && Execute(s, auth, call).Ok?
    ensures IndexOk(Execute(s, auth, call).value.state)
  {
    hide Inv, MakeOffer;
    MakeOfferWrites(s, auth, call.id, call.funder, call.principal, call.repayment, call.expiresAt);
    NewOfferId(s);
    var t := Execute(s, auth, call).value.state;
    forall id, i | id in t.offerIndex && 0 <= i < |t.offerIndex[id]| ensures Answers(t, id, t.offerIndex[id][i]) {
      if id in s.offerIndex && i < |s.offerIndex[id]| {
        assert Answers(s, id, s.offerIndex[id][i]);
      }
    }
  }

  lemma NewOfferId(s: State)
    requires Inv(s)
    ensures s.offerCount + 1 !in s.history
  {
    hide OrdersOk, ListsOk, MilestonesOk, OffersOk, DisputesOk, TokenOk, HasWork;
  }

  lemma OtherCallKeepsAnswers(s: State, auth: Auth, call: Call)
    requires Inv(s) && !OnMilestone(call) && !call.CallMakeOffer? && Execute(s, auth, call).Ok?
    ensures KeepsAnswers(s, Execute(s, auth, call).value.state)
    ensures Execute(s, auth, call).value.state.offerIndex == s.offerIndex
  {
    hide Inv, KeysOk, OrdersOk, ListsOk, MilestonesOk, OffersOk, TokenOk, Consistent, CreateMilestone, CancelOffer;
    InvParts(s);
    if call.CallCreateMilestone? {
      CreateMilestoneWrites(s, auth, call.orderId, call.amount, call.deadline);
    } else if call.CallCancelOffer? {
      CancelOfferWrites(s, auth, call.offerId);
    }
  }

  lemma OtherCallKeepsIndex(s: State, auth: Auth, call: Call)
    requires Inv(s) && IndexOk(s) && !OnMilestone(call) && !call.CallMakeOffer? && Execute(s, auth, call).Ok?
    ensures IndexOk(Execute(s, auth, call).value.state)
  {
    hide Inv, IndexOk, Execute, KeepsAnswers;
    OtherCallKeepsAnswers(s, auth, call);
    KeptIndex(s, Execute(s, auth, call).value.state);
  }

  lemma StepKeepsIndex(s: State, a: Action)
    requires Inv(s) && IndexOk(s) && Legal(s, a)
    ensures IndexOk(Step(s, a).0)
  {
    hide Inv, IndexOk, Execute, Transfer;
    if a.Invoke? && Execute(s, a.auth, a.call).Ok? {
      if OnMilestone(a.call) {
        CallKeepsIndex(s, a.auth, a.call);
      } else if a.call.CallMakeOffer? {
        MakeOfferKeepsIndex(s, a.auth, a.call);
      } else {
        OtherCallKeepsIndex(s, a.auth, a.call);
      }
    } else {
      IdleKeepsIndex(s, a);
    }
  }

  lemma IdleKeepsIndex(s: State, a: Action)
    requires IndexOk(s) && (a.Invoke? ==> Execute(s, a.auth, a.call).Err?)
    ensures IndexOk(Step(s, a).0)
  {
    hide Step, IndexOk;
    IdleStep(s, a);
    KeptIndex(s, Step(s, a).0);
  }

  // ---- over a run -------------------------------------------------------------------------------

  /** In every state of every run, whatever the index of a milestone names is an offer for that milestone and for
      the principal of its current request. */
  lemma {:induction false} IndexedOffersAnswer(r: Trace, n: nat)
    requires r.IsRun() && n < |r.states|
    ensures IndexOk(r.states[n])
  {
    hide Step, Inv, IndexOk;
    if n == 0 {
      NoIndex(r.states[0]);
    } else {
      IndexedOffersAnswer(r, n - 1);
      RunKeepsInv(r, n - 1);
      assert Next(r.states[n - 1], r.actions[n - 1], r.states[n], r.logs[n - 1]);
      StepKeepsIndex(r.states[n - 1], r.actions[n - 1]);
    }
  }

  lemma NoIndex(s: State)
    requires s.offerIndex == map[]
    ensures IndexOk(s)
  {
  }

  /** Whoever accepts only offers that the milestone's index still names accepts exactly what was asked for. */
  lemma IndexedAcceptanceMatches(r: Trace, n: nat, auth: Auth, id: nat, offerId: nat)
    requires r.IsRun() && n < |r.states| && offerId in ReadMilestoneOffers(r.states[n], id)
    requires AcceptOffer(r.states[n], auth, offerId).Ok?
    ensures var t := AcceptOffer(r.states[n], auth, offerId).value.state;
            && id in t.slots && t.slots[id].accepted.Some? && t.slots[id].request.Some?
            && t.slots[id].accepted.value.id == offerId
            && t.slots[id].accepted.value.principal == t.slots[id].request.value.principal
  {
    hide Step, Inv, AcceptOffer, KeysOk, OffersOk;
    var s := r.states[n];
    RunKeepsInv(r, n);
    InvParts(s);
    IndexedOffersAnswer(r, n);
    var i :| 0 <= i < |s.offerIndex[id]| && s.offerIndex[id][i] == offerId;
    assert Answers(s, id, s.offerIndex[id][i]);
    ReadsOffer(s, auth, offerId);
    EntryMeans(s, offerId);
    AcceptsEntry(s, auth, offerId);
  }

  lemma AcceptsEntry(s: State, auth: Auth, offerId: nat)
    requires AcceptOffer(s, auth, offerId).Ok? && offerId in s.offers && s.offers[offerId].id == offerId
    requires Inv(s)
    ensures var o := s.offers[offerId]; var t := AcceptOffer(s, auth, offerId).value.state;
            && o.milestoneId in s.slots && o.milestoneId in t.slots
            && t.slots[o.milestoneId].accepted == Some(o.(status := OfferAccepted))
            && s.slots[o.milestoneId].request.Some? && t.slots[o.milestoneId].request.Some?
            && t.slots[o.milestoneId].request.value.principal == s.slots[o.milestoneId].request.value.principal
  {
    hide Inv, AcceptOffer, Realises, Consistent;
    InvParts(s);
    AcceptOfferRealises(s, auth, offerId);
    TakesOffer(s, AcceptOffer(s, auth, offerId).value, s.offers[offerId].milestoneId,
               s.offers[offerId].(status := OfferAccepted));
  }

  lemma TakesOffer<T>(s: State, d: Done<T>, id: nat, o: Offer)
    requires Realises(s, d, id, Selected(o))
    ensures id in s.slots && id in d.state.slots && d.state.slots[id].accepted == Some(o)
    ensures s.slots[id].request.Some? && d.state.slots[id].request.Some?
    ensures d.state.slots[id].request.value.principal == s.slots[id].request.value.principal
  {
    hide SlotOk, EventsOf, MovesTokens, MovesOffers, MovesDisputes, MovesOrders;
  }
}
