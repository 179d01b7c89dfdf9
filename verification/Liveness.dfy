/** No escrow is stranded: whatever state a milestone is in, its own parties can bring its escrow to zero,
    and exactly when they cannot. */
module Liveness {
  import opened Wrappers
  import opened Types
  import opened Storage
  import opened Core
  import opened Runs
  import opened Lifecycle
  import opened Invariant
  import opened Effects
  import opened Preservation
  import opened OrderPreservation
  import opened Totals
  import opened Guarantees
  import opened Guards

  /** The one thing that can strand a milestone is a role given to the contract's own address, which never
      signs: the resolver of a disputed milestone, or the attestor once no further dispute can be opened. */
  predicate CanFinish(s: State, id: nat)
    requires Known(s, id)
  {
    var order := OrderOf(s, id);
    match s.slots[id].milestone.status
    case Unfunded => true
    case Verified => true
    case Settled => true
    case Refunded => true
    case Disputed => order.resolver != s.self
    case _ => order.attestor != s.self || s.disputeCount < U64_MAX
  }

  predicate IsParty(order: Order, a: Address) {
    a == order.buyer || a == order.supplier || a == order.attestor || a == order.resolver
  }

  /** Time passes, or one of the order's four parties signs alone. No funder is needed. */
  predicate ByParties(order: Order, a: Action) {
    match a
    case CloseLedger(_) => true
    case Invoke(auth, _) => exists p | p in auth :: auth == {p} && IsParty(order, p)
    case _ => false
  }

  predicate SameParties(x: Order, y: Order) {
    x.(status := y.status) == y
  }

  /** A continuation from `s` by the milestone's own parties that empties its escrow. */
  predicate Empties(r: Trace, s: State, id: nat) {
    && Known(s, id) && r.IsPath() && r.states[0] == s
    && (forall i | 0 <= i < |r.actions| :: ByParties(OrderOf(s, id), r.actions[i]))
    && id in r.Last().slots && r.Last().slots[id].milestone.funded == 0
  }

  // ---- putting continuations together -----------------------------------------------------------

  function Prepend(s: State, a: Action, log: seq<Stamped>, r: Trace): Trace {
    Trace([s] + r.states, [a] + r.actions, [log] + r.logs)
  }

  lemma PrependEmpties(s: State, a: Action, t: State, log: seq<Stamped>, r: Trace, id: nat)
    requires Next(s, a, t, log) && Empties(r, t, id)
    requires Known(s, id) && SameParties(OrderOf(s, id), OrderOf(t, id)) && ByParties(OrderOf(s, id), a)
    ensures Empties(Prepend(s, a, log, r), s, id)
  {
    hide Next;
    var p := Prepend(s, a, log, r);
    forall i | 0 <= i < |p.actions|
      ensures Next(p.states[i], p.actions[i], p.states[i + 1], p.logs[i])
      ensures ByParties(OrderOf(s, id), p.actions[i])
    {
      if i > 0 {
        assert p.states[i] == r.states[i - 1] && p.actions[i] == r.actions[i - 1];
        assert ByParties(OrderOf(t, id), r.actions[i - 1]);
      }
    }
  }

  /** What a call by one party does to the milestone, once it is known to realise change `c`. */
  lemma PartyActs(s: State, p: Address, call: Call, c: Change) returns (t: State, log: seq<Stamped>)
    requires Inv(s) && p != s.self && OnMilestone(call)
    requires Known(s, Target(s, call)) && IsParty(OrderOf(s, Target(s, call)), p)
    requires Execute(s, {p}, call).Ok? && Realises(s, Execute(s, {p}, call).value, Target(s, call), c)
    ensures var id := Target(s, call); var a := Invoke({p}, call);
            && Next(s, a, t, log) && ByParties(OrderOf(s, id), a)
            && Inv(t) && t.self == s.self && t.now == s.now && Known(t, id)
            && SameParties(OrderOf(s, id), OrderOf(t, id))
            && Enabled(s.self, OrderOf(s, id), s.slots[id], c)
            && t.slots[id] == Changed(s.self, OrderOf(s, id), s.slots[id], c)
            && (!c.Contested? ==> t.disputeCount == s.disputeCount)
  {
    hide Execute, Inv, SlotOk, EventsOf, Enabled, Changed, MovesTokens, MovesOffers;
    var d := Execute(s, {p}, call).value;
    t, log := d.state, Stamp(s.now, d.events);
    CallKeepsInv(s, {p}, call);
    var id := Target(s, call);
    SlotNames(s, id);
    assert p in {p};
    ChangeKeepsIdentity(s.self, OrderOf(s, id), s.slots[id], c);
  }

  lemma SlotNames(s: State, id: nat)
    requires Inv(s) && id in s.slots
    ensures s.slots[id].milestone.orderId in s.orders && s.slots[id].milestone.id == id
    ensures s.orders[s.slots[id].milestone.orderId].id == s.slots[id].milestone.orderId
  {
    hide Inv, SlotOk;
    InvSlot(s, id);
  }

  /** Roles that can sign: the buyer always, the supplier of an order that was accepted; and not both the
      attestor and the resolver are the contract itself. */
  lemma Signers(s: State, id: nat)
    requires Inv(s) && Known(s, id)
    ensures var order := OrderOf(s, id);
            && order.buyer != s.self && order.attestor != order.resolver
            && (order.status == Active ==> order.supplier != s.self)
  {
    hide Inv;
    InvParts(s);
    assert OrderOk(s, s.slots[id].milestone.orderId);
  }

  lemma StatusSays(self: Address, order: Order, x: Slot, d: Option<Dispute>)
    requires SlotOk(self, order, x, d)
    ensures x.milestone.funded > 0 ==> order.status == Active && !Terminal(x.milestone.status)
    ensures !Terminal(x.milestone.status) && x.milestone.status != Unfunded ==>
              order.status == Active && x.milestone.funded == x.milestone.amount > 0
    ensures x.milestone.status == Submitted ==> x.milestone.evidence.Some?
    ensures x.milestone.status == FinanceRequested ==> x.request.Some?
  {
  }

  lemma InvSays(s: State, id: nat)
    requires Inv(s) && Known(s, id)
    ensures var x := s.slots[id]; var order := OrderOf(s, id);
            && (x.milestone.funded > 0 ==> order.status == Active && !Terminal(x.milestone.status))
            && (!Terminal(x.milestone.status) && x.milestone.status != Unfunded ==>
                  order.status == Active && x.milestone.funded == x.milestone.amount > 0)
            && (x.milestone.status == Submitted ==> x.milestone.evidence.Some?)
            && (x.milestone.status == FinanceRequested ==> x.request.Some?)
            && Consistent(s)
  {
    hide Inv, SlotOk, Consistent;
    InvParts(s);
    SlotFacts(s, id);
    StatusSays(s.self, OrderOf(s, id), s.slots[id], FindMilestoneDispute(s, id));
  }

  // ---- the way out of every status --------------------------------------------------------------

  lemma OneStep(s: State, a: Action, t: State, log: seq<Stamped>, id: nat) returns (r: Trace)
    requires Next(s, a, t, log) && Known(s, id) && Known(t, id) && ByParties(OrderOf(s, id), a)
    requires SameParties(OrderOf(s, id), OrderOf(t, id)) && t.slots[id].milestone.funded == 0
    ensures Empties(r, s, id)
  {
    hide Next;
    var last := Trace([t], [], []);
    assert Empties(last, t, id);
    PrependEmpties(s, a, t, log, last, id);
    r := Prepend(s, a, log, last);
  }

  lemma FromPartial(s: State, id: nat) returns (r: Trace)
    requires Inv(s) && Known(s, id) && s.slots[id].milestone.status == Unfunded && s.slots[id].milestone.funded > 0
    ensures Empties(r, s, id)
  {
    hide Inv, Consistent, CancelPartialFunding, Realises, SlotOk, Empties;
    var p := OrderOf(s, id).buyer;
    var call := CallCancelPartialFunding(id);
    Signers(s, id);
    InvSays(s, id);
    CancelPartialFundingExact(s, {p}, id);
    CancelPartialFundingRealises(s, {p}, id);
    ForgetRealises(s, CancelPartialFunding(s, {p}, id), id, Unwound);
    var t, log := PartyActs(s, p, call, Unwound);
    r := OneStep(s, Invoke({p}, call), t, log, id);
  }

  lemma FromVerified(s: State, id: nat) returns (r: Trace)
    requires Inv(s) && Known(s, id) && s.slots[id].milestone.status == Verified
    ensures Empties(r, s, id)
  {
    hide Inv, Consistent, SettleMilestone, Realises, SlotOk, Empties;
    var p := OrderOf(s, id).supplier;
    var call := CallSettleMilestone(id, p);
    Signers(s, id);
    InvSays(s, id);
    SettleMilestoneExact(s, {p}, id, p);
    SettleMilestoneRealises(s, {p}, id, p);
    var t, log := PartyActs(s, p, call, Paid);
    r := OneStep(s, Invoke({p}, call), t, log, id);
  }

  lemma FromDisputed(s: State, id: nat) returns (r: Trace)
    requires Inv(s) && Known(s, id) && s.slots[id].milestone.status == Disputed
    requires OrderOf(s, id).resolver != s.self
    ensures Empties(r, s, id)
  {
    hide Inv, Consistent, ResolveDispute, Realises, SlotOk, Empties;
    var p := OrderOf(s, id).resolver;
    var call := CallResolveDispute(id, Refund);
    InvSays(s, id);
    ResolveDisputeExact(s, {p}, id, Refund);
    ReturnRealises(s, {p}, id);
    var t, log := PartyActs(s, p, call, Returned);
    r := OneStep(s, Invoke({p}, call), t, log, id);
  }

  lemma ByDispute(s: State, id: nat) returns (r: Trace)
    requires Inv(s) && Known(s, id) && OpenToEvidence(s.slots[id].milestone.status)
    requires OrderOf(s, id).resolver != s.self && s.disputeCount < U64_MAX
    ensures Empties(r, s, id)
  {
    hide Inv, Consistent, OpenDispute, Realises, SlotOk, Empties;
    var p := OrderOf(s, id).buyer;
    var call := CallOpenDispute(id, p);
    Signers(s, id);
    InvSays(s, id);
    OpenDisputeExact(s, {p}, id, p);
    var c := Contested(Dispute(s.disputeCount + 1, id, p, OrderOf(s, id).resolver, DisputeOpen, s.now));
    OpenDisputeRealises(s, {p}, id, p);
    ForgetRealises(s, OpenDispute(s, {p}, id, p), id, c);
    var t, log := PartyActs(s, p, call, c);
    r := FromDisputed(t, id);
    PrependEmpties(s, Invoke({p}, call), t, log, r, id);
    r := Prepend(s, Invoke({p}, call), log, r);
  }

  lemma FromSubmitted(s: State, id: nat) returns (r: Trace)
    requires Inv(s) && Known(s, id) && s.slots[id].milestone.status == Submitted && CanFinish(s, id)
    ensures Empties(r, s, id)
  {
    hide Inv, Consistent, AttestMilestone, Realises, SlotOk, Empties;
    var p := OrderOf(s, id).attestor;
    Signers(s, id);
    InvSays(s, id);
    if p == s.self {
      r := ByDispute(s, id);
    } else {
      var evidence := s.slots[id].milestone.evidence.value;
      var call := CallAttestMilestone(id, evidence);
      AttestMilestoneExact(s, {p}, id, evidence);
      AttestMilestoneRealises(s, {p}, id, evidence);
      var t, log := PartyActs(s, p, call, Attested);
      r := FromVerified(t, id);
      PrependEmpties(s, Invoke({p}, call), t, log, r, id);
      r := Prepend(s, Invoke({p}, call), log, r);
    }
  }

  lemma FromWork(s: State, id: nat) returns (r: Trace)
    requires Inv(s) && Known(s, id) && OpenToEvidence(s.slots[id].milestone.status) && CanFinish(s, id)
    ensures Empties(r, s, id)
  {
    hide Inv, Consistent, SubmitEvidence, Realises, SlotOk, Empties;
    Signers(s, id);
    InvSays(s, id);
    var p := OrderOf(s, id).supplier;
    var call := CallSubmitEvidence(id, 1);
    SubmitEvidenceExact(s, {p}, id, 1);
    SubmitEvidenceRealises(s, {p}, id, 1);
    var t, log := PartyActs(s, p, call, Evidenced(1));
    r := FromSubmitted(t, id);
    PrependEmpties(s, Invoke({p}, call), t, log, r, id);
    r := Prepend(s, Invoke({p}, call), log, r);
  }

  /** A request nobody was selected for, live or lapsed, is withdrawn. */
  lemma FromOpenRequest(s: State, id: nat) returns (r: Trace)
    requires Inv(s) && Known(s, id) && s.slots[id].milestone.status == FinanceRequested && CanFinish(s, id)
    requires s.slots[id].accepted.None?
    ensures Empties(r, s, id)
  {
    hide Inv, Consistent, CancelFinanceRequest, Realises, SlotOk, Empties;
    Signers(s, id);
    InvSays(s, id);
    var p := OrderOf(s, id).supplier;
    var call := CallCancelFinanceRequest(id);
    CancelFinanceRequestExact(s, {p}, id);
    CancelFinanceRequestRealises(s, {p}, id);
    var c := Withdrawn(!RequestLives(s.now, s.slots[id]));
    ForgetRealises(s, CancelFinanceRequest(s, {p}, id), id, c);
    var t, log := PartyActs(s, p, call, c);
    r := FromWork(t, id);
    PrependEmpties(s, Invoke({p}, call), t, log, r, id);
    r := Prepend(s, Invoke({p}, call), log, r);
  }

  /** An acceptance whose funder walked away is released once it has expired. */
  lemma FromExpiredAcceptance(s: State, id: nat) returns (r: Trace)
    requires Inv(s) && Known(s, id) && s.slots[id].milestone.status == FinanceRequested && CanFinish(s, id)
    requires s.slots[id].accepted.Some? && s.slots[id].accepted.value.expiresAt <= s.now
    ensures Empties(r, s, id)
  {
    hide Inv, Consistent, ReleaseExpiredAcceptance, Realises, SlotOk, Empties;
    Signers(s, id);
    InvSays(s, id);
    var p := OrderOf(s, id).supplier;
    var call := CallReleaseExpiredAcceptance(id);
    ReleaseExpiredAcceptanceExact(s, {p}, id);
    ReleaseExpiredAcceptanceRealises(s, {p}, id);
    var reopened := RequestLives(s.now, s.slots[id]);
    ForgetRealises(s, ReleaseExpiredAcceptance(s, {p}, id), id, Lapsed(reopened));
    var t, log := PartyActs(s, p, call, Lapsed(reopened));
    if reopened {
      r := FromOpenRequest(t, id);
    } else {
      r := FromWork(t, id);
    }
    PrependEmpties(s, Invoke({p}, call), t, log, r, id);
    r := Prepend(s, Invoke({p}, call), log, r);
  }

  lemma FromAcceptance(s: State, id: nat) returns (r: Trace)
    requires Inv(s) && Known(s, id) && s.slots[id].milestone.status == FinanceRequested && CanFinish(s, id)
    requires s.slots[id].accepted.Some?
    ensures Empties(r, s, id)
  {
    hide Inv, Empties, Execute;
    var expiresAt := s.slots[id].accepted.value.expiresAt;
    var a := CloseLedger(if s.now < expiresAt then expiresAt else s.now);
    var t := Step(s, a).0;
    StepKeepsInv(s, a);
    r := FromExpiredAcceptance(t, id);
    PrependEmpties(s, a, t, [], r, id);
    r := Prepend(s, a, [], r);
  }

  lemma WayOut(s: State, id: nat) returns (r: Trace)
    requires Inv(s) && Known(s, id) && CanFinish(s, id)
    ensures Empties(r, s, id)
  {
    hide Inv, Empties, Consistent, SlotOk, ByParties;
    InvSays(s, id);
    InvNonNegative(s, id);
    var x := s.slots[id];
    if x.milestone.funded == 0 {
      r := Trace([s], [], []);
      AlreadyEmpty(s, id);
    } else if x.milestone.status == Unfunded {
      r := FromPartial(s, id);
    } else if x.milestone.status == FinanceRequested {
      if x.accepted.Some? {
        r := FromAcceptance(s, id);
      } else {
        r := FromOpenRequest(s, id);
      }
    } else if x.milestone.status == Verified {
      r := FromVerified(s, id);
    } else if x.milestone.status == Disputed {
      r := FromDisputed(s, id);
    } else {
      r := FromWork(s, id);
    }
  }

  lemma AlreadyEmpty(s: State, id: nat)
    requires Known(s, id) && s.slots[id].milestone.funded == 0
    ensures Empties(Trace([s], [], []), s, id)
  {
  }

  lemma InvNonNegative(s: State, id: nat)
    requires Inv(s) && Known(s, id)
    ensures s.slots[id].milestone.funded >= 0
  {
    hide Inv, StageOk;
    SlotFacts(s, id);
  }

  // ---- and exactly when there is none -----------------------------------------------------------

  lemma CallKeepsDisputeCount(s: State, auth: Auth, call: Call)
    requires Inv(s) && Execute(s, auth, call).Ok?
    ensures var t := Execute(s, auth, call).value.state; s.disputeCount <= t.disputeCount && t.self == s.self
  {
    hide Execute, Inv, Consistent, KeysOk, OrdersOk, ListsOk, MilestonesOk, OffersOk, TokenOk, SlotOk, EventsOf;
    hide Enabled, Changed, MovesTokens, MovesOffers, MovesOrders;
    InvParts(s);
    if OnMilestone(call) {
      var c := CallRealises(s, auth, call);
    } else {
      OtherCallShape(s, auth, call);
    }
  }

  lemma StepKeepsDisputeCount(s: State, a: Action)
    requires Inv(s) && Legal(s, a)
    ensures s.disputeCount <= Step(s, a).0.disputeCount && Step(s, a).0.self == s.self
  {
    hide Execute, Inv;
    if a.Invoke? && Execute(s, a.auth, a.call).Ok? {
      CallKeepsDisputeCount(s, a.auth, a.call);
    }
  }

  /** A change that neither an attestor nor a dispute brings about leaves work in progress in progress. */
  lemma ChangeKeepsWork(self: Address, order: Order, x: Slot, c: Change)
    requires Enabled(self, order, x, c) && !c.Attested? && !c.Contested?
    requires OpenToEvidence(x.milestone.status) || x.milestone.status == FinanceRequested
    ensures var y := Changed(self, order, x, c);
            OpenToEvidence(y.milestone.status) || y.milestone.status == FinanceRequested
  {
  }

  lemma TouchedStaysStuck(s: State, auth: Auth, call: Call, id: nat)
    requires Inv(s) && s.self !in auth && Known(s, id) && !CanFinish(s, id)
    requires OnMilestone(call) && Target(s, call) == id && Execute(s, auth, call).Ok?
    ensures var t := Execute(s, auth, call).value.state;
            && id in t.slots && s.slots[id].milestone.status != Disputed
            && (OpenToEvidence(t.slots[id].milestone.status) || t.slots[id].milestone.status == FinanceRequested)
  {
    hide Execute, Inv, Consistent, SlotOk, EventsOf, Enabled, Changed, MovesTokens, MovesOffers, MovesOrders;
    hide MovesDisputes, KeysOk, OrdersOk, ListsOk, MilestonesOk, OffersOk, TokenOk;
    InvParts(s);
    CallExact(s, auth, call);
    var c := CallRealises(s, auth, call);
    ChangeKeepsWork(s.self, OrderOf(s, id), s.slots[id], c);
  }

  lemma StuckStays(s: State, a: Action, id: nat)
    requires Inv(s) && Legal(s, a) && Known(s, id) && !CanFinish(s, id)
    ensures var t := Step(s, a).0; Known(t, id) && !CanFinish(t, id)
  {
    hide Execute, Inv;
    StepKeepsDisputeCount(s, a);
    StepMovesForward(s, a, id);
    StepMovesOrder(s, a, s.slots[id].milestone.orderId);
    if Touches(s, a, id) && Execute(s, a.auth, a.call).Ok? {
      TouchedStaysStuck(s, a.auth, a.call, id);
    }
  }

  lemma {:induction false} StuckForever(r: Trace, n: nat, id: nat)
    requires r.IsPath() && Inv(r.states[0]) && n < |r.states|
    requires Known(r.states[0], id) && !CanFinish(r.states[0], id)
    ensures Inv(r.states[n]) && Known(r.states[n], id) && !CanFinish(r.states[n], id)
    ensures r.states[n].slots[id].milestone.funded > 0
  {
    hide Step, Inv, CanFinish;
    PathKeepsInv(r, n);
    if n > 0 {
      StuckForever(r, n - 1, id);
      assert Next(r.states[n - 1], r.actions[n - 1], r.states[n], r.logs[n - 1]);
      StuckStays(r.states[n - 1], r.actions[n - 1], id);
    }
    StuckHolds(r.states[n], id);
  }

  lemma StuckHolds(s: State, id: nat)
    requires Inv(s) && Known(s, id) && !CanFinish(s, id)
    ensures s.slots[id].milestone.funded > 0
  {
    hide Inv;
    InvSays(s, id);
  }

  /** In every reachable state, and for every milestone, the milestone's own four parties can bring its escrow
      to zero by themselves (no funder, no outsider, only calls and time) exactly when `CanFinish` holds. When
      it does not, no continuation at all, by anybody, ever empties it. */
  lemma NoStrandedEscrow(r: Trace, n: nat, id: nat)
    requires r.IsRun() && n < |r.states| && Known(r.states[n], id)
    ensures CanFinish(r.states[n], id) <==> exists w: Trace :: Empties(w, r.states[n], id)
    ensures !CanFinish(r.states[n], id) ==>
              forall w: Trace, k: nat | w.IsPath() && w.states[0] == r.states[n] && k < |w.states| ::
                Known(w.states[k], id) && w.states[k].slots[id].milestone.funded > 0
  {
    hide Step, Inv, CanFinish;
    RunKeepsInv(r, n);
    var s := r.states[n];
    if CanFinish(s, id) {
      var w := WayOut(s, id);
    } else {
      forall w: Trace, k: nat | w.IsPath() && w.states[0] == s && k < |w.states|
        ensures Known(w.states[k], id) && w.states[k].slots[id].milestone.funded > 0
      {
        StuckForever(w, k, id);
      }
      forall w: Trace ensures !Empties(w, s, id) {
        if w.IsPath() && w.states[0] == s {
          StuckForever(w, |w.states| - 1, id);
        }
      }
    }
  }

  /** Verified does not mean that evidence exists: a dispute over a funded milestone, resolved for the supplier,
      verifies it with none on record. */
  lemma VerifiedWithoutEvidence(s: State, id: nat) returns (t: State, u: State)
    requires Inv(s) && Known(s, id) && s.slots[id].milestone.status == Funded
    requires OrderOf(s, id).resolver != s.self && s.disputeCount < U64_MAX
    ensures var buyer := OrderOf(s, id).buyer; var resolver := OrderOf(s, id).resolver;
            && OpenDispute(s, {buyer}, id, buyer).Ok? && t == OpenDispute(s, {buyer}, id, buyer).value.state
            && ResolveDispute(t, {resolver}, id, Settle).Ok? && u == ResolveDispute(t, {resolver}, id,
                    Settle).value.state
            && id in u.slots && u.slots[id].milestone.status == Verified && u.slots[id].milestone.evidence.None?
  {
    hide Inv, Consistent, OpenDispute, ResolveDispute, Realises, SlotOk;
    t := FundedContested(s, id);
    var q := OrderOf(s, id).resolver;
    ResolveDisputeExact(t, {q}, id, Settle);
    UpholdRealises(t, {q}, id);
    u := ResolveDispute(t, {q}, id, Settle).value.state;
    RealisesGives(t, ResolveDispute(t, {q}, id, Settle).value, id, Upheld);
  }

  /** The buyer of a funded milestone can dispute it, which leaves it without evidence and its resolver to decide. */
  lemma FundedContested(s: State, id: nat) returns (t: State)
    requires Inv(s) && Known(s, id) && s.slots[id].milestone.status == Funded
    requires OrderOf(s, id).resolver != s.self && s.disputeCount < U64_MAX
    ensures var buyer := OrderOf(s, id).buyer;
            OpenDispute(s, {buyer}, id, buyer).Ok? && t == OpenDispute(s, {buyer}, id, buyer).value.state
    ensures Inv(t) && Consistent(t) && Known(t, id) && SameParties(OrderOf(s, id), OrderOf(t, id)) && t.self == s.self
    ensures OrderOf(t, id).status == Active
    ensures t.slots[id].milestone.status == Disputed && t.slots[id].milestone.evidence.None?
  {
    hide Inv, Consistent, OpenDispute, Realises, SlotOk;
    var p := OrderOf(s, id).buyer;
    Signers(s, id);
    InvSays(s, id);
    FundedHasNoEvidence(s, id);
    OpenDisputeExact(s, {p}, id, p);
    OpenDisputeRealises(s, {p}, id, p);
    var d := OpenDispute(s, {p}, id, p).value;
    t := d.state;
    CallKeepsInv(s, {p}, CallOpenDispute(id, p));
    RealisesGives(s, d, id,
                  Contested(Dispute(s.disputeCount + 1, id, p, OrderOf(s, id).resolver, DisputeOpen, s.now)));
    InvSays(t, id);
  }

  lemma FundedHasNoEvidence(s: State, id: nat)
    requires Inv(s) && Known(s, id) && s.slots[id].milestone.status == Funded
    ensures s.slots[id].milestone.evidence.None?
  {
    hide Inv;
    SlotFacts(s, id);
  }

  /** The slot a realised change leaves, and that its order keeps its parties. */
  lemma RealisesGives<T>(s: State, d: Done<T>, id: nat, c: Change)
    requires Inv(s) && Known(s, id) && Realises(s, d, id, c)
    ensures Known(d.state, id) && SameParties(OrderOf(s, id), OrderOf(d.state, id)) && d.state.self == s.self
    ensures Enabled(s.self, OrderOf(s, id), s.slots[id], c)
    ensures d.state.slots[id] == Changed(s.self, OrderOf(s, id), s.slots[id], c)
  {
    hide Inv, SlotOk, EventsOf, Enabled, Changed, MovesTokens, MovesOffers, MovesDisputes;
    SlotNames(s, id);
    ChangeKeepsIdentity(s.self, OrderOf(s, id), s.slots[id], c);
  }
}
