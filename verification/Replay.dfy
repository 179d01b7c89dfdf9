/** Folding the projections over the contract's event log rebuilds the contract's storage. */
module Replay {
  import opened Wrappers
  import opened Types
  import opened Token
  import opened Storage
  import opened Financing
  import opened Core
  import opened Runs
  import opened Lifecycle
  import opened Invariant
  import opened Effects
  import opened Preservation
  import opened OrderPreservation
  import opened Totals
  import opened Guarantees
  import opened Guards
  import opened Projector
  import opened Coupling
  import opened RowReplay

  // ---- the tables that are not the milestone's own ----------------------------------------------

  lemma OffersFollow(s: State, t: State, db: ReadModels, db': ReadModels, offerId: nat, status: OfferStatus, last: nat,
                     bound: nat)
    requires OffersCoupled(s, db, bound) && offerId in s.history && bound <= last
    requires t.history == s.history[offerId := s.history[offerId].(status := status)]
    requires offerId in db.offers && db'.offers == SetOffer(db, offerId, status, last).offers
    ensures OffersCoupled(t, db', last + 1)
  {
  }

  lemma OffersStay(s: State, t: State, db: ReadModels, db': ReadModels, bound: nat, more: nat)
    requires OffersCoupled(s, db, bound) && t.history == s.history && db'.offers == db.offers && bound <= more
    ensures OffersCoupled(t, db', more)
  {
  }

  lemma DisputesStay(s: State, t: State, db: ReadModels, db': ReadModels, bound: nat, more: nat)
    requires DisputesCoupled(s, db, bound) && t.disputes == s.disputes && db'.disputes == db.disputes && bound <= more
    ensures DisputesCoupled(t, db', more)
  {
  }

  lemma DisputesFollow(s: State, t: State, db: ReadModels, db': ReadModels, id: nat, d: Dispute, row: DisputeRow,
                       bound: nat, more: nat)
    requires DisputesCoupled(s, db, bound) && bound <= more && DisputeMatches(d, row, more)
    requires t.disputes == s.disputes[id := d] && db'.disputes == db.disputes[id := row]
    ensures DisputesCoupled(t, db', more)
  {
  }

  lemma OrdersStay(s: State, t: State, db: ReadModels, db': ReadModels, bound: nat, more: nat)
    requires OrdersCoupled(s, db, bound) && t.orders == s.orders && db'.orders == db.orders && bound <= more
    ensures OrdersCoupled(t, db', more)
  {
  }

  lemma SlotsFollow(s: State, t: State, db: ReadModels, db': ReadModels, id: nat, bound: nat, more: nat)
    requires SlotsCoupled(s, db, bound) && bound <= more && id in s.slots && id in t.slots
    requires t.slots == s.slots[id := t.slots[id]] && t.slots[id].milestone.orderId == s.slots[id].milestone.orderId
    requires s.slots[id].milestone.orderId in s.orders && t.orders == s.orders
    requires BroughtTo(db, db', id, s.orders[s.slots[id].milestone.orderId].buyer, t.slots[id], more)
    ensures SlotsCoupled(t, db', more)
  {
    hide RowsOf;
    forall k: nat ensures SlotCoupled(t, db', more, k) {
      assert SlotCoupled(s, db, bound, k);
    }
  }

  // ---- one change -----------------------------------------------------------------------------

  /** Projects the events one after the other, stopping at the first that throws. */
  function Fold(db: ReadModels, ds: seq<Delivered>): Result<ReadModels, Fault>
    decreases |ds|
  {
    if ds == [] then Ok(db)
    else
      var p :- Project(db, ds[0]);
      Fold(p.0, ds[1..])
  }

  /** Every projection of the fold reports that it projected something. */
  predicate AllProjected(db: ReadModels, ds: seq<Delivered>)
    decreases |ds|
  {
    ds == [] || (Project(db, ds[0]).Ok? && Project(db, ds[0]).value.1 && AllProjected(Project(db, ds[0]).value.0,
            ds[1..]))
  }

  lemma {:induction false} AllProjectedConcat(db: ReadModels, a: seq<Delivered>, b: seq<Delivered>)
    requires AllProjected(db, a) && Fold(db, a).Ok? && AllProjected(Fold(db, a).value, b)
    ensures AllProjected(db, a + b)
    decreases |a|
  {
    hide Project;
    if a == [] {
      assert a + b == b;
    } else {
      assert (a + b)[0] == a[0] && (a + b)[1..] == a[1..] + b;
      AllProjectedConcat(Project(db, a[0]).value.0, a[1..], b);
    }
  }

  /** `ds` are the events of `log` as the chain orders and the node delivers them, from place `from` on. */
  predicate Delivers(ds: seq<Delivered>, log: seq<Stamped>, from: nat) {
    && |ds| == |log|
    && (forall i | 0 <= i < |ds| ::
          ds[i].successful && ds[i].at == log[i].at && ds[i].body == Some(log[i].event) && from <= ds[i].id)
    && forall i, j | 0 <= i < j < |ds| :: ds[i].id < ds[j].id
  }

  function NextPlace(ds: seq<Delivered>, from: nat): nat {
    if ds == [] then from else ds[|ds| - 1].id + 1
  }

  predicate AllDatesFit(log: seq<Stamped>) {
    forall i | 0 <= i < |log| :: DatesFit(log[i].event)
  }

  lemma FoldOne(db: ReadModels, d: Delivered)
    ensures Fold(db, [d]) == match Project(db, d) case Ok(p) => Ok(p.0) case Err(e) => Err(e)
    ensures AllProjected(db, [d]) <==> Project(db, d).Ok? && Project(db, d).value.1
  {
    hide Project;
    assert [d][1..] == [];
  }

  lemma {:induction false} FoldConcat(db: ReadModels, a: seq<Delivered>, b: seq<Delivered>)
    ensures Fold(db, a + b) == match Fold(db, a) case Ok(mid) => Fold(mid, b) case Err(e) => Err(e)
    decreases |a|
  {
    hide Project;
    if a == [] {
      assert a + b == b;
    } else {
      assert (a + b)[0] == a[0] && (a + b)[1..] == a[1..] + b;
      if Project(db, a[0]).Ok? {
        FoldConcat(Project(db, a[0]).value.0, a[1..], b);
      }
    }
  }

  // ---- what a run guarantees about the numbers --------------------------------------------------

  lemma PositionNames(self: Address, order: Order, x: Slot, dispute: Option<Dispute>)
    requires SlotOk(self, order, x, dispute) && x.position.Some?
    ensures x.accepted.Some? && x.position.value.offerId == x.accepted.value.id
  {
  }

  lemma RunInRange(s: State, id: nat)
    requires Inv(s) && id in s.slots
    ensures InRange(s.slots[id]) && s.slots[id].milestone.id == id
    ensures s.slots[id].accepted.Some? ==>
              && s.slots[id].accepted.value.id in s.history
              && s.history[s.slots[id].accepted.value.id] == s.slots[id].accepted.value
    ensures s.slots[id].dispute.Some? ==>
              && FindMilestoneDispute(s, id).Some?
              && var d := FindMilestoneDispute(s, id).value;
                 d.milestoneId == id && d.id <= U64_MAX && d.id in s.disputes && s.disputes[d.id] == d
  {
    hide SlotOk, OrderOk, OfferOk, HasWork, TokenOk, ListOk;
    InvSlot(s, id);
    InvListed(s, id);
    assert MilestoneOk(s, id) && AcceptedOk(s, id);
    if s.slots[id].position.Some? {
      PositionNames(s.self, s.orders[s.slots[id].milestone.orderId], s.slots[id], FindMilestoneDispute(s, id));
    }
  }

  lemma InvListed(s: State, id: nat)
    requires Inv(s) && id in s.slots
    ensures s.slots[id].milestone.index < MAX_MILESTONES_PER_ORDER
  {
    hide Inv, SlotOk;
    InvParts(s);
    InvSlot(s, id);
    assert ListedOk(s, id) && ListOk(s, s.slots[id].milestone.orderId);
  }

  lemma ReadyFor(s: State, db: ReadModels, d: Delivered, id: nat, bound: nat)
    requires Inv(s) && Coupled(s, db, bound) && bound <= d.id && id in s.slots
    ensures s.slots[id].milestone.id == id && s.slots[id].milestone.orderId in s.orders
    ensures Ready(db, d, s.orders[s.slots[id].milestone.orderId].buyer, s.slots[id])
  {
    hide Inv, InRange, SlotMatches, OffersCoupled, DisputesCoupled, OrdersCoupled, RowsOf;
    BoundGrows(s, db, bound, d.id);
    RunInRange(s, id);
    assert SlotCoupled(s, db, d.id, id);
  }

  // ---- one change, one event --------------------------------------------------------------------

  /** The event a change publishes first. */
  function FirstEvent(self: Address, order: Order, x: Slot, d: Option<Dispute>, c: Change): Event
    requires SlotOk(self, order, x, d) && Enabled(self, order, x, c)
  {
    EventsOf(self, order, x, d, c, false)[0]
  }

  predicate Quiet(c: Change) {
    c.Deposited? || c.Unwound? || c.Requested? || c.Withdrawn? || c.Evidenced? || c.Attested?
  }

  lemma EscrowReplays(self: Address, db: ReadModels, d: Delivered, order: Order, x: Slot, dispute: Option<Dispute>,
                      c: Change)
    requires SlotOk(self, order, x, dispute) && Enabled(self, order, x, c) && Ready(db, d, order.buyer, x)
    requires c.Deposited? || c.Unwound? || c.Evidenced? || c.Attested?
    ensures var e := FirstEvent(self, order, x, dispute, c);
            && DatesFit(e)
            && Yields(ProjectKnown(db, d, e), db, x.milestone.id, order.buyer, Changed(self, order, x, c), d.id + 1,
                      db.offers, db.disputes)
  {
    hide Yields, SlotOk, Changed, Ready, ProjectMilestoneFunded, ProjectPartialFundingCancelled;
    hide ProjectEvidenceSubmitted, ProjectMilestoneVerified;
    match c {
      case Deposited(amount) => DepositedReplays(self, db, d, order, x, dispute, amount);
      case Unwound => UnwoundReplays(self, db, d, order, x, dispute);
      case Evidenced(digest) => EvidencedReplays(self, db, d, order, x, dispute, digest);
      case Attested => AttestedReplays(self, db, d, order, x, dispute);
      case _ =>
    }
  }

  lemma QuietReplays(self: Address, db: ReadModels, d: Delivered, order: Order, x: Slot, dispute: Option<Dispute>,
                     c: Change)
    requires SlotOk(self, order, x, dispute) && Enabled(self, order, x, c) && Ready(db, d, order.buyer, x)
    requires Quiet(c) && Timely(d.at, c)
    ensures var e := FirstEvent(self, order, x, dispute, c); var p := ProjectKnown(db, d, e);
            && (p.Ok? <==> DatesFit(e))
            && (p.Ok? ==> Yields(p, db, x.milestone.id, order.buyer, Changed(self, order, x, c), d.id + 1, db.offers,
                    db.disputes))
  {
    hide BroughtTo, SlotOk, Changed, Ready, ProjectFinanceRequested, ProjectFinanceRequestCancelled;
    match c {
      case Requested(principal, expiresAt, _) => RequestedReplays(self, db, d, order, x, dispute, principal, expiresAt);
      case Withdrawn(wasExpired) => WithdrawnReplays(self, db, d, order, x, dispute, wasExpired);
      case _ => EscrowReplays(self, db, d, order, x, dispute, c);
    }
  }

  lemma FinancingReplays(self: Address, db: ReadModels, d: Delivered, order: Order, x: Slot, dispute: Option<Dispute>,
                         c: Change, offerId: nat)
    requires SlotOk(self, order, x, dispute) && Enabled(self, order, x, c) && Ready(db, d, order.buyer, x)
    requires c.Selected? || c.Advanced? || c.Lapsed?
    requires offerId == if c.Selected? then c.offer.id else x.accepted.value.id
    requires Timely(d.at, c) && offerId <= U64_MAX && offerId in db.offers && db.offers[offerId].last < d.id
    ensures Yields(ProjectKnown(db, d, FirstEvent(self, order, x, dispute, c)), db, x.milestone.id, order.buyer,
                   Changed(self, order, x, c), d.id + 1, SetOffer(db, offerId, OfferAfter(c), d.id).offers, db.disputes)
  {
    hide BroughtTo, SlotOk, Changed, Ready, SetOffer, ProjectOfferAccepted, ProjectAdvanceFunded;
    hide ProjectAcceptanceReleased;
    match c {
      case Selected(offer) => SelectedReplays(self, db, d, order, x, dispute, offer);
      case Advanced(_) => AdvancedReplays(self, db, d, order, x, dispute);
      case Lapsed(reopened) => LapsedReplays(self, db, d, order, x, dispute, reopened);
      case _ =>
    }
  }

  function OfferAfter(c: Change): OfferStatus {
    if c.Selected? then OfferAccepted else if c.Advanced? then OfferFunded else OfferCancelled
  }

  // ---- one change, the whole storage ------------------------------------------------------------

  /** What holds when change `c` of milestone `id` takes `s` to `t`, and `d` delivers its first event next. */
  ghost predicate Stage(s: State, t: State, id: nat, c: Change, db: ReadModels, d: Delivered, bound: nat) {
    && Inv(s) && Makes(s, t, id, c) && Timely(s.now, c)
    && Coupled(s, db, bound) && bound <= d.id && d.at == s.now
  }

  lemma StageFacts(s: State, t: State, id: nat, c: Change, db: ReadModels, d: Delivered, bound: nat)
    requires Stage(s, t, id, c, db, d, bound)
    ensures Known(s, id) && s.slots[id].milestone.id == id && id in t.slots
    ensures SlotOk(s.self, OrderOf(s, id), s.slots[id], FindMilestoneDispute(s, id))
    ensures Enabled(s.self, OrderOf(s, id), s.slots[id], c)
    ensures t.slots == s.slots[id := Changed(s.self, OrderOf(s, id), s.slots[id], c)]
    ensures t.slots[id].milestone.orderId == s.slots[id].milestone.orderId
    ensures Ready(db, d, OrderOf(s, id).buyer, s.slots[id]) && Timely(d.at, c)
    ensures MovesDisputes(s, t, s.slots[id], c) && MovesOffers(s, t, s.slots[id], c) && MovesOrders(s, t, OrderOf(s,
            id), c)
    ensures Coupled(s, db, d.id)
  {
    hide Inv, SlotOk, Ready, Coupled, Changed, Enabled, MovesTokens, MovesDisputes, MovesOffers, MovesOrders;
    InvSlot(s, id);
    ReadyFor(s, db, d, id, bound);
    BoundGrows(s, db, bound, d.id);
    ChangeKeepsIdentity(s.self, OrderOf(s, id), s.slots[id], c);
  }

  lemma QuietStep(s: State, t: State, id: nat, c: Change, db: ReadModels, d: Delivered, bound: nat)
    requires Stage(s, t, id, c, db, d, bound) && Quiet(c)
    ensures Known(s, id) && SlotOk(s.self, OrderOf(s, id), s.slots[id], FindMilestoneDispute(s, id))
    ensures Enabled(s.self, OrderOf(s, id), s.slots[id], c)
    ensures var e := FirstEvent(s.self, OrderOf(s, id), s.slots[id], FindMilestoneDispute(s, id), c);
            var p := ProjectKnown(db, d, e);
            && (p.Ok? <==> DatesFit(e))
            && (p.Ok? ==> p.value.1 && Coupled(t, p.value.0, d.id + 1))
  {
    hide Stage, SlotOk, Ready, Changed, Enabled, SlotsCoupled, OffersCoupled, DisputesCoupled, OrdersCoupled;
    hide SlotMatches, Elsewhere, ProjectKnown, FirstEvent;
    StageFacts(s, t, id, c, db, d, bound);
    QuietReplays(s.self, db, d, OrderOf(s, id), s.slots[id], FindMilestoneDispute(s, id), c);
    var e := FirstEvent(s.self, OrderOf(s, id), s.slots[id], FindMilestoneDispute(s, id), c);
    var p := ProjectKnown(db, d, e);
    if p.Ok? {
      SlotsFollow(s, t, db, p.value.0, id, d.id, d.id + 1);
      OffersStay(s, t, db, p.value.0, d.id, d.id + 1);
      DisputesStay(s, t, db, p.value.0, d.id, d.id + 1);
      OrdersKeep(s, t, db, p.value.0, id, d.id, d.id + 1);
    }
  }

  lemma OrdersKeep(s: State, t: State, db: ReadModels, db': ReadModels, id: nat, bound: nat, more: nat)
    requires OrdersCoupled(s, db, bound) && t.orders == s.orders && Elsewhere(db, db', id) && bound <= more
    ensures OrdersCoupled(t, db', more)
  {
  }

  /** The offer a selection, an advance or a release is about, and what becomes of it in the history. */
  lemma OfferMoves(s: State, t: State, id: nat, c: Change, offerId: nat)
    requires Inv(s) && Known(s, id) && MovesOffers(s, t, s.slots[id], c) && Enabled(s.self, OrderOf(s, id),
            s.slots[id], c)
    requires c.Selected? || c.Advanced? || c.Lapsed?
    requires offerId == if c.Selected? then c.offer.id else s.slots[id].accepted.value.id
    ensures offerId in s.history && offerId <= U64_MAX
    ensures t.history == s.history[offerId := s.history[offerId].(status := OfferAfter(c))]
  {
    hide SlotOk, OrderOk, OfferOk, HasWork, TokenOk, ListOk, MilestoneOk;
    assert AcceptedOk(s, id);
  }

  lemma FinancingStep(s: State, t: State, id: nat, c: Change, db: ReadModels, d: Delivered, bound: nat)
    requires Stage(s, t, id, c, db, d, bound) && (c.Selected? || c.Advanced? || c.Lapsed?)
    ensures Known(s, id) && SlotOk(s.self, OrderOf(s, id), s.slots[id], FindMilestoneDispute(s, id))
    ensures Enabled(s.self, OrderOf(s, id), s.slots[id], c)
    ensures var p := ProjectKnown(db, d, FirstEvent(s.self, OrderOf(s, id), s.slots[id], FindMilestoneDispute(s, id),
            c));
            p.Ok? && p.value.1 && Coupled(t, p.value.0, d.id + 1)
  {
    hide Inv, SlotOk, Ready, Changed, SlotsCoupled, DisputesCoupled, OrdersCoupled, MovesTokens, SlotMatches;
    hide Elsewhere, ProjectKnown, FirstEvent, SetOffer, OfferMatches, MovesOffers;
    StageFacts(s, t, id, c, db, d, bound);
    var x := s.slots[id];
    var offerId := if c.Selected? then c.offer.id else x.accepted.value.id;
    OfferMoves(s, t, id, c, offerId);
    OfferRowKnown(s, db, offerId, d.id);
    FinancingReplays(s.self, db, d, OrderOf(s, id), x, FindMilestoneDispute(s, id), c, offerId);
    hide Enabled, OffersCoupled;
    var p := ProjectKnown(db, d, FirstEvent(s.self, OrderOf(s, id), x, FindMilestoneDispute(s, id), c));
    SlotsFollow(s, t, db, p.value.0, id, d.id, d.id + 1);
    OffersFollow(s, t, db, p.value.0, offerId, OfferAfter(c), d.id, d.id);
    DisputesStay(s, t, db, p.value.0, d.id, d.id + 1);
    OrdersKeep(s, t, db, p.value.0, id, d.id, d.id + 1);
  }

  lemma OfferRowKnown(s: State, db: ReadModels, offerId: nat, bound: nat)
    requires OffersCoupled(s, db, bound) && offerId in s.history
    ensures offerId in db.offers && db.offers[offerId].last < bound
    ensures db.offers[offerId].milestoneId == s.history[offerId].milestoneId
  {
    assert OfferMatches(s.history[offerId], db.offers[offerId], bound);
  }

  lemma DisputeRowKnown(s: State, db: ReadModels, id: nat, bound: nat)
    requires DisputesCoupled(s, db, bound) && id in s.disputes
    ensures id in db.disputes && DisputeMatches(s.disputes[id], db.disputes[id], bound)
  {
  }

  lemma ContestedStep(s: State, t: State, id: nat, c: Change, db: ReadModels, d: Delivered, bound: nat)
    requires Stage(s, t, id, c, db, d, bound) && c.Contested?
    ensures Known(s, id) && SlotOk(s.self, OrderOf(s, id), s.slots[id], FindMilestoneDispute(s, id))
    ensures Enabled(s.self, OrderOf(s, id), s.slots[id], c)
    ensures var p := ProjectKnown(db, d, FirstEvent(s.self, OrderOf(s, id), s.slots[id], FindMilestoneDispute(s, id),
            c));
            p.Ok? && p.value.1 && Coupled(t, p.value.0, d.id + 1)
  {
    hide Inv, SlotOk, Ready, Changed, SlotsCoupled, OrdersCoupled, OffersCoupled, MovesTokens, SlotMatches, Elsewhere;
    hide ProjectDisputeOpened, OfferMatches, MovesOffers;
    StageFacts(s, t, id, c, db, d, bound);
    var x := s.slots[id];
    NewDisputeId(s);
    ContestedReplays(s.self, db, d, OrderOf(s, id), x, FindMilestoneDispute(s, id), c.dispute);
    var p := ProjectKnown(db, d, FirstEvent(s.self, OrderOf(s, id), x, FindMilestoneDispute(s, id), c));
    var row := DisputeRow(id, c.dispute.openedBy, OrderOf(s, id).resolver, DisputeOpen, d.at, None, d.id);
    ContestedMeans(s.self, OrderOf(s, id), x, c);
    hide Enabled, DisputesCoupled, FirstEvent, ProjectKnown;
    SlotsFollow(s, t, db, p.value.0, id, d.id, d.id + 1);
    OffersKept(s, t, id, c, db, p.value.0, d.id);
    DisputesFollow(s, t, db, p.value.0, c.dispute.id, c.dispute, row, d.id, d.id + 1);
    OrdersKeep(s, t, db, p.value.0, id, d.id, d.id + 1);
  }

  lemma ContestedMeans(self: Address, order: Order, x: Slot, c: Change)
    requires Enabled(self, order, x, c) && c.Contested?
    ensures c.dispute.milestoneId == x.milestone.id && c.dispute.status == DisputeOpen && c.dispute.resolver
            == order.resolver
  {
  }

  lemma NewDisputeId(s: State)
    requires Inv(s)
    ensures s.disputeCount + 1 !in s.disputes
  {
    hide SlotOk, OfferOk, HasWork, TokenOk, ListOk, MilestoneOk, OrderOk;
  }

  lemma OffersKept(s: State, t: State, id: nat, c: Change, db: ReadModels, db': ReadModels, bound: nat)
    requires id in s.slots && MovesOffers(s, t, s.slots[id], c) && !c.Selected? && !c.Advanced? && !c.Lapsed?
    requires OffersCoupled(s, db, bound) && db'.offers == db.offers
    ensures OffersCoupled(t, db', bound + 1)
  {
  }

  lemma UpheldStep(s: State, t: State, id: nat, c: Change, db: ReadModels, d: Delivered, bound: nat)
    requires Stage(s, t, id, c, db, d, bound) && c.Upheld?
    ensures Known(s, id) && SlotOk(s.self, OrderOf(s, id), s.slots[id], FindMilestoneDispute(s, id))
    ensures Enabled(s.self, OrderOf(s, id), s.slots[id], c)
    ensures var p := ProjectKnown(db, d, FirstEvent(s.self, OrderOf(s, id), s.slots[id], FindMilestoneDispute(s, id),
            c));
            p.Ok? && p.value.1 && Coupled(t, p.value.0, d.id + 1)
  {
    hide Inv, SlotOk, Ready, Changed, SlotsCoupled, OrdersCoupled, OffersCoupled, DisputesCoupled, MovesTokens;
    hide SlotMatches, Elsewhere, ProjectDisputeResolved, OfferMatches, MovesOffers, FindMilestoneDispute;
    StageFacts(s, t, id, c, db, d, bound);
    var x := s.slots[id];
    RunInRange(s, id);
    var dispute := FindMilestoneDispute(s, id).value;
    DisputeLinked(s, id);
    DisputeRowKnown(s, db, dispute.id, d.id);
    UpheldReplays(s.self, db, d, OrderOf(s, id), x, FindMilestoneDispute(s, id));
    var p := ProjectKnown(db, d, FirstEvent(s.self, OrderOf(s, id), x, FindMilestoneDispute(s, id), c));
    var row := db.disputes[dispute.id].(status := ResolvedSettle, resolvedAt := Some(d.at), last := d.id);
    hide Enabled, FirstEvent, ProjectKnown;
    SlotsFollow(s, t, db, p.value.0, id, d.id, d.id + 1);
    OffersKept(s, t, id, c, db, p.value.0, d.id);
    DisputesFollow(s, t, db, p.value.0, dispute.id, dispute.(status := ResolvedSettle), row, d.id, d.id + 1);
    OrdersKeep(s, t, db, p.value.0, id, d.id, d.id + 1);
  }

  /** A resolved milestone's link leads to its own dispute. */
  lemma DisputeLinked(s: State, id: nat)
    requires Inv(s) && id in s.slots && s.slots[id].dispute.Some?
    ensures FindMilestoneDispute(s, id).Some? && s.slots[id].dispute == Some(FindMilestoneDispute(s, id).value.id)
  {
    hide SlotOk, OfferOk, HasWork, TokenOk, ListOk, OrderOk;
    assert MilestoneOk(s, id);
  }

  /** The storage just before the order completes. */
  function BeforeCompletion(s: State, t: State): State {
    t.(orders := s.orders)
  }

  lemma PaidStep(s: State, t: State, id: nat, c: Change, db: ReadModels, d: Delivered, bound: nat)
    requires Stage(s, t, id, c, db, d, bound) && c.Paid?
    ensures Known(s, id) && SlotOk(s.self, OrderOf(s, id), s.slots[id], FindMilestoneDispute(s, id))
    ensures Enabled(s.self, OrderOf(s, id), s.slots[id], c)
    ensures var p := ProjectKnown(db, d, FirstEvent(s.self, OrderOf(s, id), s.slots[id], FindMilestoneDispute(s, id),
            c));
            p.Ok? && p.value.1 && Coupled(BeforeCompletion(s, t), p.value.0, d.id + 1)
  {
    hide Inv, SlotOk, Ready, Changed, SlotsCoupled, OrdersCoupled, OffersCoupled, DisputesCoupled, MovesTokens;
    hide SlotMatches, Elsewhere, ProjectMilestoneSettled, OfferMatches, MovesOffers, FindMilestoneDispute;
    StageFacts(s, t, id, c, db, d, bound);
    var x := s.slots[id];
    var u := BeforeCompletion(s, t);
    PaidReplays(s.self, db, d, OrderOf(s, id), x, FindMilestoneDispute(s, id));
    var p := ProjectKnown(db, d, FirstEvent(s.self, OrderOf(s, id), x, FindMilestoneDispute(s, id), c));
    hide Enabled, FirstEvent, ProjectKnown;
    SlotsFollow(s, u, db, p.value.0, id, d.id, d.id + 1);
    OffersKept(s, t, id, c, db, p.value.0, d.id);
    OffersOfHistory(t, u, p.value.0, d.id + 1);
    DisputesStay(s, u, db, p.value.0, d.id, d.id + 1);
    OrdersKeep(s, u, db, p.value.0, id, d.id, d.id + 1);
  }

  lemma OffersOfHistory(s: State, t: State, db: ReadModels, bound: nat)
    requires OffersCoupled(s, db, bound) && t.history == s.history
    ensures OffersCoupled(t, db, bound)
  {
  }

  /** The storage between the refund and the resolution of its dispute, as the two events tell it. */
  function BeforeResolution(s: State, t: State): State {
    t.(orders := s.orders, disputes := s.disputes)
  }

  lemma RefundedStep(s: State, t: State, id: nat, c: Change, db: ReadModels, d: Delivered, bound: nat)
    requires Stage(s, t, id, c, db, d, bound) && c.Returned?
    ensures Known(s, id) && SlotOk(s.self, OrderOf(s, id), s.slots[id], FindMilestoneDispute(s, id))
    ensures Enabled(s.self, OrderOf(s, id), s.slots[id], c)
    ensures var p := ProjectKnown(db, d, FirstEvent(s.self, OrderOf(s, id), s.slots[id], FindMilestoneDispute(s, id),
            c));
            p.Ok? && p.value.1 && Coupled(BeforeResolution(s, t), p.value.0, d.id + 1)
  {
    hide Inv, SlotOk, Ready, Changed, SlotsCoupled, OrdersCoupled, OffersCoupled, DisputesCoupled, MovesTokens;
    hide SlotMatches, Elsewhere, ProjectMilestoneRefunded, OfferMatches, MovesOffers, FindMilestoneDispute;
    StageFacts(s, t, id, c, db, d, bound);
    var x := s.slots[id];
    var u := BeforeResolution(s, t);
    ReturnedReplays(s.self, db, d, OrderOf(s, id), x, FindMilestoneDispute(s, id));
    var p := ProjectKnown(db, d, FirstEvent(s.self, OrderOf(s, id), x, FindMilestoneDispute(s, id), c));
    hide Enabled, FirstEvent, ProjectKnown;
    SlotsFollow(s, u, db, p.value.0, id, d.id, d.id + 1);
    OffersKept(s, t, id, c, db, p.value.0, d.id);
    OffersOfHistory(t, u, p.value.0, d.id + 1);
    DisputesStay(s, u, db, p.value.0, d.id, d.id + 1);
    OrdersKeep(s, u, db, p.value.0, id, d.id, d.id + 1);
  }

  /** The second event of a refund marks the dispute resolved. */
  lemma ResolvedStep(u: State, t: State, id: nat, dispute: Dispute, db: ReadModels, d: Delivered)
    requires Coupled(u, db, d.id) && id in u.slots && u.disputes.Keys == t.disputes.Keys
    requires dispute.id in u.disputes && u.disputes[dispute.id] == dispute && dispute.milestoneId == id
    requires dispute.id <= U64_MAX
    requires t == u.(disputes := u.disputes[dispute.id := dispute.(status := ResolvedRefund)])
    ensures var p := ProjectDisputeResolved(db, d, dispute.id, false);
            p.Ok? && p.value.1 && Coupled(t, p.value.0, d.id + 1)
  {
    hide SlotsCoupled, OrdersCoupled, OffersCoupled, DisputesCoupled, RowsOf;
    DisputeRowKnown(u, db, dispute.id, d.id);
    MilestoneRowKnown(u, db, id, d.id);
    RefundResolutionReplays(db, d, dispute.id, id);
    var p := ProjectDisputeResolved(db, d, dispute.id, false);
    var row := db.disputes[dispute.id].(status := ResolvedRefund, resolvedAt := Some(d.at), last := d.id);
    SlotsSee(u, t, db, p.value.0, id, d.id, d.id + 1);
    OffersStay(u, t, db, p.value.0, d.id, d.id + 1);
    DisputesFollow(u, t, db, p.value.0, dispute.id, dispute.(status := ResolvedRefund), row, d.id, d.id + 1);
    OrdersKeep(u, t, db, p.value.0, id, d.id, d.id + 1);
  }

  lemma MilestoneRowKnown(s: State, db: ReadModels, id: nat, bound: nat)
    requires SlotsCoupled(s, db, bound) && id in s.slots
    ensures id in db.milestones
  {
    hide PositionsOf, PositionsMatch;
    assert SlotCoupled(s, db, bound, id);
  }

  /** Slots stay coupled when no row about any milestone changes and orders keep their buyers. */
  lemma SlotsSee(s: State, t: State, db: ReadModels, db': ReadModels, id: nat, bound: nat, more: nat)
    requires SlotsCoupled(s, db, bound) && bound <= more && t.slots == s.slots
    requires RowsOf(db', id) == RowsOf(db, id) && forall k: nat | k != id :: RowsOf(db', k) == RowsOf(db, k)
    requires forall o | o in s.orders :: o in t.orders && t.orders[o].buyer == s.orders[o].buyer
    ensures SlotsCoupled(t, db', more)
  {
    hide RowsOf;
    forall k: nat ensures SlotCoupled(t, db', more, k) {
      assert SlotCoupled(s, db, bound, k);
    }
  }

  lemma OrderRowsApart(db: ReadModels, db': ReadModels)
    requires db' == db.(orders := db'.orders)
    ensures forall k: nat :: RowsOf(db', k) == RowsOf(db, k)
  {
    forall k: nat ensures PositionsOf(db', k) == PositionsOf(db, k) {
    }
  }

  /** An order's status changes: on acceptance, cancellation and completion. */
  lemma OrderStatusStep(u: State, t: State, orderId: nat, status: OrderStatus, db: ReadModels, d: Delivered)
    requires Coupled(u, db, d.id) && orderId in u.orders && orderId <= U64_MAX
    requires t == u.(orders := u.orders[orderId := u.orders[orderId].(status := status)])
    ensures var p := ProjectOrderStatus(db, d, orderId, status); p.Ok? && p.value.1 && Coupled(t, p.value.0, d.id + 1)
  {
    hide SlotsCoupled, OffersCoupled, DisputesCoupled, RowsOf;
    OrderRowKnown(u, db, orderId, d.id);
    var p := ProjectOrderStatus(db, d, orderId, status);
    OrderRowsApart(db, p.value.0);
    SlotsSee(u, t, db, p.value.0, 0, d.id, d.id + 1);
    OffersStay(u, t, db, p.value.0, d.id, d.id + 1);
    DisputesStay(u, t, db, p.value.0, d.id, d.id + 1);
  }

  lemma OrderRowKnown(s: State, db: ReadModels, id: nat, bound: nat)
    requires OrdersCoupled(s, db, bound) && id in s.orders
    ensures id in db.orders && OrderMatches(s.orders[id], db.orders[id], bound)
  {
  }

  // ---- one call ---------------------------------------------------------------------------------

  /** The events of `log`, delivered next, project without a throw exactly if their dates fit, and then the
      read models follow the storage to `t`. */
  ghost predicate Follows(t: State, db: ReadModels, ds: seq<Delivered>, log: seq<Stamped>, bound: nat) {
    && (Fold(db, ds).Ok? <==> AllDatesFit(log))
    && (Fold(db, ds).Ok? ==> Coupled(t, Fold(db, ds).value, NextPlace(ds, bound)) && AllProjected(db, ds))
  }

  lemma OneFollows(t: State, db: ReadModels, ds: seq<Delivered>, at: U64, e: Event, bound: nat)
    requires Delivers(ds, Stamp(at, [e]), bound)
    requires var p := ProjectKnown(db, ds[0], e);
             (p.Ok? <==> DatesFit(e)) && (p.Ok? ==> p.value.1 && Coupled(t, p.value.0, ds[0].id + 1))
    ensures Follows(t, db, ds, Stamp(at, [e]), bound)
  {
    hide Coupled, DatesFit, ProjectKnown;
    assert ds == [ds[0]];
    FoldOne(db, ds[0]);
    assert AllDatesFit(Stamp(at, [e])) <==> DatesFit(e) by {
      assert Stamp(at, [e])[0] == Stamped(at, e);
    }
  }

  lemma SingleFollows(s: State, t: State, id: nat, c: Change, db: ReadModels, ds: seq<Delivered>, bound: nat)
    requires Inv(s) && Makes(s, t, id, c) && Timely(s.now, c) && Coupled(s, db, bound) && !c.Paid? && !c.Returned?
    requires SlotOk(s.self, OrderOf(s, id), s.slots[id], FindMilestoneDispute(s, id))
    requires Delivers(ds, Stamp(s.now, [FirstEvent(s.self, OrderOf(s, id), s.slots[id], FindMilestoneDispute(s, id),
            c)]), bound)
    ensures Follows(t, db, ds, Stamp(s.now, [FirstEvent(s.self, OrderOf(s, id), s.slots[id], FindMilestoneDispute(s,
            id), c)]), bound)
  {
    hide Inv, Coupled, SlotOk, FirstEvent, ProjectKnown, DatesFit, MovesTokens, MovesOffers, MovesOrders;
    hide MovesDisputes, Changed, Timely;
    var e := FirstEvent(s.self, OrderOf(s, id), s.slots[id], FindMilestoneDispute(s, id), c);
    assert Stamp(s.now, [e])[0].at == s.now;
    assert Stage(s, t, id, c, db, ds[0], bound);
    hide Stage, Makes;
    if Quiet(c) {
      QuietStep(s, t, id, c, db, ds[0], bound);
    } else {
      OtherDatesFit(s.self, OrderOf(s, id), s.slots[id], FindMilestoneDispute(s, id), c);
      if c.Contested? {
        ContestedStep(s, t, id, c, db, ds[0], bound);
      } else if c.Upheld? {
        UpheldStep(s, t, id, c, db, ds[0], bound);
      } else {
        FinancingStep(s, t, id, c, db, ds[0], bound);
      }
    }
    OneFollows(t, db, ds, s.now, e, bound);
  }

  lemma OtherDatesFit(self: Address, order: Order, x: Slot, d: Option<Dispute>, c: Change)
    requires SlotOk(self, order, x, d) && Enabled(self, order, x, c) && !c.Requested?
    ensures DatesFit(FirstEvent(self, order, x, d, c))
  {
    hide SlotOk;
  }

  lemma DeliversSplit(ds: seq<Delivered>, a: seq<Stamped>, b: seq<Stamped>, bound: nat)
    requires Delivers(ds, a + b, bound)
    ensures Delivers(ds[..|a|], a, bound) && Delivers(ds[|a|..], b, NextPlace(ds[..|a|], bound))
    ensures ds == ds[..|a|] + ds[|a|..]
    ensures NextPlace(ds, bound) == NextPlace(ds[|a|..], NextPlace(ds[..|a|], bound))
  {
    var first, rest := ds[..|a|], ds[|a|..];
    forall i | 0 <= i < |first| ensures first[i] == ds[i] && (a + b)[i] == a[i] {
    }
    forall i | 0 <= i < |rest| ensures rest[i] == ds[|a| + i] && (a + b)[|a| + i] == b[i] {
    }
  }

  lemma DatesConcat(a: seq<Stamped>, b: seq<Stamped>)
    ensures AllDatesFit(a + b) <==> AllDatesFit(a) && AllDatesFit(b)
  {
    hide DatesFit;
    assert forall i | 0 <= i < |a| :: (a + b)[i] == a[i];
    assert forall i | 0 <= i < |b| :: (a + b)[|a| + i] == b[i];
  }

  lemma FollowsThen(u: State, t: State, db: ReadModels, ds: seq<Delivered>, a: seq<Stamped>, b: seq<Stamped>,
                    bound: nat)
    requires Delivers(ds, a + b, bound)
    requires Follows(u, db, ds[..|a|], a, bound)
    requires Fold(db, ds[..|a|]).Ok? ==>
               Follows(t, Fold(db, ds[..|a|]).value, ds[|a|..], b, NextPlace(ds[..|a|], bound))
    ensures Follows(t, db, ds, a + b, bound)
  {
    hide Coupled, Fold, AllDatesFit, AllProjected, Delivers, NextPlace;
    DeliversSplit(ds, a, b, bound);
    FoldConcat(db, ds[..|a|], ds[|a|..]);
    if Fold(db, ds).Ok? {
      AllProjectedConcat(db, ds[..|a|], ds[|a|..]);
    }
    DatesConcat(a, b);
  }

  lemma CompletionFollows(u: State, t: State, order: Order, completes: bool, db: ReadModels, ds: seq<Delivered>,
                          at: U64, bound: nat)
    requires Coupled(u, db, bound) && order.id in u.orders && u.orders[order.id] == order && order.id <= U64_MAX
    requires t == u.(orders := if completes then u.orders[order.id := order.(status := Completed)] else u.orders)
    requires Delivers(ds, Stamp(at, Completion(order, completes)), bound)
    ensures Follows(t, db, ds, Stamp(at, Completion(order, completes)), bound)
  {
    hide Coupled;
    if completes {
      hide ProjectOrderStatus;
      assert Stamp(at, [OrderCompleted(order.id)])[0] == Stamped(at, OrderCompleted(order.id));
      BoundGrows(u, db, bound, ds[0].id);
      OrderStatusStep(u, t, order.id, Completed, db, ds[0]);
      OneFollows(t, db, ds, at, OrderCompleted(order.id), bound);
    }
  }

  /** After a settlement's first event the tables agree with the storage before the order completes. */
  lemma PaidFirst(s: State, t: State, id: nat, c: Change, db: ReadModels, ds: seq<Delivered>, bound: nat)
    requires Inv(s) && Makes(s, t, id, c) && Timely(s.now, c) && Coupled(s, db, bound) && c.Paid?
    requires SlotOk(s.self, OrderOf(s, id), s.slots[id], FindMilestoneDispute(s, id))
    requires var order := OrderOf(s, id);
             Delivers(ds, Stamp(s.now, [FirstEvent(s.self, order, s.slots[id], FindMilestoneDispute(s, id), c)]), bound)
    ensures var order := OrderOf(s, id);
            Follows(BeforeCompletion(s, t), db, ds,
                    Stamp(s.now, [FirstEvent(s.self, order, s.slots[id], FindMilestoneDispute(s, id), c)]), bound)
  {
    hide Inv, Coupled, SlotOk, FirstEvent, ProjectKnown, DatesFit, MovesTokens, MovesOffers, MovesDisputes, Changed;
    hide Timely, Fold;
    var order := OrderOf(s, id);
    var e := FirstEvent(s.self, order, s.slots[id], FindMilestoneDispute(s, id), c);
    assert Stamp(s.now, [e])[0].at == s.now;
    assert Stage(s, t, id, c, db, ds[0], bound);
    PaidStep(s, t, id, c, db, ds[0], bound);
    OtherDatesFit(s.self, order, s.slots[id], FindMilestoneDispute(s, id), c);
    OneFollows(BeforeCompletion(s, t), db, ds, s.now, e, bound);
  }

  lemma PaidFollows(s: State, t: State, id: nat, c: Change, db: ReadModels, ds: seq<Delivered>, bound: nat)
    requires Inv(s) && Makes(s, t, id, c) && Timely(s.now, c) && Coupled(s, db, bound) && c.Paid?
    requires SlotOk(s.self, OrderOf(s, id), s.slots[id], FindMilestoneDispute(s, id))
    requires var order := OrderOf(s, id);
             Delivers(ds, Stamp(s.now, [FirstEvent(s.self, order, s.slots[id], FindMilestoneDispute(s, id), c)]
                                       + Completion(order, Completes(t, order, c))), bound)
    ensures var order := OrderOf(s, id);
            Follows(t, db, ds, Stamp(s.now, [FirstEvent(s.self, order, s.slots[id], FindMilestoneDispute(s, id), c)]
                                            + Completion(order, Completes(t, order, c))), bound)
  {
    hide Inv, Coupled, SlotOk, FirstEvent, DatesFit, MovesTokens, MovesOffers, MovesDisputes, Changed;
    hide Timely, Fold, Completes;
    var order := OrderOf(s, id);
    var e := FirstEvent(s.self, order, s.slots[id], FindMilestoneDispute(s, id), c);
    var u := BeforeCompletion(s, t);
    var rest := Completion(order, Completes(t, order, c));
    StampConcat(s.now, [e], rest);
    var a, b := Stamp(s.now, [e]), Stamp(s.now, rest);
    DeliversSplit(ds, a, b, bound);
    PaidFirst(s, t, id, c, db, ds[..1], bound);
    OrderNamed(s, id);
    if Fold(db, ds[..1]).Ok? {
      CompletionFollows(u, t, order, Completes(t, order, c), Fold(db, ds[..1]).value, ds[1..], s.now,
              NextPlace(ds[..1], bound));
    }
    FollowsThen(u, t, db, ds, a, b, bound);
  }

  lemma OrderNamed(s: State, id: nat)
    requires Inv(s) && Known(s, id)
    ensures OrderOf(s, id).id == s.slots[id].milestone.orderId && OrderOf(s, id).id <= U64_MAX
  {
    hide Inv, SlotOk;
    InvSlot(s, id);
    RunInRange(s, id);
  }

  /** The event that resolves the dispute of a refunded milestone. */
  function ResolutionEvent(order: Order, id: nat, dispute: Option<Dispute>): Event
    requires dispute.Some?
  {
    DisputeResolved(id, dispute.value.id, order.resolver, false)
  }

  lemma ReturnedEvents(self: Address, order: Order, x: Slot, dispute: Option<Dispute>, completes: bool)
    requires SlotOk(self, order, x, dispute) && Enabled(self, order, x, Returned)
    ensures dispute.Some?
    ensures EventsOf(self, order, x, dispute, Returned, completes) ==
            [FirstEvent(self, order, x, dispute, Returned), ResolutionEvent(order, x.milestone.id, dispute)]
            + Completion(order, completes)
  {
  }

  lemma ResolutionFollows(s: State, t: State, id: nat, db: ReadModels, ds: seq<Delivered>, bound: nat)
    requires Inv(s) && Makes(s, t, id, Returned) && FindMilestoneDispute(s, id).Some?
    requires Coupled(BeforeResolution(s, t), db, bound)
    requires Delivers(ds, Stamp(s.now, [ResolutionEvent(OrderOf(s, id), id, FindMilestoneDispute(s, id))]), bound)
    ensures Follows(BeforeCompletion(s, t), db, ds,
                    Stamp(s.now, [ResolutionEvent(OrderOf(s, id), id, FindMilestoneDispute(s, id))]), bound)
  {
    hide Inv, Coupled, MovesTokens, MovesOffers, Changed, Fold, FindMilestoneDispute, ProjectDisputeResolved, Enabled;
    var dispute := FindMilestoneDispute(s, id).value;
    RunInRange(s, id);
    DisputeLinked(s, id);
    BoundGrows(BeforeResolution(s, t), db, bound, ds[0].id);
    ResolvedStep(BeforeResolution(s, t), BeforeCompletion(s, t), id, dispute, db, ds[0]);
    OneFollows(BeforeCompletion(s, t), db, ds, s.now, ResolutionEvent(OrderOf(s, id), id, FindMilestoneDispute(s,
            id)), bound);
  }

  /** After a refund's first event the tables agree with the storage before the dispute is resolved. */
  lemma ReturnedFirst(s: State, t: State, id: nat, db: ReadModels, ds: seq<Delivered>, bound: nat)
    requires Inv(s) && Makes(s, t, id, Returned) && Coupled(s, db, bound)
    requires SlotOk(s.self, OrderOf(s, id), s.slots[id], FindMilestoneDispute(s, id))
    requires var order := OrderOf(s, id); var dispute := FindMilestoneDispute(s, id);
             Delivers(ds, Stamp(s.now, [FirstEvent(s.self, order, s.slots[id], dispute, Returned)]), bound)
    ensures var order := OrderOf(s, id); var dispute := FindMilestoneDispute(s, id);
            Follows(BeforeResolution(s, t), db, ds,
                    Stamp(s.now, [FirstEvent(s.self, order, s.slots[id], dispute, Returned)]), bound)
  {
    hide Inv, Coupled, SlotOk, FirstEvent, ProjectKnown, DatesFit, MovesTokens, MovesOffers, MovesDisputes, Changed;
    hide Fold, FindMilestoneDispute;
    var order := OrderOf(s, id);
    var dispute := FindMilestoneDispute(s, id);
    var e := FirstEvent(s.self, order, s.slots[id], dispute, Returned);
    assert Stamp(s.now, [e])[0].at == s.now;
    assert Stage(s, t, id, Returned, db, ds[0], bound);
    RefundedStep(s, t, id, Returned, db, ds[0], bound);
    OtherDatesFit(s.self, order, s.slots[id], dispute, Returned);
    OneFollows(BeforeResolution(s, t), db, ds, s.now, e, bound);
  }

  /** After its second, with the storage before the order completes. */
  lemma ReturnedSecond(s: State, t: State, id: nat, db: ReadModels, ds: seq<Delivered>, bound: nat)
    requires Inv(s) && Makes(s, t, id, Returned) && Coupled(s, db, bound)
    requires SlotOk(s.self, OrderOf(s, id), s.slots[id], FindMilestoneDispute(s, id))
    requires FindMilestoneDispute(s, id).Some?
    requires var order := OrderOf(s, id); var dispute := FindMilestoneDispute(s, id);
             Delivers(ds, Stamp(s.now, [FirstEvent(s.self, order, s.slots[id], dispute, Returned),
                                        ResolutionEvent(order, id, dispute)]), bound)
    ensures var order := OrderOf(s, id); var dispute := FindMilestoneDispute(s, id);
            Follows(BeforeCompletion(s, t), db, ds,
                    Stamp(s.now, [FirstEvent(s.self, order, s.slots[id], dispute, Returned),
                                  ResolutionEvent(order, id, dispute)]), bound)
  {
    hide Inv, Coupled, SlotOk, FirstEvent, DatesFit, MovesTokens, MovesOffers, MovesDisputes, Changed, Follows;
    hide Fold, FindMilestoneDispute, ResolutionEvent, MovesOrders;
    var order := OrderOf(s, id);
    var dispute := FindMilestoneDispute(s, id);
    var e := FirstEvent(s.self, order, s.slots[id], dispute, Returned);
    var f := ResolutionEvent(order, id, dispute);
    var a, b := Stamp(s.now, [e]), Stamp(s.now, [f]);
    assert [e, f] == [e] + [f];
    StampConcat(s.now, [e], [f]);
    DeliversSplit(ds, a, b, bound);
    ReturnedFirst(s, t, id, db, ds[..1], bound);
    if Fold(db, ds[..1]).Ok? {
      FollowsCoupled(BeforeResolution(s, t), db, ds[..1], a, bound);
      ResolutionFollows(s, t, id, Fold(db, ds[..1]).value, ds[1..], NextPlace(ds[..1], bound));
    }
    FollowsThen(BeforeResolution(s, t), BeforeCompletion(s, t), db, ds, a, b, bound);
  }

  lemma FollowsCoupled(t: State, db: ReadModels, ds: seq<Delivered>, log: seq<Stamped>, bound: nat)
    requires Follows(t, db, ds, log, bound) && Fold(db, ds).Ok?
    ensures Coupled(t, Fold(db, ds).value, NextPlace(ds, bound))
  {
    hide Coupled, Fold;
  }

  lemma ReturnedFollows(s: State, t: State, id: nat, db: ReadModels, ds: seq<Delivered>, bound: nat)
    requires Inv(s) && Makes(s, t, id, Returned) && Coupled(s, db, bound)
    requires SlotOk(s.self, OrderOf(s, id), s.slots[id], FindMilestoneDispute(s, id))
    requires FindMilestoneDispute(s, id).Some?
    requires var order := OrderOf(s, id); var dispute := FindMilestoneDispute(s, id);
             Delivers(ds, Stamp(s.now, [FirstEvent(s.self, order, s.slots[id], dispute, Returned),
                                        ResolutionEvent(order, id, dispute)]
                                       + Completion(order, Completes(t, order, Returned))), bound)
    ensures var order := OrderOf(s, id); var dispute := FindMilestoneDispute(s, id);
            Follows(t, db, ds, Stamp(s.now, [FirstEvent(s.self, order, s.slots[id], dispute, Returned),
                                             ResolutionEvent(order, id, dispute)]
                                            + Completion(order, Completes(t, order, Returned))), bound)
  {
    hide Inv, Coupled, SlotOk, FirstEvent, DatesFit, MovesTokens, MovesOffers, MovesDisputes, Changed, Follows;
    hide Fold, Completes, FindMilestoneDispute, ResolutionEvent;
    var order := OrderOf(s, id);
    var dispute := FindMilestoneDispute(s, id);
    var es := [FirstEvent(s.self, order, s.slots[id], dispute, Returned), ResolutionEvent(order, id, dispute)];
    var completes := Completes(t, order, Returned);
    var a, b := Stamp(s.now, es), Stamp(s.now, Completion(order, completes));
    StampConcat(s.now, es, Completion(order, completes));
    DeliversSplit(ds, a, b, bound);
    ReturnedSecond(s, t, id, db, ds[..2], bound);
    OrderNamed(s, id);
    if Fold(db, ds[..2]).Ok? {
      FollowsCoupled(BeforeCompletion(s, t), db, ds[..2], a, bound);
      CompletionFollows(BeforeCompletion(s, t), t, order, completes, Fold(db, ds[..2]).value, ds[2..], s.now,
                        NextPlace(ds[..2], bound));
    }
    FollowsThen(BeforeCompletion(s, t), t, db, ds, a, b, bound);
  }

  lemma SingleEvents(self: Address, order: Order, x: Slot, d: Option<Dispute>, c: Change, completes: bool)
    requires SlotOk(self, order, x, d) && Enabled(self, order, x, c) && !c.Returned?
    ensures EventsOf(self, order, x, d, c, completes) ==
            [FirstEvent(self, order, x, d, c)] + (if c.Paid? then Completion(order, completes) else [])
  {
    hide SlotOk;
  }

  /** Whatever a call changes about a milestone, its events carry over to the read models. */
  lemma ChangeFollows(s: State, d: Done<()>, id: nat, c: Change, db: ReadModels, ds: seq<Delivered>, bound: nat)
    requires Inv(s) && Realises(s, d, id, c) && Timely(s.now, c) && Coupled(s, db, bound)
    requires Delivers(ds, Stamp(s.now, d.events), bound)
    ensures Follows(d.state, db, ds, Stamp(s.now, d.events), bound)
  {
    hide Inv, Coupled, SlotOk, FirstEvent, MovesTokens, MovesOffers, MovesDisputes, MovesOrders, Changed, Follows;
    hide Timely, Completes, FindMilestoneDispute, EventsOf, Enabled, Delivers, ResolutionEvent;
    var order := OrderOf(s, id);
    var dispute := FindMilestoneDispute(s, id);
    SlotNamed(s, id);
    if c.Returned? {
      ReturnedEvents(s.self, order, s.slots[id], dispute, Completes(d.state, order, c));
      ReturnedFollows(s, d.state, id, db, ds, bound);
    } else {
      SingleEvents(s.self, order, s.slots[id], dispute, c, Completes(d.state, order, c));
      if c.Paid? {
        PaidFollows(s, d.state, id, c, db, ds, bound);
      } else {
        SingleFollows(s, d.state, id, c, db, ds, bound);
      }
    }
  }

  lemma SlotNamed(s: State, id: nat)
    requires Inv(s) && id in s.slots
    ensures s.slots[id].milestone.id == id
  {
    hide Inv, SlotOk;
    InvSlot(s, id);
  }

  // ---- calls beside the milestones --------------------------------------------------------------

  lemma OrderCreatedStep(s: State, t: State, o: Order, db: ReadModels, d: Delivered)
    requires Coupled(s, db, d.id) && o.id !in s.orders && o.id <= U64_MAX && o.status == Created && o.createdAt == d.at
    requires t == s.(orderCount := t.orderCount, orders := s.orders[o.id := o])
    ensures var p := ProjectOrderCreated(db, d, o.id, o.buyer, o.supplier, o.attestor, o.resolver, o.asset);
            p.Ok? && p.value.1 && Coupled(t, p.value.0, d.id + 1)
  {
    hide SlotsCoupled, OffersCoupled, DisputesCoupled, RowsOf;
    var p := ProjectOrderCreated(db, d, o.id, o.buyer, o.supplier, o.attestor, o.resolver, o.asset);
    OrderRowsApart(db, p.value.0);
    SlotsSee(s, t, db, p.value.0, 0, d.id, d.id + 1);
    OffersStay(s, t, db, p.value.0, d.id, d.id + 1);
    DisputesStay(s, t, db, p.value.0, d.id, d.id + 1);
    OrderAdded(s, t, o, db, p.value.0, d.id, d.id + 1);
  }

  lemma OrderAdded(s: State, t: State, o: Order, db: ReadModels, db': ReadModels, bound: nat, last: nat)
    requires OrdersCoupled(s, db, bound) && bound < last && t.orders == s.orders[o.id := o]
    requires db'.orders == db.orders[o.id := OrderRow(o.buyer, o.supplier, o.attestor, o.resolver, o.asset, o.status,
            o.createdAt, last - 1)]
    ensures OrdersCoupled(t, db', last)
  {
  }

  predicate Pristine(x: Slot) {
    && x.milestone.status == Unfunded && x.milestone.funded == 0 && x.milestone.evidence.None?
    && x.request.None? && x.accepted.None? && x.position.None? && x.dispute.None?
  }

  lemma MilestoneAddedRows(db: ReadModels, id: nat, row: MilestoneRow)
    ensures var db' := db.(milestones := db.milestones[id := row]);
            RowsOf(db', id) == RowsOf(db, id).(milestone := Some(row)) && Elsewhere(db, db', id)
  {
    var db' := db.(milestones := db.milestones[id := row]);
    forall k: nat ensures PositionsOf(db', k) == PositionsOf(db, k) {
    }
  }

  lemma MilestoneCreatedStep(s: State, t: State, id: nat, x: Slot, db: ReadModels, d: Delivered)
    requires Coupled(s, db, d.id) && id !in s.slots && Pristine(x) && x.milestone.id == id && InRange(x)
    requires 0 < x.milestone.amount && x.milestone.orderId in s.orders && x.milestone.createdAt == d.at
    requires x.milestone.deadline.Some? ==> x.milestone.deadline.value > 0
    requires t == s.(milestoneCount := t.milestoneCount, slots := s.slots[id := x], lists := t.lists)
    ensures var m := x.milestone; var p := ProjectMilestoneCreated(db, d, m.orderId, m.id, m.index, m.amount,
            m.deadline);
            && (p.Ok? <==> (m.deadline.Some? ==> m.deadline.value <= MAX_DATE_SECONDS))
            && (p.Ok? ==> p.value.1 && Coupled(t, p.value.0, d.id + 1))
  {
    hide SlotsCoupled, OffersCoupled, DisputesCoupled, RowsOf, Elsewhere;
    var m := x.milestone;
    if m.deadline.Some? {
      DateFits(m.deadline.value);
    }
    hide LedgerTimeToDate, Storable;
    OrderRowKnown(s, db, m.orderId, d.id);
    hide OrdersCoupled;
    NoRowsYet(s, db, d.id, id);
    var p := ProjectMilestoneCreated(db, d, m.orderId, m.id, m.index, m.amount, m.deadline);
    if p.Ok? {
      var row := MilestoneRow(m.orderId, m.index, m.amount, 0, m.deadline, None, Unfunded, d.at, d.id);
      MilestoneAddedRows(db, id, row);
      SlotAdded(s, t, id, db, p.value.0, d.id, d.id + 1);
      OffersStay(s, t, db, p.value.0, d.id, d.id + 1);
      DisputesStay(s, t, db, p.value.0, d.id, d.id + 1);
      OrdersKeep(s, t, db, p.value.0, id, d.id, d.id + 1);
    }
  }

  lemma NoRowsYet(s: State, db: ReadModels, bound: nat, id: nat)
    requires SlotsCoupled(s, db, bound) && id !in s.slots
    ensures NoRows(RowsOf(db, id)) && id !in db.milestones
  {
    hide PositionsOf;
    assert SlotCoupled(s, db, bound, id);
  }

  lemma SlotAdded(s: State, t: State, id: nat, db: ReadModels, db': ReadModels, bound: nat, more: nat)
    requires SlotsCoupled(s, db, bound) && bound <= more && id !in s.slots && id in t.slots && t.orders == s.orders
    requires t.slots == s.slots[id := t.slots[id]] && Pristine(t.slots[id]) && t.slots[id].milestone.orderId in t.orders
    requires NoRows(RowsOf(db, id)) && Elsewhere(db, db', id) && RowsOf(db', id).milestone.Some?
    requires RowsOf(db', id) == RowsOf(db, id).(milestone := RowsOf(db', id).milestone)
    requires MilestoneMatches(t.slots[id].milestone, RowsOf(db', id).milestone.value, more)
    ensures SlotsCoupled(t, db', more)
  {
    hide RowsOf;
    forall k: nat ensures SlotCoupled(t, db', more, k) {
      assert SlotCoupled(s, db, bound, k);
    }
  }

  lemma OfferRowsApart(db: ReadModels, db': ReadModels)
    requires db' == db.(offers := db'.offers)
    ensures forall k: nat :: RowsOf(db', k) == RowsOf(db, k)
  {
    forall k: nat ensures PositionsOf(db', k) == PositionsOf(db, k) {
    }
  }

  lemma OfferCreatedStep(s: State, t: State, o: Offer, db: ReadModels, d: Delivered)
    requires Coupled(s, db, d.id) && o.id !in s.history && o.id <= U64_MAX && o.milestoneId in s.slots
            && o.milestoneId <= U64_MAX
    requires o.status == OfferOpen && 0 <= o.principal && 0 <= o.repayment && 0 < o.expiresAt
    requires t == s.(offerCount := t.offerCount, offers := t.offers, offerIndex := t.offerIndex,
                     history := s.history[o.id := o])
    ensures var p := ProjectOfferCreated(db, d, o.milestoneId, o.id, o.funder, o.principal, o.repayment, o.expiresAt);
            && (p.Ok? <==> o.expiresAt <= MAX_DATE_SECONDS)
            && (p.Ok? ==> p.value.1 && Coupled(t, p.value.0, d.id + 1))
  {
    hide SlotsCoupled, OrdersCoupled, DisputesCoupled, RowsOf;
    DateFits(o.expiresAt);
    hide LedgerTimeToDate, Storable;
    MilestoneRowKnown(s, db, o.milestoneId, d.id);
    var p := ProjectOfferCreated(db, d, o.milestoneId, o.id, o.funder, o.principal, o.repayment, o.expiresAt);
    if p.Ok? {
      OfferRowsApart(db, p.value.0);
      SlotsSee(s, t, db, p.value.0, 0, d.id, d.id + 1);
      OrdersStay(s, t, db, p.value.0, d.id, d.id + 1);
      DisputesStay(s, t, db, p.value.0, d.id, d.id + 1);
      OfferAdded(s, t, o, db, p.value.0, d.id, d.at);
    }
  }

  lemma OfferAdded(s: State, t: State, o: Offer, db: ReadModels, db': ReadModels, last: nat, at: U64)
    requires OffersCoupled(s, db, last) && t.history == s.history[o.id := o]
    requires db'.offers == db.offers[o.id := OfferRow(o.milestoneId, o.funder, o.principal, o.repayment, o.status,
            o.expiresAt, at, last)]
    ensures OffersCoupled(t, db', last + 1)
  {
  }

  lemma OfferCancelledStep(s: State, t: State, offerId: nat, db: ReadModels, d: Delivered)
    requires Coupled(s, db, d.id) && offerId in s.history && offerId <= U64_MAX
    requires t == s.(offers := t.offers, history := s.history[offerId := s.history[offerId].(status := OfferCancelled)])
    ensures var p := ProjectOfferCancelled(db, d, offerId); p.Ok? && p.value.1 && Coupled(t, p.value.0, d.id + 1)
  {
    hide SlotsCoupled, OrdersCoupled, DisputesCoupled, RowsOf;
    OfferRowKnown(s, db, offerId, d.id);
    var p := ProjectOfferCancelled(db, d, offerId);
    OfferRowsApart(db, p.value.0);
    OffersFollow(s, t, db, p.value.0, offerId, OfferCancelled, d.id, d.id);
    hide OffersCoupled;
    SlotsSee(s, t, db, p.value.0, 0, d.id, d.id + 1);
    OrdersStay(s, t, db, p.value.0, d.id, d.id + 1);
    DisputesStay(s, t, db, p.value.0, d.id, d.id + 1);
  }

  lemma StampOne(at: U64, e: Event)
    ensures Stamp(at, [e]) == [Stamped(at, e)]
  {
  }

  lemma CreateOrderFollows(s: State, auth: Auth, buyer: Address, supplier: Address, attestor: Address,
                           resolver: Address,
                           db: ReadModels, ds: seq<Delivered>, bound: nat)
    requires Inv(s) && Coupled(s, db, bound) && CreateOrder(s, auth, buyer, supplier, attestor, resolver).Ok?
    requires Delivers(ds, Stamp(s.now, CreateOrder(s, auth, buyer, supplier, attestor, resolver).value.events), bound)
    ensures var d := CreateOrder(s, auth, buyer, supplier, attestor, resolver).value;
            Follows(d.state, db, ds, Stamp(s.now, d.events), bound)
  {
    hide Inv, Coupled, CreateOrder, ProjectOrderCreated, Fold;
    CreateOrderWrites(s, auth, buyer, supplier, attestor, resolver);
    var d := CreateOrder(s, auth, buyer, supplier, attestor, resolver).value;
    NextFree(s);
    StampOne(s.now, d.events[0]);
    BoundGrows(s, db, bound, ds[0].id);
    OrderCreatedStep(s, d.state, d.state.orders[d.value], db, ds[0]);
    OneFollows(d.state, db, ds, s.now, d.events[0], bound);
  }

  lemma NextFree(s: State)
    requires Inv(s)
    ensures s.orderCount + 1 !in s.orders && s.milestoneCount + 1 !in s.slots && s.offerCount + 1 !in s.history
  {
    hide SlotOk, OfferOk, HasWork, TokenOk, ListOk, MilestoneOk, OrderOk;
  }

  lemma CreateMilestoneFollows(s: State, auth: Auth, orderId: nat, amount: I128, deadline: Option<U64>,
                               db: ReadModels, ds: seq<Delivered>, bound: nat)
    requires Inv(s) && Coupled(s, db, bound) && CreateMilestone(s, auth, orderId, amount, deadline).Ok?
    requires Delivers(ds, Stamp(s.now, CreateMilestone(s, auth, orderId, amount, deadline).value.events), bound)
    ensures var d := CreateMilestone(s, auth, orderId, amount, deadline).value;
            Follows(d.state, db, ds, Stamp(s.now, d.events), bound)
  {
    hide Inv, Coupled, CreateMilestone, ProjectMilestoneCreated, Fold, Follows, Consistent, KeysOk;
    hide OrdersOk, ListsOk, MilestonesOk, OffersOk, TokenOk;
    InvParts(s);
    CreateMilestoneWrites(s, auth, orderId, amount, deadline);
    var d := CreateMilestone(s, auth, orderId, amount, deadline).value;
    NextFree(s);
    OrderInRange(s, orderId);
    StampOne(s.now, d.events[0]);
    BoundGrows(s, db, bound, ds[0].id);
    MilestoneCreatedStep(s, d.state, d.value, d.state.slots[d.value], db, ds[0]);
    OneFollows(d.state, db, ds, s.now, d.events[0], bound);
  }

  lemma OrderInRange(s: State, orderId: nat)
    requires Inv(s) && orderId in s.orders
    ensures orderId <= U64_MAX && s.orders[orderId].id == orderId
  {
    hide SlotOk, OfferOk, HasWork, TokenOk, ListOk, MilestoneOk;
    assert OrderOk(s, orderId);
  }

  /** Accepting or cancelling an order publishes one event and writes the order's status. */
  lemma StatusCallWrites(s: State, auth: Auth, orderId: nat, call: Call)
    requires Execute(s, auth, call).Ok? && orderId in s.orders ==> s.orders[orderId].id == orderId
    requires Execute(s, auth, call).Ok? && (call == CallAcceptOrder(orderId) || call == CallCancelOrder(orderId))
    ensures orderId in s.orders
    ensures var order := s.orders[orderId];
            Execute(s, auth, call).value ==
            if call.CallAcceptOrder?
            then Done(s.(orders := s.orders[orderId := order.(status := Active)]), (),
                      [OrderAccepted(orderId, order.supplier)])
            else Done(s.(orders := s.orders[orderId := order.(status := Cancelled)]), (),
                      [OrderCancelled(orderId, order.buyer)])
  {
  }

  lemma OrderStatusFollows(s: State, auth: Auth, orderId: nat, call: Call, db: ReadModels, ds: seq<Delivered>,
                           bound: nat)
    requires Inv(s) && Coupled(s, db, bound) && Execute(s, auth, call).Ok?
    requires call == CallAcceptOrder(orderId) || call == CallCancelOrder(orderId)
    requires Delivers(ds, Stamp(s.now, Execute(s, auth, call).value.events), bound)
    ensures var d := Execute(s, auth, call).value; Follows(d.state, db, ds, Stamp(s.now, d.events), bound)
  {
    hide Inv, Coupled, ProjectOrderStatus, Fold, Execute;
    var d := Execute(s, auth, call).value;
    if orderId in s.orders {
      OrderInRange(s, orderId);
    }
    StatusCallWrites(s, auth, orderId, call);
    StampOne(s.now, d.events[0]);
    BoundGrows(s, db, bound, ds[0].id);
    OrderStatusStep(s, d.state, orderId, if call.CallAcceptOrder? then Active else Cancelled, db, ds[0]);
    OneFollows(d.state, db, ds, s.now, d.events[0], bound);
  }

  lemma MakeOfferFollows(s: State, auth: Auth, id: nat, funder: Address, principal: I128, repayment: I128,
                         expiresAt: U64,
                         db: ReadModels, ds: seq<Delivered>, bound: nat)
    requires Inv(s) && Coupled(s, db, bound) && MakeOffer(s, auth, id, funder, principal, repayment, expiresAt).Ok?
    requires Delivers(ds, Stamp(s.now, MakeOffer(s, auth, id, funder, principal, repayment, expiresAt).value.events),
            bound)
    ensures var d := MakeOffer(s, auth, id, funder, principal, repayment, expiresAt).value;
            Follows(d.state, db, ds, Stamp(s.now, d.events), bound)
  {
    hide Inv, Coupled, MakeOffer, ProjectOfferCreated, Fold, Independent;
    MakeOfferWrites(s, auth, id, funder, principal, repayment, expiresAt);
    var d := MakeOffer(s, auth, id, funder, principal, repayment, expiresAt).value;
    NextFree(s);
    RunInRange(s, id);
    StampOne(s.now, d.events[0]);
    BoundGrows(s, db, bound, ds[0].id);
    OfferCreatedStep(s, d.state, d.state.history[d.value], db, ds[0]);
    OneFollows(d.state, db, ds, s.now, d.events[0], bound);
  }

  lemma CancelOfferFollows(s: State, auth: Auth, offerId: nat, db: ReadModels, ds: seq<Delivered>, bound: nat)
    requires Inv(s) && Coupled(s, db, bound) && CancelOffer(s, auth, offerId).Ok?
    requires Delivers(ds, Stamp(s.now, CancelOffer(s, auth, offerId).value.events), bound)
    ensures var d := CancelOffer(s, auth, offerId).value; Follows(d.state, db, ds, Stamp(s.now, d.events), bound)
  {
    hide Inv, Coupled, CancelOffer, ProjectOfferCancelled, Fold, KeysOk, OffersOk;
    InvParts(s);
    CancelOfferWrites(s, auth, offerId);
    var d := CancelOffer(s, auth, offerId).value;
    OfferInRange(s, offerId);
    StampOne(s.now, d.events[0]);
    BoundGrows(s, db, bound, ds[0].id);
    OfferCancelledStep(s, d.state, offerId, db, ds[0]);
    OneFollows(d.state, db, ds, s.now, d.events[0], bound);
  }

  lemma OfferInRange(s: State, offerId: nat)
    requires Inv(s) && offerId in s.history
    ensures offerId <= U64_MAX
  {
    hide SlotOk, OfferOk, HasWork, TokenOk, ListOk, MilestoneOk, OrderOk;
  }

  // ---- any call, any run ------------------------------------------------------------------------

  lemma CallFollows(s: State, auth: Auth, call: Call, db: ReadModels, ds: seq<Delivered>, bound: nat)
    requires Inv(s) && Coupled(s, db, bound) && Execute(s, auth, call).Ok?
    requires Delivers(ds, Stamp(s.now, Execute(s, auth, call).value.events), bound)
    ensures var d := Execute(s, auth, call).value; Follows(d.state, db, ds, Stamp(s.now, d.events), bound)
  {
    hide Inv, Coupled, Follows, Delivers, Makes, SlotOk, EventsOf, Consistent;
    if OnMilestone(call) {
      hide Execute;
      InvParts(s);
      var c := CallRealises(s, auth, call);
      ChangeFollows(s, Execute(s, auth, call).value, Target(s, call), c, db, ds, bound);
    } else {
      OtherCallFollows(s, auth, call, db, ds, bound);
    }
  }

  lemma OtherCallFollows(s: State, auth: Auth, call: Call, db: ReadModels, ds: seq<Delivered>, bound: nat)
    requires Inv(s) && Coupled(s, db, bound) && !OnMilestone(call) && Execute(s, auth, call).Ok?
    requires Delivers(ds, Stamp(s.now, Execute(s, auth, call).value.events), bound)
    ensures var d := Execute(s, auth, call).value; Follows(d.state, db, ds, Stamp(s.now, d.events), bound)
  {
    hide Inv, Coupled, Follows, Delivers, CreateOrder, CreateMilestone, AcceptOrder, CancelOrder, MakeOffer;
    hide CancelOffer;
    match call {
      case CallCreateOrder(buyer, supplier, attestor, resolver) =>
        CreateOrderFollows(s, auth, buyer, supplier, attestor, resolver, db, ds, bound);
      case CallCreateMilestone(orderId, amount, deadline) =>
        CreateMilestoneFollows(s, auth, orderId, amount, deadline, db, ds, bound);
      case CallAcceptOrder(orderId) => OrderStatusFollows(s, auth, orderId, call, db, ds, bound);
      case CallCancelOrder(orderId) => OrderStatusFollows(s, auth, orderId, call, db, ds, bound);
      case CallMakeOffer(id, funder, principal, repayment, expiresAt) =>
        MakeOfferFollows(s, auth, id, funder, principal, repayment, expiresAt, db, ds, bound);
      case CallCancelOffer(offerId) => CancelOfferFollows(s, auth, offerId, db, ds, bound);
    }
  }

  lemma SameRecordsCoupled(s: State, t: State, db: ReadModels, bound: nat)
    requires Coupled(s, db, bound) && t.orders == s.orders && t.slots == s.slots && t.history == s.history
    requires t.disputes == s.disputes
    ensures Coupled(t, db, bound)
  {
    hide RowsOf, SlotMatches, OrderMatches, OfferMatches, DisputeMatches;
    forall k: nat ensures SlotCoupled(t, db, bound, k) {
      assert SlotCoupled(s, db, bound, k);
    }
  }

  lemma NothingFollows(t: State, db: ReadModels, ds: seq<Delivered>, bound: nat)
    requires Coupled(t, db, bound) && ds == []
    ensures Follows(t, db, ds, [], bound)
  {
    hide Coupled;
  }

  lemma StepFollows(s: State, a: Action, db: ReadModels, ds: seq<Delivered>, bound: nat)
    requires Inv(s) && Legal(s, a) && Coupled(s, db, bound) && Delivers(ds, Step(s, a).1, bound)
    ensures Follows(Step(s, a).0, db, ds, Step(s, a).1, bound)
  {
    hide Inv, Coupled, Execute, Transfer, Follows, Delivers, Legal;
    if a.Invoke? && Execute(s, a.auth, a.call).Ok? {
      CallFollows(s, a.auth, a.call, db, ds, bound);
    } else {
      IdleFollows(s, a, db, ds, bound);
    }
  }

  /** A call that fails and everything around calls publish nothing. */
  lemma IdleFollows(s: State, a: Action, db: ReadModels, ds: seq<Delivered>, bound: nat)
    requires a.Invoke? ==> Execute(s, a.auth, a.call).Err?
    requires Coupled(s, db, bound) && Delivers(ds, Step(s, a).1, bound)
    ensures Follows(Step(s, a).0, db, ds, Step(s, a).1, bound)
  {
    hide Coupled, Step, Follows, Delivers;
    IdleStep(s, a);
    SameRecordsCoupled(s, Step(s, a).0, db, bound);
    NothingDelivered(ds, bound);
    NothingFollows(Step(s, a).0, db, ds, bound);
  }

  lemma NothingDelivered(ds: seq<Delivered>, bound: nat)
    ensures Delivers(ds, [], bound) ==> ds == []
  {
  }

  lemma EmptyIsCoupled(s: State)
    requires Deployed(s)
    ensures Coupled(s, Empty(), 0)
  {
    forall k: nat ensures SlotCoupled(s, Empty(), 0, k) {
      assert PositionsOf(Empty(), k) == map[];
    }
  }

  /** Folding the projections over everything a run has published so far never throws, exactly when every
      published date fits; and then the read models say what the contract's storage says, row for row:
      order and milestone statuses, escrow, evidence, requests, effective offers, positions, disputes,
      settlements, refunds and anchors. */
  lemma {:induction false} ReplayIsExact(r: Trace, n: nat, ds: seq<Delivered>)
    requires r.IsRun() && n < |r.states| && Delivers(ds, r.Published(n), 0)
    ensures Fold(Empty(), ds).Ok? <==> AllDatesFit(r.Published(n))
    ensures Fold(Empty(), ds).Ok? ==>
              Coupled(r.states[n], Fold(Empty(), ds).value, NextPlace(ds, 0)) && AllProjected(Empty(), ds)
  {
    hide Step, Inv, Coupled, Fold, DatesFit, AllProjected;
    if n == 0 {
      EmptyIsCoupled(r.states[0]);
      FoldNone(Empty(), ds);
    } else {
      var before := r.Published(n - 1);
      DeliversSplit(ds, before, r.logs[n - 1], 0);
      ReplayIsExact(r, n - 1, ds[..|before|]);
      RunKeepsInv(r, n - 1);
      assert Next(r.states[n - 1], r.actions[n - 1], r.states[n], r.logs[n - 1]);
      if Fold(Empty(), ds[..|before|]).Ok? {
        StepFollows(r.states[n - 1], r.actions[n - 1], Fold(Empty(), ds[..|before|]).value, ds[|before|..],
                    NextPlace(ds[..|before|], 0));
      }
      FollowsThen(r.states[n - 1], r.states[n], Empty(), ds, before, r.logs[n - 1], 0);
    }
  }

  lemma FoldNone(db: ReadModels, ds: seq<Delivered>)
    requires ds == []
    ensures Fold(db, ds) == Ok(db) && AllProjected(db, ds)
  {
  }
}
