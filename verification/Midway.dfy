/** A page may end between the events of one call. What the tables say there, and what has been counted by then. */
module Midway {
  import opened Wrappers
  import opened Types
  import opened Token
  import opened Sums
  import opened Storage
  import opened Core
  import opened Runs
  import opened Lifecycle
  import opened Invariant
  import opened Effects
  import opened Preservation
  import opened OrderPreservation
  import opened Totals
  import opened Guarantees
  import opened Guards
  import opened Projector
  import opened Coupling
  import opened Replay
  import opened Figures

  /** The storage as the first `k` events of a step tell it. Only a settlement or a refund publishes more than one:
      the order completes last, and before that a refund resolves its dispute. */
  function Told(s: State, a: Action, k: nat): State {
    var (t, log) := Step(s, a);
    if k == 0 then s
    else if |log| <= k then t
    else if k == 1 && a.Invoke? && a.call.CallResolveDispute? then BeforeResolution(s, t)
    else BeforeCompletion(s, t)
  }

  lemma StampTake(at: U64, events: seq<Event>, k: nat)
    requires k <= |events|
    ensures Stamp(at, events)[..k] == Stamp(at, events[..k])
  {
  }

  /** What a call publishes if it publishes more than one event. */
  lemma SeveralEvents(s: State, d: Done<()>, id: nat, c: Change)
    requires Inv(s) && Realises(s, d, id, c) && |d.events| > 1
    ensures Known(s, id) && SlotOk(s.self, OrderOf(s, id), s.slots[id], FindMilestoneDispute(s, id))
    ensures Enabled(s.self, OrderOf(s, id), s.slots[id], c) && (c.Paid? || c.Returned?)
    ensures var first := FirstEvent(s.self, OrderOf(s, id), s.slots[id], FindMilestoneDispute(s, id), c);
            if c.Paid? then |d.events| == 2 && d.events[..1] == [first]
            else
              && FindMilestoneDispute(s, id).Some? && |d.events| <= 3
              && d.events[..1] == [first]
              && d.events[..2] == [first, ResolutionEvent(OrderOf(s, id), id, FindMilestoneDispute(s, id))]
  {
    hide Inv, SlotOk, FirstEvent, MovesTokens, MovesOffers, MovesDisputes, MovesOrders, Changed, Completes;
    hide FindMilestoneDispute, EventsOf, Enabled, ResolutionEvent;
    var order := OrderOf(s, id);
    var dispute := FindMilestoneDispute(s, id);
    SlotNamed(s, id);
    if c.Returned? {
      ReturnedEvents(s.self, order, s.slots[id], dispute, Completes(d.state, order, c));
    } else {
      SingleEvents(s.self, order, s.slots[id], dispute, c, Completes(d.state, order, c));
    }
  }

  lemma ChangeMidway(s: State, d: Done<()>, id: nat, c: Change, k: nat, db: ReadModels, ds: seq<Delivered>, bound: nat)
    requires Inv(s) && Realises(s, d, id, c) && Timely(s.now, c) && Coupled(s, db, bound) && 0 < k < |d.events|
    requires Delivers(ds, Stamp(s.now, d.events[..k]), bound)
    ensures c.Paid? || c.Returned?
    ensures Follows(if c.Returned? && k == 1 then BeforeResolution(s, d.state) else BeforeCompletion(s, d.state),
                    db, ds, Stamp(s.now, d.events[..k]), bound)
  {
    hide Inv, Coupled, Follows, Delivers, Makes, SlotOk, EventsOf, FirstEvent, ResolutionEvent, Enabled, Stamp;
    hide FindMilestoneDispute, Timely;
    SeveralEvents(s, d, id, c);
    if c.Paid? {
      PaidFirst(s, d.state, id, c, db, ds, bound);
    } else if k == 1 {
      ReturnedFirst(s, d.state, id, db, ds, bound);
    } else {
      ReturnedSecond(s, d.state, id, db, ds, bound);
    }
  }

  lemma CallMidway(s: State, auth: Auth, call: Call, k: nat, db: ReadModels, ds: seq<Delivered>, bound: nat)
    requires Inv(s) && Coupled(s, db, bound) && Execute(s, auth, call).Ok?
    requires 0 < k < |Execute(s, auth, call).value.events|
    requires Delivers(ds, Stamp(s.now, Execute(s, auth, call).value.events[..k]), bound)
    ensures Follows(Told(s, Invoke(auth, call), k), db, ds, Stamp(s.now, Execute(s, auth, call).value.events[..k]),
                    bound)
  {
    hide Inv, Coupled, Follows, Delivers, Realises, Consistent, Execute, BeforeResolution, BeforeCompletion, Timely;
    InvParts(s);
    if !OnMilestone(call) {
      OtherCallShape(s, auth, call);
    } else {
      var c := CallRealises(s, auth, call);
      ChangeMidway(s, Execute(s, auth, call).value, Target(s, call), c, k, db, ds, bound);
    }
  }

  lemma StepMidway(s: State, a: Action, k: nat, db: ReadModels, ds: seq<Delivered>, bound: nat)
    requires Inv(s) && Legal(s, a) && Coupled(s, db, bound) && k <= |Step(s, a).1|
    requires Delivers(ds, Step(s, a).1[..k], bound)
    ensures Follows(Told(s, a, k), db, ds, Step(s, a).1[..k], bound)
  {
    hide Inv, Coupled, Follows, Execute, Told, Legal;
    ToldEnds(s, a);
    if k == 0 {
      NothingFollows(s, db, ds, bound);
    } else if k == |Step(s, a).1| {
      assert Step(s, a).1[..k] == Step(s, a).1;
      StepFollows(s, a, db, ds, bound);
    } else {
      StampTake(s.now, Execute(s, a.auth, a.call).value.events, k);
      CallMidway(s, a.auth, a.call, k, db, ds, bound);
    }
  }

  lemma ToldEnds(s: State, a: Action)
    ensures Told(s, a, 0) == s && forall k | k == |Step(s, a).1| && k > 0 :: Told(s, a, k) == Step(s, a).0
  {
    hide Execute;
  }

  // ---- what has been counted by then --------------------------------------------------------------

  predicate Ends(e: Event) {
    e.DisputeResolved? || e.OrderCompleted?
  }

  predicate Pays(e: Event) {
    e.MilestoneSettled? || e.MilestoneRefunded? || e.DisputeResolved?
  }

  lemma SeveralAreKnown(s: State, d: Done<()>, id: nat, c: Change, k: nat)
    requires Inv(s) && Realises(s, d, id, c) && 0 < k < |d.events|
    ensures forall i | 0 <= i < k :: Pays(d.events[i])
    ensures forall i | k <= i < |d.events| :: Ends(d.events[i])
  {
    hide Inv, SlotOk, MovesTokens, MovesOffers, MovesDisputes, MovesOrders, Changed, Completes, FindMilestoneDispute;
    hide Enabled;
  }

  lemma StepSplits(s: State, a: Action, k: nat)
    requires Inv(s) && Legal(s, a) && 0 < k < |Step(s, a).1|
    ensures a.Invoke? && Execute(s, a.auth, a.call).Ok? && OnMilestone(a.call)
    ensures forall i | 0 <= i < k :: Pays(Step(s, a).1[i].event)
    ensures forall i | k <= i < |Step(s, a).1| :: Ends(Step(s, a).1[i].event)
  {
    hide Inv, Realises, Consistent, Execute, Transfer, Pays, Ends;
    InvParts(s);
    if OnMilestone(a.call) {
      var c := CallRealises(s, a.auth, a.call);
      SeveralAreKnown(s, Execute(s, a.auth, a.call).value, Target(s, a.call), c, k);
    } else {
      OtherCallShape(s, a.auth, a.call);
    }
  }

  lemma {:induction false} EndsAddNothing(q: Quantity, log: seq<Stamped>)
    requires forall i | 0 <= i < |log| :: Ends(log[i].event)
    ensures LogTotal(q, log) == 0
  {
    if log != [] {
      EndsAddNothing(q, log[1..]);
    }
  }

  lemma PaysAreNoFigures(f: Figure, log: seq<Stamped>)
    requires forall i | 0 <= i < |log| :: Pays(log[i].event)
    ensures CountIn(f, log) == 0 && RequestedIn(log) == {}
  {
    forall i | 0 <= i < |log| ensures !Counts(f, log[i].event) && !log[i].event.FinanceRequestOpened? {
      assert Pays(log[i].event);
    }
    CountNone(f, log);
  }

  lemma EndsAreNoRequests(log: seq<Stamped>)
    requires forall i | 0 <= i < |log| :: Ends(log[i].event)
    ensures CountIn(OffersMade, log) == 0 && RequestedIn(log) == {}
  {
    forall i | 0 <= i < |log| ensures !Counts(OffersMade, log[i].event) && !log[i].event.FinanceRequestOpened? {
      assert Ends(log[i].event);
    }
    CountNone(OffersMade, log);
  }

  lemma ToldAddsUp(q: Quantity, s: State, a: Action, k: nat)
    requires Inv(s) && Legal(s, a) && k <= |Step(s, a).1|
    ensures StateTotal(q, Told(s, a, k)) == StateTotal(q, s) + LogTotal(q, Step(s, a).1[..k])
  {
    hide Inv, Legal, Step, StateTotal;
    var log := Step(s, a).1;
    if 0 < k {
      StepAddsUp(q, s, a);
      assert log == log[..k] + log[k..];
      LogTotalConcat(q, log[..k], log[k..]);
      if k < |log| {
        StepSplits(s, a, k);
        EndsAddNothing(q, log[k..]);
        SameSlots(q, Step(s, a).0, Told(s, a, k));
      } else {
        EndsAddNothing(q, []);
      }
    } else {
      EndsAddNothing(q, log[..0]);
    }
  }

  lemma ToldFigures(f: Figure, s: State, a: Action, k: nat)
    requires Inv(s) && Legal(s, a) && k <= |Step(s, a).1|
    ensures FigureOf(f, Told(s, a, k)) == FigureOf(f, s) + CountIn(f, Step(s, a).1[..k])
    ensures RequestedFor(Told(s, a, k)) == RequestedFor(s) + RequestedIn(Step(s, a).1[..k])
  {
    hide Inv, Legal, Step, FigureOf, Counts, Pays, Ends;
    var log := Step(s, a).1;
    if k == 0 {
      CountNone(f, log[..0]);
    } else if k == |log| {
      StepFigures(f, s, a);
      assert log[..k] == log;
    } else {
      StepSplits(s, a, k);
      PaysAreNoFigures(f, log[..k]);
      StepFigures(OffersMade, s, a);
      assert log == log[..k] + log[k..];
      CountConcat(OffersMade, log[..k], log[k..]);
      PaysAreNoFigures(OffersMade, log[..k]);
      EndsAreNoRequests(log[k..]);
      BetweenFigures(f, s, Step(s, a).0, Told(s, a, k));
    }
  }

  lemma BetweenFigures(f: Figure, s: State, t: State, u: State)
    requires u.orders == s.orders && u.history == t.history && u.slots == t.slots
    requires FigureOf(OffersMade, t) == FigureOf(OffersMade, s)
    ensures FigureOf(f, u) == FigureOf(f, s) && RequestedFor(u) == RequestedFor(t)
  {
  }

  // ---- records that can be counted ----------------------------------------------------------------

  /** A dispute's milestone links back to it. */
  predicate LinksBack(slots: map<nat, Slot>, disputes: map<nat, Dispute>, id: nat) {
    && id in disputes && disputes[id].milestoneId in slots
    && slots[disputes[id].milestoneId].dispute == Some(id)
  }

  /** A milestone's link, if it has one, leads to a dispute about it. */
  predicate LinksOn(slots: map<nat, Slot>, disputes: map<nat, Dispute>, id: nat) {
    && id in slots
    && (slots[id].dispute.Some? ==>
          slots[id].dispute.value in disputes && disputes[slots[id].dispute.value].milestoneId == id)
  }

  /** Milestones name themselves, and milestones and disputes pair up. */
  predicate Countable(s: State) {
    && (forall id | id in s.slots :: s.slots[id].milestone.id == id)
    && (forall id | id in s.disputes :: LinksBack(s.slots, s.disputes, id))
    && (forall id | id in s.slots :: LinksOn(s.slots, s.disputes, id))
  }

  lemma InvCountable(s: State)
    requires Inv(s)
    ensures Countable(s)
  {
    hide SlotOk, OfferOk, HasWork, TokenOk, ListOk, OrderOk, KeysOk;
    forall id | id in s.disputes ensures LinksBack(s.slots, s.disputes, id) {
      assert DisputeOk(s, id);
    }
    forall id | id in s.slots ensures LinksOn(s.slots, s.disputes, id) && s.slots[id].milestone.id == id {
      assert MilestoneOk(s, id);
    }
  }

  predicate SameDisputes(s: State, t: State) {
    t.disputes.Keys == s.disputes.Keys
    && forall id | id in s.disputes :: t.disputes[id].milestoneId == s.disputes[id].milestoneId
  }

  lemma ResolutionKeepsLinks(s: State, t: State, id: nat, c: Change)
    requires Inv(s) && Makes(s, t, id, c) && (c.Paid? || c.Returned?)
    ensures SameDisputes(s, t)
  {
    hide SlotOk, OfferOk, HasWork, TokenOk, ListOk, OrderOk, KeysOk, MovesTokens, MovesOffers, MovesOrders, Changed;
    assert MilestoneOk(s, id);
    assert s.slots[id].dispute.Some? && s.slots[id].dispute.value in s.disputes ==>
        DisputeOk(s, s.slots[id].dispute.value);
  }

  lemma SameLinks(t: State, u: State)
    requires Countable(t) && u.slots == t.slots && SameDisputes(t, u)
    ensures Countable(u)
  {
    forall id | id in u.disputes ensures LinksBack(u.slots, u.disputes, id) {
      assert LinksBack(t.slots, t.disputes, id);
    }
    forall id | id in u.slots ensures LinksOn(u.slots, u.disputes, id) {
      assert LinksOn(t.slots, t.disputes, id);
    }
  }

  lemma ToldCountable(s: State, a: Action, k: nat)
    requires Inv(s) && Legal(s, a) && k <= |Step(s, a).1|
    ensures Countable(Told(s, a, k))
  {
    hide Inv, Legal, Execute, Countable, Realises, SameDisputes, Consistent;
    InvCountable(s);
    StepKeepsInv(s, a);
    var t := Step(s, a).0;
    InvCountable(t);
    if 0 < k < |Step(s, a).1| {
      InvParts(s);
      StepSplits(s, a, k);
      var c := CallRealises(s, a.auth, a.call);
      PairsKept(s, Execute(s, a.auth, a.call).value, Target(s, a.call), c);
      SameLinks(t, Told(s, a, k));
    }
  }

  lemma PairsKept(s: State, d: Done<()>, id: nat, c: Change)
    requires Inv(s) && Realises(s, d, id, c) && |d.events| > 1
    ensures SameDisputes(d.state, BeforeResolution(s, d.state)) && SameDisputes(d.state, BeforeCompletion(s, d.state))
  {
    hide Inv, SlotOk, MovesTokens, MovesOffers, MovesOrders, MovesDisputes, Changed, Enabled, EventsOf;
    SeveralEvents(s, d, id, c);
    ResolutionKeepsLinks(s, d.state, id, c);
  }

  // ---- any stretch of a run's events --------------------------------------------------------------

  /** The storage as the first `p` events of the first `n` steps tell it. */
  function ToldAt(r: Trace, n: nat, p: nat): State
    requires r.IsPath() && n < |r.states| && p <= |r.Published(n)|
  {
    if n == 0 then r.states[0]
    else
      var before := |r.Published(n - 1)|;
      if p <= before then ToldAt(r, n - 1, p) else Told(r.states[n - 1], r.actions[n - 1], p - before)
  }

  /** Folding the projections over the first `p` events of a run, wherever in a call they end, never throws exactly
      when their dates fit; and then the tables are the storage as those events tell it. */
  lemma {:induction false} PrefixReplays(r: Trace, n: nat, p: nat, ds: seq<Delivered>)
    requires r.IsRun() && n < |r.states| && p <= |r.Published(n)| && Delivers(ds, r.Published(n)[..p], 0)
    ensures Follows(ToldAt(r, n, p), Empty(), ds, r.Published(n)[..p], 0)
  {
    hide Step, Inv, Follows, Delivers, Told, Deployed;
    if n == 0 {
      StartFollows(r.states[0], ds, r.Published(0)[..p]);
    } else {
      var before := r.Published(n - 1);
      if p <= |before| {
        assert r.Published(n)[..p] == before[..p];
        PrefixReplays(r, n - 1, p, ds);
      } else {
        assert r.Published(n)[..p] == before + r.logs[n - 1][..p - |before|];
        StretchReplays(r, n - 1, p - |before|, ds);
      }
    }
  }

  /** Everything published by the first `n` actions, and part of what the next one publishes. */
  lemma StretchReplays(r: Trace, n: nat, k: nat, ds: seq<Delivered>)
    requires r.IsRun() && n < |r.actions| && k <= |r.logs[n]|
    requires Delivers(ds, r.Published(n) + r.logs[n][..k], 0)
    ensures Follows(Told(r.states[n], r.actions[n], k), Empty(), ds, r.Published(n) + r.logs[n][..k], 0)
  {
    hide Step, Inv, Follows, Delivers, Told, Deployed;
    var before, s, a := r.Published(n), r.states[n], r.actions[n];
    assert Next(s, a, r.states[n + 1], r.logs[n]);
    DeliversSplit(ds, before, r.logs[n][..k], 0);
    RunFollows(r, n, ds[..|before|]);
    RunKeepsInv(r, n);
    if Fold(Empty(), ds[..|before|]).Ok? {
      FollowsCoupled(s, Empty(), ds[..|before|], before, 0);
      StepMidway(s, a, k, Fold(Empty(), ds[..|before|]).value, ds[|before|..], NextPlace(ds[..|before|], 0));
    }
    FollowsThen(s, Told(s, a, k), Empty(), ds, before, r.logs[n][..k], 0);
  }

  lemma StartFollows(s: State, ds: seq<Delivered>, log: seq<Stamped>)
    requires Deployed(s) && log == [] && Delivers(ds, log, 0)
    ensures Follows(s, Empty(), ds, log, 0)
  {
    hide Coupled;
    EmptyIsCoupled(s);
    NothingFollows(s, Empty(), ds, 0);
  }

  lemma RunFollows(r: Trace, n: nat, ds: seq<Delivered>)
    requires r.IsRun() && n < |r.states| && Delivers(ds, r.Published(n), 0)
    ensures Follows(r.states[n], Empty(), ds, r.Published(n), 0)
  {
    hide Step, Coupled, Fold, AllProjected, AllDatesFit, Delivers;
    ReplayIsExact(r, n, ds);
  }

  /** Everything that is counted in the storage is counted in the log. */
  ghost predicate Accounted(s: State, log: seq<Stamped>) {
    && Countable(s) && RequestedFor(s) == RequestedIn(log)
    && (forall q :: StateTotal(q, s) == LogTotal(q, log))
    && (forall f :: FigureOf(f, s) == CountIn(f, log))
  }

  lemma RunAccounted(r: Trace, n: nat)
    requires r.IsRun() && n < |r.states|
    ensures Accounted(r.states[n], r.Published(n))
  {
    hide Step, Inv, Countable, StateTotal, FigureOf;
    RunKeepsInv(r, n);
    InvCountable(r.states[n]);
    forall q ensures StateTotal(q, r.states[n]) == LogTotal(q, r.Published(n)) {
      TotalsFollowLog(q, r, n);
    }
    FiguresFollowLog(OrdersMade, r, n);
    forall f ensures FigureOf(f, r.states[n]) == CountIn(f, r.Published(n)) {
      FiguresFollowLog(f, r, n);
    }
  }

  lemma ToldAccounted(s: State, a: Action, k: nat, before: seq<Stamped>)
    requires Inv(s) && Legal(s, a) && k <= |Step(s, a).1| && Accounted(s, before)
    ensures Accounted(Told(s, a, k), before + Step(s, a).1[..k])
  {
    hide Step, Inv, Legal, Countable, StateTotal, FigureOf, Told;
    var log := Step(s, a).1[..k];
    ToldCountable(s, a, k);
    forall q ensures StateTotal(q, Told(s, a, k)) == LogTotal(q, before + log) {
      ToldAddsUp(q, s, a, k);
      LogTotalConcat(q, before, log);
    }
    ToldFigures(OrdersMade, s, a, k);
    CountConcat(OrdersMade, before, log);
    forall f ensures FigureOf(f, Told(s, a, k)) == CountIn(f, before + log) {
      ToldFigures(f, s, a, k);
      CountConcat(f, before, log);
    }
  }

  /** However many of a run's events have been published, and wherever in a call that is, what the storage they tell
      of counts is what they count. */
  lemma {:induction false} PrefixAccounted(r: Trace, n: nat, p: nat)
    requires r.IsRun() && n < |r.states| && p <= |r.Published(n)|
    ensures Accounted(ToldAt(r, n, p), r.Published(n)[..p])
  {
    hide Step, Inv, Accounted, Told;
    if n == 0 {
      RunAccounted(r, 0);
    } else {
      var before := r.Published(n - 1);
      if p <= |before| {
        assert r.Published(n)[..p] == before[..p];
        PrefixAccounted(r, n - 1, p);
      } else {
        var s, a, k := r.states[n - 1], r.actions[n - 1], p - |before|;
        assert Next(s, a, r.states[n], r.logs[n - 1]);
        assert r.Published(n)[..p] == before + r.logs[n - 1][..k];
        RunKeepsInv(r, n - 1);
        RunAccounted(r, n - 1);
        ToldAccounted(s, a, k, before);
      }
    }
  }

  // ---- what the database checks ---------------------------------------------------------------------

  predicate Within(s: State) {
    forall id | id in s.slots :: 0 <= s.slots[id].milestone.funded <= s.slots[id].milestone.amount
  }

  lemma InvWithin(s: State)
    requires Inv(s)
    ensures Within(s)
  {
    hide Inv, StageOk;
    forall id | id in s.slots ensures 0 <= s.slots[id].milestone.funded <= s.slots[id].milestone.amount {
      SlotFacts(s, id);
    }
  }

  lemma {:induction false} ToldWithin(r: Trace, n: nat, p: nat)
    requires r.IsRun() && n < |r.states| && p <= |r.Published(n)|
    ensures Within(ToldAt(r, n, p))
  {
    hide Step, Inv;
    RunKeepsInv(r, n);
    InvWithin(r.states[n]);
    if n > 0 {
      assert Next(r.states[n - 1], r.actions[n - 1], r.states[n], r.logs[n - 1]);
      if p <= |r.Published(n - 1)| {
        ToldWithin(r, n - 1, p);
      } else {
        RunKeepsInv(r, n - 1);
        InvWithin(r.states[n - 1]);
      }
    }
  }

  /** After every single event of a run each milestone row holds no less than nothing and no more than its amount, so
      the check the database makes of every row never refuses one. */
  lemma RowsKeepWithinAmount(r: Trace, p: nat, ds: seq<Delivered>)
    requires r.IsRun() && p <= |r.Log()| && Delivers(ds, r.Log()[..p], 0) && Fold(Empty(), ds).Ok?
    ensures var rows := Fold(Empty(), ds).value.milestones;
            forall id | id in rows :: 0 <= rows[id].funded <= rows[id].amount
  {
    hide Step, Fold, Follows, ToldAt, Delivers, Deployed, Coupled;
    var n := |r.logs|;
    var u := ToldAt(r, n, p);
    PrefixReplays(r, n, p, ds);
    FollowsCoupled(u, Empty(), ds, r.Log()[..p], 0);
    ToldWithin(r, n, p);
    CoupledWithin(u, Fold(Empty(), ds).value, NextPlace(ds, 0));
  }

  lemma CoupledWithin(s: State, db: ReadModels, bound: nat)
    requires Coupled(s, db, bound) && Within(s)
    ensures forall id | id in db.milestones :: 0 <= db.milestones[id].funded <= db.milestones[id].amount
  {
    hide OrdersCoupled, OffersCoupled, DisputesCoupled, PositionsOf, PositionsMatch, RequestMatches, AnchorMatches;
    hide SettlementMatches, RefundMatches;
    forall id | id in db.milestones ensures 0 <= db.milestones[id].funded <= db.milestones[id].amount {
      assert SlotCoupled(s, db, bound, id);
    }
  }
}
