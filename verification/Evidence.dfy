/** When a verified milestone has evidence on record, and when it has none. */
module Evidence {
  import opened Wrappers
  import opened Types
  import opened Storage
  import opened Core
  import opened Runs
  import opened Lifecycle
  import opened Invariant
  import opened Effects
  import opened Preservation
  import opened OrderPreservation
  import opened Totals
  import opened Guarantees
  import opened Guards

  predicate HasStatus(s: State, id: nat, status: MilestoneStatus) {
    id in s.slots && s.slots[id].milestone.status == status
  }

  /** At some moment up to `n` the milestone was disputed. */
  ghost predicate WasDisputed(r: Trace, n: nat, id: nat)
    requires n < |r.states|
  {
    exists k | 0 <= k <= n :: HasStatus(r.states[k], id, Disputed)
  }

  /** At some step before `n` a dispute was opened over a milestone that was submitted. */
  ghost predicate DisputedOnSubmission(r: Trace, n: nat, id: nat)
    requires n < |r.states|
  {
    exists k | 0 <= k < n :: HasStatus(r.states[k], id, Submitted) && HasStatus(r.states[k + 1], id, Disputed)
  }

  lemma RealisesDispute<T>(s: State, d: Done<T>, id: nat, c: Change)
    requires Realises(s, d, id, c)
    ensures Known(s, id) && Enabled(s.self, OrderOf(s, id), s.slots[id], c) && id in d.state.slots
    ensures d.state.slots[id] == Changed(s.self, OrderOf(s, id), s.slots[id], c)
  {
    hide SlotOk, EventsOf, MovesTokens, MovesOffers, MovesDisputes, MovesOrders, Changed, Enabled;
  }

  lemma ContestedKeeps(self: Address, order: Order, x: Slot, d: Option<Dispute>, c: Change)
    requires SlotOk(self, order, x, d) && Enabled(self, order, x, c) && c.Contested?
    ensures var y := Changed(self, order, x, c);
            && y.milestone.status == Disputed && y.milestone.evidence == x.milestone.evidence
            && (x.milestone.evidence.Some? <==> x.milestone.status == Submitted)
  {
  }

  /** A dispute leaves the evidence as it is: there is some exactly if the milestone was submitted. */
  lemma DisputeFindsEvidence(s: State, auth: Auth, id: nat, caller: Address)
    requires Inv(s) && OpenDispute(s, auth, id, caller).Ok?
    ensures var t := OpenDispute(s, auth, id, caller).value.state;
            && id in s.slots && HasStatus(t, id, Disputed)
            && t.slots[id].milestone.evidence == s.slots[id].milestone.evidence
            && (t.slots[id].milestone.evidence.Some? <==> s.slots[id].milestone.status == Submitted)
  {
    hide Inv, Consistent, OpenDispute, SlotOk, EventsOf, MovesTokens, MovesOffers, MovesDisputes, MovesOrders, Changed;
    hide Enabled, Realises;
    InvParts(s);
    var c := OpenDisputeChange(s, auth, id, caller);
    RealisesDispute(s, OpenDispute(s, auth, id, caller).value, id, c);
    SlotFacts(s, id);
    ContestedKeeps(s.self, OrderOf(s, id), s.slots[id], FindMilestoneDispute(s, id), c);
  }

  /** The two ways past submission: a dispute over work under way, or the attestation of a submission. */
  predicate Leaves(x: Slot, y: Slot) {
    && y.milestone.evidence == x.milestone.evidence
    && (|| (y.milestone.status == Disputed && (y.milestone.evidence.Some? <==> x.milestone.status == Submitted))
        || (y.milestone.status == Verified && x.milestone.status == Submitted && y.milestone.evidence.Some?))
  }

  lemma ChangeLeaves(self: Address, order: Order, x: Slot, d: Option<Dispute>, c: Change)
    requires SlotOk(self, order, x, d) && Enabled(self, order, x, c)
    requires Phase(x.milestone.status) < 4 <= Phase(Changed(self, order, x, c).milestone.status)
    ensures Leaves(x, Changed(self, order, x, c))
  {
  }

  lemma StepLeaves(s: State, a: Action, id: nat)
    requires Inv(s) && Legal(s, a) && id in s.slots && id in Step(s, a).0.slots
    requires Phase(s.slots[id].milestone.status) < 4 <= Phase(Step(s, a).0.slots[id].milestone.status)
    ensures Leaves(s.slots[id], Step(s, a).0.slots[id])
  {
    hide Inv, Consistent, Execute, SlotOk, EventsOf, MovesTokens, MovesOffers, MovesDisputes, MovesOrders, Changed;
    hide Enabled, Leaves;
    StepMovesForward(s, a, id);
    InvParts(s);
    var c := CallRealises(s, a.auth, a.call);
    SlotFacts(s, id);
    ChangeLeaves(s.self, OrderOf(s, id), s.slots[id], FindMilestoneDispute(s, id), c);
  }

  /** A milestone is new. */
  lemma StepCreates(s: State, a: Action, id: nat)
    requires Inv(s) && Legal(s, a) && id !in s.slots && id in Step(s, a).0.slots
    ensures Step(s, a).0.slots[id].milestone.status == Unfunded
  {
    hide Inv, Consistent, Execute, SlotOk, EventsOf, MovesTokens, MovesOffers, MovesDisputes, MovesOrders, Changed;
    hide Enabled;
    InvParts(s);
    if OnMilestone(a.call) {
      var c := CallRealises(s, a.auth, a.call);
    } else {
      OtherCallShape(s, a.auth, a.call);
    }
  }

  lemma NeverDisputed(r: Trace, n: nat, id: nat)
    requires r.IsRun() && n < |r.states|
    requires id in r.states[n].slots ==> Phase(r.states[n].slots[id].milestone.status) < 4
    ensures !WasDisputed(r, n, id) && !DisputedOnSubmission(r, n, id)
  {
    hide Step;
    forall k | 0 <= k <= n ensures !HasStatus(r.states[k], id, Disputed) {
      if id in r.states[k].slots {
        MilestoneMovesForward(r, k, n, id);
      }
    }
  }

  /** In every run, whatever reached a dispute, verification, settlement or refund has evidence on record if and
      only if it was never disputed or its dispute was opened after evidence had been submitted. */
  lemma {:induction false} EvidenceIsExact(r: Trace, n: nat, id: nat)
    requires r.IsRun() && n < |r.states| && id in r.states[n].slots
    requires Phase(r.states[n].slots[id].milestone.status) >= 4
    ensures r.states[n].slots[id].milestone.evidence.Some? <==>
            (WasDisputed(r, n, id) ==> DisputedOnSubmission(r, n, id))
  {
    hide Step, Inv, Forward;
    if n > 0 {
      var s, t := r.states[n - 1], r.states[n];
      RunKeepsInv(r, n - 1);
      assert Next(s, r.actions[n - 1], t, r.logs[n - 1]);
      if id !in s.slots {
        StepCreates(s, r.actions[n - 1], id);
      } else if Phase(s.slots[id].milestone.status) < 4 {
        NeverDisputed(r, n - 1, id);
        StepLeaves(s, r.actions[n - 1], id);
        LeavesIsExact(r, n, id);
      } else {
        EvidenceIsExact(r, n - 1, id);
        StepMovesForward(s, r.actions[n - 1], id);
        StaysExact(r, n, id);
      }
    }
  }

  lemma LeavesIsExact(r: Trace, n: nat, id: nat)
    requires 0 < n < |r.states| && id in r.states[n - 1].slots && id in r.states[n].slots
    requires !WasDisputed(r, n - 1, id) && Leaves(r.states[n - 1].slots[id], r.states[n].slots[id])
    ensures r.states[n].slots[id].milestone.evidence.Some? <==>
            (WasDisputed(r, n, id) ==> DisputedOnSubmission(r, n, id))
  {
    if HasStatus(r.states[n], id, Disputed) && HasStatus(r.states[n - 1], id, Submitted) {
      assert HasStatus(r.states[n - 1 + 1], id, Disputed);
    }
    if DisputedOnSubmission(r, n, id) {
      var k :| 0 <= k < n && HasStatus(r.states[k], id, Submitted) && HasStatus(r.states[k + 1], id, Disputed);
      assert k == n - 1;
    }
  }

  lemma StaysExact(r: Trace, n: nat, id: nat)
    requires 0 < n < |r.states| && id in r.states[n - 1].slots && id in r.states[n].slots
    requires Phase(r.states[n - 1].slots[id].milestone.status) >= 4
    requires Forward(r.states[n - 1].slots[id], r.states[n].slots[id])
    ensures r.states[n].slots[id].milestone.evidence == r.states[n - 1].slots[id].milestone.evidence
    ensures WasDisputed(r, n, id) <==> WasDisputed(r, n - 1, id)
    ensures DisputedOnSubmission(r, n, id) <==> DisputedOnSubmission(r, n - 1, id)
  {
    assert HasStatus(r.states[n], id, Disputed) ==> HasStatus(r.states[n - 1], id, Disputed);
  }
}
