/** How long a temporary entry lives, and exactly when a live offer never vanishes from storage. */
module Lifetimes {
  import opened Wrappers
  import opened Types
  import opened Token
  import opened Storage
  import opened Core
  import opened Runs
  import opened Lifecycle
  import opened Invariant
  import opened Effects
  import opened Preservation
  import opened OrderPreservation
  import opened Totals
  import opened Guarantees
  import opened OfferIndex

  const DAY_IN_LEDGERS := 17_280
  const TEMPORARY_LIFETIME_THRESHOLD := 2 * DAY_IN_LEDGERS
  const TEMPORARY_BUMP_AMOUNT := 10 * DAY_IN_LEDGERS

  /** The last ledger an entry lives in, after it is touched in `ledger`: extended only when little is left. */
  function Extend(liveUntil: nat, ledger: nat): nat {
    if liveUntil < ledger + TEMPORARY_LIFETIME_THRESHOLD then ledger + TEMPORARY_BUMP_AMOUNT else liveUntil
  }

  predicate Exists(liveUntil: nat, ledger: nat) {
    ledger <= liveUntil
  }

  /** Every read and write of the entry touches it, if it is still there. */
  function Touched(liveUntil: nat, touches: seq<nat>): nat {
    if touches == [] then liveUntil
    else
      var last := touches[|touches| - 1];
      var before := Touched(liveUntil, touches[..|touches| - 1]);
      if Exists(before, last) then Extend(before, last) else before
  }

  /** A new entry starts with the network's minimum and is extended at once. */
  function Created(ledger: nat, minimum: nat): nat {
    Extend(ledger + minimum, ledger)
  }

  lemma {:induction false} TouchingNeverShortens(liveUntil: nat, touches: seq<nat>)
    ensures liveUntil <= Touched(liveUntil, touches)
  {
    if touches != [] {
      TouchingNeverShortens(liveUntil, touches[..|touches| - 1]);
    }
  }

  /** Touching an entry leaves it two days of ledgers at least and gives it ten at most, and does so only when it had
      less than two left. */
  lemma ExtensionIsExact(liveUntil: nat, ledger: nat)
    ensures var until := Extend(liveUntil, ledger);
            && ledger + TEMPORARY_LIFETIME_THRESHOLD <= until
            && (until != liveUntil <==> liveUntil < ledger + TEMPORARY_LIFETIME_THRESHOLD)
            && (until != liveUntil ==> until == ledger + TEMPORARY_BUMP_AMOUNT)
  {
  }

  // ---- one offer --------------------------------------------------------------------------------

  ghost predicate Monotone(closes: nat -> nat) {
    forall i: nat, j: nat | i <= j :: closes(i) <= closes(j)
  }

  /** An offer made when ledger `created` closed, valid no longer than offers may be, is live in `ledger`. */
  predicate Live(closes: nat -> nat, created: nat, expiresAt: nat, ledger: nat) {
    created <= ledger && closes(ledger) < expiresAt <= closes(created) + MAX_OFFER_VALIDITY_SECONDS
  }

  /** Whatever its validity and whoever touches it when, the offer's entry exists while the offer is live. */
  ghost predicate NeverMissing(closes: nat -> nat, created: nat, minimum: nat) {
    forall expiresAt: nat, touches: seq<nat>, ledger: nat | Live(closes, created, expiresAt, ledger) ::
      Exists(Touched(Created(created, minimum), touches), ledger)
  }

  /** The longest validity is over by the time the first lifetime is. */
  predicate SlowEnough(closes: nat -> nat, created: nat, minimum: nat) {
    closes(created) + MAX_OFFER_VALIDITY_SECONDS <= closes(Created(created, minimum) + 1)
  }

  /** A live offer is never missing if and only if ledgers close slowly enough. With the network's minimum below the
      threshold the first lifetime is `TEMPORARY_BUMP_AMOUNT` ledgers. */
  lemma LiveOfferIsThere(closes: nat -> nat, created: nat, minimum: nat)
    requires Monotone(closes)
    ensures NeverMissing(closes, created, minimum) <==> SlowEnough(closes, created, minimum)
    ensures minimum < TEMPORARY_LIFETIME_THRESHOLD ==> Created(created, minimum) == created + TEMPORARY_BUMP_AMOUNT
  {
    var until := Created(created, minimum);
    if SlowEnough(closes, created, minimum) {
      forall expiresAt: nat, touches: seq<nat>, ledger: nat | Live(closes, created, expiresAt, ledger)
        ensures Exists(Touched(until, touches), ledger)
      {
        TouchingNeverShortens(until, touches);
        var over: nat := until + 1;
        assert over <= ledger ==> closes(over) <= closes(ledger);
      }
    } else {
      assert Live(closes, created, closes(created) + MAX_OFFER_VALIDITY_SECONDS, until + 1);
      assert !Exists(Touched(until, []), until + 1);
    }
  }

  /** Three and a half seconds between ledgers are slow enough for the ten days' worth of ledgers that an entry is
      given. */
  lemma SpacedIsSlowEnough(closes: nat -> nat, created: nat, minimum: nat)
    requires forall i: nat, j: nat | i <= j :: 2 * (closes(j) - closes(i)) >= 7 * (j - i)
    requires minimum < TEMPORARY_LIFETIME_THRESHOLD
    ensures SlowEnough(closes, created, minimum)
  {
    assert 2 * (closes(created + TEMPORARY_BUMP_AMOUNT + 1) - closes(created)) >= 7 * (TEMPORARY_BUMP_AMOUNT + 1);
  }

  /** Three are not: an offer nobody reads can be gone while it is live. */
  lemma FasterLedgersLoseOffers(created: nat, minimum: nat)
    requires minimum < TEMPORARY_LIFETIME_THRESHOLD
    ensures !NeverMissing((k: nat) => 3 * k, created, minimum)
  {
    LiveOfferIsThere((k: nat) => 3 * k, created, minimum);
  }

  // ---- a run ------------------------------------------------------------------------------------

  /** The ledger the run is in, and for every offer the ledger it was made in and the last one its entry lives in. */
  datatype Ages = Ages(ledger: nat, made: map<nat, nat>, until: map<nat, nat>)

  /** A ledger closes at a time. What is new gets a first lifetime; what is there keeps its lifetime or, if a call
      reads or writes it, has it extended; what is dropped has outlived it. */
  predicate Ageing(closes: nat -> nat, minimum: nat, s: State, a: Action, t: State, x: Ages, y: Ages) {
    && y.ledger == (if a.CloseLedger? then x.ledger + 1 else x.ledger) && t.now == closes(y.ledger)
    && (forall id | id in t.history && id !in s.history ::
          id in y.made && id in y.until && y.made[id] == x.ledger && y.until[id] == Created(x.ledger, minimum))
    && (forall id | id in s.history && id in x.made && id in x.until ::
          && id in y.made && id in y.until && y.made[id] == x.made[id]
          && (|| y.until[id] == x.until[id]
              || (a.Invoke? && id in s.offers && y.until[id] == Extend(x.until[id], x.ledger))))
    && (a.ExpireTemporary? ==>
          forall id | id in a.offers && id in s.offers && id in x.until :: !Exists(x.until[id], x.ledger))
  }

  /** An account of lifetimes over a run. */
  predicate Aged(r: Trace, ages: seq<Ages>, closes: nat -> nat, minimum: nat) {
    && |ages| == |r.states| > 0 && |r.actions| + 1 == |r.states| && r.states[0].now == closes(ages[0].ledger)
    && forall i | 0 <= i < |r.actions| ::
         Ageing(closes, minimum, r.states[i], r.actions[i], r.states[i + 1], ages[i], ages[i + 1])
  }

  predicate OfferAged(closes: nat -> nat, minimum: nat, s: State, x: Ages, id: nat)
    requires id in s.history
  {
    && id in x.made && id in x.until && x.made[id] <= x.ledger
    && s.history[id].expiresAt <= closes(x.made[id]) + MAX_OFFER_VALIDITY_SECONDS
    && Created(x.made[id], minimum) <= x.until[id]
    && (id !in s.offers ==> !Exists(x.until[id], x.ledger))
  }

  predicate AllAged(closes: nat -> nat, minimum: nat, s: State, x: Ages) {
    s.now == closes(x.ledger) && forall id | id in s.history :: OfferAged(closes, minimum, s, x, id)
  }

  /** Nothing but expiry drops an offer's entry; what is new is there, and valid for the longest time at most; no
      offer's expiry ever changes. */
  predicate KeepsEntries(s: State, t: State) {
    && s.offers.Keys <= t.offers.Keys && t.now == s.now
    && (forall id | id in t.history && id !in s.history ::
          id in t.offers && t.history[id].expiresAt <= s.now + MAX_OFFER_VALIDITY_SECONDS)
    && (forall id | id in s.history :: id in t.history && t.history[id].expiresAt == s.history[id].expiresAt)
  }

  lemma ChangeKeepsEntries(s: State, t: State, id: nat, c: Change)
    requires Inv(s) && Makes(s, t, id, c)
    ensures KeepsEntries(s, t)
  {
    hide Inv, KeysOk, OrdersOk, ListsOk, MilestonesOk, OffersOk, TokenOk, SlotOk, Consistent, Makes;
    InvParts(s);
    SelectedEntry(s, t, id, c);
    EntriesStay(s, t, id, c);
    forall k | k in s.history ensures k in t.history && t.history[k].expiresAt == s.history[k].expiresAt {
      OfferKept(s, t, id, c, k);
    }
  }

  lemma EntriesStay(s: State, t: State, id: nat, c: Change)
    requires Makes(s, t, id, c)
    ensures s.offers.Keys <= t.offers.Keys && t.now == s.now
  {
    hide MovesTokens, MovesDisputes, MovesOrders, Enabled, Changed;
  }

  lemma OtherCallKeepsEntries(s: State, auth: Auth, call: Call)
    requires Inv(s) && !OnMilestone(call) && Execute(s, auth, call).Ok?
    ensures KeepsEntries(s, Execute(s, auth, call).value.state)
  {
    hide Inv, KeysOk, OrdersOk, ListsOk, MilestonesOk, OffersOk, TokenOk, Consistent;
    hide CreateMilestone, CancelOffer, MakeOffer;
    InvParts(s);
    if call.CallCreateMilestone? {
      CreateMilestoneWrites(s, auth, call.orderId, call.amount, call.deadline);
    } else if call.CallCancelOffer? {
      CancelOfferWrites(s, auth, call.offerId);
    } else if call.CallMakeOffer? {
      NewOfferId(s);
      MakeOfferWrites(s, auth, call.id, call.funder, call.principal, call.repayment, call.expiresAt);
    }
  }

  lemma CallKeepsEntries(s: State, auth: Auth, call: Call)
    requires Inv(s) && Execute(s, auth, call).Ok?
    ensures KeepsEntries(s, Execute(s, auth, call).value.state)
  {
    hide Inv, Consistent, Execute, Makes, SlotOk, EventsOf, KeepsEntries;
    InvParts(s);
    if OnMilestone(call) {
      var c := CallRealises(s, auth, call);
      ChangeKeepsEntries(s, Execute(s, auth, call).value.state, Target(s, call), c);
    } else {
      OtherCallKeepsEntries(s, auth, call);
    }
  }

  lemma StepAges(closes: nat -> nat, minimum: nat, s: State, a: Action, x: Ages, y: Ages)
    requires Inv(s) && Legal(s, a) && AllAged(closes, minimum, s, x)
    requires Ageing(closes, minimum, s, a, Step(s, a).0, x, y)
    ensures AllAged(closes, minimum, Step(s, a).0, y)
  {
    hide Inv, Execute, Transfer;
    if a.Invoke? && Execute(s, a.auth, a.call).Ok? {
      CallKeepsEntries(s, a.auth, a.call);
    }
    forall id | id in Step(s, a).0.history ensures OfferAged(closes, minimum, Step(s, a).0, y, id) {
      if id in s.history {
        assert OfferAged(closes, minimum, s, x, id);
      }
    }
  }

  lemma {:induction false} RunAges(r: Trace, n: nat, ages: seq<Ages>, closes: nat -> nat, minimum: nat)
    requires r.IsRun() && n < |r.states| && Aged(r, ages, closes, minimum)
    ensures AllAged(closes, minimum, r.states[n], ages[n])
  {
    hide Step, Inv, Ageing, AllAged;
    if n == 0 {
      NoOffersAge(closes, minimum, r.states[0], ages[0]);
    } else {
      RunAges(r, n - 1, ages, closes, minimum);
      RunKeepsInv(r, n - 1);
      assert Next(r.states[n - 1], r.actions[n - 1], r.states[n], r.logs[n - 1]);
      StepAges(closes, minimum, r.states[n - 1], r.actions[n - 1], ages[n - 1], ages[n]);
    }
  }

  lemma NoOffersAge(closes: nat -> nat, minimum: nat, s: State, x: Ages)
    requires s.history == map[] && s.now == closes(x.ledger)
    ensures AllAged(closes, minimum, s, x)
  {
  }

  /** In every state of every run whose entries live as long as storage gives them, the entry of an offer that has not
      expired is there if ledgers closed slowly enough after it was made, and an open one says what was offered. */
  lemma LiveOffersStay(r: Trace, n: nat, ages: seq<Ages>, closes: nat -> nat, minimum: nat, id: nat)
    requires r.IsRun() && n < |r.states| && Aged(r, ages, closes, minimum)
    requires Monotone(closes) && (id in ages[n].made ==> SlowEnough(closes, ages[n].made[id], minimum))
    requires id in r.states[n].history && r.states[n].now < r.states[n].history[id].expiresAt
    ensures id in r.states[n].offers
    ensures r.states[n].history[id].status == OfferOpen ==> r.states[n].offers[id] == r.states[n].history[id]
  {
    hide Step, Inv, Ageing;
    var s, x := r.states[n], ages[n];
    RunAges(r, n, ages, closes, minimum);
    assert OfferAged(closes, minimum, s, x, id);
    var over: nat := Created(x.made[id], minimum) + 1;
    assert over <= x.ledger ==> closes(over) <= closes(x.ledger);
    RunKeepsInv(r, n);
    EntryAgrees(s, id);
  }

  lemma EntryAgrees(s: State, id: nat)
    requires Inv(s) && id in s.history && id in s.offers
    ensures s.history[id].status == OfferOpen ==> s.offers[id] == s.history[id]
  {
    hide Inv, KeysOk, OrdersOk, ListsOk, MilestonesOk, TokenOk, Consistent, TermsOk;
    InvParts(s);
    assert OfferOk(s, id);
  }
}
