/** Runs that exist: from a deployed contract to the states that the guarantees make an exception for. */
module Scenarios {
  import opened Wrappers
  import opened Types
  import opened Token
  import opened Sums
  import opened Storage
  import opened Core
  import opened Runs
  import opened Lifecycle
  import opened Guards
  import opened Liveness
  import opened Evidence
  import opened Projector
  import opened Coupling
  import opened Replay

  const SELF := Address(0)
  const BUYER := Address(1)
  const SUPPLIER := Address(2)
  const ATTESTOR := Address(3)
  const RESOLVER := Address(4)
  const FUNDER := Address(5)
  const USDC := Address(6)

  // ---- one more step ----------------------------------------------------------------------------

  function Then(r: Trace, a: Action, t: State, log: seq<Stamped>): Trace {
    Trace(r.states + [t], r.actions + [a], r.logs + [log])
  }

  lemma RunsOn(r: Trace, a: Action, t: State, log: seq<Stamped>)
    requires r.IsRun() && Next(r.Last(), a, t, log)
    ensures Then(r, a, t, log).IsRun() && Then(r, a, t, log).Last() == t
    ensures Then(r, a, t, log).Log() == r.Log() + log
  {
    hide Next;
    var u := Then(r, a, t, log);
    forall i | 0 <= i < |u.actions| ensures Next(u.states[i], u.actions[i], u.states[i + 1], u.logs[i]) {
      if i < |r.actions| {
        assert Next(r.states[i], r.actions[i], r.states[i + 1], r.logs[i]);
      }
    }
    PublishedSame(r, u, |r.logs|);
  }

  lemma {:induction false} PublishedSame(r: Trace, u: Trace, n: nat)
    requires n <= |r.logs| <= |u.logs| && u.logs[..|r.logs|] == r.logs
    ensures u.Published(n) == r.Published(n)
  {
    if n > 0 {
      PublishedSame(r, u, n - 1);
      assert u.logs[n - 1] == u.logs[..|r.logs|][n - 1];
    }
  }

  /** Somebody signs one call, which succeeds. */
  lemma Signed(r: Trace, who: Address, call: Call, t: State, event: Event) returns (u: Trace)
    requires r.IsRun() && who != r.Last().self
    requires Execute(r.Last(), {who}, call) == Ok(Done(t, (), [event]))
    ensures u.IsRun() && u == Then(r, Invoke({who}, call), t, [Stamped(r.Last().now, event)]) && u.Last() == t
    ensures u.Log() == r.Log() + [Stamped(r.Last().now, event)]
  {
    hide Execute;
    StampOne(r.Last().now, event);
    RunsOn(r, Invoke({who}, call), t, [Stamped(r.Last().now, event)]);
    u := Then(r, Invoke({who}, call), t, [Stamped(r.Last().now, event)]);
  }

  // ---- an order with one milestone of a hundred -------------------------------------------------

  function Start(): State {
    State(SELF, Config(BUYER, USDC), 0, 0, 0, 0, 0, map[], map[], map[], map[], map[], map[], map[],
          map[BUYER := 100], 0)
  }

  function OrderWith(resolver: Address, status: OrderStatus): Order {
    Order(1, BUYER, SUPPLIER, ATTESTOR, resolver, USDC, status, 0)
  }

  function Ordered(resolver: Address): State {
    Start().(orderCount := 1, orders := map[1 := OrderWith(resolver, Created)])
  }

  function MilestoneIn(deadline: Option<U64>, funded: I128, status: MilestoneStatus): Milestone {
    Milestone(1, 1, 0, 100, funded, deadline, None, status, 0)
  }

  function Planned(resolver: Address, deadline: Option<U64>): State {
    Ordered(resolver).(milestoneCount := 1, lists := map[1 := [1]],
                       slots := map[1 := Slot(MilestoneIn(deadline, 0, Unfunded), None, None, None, None)])
  }

  function Agreed(resolver: Address): State {
    Planned(resolver, None).(orders := map[1 := OrderWith(resolver, Active)])
  }

  function Protected(resolver: Address): State {
    Agreed(resolver).(slots := map[1 := Slot(MilestoneIn(None, 100, Funded), None, None, None, None)],
                      balances := map[BUYER := 0, SELF := 100])
  }

  lemma StartRuns() returns (r: Trace)
    ensures r.IsRun() && r == Trace([Start()], [], []) && r.Last() == Start() && r.Log() == []
  {
    r := Trace([Start()], [], []);
    SumRemove(Start().balances, Amount, BUYER);
  }

  lemma OrderedNext(resolver: Address)
    requires resolver !in {BUYER, SUPPLIER, ATTESTOR}
    ensures Execute(Start(), {BUYER}, CallCreateOrder(BUYER, SUPPLIER, ATTESTOR, resolver)) ==
            Ok(Done(Ordered(resolver), (), [OrderCreated(1, BUYER, SUPPLIER, ATTESTOR, resolver, USDC)]))
  {
    assert CreateOrder(Start(), {BUYER}, BUYER, SUPPLIER, ATTESTOR, resolver).Ok?;
  }

  lemma PlannedNext(resolver: Address, deadline: Option<U64>)
    requires deadline.Some? ==> deadline.value > 0
    ensures Execute(Ordered(resolver), {BUYER}, CallCreateMilestone(1, 100, deadline)) ==
            Ok(Done(Planned(resolver, deadline), (), [MilestoneCreated(1, 1, 0, 100, deadline)]))
  {
    var t := CreateMilestone(Ordered(resolver), {BUYER}, 1, 100, deadline).value.state;
    assert ReadOrderMilestones(Ordered(resolver), 1) + [1] == [1];
    assert t.slots == Planned(resolver, deadline).slots && t.lists == Planned(resolver, deadline).lists;
  }

  lemma AgreedNext(resolver: Address)
    ensures Execute(Planned(resolver, None), {SUPPLIER}, CallAcceptOrder(1)) ==
            Ok(Done(Agreed(resolver), (), [OrderAccepted(1, SUPPLIER)]))
  {
    assert Execute(Planned(resolver, None), {SUPPLIER}, CallAcceptOrder(1)).value.state.orders
           == Agreed(resolver).orders;
  }

  lemma ProtectedNext(resolver: Address)
    ensures Execute(Agreed(resolver), {BUYER}, CallFundMilestone(1, 100, USDC)) ==
            Ok(Done(Protected(resolver), (), [MilestoneFunded(1, 1, BUYER, 100, 100, true)]))
  {
    var t := Execute(Agreed(resolver), {BUYER}, CallFundMilestone(1, 100, USDC)).value.state;
    assert t.slots == Protected(resolver).slots && t.balances == Protected(resolver).balances;
  }

  lemma PlannedRuns(resolver: Address, deadline: Option<U64>) returns (r: Trace)
    requires resolver !in {BUYER, SUPPLIER, ATTESTOR} && (deadline.Some? ==> deadline.value > 0)
    ensures r.IsRun() && r.Last() == Planned(resolver, deadline)
    ensures r.Log() == [Stamped(0, OrderCreated(1, BUYER, SUPPLIER, ATTESTOR, resolver, USDC)),
                        Stamped(0, MilestoneCreated(1, 1, 0, 100, deadline))]
  {
    hide Execute;
    r := StartRuns();
    OrderedNext(resolver);
    r := Signed(r, BUYER, CallCreateOrder(BUYER, SUPPLIER, ATTESTOR, resolver), Ordered(resolver),
                OrderCreated(1, BUYER, SUPPLIER, ATTESTOR, resolver, USDC));
    PlannedNext(resolver, deadline);
    r := Signed(r, BUYER, CallCreateMilestone(1, 100, deadline), Planned(resolver, deadline),
                MilestoneCreated(1, 1, 0, 100, deadline));
  }

  /** What is published until the supplier has agreed. */
  function AgreedLog(resolver: Address): seq<Stamped> {
    [Stamped(0, OrderCreated(1, BUYER, SUPPLIER, ATTESTOR, resolver, USDC)),
     Stamped(0, MilestoneCreated(1, 1, 0, 100, None)), Stamped(0, OrderAccepted(1, SUPPLIER))]
  }

  lemma AgreedRuns(resolver: Address) returns (r: Trace)
    requires resolver !in {BUYER, SUPPLIER, ATTESTOR}
    ensures r.IsRun() && r.Last() == Agreed(resolver) && r.Log() == AgreedLog(resolver)
  {
    hide Execute;
    r := PlannedRuns(resolver, None);
    AgreedNext(resolver);
    r := Signed(r, SUPPLIER, CallAcceptOrder(1), Agreed(resolver), OrderAccepted(1, SUPPLIER));
  }

  lemma ProtectedRuns(resolver: Address) returns (r: Trace)
    requires resolver !in {BUYER, SUPPLIER, ATTESTOR}
    ensures r.IsRun() && r.Last() == Protected(resolver)
    ensures r.Log() == AgreedLog(resolver) + [Stamped(0, MilestoneFunded(1, 1, BUYER, 100, 100, true))]
  {
    hide Execute;
    r := AgreedRuns(resolver);
    ProtectedNext(resolver);
    r := Signed(r, BUYER, CallFundMilestone(1, 100, USDC), Protected(resolver),
                MilestoneFunded(1, 1, BUYER, 100, 100, true));
  }

  // ---- a deadline no date can hold ----------------------------------------------------------------

  /** The contract accepts any deadline in the future, and there is one that no projection can store: the indexer
      never gets past this run. */
  lemma DeadlineStopsIndexer() returns (r: Trace)
    ensures r.IsRun() && !AllDatesFit(r.Log())
    ensures forall ds | Delivers(ds, r.Log(), 0) :: Fold(Empty(), ds).Err?
  {
    r := PlannedRuns(RESOLVER, Some(MAX_DATE_SECONDS + 1));
    assert !DatesFit(r.Log()[1].event);
    forall ds | Delivers(ds, r.Log(), 0) ensures Fold(Empty(), ds).Err? {
      ReplayIsExact(r, |r.logs|, ds);
    }
  }

  // ---- disputes ---------------------------------------------------------------------------------

  function Contested(resolver: Address): State {
    Protected(resolver).(
      disputeCount := 1, disputes := map[1 := Dispute(1, 1, BUYER, resolver, DisputeOpen, 0)],
      slots := map[1 := Slot(MilestoneIn(None, 100, Disputed), None, None, None, Some(1))])
  }

  function Decided(resolver: Address): State {
    Contested(resolver).(
      disputes := map[1 := Dispute(1, 1, BUYER, resolver, ResolvedSettle, 0)],
      slots := map[1 := Slot(MilestoneIn(None, 100, Verified), None, None, None, Some(1))])
  }

  lemma ContestedNext(resolver: Address)
    ensures Execute(Protected(resolver), {BUYER}, CallOpenDispute(1, BUYER)) ==
            Ok(Done(Contested(resolver), (), [DisputeOpened(1, 1, BUYER, resolver)]))
  {
    var t := OpenDispute(Protected(resolver), {BUYER}, 1, BUYER).value.state;
    assert t.slots == Contested(resolver).slots && t.disputes == Contested(resolver).disputes;
  }

  lemma DecidedNext(resolver: Address)
    ensures Execute(Contested(resolver), {resolver}, CallResolveDispute(1, Settle)) ==
            Ok(Done(Decided(resolver), (), [DisputeResolved(1, 1, resolver, true)]))
  {
    hide RefundEscrow, CompleteOrderIfFinished;
    var t := ResolveDispute(Contested(resolver), {resolver}, 1, Settle).value.state;
    assert t.slots == Decided(resolver).slots && t.disputes == Decided(resolver).disputes;
  }

  lemma ContestedRuns(resolver: Address) returns (r: Trace)
    requires resolver !in {BUYER, SUPPLIER, ATTESTOR}
    ensures r.IsRun() && r.Last() == Contested(resolver)
  {
    hide Execute;
    r := ProtectedRuns(resolver);
    ContestedNext(resolver);
    r := Signed(r, BUYER, CallOpenDispute(1, BUYER), Contested(resolver), DisputeOpened(1, 1, BUYER, resolver));
  }

  /** Escrow can be stranded: the contract itself, named as resolver, never decides the dispute. */
  lemma EscrowCanStrand() returns (r: Trace)
    ensures r.IsRun() && Known(r.Last(), 1)
    ensures r.Last().slots[1].milestone.funded == 100 && !CanFinish(r.Last(), 1)
    ensures forall w: Trace, k: nat | w.IsPath() && w.states[0] == r.Last() && k < |w.states| ::
              Known(w.states[k], 1) && w.states[k].slots[1].milestone.funded > 0
  {
    r := ContestedRuns(SELF);
    NoStrandedEscrow(r, |r.states| - 1, 1);
  }

  /** A milestone can be verified with no evidence on record. */
  lemma VerifiedWithNothing() returns (r: Trace)
    ensures r.IsRun() && HasStatus(r.Last(), 1, Verified) && r.Last().slots[1].milestone.evidence.None?
  {
    hide Execute;
    r := ContestedRuns(RESOLVER);
    DecidedNext(RESOLVER);
    r := Signed(r, RESOLVER, CallResolveDispute(1, Settle), Decided(RESOLVER), DisputeResolved(1, 1, RESOLVER, true));
  }

  // ---- an offer from an earlier round -----------------------------------------------------------

  function RequestFor(principal: I128, status: RequestStatus): FinanceRequest {
    FinanceRequest(1, SUPPLIER, principal, status, 1000, 0)
  }

  function OfferOf(status: OfferStatus): Offer {
    Offer(1, 1, FUNDER, 50, 60, 500, status)
  }

  function Seeking(s: State, status: MilestoneStatus, request: FinanceRequest, accepted: Option<Offer>): State {
    s.(slots := map[1 := Slot(MilestoneIn(None, 100, status), Some(request), accepted, None, None)])
  }

  function Asked(): State {
    Seeking(Protected(RESOLVER), FinanceRequested, RequestFor(50, RequestOpen), None).(offerIndex := map[1 := []])
  }

  function Offered(): State {
    Asked().(offerCount := 1, offers := map[1 := OfferOf(OfferOpen)], history := map[1 := OfferOf(OfferOpen)],
             offerIndex := map[1 := [1]])
  }

  function Withdrew(): State {
    Seeking(Offered(), Funded, RequestFor(50, RequestCancelled), None).(offerIndex := map[1 := []])
  }

  function AskedLess(): State {
    Seeking(Withdrew(), FinanceRequested, RequestFor(40, RequestOpen), None)
  }

  function TookMore(): State {
    Seeking(AskedLess(), FinanceRequested, RequestFor(40, RequestAccepted), Some(OfferOf(OfferAccepted)))
    .(offers := map[1 := OfferOf(OfferAccepted)], history := map[1 := OfferOf(OfferAccepted)])
  }

  lemma AskedNext()
    ensures Execute(Protected(RESOLVER), {SUPPLIER}, CallRequestFinance(1, 50, 1000)) ==
            Ok(Done(Asked(), (), [FinanceRequestOpened(1, SUPPLIER, 50, 100, 1000)]))
  {
    var t := RequestFinance(Protected(RESOLVER), {SUPPLIER}, 1, 50, 1000).value.state;
    assert t.slots == Asked().slots && t.offerIndex == Asked().offerIndex;
  }

  lemma OfferedNext()
    ensures Execute(Asked(), {FUNDER}, CallMakeOffer(1, FUNDER, 50, 60, 500)) ==
            Ok(Done(Offered(), (), [FundingOfferCreated(1, 1, FUNDER, 50, 60, 500)]))
  {
    var t := MakeOffer(Asked(), {FUNDER}, 1, FUNDER, 50, 60, 500).value.state;
    assert ReadMilestoneOffers(Asked(), 1) + [1] == [1];
    assert t.offers == Offered().offers && t.history == Offered().history && t.offerIndex == Offered().offerIndex;
  }

  lemma WithdrewNext()
    ensures Execute(Offered(), {SUPPLIER}, CallCancelFinanceRequest(1)) ==
            Ok(Done(Withdrew(), (), [FinanceRequestClosed(1, SUPPLIER, false)]))
  {
    var t := CancelFinanceRequest(Offered(), {SUPPLIER}, 1).value.state;
    assert t.slots == Withdrew().slots && t.offerIndex == Withdrew().offerIndex;
  }

  lemma AskedLessNext()
    ensures Execute(Withdrew(), {SUPPLIER}, CallRequestFinance(1, 40, 1000)) ==
            Ok(Done(AskedLess(), (), [FinanceRequestOpened(1, SUPPLIER, 40, 100, 1000)]))
  {
    var t := RequestFinance(Withdrew(), {SUPPLIER}, 1, 40, 1000).value.state;
    assert t.slots == AskedLess().slots && t.offerIndex == AskedLess().offerIndex;
  }

  lemma TookMoreNext()
    ensures Execute(AskedLess(), {SUPPLIER}, CallAcceptOffer(1)) ==
            Ok(Done(TookMore(), (), [FundingOfferAccepted(1, 1, FUNDER, 50, 60)]))
  {
    var t := AcceptOffer(AskedLess(), {SUPPLIER}, 1).value.state;
    assert t.slots == TookMore().slots && t.offers == TookMore().offers && t.history == TookMore().history;
  }

  lemma AskedRuns() returns (r: Trace)
    ensures r.IsRun() && r.Last() == Asked()
    ensures r.Log() == AgreedLog(RESOLVER) + [Stamped(0, MilestoneFunded(1, 1, BUYER, 100, 100, true)),
                                              Stamped(0, FinanceRequestOpened(1, SUPPLIER, 50, 100, 1000))]
  {
    hide Execute;
    r := ProtectedRuns(RESOLVER);
    AskedNext();
    r := Signed(r, SUPPLIER, CallRequestFinance(1, 50, 1000), Asked(),
                FinanceRequestOpened(1, SUPPLIER, 50, 100, 1000));
  }

  /** An offer of fifty outlives the request it answered, and is accepted against a request for forty. */
  lemma EarlierOfferIsTaken() returns (r: Trace)
    ensures r.IsRun() && 1 in r.Last().slots
    ensures var x := r.Last().slots[1];
            && x.request.Some? && x.request.value.status == RequestAccepted && x.request.value.principal == 40
            && x.accepted.Some? && x.accepted.value.status == OfferAccepted && x.accepted.value.principal == 50
  {
    hide Execute;
    r := AskedRuns();
    OfferedNext();
    r := Signed(r, FUNDER, CallMakeOffer(1, FUNDER, 50, 60, 500), Offered(),
                FundingOfferCreated(1, 1, FUNDER, 50, 60, 500));
    WithdrewNext();
    r := Signed(r, SUPPLIER, CallCancelFinanceRequest(1), Withdrew(), FinanceRequestClosed(1, SUPPLIER, false));
    AskedLessNext();
    r := Signed(r, SUPPLIER, CallRequestFinance(1, 40, 1000), AskedLess(),
                FinanceRequestOpened(1, SUPPLIER, 40, 100, 1000));
    TookMoreNext();
    r := Signed(r, SUPPLIER, CallAcceptOffer(1), TookMore(), FundingOfferAccepted(1, 1, FUNDER, 50, 60));
  }
}
