/** The contract as it is written: keyed storage entries, written one by one by entry points that return early
    on the first guard that fails. Every entry point is proved to do what its function in `Core` says. */
module Contract {
  import opened Wrappers
  import opened Types
  import opened Token
  import Storage
  import Escrow
  import opened Financing
  import opened Settlement
  import Core
  import opened Runs
  import opened Invariant
  import opened OrderPreservation

  type State = Storage.State
  type Slot = Storage.Slot
  type Auth = Core.Auth

  /** Every entry the contract keeps, and what it has published: what the host restores when a call fails. */
  datatype Snapshot = Snapshot(
    now: U64, orderCounter: U64, milestoneCounter: U64, offerCounter: U64, disputeCounter: U64,
    orders: map<nat, Order>, orderMilestones: map<nat, seq<nat>>, milestones: map<nat, Milestone>,
    financeRequests: map<nat, FinanceRequest>, acceptedOffers: map<nat, Offer>, financePositions: map<nat, Position>,
    disputes: map<nat, Dispute>, milestoneDisputes: map<nat, nat>, offers: map<nat, Offer>,
    milestoneOffers: map<nat, seq<nat>>, balances: Balances, events: seq<Stamped>)

  /** The entries keyed by one milestone id, put together. */
  function Bundle(milestones: map<nat, Milestone>, requests: map<nat, FinanceRequest>, accepted: map<nat, Offer>,
                  positions: map<nat, Position>, links: map<nat, nat>): map<nat, Slot> {
    map id | id in milestones ::
      Storage.Slot(milestones[id], Get(requests, id), Get(accepted, id), Get(positions, id), Get(links, id))
  }

  /** Whatever is keyed by a milestone id, or names one, belongs to a milestone that exists. */
  predicate Keyed(milestones: map<nat, Milestone>, requests: map<nat, FinanceRequest>, accepted: map<nat, Offer>,
                  positions: map<nat, Position>, disputes: map<nat, Dispute>, links: map<nat, nat>) {
    && requests.Keys <= milestones.Keys && accepted.Keys <= milestones.Keys
    && positions.Keys <= milestones.Keys && links.Keys <= milestones.Keys
    && (forall id | id in requests :: requests[id].milestoneId in milestones)
    && (forall id | id in positions :: positions[id].milestoneId in milestones)
    && (forall id | id in disputes :: disputes[id].milestoneId in milestones)
  }

  lemma BundleAccepts(milestones: map<nat, Milestone>, requests: map<nat, FinanceRequest>, accepted: map<nat, Offer>,
                      positions: map<nat, Position>, links: map<nat, nat>, id: nat, offer: Offer)
    requires id in milestones
    ensures var slots := Bundle(milestones, requests, accepted, positions, links);
            && id in slots
            && Bundle(milestones, requests, accepted[id := offer], positions, links) ==
               slots[id := slots[id].(accepted := Some(offer))]
            && Bundle(milestones, requests, accepted - {id}, positions, links) ==
               slots[id := slots[id].(accepted := None)]
  {
  }

  lemma BundleLinks(milestones: map<nat, Milestone>, requests: map<nat, FinanceRequest>, accepted: map<nat, Offer>,
                    positions: map<nat, Position>, links: map<nat, nat>, id: nat, dispute: nat)
    requires id in milestones
    ensures var slots := Bundle(milestones, requests, accepted, positions, links);
            && id in slots
            && Bundle(milestones, requests, accepted, positions, links[id := dispute]) ==
               slots[id := slots[id].(dispute := Some(dispute))]
  {
  }

  function ReadIndex(index: map<nat, seq<nat>>, id: nat): seq<nat> {
    if id in index then index[id] else []
  }

  predicate Selectable(offers: map<nat, Offer>, now: U64, id: nat) {
    id in offers && offers[id].status == OfferOpen && IsLive(now, offers[id].expiresAt)
  }

  /** The open and live offers among the indexed ids, in index order. */
  function OpenAmong(offers: map<nat, Offer>, now: U64, ids: seq<nat>): seq<Offer> {
    if ids == [] then []
    else
      var last := ids[|ids| - 1];
      OpenAmong(offers, now, ids[..|ids| - 1]) + if Selectable(offers, now, last) then [offers[last]] else []
  }

  /** Nothing dead is presented as selectable, and nothing indexed and selectable is left out. */
  lemma {:induction false} OpenAmongIsExact(offers: map<nat, Offer>, now: U64, ids: seq<nat>, o: Offer)
    ensures o in OpenAmong(offers, now, ids) <==>
            exists id | id in ids :: Selectable(offers, now, id) && offers[id] == o
  {
    if ids != [] {
      var last := ids[|ids| - 1];
      var rest := ids[..|ids| - 1];
      assert ids == rest + [last];
      OpenAmongIsExact(offers, now, rest, o);
    }
  }

  /** How many of the first `n` indexed ids lead to an offer that is open and live. */
  function OpenBefore(offers: map<nat, Offer>, now: U64, ids: seq<nat>, n: nat): nat
    requires n <= |ids|
  {
    |set k | 0 <= k < n && Selectable(offers, now, ids[k])|
  }

  lemma OneMoreBefore(offers: map<nat, Offer>, now: U64, ids: seq<nat>, n: nat)
    requires n < |ids|
    ensures OpenBefore(offers, now, ids, n + 1) ==
            OpenBefore(offers, now, ids, n) + if Selectable(offers, now, ids[n]) then 1 else 0
  {
    var before := set k | 0 <= k < n && Selectable(offers, now, ids[k]);
    var after := set k | 0 <= k < n + 1 && Selectable(offers, now, ids[k]);
    assert after == before + if Selectable(offers, now, ids[n]) then {n} else {};
  }

  lemma SameBefore(offers: map<nat, Offer>, now: U64, ids: seq<nat>, more: seq<nat>, n: nat)
    requires n <= |ids| <= |more| && more[..|ids|] == ids
    ensures OpenBefore(offers, now, more, n) == OpenBefore(offers, now, ids, n)
  {
    assert forall k | 0 <= k < n :: more[k] == more[..|ids|][k] == ids[k];
    assert (set k | 0 <= k < n && Selectable(offers, now, more[k]))
           == set k | 0 <= k < n && Selectable(offers, now, ids[k]);
  }

  /** Each indexed id that leads to an open and live offer has its own place in the answer, in index order, and the
      answer has no other places. */
  lemma {:induction false} OpenAmongKeepsOrder(offers: map<nat, Offer>, now: U64, ids: seq<nat>)
    ensures |OpenAmong(offers, now, ids)| == OpenBefore(offers, now, ids, |ids|)
    ensures forall i | 0 <= i < |ids| && Selectable(offers, now, ids[i]) ::
              && OpenBefore(offers, now, ids, i) < |OpenAmong(offers, now, ids)|
              && OpenAmong(offers, now, ids)[OpenBefore(offers, now, ids, i)] == offers[ids[i]]
  {
    hide OpenBefore;
    if ids == [] {
      NoneBefore(offers, now, ids);
    } else {
      var n := |ids| - 1;
      var rest := ids[..n];
      OpenAmongKeepsOrder(offers, now, rest);
      SameBefore(offers, now, rest, ids, n);
      OneMoreBefore(offers, now, ids, n);
      forall i | 0 <= i < |ids| && Selectable(offers, now, ids[i])
        ensures OpenBefore(offers, now, ids, i) < |OpenAmong(offers, now, ids)|
        ensures OpenAmong(offers, now, ids)[OpenBefore(offers, now, ids, i)] == offers[ids[i]]
      {
        if i < n {
          SameBefore(offers, now, rest, ids, i);
          assert rest[i] == ids[i];
        }
      }
    }
  }

  lemma NoneBefore(offers: map<nat, Offer>, now: U64, ids: seq<nat>)
    ensures OpenBefore(offers, now, ids, 0) == 0
  {
  }

  lemma StampThree(at: U64, first: Event, second: Event, rest: seq<Event>)
    ensures Stamp(at, [first, second] + rest) == Stamp(at, [first]) + Stamp(at, [second]) + Stamp(at, rest)
  {
    hide Stamp;
    StampConcat(at, [first], [second]);
    assert [first] + [second] == [first, second];
    StampConcat(at, [first, second], rest);
  }

  class MilvanceCore {
    const self: Address
    const config: Config
    var now: U64

    // instance storage
    var orderCounter: U64
    var milestoneCounter: U64
    var offerCounter: U64
    var disputeCounter: U64

    // persistent storage
    var orders: map<nat, Order>
    var orderMilestones: map<nat, seq<nat>>
    var milestones: map<nat, Milestone>
    var financeRequests: map<nat, FinanceRequest>
    var acceptedOffers: map<nat, Offer>
    var financePositions: map<nat, Position>
    var disputes: map<nat, Dispute>
    var milestoneDisputes: map<nat, nat>

    // temporary storage
    var offers: map<nat, Offer>
    var milestoneOffers: map<nat, seq<nat>>

    // the asset's ledger, and what has been published
    var balances: Balances
    var events: seq<Stamped>

    ghost var history: map<nat, Offer>
    ghost var donated: int

    predicate Valid()
      reads this`milestones, this`financeRequests, this`acceptedOffers, this`financePositions, this`milestoneDisputes
      reads this`disputes
    {
      Keyed(milestones, financeRequests, acceptedOffers, financePositions, disputes, milestoneDisputes)
    }

    /** All entries as one value. */
    ghost function View(): State
      reads this`now, this`orderCounter, this`milestoneCounter, this`offerCounter, this`disputeCounter
      reads this`orders, this`orderMilestones, this`milestones, this`financeRequests, this`acceptedOffers
      reads this`financePositions, this`disputes, this`milestoneDisputes, this`offers, this`milestoneOffers
      reads this`balances, this`history, this`donated
    {
      Storage.State(self, config, now, orderCounter, milestoneCounter, offerCounter, disputeCounter,
                    orders, orderMilestones,
                    Bundle(milestones, financeRequests, acceptedOffers, financePositions, milestoneDisputes),
                    disputes, offers, milestoneOffers, history, balances, donated)
    }

    /** A call that returned `r` did what `spec` says: on success the storage, the value and the events it
        published at that time; on failure the same error. */
    ghost predicate Did<T>(spec: Result<Core.Done<T>, Error>, r: Result<T, Error>, before: seq<Stamped>, at: U64)
      reads this
    {
      match spec
      case Ok(d) => r == Ok(d.value) && View() == d.state && events == before + Stamp(at, d.events)
      case Err(e) => r == Err(e)
    }

    lemma ViewFields()
      ensures View().now == now && View().config == config && View().self == self
      ensures View().orderCount == orderCounter && View().milestoneCount == milestoneCounter
      ensures View().offerCount == offerCounter && View().disputeCount == disputeCounter
    {
    }

    constructor (self: Address, admin: Address, usdc: Address, now: U64, balances: Balances)
      requires BalancesOk(balances)
      ensures Valid() && events == [] && Deployed(View())
      ensures View().config == Config(admin, usdc) && View().self == self && View().balances == balances
    {
      this.self := self;
      config := Config(admin, usdc);
      this.now := now;
      orderCounter, milestoneCounter, offerCounter, disputeCounter := 0, 0, 0, 0;
      orders, orderMilestones, milestones, financeRequests := map[], map[], map[], map[];
      acceptedOffers, financePositions, disputes, milestoneDisputes := map[], map[], map[], map[];
      offers, milestoneOffers := map[], map[];
      this.balances := balances;
      events := [];
      history, donated := map[], Balance(balances, self);
    }

    // ---- storage ------------------------------------------------------------------------------

    method Publish(event: Event)
      modifies this
      ensures View() == old(View()) && now == old(now) && milestones == old(milestones) && Valid() == old(Valid())
      ensures events == old(events) + Stamp(now, [event])
    {
      events := events + [Stamped(now, event)];
      assert Stamp(now, [event]) == [Stamped(now, event)];
    }

    method NextOrderId() returns (r: Result<U64, Error>)
      modifies this
      ensures events == old(events) && now == old(now) && milestones == old(milestones) && Valid() == old(Valid())
      ensures r == Storage.NextId(old(View()).orderCount)
      ensures r.Ok? ==> View() == old(View()).(orderCount := r.value)
    {
      if orderCounter == U64_MAX { return Err(HostTrap); }
      orderCounter := orderCounter + 1;
      return Ok(orderCounter);
    }

    method NextMilestoneId() returns (r: Result<U64, Error>)
      modifies this
      ensures events == old(events) && now == old(now) && milestones == old(milestones) && Valid() == old(Valid())
      ensures r == Storage.NextId(old(View()).milestoneCount)
      ensures r.Ok? ==> View() == old(View()).(milestoneCount := r.value)
    {
      if milestoneCounter == U64_MAX { return Err(HostTrap); }
      milestoneCounter := milestoneCounter + 1;
      return Ok(milestoneCounter);
    }

    method NextOfferId() returns (r: Result<U64, Error>)
      modifies this
      ensures events == old(events) && now == old(now) && milestones == old(milestones) && Valid() == old(Valid())
      ensures r == Storage.NextId(old(View()).offerCount)
      ensures r.Ok? ==> View() == old(View()).(offerCount := r.value)
    {
      if offerCounter == U64_MAX { return Err(HostTrap); }
      offerCounter := offerCounter + 1;
      return Ok(offerCounter);
    }

    method NextDisputeId() returns (r: Result<U64, Error>)
      modifies this
      ensures events == old(events) && now == old(now) && milestones == old(milestones) && Valid() == old(Valid())
      ensures r == Storage.NextId(old(View()).disputeCount)
      ensures r.Ok? ==> View() == old(View()).(disputeCount := r.value)
    {
      if disputeCounter == U64_MAX { return Err(HostTrap); }
      disputeCounter := disputeCounter + 1;
      return Ok(disputeCounter);
    }

    method ReadOrder(id: nat) returns (r: Result<Order, Error>)
      ensures r == Storage.ReadOrder(View(), id)
    {
      if id !in orders { return Err(OrderNotFound); }
      return Ok(orders[id]);
    }

    method WriteOrder(order: Order)
      modifies this
      ensures events == old(events) && now == old(now) && milestones == old(milestones) && Valid() == old(Valid())
      ensures View() == Storage.WriteOrder(old(View()), order)
    {
      orders := orders[order.id := order];
    }

    method ReadMilestone(id: nat) returns (r: Result<Milestone, Error>)
      ensures r == Storage.ReadMilestone(View(), id) && (r.Ok? ==> id in milestones)
    {
      if id !in milestones { return Err(MilestoneNotFound); }
      return Ok(milestones[id]);
    }

    method WriteMilestone(x: Milestone)
      requires Valid()
      modifies this
      ensures events == old(events) && now == old(now)
      ensures Valid() && View() == Storage.WriteMilestone(old(View()), x)
      ensures milestones == old(milestones)[x.id := x]
    {
      milestones := milestones[x.id := x];
      assert View().slots == Storage.WriteMilestone(old(View()), x).slots;
    }

    method ReadOrderMilestones(id: nat) returns (ids: seq<nat>)
      ensures ids == Storage.ReadOrderMilestones(View(), id)
    {
      ids := if id in orderMilestones then orderMilestones[id] else [];
    }

    method WriteOrderMilestones(id: nat, ids: seq<nat>)
      modifies this
      ensures events == old(events) && now == old(now) && milestones == old(milestones) && Valid() == old(Valid())
      ensures View() == Storage.WriteOrderMilestones(old(View()), id, ids)
    {
      orderMilestones := orderMilestones[id := ids];
    }

    method FindFinanceRequest(id: nat) returns (r: Option<FinanceRequest>)
      requires Valid()
      ensures r == Storage.FindRequest(View(), id) && (r.Some? ==> r.value.milestoneId in milestones)
    {
      r := Get(financeRequests, id);
    }

    method ReadFinanceRequest(id: nat) returns (r: Result<FinanceRequest, Error>)
      requires Valid()
      ensures r == Storage.ReadRequest(View(), id) && (r.Ok? ==> r.value.milestoneId in milestones)
    {
      if id !in financeRequests { return Err(FinanceRequestNotFound); }
      return Ok(financeRequests[id]);
    }

    method WriteFinanceRequest(request: FinanceRequest)
      requires Valid() && request.milestoneId in milestones
      modifies this
      ensures events == old(events) && now == old(now) && milestones == old(milestones)
      ensures Valid() && View() == Storage.WriteRequest(old(View()), request)
    {
      financeRequests := financeRequests[request.milestoneId := request];
      assert View().slots == Storage.WriteRequest(old(View()), request).slots;
    }

    method FindAcceptedOffer(id: nat) returns (r: Option<Offer>)
      requires Valid()
      ensures r == Storage.FindAccepted(View(), id)
    {
      r := Get(acceptedOffers, id);
    }

    method ReadAcceptedOffer(id: nat) returns (r: Result<Offer, Error>)
      requires Valid()
      ensures r == Storage.ReadAccepted(View(), id)
    {
      if id !in acceptedOffers { return Err(NoAcceptedOffer); }
      return Ok(acceptedOffers[id]);
    }

    method WriteAcceptedOffer(id: nat, offer: Offer)
      requires Valid() && id in milestones
      modifies this
      ensures events == old(events) && now == old(now) && milestones == old(milestones)
      ensures Valid() && View() == Storage.WriteAccepted(old(View()), id, offer)
    {
      hide Bundle;
      BundleAccepts(milestones, financeRequests, acceptedOffers, financePositions, milestoneDisputes, id, offer);
      acceptedOffers := acceptedOffers[id := offer];
      history := history[offer.id := offer];
    }

    method RemoveAcceptedOffer(id: nat, ghost offer: Offer)
      requires Valid() && id in milestones
      modifies this
      ensures events == old(events) && now == old(now) && milestones == old(milestones)
      ensures Valid() && View() == Storage.RemoveAccepted(old(View()), id, offer)
    {
      hide Bundle;
      BundleAccepts(milestones, financeRequests, acceptedOffers, financePositions, milestoneDisputes, id, offer);
      acceptedOffers := acceptedOffers - {id};
      history := history[offer.id := offer.(status := OfferCancelled)];
    }

    method FindFinancePosition(id: nat) returns (r: Option<Position>)
      requires Valid()
      ensures r == Storage.FindPosition(View(), id) && (r.Some? ==> r.value.milestoneId in milestones)
    {
      r := Get(financePositions, id);
    }

    method WriteFinancePosition(position: Position)
      requires Valid() && position.milestoneId in milestones
      modifies this
      ensures events == old(events) && now == old(now) && milestones == old(milestones)
      ensures Valid() && View() == Storage.WritePosition(old(View()), position)
    {
      financePositions := financePositions[position.milestoneId := position];
      assert View().slots == Storage.WritePosition(old(View()), position).slots;
    }

    method FindMilestoneDispute(id: nat) returns (r: Option<Dispute>)
      requires Valid()
      ensures r == Storage.FindMilestoneDispute(View(), id) && (r.Some? ==> r.value.milestoneId in milestones)
    {
      if id !in milestoneDisputes { return None; }
      return Get(disputes, milestoneDisputes[id]);
    }

    method ReadMilestoneDispute(id: nat) returns (r: Result<Dispute, Error>)
      requires Valid()
      ensures r == Storage.ReadMilestoneDispute(View(), id) && (r.Ok? ==> r.value.milestoneId in milestones)
    {
      var dispute := FindMilestoneDispute(id);
      if dispute.None? { return Err(DisputeNotFound); }
      return Ok(dispute.value);
    }

    method WriteDispute(dispute: Dispute)
      requires Valid() && dispute.milestoneId in milestones
      modifies this
      ensures events == old(events) && now == old(now) && milestones == old(milestones)
      ensures Valid() && View() == Storage.WriteDispute(old(View()), dispute)
    {
      hide Bundle;
      BundleLinks(milestones, financeRequests, acceptedOffers, financePositions, milestoneDisputes, dispute.milestoneId,
                  dispute.id);
      disputes := disputes[dispute.id := dispute];
      milestoneDisputes := milestoneDisputes[dispute.milestoneId := dispute.id];
    }

    method FindOffer(id: nat) returns (r: Option<Offer>)
      ensures r == Storage.FindOffer(View(), id)
    {
      r := Get(offers, id);
    }

    method ReadOffer(id: nat) returns (r: Result<Offer, Error>)
      ensures r == Storage.ReadOffer(View(), id)
    {
      if id !in offers { return Err(OfferNotFound); }
      return Ok(offers[id]);
    }

    method WriteOffer(offer: Offer)
      modifies this
      ensures events == old(events) && now == old(now) && milestones == old(milestones) && Valid() == old(Valid())
      ensures View() == Storage.WriteOffer(old(View()), offer)
    {
      offers := offers[offer.id := offer];
      history := history[offer.id := offer];
    }

    method ReadMilestoneOffers(id: nat) returns (ids: seq<nat>)
      ensures ids == Storage.ReadMilestoneOffers(View(), id)
    {
      ids := if id in milestoneOffers then milestoneOffers[id] else [];
    }

    method WriteMilestoneOffers(id: nat, ids: seq<nat>)
      modifies this
      ensures events == old(events) && now == old(now) && milestones == old(milestones) && Valid() == old(Valid())
      ensures View() == Storage.WriteMilestoneOffers(old(View()), id, ids)
    {
      milestoneOffers := milestoneOffers[id := ids];
    }

    // ---- escrow -------------------------------------------------------------------------------

    /** A transfer the host cannot make aborts the call. */
    method TransferTokens(from: Address, to: Address, amount: int) returns (r: Outcome<Error>)
      modifies this
      ensures events == old(events) && now == old(now) && milestones == old(milestones) && Valid() == old(Valid())
      ensures match Transfer(old(View()).balances, from, to, amount)
              case Ok(b) => r == Pass && View() == old(View()).(balances := b)
              case Err(e) => r == Fail(e) && View() == old(View())
    {
      if amount < 0 || Balance(balances, from) < amount { return Fail(HostTrap); }
      var debited := balances[from := Balance(balances, from) - amount];
      if Balance(debited, to) + amount > I128_MAX { return Fail(HostTrap); }
      balances := debited[to := Balance(debited, to) + amount];
      return Pass;
    }

    method Deposit(order: Order, x: Milestone, amount: I128) returns (r: Result<Milestone, Error>)
      modifies this
      ensures events == old(events) && now == old(now) && milestones == old(milestones) && Valid() == old(Valid())
      ensures match Escrow.Deposit(old(View()), order, x, amount)
              case Ok(p) => r == Ok(p.1) && View() == p.0
              case Err(e) => r == Err(e) && View() == old(View())
    {
      if amount <= 0 { return Err(InvalidAmount); }
      var total := x.funded + amount;
      if total > I128_MAX { return Err(ArithmeticOverflow); }
      if total > x.amount { return Err(Overfunded); }
      :- TransferTokens(order.buyer, self, amount);
      return Ok(x.(funded := total));
    }

    method Release(x: Milestone, to: Address, amount: I128) returns (r: Result<Milestone, Error>)
      modifies this
      ensures events == old(events) && now == old(now) && milestones == old(milestones) && Valid() == old(Valid())
      ensures match Escrow.Release(old(View()), x, to, amount)
              case Ok(p) => r == Ok(p.1) && View() == p.0
              case Err(e) => r == Err(e) && View() == old(View())
    {
      if amount <= 0 { return Err(InvalidAmount); }
      if amount > x.funded { return Err(InsufficientEscrow); }
      var remaining := x.funded - amount;
      :- TransferTokens(self, to, amount);
      return Ok(x.(funded := remaining));
    }

    // ---- orders -------------------------------------------------------------------------------

    method CreateOrder(auth: Auth, buyer: Address, supplier: Address, attestor: Address, resolver: Address)
      returns (r: Result<nat, Error>)
      requires Valid()
      modifies this
      ensures Valid() && Did(Core.CreateOrder(old(View()), auth, buyer, supplier, attestor, resolver), r, old(events),
              old(now))
    {
      hide Bundle, Stamp, View, Storage.NextId, Valid, Storage.WriteOrder;
      ViewFields();
      if buyer !in auth { return Err(HostTrap); }
      if buyer == supplier { return Err(InvalidParties); }
      if attestor == buyer || attestor == supplier { return Err(InvalidAttestor); }
      if resolver == buyer || resolver == supplier { return Err(InvalidResolver); }
      if attestor == resolver { return Err(AttestorResolverConflict); }
      var id :- NextOrderId();
      WriteOrder(Order(id, buyer, supplier, attestor, resolver, config.usdc, Created, now));
      Publish(OrderCreated(id, buyer, supplier, attestor, resolver, config.usdc));
      return Ok(id);
    }

    method CreateMilestone(auth: Auth, orderId: nat, amount: I128, deadline: Option<U64>) returns (r: Result<nat,
                           Error>)
      requires Valid()
      modifies this
      ensures Valid() && Did(Core.CreateMilestone(old(View()), auth, orderId, amount, deadline), r, old(events),
              old(now))
    {
      hide Bundle, Stamp, View, Storage.NextId, Storage.ReadOrder, Storage.ReadOrderMilestones, Valid;
      hide Storage.WriteMilestone, Storage.WriteOrderMilestones;
      ViewFields();
      var order :- ReadOrder(orderId);
      if order.buyer !in auth { return Err(HostTrap); }
      if order.status != Created { return Err(InvalidOrderStatus); }
      if amount <= 0 { return Err(InvalidAmount); }
      if deadline.Some? {
        if deadline.value <= now { return Err(InvalidDeadline); }
      }
      var ids := ReadOrderMilestones(orderId);
      if |ids| >= MAX_MILESTONES_PER_ORDER { return Err(MilestoneLimitReached); }
      var id :- NextMilestoneId();
      WriteMilestone(Milestone(id, orderId, |ids|, amount, 0, deadline, None, Unfunded, now));
      WriteOrderMilestones(orderId, ids + [id]);
      Publish(MilestoneCreated(orderId, id, |ids|, amount, deadline));
      return Ok(id);
    }

    method AcceptOrder(auth: Auth, orderId: nat) returns (r: Result<(), Error>)
      requires Valid()
      modifies this
      ensures Valid() && Did(Core.AcceptOrder(old(View()), auth, orderId), r, old(events), old(now))
    {
      hide Bundle, Stamp, View, Storage.ReadOrder, Storage.ReadOrderMilestones, Valid, Storage.WriteOrder;
      ViewFields();
      var order :- ReadOrder(orderId);
      if order.supplier !in auth { return Err(HostTrap); }
      if order.status != Created { return Err(InvalidOrderStatus); }
      var ids := ReadOrderMilestones(orderId);
      if ids == [] { return Err(OrderHasNoMilestones); }
      WriteOrder(order.(status := Active));
      Publish(OrderAccepted(orderId, order.supplier));
      return Ok(());
    }

    method CancelOrder(auth: Auth, orderId: nat) returns (r: Result<(), Error>)
      requires Valid()
      modifies this
      ensures Valid() && Did(Core.CancelOrder(old(View()), auth, orderId), r, old(events), old(now))
    {
      hide Bundle, Stamp, View, Storage.ReadOrder, Valid, Storage.WriteOrder;
      ViewFields();
      var order :- ReadOrder(orderId);
      if order.buyer !in auth { return Err(HostTrap); }
      if order.status != Created { return Err(InvalidOrderStatus); }
      WriteOrder(order.(status := Cancelled));
      Publish(OrderCancelled(orderId, order.buyer));
      return Ok(());
    }

    /** Walks the order's milestones and gives up at the first one that is missing or not terminal. */
    method CompleteOrderIfFinished(order: Order)
      modifies this
      ensures now == old(now) && milestones == old(milestones) && Valid() == old(Valid())
      ensures View() == Core.CompleteOrderIfFinished(old(View()), order).state
      ensures events == old(events) + Stamp(now, Core.CompleteOrderIfFinished(old(View()), order).events)
    {
      var ids := ReadOrderMilestones(order.id);
      if ids == [] { return; }
      var i := 0;
      while i < |ids|
        invariant 0 <= i <= |ids| && View() == old(View()) && events == old(events) && now == old(now)
        invariant milestones == old(milestones) && Valid() == old(Valid())
        invariant forall j | 0 <= j < i :: ids[j] in milestones && Terminal(milestones[ids[j]].status)
      {
        var x := ReadMilestone(ids[i]);
        if x.Err? || !(x.value.status == Settled || x.value.status == Refunded) { return; }
        i := i + 1;
      }
      assert Core.AllTerminal(View(), ids);
      WriteOrder(order.(status := Completed));
      Publish(OrderCompleted(order.id));
    }

    // ---- milestone escrow ---------------------------------------------------------------------

    method FundMilestone(auth: Auth, id: nat, amount: I128, asset: Address) returns (r: Result<I128, Error>)
      requires Valid()
      modifies this
      ensures Valid() && Did(Core.FundMilestone(old(View()), auth, id, amount, asset), r, old(events), old(now))
    {
      hide Bundle, Stamp, View, Storage.ReadMilestone, Storage.ReadOrder, Escrow.Deposit, Valid;
      hide Storage.WriteMilestone, Transfer;
      ViewFields();
      var x :- ReadMilestone(id);
      var order :- ReadOrder(x.orderId);
      if order.buyer !in auth { return Err(HostTrap); }
      if order.status != Active { return Err(InvalidOrderStatus); }
      if x.status != Unfunded { return Err(InvalidMilestoneStatus); }
      if asset != order.asset { return Err(InvalidAsset); }
      x :- Deposit(order, x, amount);
      var full := Escrow.IsFullyFunded(x);
      if full {
        x := x.(status := Funded);
      }
      WriteMilestone(x);
      Publish(MilestoneFunded(x.orderId, id, order.buyer, amount, x.funded, full));
      return Ok(x.funded);
    }

    method CancelPartialFunding(auth: Auth, id: nat) returns (r: Result<I128, Error>)
      requires Valid()
      modifies this
      ensures Valid() && Did(Core.CancelPartialFunding(old(View()), auth, id), r, old(events), old(now))
    {
      hide Bundle, Stamp, View, Storage.ReadMilestone, Storage.ReadOrder, Storage.FindRequest, Storage.FindAccepted;
      hide Storage.FindPosition, Storage.FindMilestoneDispute, Escrow.Release, Valid, Storage.WriteMilestone;
      hide Transfer;
      ViewFields();
      var x :- ReadMilestone(id);
      var order :- ReadOrder(x.orderId);
      if order.buyer !in auth { return Err(HostTrap); }
      if order.status != Active { return Err(InvalidOrderStatus); }
      if x.status != Unfunded { return Err(InvalidMilestoneStatus); }
      if x.funded <= 0 { return Err(NoPartialFunding); }
      if x.evidence.Some? { return Err(InvalidMilestoneStatus); }
      var request := FindFinanceRequest(id);
      if request.Some? {
        if request.value.status == RequestOpen || request.value.status == RequestAccepted {
          return Err(FinanceRequestActive);
        }
      }
      var accepted := FindAcceptedOffer(id);
      if accepted.Some? { return Err(OfferAlreadyAccepted); }
      var position := FindFinancePosition(id);
      if position.Some? { return Err(AlreadyFinanced); }
      var dispute := FindMilestoneDispute(id);
      if dispute.Some? {
        if dispute.value.status == DisputeOpen { return Err(DisputeAlreadyOpen); }
      }
      var amount := x.funded;
      x :- Release(x, order.buyer, amount);
      WriteMilestone(x);
      Publish(PartialFundingCancelled(x.orderId, id, order.buyer, amount));
      return Ok(amount);
    }

    // ---- financing ----------------------------------------------------------------------------

    method RequestFinance(auth: Auth, id: nat, principal: I128, expiresAt: U64) returns (r: Result<(), Error>)
      requires Valid()
      modifies this
      ensures Valid() && Did(Core.RequestFinance(old(View()), auth, id, principal, expiresAt), r, old(events), old(now))
    {
      hide Bundle, Stamp, View, Storage.ReadMilestone, Storage.ReadOrder, ValidateExpiry, Valid, Storage.WriteRequest;
      hide Storage.WriteMilestone, Storage.WriteMilestoneOffers;
      ViewFields();
      var x :- ReadMilestone(id);
      var order :- ReadOrder(x.orderId);
      if order.supplier !in auth { return Err(HostTrap); }
      if order.status != Active { return Err(InvalidOrderStatus); }
      if x.status == FinanceRequested {
        var existing :- ReadFinanceRequest(id);
        var stillLive := existing.status == RequestOpen && IsLive(now, existing.expiresAt);
        if stillLive || existing.status == RequestAccepted { return Err(FinanceRequestActive); }
      } else if x.status != Funded {
        return Err(InvalidMilestoneStatus);
      }
      if !Escrow.IsFullyFunded(x) { return Err(MilestoneNotFullyFunded); }
      if principal <= 0 { return Err(InvalidAmount); }
      if principal > x.funded { return Err(RepaymentExceedsEscrow); }
      :- ValidateExpiry(now, expiresAt, MAX_REQUEST_VALIDITY_SECONDS);
      x := x.(status := FinanceRequested);
      WriteFinanceRequest(FinanceRequest(id, order.supplier, principal, RequestOpen, expiresAt, now));
      WriteMilestone(x);
      WriteMilestoneOffers(id, []);
      Publish(FinanceRequestOpened(id, order.supplier, principal, x.funded, expiresAt));
      return Ok(());
    }

    method MakeOffer(auth: Auth, id: nat, funder: Address, principal: I128, repayment: I128, expiresAt: U64)
      returns (r: Result<nat, Error>)
      requires Valid()
      modifies this
      ensures Valid() && Did(Core.MakeOffer(old(View()), auth, id, funder, principal, repayment, expiresAt), r,
              old(events), old(now))
    {
      hide Bundle, Stamp, View, Storage.NextId, Storage.ReadMilestone, Storage.ReadOrder, Storage.ReadRequest;
      hide Storage.ReadMilestoneOffers, ValidateEconomics, ValidateExpiry, Valid, Storage.WriteMilestoneOffers;
      hide Storage.WriteOffer;
      ViewFields();
      if funder !in auth { return Err(HostTrap); }
      var x :- ReadMilestone(id);
      var order :- ReadOrder(x.orderId);
      var request :- ReadFinanceRequest(id);
      if order.status != Active { return Err(InvalidOrderStatus); }
      if x.status != FinanceRequested { return Err(InvalidMilestoneStatus); }
      if request.status != RequestOpen { return Err(InvalidFinanceRequestStatus); }
      if !IsLive(now, request.expiresAt) { return Err(FinanceRequestExpired); }
      if !Independent(order, funder) { return Err(InvalidFunder); }
      if principal != request.principal { return Err(PrincipalMismatch); }
      :- ValidateEconomics(x, principal, repayment);
      :- ValidateExpiry(now, expiresAt, MAX_OFFER_VALIDITY_SECONDS);
      var ids := ReadMilestoneOffers(id);
      if |ids| >= MAX_OFFERS_PER_MILESTONE { return Err(OfferLimitReached); }
      var offerId :- NextOfferId();
      WriteOffer(Offer(offerId, id, funder, principal, repayment, expiresAt, OfferOpen));
      WriteMilestoneOffers(id, ids + [offerId]);
      Publish(FundingOfferCreated(id, offerId, funder, principal, repayment, expiresAt));
      return Ok(offerId);
    }

    method CancelOffer(auth: Auth, offerId: nat) returns (r: Result<(), Error>)
      requires Valid()
      modifies this
      ensures Valid() && Did(Core.CancelOffer(old(View()), auth, offerId), r, old(events), old(now))
    {
      hide Bundle, Stamp, View, Storage.ReadOffer, Valid, Storage.WriteOffer;
      ViewFields();
      var offer :- ReadOffer(offerId);
      if offer.funder !in auth { return Err(HostTrap); }
      if offer.status != OfferOpen { return Err(InvalidOfferStatus); }
      WriteOffer(offer.(status := OfferCancelled));
      Publish(FundingOfferCancelled(offer.milestoneId, offerId, offer.funder));
      return Ok(());
    }

    method AcceptOffer(auth: Auth, offerId: nat) returns (r: Result<(), Error>)
      requires Valid()
      modifies this
      ensures Valid() && Did(Core.AcceptOffer(old(View()), auth, offerId), r, old(events), old(now))
    {
      hide Bundle, Stamp, View, Storage.ReadMilestone, Storage.ReadOrder, Storage.ReadRequest, Storage.FindAccepted;
      hide Storage.FindPosition, Storage.ReadOffer, ValidateEconomics, Valid, Storage.WriteAccepted;
      hide Storage.WriteRequest, Storage.WriteOffer;
      ViewFields();
      var offer :- ReadOffer(offerId);
      var id := offer.milestoneId;
      var x :- ReadMilestone(id);
      var order :- ReadOrder(x.orderId);
      var request :- ReadFinanceRequest(id);
      if order.supplier !in auth { return Err(HostTrap); }
      if order.status != Active { return Err(InvalidOrderStatus); }
      if x.status != FinanceRequested { return Err(InvalidMilestoneStatus); }
      if request.status != RequestOpen { return Err(InvalidFinanceRequestStatus); }
      if !IsLive(now, request.expiresAt) { return Err(FinanceRequestExpired); }
      if offer.status != OfferOpen { return Err(InvalidOfferStatus); }
      if !IsLive(now, offer.expiresAt) { return Err(OfferExpired); }
      var accepted := FindAcceptedOffer(id);
      if accepted.Some? { return Err(FinanceRequestActive); }
      var position := FindFinancePosition(id);
      if position.Some? { return Err(AlreadyFinanced); }
      :- ValidateEconomics(x, offer.principal, offer.repayment);
      offer := offer.(status := OfferAccepted);
      request := request.(status := RequestAccepted);
      WriteOffer(offer);
      WriteFinanceRequest(request);
      WriteAcceptedOffer(id, offer);
      Publish(FundingOfferAccepted(id, offerId, offer.funder, offer.principal, offer.repayment));
      return Ok(());
    }

    method FundAdvance(auth: Auth, id: nat) returns (r: Result<(), Error>)
      requires Valid()
      modifies this
      ensures Valid() && Did(Core.FundAdvance(old(View()), auth, id), r, old(events), old(now))
    {
      hide Bundle, View, Valid, Stamp, Transfer, ValidateEconomics, Storage.ReadMilestone, Storage.ReadOrder;
      hide Storage.ReadAccepted, Storage.FindPosition, Storage.WritePosition, Storage.WriteAccepted;
      hide Storage.WriteMilestone;
      ViewFields();
      var x :- ReadMilestone(id);
      var order :- ReadOrder(x.orderId);
      var accepted :- ReadAcceptedOffer(id);
      var existing := FindFinancePosition(id);
      if existing.Some? { return Err(AlreadyFinanced); }
      if accepted.status != OfferAccepted { return Err(InvalidOfferStatus); }
      if !IsLive(now, accepted.expiresAt) { return Err(OfferExpired); }
      if order.status != Active { return Err(InvalidOrderStatus); }
      if x.status != FinanceRequested { return Err(InvalidMilestoneStatus); }
      if accepted.funder !in auth { return Err(HostTrap); }
      if !Independent(order, accepted.funder) { return Err(InvalidFunder); }
      :- ValidateEconomics(x, accepted.principal, accepted.repayment);
      var before := x.funded;
      if accepted.principal <= 0 { return Err(InvalidAmount); }
      :- TransferTokens(accepted.funder, order.supplier, accepted.principal);
      var position := Position(id, accepted.id, accepted.funder, order.supplier, accepted.principal,
                               accepted.repayment, PositionActive, now);
      accepted := accepted.(status := OfferFunded);
      x := x.(status := Financed);
      if x.funded != before { return Err(EscrowMutated); }
      WriteFinancePosition(position);
      WriteAcceptedOffer(id, accepted);
      WriteMilestone(x);
      Publish(AdvanceFunded(id, accepted.id, accepted.funder, order.supplier, accepted.principal,
                            accepted.repayment, x.funded));
      return Ok(());
    }

    /** Retires the temporary entry of a lapsed selection, if it still exists. */
    method RetireOffer(offerId: nat)
      modifies this
      ensures events == old(events) && now == old(now) && milestones == old(milestones) && Valid() == old(Valid())
      ensures var entry := Storage.FindOffer(old(View()), offerId);
              View() == if entry.Some? then Storage.WriteOffer(old(View()), entry.value.(status := OfferCancelled))
                        else old(View())
    {
      hide Bundle, View, Storage.FindOffer, Storage.WriteOffer;
      var entry := FindOffer(offerId);
      if entry.Some? {
        WriteOffer(entry.value.(status := OfferCancelled));
      }
    }

    method ReleaseExpiredAcceptance(auth: Auth, id: nat) returns (r: Result<bool, Error>)
      requires Valid()
      modifies this
      ensures Valid() && Did(Core.ReleaseExpiredAcceptance(old(View()), auth, id), r, old(events), old(now))
    {
      hide Bundle, View, Valid, Stamp, Storage.ReadMilestone, Storage.ReadOrder, Storage.ReadAccepted;
      hide Storage.FindPosition, Storage.ReadRequest, Storage.FindOffer, Storage.WriteRequest, Storage.RemoveAccepted;
      hide Storage.WriteMilestone, Storage.WriteOffer;
      ViewFields();
      var x :- ReadMilestone(id);
      var order :- ReadOrder(x.orderId);
      if order.supplier !in auth { return Err(HostTrap); }
      var position := FindFinancePosition(id);
      if position.Some? { return Err(AlreadyFinanced); }
      var accepted :- ReadAcceptedOffer(id);
      if accepted.status != OfferAccepted { return Err(InvalidOfferStatus); }
      if IsLive(now, accepted.expiresAt) { return Err(OfferStillLive); }
      if order.status != Active { return Err(InvalidOrderStatus); }
      if x.status != FinanceRequested { return Err(InvalidMilestoneStatus); }
      var request :- ReadFinanceRequest(id);
      var reopened := IsLive(now, request.expiresAt);
      RemoveAcceptedOffer(id, accepted);
      RetireOffer(accepted.id);
      if reopened {
        request := request.(status := RequestOpen);
      } else {
        request := request.(status := RequestCancelled);
        WriteMilestone(x.(status := Funded));
      }
      WriteFinanceRequest(request);
      Publish(AcceptanceReleased(id, accepted.id, order.supplier, accepted.funder, reopened));
      return Ok(reopened);
    }

    method CancelFinanceRequest(auth: Auth, id: nat) returns (r: Result<bool, Error>)
      requires Valid()
      modifies this
      ensures Valid() && Did(Core.CancelFinanceRequest(old(View()), auth, id), r, old(events), old(now))
    {
      hide Bundle, View, Valid, Stamp, Storage.ReadMilestone, Storage.ReadOrder, Storage.FindAccepted;
      hide Storage.FindPosition, Storage.ReadRequest, Storage.WriteRequest, Storage.WriteMilestone;
      hide Storage.WriteMilestoneOffers;
      ViewFields();
      var x :- ReadMilestone(id);
      var order :- ReadOrder(x.orderId);
      if order.supplier !in auth { return Err(HostTrap); }
      if order.status != Active { return Err(InvalidOrderStatus); }
      if x.status != FinanceRequested { return Err(InvalidMilestoneStatus); }
      var position := FindFinancePosition(id);
      if position.Some? { return Err(AlreadyFinanced); }
      var accepted := FindAcceptedOffer(id);
      if accepted.Some? { return Err(OfferAlreadyAccepted); }
      var request :- ReadFinanceRequest(id);
      if request.status != RequestOpen { return Err(InvalidFinanceRequestStatus); }
      var wasExpired := !IsLive(now, request.expiresAt);
      WriteFinanceRequest(request.(status := RequestCancelled));
      WriteMilestone(x.(status := Funded));
      WriteMilestoneOffers(id, []);
      Publish(FinanceRequestClosed(id, order.supplier, wasExpired));
      return Ok(wasExpired);
    }

    // ---- evidence, settlement, dispute --------------------------------------------------------

    method SubmitEvidence(auth: Auth, id: nat, evidence: Digest) returns (r: Result<(), Error>)
      requires Valid()
      modifies this
      ensures Valid() && Did(Core.SubmitEvidence(old(View()), auth, id, evidence), r, old(events), old(now))
    {
      hide Bundle, View, Valid, Stamp, Storage.ReadMilestone, Storage.ReadOrder, Storage.WriteMilestone;
      var x :- ReadMilestone(id);
      var order :- ReadOrder(x.orderId);
      if order.supplier !in auth { return Err(HostTrap); }
      if order.status != Active { return Err(InvalidOrderStatus); }
      if x.status != Funded && x.status != Financed && x.status != Submitted { return Err(InvalidMilestoneStatus); }
      if evidence == 0 { return Err(InvalidEvidence); }
      var replaced := x.evidence.Some?;
      x := x.(evidence := Some(evidence), status := Submitted);
      WriteMilestone(x);
      Publish(EvidenceSubmitted(id, order.supplier, evidence, replaced));
      return Ok(());
    }

    method AttestMilestone(auth: Auth, id: nat, evidence: Digest) returns (r: Result<(), Error>)
      requires Valid()
      modifies this
      ensures Valid() && Did(Core.AttestMilestone(old(View()), auth, id, evidence), r, old(events), old(now))
    {
      hide Bundle, View, Valid, Stamp, Storage.ReadMilestone, Storage.ReadOrder, Storage.WriteMilestone;
      var x :- ReadMilestone(id);
      var order :- ReadOrder(x.orderId);
      if order.attestor !in auth { return Err(HostTrap); }
      if order.status != Active { return Err(InvalidOrderStatus); }
      if x.status != Submitted { return Err(InvalidMilestoneStatus); }
      if x.evidence.None? { return Err(EvidenceNotFound); }
      if x.evidence.value != evidence { return Err(EvidenceMismatch); }
      WriteMilestone(x.(status := Verified));
      Publish(MilestoneVerified(id, order.attestor, evidence));
      return Ok(());
    }

    /** The funder is made whole first. */
    method PayOut(order: Order, x: Milestone, position: Option<Position>, w: Waterfall) returns (r: Result<Milestone,
                  Error>)
      modifies this
      ensures events == old(events) && now == old(now) && milestones == old(milestones) && Valid() == old(Valid())
      ensures match Core.PayOut(old(View()), order, x, position, w)
              case Ok(p) => r == Ok(p.1) && View() == p.0
              case Err(e) => r == Err(e)
    {
      hide Bundle, View, Escrow.Release;
      var left := x;
      if w.funderRepayment > 0 {
        if position.None? { return Err(FinancePositionNotFound); }
        left :- Release(left, position.value.funder, w.funderRepayment);
      }
      if w.supplierPayout > 0 {
        left :- Release(left, order.supplier, w.supplierPayout);
      }
      return Ok(left);
    }

    method SettleMilestone(auth: Auth, id: nat, caller: Address) returns (r: Result<(), Error>)
      requires Valid()
      modifies this
      ensures Valid() && Did(Core.SettleMilestone(old(View()), auth, id, caller), r, old(events), old(now))
    {
      hide Bundle, View, Valid, Stamp, Compute, Core.PayOut, Core.CompleteOrderIfFinished, Storage.ReadMilestone;
      hide Storage.ReadOrder, Storage.FindPosition, Storage.WritePosition, Storage.WriteMilestone;
      if caller !in auth { return Err(HostTrap); }
      var x :- ReadMilestone(id);
      var order :- ReadOrder(x.orderId);
      if order.status != Active { return Err(InvalidOrderStatus); }
      if x.status != Verified { return Err(InvalidMilestoneStatus); }
      var position := FindFinancePosition(id);
      if !Core.IsBeneficiary(order, position, caller) { return Err(Unauthorized); }
      var w :- Compute(x, position);
      var total :- w.Total();
      x :- PayOut(order, x, position, w);
      if position.Some? && position.value.status == PositionActive {
        WriteFinancePosition(position.value.(status := PositionRepaid));
      }
      x := x.(status := Settled);
      WriteMilestone(x);
      var paid := MilestoneSettled(x.orderId, id, total, w.funderRepayment, w.supplierPayout);
      Publish(paid);
      StampConcat(now, [paid], Core.CompleteOrderIfFinished(View(), order).events);
      CompleteOrderIfFinished(order);
      return Ok(());
    }

    method OpenDispute(auth: Auth, id: nat, caller: Address) returns (r: Result<nat, Error>)
      requires Valid()
      modifies this
      ensures Valid() && Did(Core.OpenDispute(old(View()), auth, id, caller), r, old(events), old(now))
    {
      hide Bundle, View, Valid, Stamp, Storage.NextId, Storage.ReadMilestone, Storage.ReadOrder;
      hide Storage.FindMilestoneDispute, Storage.WriteDispute, Storage.WriteMilestone;
      ViewFields();
      if caller !in auth { return Err(HostTrap); }
      var x :- ReadMilestone(id);
      var order :- ReadOrder(x.orderId);
      if order.status != Active { return Err(InvalidOrderStatus); }
      if caller != order.buyer && caller != order.supplier { return Err(Unauthorized); }
      if x.status != Funded && x.status != Financed && x.status != Submitted { return Err(InvalidMilestoneStatus); }
      var existing := FindMilestoneDispute(id);
      if existing.Some? {
        if existing.value.status == DisputeOpen { return Err(DisputeAlreadyOpen); }
      }
      var disputeId :- NextDisputeId();
      WriteDispute(Dispute(disputeId, id, caller, order.resolver, DisputeOpen, now));
      WriteMilestone(x.(status := Disputed));
      Publish(DisputeOpened(id, disputeId, caller, order.resolver));
      return Ok(disputeId);
    }

    /** Closes a live position, then hands the buyer what the milestone still holds. */
    method RefundEscrow(order: Order, id: nat, x: Milestone) returns (r: Result<(Milestone, I128), Error>)
      requires Valid()
      modifies this
      ensures events == old(events) && now == old(now) && milestones == old(milestones)
      ensures Valid()
      ensures match Core.RefundEscrow(old(View()), id, order, x)
              case Ok(p) => r == Ok((p.1, p.2)) && View() == p.0
              case Err(e) => r == Err(e)
    {
      hide Bundle, View, Valid, Storage.FindPosition, Storage.WritePosition, Escrow.Release;
      var outstanding: I128 := 0;
      var position := FindFinancePosition(id);
      if position.Some? && position.value.status == PositionActive {
        outstanding := position.value.principal;
        WriteFinancePosition(position.value.(status := PositionClosed));
      }
      var left :- Release(x, order.buyer, x.funded);
      return Ok((left, outstanding));
    }

    /** The refunding half of a resolution. */
    method RefundMilestone(order: Order, id: nat, x: Milestone, dispute: Dispute) returns (r: Result<(), Error>)
      requires Valid() && dispute.milestoneId in milestones
      modifies this
      ensures Valid() && now == old(now)
      ensures match Core.RefundEscrow(old(View()), id, order, x)
              case Err(e) => r == Err(e)
              case Ok(p) =>
                var u := Storage.WriteDispute(Storage.WriteMilestone(p.0, p.1.(status := Refunded)), dispute);
                var done := Core.CompleteOrderIfFinished(u, order);
                && r == Ok(()) && View() == done.state
                && events == old(events)
                             + Stamp(now, [MilestoneRefunded(p.1.orderId, id, order.buyer, x.funded, p.2),
                                           DisputeResolved(id, dispute.id, order.resolver, false)] + done.events)
    {
      hide Bundle, View, Valid, Stamp, Core.RefundEscrow, Core.CompleteOrderIfFinished, Storage.WriteDispute;
      hide Storage.WriteMilestone;
      var refund :- RefundEscrow(order, id, x);
      var left := refund.0.(status := Refunded);
      WriteMilestone(left);
      var refunded := MilestoneRefunded(left.orderId, id, order.buyer, x.funded, refund.1);
      var resolved := DisputeResolved(id, dispute.id, order.resolver, false);
      Publish(refunded);
      WriteDispute(dispute);
      Publish(resolved);
      StampThree(now, refunded, resolved, Core.CompleteOrderIfFinished(View(), order).events);
      CompleteOrderIfFinished(order);
      return Ok(());
    }

    method ResolveDispute(auth: Auth, id: nat, resolution: Resolution) returns (r: Result<(), Error>)
      requires Valid()
      modifies this
      ensures Valid() && Did(Core.ResolveDispute(old(View()), auth, id, resolution), r, old(events), old(now))
    {
      hide Bundle, View, Valid, Stamp, Core.RefundEscrow, Core.CompleteOrderIfFinished, Storage.ReadMilestone;
      hide Storage.ReadOrder, Storage.ReadMilestoneDispute, Storage.WriteDispute, Storage.WriteMilestone;
      var x :- ReadMilestone(id);
      var order :- ReadOrder(x.orderId);
      var dispute :- ReadMilestoneDispute(id);
      if order.resolver !in auth { return Err(HostTrap); }
      if order.status != Active { return Err(InvalidOrderStatus); }
      if x.status != Disputed { return Err(InvalidMilestoneStatus); }
      if dispute.status != DisputeOpen { return Err(InvalidDisputeStatus); }
      if resolution == Settle {
        WriteMilestone(x.(status := Verified));
        WriteDispute(dispute.(status := ResolvedSettle));
        Publish(DisputeResolved(id, dispute.id, order.resolver, true));
        return Ok(());
      }
      if x.funded <= 0 { return Err(NothingToSettle); }
      r := RefundMilestone(order, id, x, dispute.(status := ResolvedRefund));
    }

    // ---- reads --------------------------------------------------------------------------------

    /** Resolves the milestone's index and skips every entry that is missing, not open, or past its expiry. */
    method GetOpenOffers(id: nat) returns (open: seq<Offer>)
      ensures open == OpenAmong(offers, now, ReadIndex(milestoneOffers, id))
    {
      var ids := ReadMilestoneOffers(id);
      open := [];
      var i := 0;
      while i < |ids|
        invariant 0 <= i <= |ids| && open == OpenAmong(offers, now, ids[..i])
      {
        var offer := FindOffer(ids[i]);
        if offer.Some? {
          if offer.value.status == OfferOpen && IsLive(now, offer.value.expiresAt) {
            open := open + [offer.value];
          }
        }
        assert ids[..i + 1] == ids[..i] + [ids[i]];
        i := i + 1;
      }
      assert ids[..i] == ids;
    }

    // ---- invocations and what happens around them ---------------------------------------------

    method Dispatch(auth: Auth, call: Core.Call) returns (r: Result<(), Error>)
      requires Valid()
      modifies this
      ensures Valid() && Did(Core.Execute(old(View()), auth, call), r, old(events), old(now))
    {
      hide Bundle, View, Valid, Stamp, Core.CreateOrder, Core.CreateMilestone, Core.AcceptOrder, Core.CancelOrder;
      hide Core.FundMilestone, Core.CancelPartialFunding, Core.RequestFinance, Core.MakeOffer, Core.CancelOffer;
      hide Core.AcceptOffer, Core.FundAdvance, Core.ReleaseExpiredAcceptance, Core.CancelFinanceRequest;
      hide Core.SubmitEvidence, Core.AttestMilestone, Core.SettleMilestone, Core.OpenDispute, Core.ResolveDispute;
      match call {
        case CallCreateOrder(buyer, supplier, attestor, resolver) =>
          var _ :- CreateOrder(auth, buyer, supplier, attestor, resolver);
        case CallCreateMilestone(orderId, amount, deadline) =>
          var _ :- CreateMilestone(auth, orderId, amount, deadline);
        case CallAcceptOrder(orderId) => var _ :- AcceptOrder(auth, orderId);
        case CallCancelOrder(orderId) => var _ :- CancelOrder(auth, orderId);
        case CallFundMilestone(id, amount, asset) => var _ :- FundMilestone(auth, id, amount, asset);
        case CallCancelPartialFunding(id) => var _ :- CancelPartialFunding(auth, id);
        case CallRequestFinance(id, principal, expiresAt) => var _ :- RequestFinance(auth, id, principal, expiresAt);
        case CallMakeOffer(id, funder, principal, repayment, expiresAt) =>
          var _ :- MakeOffer(auth, id, funder, principal, repayment, expiresAt);
        case CallCancelOffer(offerId) => var _ :- CancelOffer(auth, offerId);
        case CallAcceptOffer(offerId) => var _ :- AcceptOffer(auth, offerId);
        case CallFundAdvance(id) => var _ :- FundAdvance(auth, id);
        case CallReleaseExpiredAcceptance(id) => var _ :- ReleaseExpiredAcceptance(auth, id);
        case CallCancelFinanceRequest(id) => var _ :- CancelFinanceRequest(auth, id);
        case CallSubmitEvidence(id, evidence) => var _ :- SubmitEvidence(auth, id, evidence);
        case CallAttestMilestone(id, evidence) => var _ :- AttestMilestone(auth, id, evidence);
        case CallSettleMilestone(id, caller) => var _ :- SettleMilestone(auth, id, caller);
        case CallOpenDispute(id, caller) => var _ :- OpenDispute(auth, id, caller);
        case CallResolveDispute(id, resolution) => var _ :- ResolveDispute(auth, id, resolution);
      }
      return Ok(());
    }

    method RevertMilestones(saved: Snapshot)
      modifies this`milestones, this`financeRequests, this`acceptedOffers, this`financePositions
      modifies this`disputes, this`milestoneDisputes
      ensures milestones == saved.milestones && financeRequests == saved.financeRequests
      ensures acceptedOffers == saved.acceptedOffers && financePositions == saved.financePositions
      ensures disputes == saved.disputes && milestoneDisputes == saved.milestoneDisputes
    {
      milestones := saved.milestones;
      financeRequests := saved.financeRequests;
      acceptedOffers := saved.acceptedOffers;
      financePositions := saved.financePositions;
      disputes := saved.disputes;
      milestoneDisputes := saved.milestoneDisputes;
    }

    method RevertOrders(saved: Snapshot)
      modifies this`orders, this`orderMilestones, this`offers, this`milestoneOffers, this`balances, this`events
      ensures orders == saved.orders && orderMilestones == saved.orderMilestones
      ensures offers == saved.offers && milestoneOffers == saved.milestoneOffers
      ensures balances == saved.balances && events == saved.events
    {
      orders := saved.orders;
      orderMilestones := saved.orderMilestones;
      offers := saved.offers;
      milestoneOffers := saved.milestoneOffers;
      balances := saved.balances;
      events := saved.events;
    }

    method RevertCounters(saved: Snapshot, ghost savedHistory: map<nat, Offer>, ghost savedDonated: int)
      modifies this`now, this`orderCounter, this`milestoneCounter, this`offerCounter, this`disputeCounter
      modifies this`history, this`donated
      ensures now == saved.now && orderCounter == saved.orderCounter && milestoneCounter == saved.milestoneCounter
      ensures offerCounter == saved.offerCounter && disputeCounter == saved.disputeCounter
      ensures history == savedHistory && donated == savedDonated
    {
      now := saved.now;
      orderCounter := saved.orderCounter;
      milestoneCounter := saved.milestoneCounter;
      offerCounter := saved.offerCounter;
      disputeCounter := saved.disputeCounter;
      history, donated := savedHistory, savedDonated;
    }

    /** The host reverts everything a failed call wrote before it failed. */
    method Invoke(auth: Auth, call: Core.Call) returns (r: Result<(), Error>)
      requires Valid()
      modifies this
      ensures Valid()
      ensures match Core.Execute(old(View()), auth, call)
              case Ok(d) => r == Ok(d.value) && View() == d.state && events == old(events) + Stamp(old(now), d.events)
              case Err(e) => r == Err(e) && View() == old(View()) && events == old(events)
    {
      hide Core.Execute, Stamp, Bundle, Keyed;
      var saved := Snapshot(now, orderCounter, milestoneCounter, offerCounter, disputeCounter, orders, orderMilestones,
                            milestones, financeRequests, acceptedOffers, financePositions, disputes,
                            milestoneDisputes, offers, milestoneOffers, balances, events);
      ghost var savedHistory, savedDonated := history, donated;
      r := Dispatch(auth, call);
      if r.Err? {
        RevertMilestones(saved);
        RevertOrders(saved);
        RevertCounters(saved, savedHistory, savedDonated);
      }
    }

    /** Time moves on, temporary entries lapse, others transfer tokens. */
    method Happen(a: Action)
      requires Valid() && !a.Invoke?
      modifies this
      ensures Valid() && events == old(events)
      ensures View() == Step(old(View()), a).0 && Step(old(View()), a).1 == []
    {
      hide Bundle, Keyed, Transfer;
      match a {
        case CloseLedger(time) =>
          now := time;
        case ExpireTemporary(lapsed, indexes) =>
          offers, milestoneOffers := offers - lapsed, milestoneOffers - indexes;
        case DirectTransfer(from, to, amount) =>
          var moved := TransferTokens(from, to, amount);
          if moved.Pass? && to == self {
            donated := donated + amount;
          }
      }
    }

    /** One step of a run. Whatever is legal keeps the joint invariant. */
    method Act(a: Action)
      requires Valid()
      modifies this
      ensures Valid()
      ensures View() == Step(old(View()), a).0 && events == old(events) + Step(old(View()), a).1
      ensures old(Inv(View())) && old(Legal(View(), a)) ==> Inv(View())
    {
      hide Core.Execute, Inv, Valid, Transfer, Stamp, Legal, View;
      ViewFields();
      if Inv(View()) && Legal(View(), a) {
        StepKeepsInv(View(), a);
      }
      if a.Invoke? {
        var _ := Invoke(a.auth, a.call);
      } else {
        Happen(a);
      }
    }
  }
}
