/** What the contract keeps between calls, as one value, with the keyed reads and writes over it. */
module Storage {
  import opened Wrappers
  import opened Types
  import opened Token

  /** Everything persistent that is keyed by one milestone id. */
  datatype Slot = Slot(
    milestone: Milestone, request: Option<FinanceRequest>, accepted: Option<Offer>,
    position: Option<Position>, dispute: Option<nat>)

  /** `offers` and `offerIndex` are temporary entries and may vanish at any time. `history` is an
      auxiliary record of every offer ever made, under its latest status; no call reads it.
      `donated` is auxiliary too: tokens sent to the contract outside of any call. */
  datatype State = State(
    self: Address, config: Config, now: U64,
    orderCount: U64, milestoneCount: U64, offerCount: U64, disputeCount: U64,
    orders: map<nat, Order>, lists: map<nat, seq<nat>>, slots: map<nat, Slot>,
    disputes: map<nat, Dispute>,
    offers: map<nat, Offer>, offerIndex: map<nat, seq<nat>>, history: map<nat, Offer>,
    balances: Balances, donated: int)

  function ReadOrder(s: State, id: nat): Result<Order, Error> {
    if id in s.orders then Ok(s.orders[id]) else Err(OrderNotFound)
  }

  function ReadMilestone(s: State, id: nat): Result<Milestone, Error> {
    if id in s.slots then Ok(s.slots[id].milestone) else Err(MilestoneNotFound)
  }

  function ReadOrderMilestones(s: State, id: nat): seq<nat> {
    if id in s.lists then s.lists[id] else []
  }

  function FindRequest(s: State, id: nat): Option<FinanceRequest> {
    if id in s.slots then s.slots[id].request else None
  }

  function ReadRequest(s: State, id: nat): Result<FinanceRequest, Error> {
    match FindRequest(s, id)
    case Some(request) => Ok(request)
    case None => Err(FinanceRequestNotFound)
  }

  function FindAccepted(s: State, id: nat): Option<Offer> {
    if id in s.slots then s.slots[id].accepted else None
  }

  function ReadAccepted(s: State, id: nat): Result<Offer, Error> {
    match FindAccepted(s, id)
    case Some(offer) => Ok(offer)
    case None => Err(NoAcceptedOffer)
  }

  function FindPosition(s: State, id: nat): Option<Position> {
    if id in s.slots then s.slots[id].position else None
  }

  /** Follows the milestone's link to its dispute record. */
  function FindMilestoneDispute(s: State, id: nat): Option<Dispute> {
    if id in s.slots && s.slots[id].dispute.Some? then Get(s.disputes, s.slots[id].dispute.value) else None
  }

  function ReadMilestoneDispute(s: State, id: nat): Result<Dispute, Error> {
    match FindMilestoneDispute(s, id)
    case Some(dispute) => Ok(dispute)
    case None => Err(DisputeNotFound)
  }

  function FindOffer(s: State, id: nat): Option<Offer> {
    Get(s.offers, id)
  }

  function ReadOffer(s: State, id: nat): Result<Offer, Error> {
    if id in s.offers then Ok(s.offers[id]) else Err(OfferNotFound)
  }

  function ReadMilestoneOffers(s: State, id: nat): seq<nat> {
    if id in s.offerIndex then s.offerIndex[id] else []
  }

  /** Counters start at 1 and trap on overflow, as the release profile checks it. */
  function NextId(count: U64): Result<U64, Error> {
    if count == U64_MAX then Err(HostTrap) else Ok(count + 1)
  }

  function WriteOrder(s: State, order: Order): State {
    s.(orders := s.orders[order.id := order])
  }

  function WriteOrderMilestones(s: State, id: nat, ids: seq<nat>): State {
    s.(lists := s.lists[id := ids])
  }

  /** The slot written by a record that names its milestone; every call has read that milestone before. */
  function SlotAt(s: State, id: nat): Slot {
    if id in s.slots then s.slots[id]
    else Slot(Milestone(id, 0, 0, 0, 0, None, None, Unfunded, 0), None, None, None, None)
  }

  function WriteMilestone(s: State, x: Milestone): State {
    s.(slots := s.slots[x.id := SlotAt(s, x.id).(milestone := x)])
  }

  function WriteRequest(s: State, r: FinanceRequest): State {
    s.(slots := s.slots[r.milestoneId := SlotAt(s, r.milestoneId).(request := Some(r))])
  }

  function WriteAccepted(s: State, id: nat, offer: Offer): State {
    s.(slots := s.slots[id := SlotAt(s, id).(accepted := Some(offer))],
       history := s.history[offer.id := offer])
  }

  /** The history remembers a lapsed selection as cancelled, whether or not its temporary entry survives. */
  function RemoveAccepted(s: State, id: nat, offer: Offer): State {
    s.(slots := s.slots[id := SlotAt(s, id).(accepted := None)],
       history := s.history[offer.id := offer.(status := OfferCancelled)])
  }

  function WritePosition(s: State, p: Position): State {
    s.(slots := s.slots[p.milestoneId := SlotAt(s, p.milestoneId).(position := Some(p))])
  }

  /** Writes the record and the milestone's link to it. */
  function WriteDispute(s: State, d: Dispute): State {
    s.(disputes := s.disputes[d.id := d],
       slots := s.slots[d.milestoneId := SlotAt(s, d.milestoneId).(dispute := Some(d.id))])
  }

  function WriteOffer(s: State, offer: Offer): State {
    s.(offers := s.offers[offer.id := offer], history := s.history[offer.id := offer])
  }

  function WriteMilestoneOffers(s: State, id: nat, ids: seq<nat>): State {
    s.(offerIndex := s.offerIndex[id := ids])
  }
}

/** Escrow accounting: every token movement is paired with the change to the milestone's escrow. */
module Escrow {
  import opened Wrappers
  import opened Types
  import opened Token
  import opened Storage

  function Deposit(s: State, order: Order, x: Milestone, amount: I128): Result<(State, Milestone), Error> {
    var total := x.funded + amount;
    :- Need(amount > 0, InvalidAmount);
    :- Need(total <= I128_MAX, ArithmeticOverflow);
    :- Need(total <= x.amount, Overfunded);
    var balances :- Transfer(s.balances, order.buyer, s.self, amount);
    Ok((s.(balances := balances), x.(funded := total)))
  }

  function Release(s: State, x: Milestone, to: Address, amount: I128): Result<(State, Milestone), Error> {
    var remaining := x.funded - amount;
    :- Need(amount > 0, InvalidAmount);
    :- Need(amount <= x.funded, InsufficientEscrow);
    var balances :- Transfer(s.balances, s.self, to, amount);
    Ok((s.(balances := balances), x.(funded := remaining)))
  }

  predicate IsFullyFunded(x: Milestone) {
    x.funded == x.amount
  }
}

/** Checks on a finance request or an offer. */
module Financing {
  import opened Wrappers
  import opened Types

  function ValidateEconomics(x: Milestone, principal: I128, repayment: I128): Outcome<Error> {
    if principal <= 0 then Fail(InvalidAmount)
    else if repayment < principal then Fail(InvalidRepayment)
    else if repayment > x.funded then Fail(RepaymentExceedsEscrow)
    else Pass
  }

  predicate Independent(order: Order, funder: Address) {
    funder != order.buyer && funder != order.supplier && funder != order.attestor && funder != order.resolver
  }

  predicate IsLive(now: U64, expiresAt: U64) {
    now < expiresAt
  }

  function ValidateExpiry(now: U64, expiresAt: U64, window: U64): Outcome<Error> {
    if expiresAt <= now then Fail(InvalidExpiry)
    else if now + window > U64_MAX then Fail(HostTrap)
    else if expiresAt > now + window then Fail(InvalidExpiry)
    else Pass
  }
}

/** The two legs a settlement pays out of what a milestone holds. */
module Settlement {
  import opened Wrappers
  import opened Types

  datatype Waterfall = Waterfall(funderRepayment: I128, supplierPayout: I128) {
    function Total(): Result<I128, Error> {
      var sum := funderRepayment + supplierPayout;
      if -I128_MAX - 1 <= sum <= I128_MAX then Ok(sum) else Err(ArithmeticOverflow)
    }
  }

  function Compute(x: Milestone, position: Option<Position>): Result<Waterfall, Error> {
    if x.funded <= 0 then Err(NothingToSettle)
    else if position.Some? && position.value.status == PositionActive then
      if position.value.repayment > x.funded then Err(RepaymentExceedsEscrow)
      else if x.funded - position.value.repayment > I128_MAX then Err(ArithmeticOverflow)
      else Ok(Waterfall(position.value.repayment, x.funded - position.value.repayment))
    else Ok(Waterfall(0, x.funded))
  }

  /** The legs exhaust the escrow, never exceed it, and put an active funder first. It fails exactly
      when there is nothing to pay or the repayment does not fit. */
  lemma ComputeSplitsEscrow(x: Milestone, position: Option<Position>)
    requires position.Some? ==> position.value.repayment >= 0
    ensures Compute(x, position).Ok? <==>
            x.funded > 0 &&
            (position.Some? && position.value.status == PositionActive ==> position.value.repayment <= x.funded)
    ensures Compute(x, position).Ok? ==>
            var w := Compute(x, position).value;
            && w.Total() == Ok(x.funded)
            && 0 <= w.funderRepayment && 0 <= w.supplierPayout
            && (position.Some? && position.value.status == PositionActive ==>
                  w.funderRepayment == position.value.repayment)
            && (w.funderRepayment > 0 ==> position.Some?)
  {
  }
}
