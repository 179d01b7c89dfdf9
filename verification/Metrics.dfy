/** Public metrics and daily counters agree with each other and with the contract's run. */
module Metrics {
  import opened Wrappers
  import opened Types
  import opened Sums
  import opened Storage
  import opened Core
  import opened Runs
  import opened Lifecycle
  import opened Invariant
  import opened Effects
  import opened OrderPreservation
  import opened Totals
  import opened Guarantees
  import opened Projector
  import opened Coupling
  import opened RowReplay
  import opened Replay
  import opened Figures
  import opened Midway
  import opened Skipped
  import Indexer

  // ---- what ingestion adds up to ----------------------------------------------------------------

  /** The counters an activity chart shows. */
  datatype Counter =
    | OrdersCreated | MilestonesFunded | AdvancesFunded | MilestonesSettled | MilestonesRefunded | DisputesOpened

  function Part(k: Counter, c: Indexer.Counts): int {
    match k
    case OrdersCreated => c.orders
    case MilestonesFunded => c.funded
    case AdvancesFunded => c.advances
    case MilestonesSettled => c.settled
    case MilestonesRefunded => c.refunded
    case DisputesOpened => c.disputes
  }

  function PartFor(k: Counter): Indexer.Counts -> int {
    (c: Indexer.Counts) => Part(k, c)
  }

  /** A counter summed over all days. */
  ghost function DailyTotal(k: Counter, daily: map<nat, Indexer.Counts>): int {
    SumBy(daily, PartFor(k))
  }

  /** The events a counter stands for. */
  predicate CountedBy(k: Counter, e: Event) {
    match k
    case OrdersCreated => e.OrderCreated?
    case MilestonesFunded => e.MilestoneFunded? && e.fullyFunded
    case AdvancesFunded => e.AdvanceFunded?
    case MilestonesSettled => e.MilestoneSettled?
    case MilestonesRefunded => e.MilestoneRefunded?
    case DisputesOpened => e.DisputeOpened?
  }

  function Hit(k: Counter, d: Delivered): int {
    Flag(Applies(d) && CountedBy(k, d.body.value))
  }

  /** How many delivered events count towards a counter. */
  function Activity(k: Counter, ds: seq<Delivered>): int {
    if ds == [] then 0 else Hit(k, ds[0]) + Activity(k, ds[1..])
  }

  lemma CountsAreHits(k: Counter, d: Delivered)
    ensures Part(k, Indexer.CountsOf(d, Applies(d))) == Hit(k, d)
  {
  }

  lemma {:induction false} ActivitySkips(k: Counter, ds: seq<Delivered>)
    ensures Activity(k, ds) == Activity(k, Applied(ds))
  {
    if ds != [] {
      ActivitySkips(k, ds[1..]);
      if Applies(ds[0]) {
        assert Applied(ds)[0] == ds[0] && Applied(ds)[1..] == Applied(ds[1..]);
      } else {
        assert Applied(ds) == Applied(ds[1..]);
      }
    }
  }

  lemma DailyGrows(k: Counter, daily: map<nat, Indexer.Counts>, day: nat, counts: Indexer.Counts)
    ensures DailyTotal(k, Indexer.AddDaily(daily, day, counts)) == DailyTotal(k, daily) + Part(k, counts)
  {
    if counts != Indexer.NO_COUNTS {
      var sum := (if day in daily then daily[day] else Indexer.NO_COUNTS).Plus(counts);
      SumUpdate(daily, PartFor(k), day, sum);
      assert Part(k, sum) == Part(k, if day in daily then daily[day] else Indexer.NO_COUNTS) + Part(k, counts);
    }
  }

  /** Ingesting new events is folding the projections over them, and counting each once on its day. */
  lemma {:induction false} IngestIsFold(x: Indexer.Derived, contract: Address, ds: seq<Delivered>, k: Counter)
    requires Indexer.Increasing(ds) && forall i | 0 <= i < |ds| :: ds[i].id !in x.stored
    requires Indexer.IngestAll(x, contract, ds).Ok?
    ensures var y := Indexer.IngestAll(x, contract, ds).value.0;
            && Fold(x.rows, ds) == Ok(y.rows)
            && (FlagsTell(x.rows, ds) ==> DailyTotal(k, y.daily) == DailyTotal(k, x.daily) + Activity(k, ds))
    decreases |ds|
  {
    hide Project, DailyTotal, Part, Hit, Applies;
    if ds != [] {
      var first := Indexer.Ingest(x, contract, ds[0]).value;
      forall i | 0 <= i < |ds[1..]| ensures ds[1..][i] == ds[i + 1] {
      }
      IngestIsFold(first.0, contract, ds[1..], k);
      DailyGrows(k, x.daily, Indexer.Day(ds[0].at), Indexer.CountsOf(ds[0], Project(x.rows, ds[0]).value.1));
      CountsAreHits(k, ds[0]);
    }
  }

  function DayCounts(daily: map<nat, Indexer.Counts>, day: nat): Indexer.Counts {
    if day in daily then daily[day] else Indexer.NO_COUNTS
  }

  /** Whether a time falls on a day, counted from the epoch. */
  predicate FallsOn(at: U64, day: nat) {
    day * 24 * 60 * 60 <= at < (day + 1) * 24 * 60 * 60
  }

  lemma DayIsExact(at: U64, day: nat)
    ensures Indexer.Day(at) == day <==> FallsOn(at, day)
  {
  }

  /** How many of the events delivered with the timestamp of one day count towards a counter. */
  function ActivityOn(k: Counter, day: nat, ds: seq<Delivered>): int {
    if ds == [] then 0
    else (if FallsOn(ds[0].at, day) then Hit(k, ds[0]) else 0) + ActivityOn(k, day, ds[1..])
  }

  lemma DayGrows(k: Counter, daily: map<nat, Indexer.Counts>, day: nat, counts: Indexer.Counts, other: nat)
    ensures Part(k, DayCounts(Indexer.AddDaily(daily, day, counts), other)) ==
            Part(k, DayCounts(daily, other)) + if other == day then Part(k, counts) else 0
  {
  }

  /** Every day's counters count exactly that day's events. */
  lemma {:induction false} IngestCountsDays(x: Indexer.Derived, contract: Address, ds: seq<Delivered>, k: Counter,
                                            day: nat)
    requires Indexer.Increasing(ds) && forall i | 0 <= i < |ds| :: ds[i].id !in x.stored
    requires Indexer.IngestAll(x, contract, ds).Ok? && FlagsTell(x.rows, ds)
    ensures Part(k, DayCounts(Indexer.IngestAll(x, contract, ds).value.0.daily, day)) ==
            Part(k, DayCounts(x.daily, day)) + ActivityOn(k, day, ds)
    decreases |ds|
  {
    hide Project, DayCounts, Part, Hit, Applies, FallsOn, Indexer.Day;
    if ds != [] {
      var first := Indexer.Ingest(x, contract, ds[0]).value;
      forall i | 0 <= i < |ds[1..]| ensures ds[1..][i] == ds[i + 1] {
      }
      IngestCountsDays(first.0, contract, ds[1..], k, day);
      DayGrows(k, x.daily, Indexer.Day(ds[0].at), Indexer.CountsOf(ds[0], Project(x.rows, ds[0]).value.1), day);
      CountsAreHits(k, ds[0]);
      DayIsExact(ds[0].at, day);
    }
  }

  /** Nothing but a date out of range keeps the indexer from ingesting a run's events. */
  lemma {:induction false} IngestSucceeds(x: Indexer.Derived, contract: Address, ds: seq<Delivered>)
    requires Indexer.Increasing(ds) && forall i | 0 <= i < |ds| :: ds[i].id !in x.stored && ds[i].contract == contract
    ensures Indexer.IngestAll(x, contract, ds).Ok? <==> Fold(x.rows, ds).Ok?
    decreases |ds|
  {
    hide Project;
    if ds != [] && Project(x.rows, ds[0]).Ok? {
      var first := Indexer.Ingest(x, contract, ds[0]).value;
      forall i | 0 <= i < |ds[1..]| ensures ds[1..][i] == ds[i + 1] {
      }
      IngestSucceeds(first.0, contract, ds[1..]);
    }
  }

  // ---- the run's log ----------------------------------------------------------------------------

  function QuantityOf(k: Counter): Quantity
    requires !k.OrdersCreated?
  {
    match k
    case MilestonesFunded => FullyFunded
    case AdvancesFunded => Advances
    case MilestonesSettled => Settlements
    case MilestonesRefunded => Refunds
    case DisputesOpened => Disputes
  }

  lemma {:induction false} ActivityIsLog(k: Counter, ds: seq<Delivered>, log: seq<Stamped>, from: nat)
    requires Delivers(ds, log, from) && !k.OrdersCreated?
    ensures Activity(k, ds) == LogTotal(QuantityOf(k), log)
    decreases |ds|
  {
    if ds != [] {
      forall i | 0 <= i < |ds[1..]| ensures ds[1..][i] == ds[i + 1] && log[1..][i] == log[i + 1] {
      }
      ActivityIsLog(k, ds[1..], log[1..], from);
    }
  }

  lemma {:induction false} OrdersAreActivity(ds: seq<Delivered>, log: seq<Stamped>, from: nat)
    requires Delivers(ds, log, from)
    ensures Activity(OrdersCreated, ds) == CountIn(OrdersMade, log)
    decreases |ds|
  {
    if ds != [] {
      forall i | 0 <= i < |ds[1..]| ensures ds[1..][i] == ds[i + 1] && log[1..][i] == log[i + 1] {
      }
      OrdersAreActivity(ds[1..], log[1..], from);
    }
  }

  // ---- the public figures -------------------------------------------------------------------------

  datatype PublicMetrics = PublicMetrics(
    ordersCreated: nat, ordersAccepted: int, ordersCompleted: int, milestonesCreated: nat, milestonesProtected: int,
    protectedVolume: int, financeRequests: nat, fundingOffers: nat, advancesFunded: nat, advanceVolume: int,
    milestonesSettled: nat, funderRepaymentVolume: int, supplierResidualVolume: int, disputesOpened: nat,
    milestonesRefunded: nat, refundVolume: int)

  predicate ProtectedState(status: MilestoneStatus) {
    status != Unfunded
  }

  function Protected(row: MilestoneRow): int {
    Flag(ProtectedState(row.status))
  }

  function StillHeld(row: MilestoneRow): int {
    if row.status != Settled && row.status != Refunded then row.funded else 0
  }

  function Released(row: SettlementRow): int {
    row.protectedAmount
  }

  function ToFunder(row: SettlementRow): int {
    row.funderRepayment
  }

  function ToSupplier(row: SettlementRow): int {
    row.supplierPayout
  }

  function GivenBack(row: RefundRow): int {
    row.refundedAmount
  }

  function Principal(row: PositionRow): int {
    row.principal
  }

  function RowPart(f: Figure): OrderRow -> int {
    (row: OrderRow) => Flag(CountsStatus(f, row.status))
  }

  /** What a page of metrics shows, from the tables alone. */
  ghost predicate Shows(m: PublicMetrics, db: ReadModels) {
    && m.ordersCreated == |db.orders| && m.ordersAccepted == SumBy(db.orders, RowPart(OrdersAccepted))
    && m.ordersCompleted == SumBy(db.orders, RowPart(OrdersCompleted)) && m.milestonesCreated == |db.milestones|
    && m.milestonesProtected == SumBy(db.milestones, Protected)
    && m.protectedVolume ==
         SumBy(db.settlements, Released) + SumBy(db.refunds, GivenBack) + SumBy(db.milestones, StillHeld)
    && m.financeRequests == |db.requests| && m.fundingOffers == |db.offers| && m.advancesFunded == |db.positions|
    && m.advanceVolume == SumBy(db.positions, Principal)
    && m.milestonesSettled == |db.settlements|
    && m.funderRepaymentVolume == SumBy(db.settlements, ToFunder)
    && m.supplierResidualVolume == SumBy(db.settlements, ToSupplier)
    && m.disputesOpened == |db.disputes| && m.milestonesRefunded == |db.refunds|
    && m.refundVolume == SumBy(db.refunds, GivenBack)
  }

  /** Adds up a column row by row, in whatever order the rows come. */
  method SumColumn<K(==), V>(table: map<K, V>, column: V -> int) returns (total: int)
    ensures total == SumBy(table, column)
  {
    total := 0;
    var left := table;
    while left != map[]
      invariant total + SumBy(left, column) == SumBy(table, column)
      decreases |left|
    {
      var k :| k in left;
      SumRemove(left, column, k);
      total := total + column(left[k]);
      left := left - {k};
    }
  }

  method ComputePublicMetrics(db: ReadModels) returns (m: PublicMetrics)
    ensures Shows(m, db)
  {
    var accepted := SumColumn(db.orders, RowPart(OrdersAccepted));
    var completed := SumColumn(db.orders, RowPart(OrdersCompleted));
    var settled := SumColumn(db.settlements, Released);
    var refunded := SumColumn(db.refunds, GivenBack);
    var held := SumColumn(db.milestones, StillHeld);
    var guarded := SumColumn(db.milestones, Protected);
    var advanced := SumColumn(db.positions, Principal);
    var repaid := SumColumn(db.settlements, ToFunder);
    var paid := SumColumn(db.settlements, ToSupplier);
    m := PublicMetrics(|db.orders|, accepted, completed, |db.milestones|, guarded, settled + refunded + held,
                       |db.requests|, |db.offers|, |db.positions|, advanced, |db.settlements|, repaid, paid,
                       |db.disputes|, |db.refunds|, refunded);
  }

  // ---- recounting the read models gives the run's own totals --------------------------------------

  /** What the rows about one milestone say, and what they do not. */
  lemma RowFacts(s: State, db: ReadModels, bound: nat, id: nat)
    requires SlotsCoupled(s, db, bound)
    ensures id in db.milestones <==> id in s.slots
    ensures id in s.slots ==> MilestoneMatches(s.slots[id].milestone, db.milestones[id], bound)
    ensures id in db.settlements <==> id in s.slots && s.slots[id].milestone.status == Settled
    ensures id in db.settlements ==>
              var x := s.slots[id]; var row := db.settlements[id];
              && row.protectedAmount == x.milestone.amount && row.funderRepayment == Repaid(x)
              && row.supplierPayout == x.milestone.amount - Repaid(x)
    ensures id in db.refunds <==> id in s.slots && s.slots[id].milestone.status == Refunded
    ensures id in db.refunds ==> db.refunds[id].refundedAmount == s.slots[id].milestone.amount
    ensures id in db.requests <==> id in s.slots && s.slots[id].request.Some?
  {
    hide PositionsOf, PositionsMatch, AnchorMatches;
    assert SlotCoupled(s, db, bound, id);
  }

  /** A position row belongs to the milestone whose record it repeats. */
  lemma PositionFacts(s: State, db: ReadModels, bound: nat, key: (nat, nat))
    requires Countable(s) && SlotsCoupled(s, db, bound) && key in db.positions
    ensures key.0 in s.slots && s.slots[key.0].position.Some?
    ensures key == (key.0, s.slots[key.0].position.value.offerId)
    ensures db.positions[key].principal == s.slots[key.0].position.value.principal
  {
    hide MilestoneMatches, RequestMatches, LinksBack, LinksOn, AnchorMatches, SettlementMatches, RefundMatches;
    var id := key.0;
    assert SlotCoupled(s, db, bound, id);
    assert key in PositionsOf(db, id);
  }

  lemma PositionExists(s: State, db: ReadModels, bound: nat, id: nat)
    requires Countable(s) && SlotsCoupled(s, db, bound) && id in s.slots && s.slots[id].position.Some?
    ensures (id, s.slots[id].position.value.offerId) in db.positions
  {
    hide MilestoneMatches, RequestMatches, LinksBack, LinksOn, AnchorMatches, SettlementMatches, RefundMatches;
    assert SlotCoupled(s, db, bound, id);
    assert (id, s.slots[id].position.value.offerId) in PositionsOf(db, id);
  }

  /** A table keyed by milestone id, over the milestones a quantity speaks of. */
  lemma ById<V>(slots: map<nat, Slot>, f: Slot -> int, rows: map<nat, V>, g: V -> int)
    requires forall id | id in rows :: id in slots && f(slots[id]) == g(rows[id])
    requires forall id | id in slots && id !in rows :: f(slots[id]) == 0
    ensures SumBy(slots, f) == SumBy(rows, g)
  {
    var owner := (id: nat) => id;
    forall k | k in slots ensures f(slots[k]) == 0 || exists l | l in rows :: owner(l) == k {
      if k in rows {
        assert owner(k) == k;
      }
    }
    SumOwned(slots, f, rows, g, owner);
  }

  function OneRow<V>(row: V): int {
    1
  }

  /** One figure of the settlement table. */
  lemma SettlementColumn(s: State, db: ReadModels, bound: nat, q: Quantity, column: SettlementRow -> int)
    requires SlotsCoupled(s, db, bound)
    requires forall x: Slot, row: SettlementRow | x.milestone.status == Settled && row.funderRepayment == Repaid(x)
                                                  && row.supplierPayout == x.milestone.amount - Repaid(x) ::
               SlotPart(q, x) == column(row)
    requires forall x: Slot | x.milestone.status != Settled :: SlotPart(q, x) == 0
    ensures SumBy(db.settlements, column) == StateTotal(q, s)
  {
    hide SlotsCoupled, SlotPart, Repaid;
    forall id: nat | id in db.settlements ensures id in s.slots && PartOf(q)(s.slots[id])
            == column(db.settlements[id]) {
      RowFacts(s, db, bound, id);
    }
    forall id | id in s.slots && id !in db.settlements ensures PartOf(q)(s.slots[id]) == 0 {
      RowFacts(s, db, bound, id);
    }
    ById(s.slots, PartOf(q), db.settlements, column);
  }

  lemma SettlementsRecount(s: State, db: ReadModels, bound: nat)
    requires SlotsCoupled(s, db, bound)
    ensures SumBy(db.settlements, ToFunder) == StateTotal(FunderRepayments, s)
    ensures SumBy(db.settlements, ToSupplier) == StateTotal(SupplierPayouts, s)
    ensures |db.settlements| == StateTotal(Settlements, s)
  {
    hide SlotsCoupled, StateTotal;
    SettlementColumn(s, db, bound, FunderRepayments, ToFunder);
    SettlementColumn(s, db, bound, SupplierPayouts, ToSupplier);
    SettlementColumn(s, db, bound, Settlements, OneRow);
    SumOnes(db.settlements, OneRow);
  }

  lemma RefundColumn(s: State, db: ReadModels, bound: nat, q: Quantity, column: RefundRow -> int)
    requires SlotsCoupled(s, db, bound)
    requires forall x: Slot, row: RefundRow | x.milestone.status == Refunded && row.refundedAmount
            == x.milestone.amount ::
               SlotPart(q, x) == column(row)
    requires forall x: Slot | x.milestone.status != Refunded :: SlotPart(q, x) == 0
    ensures SumBy(db.refunds, column) == StateTotal(q, s)
  {
    hide SlotsCoupled, SlotPart, Repaid;
    forall id: nat | id in db.refunds ensures id in s.slots && PartOf(q)(s.slots[id]) == column(db.refunds[id]) {
      RowFacts(s, db, bound, id);
    }
    forall id | id in s.slots && id !in db.refunds ensures PartOf(q)(s.slots[id]) == 0 {
      RowFacts(s, db, bound, id);
    }
    ById(s.slots, PartOf(q), db.refunds, column);
  }

  lemma RefundsRecount(s: State, db: ReadModels, bound: nat)
    requires SlotsCoupled(s, db, bound)
    ensures SumBy(db.refunds, GivenBack) == StateTotal(RefundVolume, s)
    ensures |db.refunds| == StateTotal(Refunds, s)
  {
    hide SlotsCoupled, StateTotal;
    RefundColumn(s, db, bound, RefundVolume, GivenBack);
    RefundColumn(s, db, bound, Refunds, OneRow);
    SumOnes(db.refunds, OneRow);
  }

  lemma PositionColumn(s: State, db: ReadModels, bound: nat, q: Quantity, column: PositionRow -> int)
    requires Countable(s) && SlotsCoupled(s, db, bound)
    requires forall x: Slot, row: PositionRow | x.position.Some? && row.principal == x.position.value.principal ::
               SlotPart(q, x) == column(row)
    requires forall x: Slot | x.position.None? :: SlotPart(q, x) == 0
    ensures SumBy(db.positions, column) == StateTotal(q, s)
  {
    hide Countable, SlotsCoupled, SlotPart;
    var owner := (key: (nat, nat)) => key.0;
    var f := PartOf(q);
    forall key | key in db.positions
      ensures owner(key) in s.slots && f(s.slots[owner(key)]) == column(db.positions[key])
      ensures s.slots[owner(key)].position.Some? && key == (owner(key), s.slots[owner(key)].position.value.offerId)
    {
      PositionFacts(s, db, bound, key);
    }
    forall id | id in s.slots ensures f(s.slots[id]) == 0 || exists key | key in db.positions :: owner(key) == id {
      if s.slots[id].position.Some? {
        PositionExists(s, db, bound, id);
        assert owner((id, s.slots[id].position.value.offerId)) == id;
      }
    }
    SumOwned(s.slots, f, db.positions, column, owner);
  }

  lemma PositionsRecount(s: State, db: ReadModels, bound: nat)
    requires Countable(s) && SlotsCoupled(s, db, bound)
    ensures SumBy(db.positions, Principal) == StateTotal(AdvanceVolume, s)
    ensures |db.positions| == StateTotal(Advances, s)
  {
    hide Countable, SlotsCoupled, StateTotal;
    PositionColumn(s, db, bound, AdvanceVolume, Principal);
    PositionColumn(s, db, bound, Advances, OneRow);
    SumOnes(db.positions, OneRow);
  }

  lemma {:induction false} DisputesOwned(slots: map<nat, Slot>, disputes: map<nat, Dispute>)
    requires forall id | id in disputes :: LinksBack(slots, disputes, id)
    requires forall id | id in slots :: LinksOn(slots, disputes, id)
    ensures SumBy(slots, PartOf(Disputes)) == |disputes|
    decreases |disputes|
  {
    hide SlotPart;
    var f := PartOf(Disputes);
    if disputes == map[] {
      forall id | id in slots ensures f(slots[id]) == 0 {
        assert LinksOn(slots, disputes, id);
        DisputePart(slots[id]);
      }
      SumZero(slots, f);
    } else {
      var d :| d in disputes;
      assert LinksBack(slots, disputes, d);
      var id := disputes[d].milestoneId;
      SumRemove(slots, f, id);
      DisputePart(slots[id]);
      forall e | e in disputes - {d} ensures LinksBack(slots - {id}, disputes - {d}, e) {
        assert LinksBack(slots, disputes, e);
      }
      forall k | k in slots - {id} ensures LinksOn(slots - {id}, disputes - {d}, k) {
        assert LinksOn(slots, disputes, k);
      }
      DisputesOwned(slots - {id}, disputes - {d});
      assert |disputes| == |disputes.Keys| && (disputes - {d}).Keys == disputes.Keys - {d};
      assert |disputes - {d}| == |(disputes - {d}).Keys|;
    }
  }

  lemma DisputePart(x: Slot)
    ensures PartOf(Disputes)(x) == Flag(x.dispute.Some?)
  {
  }

  lemma DisputesRecount(s: State, db: ReadModels, bound: nat)
    requires Countable(s) && DisputesCoupled(s, db, bound)
    ensures |db.disputes| == StateTotal(Disputes, s)
  {
    hide DisputeMatches, LinksBack, LinksOn;
    DisputesOwned(s.slots, s.disputes);
    SameCount(s.disputes, db.disputes);
  }

  function SettledAmount(x: Slot): int {
    if x.milestone.status == Settled then x.milestone.amount else 0
  }

  function HeldAmount(x: Slot): int {
    if Terminal(x.milestone.status) then 0 else x.milestone.funded
  }

  function Nothing(x: Slot): int {
    0
  }

  lemma ReleasedRecount(s: State, db: ReadModels, bound: nat)
    requires SlotsCoupled(s, db, bound)
    ensures SumBy(db.settlements, Released) == SumBy(s.slots, SettledAmount)
  {
    hide SlotsCoupled;
    forall id: nat | id in db.settlements ensures id in s.slots && SettledAmount(s.slots[id])
            == Released(db.settlements[id]) {
      RowFacts(s, db, bound, id);
    }
    forall id | id in s.slots && id !in db.settlements ensures SettledAmount(s.slots[id]) == 0 {
      RowFacts(s, db, bound, id);
    }
    ById(s.slots, SettledAmount, db.settlements, Released);
  }

  lemma MilestonesRecount(s: State, db: ReadModels, bound: nat)
    requires SlotsCoupled(s, db, bound)
    ensures SumBy(db.milestones, StillHeld) == SumBy(s.slots, HeldAmount)
    ensures SumBy(db.milestones, Protected) == StateTotal(FullyFunded, s)
    ensures |db.milestones| == StateTotal(Milestones, s)
  {
    hide SlotsCoupled;
    forall id: nat
      ensures id in db.milestones <==> id in s.slots
      ensures id in s.slots ==>
                && StillHeld(db.milestones[id]) == HeldAmount(s.slots[id])
                && Protected(db.milestones[id]) == PartOf(FullyFunded)(s.slots[id])
    {
      RowFacts(s, db, bound, id);
    }
    assert db.milestones.Keys == s.slots.Keys;
    SumAlike(db.milestones, StillHeld, s.slots, HeldAmount);
    SumAlike(db.milestones, Protected, s.slots, PartOf(FullyFunded));
    SumOnes(s.slots, PartOf(Milestones));
    SameCount(s.slots, db.milestones);
  }

  /** The three sets of milestones are disjoint, so nothing is counted twice and nothing is left out. */
  lemma VolumeRecount(s: State, db: ReadModels, bound: nat)
    requires SlotsCoupled(s, db, bound)
    ensures SumBy(db.settlements, Released) + SumBy(db.refunds, GivenBack) + SumBy(db.milestones, StillHeld)
            == StateTotal(DepositsKept, s)
  {
    hide SlotsCoupled;
    ReleasedRecount(s, db, bound);
    RefundColumn(s, db, bound, RefundVolume, GivenBack);
    MilestonesRecount(s, db, bound);
    SumZero(s.slots, Nothing);
    SumSplits(s.slots, PartOf(DepositsKept), SettledAmount, PartOf(RefundVolume), HeldAmount, Nothing);
  }

  lemma OrdersRecount(s: State, db: ReadModels, bound: nat)
    requires OrdersCoupled(s, db, bound)
    ensures |db.orders| == FigureOf(OrdersMade, s)
    ensures SumBy(db.orders, RowPart(OrdersAccepted)) == FigureOf(OrdersAccepted, s)
    ensures SumBy(db.orders, RowPart(OrdersCompleted)) == FigureOf(OrdersCompleted, s)
  {
    SumAlike(db.orders, RowPart(OrdersAccepted), s.orders, OrderPart(OrdersAccepted));
    SumAlike(db.orders, RowPart(OrdersCompleted), s.orders, OrderPart(OrdersCompleted));
    SumOnes(s.orders, OrderPart(OrdersMade));
    SameCount(s.orders, db.orders);
  }

  lemma RequestsRecount(s: State, db: ReadModels, bound: nat)
    requires SlotsCoupled(s, db, bound)
    ensures |db.requests| == |RequestedFor(s)|
  {
    hide SlotsCoupled;
    forall id: nat ensures id in db.requests <==> id in RequestedFor(s) {
      RowFacts(s, db, bound, id);
    }
    assert db.requests.Keys == RequestedFor(s) && |db.requests| == |db.requests.Keys|;
  }

  lemma OffersRecount(s: State, db: ReadModels, bound: nat)
    requires OffersCoupled(s, db, bound)
    ensures |db.offers| == FigureOf(OffersMade, s)
  {
    SameCount(s.history, db.offers);
  }

  /** What the log itself amounts to. */
  ghost predicate Totalled(m: PublicMetrics, log: seq<Stamped>) {
    && m.ordersCreated == CountIn(OrdersMade, log) && m.ordersAccepted == CountIn(OrdersAccepted, log)
    && m.ordersCompleted == CountIn(OrdersCompleted, log) && m.milestonesCreated == LogTotal(Milestones, log)
    && m.milestonesProtected == LogTotal(FullyFunded, log) && m.protectedVolume == LogTotal(DepositsKept, log)
    && m.financeRequests == |RequestedIn(log)| && m.fundingOffers == CountIn(OffersMade, log)
    && m.advancesFunded == LogTotal(Advances, log) && m.advanceVolume == LogTotal(AdvanceVolume, log)
    && m.milestonesSettled == LogTotal(Settlements, log)
    && m.funderRepaymentVolume == LogTotal(FunderRepayments, log)
    && m.supplierResidualVolume == LogTotal(SupplierPayouts, log)
    && m.disputesOpened == LogTotal(Disputes, log)
    && m.milestonesRefunded == LogTotal(Refunds, log) && m.refundVolume == LogTotal(RefundVolume, log)
  }

  lemma CoupledMetrics(s: State, log: seq<Stamped>, db: ReadModels, bound: nat, m: PublicMetrics)
    requires Coupled(s, db, bound) && Accounted(s, log) && Shows(m, db)
    ensures Totalled(m, log)
  {
    hide SlotsCoupled, DisputesCoupled, StateTotal, LogTotal, OrdersCoupled, OffersCoupled, Countable, FigureOf;
    hide CountIn, RequestedFor, RequestedIn;
    SettlementsRecount(s, db, bound);
    RefundsRecount(s, db, bound);
    PositionsRecount(s, db, bound);
    DisputesRecount(s, db, bound);
    VolumeRecount(s, db, bound);
    MilestonesRecount(s, db, bound);
    OrdersRecount(s, db, bound);
    OffersRecount(s, db, bound);
    RequestsRecount(s, db, bound);
  }

  /** Every public figure, computed from the tables after any number of a run's events were ingested among any number
      of reverted and unknown ones, is what those events amount to. In particular the protected volume is all buyer
      deposits less partial deposits handed back. */
  lemma MetricsFollowRun(r: Trace, p: nat, ds: seq<Delivered>, m: PublicMetrics)
    requires r.IsRun() && p <= |r.Log()| && Delivers(Applied(ds), r.Log()[..p], 0)
    requires Fold(Empty(), ds).Ok? && Shows(m, Fold(Empty(), ds).value)
    ensures Totalled(m, r.Log()[..p])
  {
    hide Step, Fold, Follows, Shows, Totalled, Accounted, ToldAt, Delivers, Deployed, Applied;
    var n := |r.logs|;
    FoldSkips(Empty(), ds);
    PrefixReplays(r, n, p, Applied(ds));
    PrefixAccounted(r, n, p);
    FollowsCoupled(ToldAt(r, n, p), Empty(), Applied(ds), r.Log()[..p], 0);
    CoupledMetrics(ToldAt(r, n, p), r.Log()[..p], Fold(Empty(), ds).value, NextPlace(Applied(ds), 0), m);
  }

  /** The incremental daily counters agree with full recounts of the tables. */
  ghost predicate DailyAgrees(x: Indexer.Derived, m: PublicMetrics) {
    && DailyTotal(OrdersCreated, x.daily) == m.ordersCreated
    && DailyTotal(MilestonesFunded, x.daily) == m.milestonesProtected
    && DailyTotal(AdvancesFunded, x.daily) == m.advancesFunded
    && DailyTotal(MilestonesSettled, x.daily) == m.milestonesSettled
    && DailyTotal(MilestonesRefunded, x.daily) == m.milestonesRefunded
    && DailyTotal(DisputesOpened, x.daily) == m.disputesOpened
  }

  /** Wherever in a run ingestion stands, and whatever reverted or unknown events came between, the daily counters,
      summed over all days, equal recounts of the tables. */
  lemma DailyIsRecount(r: Trace, p: nat, ds: seq<Delivered>, contract: Address, x: Indexer.Derived, m: PublicMetrics)
    requires r.IsRun() && p <= |r.Log()| && Delivers(Applied(ds), r.Log()[..p], 0) && Indexer.Increasing(ds)
    requires Indexer.IngestAll(Indexer.Blank(), contract, ds).Ok?
    requires x == Indexer.IngestAll(Indexer.Blank(), contract, ds).value.0 && Shows(m, x.rows)
    ensures DailyAgrees(x, m)
  {
    hide Step, Fold, Shows, Activity, LogTotal, CountIn, Deployed, Delivers, DailyTotal, Applied, FlagsTell;
    hide Indexer.IngestAll, Indexer.Increasing;
    var log := r.Log()[..p];
    PrefixFlags(r, p, ds);
    forall k: Counter
      ensures DailyTotal(k, x.daily) == Activity(k, Applied(ds)) && Fold(Empty(), ds) == Ok(x.rows)
    {
      IngestIsFold(Indexer.Blank(), contract, ds, k);
      NoDays(k);
      ActivitySkips(k, ds);
    }
    assert DailyTotal(OrdersCreated, x.daily) == Activity(OrdersCreated, Applied(ds));
    MetricsFollowRun(r, p, ds, m);
    OrdersAreActivity(Applied(ds), log, 0);
    forall k: Counter | !k.OrdersCreated? ensures Activity(k, Applied(ds)) == LogTotal(QuantityOf(k), log) {
      ActivityIsLog(k, Applied(ds), log, 0);
    }
  }

  /** Exactly the run's own events are reported as projected. */
  lemma PrefixFlags(r: Trace, p: nat, ds: seq<Delivered>)
    requires r.IsRun() && p <= |r.Log()| && Delivers(Applied(ds), r.Log()[..p], 0)
    ensures Fold(Empty(), ds).Ok? ==> FlagsTell(Empty(), ds)
  {
    hide Step, Coupled, Fold, AllProjected, ToldAt, Delivers, Deployed, Applied, FlagsTell;
    FoldSkips(Empty(), ds);
    PrefixReplays(r, |r.logs|, p, Applied(ds));
    if Fold(Empty(), ds).Ok? {
      FlagsFollow(Empty(), ds);
    }
  }

  lemma DeliveredInOrder(ds: seq<Delivered>, log: seq<Stamped>)
    requires Delivers(ds, log, 0)
    ensures Indexer.Increasing(ds)
  {
  }

  lemma NoDays(k: Counter)
    ensures DailyTotal(k, map[]) == 0
  {
  }
}
