/** A page that sorting puts in the wrong order, and what the tables say ever after. */
module Misplaced {
  import opened Wrappers
  import opened Types
  import opened Storage
  import opened Core
  import opened Runs
  import opened EventOrder
  import opened Projector
  import opened Coupling
  import opened Replay
  import opened Scenarios
  import opened Indexer
  import opened PageOrder
  import Pipeline
  import Skipped
  import Metrics

  /** Where the events of `AskedRuns` happened. The deposit and the request are two transactions of one ledger; the
      deposit's own event comes after that of its token transfer. */
  function SpotOf(k: nat): Spot {
    if k == 3 then Spot(5, 1, 0, 1) else if k == 4 then Spot(5, 2, 0, 0) else Spot(k + 1, 1, 0, 0)
  }

  /** The node leaves the indexes out. */
  function RawOf(k: nat): Raw {
    Raw(IdOf(SpotOf(k)), SpotOf(k).ledger, None, None)
  }

  function PlaceAt(k: nat): Place {
    Place(SpotOf(k).ledger, 0, 0, SpotOf(k).event, IdOf(SpotOf(k)))
  }

  function EventAt(contract: Address, k: nat, log: seq<Stamped>): Delivered
    requires k < |log|
  {
    Delivered(Rank(SpotOf(k)), PlaceAt(k), contract, log[k].at, true, Some(log[k].event))
  }

  function LocatedLog(contract: Address, log: seq<Stamped>): seq<Located> {
    seq(|log|, k requires 0 <= k < |log| => Located(EventAt(contract, k, log), RawOf(k), SpotOf(k)))
  }

  lemma SpotsAscend(i: nat, j: nat)
    requires i < j < 5
    ensures Rank(SpotOf(i)) < Rank(SpotOf(j))
  {
  }

  lemma SpotIsNamed(k: nat)
    requires k < 5
    ensures Names(RawOf(k), SpotOf(k)) && Decode(RawOf(k)) == Some(PlaceAt(k))
  {
    hide IdOf;
    DecodeReads(RawOf(k), SpotOf(k));
  }

  lemma ChainIsPlaced(contract: Address, log: seq<Stamped>)
    requires |log| == 5
    ensures var xs := LocatedLog(contract, log);
            AllPlaced(xs) && Increasing(Events(xs)) && Delivers(Events(xs), log, 0)
    ensures forall k | 0 <= k < 5 :: Events(LocatedLog(contract, log))[k] == EventAt(contract, k, log)
  {
    hide Names, Decode, Rank, SpotOf;
    var xs := LocatedLog(contract, log);
    forall k | 0 <= k < 5 ensures Placed(xs[k]) {
      SpotIsNamed(k);
    }
    forall i, j | 0 <= i < j < 5 ensures Events(xs)[i].id < Events(xs)[j].id {
      SpotsAscend(i, j);
    }
  }

  lemma InsertBeforeOne(d: Delivered, e: Delivered)
    ensures Insert(d, [e]) == if CompareEventOrder(d.place, e.place) <= 0 then [d, e] else [e, d]
  {
    hide CompareEventOrder;
    assert [e][1..] == [];
  }

  lemma IsChainOf(r: Trace, contract: Address, ds: seq<Delivered>)
    requires |r.states| > 0 && Increasing(ds) && Delivers(ds, r.Log(), 0)
    requires forall i | 0 <= i < |ds| :: ds[i].contract == contract
    ensures Pipeline.ChainOf(r, contract, ds)
  {
    hide Skipped.Applied;
    Skipped.AllApplied(ds);
  }

  /** Sorting swaps the deposit and the request. */
  lemma SortingSwaps(ds: seq<Delivered>)
    requires |ds| == 5 && forall k | 0 <= k < 5 :: ds[k].place == PlaceAt(k)
    ensures Sorted(ds) == ds[..3] + [ds[4], ds[3]]
  {
    hide IdOf;
    assert Sorted(ds[5..]) == [];
    assert Sorted(ds[4..]) == [ds[4]] by { assert ds[4..][1..] == ds[5..]; }
    InsertBeforeOne(ds[3], ds[4]);
    assert Sorted(ds[3..]) == [ds[4], ds[3]] by { assert ds[3..][1..] == ds[4..]; }
    assert Sorted(ds[2..]) == [ds[2], ds[4], ds[3]] by { assert ds[2..][1..] == ds[3..]; }
    assert Sorted(ds[1..]) == [ds[1], ds[2], ds[4], ds[3]] by { assert ds[1..][1..] == ds[2..]; }
  }

  /** A deposit that is projected after a later event of its milestone is skipped. */
  lemma LateDepositIsSkipped(db: ReadModels, d: Delivered, id: nat, amount: int, full: bool)
    requires 0 <= amount <= I128_MAX && id <= U64_MAX && id in db.milestones && d.id <= db.milestones[id].last
    ensures ProjectMilestoneFunded(db, d, id, amount, full) == Ok((db, false))
  {
  }

  /** A request that is projected before the deposit finds the milestone with nothing in escrow, and leaves it so. */
  lemma EarlyRequest(db: ReadModels, d: Delivered, bound: nat)
    requires Coupled(Agreed(RESOLVER), db, bound) && bound <= d.id
    ensures var p := ProjectFinanceRequested(db, d, 1, SUPPLIER, 50, 100, 1000);
            && p.Ok? && p.value.1 && 1 in p.value.0.milestones
            && p.value.0.milestones[1].funded == 0 && p.value.0.milestones[1].status == FinanceRequested
            && p.value.0.milestones[1].last == d.id
  {
    hide OrdersCoupled, OffersCoupled, DisputesCoupled, PositionsOf;
    assert SlotCoupled(Agreed(RESOLVER), db, bound, 1);
  }

  /** Until the supplier has agreed everything is ingested as it should be. */
  lemma AgreedIngests(contract: Address, ds: seq<Delivered>) returns (x: Derived)
    requires Delivers(ds, AgreedLog(RESOLVER), 0) && forall i | 0 <= i < |ds| :: ds[i].contract == contract
    ensures IngestAll(Blank(), contract, ds).Ok? && x == IngestAll(Blank(), contract, ds).value.0
    ensures IngestAll(Blank(), contract, ds).value.1.ingested == 3 && x.stored.Keys == Ids(ds)
    ensures Coupled(Agreed(RESOLVER), x.rows, NextPlace(ds, 0))
  {
    hide IngestAll, Fold, Coupled, AllProjected, Execute, Ids;
    var r := AgreedRuns(RESOLVER);
    assert AllDatesFit(AgreedLog(RESOLVER));
    ReplayIsExact(r, |r.logs|, ds);
    Metrics.DeliveredInOrder(ds, AgreedLog(RESOLVER));
    Metrics.IngestSucceeds(Blank(), contract, ds);
    Metrics.IngestIsFold(Blank(), contract, ds, Metrics.OrdersCreated);
    NewAreIngested(Blank(), contract, ds);
    x := IngestAll(Blank(), contract, ds).value.0;
  }

  lemma IngestTwo(x: Derived, contract: Address, d: Delivered, e: Delivered)
    requires Ingest(x, contract, d).Ok? && Ingest(Ingest(x, contract, d).value.0, contract, e).Ok?
    ensures var first := Ingest(x, contract, d).value; var second := Ingest(first.0, contract, e).value;
            IngestAll(x, contract, [d, e]) == Ok((second.0, first.1.Plus(second.1)))
  {
    hide Ingest;
    var second := Ingest(Ingest(x, contract, d).value.0, contract, e).value;
    assert [d, e][1..] == [e] && [e][1..] == [];
    assert IngestAll(second.0, contract, []) == Ok((second.0, NO_TALLY));
  }

  lemma RequestIngested(contract: Address, x: Derived, bound: nat, d: Delivered)
    requires Coupled(Agreed(RESOLVER), x.rows, bound) && bound <= d.id && d.id !in x.stored
    requires d.contract == contract && d.successful
    requires d.body == Some(FinanceRequestOpened(1, SUPPLIER, 50, 100, 1000))
    ensures Ingest(x, contract, d).Ok?
    ensures var r := Ingest(x, contract, d).value;
            && r.1.ingested == 1 && r.0.stored.Keys == x.stored.Keys + {d.id}
            && 1 in r.0.rows.milestones && r.0.rows.milestones[1].funded == 0
            && r.0.rows.milestones[1].status == FinanceRequested && r.0.rows.milestones[1].last == d.id
  {
    hide Coupled, ProjectFinanceRequested, AddDaily, CountsOf, Agreed;
    EarlyRequest(x.rows, d, bound);
    assert Project(x.rows, d) == ProjectFinanceRequested(x.rows, d, 1, SUPPLIER, 50, 100, 1000);
  }

  lemma DepositIngested(contract: Address, x: Derived, d: Delivered)
    requires 1 in x.rows.milestones && d.id <= x.rows.milestones[1].last && d.id !in x.stored
    requires d.contract == contract && d.successful && d.body == Some(MilestoneFunded(1, 1, BUYER, 100, 100, true))
    ensures Ingest(x, contract, d).Ok?
    ensures var r := Ingest(x, contract, d).value;
            && r.1.ingested == 1 && r.0.rows == x.rows
            && d.id in r.0.stored && r.0.stored[d.id] == StoredEvent(d, false)
  {
    hide ProjectMilestoneFunded, AddDaily, CountsOf;
    LateDepositIsSkipped(x.rows, d, 1, 100, true);
    assert Project(x.rows, d) == ProjectMilestoneFunded(x.rows, d, 1, 100, true);
  }

  /** The deposit after the request. */
  lemma SwappedIngests(contract: Address, x: Derived, bound: nat, request: Delivered, deposit: Delivered)
    requires Coupled(Agreed(RESOLVER), x.rows, bound) && bound <= deposit.id < request.id
    requires request.id !in x.stored && deposit.id !in x.stored
    requires request.contract == deposit.contract == contract && request.successful && deposit.successful
    requires request.body == Some(FinanceRequestOpened(1, SUPPLIER, 50, 100, 1000))
    requires deposit.body == Some(MilestoneFunded(1, 1, BUYER, 100, 100, true))
    ensures IngestAll(x, contract, [request, deposit]).Ok?
    ensures var r := IngestAll(x, contract, [request, deposit]).value;
            && r.1.ingested == 2 && 1 in r.0.rows.milestones && r.0.rows.milestones[1].funded == 0
            && r.0.rows.milestones[1].status == FinanceRequested
            && deposit.id in r.0.stored && r.0.stored[deposit.id] == StoredEvent(deposit, false)
  {
    hide Coupled, Ingest, IngestAll;
    RequestIngested(contract, x, bound, request);
    DepositIngested(contract, Ingest(x, contract, request).value.0, deposit);
    IngestTwo(x, contract, request, deposit);
  }

  lemma DepositLost(contract: Address, log: seq<Stamped>, ds: seq<Delivered>) returns (x: Derived)
    requires |log| == 5 && log[..3] == AgreedLog(RESOLVER)
    requires log[3].event == MilestoneFunded(1, 1, BUYER, 100, 100, true)
    requires log[4].event == FinanceRequestOpened(1, SUPPLIER, 50, 100, 1000)
    requires Delivers(ds, log, 0) && forall k | 0 <= k < 5 :: ds[k] == EventAt(contract, k, log)
    ensures IngestAll(Blank(), contract, Sorted(ds)).Ok? && x == IngestAll(Blank(), contract, Sorted(ds)).value.0
    ensures IngestAll(Blank(), contract, Sorted(ds)).value.1.ingested == 5
    ensures 1 in x.rows.milestones && x.rows.milestones[1].funded == 0
    ensures x.rows.milestones[1].status == FinanceRequested
    ensures ds[3].id in x.stored && x.stored[ds[3].id] == StoredEvent(ds[3], false)
  {
    hide IngestAll, Sorted, Rank, PlaceAt, Coupled;
    SortingSwaps(ds);
    Pipeline.TakeDelivers(ds, log, 3);
    var agreed := AgreedIngests(contract, ds[..3]);
    SwappedIngests(contract, agreed, NextPlace(ds[..3], 0), ds[4], ds[3]);
    IngestConcat(Blank(), contract, ds[..3], [ds[4], ds[3]]);
    x := IngestAll(Blank(), contract, Sorted(ds)).value.0;
  }

  /** A run whose deposit the tables never learn of. All ids are well-formed and the node answers with everything in
      order; but it leaves the indexes out, sorting puts the request before the deposit of the transaction before,
      and the deposit is stored as an old event. The contract holds a hundred, the tables say nothing. */
  lemma DepositIsSkipped(contract: Address) returns (r: Trace, xs: seq<Located>, h: History)
    ensures r.IsRun() && 1 in r.Last().slots && r.Last().slots[1].milestone.funded == 100
    ensures AllPlaced(xs) && Increasing(Events(xs)) && Pipeline.ChainOf(r, contract, Events(xs))
    ensures h.IsHistory(Events(xs), contract, true)
    ensures var db := h.states[|h.moves|].db;
            && db.cursor.Some? && db.cursor.value.eventsIngested == |xs| == 5
            && 1 in db.derived.rows.milestones && db.derived.rows.milestones[1].funded == 0
            && db.derived.rows.milestones[1].status == FinanceRequested
            && xs[3].event.id in db.derived.stored && !db.derived.stored[xs[3].event.id].projected
  {
    hide Step, IngestAll, Sorted, Execute, AllPlaced, Rank, Pipeline.ChainOf, Increasing, Delivers;
    r := AskedRuns();
    var log := r.Log();
    xs := LocatedLog(contract, log);
    var ds := Events(xs);
    ChainIsPlaced(contract, log);
    IsChainOf(r, contract, ds);
    var x := DepositLost(contract, log, ds);
    h := OnePage(ds, contract, x);
  }

  /** One worker that fetches the whole chain as one page, and commits it. */
  lemma OnePage(ds: seq<Delivered>, contract: Address, x: Derived) returns (h: History)
    requires Increasing(ds) && ds != []
    requires IngestAll(Blank(), contract, Sorted(ds)).Ok? && x == IngestAll(Blank(), contract, Sorted(ds)).value.0
    ensures h.IsHistory(ds, contract, true)
    ensures var db := h.states[|h.moves|].db;
            && db.derived == x && db.cursor.Some?
            && db.cursor.value.eventsIngested == IngestAll(Blank(), contract, Sorted(ds)).value.1.ingested
  {
    hide IngestAll, Sorted, Answers;
    var last := ds[|ds| - 1].id;
    var page := Page(ds, Some(last), 5, 5);
    var ingested := IngestAll(Blank(), contract, Sorted(ds)).value.1.ingested;
    var none := System(Database(Blank(), None), map[]);
    var blank := System(Database(Blank(), Some(Cursor(None, None, 0))), map[]);
    var reading := blank.Become(0, Reading(None, None));
    var holding := blank.Become(0, Holding(page, None, None));
    var committed := System(Database(x, Some(Cursor(Some(last), Some(5), ingested))), map[0 := Idle]);
    h := History([none, blank, reading, holding, committed], [Ensure, ReadCursor(0), FetchPage(0, page), Commit(0)]);
    WholePage(ds, page);
  }

  lemma WholePage(ds: seq<Delivered>, page: Page)
    requires Increasing(ds) && ds != [] && page.events == ds && page.cursor == Some(ds[|ds| - 1].id)
    ensures Answers(ds, None, page)
  {
    PastCountIs(ds, ds[|ds| - 1].id);
    assert ds[0..|ds|] == ds;
    assert Covers(ds, None, page, |ds|);
  }
}
