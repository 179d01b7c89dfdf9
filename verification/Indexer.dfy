/** The indexer: pages of the chain's events committed one transaction at a time, by any number of workers. */
module Indexer {
  import opened Wrappers
  import opened Types
  import opened EventOrder
  import opened Projector
  import opened Replay

  // ---- what the database holds ----------------------------------------------------------------

  /** A day's activity counters. */
  datatype Counts = Counts(orders: nat, funded: nat, advances: nat, settled: nat, refunded: nat, disputes: nat) {
    function Plus(other: Counts): Counts {
      Counts(orders + other.orders, funded + other.funded, advances + other.advances, settled + other.settled,
             refunded + other.refunded, disputes + other.disputes)
    }
  }

  const NO_COUNTS := Counts(0, 0, 0, 0, 0, 0)

  function One(b: bool): nat {
    if b then 1 else 0
  }

  function DailyMetric(e: Event): Counts {
    Counts(One(e.OrderCreated?), One(e.MilestoneFunded? && e.fullyFunded), One(e.AdvanceFunded?),
           One(e.MilestoneSettled?), One(e.MilestoneRefunded?), One(e.DisputeOpened?))
  }

  const SECONDS_PER_DAY := 86_400

  function Day(at: U64): nat {
    at / SECONDS_PER_DAY
  }

  datatype StoredEvent = StoredEvent(event: Delivered, projected: bool)

  /** Everything derived from events: the raw log, the read models and the daily counters. */
  datatype Derived = Derived(stored: map<nat, StoredEvent>, rows: ReadModels, daily: map<nat, Counts>)

  datatype Cursor = Cursor(lastEventId: Option<nat>, scannedThrough: Option<nat>, eventsIngested: nat)

  datatype Database = Database(derived: Derived, cursor: Option<Cursor>)

  /** One answer of the node. */
  datatype Page = Page(events: seq<Delivered>, cursor: Option<nat>, scannedThrough: nat, latestLedger: nat)

  datatype Tally = Tally(ingested: nat, projected: nat, duplicates: nat) {
    function Plus(other: Tally): Tally {
      Tally(ingested + other.ingested, projected + other.projected, duplicates + other.duplicates)
    }
  }

  const NO_TALLY := Tally(0, 0, 0)

  /** `FetchFailed` stands for whatever the node refuses: an expired resume point, an error, an undecodable event. */
  datatype Failure = StaleCursor | ForeignContract | Thrown(fault: Fault) | FetchFailed | AlreadyRunning

  function Blank(): Derived {
    Derived(map[], Empty(), map[])
  }

  // ---- one transaction ------------------------------------------------------------------------

  function AddDaily(daily: map<nat, Counts>, day: nat, counts: Counts): map<nat, Counts> {
    if counts == NO_COUNTS then daily
    else daily[day := (if day in daily then daily[day] else NO_COUNTS).Plus(counts)]
  }

  function CountsOf(d: Delivered, projected: bool): Counts {
    if projected && d.successful && d.body.Some? then DailyMetric(d.body.value) else NO_COUNTS
  }

  /** One event inside a transaction: refused if it is another contract's, skipped if it is stored already. */
  function Ingest(x: Derived, contract: Address, d: Delivered): Result<(Derived, Tally), Failure> {
    if d.contract != contract then Err(ForeignContract)
    else if d.id in x.stored then Ok((x, Tally(0, 0, 1)))
    else
      match Project(x.rows, d)
      case Err(fault) => Err(Thrown(fault))
      case Ok(p) =>
        Ok((Derived(x.stored[d.id := StoredEvent(d, p.1)], p.0, AddDaily(x.daily, Day(d.at), CountsOf(d, p.1))),
            Tally(1, One(p.1), 0)))
  }

  function IngestAll(x: Derived, contract: Address, ds: seq<Delivered>): Result<(Derived, Tally), Failure>
    decreases |ds|
  {
    if ds == [] then Ok((x, NO_TALLY))
    else
      var first :- Ingest(x, contract, ds[0]);
      var rest :- IngestAll(first.0, contract, ds[1..]);
      Ok((rest.0, first.1.Plus(rest.1)))
  }

  /** The page is committed only against the checkpoint it was fetched from; then everything it implies and
      the cursor move together, and on any throw nothing does. */
  function ApplyBatch(db: Database, contract: Address, events: seq<Delivered>, page: Page, last: Option<nat>,
                      scanned: Option<nat>): Result<(Database, Tally), Failure> {
    if db.cursor.None? || db.cursor.value.lastEventId != last || db.cursor.value.scannedThrough != scanned
    then Err(StaleCursor)
    else
      var c := db.cursor.value;
      var done :- IngestAll(db.derived, contract, events);
      Ok((Database(done.0, Some(Cursor(if page.cursor.Some? then page.cursor else c.lastEventId,
                                       Some(page.scannedThrough), c.eventsIngested + done.1.ingested))),
          done.1))
  }

  function EnsureCursor(db: Database): Database {
    if db.cursor.Some? then db else db.(cursor := Some(Cursor(None, None, 0)))
  }

  function ResetAll(db: Database): Database {
    Database(Blank(), Some(Cursor(None, None, 0)))
  }

  // ---- the chain's order ----------------------------------------------------------------------

  predicate Increasing(ds: seq<Delivered>) {
    forall i, j | 0 <= i < j < |ds| :: ds[i].id < ds[j].id
  }

  function Insert(d: Delivered, ds: seq<Delivered>): seq<Delivered> {
    if ds == [] || CompareEventOrder(d.place, ds[0].place) <= 0 then [d] + ds else [ds[0]] + Insert(d, ds[1..])
  }

  /** The page sorted by what was decoded of its events' places, whatever order the node answered in. */
  function Sorted(ds: seq<Delivered>): seq<Delivered> {
    if ds == [] then [] else Insert(ds[0], Sorted(ds[1..]))
  }

  predicate ByPlace(ds: seq<Delivered>) {
    forall i, j | 0 <= i < j < |ds| :: CompareEventOrder(ds[i].place, ds[j].place) <= 0
  }

  predicate Ascending(ds: seq<Delivered>) {
    forall i, j | 0 <= i < j < |ds| :: ds[i].id <= ds[j].id
  }

  /** The comparison puts every two of these events the way their ids are. */
  predicate InPlace(ds: seq<Delivered>) {
    forall i, j | 0 <= i < |ds| && 0 <= j < |ds| && ds[i].id < ds[j].id ::
      CompareEventOrder(ds[i].place, ds[j].place) < 0
  }

  predicate PlacesApart(ds: seq<Delivered>) {
    forall i, j | 0 <= i < |ds| && 0 <= j < |ds| && ds[i].place == ds[j].place :: ds[i].id == ds[j].id
  }

  lemma {:induction false} InsertAdds(d: Delivered, ds: seq<Delivered>)
    ensures multiset(Insert(d, ds)) == multiset(ds) + multiset{d}
    ensures forall e | e in Insert(d, ds) :: e == d || e in ds
  {
    hide CompareEventOrder;
    if ds != [] && CompareEventOrder(d.place, ds[0].place) > 0 {
      InsertAdds(d, ds[1..]);
      assert ds == [ds[0]] + ds[1..];
    }
  }

  lemma {:induction false} InsertSorts(d: Delivered, ds: seq<Delivered>)
    requires ByPlace(ds)
    ensures ByPlace(Insert(d, ds))
  {
    hide CompareEventOrder;
    if ds != [] {
      CompareIsOrder(d.place, ds[0].place, d.place);
      if CompareEventOrder(d.place, ds[0].place) > 0 {
        var rest := Insert(d, ds[1..]);
        InsertSorts(d, ds[1..]);
        InsertAdds(d, ds[1..]);
        forall i | 0 <= i < |rest| ensures CompareEventOrder(ds[0].place, rest[i].place) <= 0 {
          assert rest[i] in rest;
        }
      } else {
        forall i | 0 <= i < |ds| ensures CompareEventOrder(d.place, ds[i].place) <= 0 {
          if i > 0 {
            AtMostIsTransitive(d.place, ds[0].place, ds[i].place);
          }
        }
      }
    }
  }

  lemma {:induction false} SortedSorts(ds: seq<Delivered>)
    ensures ByPlace(Sorted(ds)) && multiset(Sorted(ds)) == multiset(ds)
  {
    if ds != [] {
      SortedSorts(ds[1..]);
      InsertSorts(ds[0], Sorted(ds[1..]));
      InsertAdds(ds[0], Sorted(ds[1..]));
      assert ds == [ds[0]] + ds[1..];
    }
  }

  lemma TailBag(ds: seq<Delivered>)
    requires ds != []
    ensures multiset(ds[1..]) == multiset(ds) - multiset{ds[0]}
  {
    assert ds == [ds[0]] + ds[1..];
  }

  /** Events with distinct ids have one order only. */
  lemma {:induction false} OneOrder(a: seq<Delivered>, b: seq<Delivered>)
    requires Ascending(a) && Increasing(b) && multiset(a) == multiset(b)
    ensures a == b
    decreases |a|
  {
    assert |a| == |multiset(a)| && |b| == |multiset(b)|;
    if a != [] {
      assert a[0] in multiset(b) && b[0] in multiset(a);
      var i :| 0 <= i < |a| && a[i] == b[0];
      var j :| 0 <= j < |b| && b[j] == a[0];
      assert a[0] == b[0];
      TailBag(a);
      TailBag(b);
      OneOrder(a[1..], b[1..]);
    }
  }

  lemma InPlaceIsOfBag(a: seq<Delivered>, b: seq<Delivered>)
    requires multiset(a) == multiset(b) && InPlace(a)
    ensures InPlace(b)
  {
    hide CompareEventOrder;
    forall i, j | 0 <= i < |b| && 0 <= j < |b| && b[i].id < b[j].id
      ensures CompareEventOrder(b[i].place, b[j].place) < 0
    {
      assert b[i] in multiset(a) && b[j] in multiset(a);
      var k :| 0 <= k < |a| && a[k] == b[i];
      var l :| 0 <= l < |a| && a[l] == b[j];
      assert a[k].id < a[l].id;
    }
  }

  lemma InPlaceAscends(ds: seq<Delivered>)
    requires ByPlace(ds) && InPlace(ds)
    ensures Ascending(ds)
  {
    hide CompareEventOrder;
    forall i, j | 0 <= i < j < |ds| ensures ds[i].id <= ds[j].id {
      CompareIsOrder(ds[i].place, ds[j].place, ds[i].place);
    }
  }

  lemma IncreasingInPlace(ds: seq<Delivered>)
    requires ByPlace(ds) && Increasing(ds) && PlacesApart(ds)
    ensures InPlace(ds)
  {
    hide CompareEventOrder;
    forall i, j | 0 <= i < |ds| && 0 <= j < |ds| && ds[i].id < ds[j].id
      ensures CompareEventOrder(ds[i].place, ds[j].place) < 0
    {
      CompareIsOrder(ds[i].place, ds[j].place, ds[i].place);
      assert i < j;
    }
  }

  /** Sorting restores the chain's order of a page if and only if the comparison puts every two of its events the
      way their ids are. */
  lemma SortRestores(ds: seq<Delivered>, b: seq<Delivered>)
    requires Increasing(b) && multiset(ds) == multiset(b)
    ensures InPlace(ds) ==> Sorted(ds) == b
    ensures PlacesApart(b) ==> (Sorted(ds) == b <==> InPlace(ds))
  {
    hide InPlace, ByPlace, Ascending, PlacesApart;
    SortedSorts(ds);
    if InPlace(ds) {
      InPlaceIsOfBag(ds, Sorted(ds));
      InPlaceAscends(Sorted(ds));
      OneOrder(Sorted(ds), b);
    }
    if Sorted(ds) == b && PlacesApart(b) {
      IncreasingInPlace(b);
      InPlaceIsOfBag(b, ds);
    }
  }

  /** How many of the chain's events a cursor is past. */
  function PlaceOf(chain: seq<Delivered>, cursor: Option<nat>): nat {
    if cursor.None? then 0 else PastCount(chain, cursor.value)
  }

  function PastCount(chain: seq<Delivered>, cursor: nat): (n: nat)
    ensures n <= |chain|
  {
    if chain == [] || chain[0].id > cursor then 0 else 1 + PastCount(chain[1..], cursor)
  }

  lemma {:induction false} PastCountIs(chain: seq<Delivered>, cursor: nat)
    requires Increasing(chain)
    ensures var n := PastCount(chain, cursor);
            && (forall i | 0 <= i < n :: chain[i].id <= cursor)
            && forall i | n <= i < |chain| :: chain[i].id > cursor
  {
    if chain != [] && chain[0].id <= cursor {
      PastCountIs(chain[1..], cursor);
      assert chain == [chain[0]] + chain[1..];
    }
  }

  /** What the indexer relies on the node for: a page holds, in whatever order, the chain's events after the
      given cursor up to the returned one, which never lies before the given one. */
  ghost predicate Answers(chain: seq<Delivered>, from: Option<nat>, page: Page) {
    exists j | PlaceOf(chain, from) <= j <= |chain| :: Covers(chain, from, page, j)
  }

  /** And what the tables rely on beyond that: that what was decoded of the places puts the page in order. */
  ghost predicate PageOf(chain: seq<Delivered>, from: Option<nat>, page: Page) {
    Answers(chain, from, page) && InPlace(page.events)
  }

  ghost predicate Covers(chain: seq<Delivered>, from: Option<nat>, page: Page, j: nat) {
    && PlaceOf(chain, from) <= j <= |chain|
    && multiset(page.events) == multiset(chain[PlaceOf(chain, from)..j])
    && (page.cursor.Some? ==>
          && PlaceOf(chain, page.cursor) == j
          && (from.Some? ==> from.value <= page.cursor.value))
  }

  // ---- exactly once ---------------------------------------------------------------------------

  /** What ingesting the chain's first `p` events into an empty database gives. */
  function Rebuilt(chain: seq<Delivered>, contract: Address, p: nat): Result<(Derived, Tally), Failure>
    requires p <= |chain|
  {
    IngestAll(Blank(), contract, chain[..p])
  }

  /** Exactly the chain's first `p` events are stored, all of this contract. */
  predicate StoredIs(chain: seq<Delivered>, contract: Address, ids: set<nat>, p: nat)
    requires p <= |chain|
  {
    && (forall id | id in ids :: exists i | 0 <= i < p :: chain[i].id == id)
    && (forall i | 0 <= i < p :: chain[i].id in ids && chain[i].contract == contract)
  }

  /** The chain's first `p` events are stored; the counter says how many; the cursor is not past them. `exact` adds
      that the cursor stands right behind them. */
  predicate Stores(chain: seq<Delivered>, contract: Address, db: Database, p: nat, exact: bool) {
    && p <= |chain|
    && StoredIs(chain, contract, db.derived.stored.Keys, p)
    && match db.cursor
       case None => p == 0
       case Some(c) =>
         && c.eventsIngested == p && PlaceOf(chain, c.lastEventId) <= p
         && (exact ==> PlaceOf(chain, c.lastEventId) == p)
  }

  /** Besides, the derived tables are what these events imply, no more and no less. */
  predicate At(chain: seq<Delivered>, contract: Address, db: Database, p: nat, exact: bool) {
    && Stores(chain, contract, db, p, exact)
    && Rebuilt(chain, contract, p).Ok? && Rebuilt(chain, contract, p).value.0 == db.derived
  }

  lemma {:induction false} IngestConcat(x: Derived, contract: Address, a: seq<Delivered>, b: seq<Delivered>)
    ensures IngestAll(x, contract, a + b) ==
            match IngestAll(x, contract, a)
            case Err(e) => Err(e)
            case Ok(first) =>
              match IngestAll(first.0, contract, b)
              case Err(e) => Err(e)
              case Ok(rest) => Ok((rest.0, first.1.Plus(rest.1)))
    decreases |a|
  {
    hide Ingest;
    if a == [] {
      assert a + b == b;
    } else {
      assert (a + b)[0] == a[0] && (a + b)[1..] == a[1..] + b;
      if Ingest(x, contract, a[0]).Ok? {
        IngestConcat(Ingest(x, contract, a[0]).value.0, contract, a[1..], b);
      }
    }
  }

  /** Events that are stored already are skipped, all of them, and nothing is projected twice. */
  lemma {:induction false} StoredAreSkipped(x: Derived, contract: Address, ds: seq<Delivered>)
    requires forall i | 0 <= i < |ds| :: ds[i].id in x.stored && ds[i].contract == contract
    ensures IngestAll(x, contract, ds) == Ok((x, Tally(0, 0, |ds|)))
    decreases |ds|
  {
    hide Project;
    if ds != [] {
      forall i | 0 <= i < |ds[1..]| ensures ds[1..][i] == ds[i + 1] {
      }
      StoredAreSkipped(x, contract, ds[1..]);
    }
  }

  function Ids(ds: seq<Delivered>): set<nat> {
    set i | 0 <= i < |ds| :: ds[i].id
  }

  lemma IdsSplit(ds: seq<Delivered>)
    requires ds != []
    ensures Ids(ds) == {ds[0].id} + Ids(ds[1..])
    ensures forall d | d in ds :: d == ds[0] || d in ds[1..]
  {
    forall id ensures id in Ids(ds) <==> id in {ds[0].id} + Ids(ds[1..]) {
      if id in Ids(ds) {
        var i :| 0 <= i < |ds| && ds[i].id == id;
        assert i > 0 ==> ds[1..][i - 1].id == id;
      }
      if id in Ids(ds[1..]) {
        var i :| 0 <= i < |ds[1..]| && ds[1..][i].id == id;
        assert ds[i + 1].id == id;
      }
    }
  }

  /** Events that are new are ingested, all of them. */
  lemma {:induction false} NewAreIngested(x: Derived, contract: Address, ds: seq<Delivered>)
    requires Increasing(ds) && forall i | 0 <= i < |ds| :: ds[i].id !in x.stored
    requires IngestAll(x, contract, ds).Ok?
    ensures var r := IngestAll(x, contract, ds).value;
            && r.1.ingested == |ds| && r.1.duplicates == 0
            && r.0.stored.Keys == x.stored.Keys + Ids(ds)
            && forall d | d in ds :: d.contract == contract
    decreases |ds|
  {
    hide Project, Ids, AddDaily, CountsOf;
    if ds != [] {
      NewAreIngested(Ingest(x, contract, ds[0]).value.0, contract, ds[1..]);
      IdsSplit(ds);
    } else {
      assert Ids(ds) == {} by { NoIds(ds); }
    }
  }

  lemma NoIds(ds: seq<Delivered>)
    requires ds == []
    ensures Ids(ds) == {}
  {
  }

  lemma StoredGrows(chain: seq<Delivered>, contract: Address, ids: set<nat>, more: set<nat>, p: nat, j: nat)
    requires p <= j <= |chain| && StoredIs(chain, contract, ids, p)
    requires more == ids + Ids(chain[p..j])
    requires forall i | 0 <= i < |chain[p..j]| :: chain[p..j][i].contract == contract
    ensures StoredIs(chain, contract, more, j)
  {
    forall i | 0 <= i < j ensures chain[i].id in more && chain[i].contract == contract {
      if p <= i {
        assert chain[p..j][i - p] == chain[i];
      }
    }
    forall id | id in more ensures exists i | 0 <= i < j :: chain[i].id == id {
      if id !in ids {
        var i :| 0 <= i < |chain[p..j]| && chain[p..j][i].id == id;
        assert chain[p + i].id == id;
      }
    }
  }

  lemma NotStoredYet(chain: seq<Delivered>, contract: Address, ids: set<nat>, p: nat, j: nat)
    requires Increasing(chain) && p <= j <= |chain| && StoredIs(chain, contract, ids, p)
    ensures Increasing(chain[p..j]) && forall i | 0 <= i < |chain[p..j]| :: chain[p..j][i].id !in ids
  {
    forall i | 0 <= i < |chain[p..j]| ensures chain[p..j][i].id !in ids {
      assert chain[p..j][i] == chain[p + i];
    }
  }

  lemma RebuiltGrows(chain: seq<Delivered>, contract: Address, db: Database, p: nat, j: nat, exact: bool)
    requires Increasing(chain) && At(chain, contract, db, p, exact) && p <= j <= |chain|
    requires IngestAll(db.derived, contract, chain[p..j]).Ok?
    ensures var r := IngestAll(db.derived, contract, chain[p..j]).value;
            && Rebuilt(chain, contract, j).Ok? && Rebuilt(chain, contract, j).value.0 == r.0
            && r.1.ingested == j - p && r.1.duplicates == 0
            && StoredIs(chain, contract, r.0.stored.Keys, j)
  {
    hide IngestAll, PlaceOf, StoredIs, Increasing;
    assert chain[..j] == chain[..p] + chain[p..j];
    IngestConcat(Blank(), contract, chain[..p], chain[p..j]);
    NotStoredYet(chain, contract, db.derived.stored.Keys, p, j);
    NewAreIngested(db.derived, contract, chain[p..j]);
    var r := IngestAll(db.derived, contract, chain[p..j]).value;
    StoredGrows(chain, contract, db.derived.stored.Keys, r.0.stored.Keys, p, j);
  }

  /** A page overlaps what is stored; the overlap is skipped, the rest is ingested. */
  lemma BatchExtends(chain: seq<Delivered>, contract: Address, db: Database, p: nat, exact: bool, i: nat, j: nat)
    requires Increasing(chain) && At(chain, contract, db, p, exact) && i <= p && i <= j <= |chain|
    requires IngestAll(db.derived, contract, chain[i..j]).Ok?
    ensures var r := IngestAll(db.derived, contract, chain[i..j]).value; var q := if p < j then j else p;
            && Rebuilt(chain, contract, q).Ok? && Rebuilt(chain, contract, q).value.0 == r.0
            && r.1.ingested == q - p && r.1.ingested + r.1.duplicates == j - i
            && StoredIs(chain, contract, r.0.stored.Keys, q)
  {
    hide Ingest, IngestAll, PlaceOf, Rebuilt;
    var m := if p < j then p else j;
    var known := chain[i..m];
    forall k | 0 <= k < |known| ensures known[k].id in db.derived.stored && known[k].contract == contract {
      assert known[k] == chain[i + k];
    }
    StoredAreSkipped(db.derived, contract, known);
    if p < j {
      assert chain[i..j] == known + chain[p..j];
      IngestConcat(db.derived, contract, known, chain[p..j]);
      RebuiltGrows(chain, contract, db, p, j, exact);
    }
  }

  /** However much of a page was stored before, committing it leaves exactly a prefix of the chain stored,
      each event once, the read models and counters those of that prefix, and the counter its length. */
  lemma CommitKeeps(chain: seq<Delivered>, contract: Address, db: Database, p: nat, exact: bool, page: Page,
                    last: Option<nat>, scanned: Option<nat>) returns (q: nat)
    requires Increasing(chain) && At(chain, contract, db, p, exact) && PageOf(chain, last, page)
    requires exact && page.events != [] ==> page.cursor.Some?
    requires ApplyBatch(db, contract, Sorted(page.events), page, last, scanned).Ok?
    ensures p <= q
    ensures var r := ApplyBatch(db, contract, Sorted(page.events), page, last, scanned).value;
            At(chain, contract, r.0, q, exact) && r.1.ingested == q - p
  {
    hide IngestAll, Rebuilt, Sorted, StoredIs, Increasing;
    var j :| PlaceOf(chain, last) <= j <= |chain| && Covers(chain, last, page, j);
    var i := PlaceOf(chain, last);
    SliceIncreases(chain, i, j);
    SortRestores(page.events, chain[i..j]);
    q := if p < j then j else p;
    BatchExtends(chain, contract, db, p, exact, i, j);
    NoEvents(page.events, chain[i..j]);
  }

  // ---- stored once, in whatever order a page is sorted --------------------------------------------

  predicate Apart(ds: seq<Delivered>) {
    forall i, j | 0 <= i < j < |ds| :: ds[i].id != ds[j].id
  }

  lemma IngestKeys(x: Derived, contract: Address, d: Delivered)
    requires Ingest(x, contract, d).Ok?
    ensures var r := Ingest(x, contract, d).value;
            && d.contract == contract && r.0.stored.Keys == x.stored.Keys + {d.id}
            && r.1.ingested == One(d.id !in x.stored)
  {
    hide Project, AddDaily, CountsOf;
  }

  lemma CountsNew(keys: set<nat>, id: nat, rest: set<nat>)
    requires id !in rest
    ensures |({id} + rest) - keys| == One(id !in keys) + |rest - (keys + {id})|
    ensures keys + {id} + rest == keys + ({id} + rest)
  {
    if id in keys {
      assert ({id} + rest) - keys == rest - (keys + {id});
    } else {
      assert ({id} + rest) - keys == {id} + (rest - (keys + {id}));
    }
  }

  lemma IngestFirst(x: Derived, contract: Address, ds: seq<Delivered>)
    requires ds != [] && IngestAll(x, contract, ds).Ok?
    ensures Ingest(x, contract, ds[0]).Ok?
    ensures var first := Ingest(x, contract, ds[0]).value; var rest := IngestAll(first.0, contract, ds[1..]);
            && rest.Ok? && IngestAll(x, contract, ds).value.0 == rest.value.0
            && IngestAll(x, contract, ds).value.1.ingested == first.1.ingested + rest.value.1.ingested
  {
    hide Ingest;
  }

  /** Whatever their order, events with distinct ids are stored once each, and those that are new are counted. */
  lemma {:induction false} IngestStores(x: Derived, contract: Address, ds: seq<Delivered>)
    requires Apart(ds) && IngestAll(x, contract, ds).Ok?
    ensures var r := IngestAll(x, contract, ds).value;
            && r.0.stored.Keys == x.stored.Keys + Ids(ds)
            && r.1.ingested == |Ids(ds) - x.stored.Keys|
    decreases |ds|
  {
    hide Ingest, Ids, Apart;
    if ds == [] {
      NoIds(ds);
    } else {
      hide IngestAll;
      IngestFirst(x, contract, ds);
      FirstApart(ds);
      IngestKeys(x, contract, ds[0]);
      IngestStores(Ingest(x, contract, ds[0]).value.0, contract, ds[1..]);
      IdsSplit(ds);
      CountsNew(x.stored.Keys, ds[0].id, Ids(ds[1..]));
    }
  }

  lemma {:induction false} IngestedAreOurs(x: Derived, contract: Address, ds: seq<Delivered>)
    requires IngestAll(x, contract, ds).Ok?
    ensures forall d | d in ds :: d.contract == contract
    decreases |ds|
  {
    hide Ingest;
    if ds != [] {
      IngestKeys(x, contract, ds[0]);
      IngestedAreOurs(Ingest(x, contract, ds[0]).value.0, contract, ds[1..]);
    }
  }

  lemma FirstApart(ds: seq<Delivered>)
    requires Apart(ds) && ds != []
    ensures ds[0].id !in Ids(ds[1..]) && Apart(ds[1..])
  {
  }

  lemma IdsOfBag(a: seq<Delivered>, b: seq<Delivered>)
    requires multiset(a) == multiset(b)
    ensures Ids(a) == Ids(b) && forall d :: d in a <==> d in b
  {
    forall d ensures d in a <==> d in b {
      assert d in a <==> d in multiset(a);
    }
    forall id ensures id in Ids(a) <==> id in Ids(b) {
      if id in Ids(a) {
        var i :| 0 <= i < |a| && a[i].id == id;
        assert a[i] in b;
      }
      if id in Ids(b) {
        var i :| 0 <= i < |b| && b[i].id == id;
        assert b[i] in a;
      }
    }
  }

  lemma {:induction false} OnceEach(b: seq<Delivered>, d: Delivered)
    requires Increasing(b)
    ensures multiset(b)[d] <= 1
  {
    if b != [] {
      assert b == [b[0]] + b[1..];
      OnceEach(b[1..], d);
      forall e | e in b[1..] ensures e.id > b[0].id {
        var i :| 0 <= i < |b[1..]| && b[1..][i] == e;
        assert b[i + 1] == e;
      }
    }
  }

  lemma TwiceInBag(a: seq<Delivered>, i: nat, j: nat)
    requires i < j < |a| && a[i] == a[j]
    ensures multiset(a)[a[i]] >= 2
  {
    assert a == a[..j] + a[j..];
    assert a[..j][i] == a[i] && a[j..][0] == a[j];
  }

  lemma SameIdSameEvent(a: seq<Delivered>, b: seq<Delivered>, i: nat, j: nat)
    requires Increasing(b) && multiset(a) == multiset(b) && i < |a| && j < |a| && a[i].id == a[j].id
    ensures a[i] == a[j]
  {
    assert a[i] in multiset(b) && a[j] in multiset(b);
    var k :| 0 <= k < |b| && b[k] == a[i];
    var l :| 0 <= l < |b| && b[l] == a[j];
    assert k == l;
  }

  lemma BagApart(a: seq<Delivered>, b: seq<Delivered>)
    requires Increasing(b) && multiset(a) == multiset(b)
    ensures Apart(a)
  {
    hide Increasing;
    forall i, j | 0 <= i < j < |a| ensures a[i].id != a[j].id {
      if a[i].id == a[j].id {
        SameIdSameEvent(a, b, i, j);
        TwiceInBag(a, i, j);
        OnceEach(b, a[i]);
      }
    }
  }

  lemma {:induction false} IdsCount(b: seq<Delivered>)
    requires Increasing(b)
    ensures |Ids(b)| == |b|
  {
    if b == [] {
      NoIds(b);
    } else {
      IdsCount(b[1..]);
      IdsSplit(b);
      FirstApart(b);
    }
  }

  lemma IdsOfSlice(chain: seq<Delivered>, i: nat, j: nat, id: nat)
    requires i <= j <= |chain|
    ensures id in Ids(chain[i..j]) <==> exists k | i <= k < j :: chain[k].id == id
  {
    if id in Ids(chain[i..j]) {
      var k :| 0 <= k < |chain[i..j]| && chain[i..j][k].id == id;
      assert chain[i + k].id == id;
    }
    if k :| i <= k < j && chain[k].id == id {
      assert chain[i..j][k - i].id == id;
    }
  }

  /** What is new of a stretch of the chain is what lies beyond the stored prefix. */
  lemma NewIds(chain: seq<Delivered>, contract: Address, ids: set<nat>, p: nat, i: nat, j: nat)
    requires Increasing(chain) && i <= p <= |chain| && i <= j <= |chain| && StoredIs(chain, contract, ids, p)
    ensures var q := if p < j then j else p;
            Ids(chain[i..j]) - ids == Ids(chain[p..q]) && ids + Ids(chain[i..j]) == ids + Ids(chain[p..q])
  {
    hide Ids;
    var q := if p < j then j else p;
    forall id ensures id in Ids(chain[i..j]) - ids <==> id in Ids(chain[p..q]) {
      IdsOfSlice(chain, i, j, id);
      IdsOfSlice(chain, p, q, id);
    }
  }

  /** A stretch that begins within the stored prefix, in whatever order, adds what it has beyond that. */
  lemma BatchStores(chain: seq<Delivered>, contract: Address, x: Derived, p: nat, i: nat, j: nat,
                    ordered: seq<Delivered>) returns (q: nat)
    requires Increasing(chain) && i <= p <= |chain| && i <= j <= |chain|
    requires StoredIs(chain, contract, x.stored.Keys, p)
    requires multiset(ordered) == multiset(chain[i..j]) && IngestAll(x, contract, ordered).Ok?
    ensures p <= q <= |chain| && q == if p < j then j else p
    ensures var r := IngestAll(x, contract, ordered).value;
            StoredIs(chain, contract, r.0.stored.Keys, q) && r.1.ingested == q - p
  {
    hide IngestAll, StoredIs, Increasing, Ids, Apart;
    q := if p < j then j else p;
    var ids := x.stored.Keys;
    SliceIncreases(chain, i, j);
    SliceIncreases(chain, p, q);
    BagApart(ordered, chain[i..j]);
    IdsOfBag(ordered, chain[i..j]);
    IngestStores(x, contract, ordered);
    IngestedAreOurs(x, contract, ordered);
    NewIds(chain, contract, ids, p, i, j);
    IdsCount(chain[p..q]);
    forall d | d in chain[p..q] ensures d.contract == contract {
      var k :| 0 <= k < |chain[p..q]| && chain[p..q][k] == d;
      assert chain[i..j][p + k - i] == d;
    }
    StoredGrows(chain, contract, ids, ids + Ids(chain[p..q]), p, q);
  }

  /** However a page is sorted, committing it stores exactly what it adds to the prefix. */
  lemma CommitStores(chain: seq<Delivered>, contract: Address, db: Database, p: nat, exact: bool, page: Page,
                     last: Option<nat>, scanned: Option<nat>) returns (q: nat, j: nat)
    requires Increasing(chain) && Stores(chain, contract, db, p, exact) && Answers(chain, last, page)
    requires exact && page.events != [] ==> page.cursor.Some?
    requires ApplyBatch(db, contract, Sorted(page.events), page, last, scanned).Ok?
    ensures p <= q && Covers(chain, last, page, j) && q == if p < j then j else p
    ensures var r := ApplyBatch(db, contract, Sorted(page.events), page, last, scanned).value;
            && Stores(chain, contract, r.0, q, exact) && r.1.ingested == q - p && CursorNotBack(db, r.0)
  {
    hide IngestAll, Sorted, StoredIs, Increasing, CursorNotBack, ByPlace;
    CommitMovesOn(chain, contract, db, page, last, scanned);
    j :| PlaceOf(chain, last) <= j <= |chain| && Covers(chain, last, page, j);
    hide Answers;
    var i := PlaceOf(chain, last);
    hide PlaceOf;
    SortedSorts(page.events);
    q := BatchStores(chain, contract, db.derived, p, i, j, Sorted(page.events));
    NoEvents(page.events, chain[i..j]);
  }

  lemma SliceIncreases(chain: seq<Delivered>, i: nat, j: nat)
    requires Increasing(chain) && i <= j <= |chain|
    ensures Increasing(chain[i..j])
  {
  }

  lemma NoEvents(a: seq<Delivered>, b: seq<Delivered>)
    requires multiset(a) == multiset(b)
    ensures |a| == |b|
  {
    assert |a| == |multiset(a)| && |b| == |multiset(b)|;
  }

  lemma BlankIsAt(chain: seq<Delivered>, contract: Address, db: Database, exact: bool)
    requires db.derived == Blank() && (db.cursor.Some? ==> db.cursor.value == Cursor(None, None, 0))
    ensures At(chain, contract, db, 0, exact)
  {
    assert chain[..0] == [];
  }

  // ---- any number of workers --------------------------------------------------------------------

  /** Between two of its own steps a worker holds the checkpoint it read, then also the page it fetched. */
  datatype Worker =
    | Idle
    | Reading(last: Option<nat>, scanned: Option<nat>)
    | Holding(page: Page, last: Option<nat>, scanned: Option<nat>)

  datatype System = System(db: Database, workers: map<nat, Worker>) {
    function Worker(w: nat): Worker {
      if w in workers then workers[w] else Idle
    }

    function Become(w: nat, state: Worker): System {
      this.(workers := workers[w := state])
    }
  }

  datatype Move =
    | Ensure
    | ReadCursor(w: nat)
    | FetchPage(w: nat, page: Page)
    | Commit(w: nat)
    | Abandon(w: nat)
    | Reset

  /** What the node answers is up to it; everything else is up to the workers. */
  ghost predicate Possible(chain: seq<Delivered>, paged: bool, x: System, m: Move) {
    match m
    case ReadCursor(w) => x.db.cursor.Some?
    case FetchPage(w, page) =>
      && x.Worker(w).Reading? && Answers(chain, x.Worker(w).last, page)
      && (paged && page.events != [] ==> page.cursor.Some?)
    case Commit(w) => x.Worker(w).Holding?
    case _ => true
  }

  /** A commit that fails, stale or thrown, changes nothing; a worker may die at any time. */
  function Moved(contract: Address, x: System, m: Move): System {
    match m
    case Ensure => x.(db := EnsureCursor(x.db))
    case ReadCursor(w) =>
      if x.db.cursor.None? then x
      else x.Become(w, Reading(x.db.cursor.value.lastEventId, x.db.cursor.value.scannedThrough))
    case FetchPage(w, page) =>
      if !x.Worker(w).Reading? then x else x.Become(w, Holding(page, x.Worker(w).last, x.Worker(w).scanned))
    case Commit(w) =>
      if !x.Worker(w).Holding? then x
      else
        var h := x.Worker(w);
        (match ApplyBatch(x.db, contract, Sorted(h.page.events), h.page, h.last, h.scanned)
         case Ok(done) => x.(db := done.0).Become(w, Idle)
         case Err(_) => x.Become(w, Idle))
    case Abandon(w) => x.Become(w, Idle)
    case Reset => x.(db := ResetAll(EnsureCursor(x.db)))
  }

  /** The workers' history: the states of the system and the moves between them. */
  datatype History = History(states: seq<System>, moves: seq<Move>) {
    ghost predicate IsHistory(chain: seq<Delivered>, contract: Address, paged: bool) {
      && |states| == |moves| + 1
      && states[0].db == Database(Blank(), None) && states[0].workers == map[]
      && forall i | 0 <= i < |moves| ::
           Possible(chain, paged, states[i], moves[i]) && states[i + 1] == Moved(contract, states[i], moves[i])
    }

    /** Every page fetched is one that sorting puts in the chain's order. */
    predicate InOrder() {
      forall i | 0 <= i < |moves| :: moves[i].FetchPage? ==> InPlace(moves[i].page.events)
    }
  }

  /** Every page in a worker's hands answers the checkpoint it was fetched for. */
  ghost predicate PagesAnswer(chain: seq<Delivered>, paged: bool, x: System) {
    forall w | w in x.workers && x.workers[w].Holding? ::
      && Answers(chain, x.workers[w].last, x.workers[w].page)
      && (paged && x.workers[w].page.events != [] ==> x.workers[w].page.cursor.Some?)
  }

  /** And sorting puts it in order. */
  ghost predicate PagesOk(chain: seq<Delivered>, paged: bool, x: System) {
    && PagesAnswer(chain, paged, x)
    && forall w | w in x.workers && x.workers[w].Holding? :: InPlace(x.workers[w].page.events)
  }

  lemma MoveStores(chain: seq<Delivered>, contract: Address, paged: bool, x: System, m: Move, p: nat) returns (q: nat)
    requires Increasing(chain) && Stores(chain, contract, x.db, p, paged) && PagesAnswer(chain, paged, x)
    requires Possible(chain, paged, x, m)
    ensures Stores(chain, contract, Moved(contract, x, m).db, q, paged)
    ensures PagesAnswer(chain, paged, Moved(contract, x, m))
    ensures m.Reset? ==> q == 0
    ensures !m.Reset? ==> p <= q && CursorNotBack(x.db, Moved(contract, x, m).db)
  {
    hide Stores, ApplyBatch, Increasing, Answers;
    q := p;
    match m {
      case Commit(w) =>
        var h := x.Worker(w);
        if ApplyBatch(x.db, contract, Sorted(h.page.events), h.page, h.last, h.scanned).Ok? {
          var j;
          q, j := CommitStores(chain, contract, x.db, p, paged, h.page, h.last, h.scanned);
        }
      case Reset =>
        q := 0;
        BlankStores(chain, contract, Moved(contract, x, m).db, paged);
      case Ensure =>
        if x.db.cursor.None? {
          FirstStores(chain, contract, x.db, p, paged);
        }
      case _ =>
    }
  }

  lemma BlankStores(chain: seq<Delivered>, contract: Address, db: Database, exact: bool)
    requires db.derived == Blank() && (db.cursor.Some? ==> db.cursor.value == Cursor(None, None, 0))
    ensures Stores(chain, contract, db, 0, exact)
  {
  }

  lemma FirstStores(chain: seq<Delivered>, contract: Address, db: Database, p: nat, exact: bool)
    requires Stores(chain, contract, db, p, exact) && db.cursor.None?
    ensures p == 0 && Stores(chain, contract, EnsureCursor(db), p, exact)
  {
    hide StoredIs;
  }

  lemma MoveKeeps(chain: seq<Delivered>, contract: Address, paged: bool, x: System, m: Move, p: nat) returns (q: nat)
    requires Increasing(chain) && At(chain, contract, x.db, p, paged) && PagesOk(chain, paged, x)
    requires Possible(chain, paged, x, m) && (m.FetchPage? ==> InPlace(m.page.events))
    ensures At(chain, contract, Moved(contract, x, m).db, q, paged) && PagesOk(chain, paged, Moved(contract, x, m))
    ensures m.Reset? ==> q == 0
    ensures !m.Reset? ==> p <= q && CursorNotBack(x.db, Moved(contract, x, m).db)
  {
    hide At, ApplyBatch, Increasing, Answers, InPlace;
    q := p;
    match m {
      case Commit(w) =>
        var h := x.Worker(w);
        if ApplyBatch(x.db, contract, Sorted(h.page.events), h.page, h.last, h.scanned).Ok? {
          q := CommitKeeps(chain, contract, x.db, p, paged, h.page, h.last, h.scanned);
          CommitMovesOn(chain, contract, x.db, h.page, h.last, h.scanned);
        }
      case Reset =>
        q := 0;
        BlankIsAt(chain, contract, Moved(contract, x, m).db, paged);
      case Ensure =>
        if x.db.cursor.None? {
          FirstCursor(chain, contract, x.db, p, paged);
        }
      case _ =>
    }
  }

  /** The cursor never points before where it pointed. */
  predicate CursorNotBack(before: Database, after: Database) {
    before.cursor.Some? && before.cursor.value.lastEventId.Some? ==>
      && after.cursor.Some? && after.cursor.value.lastEventId.Some?
      && before.cursor.value.lastEventId.value <= after.cursor.value.lastEventId.value
  }

  lemma CommitMovesOn(chain: seq<Delivered>, contract: Address, db: Database, page: Page, last: Option<nat>,
                      scanned: Option<nat>)
    requires Answers(chain, last, page) && ApplyBatch(db, contract, Sorted(page.events), page, last, scanned).Ok?
    ensures CursorNotBack(db, ApplyBatch(db, contract, Sorted(page.events), page, last, scanned).value.0)
  {
    hide IngestAll;
  }

  lemma FirstCursor(chain: seq<Delivered>, contract: Address, db: Database, p: nat, exact: bool)
    requires At(chain, contract, db, p, exact) && db.cursor.None?
    ensures p == 0 && At(chain, contract, EnsureCursor(db), p, exact)
  {
    hide IngestAll, StoredIs;
  }

  /** However many workers read the cursor, fetch pages, commit them, fail and reset, in whatever order, and however
      their pages are sorted: the stored events are always exactly a prefix of the chain, each once, and
      `eventsIngested` is its length. If every page with events names its cursor, the prefix is exactly what the
      cursor is past. */
  lemma {:induction false} WorkersStoreOnce(chain: seq<Delivered>, contract: Address, paged: bool, h: History, n: nat)
    returns (p: nat)
    requires Increasing(chain) && h.IsHistory(chain, contract, paged) && n < |h.states|
    ensures Stores(chain, contract, h.states[n].db, p, paged) && PagesAnswer(chain, paged, h.states[n])
  {
    hide Stores, Moved, Possible, Increasing;
    if n == 0 {
      p := 0;
      BlankStores(chain, contract, h.states[0].db, paged);
    } else {
      var q := WorkersStoreOnce(chain, contract, paged, h, n - 1);
      p := MoveStores(chain, contract, paged, h.states[n - 1], h.moves[n - 1], q);
    }
  }

  /** If besides sorting puts every page in the chain's order, the read models and the daily counters are always
      those of that prefix. */
  lemma {:induction false} WorkersIngestOnce(chain: seq<Delivered>, contract: Address, paged: bool, h: History, n: nat)
    returns (p: nat)
    requires Increasing(chain) && h.IsHistory(chain, contract, paged) && h.InOrder() && n < |h.states|
    ensures At(chain, contract, h.states[n].db, p, paged) && PagesOk(chain, paged, h.states[n])
  {
    hide At, Moved, Possible, Increasing, InPlace;
    if n == 0 {
      p := 0;
      BlankIsAt(chain, contract, h.states[0].db, paged);
    } else {
      var q := WorkersIngestOnce(chain, contract, paged, h, n - 1);
      p := MoveKeeps(chain, contract, paged, h.states[n - 1], h.moves[n - 1], q);
    }
  }

  /** Only a reset moves the cursor back. */
  lemma OnlyResetRewinds(chain: seq<Delivered>, contract: Address, paged: bool, h: History, n: nat)
    requires Increasing(chain) && h.IsHistory(chain, contract, paged) && n < |h.moves| && !h.moves[n].Reset?
    ensures CursorNotBack(h.states[n].db, h.states[n + 1].db)
  {
    hide Stores, Moved, Possible, Increasing;
    var p := WorkersStoreOnce(chain, contract, paged, h, n);
    var q := MoveStores(chain, contract, paged, h.states[n], h.moves[n], p);
  }

  /** A commit takes place exactly against the checkpoint its page was fetched for, cursor and scanned ledger both; if
      it is refused otherwise, that is not for the checkpoint. */
  lemma CommitsAgainstCheckpoint(db: Database, contract: Address, events: seq<Delivered>, page: Page,
                                 last: Option<nat>, scanned: Option<nat>)
    ensures ApplyBatch(db, contract, events, page, last, scanned) == Err(StaleCursor) <==>
            db.cursor.None? || db.cursor.value.lastEventId != last || db.cursor.value.scannedThrough != scanned
  {
    if db.cursor.Some? && db.cursor.value.lastEventId == last && db.cursor.value.scannedThrough == scanned {
      IngestingFails(db.derived, contract, events);
    }
  }

  lemma {:induction false} IngestingFails(x: Derived, contract: Address, ds: seq<Delivered>)
    ensures IngestAll(x, contract, ds) != Err(StaleCursor) && IngestAll(x, contract, ds) != Err(FetchFailed)
    decreases |ds|
  {
    if ds != [] && Ingest(x, contract, ds[0]).Ok? {
      IngestingFails(Ingest(x, contract, ds[0]).value.0, contract, ds[1..]);
    }
  }

  predicate NotBefore(a: Option<nat>, b: Option<nat>) {
    a.Some? ==> b.Some? && a.value <= b.value
  }

  /** Every page that is held was scanned no less far than the checkpoint it was fetched for. */
  predicate HeldScanOn(x: System) {
    forall w | w in x.workers && x.workers[w].Holding? ::
      NotBefore(x.workers[w].scanned, Some(x.workers[w].page.scannedThrough))
  }

  predicate FetchScansOn(x: System, m: Move) {
    m.FetchPage? && x.Worker(m.w).Reading? ==> NotBefore(x.Worker(m.w).scanned, Some(m.page.scannedThrough))
  }

  lemma MoveScansOn(contract: Address, x: System, m: Move)
    requires HeldScanOn(x) && FetchScansOn(x, m)
    ensures HeldScanOn(Moved(contract, x, m))
    ensures !m.Reset? && x.db.cursor.Some? ==>
              var t := Moved(contract, x, m).db;
              t.cursor.Some? && NotBefore(x.db.cursor.value.scannedThrough, t.cursor.value.scannedThrough)
  {
    hide IngestAll, Sorted;
  }

  lemma {:induction false} HistoryScansOn(chain: seq<Delivered>, contract: Address, paged: bool, h: History, n: nat)
    requires h.IsHistory(chain, contract, paged) && n < |h.states|
    requires forall i | 0 <= i < |h.moves| :: FetchScansOn(h.states[i], h.moves[i])
    ensures HeldScanOn(h.states[n])
  {
    hide Moved, Possible;
    if n > 0 {
      HistoryScansOn(chain, contract, paged, h, n - 1);
      MoveScansOn(contract, h.states[n - 1], h.moves[n - 1]);
    }
  }

  /** If no page is scanned less far than the checkpoint it answers, nothing but a reset ever takes back how far the
      scan has come, however many workers race; for a commit is made against the scan its page was fetched for. */
  lemma ScanOnlyGrows(chain: seq<Delivered>, contract: Address, paged: bool, h: History, n: nat)
    requires h.IsHistory(chain, contract, paged) && n < |h.moves| && !h.moves[n].Reset?
    requires forall i | 0 <= i < |h.moves| :: FetchScansOn(h.states[i], h.moves[i])
    requires h.states[n].db.cursor.Some?
    ensures h.states[n + 1].db.cursor.Some?
    ensures NotBefore(h.states[n].db.cursor.value.scannedThrough, h.states[n + 1].db.cursor.value.scannedThrough)
  {
    hide Moved, Possible;
    HistoryScansOn(chain, contract, paged, h, n);
    MoveScansOn(contract, h.states[n], h.moves[n]);
  }

  /** Two moments, of one history or of two, at which the same number of events is ingested hold the same
      derived tables; so a reset followed by catching up rebuilds what was there. */
  lemma RebuildIsEqual(chain: seq<Delivered>, contract: Address, paged: bool, h: History, n: nat, g: History, m: nat)
    requires Increasing(chain) && h.IsHistory(chain, contract, paged) && g.IsHistory(chain, contract, paged)
    requires h.InOrder() && g.InOrder()
    requires n < |h.states| && m < |g.states|
    requires h.states[n].db.cursor.Some? && g.states[m].db.cursor.Some?
    requires h.states[n].db.cursor.value.eventsIngested == g.states[m].db.cursor.value.eventsIngested
    ensures h.states[n].db.derived == g.states[m].db.derived
  {
    hide Moved, Possible, Increasing, Rebuilt, StoredIs;
    var p := WorkersIngestOnce(chain, contract, paged, h, n);
    var q := WorkersIngestOnce(chain, contract, paged, g, m);
  }
}
