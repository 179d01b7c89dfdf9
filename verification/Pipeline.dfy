/** The whole pipeline: a run of the contract, its events indexed by any number of workers. */
module Pipeline {
  import opened Wrappers
  import opened Types
  import opened Runs
  import opened EventOrder
  import opened Projector
  import opened Coupling
  import opened Replay
  import opened Midway
  import opened Skipped
  import opened Indexer
  import Metrics

  /** What one run of the contract publishes, as the node knows it: in the chain's order, and among it any number of
      events of reverted calls and of events that this build does not know. */
  predicate ChainOf(r: Trace, contract: Address, chain: seq<Delivered>)
    requires |r.states| > 0
  {
    && Increasing(chain) && Delivers(Applied(chain), r.Log(), 0)
    && forall i | 0 <= i < |chain| :: chain[i].contract == contract
  }

  lemma {:induction false} PublishedIsPrefix(r: Trace, n: nat, m: nat)
    requires n <= m <= |r.logs|
    ensures r.Published(n) <= r.Published(m)
  {
    if n < m {
      PublishedIsPrefix(r, n, m - 1);
    }
  }

  lemma TakeDelivers(ds: seq<Delivered>, log: seq<Stamped>, p: nat)
    requires Delivers(ds, log, 0) && p <= |ds|
    ensures p <= |log| && Delivers(ds[..p], log[..p], 0)
  {
  }

  /** The run's own events among the first `p` are the first of what the run publishes. */
  lemma TakeApplied(chain: seq<Delivered>, log: seq<Stamped>, p: nat)
    requires Delivers(Applied(chain), log, 0) && p <= |chain|
    ensures var own := |Applied(chain[..p])|; own <= |log| && Delivers(Applied(chain[..p]), log[..own], 0)
  {
    hide Delivers, Applied;
    AppliedPrefix(chain, p);
    var own := |Applied(chain[..p])|;
    TakeDelivers(Applied(chain), log, own);
    assert Applied(chain)[..own] == Applied(chain[..p]);
  }

  /** The events a database says it has ingested. */
  function Ingested(chain: seq<Delivered>, db: Database): seq<Delivered> {
    if db.cursor.None? then []
    else if db.cursor.value.eventsIngested <= |chain| then chain[..db.cursor.value.eventsIngested]
    else chain
  }

  lemma AtIngested(chain: seq<Delivered>, contract: Address, db: Database, p: nat, exact: bool)
    requires At(chain, contract, db, p, exact)
    ensures p <= |chain| && Ingested(chain, db) == chain[..p]
    ensures Rebuilt(chain, contract, p).Ok? && Rebuilt(chain, contract, p).value.0 == db.derived
    ensures StoredIs(chain, contract, db.derived.stored.Keys, p)
  {
    hide Rebuilt, StoredIs, PlaceOf;
  }

  /** Whenever what the workers have ingested are, beside reverted and unknown events, those of the first `n` steps of
      the run, the read models are the contract's storage after those steps. */
  lemma ReadModelsAreTheContract(r: Trace, n: nat, contract: Address, chain: seq<Delivered>, paged: bool, h: History,
                                 k: nat)
    requires r.IsRun() && n < |r.states| && ChainOf(r, contract, chain)
    requires h.IsHistory(chain, contract, paged) && h.InOrder() && k < |h.states|
    requires |Applied(Ingested(chain, h.states[k].db))| == |r.Published(n)|
    ensures exists bound :: Coupled(r.states[n], h.states[k].db.derived.rows, bound)
  {
    hide Moved, Possible, Increasing, IngestAll, Coupled, Delivers, StoredIs, Fold, Applied, At, Ingested, Deployed;
    var p := WorkersIngestOnce(chain, contract, paged, h, k);
    AtIngested(chain, contract, h.states[k].db, p, paged);
    var ds := chain[..p];
    OwnAreTheSteps(r, n, chain, p);
    SliceIncreases(chain, 0, p);
    Metrics.IngestIsFold(Blank(), contract, ds, Metrics.OrdersCreated);
    AppliedReplay(r, n, ds);
    assert Coupled(r.states[n], h.states[k].db.derived.rows, NextPlace(Applied(ds), 0));
  }

  lemma OwnAreTheSteps(r: Trace, n: nat, chain: seq<Delivered>, p: nat)
    requires n <= |r.logs| && p <= |chain| && Delivers(Applied(chain), r.Log(), 0)
    requires |Applied(chain[..p])| == |r.Published(n)|
    ensures Delivers(Applied(chain[..p]), r.Published(n), 0)
  {
    hide Delivers, Applied;
    PublishedIsPrefix(r, n, |r.logs|);
    TakeApplied(chain, r.Log(), p);
    assert r.Log()[..|r.Published(n)|] == r.Published(n);
  }

  lemma AppliedReplay(r: Trace, n: nat, ds: seq<Delivered>)
    requires r.IsRun() && n < |r.states| && Delivers(Applied(ds), r.Published(n), 0) && Fold(Empty(), ds).Ok?
    ensures Coupled(r.states[n], Fold(Empty(), ds).value, NextPlace(Applied(ds), 0))
  {
    hide Step, Fold, Coupled, AllProjected, Delivers, Applied, AllDatesFit;
    FoldSkips(Empty(), ds);
    ReplayIsExact(r, n, Applied(ds));
  }

  /** At every moment of the workers' history, whatever was fetched twice, retried or reset, wherever in a call the last
      page ended and whatever reverted or unknown events came between: the tables are the storage as the ingested
      events tell it; every public figure is what those events amount to; the daily counters agree with recounts of
      the tables; and each day's counters count exactly that day's events. */
  lemma MetricsAreTheContract(r: Trace, contract: Address, chain: seq<Delivered>, paged: bool, h: History, k: nat,
                              m: Metrics.PublicMetrics) returns (own: nat)
    requires r.IsRun() && ChainOf(r, contract, chain) && k < |h.states|
    requires h.IsHistory(chain, contract, paged) && h.InOrder()
    requires Metrics.Shows(m, h.states[k].db.derived.rows)
    ensures own == |Applied(Ingested(chain, h.states[k].db))| <= |r.Log()|
    ensures exists bound :: Coupled(ToldAt(r, |r.logs|, own), h.states[k].db.derived.rows, bound)
    ensures Metrics.Totalled(m, r.Log()[..own])
    ensures Metrics.DailyAgrees(h.states[k].db.derived, m)
    ensures forall day: nat, c: Metrics.Counter ::
              Metrics.Part(c, Metrics.DayCounts(h.states[k].db.derived.daily, day)) ==
              Metrics.ActivityOn(c, day, Ingested(chain, h.states[k].db))
  {
    hide Moved, Possible, Increasing, IngestAll, Coupled, Delivers, StoredIs, Fold, AllProjected, Metrics.Shows;
    hide Metrics.Totalled, Metrics.DailyAgrees, ToldAt, Metrics.ActivityOn, Metrics.DayCounts, Metrics.Part, Follows;
    hide Applied, At, Ingested, FlagsTell;
    var p := WorkersIngestOnce(chain, contract, paged, h, k);
    AtIngested(chain, contract, h.states[k].db, p, paged);
    var ds := chain[..p];
    own := |Applied(ds)|;
    TakeApplied(chain, r.Log(), p);
    SliceIncreases(chain, 0, p);
    var x := h.states[k].db.derived;
    Metrics.IngestIsFold(Blank(), contract, ds, Metrics.OrdersCreated);
    FoldSkips(Empty(), ds);
    PrefixReplays(r, |r.logs|, own, Applied(ds));
    FollowsCoupled(ToldAt(r, |r.logs|, own), Empty(), Applied(ds), r.Log()[..own], 0);
    Metrics.MetricsFollowRun(r, own, ds, m);
    Metrics.DailyIsRecount(r, own, ds, contract, x, m);
    Metrics.PrefixFlags(r, own, ds);
    forall day: nat, c: Metrics.Counter
      ensures Metrics.Part(c, Metrics.DayCounts(x.daily, day)) == Metrics.ActivityOn(c, day, ds)
    {
      Metrics.IngestCountsDays(Blank(), contract, ds, c, day);
      NoDayCounts(c, day);
    }
  }

  lemma NoDayCounts(c: Metrics.Counter, day: nat)
    ensures Metrics.Part(c, Metrics.DayCounts(map[], day)) == 0
  {
  }

  /** At every moment of the workers' history each ingested event is on record as it came, as projected if and only if
      it is the run's own; so what the status reports as successful and unprojected are exactly the ingested events
      this build does not know. */
  lemma RecordsAreTheChain(r: Trace, contract: Address, chain: seq<Delivered>, paged: bool, h: History, k: nat)
    requires r.IsRun() && ChainOf(r, contract, chain) && k < |h.states|
    requires h.IsHistory(chain, contract, paged) && h.InOrder()
    ensures var stored := h.states[k].db.derived.stored; var ds := Ingested(chain, h.states[k].db);
            && stored.Keys == Ids(ds)
            && (forall d | d in ds :: d.id in stored && stored[d.id] == StoredEvent(d, Applies(d)))
            && UnprojectedSuccessful(stored) == UnknownIds(ds)
  {
    hide Moved, Possible, Increasing, IngestAll, Coupled, Delivers, StoredIs, Fold, AllProjected, Applied, At, Ingested;
    hide FlagsTell, Applies;
    var p := WorkersIngestOnce(chain, contract, paged, h, k);
    AtIngested(chain, contract, h.states[k].db, p, paged);
    var ds := chain[..p];
    TakeApplied(chain, r.Log(), p);
    SliceIncreases(chain, 0, p);
    Metrics.IngestIsFold(Blank(), contract, ds, Metrics.OrdersCreated);
    Metrics.PrefixFlags(r, |Applied(ds)|, ds);
    IngestRecords(Blank(), contract, ds);
    StoredPrefix(chain, contract, h.states[k].db.derived.stored.Keys, p);
    RecordsCountUnknown(h.states[k].db.derived, ds);
  }

  lemma StoredPrefix(chain: seq<Delivered>, contract: Address, ids: set<nat>, p: nat)
    requires p <= |chain| && StoredIs(chain, contract, ids, p)
    ensures ids == Ids(chain[..p])
    ensures forall id | id in ids :: exists i | 0 <= i < |chain[..p]| :: chain[..p][i].id == id
  {
    forall id | id in ids ensures exists i | 0 <= i < |chain[..p]| :: chain[..p][i].id == id {
      var i :| 0 <= i < p && chain[i].id == id;
      assert chain[..p][i].id == id;
    }
  }

  /** If every date the run publishes fits, a page fetched for the current checkpoint is always committed: the
      projections never throw, and the indexer is never stuck. */
  lemma CurrentPageCommits(r: Trace, contract: Address, chain: seq<Delivered>, db: Database, p: nat, exact: bool,
                           page: Page, last: Option<nat>, scanned: Option<nat>)
    requires r.IsRun() && ChainOf(r, contract, chain) && AllDatesFit(r.Log())
    requires At(chain, contract, db, p, exact) && PageOf(chain, last, page)
    requires db.cursor.Some? && db.cursor.value.lastEventId == last && db.cursor.value.scannedThrough == scanned
    ensures ApplyBatch(db, contract, Sorted(page.events), page, last, scanned).Ok?
  {
    hide IngestAll, StoredIs, Sorted, Increasing, Fold, AllProjected, Delivers, DatesFit, Applied;
    var n := |r.states| - 1;
    FoldSkips(Empty(), chain);
    ReplayIsExact(r, n, Applied(chain));
    var j :| PlaceOf(chain, last) <= j <= |chain| && Covers(chain, last, page, j);
    var i := PlaceOf(chain, last);
    SliceIncreases(chain, i, j);
    SortRestores(page.events, chain[i..j]);
    SliceIngests(chain, contract, db, p, exact, i, j);
  }

  lemma SliceIngests(chain: seq<Delivered>, contract: Address, db: Database, p: nat, exact: bool, i: nat, j: nat)
    requires Increasing(chain) && At(chain, contract, db, p, exact) && i <= p && i <= j <= |chain|
    requires Fold(Empty(), chain).Ok? && forall k | 0 <= k < |chain| :: chain[k].contract == contract
    ensures IngestAll(db.derived, contract, chain[i..j]).Ok?
  {
    hide IngestAll, Fold, Increasing, PlaceOf;
    var m := if p < j then p else j;
    var known := chain[i..m];
    forall k | 0 <= k < |known| ensures known[k].id in db.derived.stored && known[k].contract == contract {
      assert known[k] == chain[i + k];
    }
    StoredAreSkipped(db.derived, contract, known);
    if p < j {
      assert chain[i..j] == known + chain[p..j];
      IngestConcat(db.derived, contract, known, chain[p..j]);
      PrefixIngests(chain, contract, j);
      assert chain[..j] == chain[..p] + chain[p..j];
      IngestConcat(Blank(), contract, chain[..p], chain[p..j]);
    } else {
      assert chain[i..j] == known;
    }
  }

  lemma PrefixIngests(chain: seq<Delivered>, contract: Address, j: nat)
    requires Increasing(chain) && j <= |chain| && Fold(Empty(), chain).Ok?
    requires forall k | 0 <= k < |chain| :: chain[k].contract == contract
    ensures IngestAll(Blank(), contract, chain[..j]).Ok?
  {
    hide IngestAll, Fold;
    assert chain == chain[..j] + chain[j..];
    FoldConcat(Empty(), chain[..j], chain[j..]);
    Metrics.IngestSucceeds(Blank(), contract, chain[..j]);
  }

  // ---- how far a scan covers the chain ------------------------------------------------------------

  /** The ledger in the upper bits of an event's place. */
  function LedgerOf(d: Delivered): nat {
    d.id / 0x1_0000_0000 / 10_000_000_000
  }

  /** The highest ledger of the page's events; for an empty page, the latest ledger the node has seen. */
  function ScannedThrough(events: seq<Delivered>, latest: nat): nat {
    if events == [] || Highest(events) == 0 then latest else Highest(events)
  }

  function Highest(events: seq<Delivered>): nat {
    if events == [] then 0
    else
      var rest := Highest(events[1..]);
      if LedgerOf(events[0]) > rest then LedgerOf(events[0]) else rest
  }

  lemma {:induction false} HighestIsReached(events: seq<Delivered>)
    requires events != []
    ensures exists i | 0 <= i < |events| :: LedgerOf(events[i]) == Highest(events)
  {
    hide LedgerOf;
    if |events| > 1 && LedgerOf(events[0]) <= Highest(events[1..]) {
      HighestIsReached(events[1..]);
      var i :| 0 <= i < |events[1..]| && LedgerOf(events[1..][i]) == Highest(events[1..]);
      assert events[i + 1] == events[1..][i];
    } else {
      assert LedgerOf(events[0]) == Highest(events) by {
        if |events| == 1 {
          assert events[1..] == [];
        }
      }
    }
  }

  lemma {:induction false} HighestIsLargest(events: seq<Delivered>)
    ensures forall d | d in events :: LedgerOf(d) <= Highest(events)
  {
    hide LedgerOf;
    if events != [] {
      HighestIsLargest(events[1..]);
      assert forall d | d in events :: d == events[0] || d in events[1..];
    }
  }

  /** A page that names a ledger is scanned through the largest one it names; any other through the latest. */
  lemma ScannedIsExact(events: seq<Delivered>, latest: nat)
    ensures (forall d | d in events :: LedgerOf(d) == 0) ==> ScannedThrough(events, latest) == latest
    ensures (exists d | d in events :: LedgerOf(d) > 0) ==>
              && (forall d | d in events :: LedgerOf(d) <= ScannedThrough(events, latest))
              && exists d | d in events :: LedgerOf(d) == ScannedThrough(events, latest)
  {
    hide LedgerOf, Highest;
    HighestIsLargest(events);
    if events != [] {
      HighestIsReached(events);
      var i :| 0 <= i < |events| && LedgerOf(events[i]) == Highest(events);
      assert events[i] in events;
    }
  }

  lemma LedgersAscend(a: Delivered, b: Delivered)
    requires a.id <= b.id
    ensures LedgerOf(a) <= LedgerOf(b)
  {
  }

  /** Every event of a ledger strictly below this one is stored. */
  predicate CoversBelow(chain: seq<Delivered>, db: Database, ledger: nat) {
    forall k | 0 <= k < |chain| && LedgerOf(chain[k]) < ledger :: chain[k].id in db.derived.stored
  }

  /** From the chain's `q`-th event on, nothing happened below this ledger. */
  predicate NothingBelow(chain: seq<Delivered>, q: nat, ledger: nat) {
    forall k | q <= k < |chain| :: LedgerOf(chain[k]) >= ledger
  }

  lemma OnlyPrefixStored(chain: seq<Delivered>, contract: Address, ids: set<nat>, q: nat, k: nat)
    requires Increasing(chain) && q <= |chain| && StoredIs(chain, contract, ids, q) && k < |chain|
    ensures chain[k].id in ids <==> k < q
  {
  }

  /** After a commit that scanned through a ledger, every event strictly below it is stored, though of that ledger
      itself possibly only some: a page may end in its middle. The one exception is a page that names no ledger,
      which is taken to have scanned through the latest one: what it claims is true if and only if the chain holds
      nothing below that ledger beyond what is ingested. */
  lemma CoverageIsExact(chain: seq<Delivered>, contract: Address, paged: bool, h: History, n: nat, w: nat)
    requires Increasing(chain) && h.IsHistory(chain, contract, paged) && n < |h.moves| && h.moves[n] == Commit(w)
    requires h.states[n].Worker(w).Holding?
    requires var x := h.states[n].Worker(w); var db := h.states[n].db;
             && x.page.scannedThrough == ScannedThrough(x.page.events, x.page.latestLedger)
             && ApplyBatch(db, contract, Sorted(x.page.events), x.page, x.last, x.scanned).Ok?
    ensures var x := h.states[n].Worker(w); var t := h.states[n + 1].db;
            && t.cursor.Some? && t.cursor.value.scannedThrough == Some(x.page.scannedThrough)
            && (CoversBelow(chain, t, x.page.scannedThrough) <==>
                Highest(x.page.events) > 0
                || NothingBelow(chain, t.cursor.value.eventsIngested, x.page.latestLedger))
            && (paged && x.page.events == [] ==> t.cursor.value.eventsIngested == PlaceOf(chain, x.last))
  {
    hide Stores, IngestAll, Sorted, Increasing, Covers, LedgerOf, Highest, StoredIs, PlaceOf, Possible, Answers;
    var s, x := h.states[n], h.states[n].Worker(w);
    var p := WorkersStoreOnce(chain, contract, paged, h, n);
    assert Possible(chain, paged, s, h.moves[n]) && h.states[n + 1] == Moved(contract, s, h.moves[n]);
    var q, j := CommitStores(chain, contract, s.db, p, paged, x.page, x.last, x.scanned);
    var t := h.states[n + 1].db;
    StoresSays(chain, contract, s.db, p, paged);
    StoresSays(chain, contract, t, q, paged);
    EmptyAnswer(chain, x.last, x.page, j);
    forall k | 0 <= k < |chain| ensures chain[k].id in t.derived.stored <==> k < q {
      OnlyPrefixStored(chain, contract, t.derived.stored.Keys, q, k);
    }
    if Highest(x.page.events) > 0 {
      forall k | 0 <= k < |chain| && LedgerOf(chain[k]) < x.page.scannedThrough ensures k < q {
        NoHighest(x.page.events);
        BelowThePage(chain, x.last, x.page, j, k);
      }
    } else {
      NoHighest(x.page.events);
    }
  }

  lemma StoresSays(chain: seq<Delivered>, contract: Address, db: Database, p: nat, exact: bool)
    requires Stores(chain, contract, db, p, exact)
    ensures p <= |chain| && StoredIs(chain, contract, db.derived.stored.Keys, p)
    ensures db.cursor.Some? ==>
              && db.cursor.value.eventsIngested == p
              && (exact ==> PlaceOf(chain, db.cursor.value.lastEventId) == p)
  {
    hide StoredIs, PlaceOf;
  }

  lemma EmptyAnswer(chain: seq<Delivered>, last: Option<nat>, page: Page, j: nat)
    requires Covers(chain, last, page, j)
    ensures page.events == [] ==> j == PlaceOf(chain, last)
  {
    hide PlaceOf;
    NoEvents(page.events, chain[PlaceOf(chain, last)..j]);
  }

  lemma NoHighest(events: seq<Delivered>)
    ensures Highest(events) > 0 ==> events != []
  {
  }

  /** The exception is real: the node may answer with no events, and the latest ledger it knows, although there are
      some; the checkpoint then claims a ledger that was never scanned. */
  lemma EmptyPageMayMiss(contract: Address) returns (chain: seq<Delivered>, h: History)
    ensures Increasing(chain) && h.IsHistory(chain, contract, true)
    ensures h.states[|h.moves|].db.cursor == Some(Cursor(None, Some(10), 0))
    ensures |chain| == 1 && LedgerOf(chain[0]) == 5 && !CoversBelow(chain, h.states[|h.moves|].db, 10)
  {
    hide ApplyBatch, Sorted, Answers;
    chain := [Delivered(5 * 0x1_0000_0000 * 10_000_000_000, Place(5, 0, 0, 0, ""), contract, 0, true, None)];
    var page := Page([], None, 10, 10);
    var none := System(Database(Blank(), None), map[]);
    var blank := System(Database(Blank(), Some(Cursor(None, None, 0))), map[]);
    var reading := blank.Become(0, Reading(None, None));
    var holding := blank.Become(0, Holding(page, None, None));
    var committed := System(Database(Blank(), Some(Cursor(None, Some(10), 0))), map[0 := Idle]);
    h := History([none, blank, reading, holding, committed], [Ensure, ReadCursor(0), FetchPage(0, page), Commit(0)]);
    EmptyPage(chain, contract, blank.db, page);
  }

  lemma EmptyPage(chain: seq<Delivered>, contract: Address, db: Database, page: Page)
    requires page == Page([], None, 10, 10) && db == Database(Blank(), Some(Cursor(None, None, 0)))
    ensures Answers(chain, None, page)
    ensures ApplyBatch(db, contract, Sorted(page.events), page, None, None) ==
            Ok((Database(Blank(), Some(Cursor(None, Some(10), 0))), NO_TALLY))
  {
    assert Covers(chain, None, page, 0);
  }

  lemma BelowThePage(chain: seq<Delivered>, last: Option<nat>, page: Page, j: nat, k: nat)
    requires Increasing(chain) && Covers(chain, last, page, j)
    requires page.events != [] && k < |chain| && LedgerOf(chain[k]) < Highest(page.events)
    ensures k < j
  {
    hide LedgerOf, Highest, PlaceOf;
    var i := PlaceOf(chain, last);
    HighestIsReached(page.events);
    var e :| 0 <= e < |page.events| && LedgerOf(page.events[e]) == Highest(page.events);
    assert page.events[e] in multiset(chain[i..j]);
    var m :| 0 <= m < |chain[i..j]| && chain[i..j][m] == page.events[e];
    assert chain[i + m] == page.events[e];
    if k >= i + m {
      LedgersAscend(chain[i + m], chain[k]);
    }
  }
}
