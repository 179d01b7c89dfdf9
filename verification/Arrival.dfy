/** A catch-up that is left alone, and given pages enough, arrives at the end of the chain and says so. */
module Arrival {
  import opened Wrappers
  import opened Types
  import opened Runs
  import opened Projector
  import opened Coupling
  import opened Replay
  import opened Indexer
  import opened CatchUp
  import Pipeline

  /** Nobody else moves, and the node answers. */
  ghost predicate Quiet(turn: Turn) {
    turn.before == [] && turn.between == [] && forall from :: turn.node(from).Some?
  }

  /** One iteration with events to fetch ingests some and goes on; one with none says so. */
  lemma QuietIteration(r: Trace, contract: Address, chain: seq<Delivered>, x: Loop, turn: Turn, p: nat)
    returns (q: nat)
    requires r.IsRun() && Pipeline.ChainOf(r, contract, chain) && AllDatesFit(r.Log())
    requires At(chain, contract, x.db, p, true)
    requires Quiet(turn) && Honest(chain, true, turn) && EndsWithChain(chain, turn)
    ensures p <= q <= |chain| && (q == p <==> p == |chain|)
    ensures var (y, verdict) := Iterate(x, contract, turn);
            && At(chain, contract, y.db, q, true) && y.page == x.page + 1 && y.fetched == x.fetched + 1
            && y.tally.ingested == x.tally.ingested + q - p
            && verdict == if p == |chain| then CaughtUp else Continue
  {
    hide At, IngestAll, Sorted, Increasing, PlaceOf, HonestForeign, ApplyBatch, Coupled, Replay.Delivers, AllDatesFit;
    hide Pipeline.ChainOf, Covers;
    ChainInOrder(r, contract, chain);
    if x.db.cursor.None? {
      FirstCursor(chain, contract, x.db, p, true);
    }
    var db := EnsureCursor(x.db);
    var cursor := db.cursor.value;
    var page := turn.node(cursor.lastEventId).value;
    StandsAt(chain, contract, db, p);
    Pipeline.CurrentPageCommits(r, contract, chain, db, p, true, page, cursor.lastEventId, cursor.scannedThrough);
    q := CommitKeeps(chain, contract, db, p, true, page, cursor.lastEventId, cursor.scannedThrough);
    var t := ApplyBatch(db, contract, Sorted(page.events), page, cursor.lastEventId, cursor.scannedThrough).value.0;
    StandsAt(chain, contract, t, q);
    CommitPlace(chain, db, contract, page, cursor.lastEventId, cursor.scannedThrough, p, q);
    SortedSorts(page.events);
    NoEvents(Sorted(page.events), page.events);
  }

  lemma ChainInOrder(r: Trace, contract: Address, chain: seq<Delivered>)
    requires |r.states| > 0 && Pipeline.ChainOf(r, contract, chain)
    ensures Increasing(chain)
  {
  }

  /** A page with events moves the cursor; one without leaves it. */
  lemma CommitPlace(chain: seq<Delivered>, db: Database, contract: Address, page: Page, last: Option<nat>,
                    scanned: Option<nat>, p: nat, q: nat)
    requires PageOf(chain, last, page) && PlaceOf(chain, last) == p <= |chain|
    requires page.events != [] ==> page.cursor.Some?
    requires ApplyBatch(db, contract, Sorted(page.events), page, last, scanned).Ok?
    requires var t := ApplyBatch(db, contract, Sorted(page.events), page, last, scanned).value.0;
             t.cursor.Some? ==> PlaceOf(chain, t.cursor.value.lastEventId) == q
    ensures page.events != [] <==> q > p
    ensures q >= p
  {
    hide IngestAll, Sorted, PlaceOf, InPlace;
    var j :| PlaceOf(chain, last) <= j <= |chain| && Covers(chain, last, page, j);
    NoEvents(page.events, chain[p..j]);
  }

  /** Left alone, with a node that answers honestly and has nothing more only where the chain has nothing more, a
      catch-up that may fetch more pages than there are events left ingests exactly those, and says it caught up. */
  lemma {:induction false} LeftAloneArrives(r: Trace, contract: Address, chain: seq<Delivered>, x: Loop, maxPages: nat,
                                           turns: seq<Turn>, p: nat)
    requires r.IsRun() && Pipeline.ChainOf(r, contract, chain) && AllDatesFit(r.Log())
    requires At(chain, contract, x.db, p, true) && p <= |chain|
    requires forall i | 0 <= i < |turns| ::
               Quiet(turns[i]) && Honest(chain, true, turns[i]) && EndsWithChain(chain, turns[i])
    requires x.page + |chain| - p < maxPages && |chain| - p < |turns|
    ensures var (y, verdict) := Run(x, contract, maxPages, turns);
            && verdict.CaughtUp? && At(chain, contract, y.db, |chain|, true)
            && y.tally.ingested == x.tally.ingested + |chain| - p
            && y.fetched - x.fetched == y.page - x.page <= |chain| - p + 1
    decreases |chain| - p
  {
    hide At, Iterate, Quiet, Honest, EndsWithChain, Pipeline.ChainOf, AllDatesFit, Deployed;
    var q := QuietIteration(r, contract, chain, x, turns[0], p);
    if p < |chain| {
      LeftAloneArrives(r, contract, chain, Iterate(x, contract, turns[0]).0, maxPages, turns[1..], q);
    }
  }
}
