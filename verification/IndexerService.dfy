/** The indexer service as it is written: a transaction per page, a loop over pages, a flag against running twice. */
module IndexerService {
  import opened Wrappers
  import opened Types
  import opened Projector
  import opened Indexer
  import opened CatchUp
  import ReadModelStore

  datatype RunResult = RunResult(pagesFetched: nat, tally: Tally, caughtUp: bool, latestLedger: nat)

  class Service {
    const contract: Address
    var running: bool

    // the database
    var stored: map<nat, StoredEvent>
    var rows: ReadModels
    var daily: map<nat, Counts>
    var cursor: Option<Cursor>

    function View(): Database
      reads this`stored, this`rows, this`daily, this`cursor
    {
      Database(Derived(stored, rows, daily), cursor)
    }

    constructor (contract: Address)
      ensures View() == Database(Blank(), None) && !running && this.contract == contract
    {
      this.contract := contract;
      running := false;
      stored, rows, daily, cursor := map[], Empty(), map[], None;
    }

    method EnsureCursor()
      modifies this`cursor
      ensures View() == Indexer.EnsureCursor(old(View()))
    {
      if cursor.None? {
        cursor := Some(Cursor(None, None, 0));
      }
    }

    method Reset()
      modifies this`stored, this`rows, this`daily, this`cursor
      ensures View() == ResetAll(Indexer.EnsureCursor(old(View())))
      ensures View() == Indexer.EnsureCursor(Database(Blank(), None))
    {
      EnsureCursor();
      stored, rows, daily := map[], Empty(), map[];
      cursor := Some(Cursor(None, None, 0));
    }

    /** The inside of the transaction: everything is written to its own copy of the tables. */
    method IngestPage(events: seq<Delivered>) returns (r: Result<(Derived, Tally), Failure>)
      ensures r == IngestAll(View().derived, contract, events)
    {
      hide Project, IngestAll, AddDaily, CountsOf;
      IngestNone(View().derived, contract, events[..0]);
      ghost var start := View().derived;
      var ingested: nat, projected: nat, duplicates: nat := 0, 0, 0;
      var txStored: map<nat, StoredEvent>, txDaily: map<nat, Counts> := stored, daily;
      var tx := new ReadModelStore.Store.From(rows);
      var seen: set<nat> := set d | d in events && d.id in stored :: d.id;
      var i := 0;
      while i < |events|
        invariant 0 <= i <= |events| && fresh(tx)
        invariant forall d | d in events :: d.id in seen <==> d.id in txStored
        invariant IngestAll(start, contract, events[..i]) ==
                  Ok((Derived(txStored, tx.View(), txDaily), Tally(ingested, projected, duplicates)))
      {
        var event := events[i];
        IngestNext(start, contract, events, i);
        if event.contract != contract {
          Refused(start, contract, events, i);
          return Err(ForeignContract);
        }
        if event.id in seen {
          duplicates := duplicates + 1;
          i := i + 1;
          continue;
        }
        seen := seen + {event.id};
        var did := tx.ProjectEvent(event);
        if did.Err? {
          Refused(start, contract, events, i);
          return Err(Thrown(did.error));
        }
        txStored := txStored[event.id := StoredEvent(event, did.value)];
        txDaily := AddDaily(txDaily, Day(event.at), CountsOf(event, did.value));
        ingested := ingested + 1;
        if did.value {
          projected := projected + 1;
        }
        i := i + 1;
      }
      assert events[..i] == events;
      return Ok((Derived(txStored, tx.View(), txDaily), Tally(ingested, projected, duplicates)));
    }

    /** The checkpoint is compared under its lock; then everything is committed together, or nothing is. */
    method ApplyBatch(events: seq<Delivered>, page: Page, last: Option<nat>, scanned: Option<nat>)
      returns (r: Result<Tally, Failure>)
      modifies this`stored, this`rows, this`daily, this`cursor
      ensures match Indexer.ApplyBatch(old(View()), contract, events, page, last, scanned)
              case Ok(done) => r == Ok(done.1) && View() == done.0
              case Err(why) => r == Err(why) && View() == old(View())
    {
      hide IngestAll;
      if cursor.None? || cursor.value.lastEventId != last || cursor.value.scannedThrough != scanned {
        return Err(StaleCursor);
      }
      var done :- IngestPage(events);
      stored, rows, daily := done.0.stored, done.0.rows, done.0.daily;
      cursor := Some(Cursor(if page.cursor.Some? then page.cursor else cursor.value.lastEventId,
                            Some(page.scannedThrough), cursor.value.eventsIngested + done.1.ingested));
      return Ok(done.1);
    }

    /** What others do to the shared database. */
    method Interleave(steps: seq<Foreign>)
      modifies this`stored, this`rows, this`daily, this`cursor
      ensures View() == AllHappen(old(View()), contract, steps)
    {
      hide Happens;
      var i := 0;
      while i < |steps|
        invariant 0 <= i <= |steps|
        invariant AllHappen(View(), contract, steps[i..]) == AllHappen(old(View()), contract, steps)
      {
        assert steps[i..][0] == steps[i] && steps[i..][1..] == steps[i + 1..];
        var db := Happens(View(), contract, steps[i]);
        stored, rows, daily, cursor := db.derived.stored, db.derived.rows, db.derived.daily, db.cursor;
        i := i + 1;
      }
    }

    /** Catches up to the chain head, page by page; a stale checkpoint gives the page back. */
    method CatchUp(maxPages: nat, turns: seq<Turn>) returns (r: Result<RunResult, Failure>)
      modifies this
      ensures old(running) ==> r == Err(AlreadyRunning) && running && View() == old(View())
      ensures !old(running) ==>
                && !running
                && match Run(Loop(old(View()), 0, 0, NO_TALLY, 0, 0), contract, maxPages, turns)
                   case (y, Failed(why)) => r == Err(why) && View() == y.db
                   case (y, verdict) =>
                     r == Ok(RunResult(y.fetched, y.tally, verdict.CaughtUp?, y.latest)) && View() == y.db
    {
      hide AllHappen, Indexer.ApplyBatch, Changes, Sorted;
      if running { return Err(AlreadyRunning); }
      running := true;
      var pagesFetched: nat, page: nat, k: nat, latestLedger: nat := 0, 0, 0, 0;
      var tally := NO_TALLY;
      ghost var changes: nat := 0;
      while page < maxPages && k < |turns|
        invariant k <= |turns| && running
        invariant Run(Loop(View(), page, pagesFetched, tally, latestLedger, changes), contract, maxPages, turns[k..])
                  == Run(Loop(old(View()), 0, 0, NO_TALLY, 0, 0), contract, maxPages, turns)
        decreases |turns| - k
      {
        var turn := turns[k];
        assert turns[k..][0] == turn && turns[k..][1..] == turns[k + 1..];
        ghost var before := Loop(View(), page, pagesFetched, tally, latestLedger, changes);
        k := k + 1;
        Interleave(turn.before);
        EnsureCursor();
        var last, scanned := cursor.value.lastEventId, cursor.value.scannedThrough;
        var answer := turn.node(last);
        changes := changes + Changes(View(), contract, turn.between);
        Interleave(turn.between);
        if answer.None? {
          assert Iterate(before, contract, turn).1 == Failed(FetchFailed);
          running := false;
          return Err(FetchFailed);
        }
        var fetched := answer.value;
        pagesFetched := pagesFetched + 1;
        latestLedger := fetched.latestLedger;
        var ordered := Sorted(fetched.events);
        var applied := ApplyBatch(ordered, fetched, last, scanned);
        if applied.Err? {
          if applied.error.StaleCursor? {
            assert Iterate(before, contract, turn)
                   == (Loop(View(), page, pagesFetched, tally, latestLedger, changes), Continue);
            continue;
          }
          running := false;
          return Err(applied.error);
        }
        tally := tally.Plus(applied.value);
        page := page + 1;
        assert Iterate(before, contract, turn)
               == (Loop(View(), page, pagesFetched, tally, latestLedger, changes),
                   if ordered == [] then CaughtUp else Continue);
        if ordered == [] {
          running := false;
          return Ok(RunResult(pagesFetched, tally, true, latestLedger));
        }
      }
      running := false;
      return Ok(RunResult(pagesFetched, tally, false, latestLedger));
    }
  }

  lemma IngestNext(x: Derived, contract: Address, events: seq<Delivered>, i: nat)
    requires i < |events|
    ensures IngestAll(x, contract, events[..i + 1]) ==
            match IngestAll(x, contract, events[..i])
            case Err(e) => Err(e)
            case Ok(first) =>
              match Ingest(first.0, contract, events[i])
              case Err(e) => Err(e)
              case Ok(next) => Ok((next.0, first.1.Plus(next.1)))
  {
    hide Ingest;
    assert events[..i + 1] == events[..i] + [events[i]];
    IngestConcat(x, contract, events[..i], [events[i]]);
    if IngestAll(x, contract, events[..i]).Ok? {
      IngestOne(IngestAll(x, contract, events[..i]).value.0, contract, events[i]);
    }
  }

  lemma IngestNone(x: Derived, contract: Address, ds: seq<Delivered>)
    requires ds == []
    ensures IngestAll(x, contract, ds) == Ok((x, NO_TALLY))
  {
  }

  lemma IngestOne(x: Derived, contract: Address, d: Delivered)
    ensures IngestAll(x, contract, [d]) ==
            match Ingest(x, contract, d)
            case Err(e) => Err(e)
            case Ok(next) => Ok((next.0, next.1))
  {
    hide Ingest;
    assert [d][1..] == [];
  }

  lemma Refused(x: Derived, contract: Address, events: seq<Delivered>, i: nat)
    requires i < |events| && IngestAll(x, contract, events[..i + 1]).Err?
    ensures IngestAll(x, contract, events) == Err(IngestAll(x, contract, events[..i + 1]).error)
  {
    assert events == events[..i + 1] + events[i + 1..];
    IngestConcat(x, contract, events[..i + 1], events[i + 1..]);
  }
}
