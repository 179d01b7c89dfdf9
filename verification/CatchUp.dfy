/** One worker's catch-up loop, page by page, while others commit to the same stream and reset it. */
module CatchUp {
  import opened Wrappers
  import opened Types
  import opened Projector
  import opened Indexer

  /** What somebody else does to the database between two of this worker's own steps. */
  datatype Foreign =
    | OtherEnsure
    | OtherCommit(page: Page, last: Option<nat>, scanned: Option<nat>)
    | OtherReset

  /** One turn of the loop as the outside world plays it: what others do before the cursor is read and while
      the page is being fetched, and the node's answer, if it gives one, for whatever cursor was read. */
  datatype Turn = Turn(before: seq<Foreign>, node: Option<nat> -> Option<Page>, between: seq<Foreign>)

  function Happens(db: Database, contract: Address, f: Foreign): Database {
    match f
    case OtherEnsure => EnsureCursor(db)
    case OtherCommit(page, last, scanned) =>
      (match ApplyBatch(db, contract, Sorted(page.events), page, last, scanned)
       case Ok(done) => done.0
       case Err(_) => db)
    case OtherReset => ResetAll(EnsureCursor(db))
  }

  function AllHappen(db: Database, contract: Address, fs: seq<Foreign>): Database
    decreases |fs|
  {
    if fs == [] then db else AllHappen(Happens(db, contract, fs[0]), contract, fs[1..])
  }

  predicate SameCheckpoint(a: Database, b: Database) {
    || (a.cursor.None? && b.cursor.None?)
    || (a.cursor.Some? && b.cursor.Some? && a.cursor.value.lastEventId == b.cursor.value.lastEventId
        && a.cursor.value.scannedThrough == b.cursor.value.scannedThrough)
  }

  /** How often others change the checkpoint. */
  function Changes(db: Database, contract: Address, fs: seq<Foreign>): nat
    decreases |fs|
  {
    if fs == [] then 0
    else
      var next := Happens(db, contract, fs[0]);
      (if SameCheckpoint(db, next) then 0 else 1) + Changes(next, contract, fs[1..])
  }

  lemma {:induction false} NoChangeSameCheckpoint(db: Database, contract: Address, fs: seq<Foreign>)
    requires Changes(db, contract, fs) == 0
    ensures SameCheckpoint(db, AllHappen(db, contract, fs))
    decreases |fs|
  {
    hide Happens;
    if fs != [] {
      NoChangeSameCheckpoint(Happens(db, contract, fs[0]), contract, fs[1..]);
    }
  }

  /** Where the loop is. `latest` is the chain's head as the last page fetched told it, `changes` how often
      others moved the checkpoint under a page being fetched. */
  datatype Loop = Loop(db: Database, page: nat, fetched: nat, tally: Tally, latest: nat, changes: nat)

  datatype Verdict = Continue | CaughtUp | Failed(why: Failure)

  /** One iteration: read the cursor, fetch, sort, commit; a stale checkpoint gives the page back, and a fetch
      that throws ends the loop. */
  function Iterate(x: Loop, contract: Address, turn: Turn): (Loop, Verdict) {
    var db := EnsureCursor(AllHappen(x.db, contract, turn.before));
    var cursor := db.cursor.value;
    var answer := turn.node(cursor.lastEventId);
    var later := AllHappen(db, contract, turn.between);
    var changes := x.changes + Changes(db, contract, turn.between);
    if answer.None? then (x.(db := later, changes := changes), Failed(FetchFailed))
    else
      var page := answer.value;
      var ordered := Sorted(page.events);
      match ApplyBatch(later, contract, ordered, page, cursor.lastEventId, cursor.scannedThrough)
      case Err(StaleCursor) => (Loop(later, x.page, x.fetched + 1, x.tally, page.latestLedger, changes), Continue)
      case Err(why) => (Loop(later, x.page, x.fetched + 1, x.tally, page.latestLedger, changes), Failed(why))
      case Ok(done) =>
        (Loop(done.0, x.page + 1, x.fetched + 1, x.tally.Plus(done.1), page.latestLedger, changes),
         if ordered == [] then CaughtUp else Continue)
  }

  /** The loop over as many turns as the world plays, at most `maxPages` of them committing. */
  function Run(x: Loop, contract: Address, maxPages: nat, turns: seq<Turn>): (Loop, Verdict)
    decreases |turns|
  {
    if x.page >= maxPages || turns == [] then (x, Continue)
    else
      var (y, verdict) := Iterate(x, contract, turns[0]);
      if verdict.Continue? then Run(y, contract, maxPages, turns[1..]) else (y, verdict)
  }

  /** A page is given back only if somebody else changed the checkpoint while it was being fetched. */
  lemma StaleMeansChanged(x: Loop, contract: Address, turn: Turn)
    ensures var (y, verdict) := Iterate(x, contract, turn);
            && x.fetched <= y.fetched <= x.fetched + 1 && x.page <= y.page <= x.page + 1 && x.changes <= y.changes
            && (y.fetched == x.fetched <==> verdict == Failed(FetchFailed))
            && (verdict.Failed? || y.page == x.page + 1 || y.changes > x.changes)
            && var answer := turn.node(EnsureCursor(AllHappen(x.db, contract, turn.before)).cursor.value.lastEventId);
               y.latest == if answer.Some? then answer.value.latestLedger else x.latest
  {
    hide AllHappen, IngestAll, Changes;
    var db := EnsureCursor(AllHappen(x.db, contract, turn.before));
    var later := AllHappen(db, contract, turn.between);
    var answer := turn.node(db.cursor.value.lastEventId);
    if answer.Some? {
      IngestingFails(later.derived, contract, Sorted(answer.value.events));
    }
    if Changes(db, contract, turn.between) == 0 {
      NoChangeSameCheckpoint(db, contract, turn.between);
    }
  }

  /** Despite giving pages back, catching up fetches at most `maxPages` pages plus one for every foreign change
      of the checkpoint. */
  lemma {:induction false} FetchesAreBounded(x: Loop, contract: Address, maxPages: nat, turns: seq<Turn>)
    requires x.fetched <= x.page + x.changes && x.page <= maxPages
    ensures var y := Run(x, contract, maxPages, turns).0; y.page <= maxPages && y.fetched <= maxPages + y.changes
    decreases |turns|
  {
    hide Iterate;
    if x.page < maxPages && turns != [] {
      StaleMeansChanged(x, contract, turns[0]);
      if Iterate(x, contract, turns[0]).1.Continue? {
        FetchesAreBounded(Iterate(x, contract, turns[0]).0, contract, maxPages, turns[1..]);
      }
    }
  }

  // ---- the loop keeps what the workers keep -------------------------------------------------------

  ghost predicate HonestForeign(chain: seq<Delivered>, paged: bool, f: Foreign) {
    f.OtherCommit? ==>
      PageOf(chain, f.last, f.page) && (paged && f.page.events != [] ==> f.page.cursor.Some?)
  }

  ghost predicate Honest(chain: seq<Delivered>, paged: bool, turn: Turn) {
    && (forall i | 0 <= i < |turn.before| :: HonestForeign(chain, paged, turn.before[i]))
    && (forall i | 0 <= i < |turn.between| :: HonestForeign(chain, paged, turn.between[i]))
    && forall from ::
         turn.node(from).Some? ==>
           var page := turn.node(from).value;
           PageOf(chain, from, page) && (paged && page.events != [] ==> page.cursor.Some?)
  }

  ghost predicate Sound(chain: seq<Delivered>, contract: Address, paged: bool, db: Database) {
    exists p :: At(chain, contract, db, p, paged)
  }

  lemma CommitSound(chain: seq<Delivered>, contract: Address, paged: bool, db: Database, page: Page, last: Option<nat>,
                    scanned: Option<nat>)
    requires Increasing(chain) && Sound(chain, contract, paged, db) && PageOf(chain, last, page)
    requires paged && page.events != [] ==> page.cursor.Some?
    requires ApplyBatch(db, contract, Sorted(page.events), page, last, scanned).Ok?
    ensures Sound(chain, contract, paged, ApplyBatch(db, contract, Sorted(page.events), page, last, scanned).value.0)
  {
    hide At, ApplyBatch, PageOf, Increasing;
    var p :| At(chain, contract, db, p, paged);
    var q := CommitKeeps(chain, contract, db, p, paged, page, last, scanned);
  }

  lemma FreshSound(chain: seq<Delivered>, contract: Address, paged: bool, db: Database)
    requires db.cursor.None? ==> Sound(chain, contract, paged, db)
    requires db.cursor.Some? ==> db == Database(Blank(), Some(Cursor(None, None, 0)))
    ensures Sound(chain, contract, paged, EnsureCursor(db))
  {
    hide At;
    if db.cursor.None? {
      var p :| At(chain, contract, db, p, paged);
      FirstCursor(chain, contract, db, p, paged);
      assert At(chain, contract, EnsureCursor(db), p, paged);
    } else {
      BlankIsAt(chain, contract, db, paged);
    }
  }

  lemma ForeignSound(chain: seq<Delivered>, contract: Address, paged: bool, db: Database, f: Foreign)
    requires Increasing(chain) && Sound(chain, contract, paged, db) && HonestForeign(chain, paged, f)
    ensures Sound(chain, contract, paged, Happens(db, contract, f))
  {
    hide Sound, ApplyBatch, PageOf, Increasing;
    match f {
      case OtherEnsure =>
        if db.cursor.None? { FreshSound(chain, contract, paged, db); }
      case OtherCommit(page, last, scanned) =>
        if ApplyBatch(db, contract, Sorted(page.events), page, last, scanned).Ok? {
          CommitSound(chain, contract, paged, db, page, last, scanned);
        }
      case OtherReset => FreshSound(chain, contract, paged, ResetAll(db));
    }
  }

  lemma {:induction false} AllForeignSound(chain: seq<Delivered>, contract: Address, paged: bool, db: Database,
                                           fs: seq<Foreign>)
    requires Increasing(chain) && Sound(chain, contract, paged, db)
    requires forall i | 0 <= i < |fs| :: HonestForeign(chain, paged, fs[i])
    ensures Sound(chain, contract, paged, AllHappen(db, contract, fs))
    decreases |fs|
  {
    hide Sound, Happens, HonestForeign, Increasing;
    if fs != [] {
      ForeignSound(chain, contract, paged, db, fs[0]);
      AllForeignSound(chain, contract, paged, Happens(db, contract, fs[0]), fs[1..]);
    }
  }

  lemma IterationSound(chain: seq<Delivered>, contract: Address, paged: bool, x: Loop, turn: Turn)
    requires Increasing(chain) && Sound(chain, contract, paged, x.db) && Honest(chain, paged, turn)
    ensures Sound(chain, contract, paged, Iterate(x, contract, turn).0.db)
  {
    hide Sound, AllHappen, ApplyBatch, PageOf, Increasing, Changes, HonestForeign;
    var db0 := AllHappen(x.db, contract, turn.before);
    AllForeignSound(chain, contract, paged, x.db, turn.before);
    if db0.cursor.None? { FreshSound(chain, contract, paged, db0); }
    var db := EnsureCursor(db0);
    var cursor := db.cursor.value;
    AllForeignSound(chain, contract, paged, db, turn.between);
    var later := AllHappen(db, contract, turn.between);
    var answer := turn.node(cursor.lastEventId);
    if answer.Some? {
      var page := answer.value;
      if ApplyBatch(later, contract, Sorted(page.events), page, cursor.lastEventId, cursor.scannedThrough).Ok? {
        CommitSound(chain, contract, paged, later, page, cursor.lastEventId, cursor.scannedThrough);
      }
    }
  }

  /** Whatever others do meanwhile, a catch-up leaves the database exactly-once. */
  lemma {:induction false} CatchUpIsSound(chain: seq<Delivered>, contract: Address, paged: bool, x: Loop, maxPages: nat,
                                          turns: seq<Turn>)
    requires Increasing(chain) && Sound(chain, contract, paged, x.db)
    requires forall i | 0 <= i < |turns| :: Honest(chain, paged, turns[i])
    ensures Sound(chain, contract, paged, Run(x, contract, maxPages, turns).0.db)
    decreases |turns|
  {
    hide Sound, Iterate, Honest, Increasing;
    if x.page < maxPages && turns != [] {
      IterationSound(chain, contract, paged, x, turns[0]);
      CatchUpIsSound(chain, contract, paged, Iterate(x, contract, turns[0]).0, maxPages, turns[1..]);
    }
  }

  // ---- when the loop stops, and what it may then say ------------------------------------------------

  /** The node has nothing after the cursor that was read, and the checkpoint is still the one that was read. */
  predicate EmptyCommit(x: Loop, contract: Address, turn: Turn) {
    var db := EnsureCursor(AllHappen(x.db, contract, turn.before));
    var answer := turn.node(db.cursor.value.lastEventId);
    && answer.Some? && answer.value.events == []
    && SameCheckpoint(db, AllHappen(db, contract, turn.between))
  }

  lemma IterationCatchesUp(x: Loop, contract: Address, turn: Turn)
    ensures Iterate(x, contract, turn).1.CaughtUp? <==> EmptyCommit(x, contract, turn)
    ensures Iterate(x, contract, turn).1.Continue? && Iterate(x, contract, turn).0.page > x.page ==>
              var db := EnsureCursor(AllHappen(x.db, contract, turn.before));
              var answer := turn.node(db.cursor.value.lastEventId);
              answer.Some? && answer.value.events != []
  {
    hide AllHappen, Ingest, Insert, Changes;
    var db := EnsureCursor(AllHappen(x.db, contract, turn.before));
    var answer := turn.node(db.cursor.value.lastEventId);
    if answer.Some? {
      SortedSorts(answer.value.events);
      NoEvents(Sorted(answer.value.events), answer.value.events);
      hide Sorted;
      if answer.value.events == [] {
        IngestNothing(AllHappen(db, contract, turn.between).derived, contract, Sorted(answer.value.events));
      }
    }
  }

  lemma IngestNothing(x: Derived, contract: Address, ds: seq<Delivered>)
    requires ds == []
    ensures IngestAll(x, contract, ds) == Ok((x, NO_TALLY))
  {
  }

  /** The iterations of a run: where the loop is before each and after the last, and what each one says. */
  predicate Played(xs: seq<Loop>, vs: seq<Verdict>, contract: Address, turns: seq<Turn>) {
    && |xs| == |vs| + 1 && |vs| <= |turns|
    && forall i | 0 <= i < |vs| :: (xs[i + 1], vs[i]) == Iterate(xs[i], contract, turns[i])
  }

  /** A run goes on after every iteration that says so, while pages are left to fetch and turns to play, and stops at
      the first that does not; what it says is what its last iteration said. */
  lemma {:induction false} RunPlays(x: Loop, contract: Address, maxPages: nat, turns: seq<Turn>)
    returns (xs: seq<Loop>, vs: seq<Verdict>)
    ensures Played(xs, vs, contract, turns) && xs[0] == x
    ensures Run(x, contract, maxPages, turns) == (xs[|vs|], if vs == [] then Continue else vs[|vs| - 1])
    ensures forall i | 0 <= i < |vs| :: xs[i].page < maxPages && (i + 1 < |vs| ==> vs[i].Continue?)
    ensures (vs == [] || vs[|vs| - 1].Continue?) ==> xs[|vs|].page >= maxPages || |vs| == |turns|
    decreases |turns|
  {
    hide Iterate;
    if x.page >= maxPages || turns == [] {
      xs, vs := [x], [];
    } else {
      var (y, verdict) := Iterate(x, contract, turns[0]);
      if verdict.Continue? {
        var ys, ws := RunPlays(y, contract, maxPages, turns[1..]);
        xs, vs := [x] + ys, [verdict] + ws;
        forall i | 0 <= i < |vs| ensures (xs[i + 1], vs[i]) == Iterate(xs[i], contract, turns[i]) {
          if i > 0 {
            assert ys[i] == xs[i + 1] && turns[1..][i - 1] == turns[i];
          }
        }
      } else {
        xs, vs := [x, y], [verdict];
      }
    }
  }

  /** A catch-up says that it caught up if and only if its last iteration committed a page without events; no earlier
      one did; and one that neither caught up nor failed has used up its pages or its turns. */
  lemma CaughtUpIsExact(x: Loop, contract: Address, maxPages: nat, turns: seq<Turn>)
    returns (xs: seq<Loop>, vs: seq<Verdict>)
    ensures Played(xs, vs, contract, turns) && xs[0] == x && Run(x, contract, maxPages, turns).0 == xs[|vs|]
    ensures var verdict := Run(x, contract, maxPages, turns).1; var n := |vs|;
            && (verdict.CaughtUp? <==> n > 0 && EmptyCommit(xs[n - 1], contract, turns[n - 1]))
            && (forall i | 0 <= i < n - 1 :: !EmptyCommit(xs[i], contract, turns[i]))
            && (verdict.Continue? ==> xs[n].page >= maxPages || n == |turns|)
  {
    hide Run, Iterate, EmptyCommit;
    xs, vs := RunPlays(x, contract, maxPages, turns);
    forall i | 0 <= i < |vs| ensures vs[i].CaughtUp? <==> EmptyCommit(xs[i], contract, turns[i]) {
      assert (xs[i + 1], vs[i]) == Iterate(xs[i], contract, turns[i]);
      IterationCatchesUp(xs[i], contract, turns[i]);
    }
  }

  // ---- and what it means --------------------------------------------------------------------------

  /** The node has nothing more only where the chain has nothing more. */
  ghost predicate EndsWithChain(chain: seq<Delivered>, turn: Turn) {
    forall from :: turn.node(from).Some? && turn.node(from).value.events == [] ==> PlaceOf(chain, from) == |chain|
  }

  lemma EmptyCommitArrives(chain: seq<Delivered>, contract: Address, x: Loop, turn: Turn)
    requires Increasing(chain) && Sound(chain, contract, true, x.db) && Honest(chain, true, turn)
    requires EndsWithChain(chain, turn) && EmptyCommit(x, contract, turn)
    ensures At(chain, contract, Iterate(x, contract, turn).0.db, |chain|, true)
  {
    hide At, AllHappen, IngestAll, Sorted, Increasing, Changes, HonestForeign, PageOf, PlaceOf;
    var before := AllHappen(x.db, contract, turn.before);
    AllForeignSound(chain, contract, true, x.db, turn.before);
    if before.cursor.None? { FreshSound(chain, contract, true, before); }
    var db := EnsureCursor(before);
    AllForeignSound(chain, contract, true, db, turn.between);
    var later := AllHappen(db, contract, turn.between);
    var cursor := db.cursor.value;
    var page := turn.node(cursor.lastEventId).value;
    IterationCatchesUp(x, contract, turn);
    var p :| At(chain, contract, later, p, true);
    StandsAt(chain, contract, later, p);
    var q := CommitKeeps(chain, contract, later, p, true, page, cursor.lastEventId, cursor.scannedThrough);
    WithinChain(chain, contract, Iterate(x, contract, turn).0.db, q);
  }

  lemma StandsAt(chain: seq<Delivered>, contract: Address, db: Database, p: nat)
    requires At(chain, contract, db, p, true)
    ensures p <= |chain| && (db.cursor.Some? ==> PlaceOf(chain, db.cursor.value.lastEventId) == p)
  {
    hide Rebuilt, StoredIs, PlaceOf;
  }

  lemma WithinChain(chain: seq<Delivered>, contract: Address, db: Database, q: nat)
    requires At(chain, contract, db, q, true)
    ensures q <= |chain|
  {
    hide Rebuilt, StoredIs, PlaceOf;
  }

  /** Whatever others do meanwhile, and provided the node has nothing more only where the chain has nothing more, a
      catch-up that says it caught up leaves every event of the chain stored, each once, with its tables. */
  lemma {:induction false} CaughtUpMeansAll(chain: seq<Delivered>, contract: Address, x: Loop, maxPages: nat,
                                           turns: seq<Turn>)
    requires Increasing(chain) && Sound(chain, contract, true, x.db)
    requires forall i | 0 <= i < |turns| :: Honest(chain, true, turns[i]) && EndsWithChain(chain, turns[i])
    requires Run(x, contract, maxPages, turns).1.CaughtUp?
    ensures At(chain, contract, Run(x, contract, maxPages, turns).0.db, |chain|, true)
    decreases |turns|
  {
    hide Sound, Iterate, Honest, Increasing, At, EndsWithChain, EmptyCommit;
    assert x.page < maxPages && turns != [];
    IterationCatchesUp(x, contract, turns[0]);
    if Iterate(x, contract, turns[0]).1.Continue? {
      IterationSound(chain, contract, true, x, turns[0]);
      CaughtUpMeansAll(chain, contract, Iterate(x, contract, turns[0]).0, maxPages, turns[1..]);
    } else {
      EmptyCommitArrives(chain, contract, x, turns[0]);
    }
  }
}
