/** Events of reverted calls and events this build does not know: they are stored, and never reach the tables. */
module Skipped {
  import opened Wrappers
  import opened Types
  import opened Runs
  import opened Projector
  import opened Coupling
  import opened Replay
  import opened Indexer

  /** The event of a call that succeeded, under a name this build knows. */
  predicate Applies(d: Delivered) {
    d.successful && d.body.Some?
  }

  function Applied(ds: seq<Delivered>): seq<Delivered> {
    if ds == [] then []
    else (if Applies(ds[0]) then [ds[0]] else []) + Applied(ds[1..])
  }

  lemma {:induction false} AppliedConcat(a: seq<Delivered>, b: seq<Delivered>)
    ensures Applied(a + b) == Applied(a) + Applied(b)
  {
    if a == [] {
      assert a + b == b;
    } else {
      assert (a + b)[1..] == a[1..] + b;
      AppliedConcat(a[1..], b);
    }
  }

  lemma {:induction false} AppliedAre(ds: seq<Delivered>, d: Delivered)
    ensures d in Applied(ds) <==> d in ds && Applies(d)
    ensures |Applied(ds)| <= |ds|
  {
    if ds != [] {
      AppliedAre(ds[1..], d);
      assert d in ds <==> d == ds[0] || d in ds[1..];
    }
  }

  lemma {:induction false} AllApplied(ds: seq<Delivered>)
    requires forall d | d in ds :: Applies(d)
    ensures Applied(ds) == ds
  {
    if ds != [] {
      AllApplied(ds[1..]);
    }
  }

  /** What is projected of the first events is the first of what is projected. */
  lemma AppliedPrefix(ds: seq<Delivered>, p: nat)
    requires p <= |ds|
    ensures Applied(ds[..p]) <= Applied(ds)
  {
    assert ds == ds[..p] + ds[p..];
    AppliedConcat(ds[..p], ds[p..]);
  }

  // ---- one event, and many ----------------------------------------------------------------------

  /** On any tables, an event of a reverted call or of an unknown name projects to nothing. */
  lemma SkippedProjectsNothing(db: ReadModels, d: Delivered)
    requires !Applies(d)
    ensures Project(db, d) == Ok((db, false))
  {
  }

  /** On any tables, folding any events is folding those that apply: the others change nothing and throw nothing. */
  lemma {:induction false} FoldSkips(db: ReadModels, ds: seq<Delivered>)
    ensures Fold(db, ds) == Fold(db, Applied(ds))
    decreases |ds|
  {
    hide Project;
    if ds != [] {
      if Applies(ds[0]) {
        assert Applied(ds)[1..] == Applied(ds[1..]);
        if Project(db, ds[0]).Ok? {
          FoldSkips(Project(db, ds[0]).value.0, ds[1..]);
        }
      } else {
        SkippedProjectsNothing(db, ds[0]);
        assert Applied(ds) == Applied(ds[1..]);
        FoldSkips(db, ds[1..]);
      }
    }
  }

  /** Every projection reports that it projected something exactly for the events that apply. */
  predicate FlagsTell(db: ReadModels, ds: seq<Delivered>)
    decreases |ds|
  {
    ds == []
    || (&& Project(db, ds[0]).Ok? && (Project(db, ds[0]).value.1 <==> Applies(ds[0]))
        && FlagsTell(Project(db, ds[0]).value.0, ds[1..]))
  }

  lemma {:induction false} FlagsFollow(db: ReadModels, ds: seq<Delivered>)
    requires AllProjected(db, Applied(ds))
    ensures FlagsTell(db, ds)
    decreases |ds|
  {
    hide Project;
    if ds != [] {
      if Applies(ds[0]) {
        assert Applied(ds)[1..] == Applied(ds[1..]);
        FlagsFollow(Project(db, ds[0]).value.0, ds[1..]);
      } else {
        SkippedProjectsNothing(db, ds[0]);
        assert Applied(ds) == Applied(ds[1..]);
        FlagsFollow(db, ds[1..]);
      }
    }
  }

  // ---- a page -----------------------------------------------------------------------------------

  /** Two databases with the same tables and counters that agree on which of these events are stored. */
  predicate AlikeFor(x: Derived, y: Derived, ds: seq<Delivered>) {
    && x.rows == y.rows && x.daily == y.daily
    && forall d | d in ds :: d.id in x.stored <==> d.id in y.stored
  }

  lemma IngestSkipped(x: Derived, contract: Address, d: Delivered)
    requires !Applies(d) && d.contract == contract
    ensures Ingest(x, contract, d).Ok?
    ensures var y := Ingest(x, contract, d).value.0;
            y.rows == x.rows && y.daily == x.daily && y.stored.Keys == x.stored.Keys + {d.id}
  {
    hide ProjectKnown;
  }

  lemma IngestAlike(x: Derived, y: Derived, contract: Address, d: Delivered)
    requires x.rows == y.rows && x.daily == y.daily && (d.id in x.stored <==> d.id in y.stored)
    ensures Ingest(x, contract, d).Ok? <==> Ingest(y, contract, d).Ok?
    ensures Ingest(x, contract, d).Ok? ==>
              var a := Ingest(x, contract, d).value; var b := Ingest(y, contract, d).value;
              && a.0.rows == b.0.rows && a.0.daily == b.0.daily && a.1 == b.1
              && a.0.stored.Keys == x.stored.Keys + {d.id} && b.0.stored.Keys == y.stored.Keys + {d.id}
  {
    hide Project;
  }

  /** Ingesting any page of the contract's events leaves the same nine tables and the same daily counters as ingesting
      only those that apply, and is refused exactly if that is. */
  lemma {:induction false} IngestOnlyApplied(x: Derived, y: Derived, contract: Address, ds: seq<Delivered>)
    requires Apart(ds) && AlikeFor(x, y, ds) && forall d | d in ds :: d.contract == contract
    ensures IngestAll(x, contract, ds).Ok? <==> IngestAll(y, contract, Applied(ds)).Ok?
    ensures IngestAll(x, contract, ds).Ok? ==>
              var a := IngestAll(x, contract, ds).value.0; var b := IngestAll(y, contract, Applied(ds)).value.0;
              a.rows == b.rows && a.daily == b.daily
    decreases |ds|
  {
    hide Ingest, Apart, Applies;
    if ds != [] {
      FirstApart(ds);
      IdsApart(ds);
      if Applies(ds[0]) {
        assert Applied(ds)[0] == ds[0] && Applied(ds)[1..] == Applied(ds[1..]);
        IngestAlike(x, y, contract, ds[0]);
        if Ingest(x, contract, ds[0]).Ok? {
          IngestOnlyApplied(Ingest(x, contract, ds[0]).value.0, Ingest(y, contract, ds[0]).value.0, contract, ds[1..]);
        }
      } else {
        IngestSkipped(x, contract, ds[0]);
        assert Applied(ds) == Applied(ds[1..]);
        IngestOnlyApplied(Ingest(x, contract, ds[0]).value.0, y, contract, ds[1..]);
      }
    }
  }

  lemma IdsApart(ds: seq<Delivered>)
    requires ds != [] && ds[0].id !in Ids(ds[1..])
    ensures forall d | d in ds[1..] :: d.id != ds[0].id
  {
    forall d | d in ds[1..] ensures d.id != ds[0].id {
      var i :| 0 <= i < |ds[1..]| && ds[1..][i] == d;
      assert ds[1..][i].id in Ids(ds[1..]);
    }
  }

  // ---- the stored record ------------------------------------------------------------------------

  function FlaggedIds(stored: map<nat, StoredEvent>, ids: set<nat>): set<nat> {
    set id | id in ids && id in stored && stored[id].projected
  }

  /** How many of these events are on record as projected. */
  function Flagged(stored: map<nat, StoredEvent>, ids: set<nat>): nat {
    |FlaggedIds(stored, ids)|
  }

  lemma IngestRecordsOne(x: Derived, contract: Address, d: Delivered)
    requires Ingest(x, contract, d).Ok? && d.id !in x.stored && Project(x.rows, d).Ok?
    ensures var r := Ingest(x, contract, d).value; var flag := Project(x.rows, d).value.1;
            && r.0.rows == Project(x.rows, d).value.0
            && r.0.stored == x.stored[d.id := StoredEvent(d, flag)]
            && r.1 == Tally(1, One(flag), 0)
  {
    hide Project;
  }

  /** Each new event is put on record as it came, as projected exactly if it applies; what was on record stays; and the
      tally of projected events is the number of those that apply. */
  lemma {:induction false} IngestRecords(x: Derived, contract: Address, ds: seq<Delivered>)
    requires Increasing(ds) && forall d | d in ds :: d.id !in x.stored
    requires IngestAll(x, contract, ds).Ok? && FlagsTell(x.rows, ds)
    ensures var r := IngestAll(x, contract, ds).value;
            && (forall d | d in ds :: d.id in r.0.stored && r.0.stored[d.id] == StoredEvent(d, Applies(d)))
            && (forall id | id in x.stored :: id in r.0.stored && r.0.stored[id] == x.stored[id])
            && r.1.projected == |Applied(ds)| && r.1.ingested == |ds| && r.1.duplicates == 0
    decreases |ds|
  {
    hide Ingest, Project, Applies;
    if ds != [] {
      hide IngestAll;
      IngestFirst(x, contract, ds);
      IngestFirstTally(x, contract, ds);
      IngestRecordsOne(x, contract, ds[0]);
      LaterIds(ds);
      IngestRecords(Ingest(x, contract, ds[0]).value.0, contract, ds[1..]);
      assert forall d | d in ds :: d == ds[0] || d in ds[1..];
    }
  }

  lemma LaterIds(ds: seq<Delivered>)
    requires Increasing(ds) && ds != []
    ensures Increasing(ds[1..]) && forall d | d in ds[1..] :: d.id > ds[0].id
  {
    forall d | d in ds[1..] ensures d.id > ds[0].id {
      var i :| 0 <= i < |ds[1..]| && ds[1..][i] == d;
      assert ds[i + 1] == d;
    }
  }

  /** Successful events that were stored without being projected: what the status counts, and is degraded by. */
  function UnprojectedSuccessful(stored: map<nat, StoredEvent>): set<nat> {
    set id | id in stored && stored[id].event.successful && !stored[id].projected
  }

  /** The events of successful calls that this build does not know. */
  function UnknownIds(ds: seq<Delivered>): set<nat> {
    set i | 0 <= i < |ds| && ds[i].successful && ds[i].body.None? :: ds[i].id
  }

  lemma RecordsCountUnknown(x: Derived, ds: seq<Delivered>)
    requires forall d | d in ds :: d.id in x.stored && x.stored[d.id] == StoredEvent(d, Applies(d))
    requires forall id | id in x.stored :: exists i | 0 <= i < |ds| :: ds[i].id == id
    ensures UnprojectedSuccessful(x.stored) == UnknownIds(ds)
  {
    forall id ensures id in UnprojectedSuccessful(x.stored) <==> id in UnknownIds(ds) {
      if id in x.stored {
        var i :| 0 <= i < |ds| && ds[i].id == id;
        assert ds[i] in ds;
      }
      if id in UnknownIds(ds) {
        var i :| 0 <= i < |ds| && ds[i].successful && ds[i].body.None? && ds[i].id == id;
        assert ds[i] in ds;
      }
    }
  }

  // ---- any page, any tables -----------------------------------------------------------------------

  /** Whatever a page is sorted or does to the tables: what was on record stays as it was, and the tally of projected
      events is the number of new records that say so. */
  lemma {:induction false} IngestTallies(x: Derived, contract: Address, ds: seq<Delivered>)
    requires Apart(ds) && IngestAll(x, contract, ds).Ok?
    ensures var r := IngestAll(x, contract, ds).value;
            && (forall id | id in x.stored :: id in r.0.stored && r.0.stored[id] == x.stored[id])
            && r.1.projected == Flagged(r.0.stored, Ids(ds) - x.stored.Keys)
            && r.1.ingested + r.1.duplicates == |ds|
    decreases |ds|
  {
    hide Ingest, Ids, Apart, Flagged;
    if ds == [] {
      NoIds(ds);
      NoneFlagged(x.stored, Ids(ds) - x.stored.Keys);
    } else {
      hide IngestAll;
      IngestFirst(x, contract, ds);
      IngestFirstTally(x, contract, ds);
      FirstApart(ds);
      IdsSplit(ds);
      IngestKeys(x, contract, ds[0]);
      var first := Ingest(x, contract, ds[0]).value;
      IngestTallies(first.0, contract, ds[1..]);
      IngestOneTally(x, contract, ds[0]);
      var r := IngestAll(x, contract, ds).value;
      FlaggedSplit(r.0.stored, x.stored.Keys, ds[0].id, Ids(ds[1..]));
    }
  }

  lemma NoneFlagged(stored: map<nat, StoredEvent>, ids: set<nat>)
    requires ids == {}
    ensures Flagged(stored, ids) == 0
  {
  }

  lemma IngestFirstTally(x: Derived, contract: Address, ds: seq<Delivered>)
    requires ds != [] && IngestAll(x, contract, ds).Ok?
    ensures Ingest(x, contract, ds[0]).Ok?
    ensures var first := Ingest(x, contract, ds[0]).value; var rest := IngestAll(first.0, contract, ds[1..]);
            rest.Ok? && IngestAll(x, contract, ds).value.1 == first.1.Plus(rest.value.1)
  {
    hide Ingest;
  }

  lemma IngestOneTally(x: Derived, contract: Address, d: Delivered)
    requires Ingest(x, contract, d).Ok?
    ensures var r := Ingest(x, contract, d).value;
            && (forall id | id in x.stored :: id in r.0.stored && r.0.stored[id] == x.stored[id])
            && d.id in r.0.stored && r.1.ingested + r.1.duplicates == 1
            && r.1.projected == One(d.id !in x.stored && r.0.stored[d.id].projected)
  {
    hide Project;
  }

  lemma FlaggedSplit(stored: map<nat, StoredEvent>, keys: set<nat>, id: nat, rest: set<nat>)
    requires id !in rest && id in stored
    ensures Flagged(stored, ({id} + rest) - keys) ==
            One(id !in keys && stored[id].projected) + Flagged(stored, rest - (keys + {id}))
  {
    var whole := FlaggedIds(stored, ({id} + rest) - keys);
    var part := FlaggedIds(stored, rest - (keys + {id}));
    if id !in keys && stored[id].projected {
      assert whole == part + {id};
    } else {
      assert whole == part;
    }
  }
}
