/** When sorting a page by what was decoded of its events' places restores the chain's order, and when it does not. */
module PageOrder {
  import opened Wrappers
  import opened Types
  import opened EventOrder
  import opened Projector
  import opened Indexer
  import Pipeline

  /** A delivered event with what the node said of its place, and where it happened. */
  datatype Located = Located(event: Delivered, raw: Raw, spot: Spot)

  predicate Placed(x: Located) {
    Names(x.raw, x.spot) && Decode(x.raw) == Some(x.event.place) && x.event.id == Rank(x.spot)
  }

  predicate AllPlaced(xs: seq<Located>) {
    forall i | 0 <= i < |xs| :: Placed(xs[i])
  }

  function Events(xs: seq<Located>): (ds: seq<Delivered>)
    ensures |ds| == |xs|
    ensures forall i | 0 <= i < |xs| :: ds[i] == xs[i].event
  {
    seq(|xs|, i requires 0 <= i < |xs| => xs[i].event)
  }

  /** No event's decoded indexes overtake those of a later event of its ledger. */
  predicate NoneOvertakes(xs: seq<Located>) {
    forall i, j | 0 <= i < |xs| && 0 <= j < |xs| && Rank(xs[i].spot) < Rank(xs[j].spot) ::
      !Overtakes(xs[i].event.place, xs[j].event.place)
  }

  lemma OrderIsExact(xs: seq<Located>)
    requires AllPlaced(xs)
    ensures InPlace(Events(xs)) <==> NoneOvertakes(xs)
  {
    hide Names, Rank, Decode, CompareEventOrder, Overtakes;
    var ds := Events(xs);
    forall i, j | 0 <= i < |xs| && 0 <= j < |xs| && Rank(xs[i].spot) < Rank(xs[j].spot)
      ensures ds[i].id < ds[j].id
      ensures CompareEventOrder(ds[i].place, ds[j].place) < 0 <==> !Overtakes(xs[i].event.place, xs[j].event.place)
    {
      assert Placed(xs[i]) && Placed(xs[j]);
      OrdersAgreeExactly(xs[i].raw, xs[j].raw, xs[i].spot, xs[j].spot);
    }
    forall i, j | 0 <= i < |ds| && 0 <= j < |ds| && ds[i].id < ds[j].id
      ensures Rank(xs[i].spot) < Rank(xs[j].spot)
    {
      assert Placed(xs[i]) && Placed(xs[j]);
    }
  }

  lemma PlacedApart(xs: seq<Located>)
    requires AllPlaced(xs)
    ensures PlacesApart(Events(xs))
  {
    hide Rank, IdOf, InLayout;
    forall i, j | 0 <= i < |xs| && 0 <= j < |xs| && xs[i].event.place == xs[j].event.place
      ensures xs[i].event.id == xs[j].event.id
    {
      assert Placed(xs[i]) && Placed(xs[j]);
      DecodeReads(xs[i].raw, xs[i].spot);
      DecodeReads(xs[j].raw, xs[j].spot);
      IdsFollowChain(xs[i].spot, xs[j].spot);
    }
  }

  // ---- a page -----------------------------------------------------------------------------------

  lemma {:induction false} InsertApart(d: Delivered, ds: seq<Delivered>)
    requires Apart(ds) && forall i | 0 <= i < |ds| :: ds[i].id != d.id
    ensures Apart(Insert(d, ds))
    ensures forall i | 0 <= i < |Insert(d, ds)| :: Insert(d, ds)[i] == d || Insert(d, ds)[i] in ds
  {
    hide CompareEventOrder;
    if ds != [] {
      InsertApart(d, ds[1..]);
    }
  }

  lemma {:induction false} SortedApart(ds: seq<Delivered>)
    requires Apart(ds)
    ensures Apart(Sorted(ds)) && forall i | 0 <= i < |Sorted(ds)| :: Sorted(ds)[i] in ds
  {
    if ds != [] {
      SortedApart(ds[1..]);
      InsertApart(ds[0], Sorted(ds[1..]));
    }
  }

  lemma ApartOfBag(a: seq<Delivered>, b: seq<Delivered>)
    requires multiset(a) == multiset(b) && PlacesApart(a)
    ensures PlacesApart(b)
  {
    forall i, j | 0 <= i < |b| && 0 <= j < |b| && b[i].place == b[j].place ensures b[i].id == b[j].id {
      assert b[i] in multiset(a) && b[j] in multiset(a);
      var k :| 0 <= k < |a| && a[k] == b[i];
      var l :| 0 <= l < |a| && a[l] == b[j];
      assert a[k].place == a[l].place;
    }
  }

  /** A page of events with well-formed, distinct ids comes out of sorting in the order of the chain if and only if
      none of them overtakes a later one. */
  lemma PageComesOutInOrder(xs: seq<Located>)
    requires AllPlaced(xs) && Apart(Events(xs))
    ensures Increasing(Sorted(Events(xs))) <==> NoneOvertakes(xs)
  {
    hide AllPlaced, InPlace, NoneOvertakes, PlacesApart, Sorted, ByPlace;
    var ds := Events(xs);
    OrderIsExact(xs);
    PlacedApart(xs);
    SortedSorts(ds);
    if InPlace(ds) {
      InPlaceIsOfBag(ds, Sorted(ds));
      InPlaceAscends(Sorted(ds));
      SortedApart(ds);
    }
    if Increasing(Sorted(ds)) {
      ApartOfBag(ds, Sorted(ds));
      SortRestores(ds, Sorted(ds));
    }
  }

  /** Events that all carry their indexes never do. */
  lemma CarryingPage(xs: seq<Located>)
    requires AllPlaced(xs) && forall i | 0 <= i < |xs| :: CarriesIndexes(xs[i].raw)
    ensures NoneOvertakes(xs)
  {
    hide Names, Rank, Decode, Overtakes;
    forall i, j | 0 <= i < |xs| && 0 <= j < |xs| && Rank(xs[i].spot) < Rank(xs[j].spot)
      ensures !Overtakes(xs[i].event.place, xs[j].event.place)
    {
      assert Placed(xs[i]) && Placed(xs[j]);
      CarriedNeverOvertakes(xs[i].raw, xs[j].raw, xs[i].spot, xs[j].spot);
    }
  }

  /** Events that all lack them do exactly if, within one ledger, an event of an earlier transaction or operation has
      the larger event index; so never if every ledger on the page is there with one operation of one transaction. */
  lemma LackingPage(xs: seq<Located>)
    requires AllPlaced(xs) && forall i | 0 <= i < |xs| :: LacksIndexes(xs[i].raw)
    ensures NoneOvertakes(xs) <==>
            forall i, j | 0 <= i < |xs| && 0 <= j < |xs| && xs[i].spot.ledger == xs[j].spot.ledger
                          && Toid(xs[i].spot) < Toid(xs[j].spot) ::
              xs[i].spot.event <= xs[j].spot.event
  {
    hide Rank, Decode, Overtakes, IdOf, Toid, InLayout;
    forall i, j | 0 <= i < |xs| && 0 <= j < |xs| && xs[i].spot.ledger == xs[j].spot.ledger
      ensures Rank(xs[i].spot) < Rank(xs[j].spot) ==>
                (Overtakes(xs[i].event.place, xs[j].event.place) <==>
                 Toid(xs[i].spot) < Toid(xs[j].spot) && xs[i].spot.event > xs[j].spot.event)
      ensures Toid(xs[i].spot) < Toid(xs[j].spot) ==> Rank(xs[i].spot) < Rank(xs[j].spot)
    {
      assert Placed(xs[i]) && Placed(xs[j]);
      IdsFollowChain(xs[i].spot, xs[j].spot);
      if Rank(xs[i].spot) < Rank(xs[j].spot) {
        LackingOvertakesExactly(xs[i].raw, xs[j].raw, xs[i].spot, xs[j].spot);
      }
    }
    forall i, j | 0 <= i < |xs| && 0 <= j < |xs| && Rank(xs[i].spot) < Rank(xs[j].spot)
                  && xs[i].spot.ledger != xs[j].spot.ledger
      ensures !Overtakes(xs[i].event.place, xs[j].event.place)
    {
      assert Placed(xs[i]) && Placed(xs[j]);
      LackingOvertakesExactly(xs[i].raw, xs[j].raw, xs[i].spot, xs[j].spot);
    }
  }

  // ---- a chain ----------------------------------------------------------------------------------

  lemma SliceInPlace(chain: seq<Delivered>, i: nat, j: nat)
    requires i <= j <= |chain| && InPlace(chain)
    ensures InPlace(chain[i..j])
  {
    hide CompareEventOrder;
  }

  /** On a chain whose events never overtake each other, whatever page any worker fetches is put in order. */
  lemma OrderlyChainOrderlyPages(chain: seq<Delivered>, contract: Address, paged: bool, h: History)
    requires InPlace(chain) && h.IsHistory(chain, contract, paged)
    ensures h.InOrder()
  {
    hide InPlace, Moved;
    forall n | 0 <= n < |h.moves| && h.moves[n].FetchPage? ensures InPlace(h.moves[n].page.events) {
      var page, from := h.moves[n].page, h.states[n].Worker(h.moves[n].w).last;
      assert Possible(chain, paged, h.states[n], h.moves[n]);
      var j :| PlaceOf(chain, from) <= j <= |chain| && Covers(chain, from, page, j);
      SliceInPlace(chain, PlaceOf(chain, from), j);
      InPlaceIsOfBag(chain[PlaceOf(chain, from)..j], page.events);
    }
  }

  /** In particular if the node carries the indexes of all of the chain's events. */
  lemma CarryingChainOrderlyPages(xs: seq<Located>, contract: Address, paged: bool, h: History)
    requires AllPlaced(xs) && forall i | 0 <= i < |xs| :: CarriesIndexes(xs[i].raw)
    requires h.IsHistory(Events(xs), contract, paged)
    ensures h.InOrder()
  {
    CarryingPage(xs);
    OrderIsExact(xs);
    OrderlyChainOrderlyPages(Events(xs), contract, paged, h);
  }

  /** The ledger of an event can be read off its id. */
  lemma LedgerOfRank(x: Located)
    requires Placed(x)
    ensures Pipeline.LedgerOf(x.event) == x.spot.ledger == x.event.place.ledger
  {
    var s := x.spot;
    DecodeReads(x.raw, s);
    var rest := (s.transaction * 0x1000 + s.operation) * 10_000_000_000 + s.event;
    assert 0 <= rest < 0x1_0000_0000 * 10_000_000_000;
    assert x.event.id == s.ledger * (0x1_0000_0000 * 10_000_000_000) + rest;
  }
}
