/** The order of the chain's events: comparing their places agrees with comparing their ids as plain strings. */
module EventOrder {
  import opened Wrappers

  // ---- strings --------------------------------------------------------------------------------

  /** JavaScript's `<` on strings. */
  predicate Less(a: string, b: string) {
    b != [] && (a == [] || a[0] < b[0] || (a[0] == b[0] && Less(a[1..], b[1..])))
  }

  lemma {:induction false} LessConcat(a: string, b: string, c: string, d: string)
    requires |a| == |b|
    ensures Less(a + c, b + d) <==> Less(a, b) || (a == b && Less(c, d))
  {
    if a == [] {
      assert a + c == c && b + d == d;
    } else {
      assert (a + c)[1..] == a[1..] + c && (b + d)[1..] == b[1..] + d;
      LessConcat(a[1..], b[1..], c, d);
      assert a == [a[0]] + a[1..] && b == [b[0]] + b[1..];
    }
  }

  function Digit(n: nat): char
    requires n < 10
  {
    '0' + n as char
  }

  function Power(n: nat): nat {
    if n == 0 then 1 else 10 * Power(n - 1)
  }

  /** `n` in decimal, padded with zeros to `width` digits. */
  function Padded(n: nat, width: nat): (s: string)
    ensures |s| == width
  {
    if width == 0 then [] else Padded(n / 10, width - 1) + [Digit(n % 10)]
  }

  /** Numbers of the same width compare as their digits do. */
  lemma {:induction false} PaddedOrder(m: nat, n: nat, width: nat)
    requires m < Power(width) && n < Power(width)
    ensures Less(Padded(m, width), Padded(n, width)) <==> m < n
    ensures Padded(m, width) == Padded(n, width) <==> m == n
  {
    if width > 0 {
      PaddedOrder(m / 10, n / 10, width - 1);
      var a, b := Padded(m / 10, width - 1), Padded(n / 10, width - 1);
      var c, d := [Digit(m % 10)], [Digit(n % 10)];
      LessConcat(a, b, c, d);
      assert Less(c, d) <==> m % 10 < n % 10 by {
        assert c[1..] == [] && d[1..] == [];
      }
      if a + c == b + d {
        assert a == (a + c)[..|a|] == (b + d)[..|b|] == b;
        assert (a + c)[|a|] == (b + d)[|b|];
      }
    }
  }

  // ---- ids ------------------------------------------------------------------------------------

  const TOID_DIGITS := 19
  const INDEX_DIGITS := 10

  /** Where in the chain an event happened: the ledger, the transaction in it, the operation in that, the event in
      that. Its id says so. */
  datatype Spot = Spot(ledger: nat, transaction: nat, operation: nat, event: nat)

  /** The ranges of the id's layout. */
  predicate InLayout(s: Spot) {
    s.ledger < 0x8000_0000 && s.transaction < 0x10_0000 && s.operation < 0x1000 && s.event < 10_000_000_000
  }

  /** The total order id of SEP-35: 32 bits of ledger, 20 of transaction, 12 of operation. */
  function Toid(s: Spot): nat {
    s.ledger * 0x1_0000_0000 + s.transaction * 0x1000 + s.operation
  }

  function FormatId(toid: nat, eventIndex: nat): string {
    Padded(toid, TOID_DIGITS) + "-" + Padded(eventIndex, INDEX_DIGITS)
  }

  function IdOf(s: Spot): string {
    FormatId(Toid(s), s.event)
  }

  /** The spot as one number: what `Delivered.id` stands for. */
  function Rank(s: Spot): nat {
    Toid(s) * 10_000_000_000 + s.event
  }

  /** What the node says about an event's place. Older nodes leave out the two indexes. */
  datatype Raw = Raw(id: string, ledger: nat, transactionIndex: Option<nat>, operationIndex: Option<nat>)

  /** The place as decoded: an index that is left out reads as zero. */
  datatype Place = Place(ledger: nat, txIndex: nat, operationIndex: nat, eventIndex: nat, eventId: string)

  function OrZero(index: Option<nat>): nat {
    if index.Some? then index.value else 0
  }

  /** `None` where decoding throws. */
  function Decode(raw: Raw): Option<Place> {
    var parsed := ParseEventId(raw.id);
    if parsed.None? then None
    else Some(Place(raw.ledger, OrZero(raw.transactionIndex), OrZero(raw.operationIndex), parsed.value.1, raw.id))
  }

  /** The id is well-formed, and whatever else the node says agrees with it. */
  predicate Names(raw: Raw, s: Spot) {
    && InLayout(s) && raw.id == IdOf(s) && raw.ledger == s.ledger
    && (raw.transactionIndex.Some? ==> raw.transactionIndex.value == s.transaction)
    && (raw.operationIndex.Some? ==> raw.operationIndex.value == s.operation)
  }

  predicate CarriesIndexes(raw: Raw) {
    raw.transactionIndex.Some? && raw.operationIndex.Some?
  }

  predicate LacksIndexes(raw: Raw) {
    raw.transactionIndex.None? && raw.operationIndex.None?
  }

  function CompareEventOrder(a: Place, b: Place): int {
    if a.ledger != b.ledger then (if a.ledger < b.ledger then -1 else 1)
    else if a.txIndex != b.txIndex then a.txIndex - b.txIndex
    else if a.operationIndex != b.operationIndex then a.operationIndex - b.operationIndex
    else if a.eventIndex != b.eventIndex then a.eventIndex - b.eventIndex
    else if Less(a.eventId, b.eventId) then -1
    else if Less(b.eventId, a.eventId) then 1
    else 0
  }

  lemma {:induction false} LessIsOrder(a: string, b: string, c: string)
    ensures !(Less(a, b) && Less(b, a))
    ensures Less(a, b) || Less(b, a) || a == b
    ensures Less(a, b) && Less(b, c) ==> Less(a, c)
  {
    if a != [] && b != [] {
      LessIsOrder(a[1..], b[1..], if c == [] then [] else c[1..]);
      assert a == [a[0]] + a[1..] && b == [b[0]] + b[1..];
    }
  }

  /** On any events at all the comparison is a strict total order up to equal places. */
  lemma CompareIsOrder(a: Place, b: Place, c: Place)
    ensures CompareEventOrder(a, b) < 0 <==> CompareEventOrder(b, a) > 0
    ensures CompareEventOrder(a, b) == 0 <==> a == b
    ensures CompareEventOrder(a, b) < 0 && CompareEventOrder(b, c) < 0 ==> CompareEventOrder(a, c) < 0
  {
    LessIsOrder(a.eventId, b.eventId, c.eventId);
    LessIsOrder(b.eventId, a.eventId, c.eventId);
  }

  lemma AtMostIsTransitive(a: Place, b: Place, c: Place)
    requires CompareEventOrder(a, b) <= 0 && CompareEventOrder(b, c) <= 0
    ensures CompareEventOrder(a, c) <= 0
  {
    hide CompareEventOrder;
    CompareIsOrder(a, b, c);
    CompareIsOrder(b, c, a);
  }

  lemma Digits()
    ensures Power(TOID_DIGITS) == 10_000_000_000_000_000_000 && Power(INDEX_DIGITS) == 10_000_000_000
  {
    assert Power(5) == 100_000;
    assert Power(10) == 10_000_000_000;
    assert Power(15) == 1_000_000_000_000_000;
  }

  lemma ToidsCompare(s: Spot, t: Spot)
    requires InLayout(s) && InLayout(t)
    ensures Toid(s) < Toid(t) <==>
            || s.ledger < t.ledger
            || (s.ledger == t.ledger && s.transaction < t.transaction)
            || (s.ledger == t.ledger && s.transaction == t.transaction && s.operation < t.operation)
    ensures Toid(s) == Toid(t) <==>
            s.ledger == t.ledger && s.transaction == t.transaction && s.operation == t.operation
  {
  }

  /** Well-formed ids compare as strings, as the row guards compare them, in the order of the chain. */
  lemma IdsFollowChain(s: Spot, t: Spot)
    requires InLayout(s) && InLayout(t)
    ensures Less(IdOf(s), IdOf(t)) <==> Rank(s) < Rank(t)
    ensures Rank(s) < Rank(t) <==> Toid(s) < Toid(t) || (Toid(s) == Toid(t) && s.event < t.event)
    ensures IdOf(s) == IdOf(t) <==> s == t
    ensures Rank(s) == Rank(t) <==> s == t
  {
    Digits();
    PaddedOrder(Toid(s), Toid(t), TOID_DIGITS);
    PaddedOrder(s.event, t.event, INDEX_DIGITS);
    IdsCompare(Padded(Toid(s), TOID_DIGITS), Padded(Toid(t), TOID_DIGITS),
               Padded(s.event, INDEX_DIGITS), Padded(t.event, INDEX_DIGITS));
    ToidsCompare(s, t);
  }

  lemma DecodeReads(raw: Raw, s: Spot)
    requires Names(raw, s)
    ensures Decode(raw) ==
            Some(Place(s.ledger, OrZero(raw.transactionIndex), OrZero(raw.operationIndex), s.event, raw.id))
  {
    ParseReadsFormat(s);
  }

  // ---- when the comparison is the chain's order ---------------------------------------------------

  /** In one ledger, what is decoded of `a` comes after what is decoded of `b`. */
  predicate Overtakes(a: Place, b: Place) {
    && a.ledger == b.ledger
    && (|| a.txIndex > b.txIndex
        || (a.txIndex == b.txIndex && a.operationIndex > b.operationIndex)
        || (a.txIndex == b.txIndex && a.operationIndex == b.operationIndex && a.eventIndex > b.eventIndex))
  }

  /** Of two events that happened one after the other, the comparison puts the first first if and only if they are of
      two ledgers or the decoded indexes of the first do not overtake those of the second. */
  lemma OrdersAgreeExactly(a: Raw, b: Raw, s: Spot, t: Spot)
    requires Names(a, s) && Names(b, t) && Rank(s) < Rank(t)
    ensures Decode(a).Some? && Decode(b).Some? && Less(a.id, b.id)
    ensures CompareEventOrder(Decode(a).value, Decode(b).value) < 0 <==> !Overtakes(Decode(a).value, Decode(b).value)
  {
    hide Rank;
    DecodeReads(a, s);
    DecodeReads(b, t);
    IdsFollowChain(s, t);
    ToidsCompare(s, t);
    LessIsOrder(a.id, b.id, a.id);
  }

  /** Nothing that carries its indexes overtakes anything that does. */
  lemma CarriedNeverOvertakes(a: Raw, b: Raw, s: Spot, t: Spot)
    requires Names(a, s) && Names(b, t) && Rank(s) < Rank(t) && CarriesIndexes(a) && CarriesIndexes(b)
    ensures Decode(a).Some? && Decode(b).Some? && !Overtakes(Decode(a).value, Decode(b).value)
  {
    hide Rank;
    DecodeReads(a, s);
    DecodeReads(b, t);
    IdsFollowChain(s, t);
    ToidsCompare(s, t);
  }

  /** Without the indexes two events of one ledger are put the wrong way round exactly if the earlier one, by
      transaction and operation, has the larger event index. */
  lemma LackingOvertakesExactly(a: Raw, b: Raw, s: Spot, t: Spot)
    requires Names(a, s) && Names(b, t) && Rank(s) < Rank(t) && LacksIndexes(a) && LacksIndexes(b)
    ensures Decode(a).Some? && Decode(b).Some?
    ensures Overtakes(Decode(a).value, Decode(b).value) <==>
            s.ledger == t.ledger && Toid(s) < Toid(t) && s.event > t.event
  {
    hide Rank;
    DecodeReads(a, s);
    DecodeReads(b, t);
    IdsFollowChain(s, t);
    ToidsCompare(s, t);
  }

  /** When only the later event lacks them, the earlier one overtakes it unless it is in the ledger's very first
      place and has no larger event index. */
  lemma LaterLackingOvertakesExactly(a: Raw, b: Raw, s: Spot, t: Spot)
    requires Names(a, s) && Names(b, t) && Rank(s) < Rank(t) && CarriesIndexes(a) && LacksIndexes(b)
    ensures Decode(a).Some? && Decode(b).Some?
    ensures Overtakes(Decode(a).value, Decode(b).value) <==>
            s.ledger == t.ledger && !(s.transaction == 0 && s.operation == 0 && s.event <= t.event)
  {
    hide Rank;
    DecodeReads(a, s);
    DecodeReads(b, t);
  }

  /** When only the earlier one does, it overtakes only an event in the ledger's very first place. */
  lemma EarlierLackingOvertakesExactly(a: Raw, b: Raw, s: Spot, t: Spot)
    requires Names(a, s) && Names(b, t) && Rank(s) < Rank(t) && LacksIndexes(a) && CarriesIndexes(b)
    ensures Decode(a).Some? && Decode(b).Some?
    ensures Overtakes(Decode(a).value, Decode(b).value) <==>
            s.ledger == t.ledger && t.transaction == 0 && t.operation == 0 && s.event > t.event
  {
    hide Rank;
    DecodeReads(a, s);
    DecodeReads(b, t);
  }

  /** The event with index three of a ledger's first transaction and the one with index zero of its second, both
      without indexes: their ids are in order, the comparison is not. */
  lemma OrdersCanDisagree()
    ensures var s, t := Spot(5, 1, 0, 3), Spot(5, 2, 0, 0);
            var a, b := Raw(IdOf(s), 5, None, None), Raw(IdOf(t), 5, None, None);
            && Names(a, s) && Names(b, t) && Less(a.id, b.id)
            && Decode(a).Some? && Decode(b).Some? && CompareEventOrder(Decode(a).value, Decode(b).value) > 0
  {
    hide IdOf;
    var s, t := Spot(5, 1, 0, 3), Spot(5, 2, 0, 0);
    var a, b := Raw(IdOf(s), 5, None, None), Raw(IdOf(t), 5, None, None);
    DecodeReads(a, s);
    DecodeReads(b, t);
    IdsFollowChain(s, t);
  }

  lemma IdsCompare(s: string, t: string, i: string, j: string)
    requires |s| == |t| && |i| == |j|
    ensures Less(s + "-" + i, t + "-" + j) <==> Less(s, t) || (s == t && Less(i, j))
    ensures s + "-" + i == t + "-" + j <==> s == t && i == j
  {
    LessConcat(s + "-", t + "-", i, j);
    LessConcat(s, t, "-", "-");
    assert !Less("-", "-") by { assert "-"[1..] == []; }
    if s + "-" == t + "-" {
      assert s == (s + "-")[..|s|] == (t + "-")[..|t|] == t;
    }
    if s + "-" + i == t + "-" + j {
      assert s == (s + "-" + i)[..|s|] == (t + "-" + j)[..|t|] == t;
      assert i == (s + "-" + i)[|s| + 1..] == (t + "-" + j)[|t| + 1..] == j;
    }
  }

  // ---- reading an id back -----------------------------------------------------------------------

  predicate IsDigit(c: char) {
    '0' <= c <= '9'
  }

  predicate AllDigits(s: string) {
    forall i | 0 <= i < |s| :: IsDigit(s[i])
  }

  function ReadDigits(s: string): nat
    requires AllDigits(s)
  {
    if s == [] then 0 else 10 * ReadDigits(s[..|s| - 1]) + (s[|s| - 1] - '0') as nat
  }

  function FindDash(s: string): nat {
    if s == [] || s[0] == '-' then 0 else 1 + FindDash(s[1..])
  }

  /** One or more digits, a dash, one or more digits, and nothing else. */
  function ParseEventId(id: string): Option<(nat, nat)> {
    var k := FindDash(id);
    if 0 < k && k + 1 < |id| && AllDigits(id[..k]) && AllDigits(id[k + 1..])
    then Some((ReadDigits(id[..k]), ReadDigits(id[k + 1..])))
    else None
  }

  lemma {:induction false} ReadPadded(n: nat, width: nat)
    requires n < Power(width)
    ensures AllDigits(Padded(n, width)) && ReadDigits(Padded(n, width)) == n
  {
    if width > 0 {
      ReadPadded(n / 10, width - 1);
      var s := Padded(n, width);
      assert s[..|s| - 1] == Padded(n / 10, width - 1);
    }
  }

  lemma {:induction false} DashAfter(s: string, rest: string)
    requires AllDigits(s)
    ensures FindDash(s + "-" + rest) == |s|
  {
    if s == [] {
      assert s + "-" + rest == "-" + rest;
    } else {
      assert (s + "-" + rest)[1..] == s[1..] + "-" + rest;
      DashAfter(s[1..], rest);
    }
  }

  /** The parser accepts exactly digits, a dash and digits, whatever their number, and reads the two numbers. */
  lemma ParseIsExact(id: string)
    ensures ParseEventId(id).Some? <==>
            exists k :: 0 < k && k + 1 < |id| && id[k] == '-' && AllDigits(id[..k]) && AllDigits(id[k + 1..])
    ensures forall k | 0 < k && k + 1 < |id| && id[k] == '-' && AllDigits(id[..k]) && AllDigits(id[k + 1..]) ::
              ParseEventId(id) == Some((ReadDigits(id[..k]), ReadDigits(id[k + 1..])))
  {
    hide ReadDigits;
    DashIsFound(id);
    forall k | 0 < k && k + 1 < |id| && id[k] == '-' && AllDigits(id[..k]) && AllDigits(id[k + 1..])
      ensures k == FindDash(id)
    {
      assert id == id[..k] + "-" + id[k + 1..];
      DashAfter(id[..k], id[k + 1..]);
    }
  }

  lemma {:induction false} DashIsFound(s: string)
    ensures FindDash(s) <= |s| && (FindDash(s) < |s| ==> s[FindDash(s)] == '-')
  {
    if s != [] && s[0] != '-' {
      DashIsFound(s[1..]);
    }
  }

  /** What the layout prints, the parser reads. */
  lemma ParseReadsFormat(s: Spot)
    requires InLayout(s)
    ensures ParseEventId(IdOf(s)) == Some((Toid(s), s.event))
  {
    Digits();
    ReadPadded(Toid(s), TOID_DIGITS);
    ReadPadded(s.event, INDEX_DIGITS);
    var toid, index := Padded(Toid(s), TOID_DIGITS), Padded(s.event, INDEX_DIGITS);
    DashAfter(toid, index);
    assert (toid + "-" + index)[..|toid|] == toid && (toid + "-" + index)[|toid| + 1..] == index;
  }
}
