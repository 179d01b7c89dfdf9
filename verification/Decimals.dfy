/** Exact decimal amounts: base units printed as a decimal string read back as the same integer. */
module Decimals {
  import opened Wrappers
  import opened Sums
  import opened EventOrder

  /** An integer in decimal, without leading zeros. */
  function Decimal(n: nat): (s: string)
    ensures |s| > 0
  {
    if n < 10 then [Digit(n)] else Decimal(n / 10) + [Digit(n % 10)]
  }

  function Zeros(n: nat): (s: string)
    ensures |s| == n
  {
    if n == 0 then [] else ['0'] + Zeros(n - 1)
  }

  function PadStart(s: string, width: nat): (r: string)
    ensures |r| >= width
  {
    if |s| >= width then s else Zeros(width - |s|) + s
  }

  /** Base units as a decimal string with `places` digits after the point. */
  function FromBaseUnits(total: int, places: nat): string {
    var digits := PadStart(Decimal(if total < 0 then -total else total), places + 1);
    var cut := |digits| - places;
    (if total < 0 then "-" else "") + digits[..cut] + "." + digits[cut..]
  }

  function FindPoint(s: string): (k: nat)
    ensures k <= |s|
  {
    if s == [] || s[0] == '.' then 0 else 1 + FindPoint(s[1..])
  }

  /** Splits at the point, joins the halves and reads an integer; `None` where `BigInt` would throw. */
  function ReadBaseUnits(s: string): Option<int> {
    var k := FindPoint(s);
    ReadInteger(s[..k] + if k < |s| then s[k + 1..] else [])
  }

  function ReadInteger(s: string): Option<int> {
    if s != [] && s[0] == '-' && |s| > 1 && AllDigits(s[1..]) then Some(Signed(true, ReadDigits(s[1..])))
    else if s != [] && AllDigits(s) then Some(Signed(false, ReadDigits(s)))
    else None
  }

  function Signed(negative: bool, n: int): int {
    if negative then -n else n
  }

  lemma {:induction false} ReadDecimal(n: nat)
    ensures AllDigits(Decimal(n)) && ReadDigits(Decimal(n)) == n
  {
    var s := Decimal(n);
    if n < 10 {
      assert s[..|s| - 1] == [];
    } else {
      ReadDecimal(n / 10);
      assert s[..|s| - 1] == Decimal(n / 10);
    }
  }

  lemma {:induction false} ReadZeros(n: nat, s: string)
    requires AllDigits(s)
    ensures AllDigits(Zeros(n) + s) && ReadDigits(Zeros(n) + s) == ReadDigits(s)
    decreases n, |s|
  {
    if s != [] {
      var t := Zeros(n) + s;
      ReadZeros(n, s[..|s| - 1]);
      assert t[..|t| - 1] == Zeros(n) + s[..|s| - 1];
    } else if n > 0 {
      ReadZeros(n - 1, []);
      OnlyZeros(n);
      assert Zeros(n) + s == Zeros(n) && Zeros(n - 1) + [] == Zeros(n - 1);
    } else {
      assert Zeros(n) + s == [];
    }
  }

  lemma {:induction false} OnlyZeros(n: nat)
    ensures forall i | 0 <= i < n :: Zeros(n)[i] == '0'
    ensures ReadDigits(Zeros(n)) == 0
  {
    if n > 0 {
      OnlyZeros(n - 1);
      assert Zeros(n)[..n - 1] == Zeros(n - 1);
    }
  }

  lemma {:induction false} PointAfter(s: string, rest: string)
    requires forall i | 0 <= i < |s| :: s[i] != '.'
    ensures FindPoint(s + "." + rest) == |s|
  {
    if s == [] {
      assert s + "." + rest == "." + rest;
    } else {
      assert (s + "." + rest)[1..] == s[1..] + "." + rest;
      PointAfter(s[1..], rest);
    }
  }

  lemma ReadPaddedStart(n: nat, width: nat)
    ensures AllDigits(PadStart(Decimal(n), width)) && ReadDigits(PadStart(Decimal(n), width)) == n
  {
    ReadDecimal(n);
    if |Decimal(n)| < width {
      ReadZeros(width - |Decimal(n)|, Decimal(n));
    }
  }

  lemma ReadSigned(negative: bool, digits: string)
    requires AllDigits(digits) && digits != []
    ensures ReadInteger((if negative then "-" else "") + digits) == Some(Signed(negative, ReadDigits(digits)))
  {
    hide ReadDigits;
    if negative {
      assert ("-" + digits)[1..] == digits;
    } else {
      assert "" + digits == digits && IsDigit(digits[0]);
    }
  }

  /** A string with one point in it splits into what is before and what is after. */
  lemma SplitAtPoint(whole: string, fraction: string)
    requires forall i | 0 <= i < |whole| :: whole[i] != '.'
    ensures FindPoint(whole + "." + fraction) == |whole|
    ensures ReadBaseUnits(whole + "." + fraction) == ReadInteger(whole + fraction)
  {
    hide ReadInteger;
    var s := whole + "." + fraction;
    PointAfter(whole, fraction);
    assert s[..|whole|] == whole;
    assert s[|whole| + 1..] == fraction;
  }

  lemma NoPointIn(sign: string, digits: string, cut: nat)
    requires AllDigits(digits) && cut <= |digits| && (sign == "" || sign == "-")
    ensures forall i | 0 <= i < |sign + digits[..cut]| :: (sign + digits[..cut])[i] != '.'
    ensures sign + digits[..cut] + digits[cut..] == sign + digits
  {
    assert digits[..cut] + digits[cut..] == digits;
    assert sign + digits[..cut] + digits[cut..] == sign + (digits[..cut] + digits[cut..]);
  }

  /** Putting a point into an integer's digits does not change what is read. */
  lemma PointIsSkipped(negative: bool, digits: string, cut: nat)
    requires AllDigits(digits) && digits != [] && cut <= |digits|
    ensures var sign := if negative then "-" else ""; var s := sign + digits[..cut] + "." + digits[cut..];
            && FindPoint(s) == |sign| + cut
            && ReadBaseUnits(s) == Some(Signed(negative, ReadDigits(digits)))
  {
    hide ReadDigits, ReadInteger, ReadBaseUnits, FindPoint, AllDigits;
    var sign := if negative then "-" else "";
    NoPointIn(sign, digits, cut);
    SplitAtPoint(sign + digits[..cut], digits[cut..]);
    ReadSigned(negative, digits);
  }

  /** What is printed has exactly `places` digits after its point and reads back as the same integer, for every
      integer: negative ones and those below one unit too. */
  lemma DecimalRoundTrip(total: int, places: nat)
    ensures ReadBaseUnits(FromBaseUnits(total, places)) == Some(total)
    ensures |FromBaseUnits(total, places)| == FindPoint(FromBaseUnits(total, places)) + 1 + places
  {
    hide ReadBaseUnits, FindPoint, PadStart, ReadDigits;
    var n: nat := if total < 0 then -total else total;
    ReadPaddedStart(n, places + 1);
    var digits := PadStart(Decimal(n), places + 1);
    PointIsSkipped(total < 0, digits, |digits| - places);
  }

  // ---- a nullable decimal column ----------------------------------------------------------------

  /** Local-currency columns keep seven digits after the point. */
  const FIAT_DECIMALS := 7

  /** A decimal as the database returns it: the coefficient over ten to the scale. */
  datatype Fixed = Fixed(coefficient: int, scale: nat)

  type Fiat = v: Fixed | v.scale <= FIAT_DECIMALS witness Fixed(0, 0)

  function Magnitude(x: int): nat {
    if x < 0 then -x else x
  }

  function Quotient(n: nat, d: nat): nat
    requires d > 0
  {
    n / d
  }

  function Remainder(n: nat, d: nat): nat
    requires d > 0
  {
    n % d
  }

  lemma Division(n: nat, d: nat)
    requires d > 0
    ensures Quotient(n, d) * d + Remainder(n, d) == n && Remainder(n, d) < d
  {
  }

  /** The value with `places` digits after the point, none of which is lost: the whole part, the digits on record and
      zeros. */
  function ToFixed(v: Fixed, places: nat): string
    requires v.scale <= places
  {
    PowerIsPositive(v.scale);
    (if v.coefficient < 0 then "-" else "") + Decimal(Quotient(Magnitude(v.coefficient), Power(v.scale))) + "."
    + (Padded(Remainder(Magnitude(v.coefficient), Power(v.scale)), v.scale) + Zeros(places - v.scale))
  }

  lemma {:induction false} PowerIsPositive(n: nat)
    ensures Power(n) > 0
  {
    if n > 0 {
      PowerIsPositive(n - 1);
    }
  }

  lemma TimesTen(a: nat, b: nat)
    ensures a * (10 * b) == 10 * (a * b)
  {
  }

  lemma {:induction false} ReadConcat(a: string, b: string)
    requires AllDigits(a) && AllDigits(b)
    ensures AllDigits(a + b) && ReadDigits(a + b) == ReadDigits(a) * Power(|b|) + ReadDigits(b)
  {
    if b == [] {
      assert a + b == a;
    } else {
      var s, rest := a + b, b[..|b| - 1];
      assert s[..|s| - 1] == a + rest;
      ReadConcat(a, rest);
      assert Power(|b|) == 10 * Power(|rest|);
      TimesTen(ReadDigits(a), Power(|rest|));
    }
  }

  /** The digits of a decimal, with the point left out. */
  lemma ReadsFixedDigits(n: nat, scale: nat, more: nat)
    requires Power(scale) > 0
    ensures var digits := Decimal(Quotient(n, Power(scale)))
                          + (Padded(Remainder(n, Power(scale)), scale) + Zeros(more));
            AllDigits(digits) && ReadDigits(digits) == n * Power(more)
  {
    hide ReadDigits, AllDigits, Power, Quotient, Remainder;
    var whole, part := Quotient(n, Power(scale)), Remainder(n, Power(scale));
    Division(n, Power(scale));
    ReadDecimal(whole);
    ReadPadded(part, scale);
    OnlyZeros(more);
    ReadZeros(more, []);
    assert Zeros(more) + [] == Zeros(more) by { assert |Zeros(more)| == more; }
    ReadConcat(Decimal(whole), Padded(part, scale));
    ReadConcat(Decimal(whole) + Padded(part, scale), Zeros(more));
    assert Decimal(whole) + Padded(part, scale) + Zeros(more) == Decimal(whole) + (Padded(part, scale) + Zeros(more));
  }

  /** What `toFixed` prints, with the point left out, is the exact value in units of the last place. */
  lemma ReadsToFixed(v: Fixed, places: nat)
    requires v.scale <= places
    ensures ReadBaseUnits(ToFixed(v, places)) == Some(v.coefficient * Power(places - v.scale))
  {
    hide ReadBaseUnits, FindPoint, ReadDigits, AllDigits, Power;
    PowerIsPositive(v.scale);
    var n := Magnitude(v.coefficient);
    var whole := Decimal(Quotient(n, Power(v.scale)));
    var part := Padded(Remainder(n, Power(v.scale)), v.scale) + Zeros(places - v.scale);
    ReadsFixedDigits(n, v.scale, places - v.scale);
    PointIsSkipped(v.coefficient < 0, whole + part, |whole|);
    assert (whole + part)[..|whole|] == whole && (whole + part)[|whole|..] == part;
    SignedTimes(v.coefficient, Power(places - v.scale));
  }

  lemma SignedTimes(c: int, power: int)
    ensures Signed(c < 0, Magnitude(c) * power) == c * power
  {
  }

  /** A row's value in units of the last place. */
  function Units(v: Option<Fiat>): int {
    if v.Some? then v.value.coefficient * Power(FIAT_DECIMALS - v.value.scale) else 0
  }

  // ---- the printed form ---------------------------------------------------------------------------

  lemma {:induction false} DecimalLeads(n: nat)
    ensures Decimal(n)[0] == '0' <==> n == 0
    ensures n == 0 ==> |Decimal(n)| == 1
  {
    if n >= 10 {
      DecimalLeads(n / 10);
      assert Decimal(n)[0] == Decimal(n / 10)[0];
    }
  }

  lemma {:induction false} DigitsAreBelow(s: string)
    requires AllDigits(s)
    ensures ReadDigits(s) < Power(|s|)
  {
    if s != [] {
      DigitsAreBelow(s[..|s| - 1]);
    }
  }

  lemma TimesAtLeast(a: int, b: int, d: int)
    requires a > b && d > 0
    ensures a * d >= b * d + d
  {
    var more: nat := a - b - 1;
    var step: nat := d;
    assert more * step >= 0;
    assert a * d == (b + 1 + more) * d == b * d + d + more * step;
  }

  lemma OnlyQuotient(n: nat, d: nat, whole: nat, part: nat)
    requires d > 0 && n == whole * d + part && part < d
    ensures whole == Quotient(n, d) && part == Remainder(n, d)
  {
    hide Quotient, Remainder;
    Division(n, d);
    var q := Quotient(n, d);
    if whole < q {
      TimesAtLeast(q, whole, d);
    } else if q < whole {
      TimesAtLeast(whole, q, d);
    }
  }

  /** Cutting the padded digits before the last `places` divides by ten to the `places`, and leaves no leading zero
      but a single one. */
  lemma CutDivides(n: nat, places: nat)
    ensures var digits := PadStart(Decimal(n), places + 1); var cut := |digits| - places;
            && AllDigits(digits[..cut]) && AllDigits(digits[cut..]) && |digits[cut..]| == places && cut > 0
            && Power(places) > 0 && ReadDigits(digits[..cut]) == Quotient(n, Power(places))
            && ReadDigits(digits[cut..]) == Remainder(n, Power(places))
            && (digits[0] == '0' ==> cut == 1)
  {
    hide ReadDigits, Power, Quotient, Remainder, Decimal;
    var digits := PadStart(Decimal(n), places + 1);
    var cut := |digits| - places;
    ReadPaddedStart(n, places + 1);
    PowerIsPositive(places);
    assert digits == digits[..cut] + digits[cut..];
    ReadConcat(digits[..cut], digits[cut..]);
    DigitsAreBelow(digits[cut..]);
    OnlyQuotient(n, Power(places), ReadDigits(digits[..cut]), ReadDigits(digits[cut..]));
    DecimalLeads(n);
  }

  /** `s` is `total` units of the last of `places` decimals, printed the one way there is. */
  predicate Prints(s: string, total: int, places: nat) {
    var sign := if total < 0 then "-" else ""; var k := FindPoint(s);
    && Power(places) > 0 && |sign| < k && k + 1 + places == |s|
    && s == sign + s[|sign|..k] + "." + s[k + 1..]
    && AllDigits(s[|sign|..k]) && AllDigits(s[k + 1..])
    && (s[|sign|] == '0' ==> k == |sign| + 1)
    && ReadDigits(s[|sign|..k]) == Quotient(Magnitude(total), Power(places))
    && ReadDigits(s[k + 1..]) == Remainder(Magnitude(total), Power(places))
  }

  /** What is printed: a sign exactly for a negative total, the whole units without a leading zero unless there are
      none, a point, and the rest with all its digits. */
  lemma PrintsExactly(total: int, places: nat)
    ensures Prints(FromBaseUnits(total, places), total, places)
  {
    hide ReadDigits, Power, Quotient, Remainder, FindPoint, PadStart, Decimal;
    var n := Magnitude(total);
    var sign := if total < 0 then "-" else "";
    var digits := PadStart(Decimal(n), places + 1);
    var cut := |digits| - places;
    CutDivides(n, places);
    var s := FromBaseUnits(total, places);
    assert s == sign + digits[..cut] + "." + digits[cut..];
    NoPointIn(sign, digits, cut);
    PointAfter(sign + digits[..cut], digits[cut..]);
    var k := |sign| + cut;
    assert s[|sign|..k] == digits[..cut];
    assert s[k + 1..] == digits[cut..];
    assert s[|sign|] == digits[0];
  }

  /** One value, one decimal form without leading zeros. */
  lemma {:induction false} OneForm(a: string, b: string)
    requires AllDigits(a) && AllDigits(b) && a != [] && b != [] && ReadDigits(a) == ReadDigits(b)
    requires (a[0] == '0' ==> |a| == 1) && (b[0] == '0' ==> |b| == 1)
    ensures a == b
  {
    if |a| > 1 {
      LeadIsPositive(a[..|a| - 1]);
    }
    if |b| > 1 {
      LeadIsPositive(b[..|b| - 1]);
    }
    assert a == a[..|a| - 1] + [a[|a| - 1]] && b == b[..|b| - 1] + [b[|b| - 1]];
    if |a| > 1 && |b| > 1 {
      OneForm(a[..|a| - 1], b[..|b| - 1]);
    }
  }

  lemma {:induction false} LeadIsPositive(s: string)
    requires AllDigits(s) && s != [] && s[0] != '0'
    ensures ReadDigits(s) > 0
  {
    if |s| > 1 {
      LeadIsPositive(s[..|s| - 1]);
    }
  }

  lemma {:induction false} SameDigits(a: string, b: string)
    requires AllDigits(a) && AllDigits(b) && |a| == |b| && ReadDigits(a) == ReadDigits(b)
    ensures a == b
  {
    if a != [] {
      SameDigits(a[..|a| - 1], b[..|b| - 1]);
      assert a == a[..|a| - 1] + [a[|a| - 1]] && b == b[..|b| - 1] + [b[|b| - 1]];
    }
  }

  /** There is no second way. */
  lemma PrintedOneWay(s: string, t: string, total: int, places: nat)
    requires Prints(s, total, places) && Prints(t, total, places)
    ensures s == t
  {
    hide ReadDigits, FindPoint, Power, Quotient, Remainder;
    var sign := if total < 0 then "-" else "";
    var k, l := FindPoint(s), FindPoint(t);
    OneForm(s[|sign|..k], t[|sign|..l]);
    SameDigits(s[k + 1..], t[l + 1..]);
  }

  /** Adds up a nullable decimal column and prints the total: what is printed is the exact sum of the rows, with seven
      decimals, no leading zero and a sign only if it is negative. */
  method SumFiat(values: seq<Option<Fiat>>) returns (printed: string)
    ensures ReadBaseUnits(printed) == Some(SumSeq(values, Units))
    ensures Prints(printed, SumSeq(values, Units), FIAT_DECIMALS)
  {
    hide ReadBaseUnits, FindPoint, ToFixed, Power, Prints;
    var total := 0;
    var i := 0;
    while i < |values|
      invariant 0 <= i <= |values| && total + SumSeq(values[i..], Units) == SumSeq(values, Units)
    {
      assert values[i..][1..] == values[i + 1..];
      if values[i].Some? {
        var fixed := ToFixed(values[i].value, FIAT_DECIMALS);
        ReadsToFixed(values[i].value, FIAT_DECIMALS);
        total := total + ReadBaseUnits(fixed).value;
      }
      i := i + 1;
    }
    DecimalRoundTrip(total, FIAT_DECIMALS);
    PrintsExactly(total, FIAT_DECIMALS);
    return FromBaseUnits(total, FIAT_DECIMALS);
  }
}
