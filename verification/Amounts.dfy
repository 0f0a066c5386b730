/** USD texts of differing scales, added and compared exactly
    (apps/server/src/repos/route-repo.ts, lines 31 to 66). */
module Amounts {
  import opened Wrappers
  import opened DigitText
  import opened Arithmetic
  import opened Ordering

  /** What Postgres writes for a sum of non-negative USD amounts. */
  type Amount = text: string | ReadPlain(text).Some? witness "0"

  function Number(amount: Amount): (n: Scaled)
    ensures n.numerator >= 0
  {
    Denotation(ReadPlain(amount).value)
  }

  function FractionScaleOf(amount: Amount): nat {
    match SplitAt(amount, '.').1
    case None => 0
    case Some(fraction) => |fraction|
  }

  function UnitsAtScale(amount: Amount, scale: nat): nat {
    match SplitAt(amount, '.')
    case (whole, None) => ValueOf(whole + Zeros(scale))
    case (whole, Some(fraction)) => ValueOf(whole + PadEnd(fraction, scale))
  }

  function AmountFromUnits(units: nat, scale: nat): string {
    if scale == 0 then TextOf(units)
    else
      var digits := PadStart(TextOf(units), scale + 1);
      digits[..|digits| - scale] + "." + digits[|digits| - scale..]
  }

  function Max(a: nat, b: nat): nat {
    if a >= b then a else b
  }

  function WidestScaleOf(amounts: seq<Amount>): nat {
    if amounts == [] then 0
    else Max(WidestScaleOf(amounts[..|amounts| - 1]), FractionScaleOf(amounts[|amounts| - 1]))
  }

  function SumOfUnits(amounts: seq<Amount>, scale: nat): nat {
    if amounts == [] then 0
    else SumOfUnits(amounts[..|amounts| - 1], scale) + UnitsAtScale(amounts[|amounts| - 1], scale)
  }

  function SumUsdAmounts(amounts: seq<Amount>): string {
    AmountFromUnits(SumOfUnits(amounts, WidestScaleOf(amounts)), WidestScaleOf(amounts))
  }

  function CompareUsdAmounts(left: Amount, right: Amount): int {
    var scale := WidestScaleOf([left, right]);
    var leftUnits, rightUnits := UnitsAtScale(left, scale), UnitsAtScale(right, scale);
    if leftUnits == rightUnits then 0 else if leftUnits > rightUnits then 1 else -1
  }

  /** Scaling an amount up is writing zeros behind its digits. */
  lemma UnitsAppendZeros(amount: Amount, scale: nat)
    requires FractionScaleOf(amount) <= scale
    ensures Number(amount).scale == FractionScaleOf(amount)
    ensures var digits := ReadPlain(amount).value.whole + ReadPlain(amount).value.fraction;
            UnitsAtScale(amount, scale) == ValueOf(digits + Zeros(scale - FractionScaleOf(amount)))
  {
    hide ValueOf;
    var (whole, fraction) := SplitAt(amount, '.');
    var f := fraction.GetOr("");
    assert whole + PadEnd(f, scale) == (whole + f) + Zeros(scale - |f|);
    assert fraction.None? ==> whole + Zeros(scale) == whole + f + Zeros(scale);
  }

  /** At any scale wide enough the units are the number times 10^scale, with nothing cut. */
  lemma UnitsAreExact(amount: Amount, scale: nat)
    requires FractionScaleOf(amount) <= scale
    ensures Number(amount).scale == FractionScaleOf(amount)
    ensures UnitsAtScale(amount, scale) * Pow10(Number(amount).scale) == Number(amount).numerator * Pow10(scale)
  {
    hide ValueOf, Pow10, UnitsAtScale, FractionScaleOf;
    var d, k := ReadPlain(amount).value, scale - FractionScaleOf(amount);
    UnitsAppendZeros(amount, scale);
    ValueOfConcat(d.whole + d.fraction, Zeros(k));
    ValueOfZeros(k);
    ScaleCommutes(ValueOf(d.whole + d.fraction), k, |d.fraction|);
  }

  lemma {:induction false} WidestCoversAll(amounts: seq<Amount>)
    ensures forall i | 0 <= i < |amounts| :: FractionScaleOf(amounts[i]) <= WidestScaleOf(amounts)
  {
    if amounts == [] {
    } else {
      WidestCoversAll(amounts[..|amounts| - 1]);
    }
  }

  /** Fraction addition; no common scale is chosen. */
  function AddNumbers(a: Scaled, b: Scaled): Scaled {
    Scaled(a.numerator * Pow10(b.scale) + b.numerator * Pow10(a.scale), a.scale + b.scale)
  }

  function ExactSum(amounts: seq<Amount>): Scaled {
    if amounts == [] then Scaled(0, 0)
    else AddNumbers(ExactSum(amounts[..|amounts| - 1]), Number(amounts[|amounts| - 1]))
  }

  lemma UnitsAddLikeNumbers(u: int, v: int, scale: nat, a: Scaled, b: Scaled)
    requires SameNumber(Scaled(u, scale), a)
    requires SameNumber(Scaled(v, scale), b)
    ensures SameNumber(Scaled(u + v, scale), AddNumbers(a, b))
  {
    Pow10Add(a.scale, b.scale);
    AddFractions(u, v, a.numerator, b.numerator, Pow10(a.scale), Pow10(b.scale), Pow10(scale));
  }

  lemma {:induction false} UnitsSumIsExact(amounts: seq<Amount>, scale: nat)
    requires forall i | 0 <= i < |amounts| :: FractionScaleOf(amounts[i]) <= scale
    ensures SameNumber(Scaled(SumOfUnits(amounts, scale), scale), ExactSum(amounts))
  {
    if amounts == [] {
    } else {
      var front, last := amounts[..|amounts| - 1], amounts[|amounts| - 1];
      UnitsSumIsExact(front, scale);
      UnitsAreExact(last, scale);
      UnitsAddLikeNumbers(SumOfUnits(front, scale), UnitsAtScale(last, scale), scale, ExactSum(front), Number(last));
    }
  }

  lemma AmountFromUnitsWrites(units: nat, scale: nat)
    ensures AmountFromUnits(units, scale) == WritePlain(PaddedDigits(units, scale))
  {
    if scale == 0 {
      TextOfValue(units);
      assert PaddedDigits(units, 0).whole == TextOf(units);
    }
  }

  lemma AmountFromUnitsDenotes(units: nat, scale: nat)
    ensures ReadPlain(AmountFromUnits(units, scale)).Some?
    ensures Denotation(ReadPlain(AmountFromUnits(units, scale)).value) == Scaled(units, scale)
  {
    hide *;
    AmountFromUnitsWrites(units, scale);
    PaddedDigitsDenote(units, scale);
    ReadWritePlain(PaddedDigits(units, scale));
  }

  /** The text of a sum denotes the exact sum, whatever the scales of its parts. */
  lemma SumIsExact(amounts: seq<Amount>)
    ensures ReadPlain(SumUsdAmounts(amounts)).Some?
    ensures SameNumber(Number(SumUsdAmounts(amounts)), ExactSum(amounts))
  {
    var scale := WidestScaleOf(amounts);
    WidestCoversAll(amounts);
    UnitsSumIsExact(amounts, scale);
    AmountFromUnitsDenotes(SumOfUnits(amounts, scale), scale);
  }

  lemma AppendAmount(amounts: seq<Amount>, last: Amount, scale: nat)
    ensures SumOfUnits(amounts + [last], scale) == SumOfUnits(amounts, scale) + UnitsAtScale(last, scale)
    ensures WidestScaleOf(amounts + [last]) == Max(WidestScaleOf(amounts), FractionScaleOf(last))
  {
    hide UnitsAtScale, FractionScaleOf;
    assert (amounts + [last])[..|amounts|] == amounts;
  }

  lemma {:induction false} MoveToEnd(before: seq<Amount>, x: Amount, after: seq<Amount>, scale: nat)
    ensures SumOfUnits(before + [x] + after, scale) == SumOfUnits(before + after, scale) + UnitsAtScale(x, scale)
    ensures WidestScaleOf(before + [x] + after) == Max(WidestScaleOf(before + after), FractionScaleOf(x))
  {
    hide SumOfUnits, WidestScaleOf, UnitsAtScale, FractionScaleOf;
    if after == [] {
      assert before + [x] + after == before + [x] && before + after == before;
      AppendAmount(before, x, scale);
    } else {
      var rest, last := after[..|after| - 1], after[|after| - 1];
      MoveToEnd(before, x, rest, scale);
      assert before + [x] + after == (before + [x] + rest) + [last];
      assert before + after == (before + rest) + [last];
      AppendAmount(before + [x] + rest, last, scale);
      AppendAmount(before + rest, last, scale);
    }
  }

  lemma {:induction false} ReductionsIgnoreOrder(s: seq<Amount>, t: seq<Amount>, scale: nat)
    requires multiset(s) == multiset(t)
    ensures SumOfUnits(s, scale) == SumOfUnits(t, scale)
    ensures WidestScaleOf(s) == WidestScaleOf(t)
  {
    hide UnitsAtScale, FractionScaleOf, Max;
    assert |s| == |multiset(s)| == |multiset(t)| == |t|;
    if s == [] {
    } else {
      var i := FindInArrangement(s, t);
      var front, last := s[..|s| - 1], s[|s| - 1];
      ReductionsIgnoreOrder(front, t[..i] + t[i + 1..], scale);
      MoveToEnd(t[..i], t[i], t[i + 1..], scale);
      assert s == front + [last];
      AppendAmount(front, last, scale);
    }
  }

  /** Adding the same amounts in another order writes the same text. */
  lemma SumIgnoresOrder(s: seq<Amount>, t: seq<Amount>)
    requires multiset(s) == multiset(t)
    ensures SumUsdAmounts(s) == SumUsdAmounts(t)
  {
    ReductionsIgnoreOrder(s, t, WidestScaleOf(s));
  }

  /** The order of the denoted numbers, by cross-multiplication. */
  ghost predicate Less(a: Scaled, b: Scaled) {
    a.numerator * Pow10(b.scale) < b.numerator * Pow10(a.scale)
  }

  /** Comparing texts is comparing the numbers they denote. */
  lemma CompareIsNumberOrder(left: Amount, right: Amount)
    ensures CompareUsdAmounts(left, right) == 0 <==> SameNumber(Number(left), Number(right))
    ensures CompareUsdAmounts(left, right) == -1 <==> Less(Number(left), Number(right))
    ensures CompareUsdAmounts(left, right) == 1 <==> Less(Number(right), Number(left))
  {
    var scale := WidestScaleOf([left, right]);
    WidestCoversAll([left, right]);
    assert [left, right][0] == left && [left, right][1] == right;
    UnitsAreExact(left, scale);
    UnitsAreExact(right, scale);
    CompareUnits(UnitsAtScale(left, scale), UnitsAtScale(right, scale), Number(left), Number(right), Pow10(scale));
  }

  lemma CompareUnits(u: int, v: int, a: Scaled, b: Scaled, unit: int)
    requires unit > 0
    requires u * Pow10(a.scale) == a.numerator * unit
    requires v * Pow10(b.scale) == b.numerator * unit
    ensures u == v <==> SameNumber(a, b)
    ensures u < v <==> Less(a, b)
    ensures v < u <==> Less(b, a)
  {
    CrossCompare(u, v, a.numerator, b.numerator, Pow10(a.scale), Pow10(b.scale), unit);
    CrossCompare(v, u, b.numerator, a.numerator, Pow10(b.scale), Pow10(a.scale), unit);
  }

  /** So the comparison chains, though every pair picks its own scale. */
  lemma CompareIsTransitive(a: Amount, b: Amount, c: Amount)
    requires CompareUsdAmounts(a, b) <= 0 && CompareUsdAmounts(b, c) <= 0
    ensures CompareUsdAmounts(a, c) <= 0
    ensures CompareUsdAmounts(a, c) == 0 <==> CompareUsdAmounts(a, b) == 0 && CompareUsdAmounts(b, c) == 0
  {
    var scale := WidestScaleOf([a, b, c]);
    WidestCoversAll([a, b, c]);
    assert [a, b, c][0] == a && [a, b, c][1] == b && [a, b, c][2] == c;
    CompareAtCommonScale(a, b, scale);
    CompareAtCommonScale(b, c, scale);
    CompareAtCommonScale(a, c, scale);
  }

  lemma CompareAtCommonScale(left: Amount, right: Amount, scale: nat)
    requires FractionScaleOf(left) <= scale && FractionScaleOf(right) <= scale
    ensures CompareUsdAmounts(left, right) <= 0 <==> UnitsAtScale(left, scale) <= UnitsAtScale(right, scale)
    ensures CompareUsdAmounts(left, right) == 0 <==> UnitsAtScale(left, scale) == UnitsAtScale(right, scale)
  {
    CompareIsNumberOrder(left, right);
    UnitsAreExact(left, scale);
    UnitsAreExact(right, scale);
    CompareUnits(UnitsAtScale(left, scale), UnitsAtScale(right, scale), Number(left), Number(right), Pow10(scale));
  }
}
