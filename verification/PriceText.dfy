/** Exact USD value of one leg, as text (packages/core/src/pricing/decimal.ts). */
module PriceText {
  import opened Wrappers
  import opened DigitText
  import opened Arithmetic
  import Decimal

  const MAX_TOKEN_DECIMALS := 255

  function ScaledIntegerFrom(text: string): (number: Option<Scaled>)
    ensures number.Some? ==> number.value.numerator >= 0
  {
    match ReadPlain(text)
    case None => None
    case Some(d) => Some(Denotation(d))
  }

  function DecimalTextFrom(value: nat, scale: nat): string {
    if scale == 0 then TextOf(value)
    else
      var digits := PadStart(TextOf(value), scale + 1);
      var whole := digits[..|digits| - scale];
      var fraction := StripTrailingZeros(digits[|digits| - scale..]);
      if fraction == "" then whole else whole + "." + fraction
  }

  function LegUsd(executedRaw: string, decimals: int, priceUsd: string): Option<string> {
    if executedRaw == "" || !AllDigits(executedRaw) then None
    else if decimals < 0 || decimals > MAX_TOKEN_DECIMALS then None
    else match ScaledIntegerFrom(priceUsd)
      case None => None
      case Some(price) =>
        Some(DecimalTextFrom(ValueOf(executedRaw) * price.numerator, decimals + price.scale))
  }

  /** `text` is the canonical spelling of `number`. */
  ghost predicate Spells(text: string, number: Scaled) {
    && ReadPlain(text).Some?
    && Canonical(ReadPlain(text).value)
    && SameNumber(Denotation(ReadPlain(text).value), number)
  }

  /** The digits `DecimalTextFrom` writes. */
  function DigitsAt(value: nat, scale: nat): PlainDecimal {
    var padded := PaddedDigits(value, scale);
    PlainDecimal(padded.whole, StripTrailingZeros(padded.fraction))
  }

  lemma DecimalTextFromWrites(value: nat, scale: nat)
    ensures DecimalTextFrom(value, scale) == WritePlain(DigitsAt(value, scale))
  {
    if scale == 0 {
      TextOfValue(value);
      var digits := PadStart(TextOf(value), 1);
      assert digits == TextOf(value);
      assert digits[..|digits|] == digits && digits[|digits|..] == "";
    }
  }

  lemma DigitsAtAreCanonical(value: nat, scale: nat)
    ensures Canonical(DigitsAt(value, scale))
  {
    hide TextOf, StripTrailingZeros;
    TextOfValue(value);
    var digits := PadStart(TextOf(value), scale + 1);
    StripTrailingZerosParts(digits[|digits| - scale..]);
    assert |digits| > scale + 1 ==> digits == TextOf(value);
  }

  lemma DigitsAtDenote(value: nat, scale: nat)
    ensures SameNumber(Denotation(DigitsAt(value, scale)), Scaled(value, scale))
  {
    hide SameNumber, Denotation, StripTrailingZeros, PaddedDigits;
    var padded := PaddedDigits(value, scale);
    assert padded == PlainDecimal(padded.whole, padded.fraction);
    PaddedDigitsDenote(value, scale);
    StripTrailingZerosDenotes(padded.whole, padded.fraction);
  }

  /** The printer is exact and canonical for every value and scale. */
  lemma DecimalTextFromIsExact(value: nat, scale: nat)
    ensures Spells(DecimalTextFrom(value, scale), Scaled(value, scale))
  {
    DecimalTextFromWrites(value, scale);
    DigitsAtAreCanonical(value, scale);
    DigitsAtDenote(value, scale);
    ReadWritePlain(DigitsAt(value, scale));
  }

  /** A canonical spelling is determined by the number, so exact legs are equal as texts exactly
      when they are equal as numbers. */
  lemma CanonicalIsUnique(d: PlainDecimal, e: PlainDecimal)
    requires Canonical(d) && Canonical(e)
    requires SameNumber(Denotation(d), Denotation(e))
    ensures d == e
  {
    if |d.fraction| < |e.fraction| {
      LongerFractionDiffers(d, e);
    } else if |e.fraction| < |d.fraction| {
      LongerFractionDiffers(e, d);
    } else {
      CancelFactor(ValueOf(d.whole + d.fraction), ValueOf(e.whole + e.fraction), Pow10(|d.fraction|));
      SameScaleIsUnique(d, e);
    }
  }

  lemma SameScaleIsUnique(d: PlainDecimal, e: PlainDecimal)
    requires Canonical(d) && Canonical(e)
    requires |d.fraction| == |e.fraction|
    requires ValueOf(d.whole + d.fraction) == ValueOf(e.whole + e.fraction)
    ensures d == e
  {
    var p := Pow10(|d.fraction|);
    ValueOfConcat(d.whole, d.fraction);
    ValueOfConcat(e.whole, e.fraction);
    ValueOfBound(d.fraction);
    ValueOfBound(e.fraction);
    QuotientRemainder(ValueOf(d.whole), ValueOf(d.fraction), p);
    QuotientRemainder(ValueOf(e.whole), ValueOf(e.fraction), p);
    ValueOfInjective(d.fraction, e.fraction);
    NoLeadingZerosUnique(d.whole, e.whole);
  }

  lemma LastDigitShows(text: Digits)
    requires text != "" && text[|text| - 1] != '0'
    ensures ValueOf(text) % 10 != 0
  {
  }

  lemma LongerFractionDiffers(d: PlainDecimal, e: PlainDecimal)
    requires Canonical(e)
    requires |d.fraction| < |e.fraction|
    ensures !SameNumber(Denotation(d), Denotation(e))
  {
    hide ValueOf, Pow10;
    LastDigitShows(e.whole + e.fraction);
    ScaleGap(ValueOf(d.whole + d.fraction), ValueOf(e.whole + e.fraction), |d.fraction|, |e.fraction|);
  }

  lemma ScaleGap(n: nat, v: nat, a: nat, b: nat)
    requires a < b
    ensures n * Pow10(b) == v * Pow10(a) ==> v == 10 * (n * Pow10(b - a - 1))
  {
    ScaleCommutes(n, b - a, a);
    CancelFactor(n * Pow10(b - a), v, Pow10(a));
    assert n * Pow10(b - a) == 10 * (n * Pow10(b - a - 1));
  }

  /** The USD value of a leg is priced exactly when its parts are well formed, and then its text
      denotes raw * price / 10^decimals with no rounding at all. */
  lemma LegUsdIsExact(executedRaw: string, decimals: int, priceUsd: string)
    ensures LegUsd(executedRaw, decimals, priceUsd).Some? <==>
            && executedRaw != "" && AllDigits(executedRaw)
            && 0 <= decimals <= 255 && ReadPlain(priceUsd).Some?
    ensures LegUsd(executedRaw, decimals, priceUsd).Some? ==>
              var price := Denotation(ReadPlain(priceUsd).value);
              Spells(LegUsd(executedRaw, decimals, priceUsd).value,
                     Scaled(ValueOf(executedRaw) * price.numerator, decimals + price.scale))
  {
    hide DecimalTextFrom, Spells;
    if LegUsd(executedRaw, decimals, priceUsd).Some? {
      var price := Denotation(ReadPlain(priceUsd).value);
      DecimalTextFromIsExact(ValueOf(executedRaw) * price.numerator, decimals + price.scale);
    }
  }

  /** Any canonical text of a number, read into 18-digit units, loses less than one unit. */
  lemma ReadBackLosesLessThanOneUnit(text: string, number: Scaled)
    requires Spells(text, number)
    ensures Decimal.DecimalFromText(text).Ok?
    ensures var units := Decimal.DecimalFromText(text).value;
            && 0 <= units
            && units * Pow10(number.scale) <= number.numerator * Decimal.SCALE_UNIT < (units + 1) * Pow10(number.scale)
  {
    var d := ReadPlain(text).value;
    WriteReadPlain(text);
    assert text[0] == d.whole[0];
    Decimal.ParseTruncates(d);
    var shown := Denotation(d);
    Rescale(Decimal.UnitsOf(d), shown.numerator, number.numerator, Decimal.SCALE_UNIT, Pow10(shown.scale),
            Pow10(number.scale));
  }

  /** An inequality between fractions over p carries over to q. */
  lemma RescaleOne(u: int, n: int, m: int, unit: int, p: nat, q: nat)
    requires p > 0 && q > 0 && n * q == m * p
    ensures u * p <= n * unit <==> u * q <= m * unit
  {
    assert (u * p) * q == (u * q) * p;
    assert (n * unit) * q == (n * q) * unit == (m * p) * unit == (m * unit) * p;
    CancelFactor(u * p, n * unit, q);
    CancelFactor(u * q, m * unit, p);
  }

  lemma Rescale(units: nat, n: int, m: int, unit: int, p: nat, q: nat)
    requires p > 0 && q > 0 && n * q == m * p
    requires units * p <= n * unit < (units + 1) * p
    ensures units * q <= m * unit < (units + 1) * q
  {
    RescaleOne(units, n, m, unit, p, q);
    RescaleOne(units + 1, n, m, unit, p, q);
  }

  /** Pricing a leg and reading the text into the ledger's decimals loses less than 10^-18. */
  lemma LegUsdReadBack(executedRaw: string, decimals: int, priceUsd: string)
    requires LegUsd(executedRaw, decimals, priceUsd).Some?
    ensures var price := Denotation(ReadPlain(priceUsd).value);
            var read := Decimal.DecimalFromText(LegUsd(executedRaw, decimals, priceUsd).value);
            var exact := ValueOf(executedRaw) * price.numerator * Decimal.SCALE_UNIT;
            && read.Ok?
            && read.value * Pow10(decimals + price.scale) <= exact < (read.value + 1) * Pow10(decimals + price.scale)
  {
    hide *;
    LegUsdIsExact(executedRaw, decimals, priceUsd);
    var price := Denotation(ReadPlain(priceUsd).value);
    ReadBackLosesLessThanOneUnit(LegUsd(executedRaw, decimals, priceUsd).value,
                                 Scaled(ValueOf(executedRaw) * price.numerator, decimals + price.scale));
  }

  /** What Number::toString writes for a finite number that is not negative (section 6.1.6.1.20 of
      ECMA-262): digits, perhaps a point, perhaps a signed exponent after `e`. */
  datatype NumberText = NumberText(mantissa: PlainDecimal, exponent: Option<int>) {
    predicate WellFormed() {
      mantissa.whole != ""
    }

    function Text(): string {
      WritePlain(mantissa) +
      match exponent
      case None => ""
      case Some(e) => "e" + (if e < 0 then "-" else "+") + TextOf(Magnitude(e))
    }

    /** mantissa * 10^exponent */
    function Number(): Scaled {
      var m := Denotation(mantissa);
      match exponent
      case None => m
      case Some(e) => if e >= 0 then Scaled(m.numerator * Pow10(e), m.scale) else Scaled(m.numerator, m.scale - e)
    }
  }

  datatype JsNumber = NotFinite | BelowZero | AtLeastZero(shown: NumberText)

  /** `Number(text)` of a signed run of digits. */
  function ReadExponent(text: string): Option<int> {
    if text == "" || !AllDigits(text[1..]) then None
    else if text[0] == '-' then Some(Decimal.Signed(true, ValueOf(text[1..])))
    else if text[0] == '+' then Some(ValueOf(text[1..]))
    else None
  }

  function PlainDecimalFrom(value: JsNumber): Option<string> {
    if !value.AtLeastZero? then None
    else
      var (mantissaText, exponentText) := SplitAt(value.shown.Text(), 'e');
      if exponentText.None? then Some(mantissaText)
      else
        var parts, exponent := ReadPlain(mantissaText), ReadExponent(exponentText.value);
        if parts.None? || exponent.None? then None
        else Some(ShiftPoint(parts.value, exponent.value))
  }

  /** The mantissa's digits with the point moved `exponent` places. */
  function ShiftPoint(mantissa: PlainDecimal, exponent: int): string {
    var digits := mantissa.whole + mantissa.fraction;
    var pointIndex := |mantissa.whole| + exponent;
    if pointIndex <= 0 then "0." + Zeros(-pointIndex) + digits
    else if pointIndex >= |digits| then digits + Zeros(pointIndex - |digits|)
    else digits[..pointIndex] + "." + digits[pointIndex..]
  }

  /** The digits `ShiftPoint` writes. */
  function ShiftedDigits(mantissa: PlainDecimal, exponent: int): PlainDecimal {
    var digits := mantissa.whole + mantissa.fraction;
    var pointIndex := |mantissa.whole| + exponent;
    if pointIndex <= 0 then PlainDecimal("0", Zeros(-pointIndex) + digits)
    else if pointIndex >= |digits| then PlainDecimal(digits + Zeros(pointIndex - |digits|), "")
    else PlainDecimal(digits[..pointIndex], digits[pointIndex..])
  }

  lemma ShiftLeft(mantissa: PlainDecimal, exponent: int)
    requires |mantissa.whole| + exponent <= 0
    ensures SameNumber(Denotation(ShiftedDigits(mantissa, exponent)), NumberText(mantissa, Some(exponent)).Number())
  {
    var digits: Digits := mantissa.whole + mantissa.fraction;
    var k := -(|mantissa.whole| + exponent);
    assert "0" + (Zeros(k) + digits) == Zeros(k + 1) + digits;
    ValueOfConcat(Zeros(k + 1), digits);
    ValueOfZeros(k + 1);
    assert |ShiftedDigits(mantissa, exponent).fraction| == |mantissa.fraction| - exponent;
  }

  lemma ShiftRight(mantissa: PlainDecimal, exponent: int)
    requires exponent >= |mantissa.fraction|
    ensures SameNumber(Denotation(ShiftedDigits(mantissa, exponent)), NumberText(mantissa, Some(exponent)).Number())
  {
    var digits: Digits := mantissa.whole + mantissa.fraction;
    var k := exponent - |mantissa.fraction|;
    if |mantissa.whole| + exponent <= 0 {
      assert digits == "" && k == 0;
      ShiftLeft(mantissa, exponent);
    } else {
      var d := ShiftedDigits(mantissa, exponent);
      assert d.whole + d.fraction == digits + Zeros(k);
      ValueOfConcat(digits, Zeros(k));
      ValueOfZeros(k);
      ScaleCommutes(ValueOf(digits), k, |mantissa.fraction|);
    }
  }

  lemma ShiftWithin(mantissa: PlainDecimal, exponent: int)
    requires -|mantissa.whole| < exponent < |mantissa.fraction|
    ensures SameNumber(Denotation(ShiftedDigits(mantissa, exponent)), NumberText(mantissa, Some(exponent)).Number())
  {
    var digits: Digits := mantissa.whole + mantissa.fraction;
    var d := ShiftedDigits(mantissa, exponent);
    assert d.whole + d.fraction == digits;
    assert |d.fraction| == |mantissa.fraction| - exponent;
    if exponent >= 0 {
      ScaleCommutes(ValueOf(digits), exponent, |d.fraction|);
    }
  }

  lemma ShiftPointKeepsNumber(mantissa: PlainDecimal, exponent: int)
    requires mantissa.whole != ""
    ensures ReadPlain(ShiftPoint(mantissa, exponent)).Some?
    ensures SameNumber(Denotation(ReadPlain(ShiftPoint(mantissa, exponent)).value),
                       NumberText(mantissa, Some(exponent)).Number())
  {
    var d := ShiftedDigits(mantissa, exponent);
    assert ShiftPoint(mantissa, exponent) == WritePlain(d);
    ReadWritePlain(d);
    if |mantissa.whole| + exponent <= 0 {
      ShiftLeft(mantissa, exponent);
    } else if exponent >= |mantissa.fraction| {
      ShiftRight(mantissa, exponent);
    } else {
      ShiftWithin(mantissa, exponent);
    }
  }

  /** Writing a number without exponent keeps its value; only a number that is negative or not
      finite is turned away. */
  lemma PlainDecimalKeepsNumber(value: JsNumber)
    requires value.AtLeastZero? ==> value.shown.WellFormed()
    ensures PlainDecimalFrom(value).Some? <==> value.AtLeastZero?
    ensures value.AtLeastZero? ==>
              && ReadPlain(PlainDecimalFrom(value).value).Some?
              && SameNumber(Denotation(ReadPlain(PlainDecimalFrom(value).value).value), value.shown.Number())
  {
    if value.AtLeastZero? {
      var m := value.shown.mantissa;
      ReadWritePlain(m);
      NoLetterInPlain(m);
      match value.shown.exponent {
        case None =>
          SplitAtJoin(WritePlain(m), 'e', "");
          assert value.shown.Text() == WritePlain(m);
        case Some(e) =>
          var tail := (if e < 0 then "-" else "+") + TextOf(Magnitude(e));
          SplitAtJoin(WritePlain(m), 'e', tail);
          assert value.shown.Text() == WritePlain(m) + ['e'] + tail;
          ReadExponentWritten(e);
          ShiftPointKeepsNumber(m, e);
      }
    }
  }

  lemma NoLetterInPlain(d: PlainDecimal)
    ensures 'e' !in WritePlain(d)
  {
  }

  lemma ReadExponentWritten(e: int)
    ensures ReadExponent((if e < 0 then "-" else "+") + TextOf(Magnitude(e))) == Some(e)
  {
    var tail := (if e < 0 then "-" else "+") + TextOf(Magnitude(e));
    TextOfValue(Magnitude(e));
    assert tail[1..] == TextOf(Magnitude(e));
  }
}
