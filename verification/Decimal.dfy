/** Fixed-point decimals with 18 fraction digits, held as integers
    (packages/core/src/agent-metrics/decimal.ts and published-usd.ts). */
module Decimal {
  import opened Wrappers
  import opened DigitText
  import opened Arithmetic

  const SCALE: nat := 18
  const SCALE_UNIT: nat := 1_000_000_000_000_000_000
  const CENT_UNIT: nat := 10_000_000_000_000_000

  lemma ScaleUnitIsPower()
    ensures Pow10(SCALE) == SCALE_UNIT
    ensures Pow10(16) == CENT_UNIT
  {
    assert Pow10(2) == 100;
    Pow10Add(2, 2);
    Pow10Add(4, 4);
    Pow10Add(8, 8);
    Pow10Add(16, 2);
  }

  datatype Error = MalformedDecimal(text: string) | MalformedRawAmount(raw: string) | MalformedTokenDecimals(given: int)

  /** `/^-?\d+(\.\d+)?$/`: whether there is a minus, and the digits. */
  function ReadSigned(text: string): Option<(bool, PlainDecimal)> {
    var negative := text != "" && text[0] == '-';
    match ReadPlain(if negative then text[1..] else text)
    case None => None
    case Some(d) => Some((negative, d))
  }

  /** The first 18 fraction digits, filled with zeros. */
  function ScaledFraction(fraction: Digits): Digits {
    PadEnd(fraction, SCALE)[..SCALE]
  }

  function Signed(negative: bool, units: nat): int {
    var n: int := units;
    if negative then -n else n
  }

  function UnitsOf(d: PlainDecimal): nat {
    ValueOf(d.whole) * SCALE_UNIT + ValueOf(ScaledFraction(d.fraction))
  }

  function DecimalFromText(text: string): Result<int, Error> {
    match ReadSigned(text)
    case None => Err(MalformedDecimal(text))
    case Some((negative, d)) =>
      Ok(Signed(negative, UnitsOf(d)))
  }

  function DecimalFromRawAmount(raw: string, tokenDecimals: int): Result<int, Error> {
    if raw == "" || !AllDigits(raw) then Err(MalformedRawAmount(raw))
    else if tokenDecimals < 0 then Err(MalformedTokenDecimals(tokenDecimals))
    else if tokenDecimals <= SCALE then Ok(ValueOf(raw) * Pow10(SCALE - tokenDecimals))
    else Ok(ValueOf(raw) / Pow10(tokenDecimals - SCALE))
  }

  function ProportionOfDecimal(value: int, part: int, whole: int): int
    requires whole != 0
  {
    TruncatedQuotient(value * part, whole)
  }

  function DigitsOfUnits(units: nat): PlainDecimal {
    PlainDecimal(TextOf(units / SCALE_UNIT),
                 StripTrailingZeros(PadStart(TextOf(units % SCALE_UNIT), SCALE)))
  }

  function DecimalToText(v: int): string {
    (if v < 0 then "-" else "") + WritePlain(DigitsOfUnits(Magnitude(v)))
  }

  lemma TextOfShort(n: nat, width: nat)
    requires n < Pow10(width) && width > 0
    ensures |TextOf(n)| <= width
  {
    TextOfValue(n);
    if |TextOf(n)| > width {
      LeadingDigitBound(TextOf(n));
      Pow10Monotone(width, |TextOf(n)| - 1);
    }
  }

  lemma StrippedRefills(padded: Digits)
    requires |padded| == SCALE
    ensures ScaledFraction(StripTrailingZeros(padded)) == padded
  {
    StripTrailingZerosParts(padded);
  }

  /** The stripped fraction of `DecimalToText`, refilled, is the fraction it came from. */
  lemma FractionRefills(n: nat)
    requires n < SCALE_UNIT
    ensures ValueOf(ScaledFraction(StripTrailingZeros(PadStart(TextOf(n), SCALE)))) == n
  {
    hide ScaledFraction, StripTrailingZeros, TextOf, ValueOf;
    ScaleUnitIsPower();
    TextOfValue(n);
    TextOfShort(n, SCALE);
    ValueOfPadStart(TextOf(n), SCALE);
    StrippedRefills(PadStart(TextOf(n), SCALE));
  }

  /** A minus put before digits is read back as the sign. */
  lemma ReadSignedWritten(negative: bool, d: PlainDecimal)
    requires d.whole != ""
    ensures ReadSigned((if negative then "-" else "") + WritePlain(d)) == Some((negative, d))
  {
    ReadWritePlain(d);
    var text := (if negative then "-" else "") + WritePlain(d);
    if negative {
      assert text[1..] == WritePlain(d);
    } else {
      assert text == WritePlain(d);
      assert text[0] == d.whole[0];
    }
  }

  /** Printing then parsing returns every integer. */
  lemma TextRoundTrip(v: int)
    ensures DecimalFromText(DecimalToText(v)) == Ok(v)
  {
    var units := Magnitude(v);
    TextOfValue(units / SCALE_UNIT);
    FractionRefills(units % SCALE_UNIT);
    ReadSignedWritten(v < 0, DigitsOfUnits(units));
  }

  lemma PrintsInjectively(v: int, w: int)
    requires DecimalToText(v) == DecimalToText(w)
    ensures v == w
  {
    TextRoundTrip(v);
    TextRoundTrip(w);
  }

  /** The spelling `DecimalToText` settles on: no needless zeros, at most 18 fraction digits, and
      no minus before zero. */
  function CanonicalText(negative: bool, d: PlainDecimal): string {
    var kept := PlainDecimal(StripLeadingZeros(d.whole),
                             StripTrailingZeros(if |d.fraction| <= SCALE then d.fraction else d.fraction[..SCALE]));
    (if negative && !(ValueOf(d.whole) == 0 && kept.fraction == "") then "-" else "") + WritePlain(kept)
  }

  lemma StripFilled(fraction: Digits, k: nat)
    ensures StripTrailingZeros(fraction + Zeros(k)) == StripTrailingZeros(fraction)
  {
    var kept := StripTrailingZeros(fraction);
    StripTrailingZerosParts(fraction);
    var a := |fraction| - |kept|;
    assert fraction + Zeros(k) == kept + Zeros(a + k);
    StripTrailingZerosUnique(kept, a + k);
  }

  lemma ScaledFractionFacts(fraction: Digits)
    ensures |ScaledFraction(fraction)| == SCALE
    ensures ValueOf(ScaledFraction(fraction)) < SCALE_UNIT
    ensures StripTrailingZeros(ScaledFraction(fraction))
            == StripTrailingZeros(if |fraction| <= SCALE then fraction else fraction[..SCALE])
  {
    ScaleUnitIsPower();
    ValueOfBound(ScaledFraction(fraction));
    if |fraction| <= SCALE {
      assert ScaledFraction(fraction) == fraction + Zeros(SCALE - |fraction|);
      StripFilled(fraction, SCALE - |fraction|);
    }
  }

  lemma {:induction false} ZeroFractionStrips(s: Digits)
    ensures ValueOf(s) == 0 <==> StripTrailingZeros(s) == ""
  {
    StripTrailingZerosParts(s);
    var kept := StripTrailingZeros(s);
    ValueOfConcat(kept, Zeros(|s| - |kept|));
    ValueOfZeros(|s| - |kept|);
    if kept != "" {
      assert ValueOf(kept) > 0;
      assert ValueOf(kept) * Pow10(|s| - |kept|) > 0;
    }
  }

  lemma DigitsOfParsed(d: PlainDecimal)
    requires d.whole != ""
    ensures DigitsOfUnits(UnitsOf(d))
            == PlainDecimal(StripLeadingZeros(d.whole), StripTrailingZeros(ScaledFraction(d.fraction)))
  {
    var sf := ScaledFraction(d.fraction);
    ScaledFractionFacts(d.fraction);
    assert UnitsOf(d) / SCALE_UNIT == ValueOf(d.whole) && UnitsOf(d) % SCALE_UNIT == ValueOf(sf);
    TextOfRead(d.whole);
    FillsBack(sf);
  }

  lemma FillsBack(sf: Digits)
    requires |sf| == SCALE
    ensures PadStart(TextOf(ValueOf(sf)), SCALE) == sf
  {
    ValueOfBound(sf);
    TextOfValue(ValueOf(sf));
    TextOfShort(ValueOf(sf), SCALE);
    ValueOfPadStart(TextOf(ValueOf(sf)), SCALE);
    ValueOfInjective(PadStart(TextOf(ValueOf(sf)), SCALE), sf);
  }

  lemma ZeroUnits(d: PlainDecimal)
    ensures UnitsOf(d) == 0 <==> ValueOf(d.whole) == 0 && StripTrailingZeros(ScaledFraction(d.fraction)) == ""
  {
    ZeroFractionStrips(ScaledFraction(d.fraction));
  }

  lemma PrintParsed(negative: bool, d: PlainDecimal)
    requires d.whole != ""
    ensures DecimalToText(Signed(negative, UnitsOf(d))) == CanonicalText(negative, d)
  {
    ScaledFractionFacts(d.fraction);
    DigitsOfParsed(d);
    ZeroUnits(d);
    var v := Signed(negative, UnitsOf(d));
    assert Magnitude(v) == UnitsOf(d);
    assert v < 0 <==> negative && UnitsOf(d) != 0;
  }

  /** Parsing then printing is spelling the text canonically, cut to 18 fraction digits. */
  lemma ParsePrintIsCanonical(text: string)
    requires DecimalFromText(text).Ok?
    ensures var (negative, d) := ReadSigned(text).value;
            DecimalToText(DecimalFromText(text).value) == CanonicalText(negative, d)
  {
    var (negative, d) := ReadSigned(text).value;
    WriteReadPlain(if negative then text[1..] else text);
    PrintParsed(negative, d);
  }

  /** Parsing cuts toward zero at the 18th digit: the units are the floor of the magnitude. */
  lemma ParseTruncates(d: PlainDecimal)
    ensures var number := Denotation(d);
            UnitsOf(d) * Pow10(number.scale) <= number.numerator * SCALE_UNIT < (UnitsOf(d) + 1) * Pow10(number.scale)
  {
    var f := d.fraction;
    ValueOfConcat(d.whole, f);
    if |f| <= SCALE {
      ShortFractionIsExact(d);
      assert (UnitsOf(d) + 1) * Pow10(|f|) == UnitsOf(d) * Pow10(|f|) + Pow10(|f|);
    } else {
      ScaleUnitIsPower();
      var r := |f| - SCALE;
      assert ScaledFraction(f) == f[..SCALE];
      assert f == f[..SCALE] + f[SCALE..];
      ValueOfConcat(f[..SCALE], f[SCALE..]);
      ValueOfBound(f[SCALE..]);
      Pow10Add(SCALE, r);
      CutUnits(ValueOf(d.whole), ValueOf(f[..SCALE]), ValueOf(f[SCALE..]), SCALE_UNIT, Pow10(r));
    }
  }

  /** Nothing is lost when there are at most 18 fraction digits. */
  lemma ShortFractionIsExact(d: PlainDecimal)
    requires |d.fraction| <= SCALE
    ensures UnitsOf(d) * Pow10(|d.fraction|) == Denotation(d).numerator * SCALE_UNIT
  {
    ScaleUnitIsPower();
    var f := d.fraction;
    ValueOfConcat(d.whole, f);
    ValueOfPadEnd(f, SCALE);
    assert ScaledFraction(f) == PadEnd(f, SCALE);
    Pow10Add(SCALE - |f|, |f|);
    ExactUnits(ValueOf(d.whole), ValueOf(f), Pow10(|f|), Pow10(SCALE - |f|));
  }

  lemma ExactUnits(w: nat, f: nat, p: nat, k: nat)
    ensures (w * (k * p) + f * k) * p == (w * p + f) * (k * p)
  {
    assert w * (k * p) * p == w * p * (k * p);
    assert f * k * p == f * (k * p);
  }

  lemma CutUnits(w: nat, head: nat, tail: nat, unit: nat, p: nat)
    requires tail < p && unit > 0
    ensures var units := w * unit + head;
            units * (unit * p) <= (w * (unit * p) + (head * p + tail)) * unit < (units + 1) * (unit * p)
  {
    var units := w * unit + head;
    assert units * p == w * (unit * p) + head * p;
    assert units * (unit * p) == (units * p) * unit;
    assert (units * p + tail) * unit == (units * p) * unit + tail * unit;
    assert (p - tail) * unit > 0;
    assert (units + 1) * (unit * p) == (units * p) * unit + p * unit;
  }

  /** A raw token amount becomes the floor of amount / 10^decimals in 18-digit units. */
  lemma RawAmountTruncates(raw: string, tokenDecimals: nat)
    requires raw != "" && AllDigits(raw)
    ensures DecimalFromRawAmount(raw, tokenDecimals).Ok?
    ensures var units := DecimalFromRawAmount(raw, tokenDecimals).value;
            units * Pow10(tokenDecimals) <= ValueOf(raw) * SCALE_UNIT < (units + 1) * Pow10(tokenDecimals)
  {
    if tokenDecimals <= SCALE {
      RaiseToScale(ValueOf(raw), tokenDecimals);
    } else {
      CutToScale(ValueOf(raw), tokenDecimals);
    }
  }

  lemma RaiseToScale(v: nat, k: nat)
    requires k <= SCALE
    ensures var units := v * Pow10(SCALE - k);
            units * Pow10(k) == v * SCALE_UNIT < (units + 1) * Pow10(k)
  {
    ScaleUnitIsPower();
    ScaleCommutes(v, SCALE - k, k);
    var units := v * Pow10(SCALE - k);
    assert (units + 1) * Pow10(k) == units * Pow10(k) + Pow10(k);
  }

  lemma CutToScale(v: nat, k: nat)
    requires k > SCALE
    ensures var units := v / Pow10(k - SCALE);
            units * Pow10(k) <= v * SCALE_UNIT < (units + 1) * Pow10(k)
  {
    ScaleUnitIsPower();
    Pow10Add(k - SCALE, SCALE);
    FloorScaled(v, Pow10(k - SCALE), SCALE_UNIT);
  }

  lemma FloorScaled(v: nat, p: nat, unit: nat)
    requires p > 0 && unit > 0
    ensures v / p * (p * unit) <= v * unit < (v / p + 1) * (p * unit)
  {
    var q, r := v / p, v % p;
    assert v == q * p + r;
    CutUnits(0, q, r, unit, p);
  }

  function RoundedToCents(v: int): int {
    var magnitude := Magnitude(v);
    var remainder := magnitude % CENT_UNIT;
    var carry := if remainder * 2 >= CENT_UNIT then CENT_UNIT else 0;
    var rounded := magnitude - remainder + carry;
    if v < 0 then -rounded else rounded
  }

  ghost predicate WholeCents(v: int) {
    exists cents: int :: v == cents * CENT_UNIT
  }

  /** The nearest whole number of cents to `v`, a tie going away from zero. */
  ghost predicate NearestCents(v: int, r: int) {
    && WholeCents(r)
    && 2 * (Magnitude(v) - Magnitude(r)) < CENT_UNIT
    && 2 * (Magnitude(r) - Magnitude(v)) <= CENT_UNIT
    && (r < 0 ==> v < 0)
    && (r > 0 ==> v > 0)
  }

  /** Rounding finds the nearest whole cent, and nothing else is nearest. */
  lemma RoundingIsNearest(v: int, r: int)
    ensures NearestCents(v, r) <==> r == RoundedToCents(v)
  {
    var m := Magnitude(v);
    var cents: int := m / CENT_UNIT + if m % CENT_UNIT * 2 >= CENT_UNIT then 1 else 0;
    assert RoundedToCents(v) == (if v < 0 then -cents else cents) * CENT_UNIT;
  }

  lemma RoundingKeepsCents(cents: int)
    ensures RoundedToCents(cents * CENT_UNIT) == cents * CENT_UNIT
  {
  }

  lemma RoundingIsMonotone(v: int, w: int)
    requires v <= w
    ensures RoundedToCents(v) <= RoundedToCents(w)
  {
    var a, b := RoundedToCents(v), RoundedToCents(w);
    RoundingIsNearest(v, a);
    RoundingIsNearest(w, b);
    if 0 <= v {
      assert Magnitude(v) / CENT_UNIT <= Magnitude(w) / CENT_UNIT;
    } else if w <= 0 {
      assert Magnitude(w) / CENT_UNIT <= Magnitude(v) / CENT_UNIT;
    }
  }

  /** Rounding twice is rounding once; it is odd, monotone and moves a value by at most half a cent. */
  lemma RoundingLaws(v: int, w: int)
    ensures RoundedToCents(RoundedToCents(v)) == RoundedToCents(v)
    ensures RoundedToCents(-v) == -RoundedToCents(v)
    ensures v <= w ==> RoundedToCents(v) <= RoundedToCents(w)
    ensures 2 * Magnitude(RoundedToCents(v) - v) <= CENT_UNIT
  {
    RoundingIsNearest(v, RoundedToCents(v));
    var cents: int :| RoundedToCents(v) == cents * CENT_UNIT;
    RoundingKeepsCents(cents);
    if v <= w {
      RoundingIsMonotone(v, w);
    }
  }

  function PublishedUsd(text: string): Result<string, Error> {
    var value :- DecimalFromText(text);
    Ok(DecimalToText(RoundedToCents(value)))
  }

  /** Publishing a published figure changes nothing. */
  lemma PublishedIsIdempotent(text: string)
    requires DecimalFromText(text).Ok?
    ensures PublishedUsd(text).Ok?
    ensures PublishedUsd(PublishedUsd(text).value) == PublishedUsd(text)
  {
    var rounded := RoundedToCents(DecimalFromText(text).value);
    TextRoundTrip(rounded);
    RoundingLaws(DecimalFromText(text).value, 0);
  }

  /** Published figures keep the order of the amounts and stay within half a cent of them. */
  lemma PublishedFollowsAmounts(left: string, right: string)
    requires DecimalFromText(left).Ok? && DecimalFromText(right).Ok?
    requires DecimalFromText(left).value <= DecimalFromText(right).value
    ensures var a, b := DecimalFromText(left).value, DecimalFromText(right).value;
            var shownA, shownB := DecimalFromText(PublishedUsd(left).value), DecimalFromText(PublishedUsd(right).value);
            && shownA.Ok? && shownB.Ok? && shownA.value <= shownB.value
            && NearestCents(a, shownA.value) && NearestCents(b, shownB.value)
  {
    var a, b := DecimalFromText(left).value, DecimalFromText(right).value;
    TextRoundTrip(RoundedToCents(a));
    TextRoundTrip(RoundedToCents(b));
    RoundingLaws(a, b);
    RoundingIsNearest(a, RoundedToCents(a));
    RoundingIsNearest(b, RoundedToCents(b));
  }
}
