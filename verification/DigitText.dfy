/** Digit strings and the numbers they write: `BigInt(text)`, `n.toString()`, `padStart`, `padEnd`,
    `replace(/0+$/, "")` and splitting at a character, with the laws the decimal code rests on. */
module DigitText {
  import opened Wrappers

  predicate IsDigit(c: char) {
    '0' <= c <= '9'
  }

  predicate AllDigits(s: string) {
    forall i | 0 <= i < |s| :: IsDigit(s[i])
  }

  type Digits = s: string | AllDigits(s)

  function DigitValue(c: char): nat
    requires IsDigit(c)
  {
    c as nat - '0' as nat
  }

  function DigitChar(d: nat): (c: char)
    requires d < 10
    ensures IsDigit(c) && DigitValue(c) == d
  {
    (d + '0' as nat) as char
  }

  function Pow10(k: nat): (p: nat)
    ensures p > 0
  {
    if k == 0 then 1 else 10 * Pow10(k - 1)
  }

  /** `BigInt(s)`; the empty string is 0n. */
  function ValueOf(s: Digits): nat {
    if s == "" then 0 else 10 * ValueOf(s[..|s| - 1]) + DigitValue(s[|s| - 1])
  }

  /** `n.toString()` of a non-negative integer. */
  function TextOf(n: nat): Digits {
    if n < 10 then [DigitChar(n)] else TextOf(n / 10) + [DigitChar(n % 10)]
  }

  function Zeros(k: nat): (z: Digits)
    ensures |z| == k
    ensures forall i | 0 <= i < k :: z[i] == '0'
  {
    seq(k, _ => '0')
  }

  /** `s.padStart(width, "0")` */
  function PadStart(s: Digits, width: nat): Digits {
    if |s| >= width then s else Zeros(width - |s|) + s
  }

  /** `s.padEnd(width, "0")` */
  function PadEnd(s: Digits, width: nat): Digits {
    if |s| >= width then s else s + Zeros(width - |s|)
  }

  /** `s.replace(/0+$/, "")` */
  function StripTrailingZeros(s: Digits): Digits {
    if s != "" && s[|s| - 1] == '0' then StripTrailingZeros(s[..|s| - 1]) else s
  }

  /** The usual spelling of a whole number: no leading zero unless it is the only digit. */
  function StripLeadingZeros(s: Digits): Digits {
    if |s| > 1 && s[0] == '0' then StripLeadingZeros(s[1..]) else s
  }

  /** Splits at the first `c`, the two parts `s.split(c)` starts with. */
  function SplitAt(s: string, c: char): (string, Option<string>) {
    if s == "" then ("", None)
    else if s[0] == c then ("", Some(s[1..]))
    else
      var (head, tail) := SplitAt(s[1..], c);
      ([s[0]] + head, tail)
  }

  lemma {:induction false} SplitAtJoin(head: string, c: char, tail: string)
    requires c !in head
    ensures SplitAt(head + [c] + tail, c) == (head, Some(tail))
    ensures SplitAt(head, c) == (head, None)
  {
    if head == "" {
      assert (head + [c] + tail)[1..] == tail;
    } else {
      SplitAtJoin(head[1..], c, tail);
      assert (head + [c] + tail)[1..] == head[1..] + [c] + tail;
      assert [head[0]] + head[1..] == head;
    }
  }

  /** What a split says of the string it was taken from. */
  lemma {:induction false} SplitAtParts(s: string, c: char)
    ensures var (head, tail) := SplitAt(s, c);
            && c !in head
            && s == if tail.Some? then head + [c] + tail.value else head
  {
    if s == "" {
    } else if s[0] == c {
      assert s == [c] + s[1..];
    } else {
      SplitAtParts(s[1..], c);
      assert s == [s[0]] + s[1..];
    }
  }

  lemma {:induction false} Pow10Add(a: nat, b: nat)
    ensures Pow10(a + b) == Pow10(a) * Pow10(b)
  {
    if a == 0 {
    } else {
      Pow10Add(a - 1, b);
      assert Pow10(a + b) == 10 * Pow10(a - 1 + b);
      assert Pow10(a) * Pow10(b) == 10 * (Pow10(a - 1) * Pow10(b));
    }
  }

  /** Reading a concatenation shifts the left part by the width of the right. */
  lemma {:induction false} ValueOfConcat(s: Digits, t: Digits)
    ensures ValueOf(s + t) == ValueOf(s) * Pow10(|t|) + ValueOf(t)
  {
    if t == "" {
      assert s + t == s;
    } else {
      var front := t[..|t| - 1];
      assert (s + t)[..|s + t| - 1] == s + front;
      ValueOfConcat(s, front);
      assert ValueOf(s) * Pow10(|t|) == 10 * (ValueOf(s) * Pow10(|front|));
    }
  }

  lemma {:induction false} ValueOfZeros(k: nat)
    ensures ValueOf(Zeros(k)) == 0
  {
    if k == 0 {
    } else {
      assert Zeros(k)[..k - 1] == Zeros(k - 1);
      ValueOfZeros(k - 1);
    }
  }

  lemma {:induction false} ValueOfBound(s: Digits)
    ensures ValueOf(s) < Pow10(|s|)
  {
    if s == "" {
    } else {
      ValueOfBound(s[..|s| - 1]);
    }
  }

  /** Among digit strings of one length the value determines the string. */
  lemma {:induction false} ValueOfInjective(s: Digits, t: Digits)
    requires |s| == |t|
    requires ValueOf(s) == ValueOf(t)
    ensures s == t
  {
    if s == "" {
    } else {
      var n := |s| - 1;
      ValueOfInjective(s[..n], t[..n]);
      assert s == s[..n] + [s[n]] && t == t[..n] + [t[n]];
      assert s[n] as nat == t[n] as nat;
    }
  }

  lemma ValueOfPadStart(s: Digits, width: nat)
    ensures ValueOf(PadStart(s, width)) == ValueOf(s)
    ensures |PadStart(s, width)| == if |s| >= width then |s| else width
  {
    if |s| < width {
      ValueOfConcat(Zeros(width - |s|), s);
      ValueOfZeros(width - |s|);
    }
  }

  lemma ValueOfPadEnd(s: Digits, width: nat)
    requires |s| <= width
    ensures ValueOf(PadEnd(s, width)) == ValueOf(s) * Pow10(width - |s|)
    ensures |PadEnd(s, width)| == width
  {
    ValueOfConcat(s, Zeros(width - |s|));
    ValueOfZeros(width - |s|);
    if |s| == width {
      assert s + Zeros(0) == s;
    }
  }

  /** `BigInt(n.toString())` is `n`, and the text has no needless leading zero. */
  lemma {:induction false} TextOfValue(n: nat)
    ensures ValueOf(TextOf(n)) == n
    ensures TextOf(n) != ""
    ensures |TextOf(n)| > 1 ==> TextOf(n)[0] != '0'
    ensures n > 0 ==> TextOf(n)[0] != '0'
  {
    if n < 10 {
      assert TextOf(n)[..0] == "";
    } else {
      TextOfValue(n / 10);
      var s := TextOf(n);
      assert s[..|s| - 1] == TextOf(n / 10);
    }
  }

  /** Dropping trailing zeros is dropping a run of zeros and leaves none behind. */
  lemma {:induction false} StripTrailingZerosParts(s: Digits)
    ensures var kept := StripTrailingZeros(s);
            && |kept| <= |s|
            && s == kept + Zeros(|s| - |kept|)
            && (kept != "" ==> kept[|kept| - 1] != '0')
  {
    if s != "" && s[|s| - 1] == '0' {
      var front := s[..|s| - 1];
      StripTrailingZerosParts(front);
      assert s == front + "0";
      var kept := StripTrailingZeros(front);
      assert Zeros(|front| - |kept|) + "0" == Zeros(|s| - |kept|);
    } else {
      assert s + Zeros(0) == s;
    }
  }

  /** The kept part is determined by those two facts. */
  lemma {:induction false} StripTrailingZerosUnique(kept: Digits, k: nat)
    requires kept != "" ==> kept[|kept| - 1] != '0'
    ensures StripTrailingZeros(kept + Zeros(k)) == kept
  {
    if k == 0 {
      assert kept + Zeros(0) == kept;
    } else {
      var s := kept + Zeros(k);
      assert s[..|s| - 1] == kept + Zeros(k - 1);
      StripTrailingZerosUnique(kept, k - 1);
    }
  }

  lemma {:induction false} StripLeadingZerosValue(s: Digits)
    ensures ValueOf(StripLeadingZeros(s)) == ValueOf(s)
    ensures s != "" ==> StripLeadingZeros(s) != ""
    ensures |StripLeadingZeros(s)| > 1 ==> StripLeadingZeros(s)[0] != '0'
  {
    if |s| > 1 && s[0] == '0' {
      StripLeadingZerosValue(s[1..]);
      assert s == "0" + s[1..];
      ValueOfConcat("0", s[1..]);
      assert ValueOf("0") == 0 by {
        assert "0"[..0] == "";
      }
    }
  }

  /** Two spellings without leading zeros of the same number are the same. */
  lemma {:induction false} NoLeadingZerosUnique(s: Digits, t: Digits)
    requires s != "" && t != ""
    requires |s| > 1 ==> s[0] != '0'
    requires |t| > 1 ==> t[0] != '0'
    requires ValueOf(s) == ValueOf(t)
    ensures s == t
  {
    LeadingDigitBound(s);
    LeadingDigitBound(t);
    ValueOfBound(s);
    ValueOfBound(t);
    if |s| < |t| {
      Pow10Monotone(|s|, |t| - 1);
      assert false;
    } else if |t| < |s| {
      Pow10Monotone(|t|, |s| - 1);
      assert false;
    }
    ValueOfInjective(s, t);
  }

  lemma {:induction false} Pow10Monotone(a: nat, b: nat)
    requires a <= b
    ensures Pow10(a) <= Pow10(b)
  {
    if a < b {
      Pow10Monotone(a, b - 1);
    }
  }

  lemma {:induction false} LeadingDigitBound(s: Digits)
    requires s != ""
    ensures s[0] != '0' ==> Pow10(|s| - 1) <= ValueOf(s)
  {
    var front := s[..|s| - 1];
    if front == "" {
      assert ValueOf(s) == DigitValue(s[0]);
    } else {
      LeadingDigitBound(front);
    }
  }

  /** `BigInt(s).toString()` respells `s` without leading zeros. */
  lemma TextOfRead(s: Digits)
    requires s != ""
    ensures TextOf(ValueOf(s)) == StripLeadingZeros(s)
  {
    TextOfValue(ValueOf(s));
    StripLeadingZerosValue(s);
    NoLeadingZerosUnique(TextOf(ValueOf(s)), StripLeadingZeros(s));
  }

  /** A decimal text without sign: `\d+(\.\d+)?`, as its whole and fraction digits. */
  datatype PlainDecimal = PlainDecimal(whole: Digits, fraction: Digits)

  /** `/^\d+(\.\d+)?$/` together with the split at the point; None when the pattern fails. */
  function ReadPlain(text: string): Option<PlainDecimal> {
    var (whole, fraction) := SplitAt(text, '.');
    if whole == "" || !AllDigits(whole) then None
    else match fraction
      case None => Some(PlainDecimal(whole, ""))
      case Some(f) => if f == "" || !AllDigits(f) then None else Some(PlainDecimal(whole, f))
  }

  /** The text with the point put back; an empty fraction takes none. */
  function WritePlain(d: PlainDecimal): string {
    if d.fraction == "" then d.whole else d.whole + "." + d.fraction
  }

  /** Reading what is written gives the same digits, and only written texts are readable. */
  lemma ReadWritePlain(d: PlainDecimal)
    requires d.whole != ""
    ensures ReadPlain(WritePlain(d)) == Some(d)
  {
    assert '.' !in d.whole;
    SplitAtJoin(d.whole, '.', d.fraction);
  }

  lemma WriteReadPlain(text: string)
    ensures ReadPlain(text).Some? ==>
              WritePlain(ReadPlain(text).value) == text && ReadPlain(text).value.whole != ""
  {
    SplitAtParts(text, '.');
  }

  /** A number given by a numerator and a power of ten below it: numerator / 10^scale. */
  datatype Scaled = Scaled(numerator: int, scale: nat)

  /** The number a decimal text denotes. */
  function Denotation(d: PlainDecimal): (number: Scaled)
    ensures number.numerator >= 0
  {
    Scaled(ValueOf(d.whole + d.fraction), |d.fraction|)
  }

  /** Equality of the denoted rationals, by cross-multiplication. */
  ghost predicate SameNumber(a: Scaled, b: Scaled) {
    a.numerator * Pow10(b.scale) == b.numerator * Pow10(a.scale)
  }

  /** No needless zero at either end. */
  ghost predicate Canonical(d: PlainDecimal) {
    && d.whole != ""
    && (|d.whole| > 1 ==> d.whole[0] != '0')
    && (d.fraction != "" ==> d.fraction[|d.fraction| - 1] != '0')
  }

  /** Cutting trailing zeros off the fraction does not move the number. */
  lemma StripTrailingZerosDenotes(whole: Digits, fraction: Digits)
    ensures SameNumber(Denotation(PlainDecimal(whole, StripTrailingZeros(fraction))),
                       Denotation(PlainDecimal(whole, fraction)))
  {
    var kept := StripTrailingZeros(fraction);
    StripTrailingZerosParts(fraction);
    var k := |fraction| - |kept|;
    assert whole + fraction == (whole + kept) + Zeros(k);
    ValueOfConcat(whole + kept, Zeros(k));
    ValueOfZeros(k);
    Pow10Add(k, |kept|);
    ScaleCommutes(ValueOf(whole + kept), k, |kept|);
  }

  lemma ScaleCommutes(v: int, a: nat, b: nat)
    ensures v * Pow10(a + b) == (v * Pow10(a)) * Pow10(b)
  {
    Pow10Add(a, b);
    assert v * (Pow10(a) * Pow10(b)) == (v * Pow10(a)) * Pow10(b);
  }

  /** A number's digits with a point before the last `scale` of them, padded so that one stands before it. */
  function PaddedDigits(value: nat, scale: nat): PlainDecimal {
    var digits := PadStart(TextOf(value), scale + 1);
    PlainDecimal(digits[..|digits| - scale], digits[|digits| - scale..])
  }

  lemma PaddedDigitsDenote(value: nat, scale: nat)
    ensures PaddedDigits(value, scale).whole != ""
    ensures Denotation(PaddedDigits(value, scale)) == Scaled(value, scale)
  {
    hide TextOf, ValueOf;
    var digits := PadStart(TextOf(value), scale + 1);
    TextOfValue(value);
    ValueOfPadStart(TextOf(value), scale + 1);
    assert digits[..|digits| - scale] + digits[|digits| - scale..] == digits;
  }
}
