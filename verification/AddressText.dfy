/** Address texts compared without regard to letter case. */
module AddressText {

  function LowerChar(c: char): char {
    if 'A' <= c <= 'Z' then (c as int + 32) as char else c
  }

  /** `toLowerCase()` of an ASCII text. */
  function ToLower(s: string): string {
    seq(|s|, i requires 0 <= i < |s| => LowerChar(s[i]))
  }

  /** One character, or the two cases of one letter. */
  ghost predicate SameLetter(c: char, d: char) {
    || c == d
    || ('A' <= c <= 'Z' && d as int == c as int + 32)
    || ('A' <= d <= 'Z' && c as int == d as int + 32)
  }

  /** Two texts have one lower-case form exactly when they differ in the case of letters only. */
  lemma SameLowerCase(s: string, t: string)
    ensures ToLower(s) == ToLower(t) <==> |s| == |t| && forall i | 0 <= i < |s| :: SameLetter(s[i], t[i])
  {
    assert |ToLower(s)| == |s| && |ToLower(t)| == |t|;
    assert forall i | 0 <= i < |s| && |s| == |t| :: SameLetter(s[i], t[i]) <==> ToLower(s)[i] == ToLower(t)[i];
  }
}
