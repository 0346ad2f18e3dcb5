/** What ignoring case means, letter by letter. */
module Letters {
  import opened Text

  const UPPER := "ABCDEFGHIJKLMNOPQRSTUVWXYZ"
  const LOWER := "abcdefghijklmnopqrstuvwxyz"

  lemma {:induction false} Alphabet(k: nat)
    requires k < 26
    ensures UPPER[k] as int == 65 + k && LOWER[k] as int == 97 + k
  {
  }

  /** Case folding maps each capital to its small letter and leaves every other character alone. */
  lemma {:induction false} Folding(c: char)
    ensures forall k | 0 <= k < 26 :: LowerChar(UPPER[k]) == LOWER[k]
    ensures c !in UPPER ==> LowerChar(c) == c
  {
    forall k | 0 <= k < 26 ensures LowerChar(UPPER[k]) == LOWER[k] {
      Alphabet(k);
    }
    if 'A' <= c <= 'Z' {
      Alphabet(c as int - 65);
      assert UPPER[c as int - 65] == c;
    }
  }

  /** Equal, or the two cases of one letter. */
  predicate SameLetter(c: char, d: char) {
    c == d || exists k | 0 <= k < 26 :: (c == UPPER[k] && d == LOWER[k]) || (c == LOWER[k] && d == UPPER[k])
  }

  predicate SpeltAlike(a: string, b: string) {
    |a| == |b| && forall i | 0 <= i < |a| :: SameLetter(a[i], b[i])
  }

  lemma {:induction false} SameLetterFolds(c: char, d: char)
    ensures SameLetter(c, d) <==> LowerChar(c) == LowerChar(d)
  {
    if c != d && LowerChar(c) == LowerChar(d) {
      var k := LowerChar(c) as int - 97;
      Alphabet(k);
    }
    if SameLetter(c, d) && c != d {
      var k :| 0 <= k < 26 && ((c == UPPER[k] && d == LOWER[k]) || (c == LOWER[k] && d == UPPER[k]));
      Alphabet(k);
    }
  }

  /** Names are the same exactly when they differ in the case of letters only. */
  lemma {:induction false} SameNameExact(a: string, b: string)
    ensures SameName(a, b) <==> SpeltAlike(a, b)
  {
    hide LowerChar, SameLetter;
    var la, lb := Lower(a), Lower(b);
    if |a| == |b| {
      forall i | 0 <= i < |a| ensures SameLetter(a[i], b[i]) <==> la[i] == lb[i] {
        SameLetterFolds(a[i], b[i]);
      }
    }
  }
}
