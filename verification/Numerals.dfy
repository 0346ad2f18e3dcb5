/** The decimal texts that stand for counts, ports and file numbers, digit by digit. */
module Numerals {
  import opened Text
  import opened Stream
  import AttributeName
  import Dotted

  const DIGITS := "0123456789"

  lemma {:induction false} DigitsInOrder(d: nat)
    requires d < 10
    ensures DigitChar(d) == DIGITS[d] && DigitValue(DIGITS[d]) == d
  {
    assert DIGITS[d] as int == 48 + d;
  }

  function Pow10(k: nat): (p: nat)
    ensures p > 0
  {
    if k == 0 then 1 else 10 * Pow10(k - 1)
  }

  lemma {:induction false} TenthOf(n: nat, p: nat)
    requires p > 0
    ensures n / (10 * p) == n / 10 / p
  {
    var a, b := n / 10, n / 10 / p;
    assert n == 10 * a + n % 10 && a == p * b + a % p;
    assert n == (10 * p) * b + (10 * (a % p) + n % 10);
    assert 0 <= 10 * (a % p) + n % 10 < 10 * p;
    QuotientIs(n, 10 * p, b, 10 * (a % p) + n % 10);
  }

  lemma {:induction false} QuotientIs(n: nat, m: nat, q: nat, r: nat)
    requires 0 <= r < m && n == m * q + r
    ensures n / m == q
  {
    var d, e := n / m, n % m;
    assert n == m * d + e && 0 <= e < m;
    assert m * (q - d) == e - r;
    Dotted.Multiple(m, q - d);
  }

  /** Digit `k` of `n`, counted from the right. */
  function Digit(n: nat, k: nat): char {
    DIGITS[n / Pow10(k) % 10]
  }

  lemma {:induction false} DigitShift(n: nat, k: nat)
    ensures Digit(n, k + 1) == Digit(n / 10, k)
    ensures Digit(n, 0) == DIGITS[n % 10]
  {
    TenthOf(n, Pow10(k));
  }

  /** The text of `n` consists of its digits, with no leading zero. */
  lemma {:induction false} DecimalDigits(n: nat)
    ensures forall k | 0 <= k < |Dec(n)| :: Dec(n)[|Dec(n)| - 1 - k] == Digit(n, k)
  {
    hide Digit;
    var s := Dec(n);
    DigitsInOrder(n % 10);
    DigitShift(n, 0);
    if n >= 10 {
      DecimalDigits(n / 10);
      var front := Dec(n / 10);
      assert s == front + [DigitChar(n % 10)];
      hide Dec;
      forall k | 0 <= k < |s| ensures s[|s| - 1 - k] == Digit(n, k) {
        if k > 0 {
          assert s[|s| - 1 - k] == front[|front| - 1 - (k - 1)];
          DigitShift(n, k - 1);
        }
      }
    }
  }

  lemma {:induction false} DecimalLength(n: nat)
    ensures n < Pow10(|Dec(n)|) && (|Dec(n)| > 1 ==> n >= Pow10(|Dec(n)| - 1))
  {
    assert Pow10(1) == 10 * Pow10(0);
    if n >= 10 {
      DecimalLength(n / 10);
      var front := |Dec(n / 10)|;
      assert |Dec(n)| == front + 1;
      assert Pow10(front) == 10 * Pow10(front - 1);
    }
  }

  // ----- reading -----

  /** White space: blank, tab, line feed, vertical tab, form feed and carriage return. */
  lemma {:induction false} Spaces(c: char)
    ensures IsSpace(c) <==> c in " \t\n\U{000B}\U{000C}\r"
  {
  }

  lemma {:induction false} DigitExact(c: char)
    ensures IsDigit(c) <==> c in DIGITS
  {
    if IsDigit(c) {
      DigitsInOrder(c as int - 48);
    }
  }

  lemma {:induction false} SpacesSkipped(s: string, i: nat, n: nat)
    requires i <= n <= |s| && (forall k | i <= k < n :: IsSpace(s[k])) && (n < |s| ==> !IsSpace(s[n]))
    ensures SkipSpaces(s, i) == n
    decreases n - i
  {
    hide IsSpace;
    if i < n {
      SpacesSkipped(s, i + 1, n);
    }
  }

  /** White space, a sign or none, digits, and whatever follows that is no digit. */
  lemma {:induction false} ReadWritten(spaces: string, sign: string, n: nat, rest: string)
    requires forall c | c in spaces :: IsSpace(c)
    requires sign == "" || sign == "+" || sign == "-"
    requires rest == [] || !IsDigit(rest[0])
    ensures var value: int := if sign == "-" then 0 - n else n;
            ReadNumber(spaces + sign + Dec(n) + rest, 0) == Number(value, |spaces| + |sign| + |Dec(n)|, true)
  {
    hide Dec, IsSpace;
    var s, d := spaces + sign + Dec(n) + rest, Dec(n);
    var start := |spaces| + |sign|;
    assert forall k | 0 <= k < |spaces| :: s[k] == spaces[k];
    assert s[start] == d[0] && IsDigit(d[0]);
    assert sign != "" ==> s[|spaces|] == sign[0];
    assert !IsSpace(s[|spaces|]) by {
      Spaces(s[|spaces|]);
    }
    SpacesSkipped(s, 0, |spaces|);
    assert s[start..start + |d|] == d;
    ScanDec(s, start, n);
    assert rest != [] ==> s[start + |d|] == rest[0];
  }

  /** Where no digit follows white space and sign there is no number. */
  lemma {:induction false} NoNumber(spaces: string, sign: string, rest: string)
    requires forall c | c in spaces :: IsSpace(c)
    requires sign == "" || sign == "+" || sign == "-"
    requires rest == [] || (!IsDigit(rest[0]) && (sign == "" ==> !IsSpace(rest[0]) && rest[0] != '+' && rest[0] != '-'))
    ensures !ReadNumber(spaces + sign + rest, 0).ok && ReadNumber(spaces + sign + rest, 0).value == 0
  {
    hide IsSpace;
    var s := spaces + sign + rest;
    assert forall k | 0 <= k < |spaces| :: s[k] == spaces[k];
    assert sign != "" ==> s[|spaces|] == sign[0];
    assert rest != [] ==> s[|spaces| + |sign|] == rest[0];
    if |spaces| < |s| {
      Spaces(s[|spaces|]);
    }
    SpacesSkipped(s, 0, |spaces|);
  }

  /** Numbers out of the range of the type they are read into: the nearest bound and a failed stream,
      except that an unsigned type takes a small negative number modulo its range. */
  lemma {:induction false} NextOutOfRange(s: StringStream, n: int, lo: int, hi: int)
    requires s.Valid() && !s.fail && lo <= 0 <= hi && !(lo <= n <= hi)
    ensures var (v, t) := s.Next(DecInt(n), lo, hi);
            if n > hi then v == hi && t.fail
            else if lo < 0 then v == lo && t.fail
            else if n >= -hi then v == hi + 1 + n && !t.fail
            else v == hi && t.fail
  {
    var tail := AfterRewind(s, DecInt(n));
    var buf := DecInt(n) + ['\0'] + tail;
    assert buf == DecInt(n) + (['\0'] + tail);
    ReadDecInt(buf, n, ['\0'] + tail);
  }

  /** A text with no digit behind white space and sign: 0 and a failed stream. */
  lemma {:induction false} NextUnreadable(s: StringStream, spaces: string, sign: string, rest: string, lo: int, hi: int)
    requires s.Valid() && !s.fail && lo <= 0 <= hi
    requires forall c | c in spaces :: IsSpace(c)
    requires sign == "" || sign == "+" || sign == "-"
    requires rest == [] || (!IsDigit(rest[0]) && (sign == "" ==> !IsSpace(rest[0]) && rest[0] != '+' && rest[0] != '-'))
    ensures var (v, t) := s.Next(spaces + sign + rest, lo, hi); v == 0 && t.fail
  {
    var text := spaces + sign + rest;
    var tail := AfterRewind(s, text);
    var behind := rest + (['\0'] + tail);
    assert text + ['\0'] + tail == spaces + sign + behind;
    NoNumber(spaces, sign, behind);
  }

  /** A port written in decimal is read as its number. */
  lemma {:induction false} PortRead(n: nat)
    requires n <= INT_MAX
    ensures AttributeName.PortNumber(Dec(n)) == n
  {
    hide StringStream.Next;
    assert DecInt(n) == Dec(n);
    NextDec(Fresh, n, INT_MIN, INT_MAX);
  }
}
