/** Characters, case folding and the decimal text of numbers, as the client library uses them:
    `strcasecmp`, `tolower`, `std::string::find`, `atoi` and the text a stream writes for an integer. */
module Text {

  datatype Option<+T> = None | Some(value: T)

  // ----- case folding -----

  function LowerChar(c: char): char {
    if 'A' <= c <= 'Z' then (c as int + 32) as char else c
  }

  /** `std::transform(s.begin(), s.end(), s.begin(), ::tolower)` in the C locale. */
  function Lower(s: string): (r: string)
    ensures |r| == |s|
    ensures forall i | 0 <= i < |s| :: r[i] == LowerChar(s[i])
  {
    seq(|s|, i requires 0 <= i < |s| => LowerChar(s[i]))
  }

  /** `strcasecmp(a, b) == 0`. */
  predicate SameName(a: string, b: string) {
    Lower(a) == Lower(b)
  }

  lemma {:induction false} LowerConcat(a: string, b: string)
    ensures Lower(a + b) == Lower(a) + Lower(b)
  {
  }

  // ----- searching -----

  /** `s.find(c, from)`, with -1 for npos. */
  function FindChar(s: string, c: char, from: nat): (r: int)
    ensures r == -1 || from <= r < |s|
    ensures r == -1 <==> forall k | from <= k < |s| :: s[k] != c
    ensures r != -1 ==> s[r] == c && forall k | from <= k < r :: s[k] != c
    decreases |s| - from
  {
    if from >= |s| then -1
    else if s[from] == c then from
    else FindChar(s, c, from + 1)
  }

  /** `s.rfind(c, upTo)`: the last occurrence at or before `upTo`, with -1 for npos. */
  function RFindChar(s: string, c: char, upTo: int): (r: int)
    requires -1 <= upTo < |s|
    ensures -1 <= r <= upTo
    ensures r == -1 <==> forall k | 0 <= k <= upTo :: s[k] != c
    ensures r != -1 ==> s[r] == c && forall k | r < k <= upTo :: s[k] != c
  {
    if upTo == -1 then -1
    else if s[upTo] == c then upTo
    else RFindChar(s, c, upTo - 1)
  }

  predicate OccursAt(s: string, pat: string, i: int) {
    0 <= i && i + |pat| <= |s| && s[i..i + |pat|] == pat
  }

  /** `s.find(pat)`, with -1 for npos. */
  function Find(s: string, pat: string, from: nat): (r: int)
    ensures r == -1 || (from <= r && OccursAt(s, pat, r))
    ensures r == -1 ==> forall k | from <= k :: !OccursAt(s, pat, k)
    ensures r != -1 ==> forall k | from <= k < r :: !OccursAt(s, pat, k)
    decreases |s| + 1 - from
  {
    if from + |pat| > |s| then -1
    else if OccursAt(s, pat, from) then from
    else Find(s, pat, from + 1)
  }

  /** `s.rfind(pat)`, with -1 for npos; `upTo` is the highest position still to be tried. */
  function RFind(s: string, pat: string, upTo: int): (r: int)
    ensures r == -1 || (0 <= r <= upTo && OccursAt(s, pat, r))
    ensures r == -1 ==> forall k | k <= upTo :: !OccursAt(s, pat, k)
    ensures r != -1 ==> forall k | r < k <= upTo :: !OccursAt(s, pat, k)
    decreases upTo + 1
  {
    if upTo < 0 then -1
    else if OccursAt(s, pat, upTo) then upTo
    else RFind(s, pat, upTo - 1)
  }

  // ----- decimal text -----

  predicate IsDigit(c: char) {
    '0' <= c <= '9'
  }

  predicate IsSpace(c: char) {
    c == ' ' || '\t' <= c <= '\r'
  }

  function DigitChar(d: nat): (c: char)
    requires d < 10
    ensures IsDigit(c) && DigitValue(c) == d
  {
    (d + 48) as char
  }

  function DigitValue(c: char): (d: nat)
    requires IsDigit(c)
    ensures d < 10
  {
    c as int - 48
  }

  /** The text a stream or `snprintf("%d")` writes for a non-negative integer. */
  function Dec(n: nat): (s: string)
    ensures |s| > 0
    ensures forall i | 0 <= i < |s| :: IsDigit(s[i])
  {
    if n < 10 then [DigitChar(n)] else Dec(n / 10) + [DigitChar(n % 10)]
  }

  /** The same for a signed integer. */
  function DecInt(n: int): (s: string)
    ensures |s| > 0
    ensures forall i | 0 <= i < |s| :: IsDigit(s[i]) || s[i] == '-'
  {
    if n < 0 then "-" + Dec(-n) else Dec(n)
  }

  /** Reads digits from position `i` on, starting from the value `acc`; gives the value and the end. */
  function ScanDigits(s: string, i: nat, acc: nat): (r: (nat, nat))
    ensures i <= r.1 && (i <= |s| ==> r.1 <= |s|)
    decreases |s| - i
  {
    if i < |s| && IsDigit(s[i]) then ScanDigits(s, i + 1, 10 * acc + DigitValue(s[i])) else (acc, i)
  }

  function SkipSpaces(s: string, i: nat): (r: nat)
    ensures i <= r && (i <= |s| ==> r <= |s|)
    decreases |s| - i
  {
    if i < |s| && IsSpace(s[i]) then SkipSpaces(s, i + 1) else i
  }

  /** A number read from text: its value, where reading stopped, and whether there was one digit at least. */
  datatype Number = Number(value: int, end: nat, ok: bool)

  /** Optional white space, an optional sign, digits: the syntax `atoi` and `stream >> int` share. */
  function ReadNumber(s: string, from: nat): (r: Number)
    ensures from <= |s| ==> r.end <= |s|
    ensures !r.ok ==> r.value == 0
  {
    var i := SkipSpaces(s, from);
    var signed := i < |s| && (s[i] == '-' || s[i] == '+');
    var start := if signed then i + 1 else i;
    var (v, end) := ScanDigits(s, start, 0);
    if end == start then Number(0, end, false)
    else
      var value: int := if signed && s[i] == '-' then 0 - v else v;
      Number(value, end, true)
  }

  function Atoi(s: string): int {
    ReadNumber(s, 0).value
  }

  /** Scanning over the text of `n` yields `n`, whatever stands before or behind it. */
  lemma {:induction false} ScanDec(s: string, i: nat, n: nat)
    requires OccursAt(s, Dec(n), i)
    ensures ScanDigits(s, i, 0) == ScanDigits(s, i + |Dec(n)|, n)
  {
    var d := Dec(n);
    forall k | 0 <= k < |d| ensures s[i + k] == d[k] {
      assert s[i..i + |d|][k] == d[k];
    }
    if n < 10 {
      assert s[i] == d[0];
    } else {
      var e := Dec(n / 10);
      assert OccursAt(s, e, i) by {
        assert s[i..i + |e|] == s[i..i + |d|][..|e|] == e;
      }
      ScanDec(s, i, n / 10);
      assert s[i + |e|] == d[|e|] == DigitChar(n % 10);
    }
  }

  /** Reading stops behind the text of a number when no further digit follows it. */
  lemma {:induction false} ReadDecInt(s: string, n: int, rest: string)
    requires s == DecInt(n) + rest
    requires rest == [] || !IsDigit(rest[0])
    ensures ReadNumber(s, 0) == Number(n, |DecInt(n)|, true)
  {
    var sign := if n < 0 then 1 else 0;
    var d := Dec(if n < 0 then -n else n);
    assert DecInt(n)[sign..] == d;
    assert s[sign..sign + |d|] == d;
    assert s[0] == DecInt(n)[0];
    assert s[sign] == d[0];
    ScanDec(s, sign, if n < 0 then -n else n);
    assert |rest| > 0 ==> s[sign + |d|] == rest[0];
  }

  lemma {:induction false} AtoiDec(n: nat)
    ensures Atoi(Dec(n)) == n
  {
    assert DecInt(n) == Dec(n) + [];
    ReadDecInt(Dec(n), n, []);
  }

  lemma {:induction false} AtoiDecInt(n: int)
    ensures Atoi(DecInt(n)) == n
  {
    assert DecInt(n) == DecInt(n) + [];
    ReadDecInt(DecInt(n), n, []);
  }

  /** Different numbers have different texts. */
  lemma {:induction false} DecInjective(a: nat, b: nat)
    requires Dec(a) == Dec(b)
    ensures a == b
  {
    AtoiDec(a);
    AtoiDec(b);
  }

  // ----- C strings -----

  /** What `c_str()` shows of a string: the text before its first NUL. */
  function CStr(s: string): (r: string)
    ensures |r| <= |s| && r == s[..|r|]
    ensures '\0' !in r
    ensures |r| < |s| ==> s[|r|] == '\0'
  {
    var i := FindChar(s, '\0', 0);
    if i == -1 then s else s[..i]
  }

  lemma {:induction false} CStrCuts(t: string, rest: string)
    requires '\0' !in t
    ensures CStr(t + ['\0'] + rest) == t
  {
    var s := t + ['\0'] + rest;
    assert s[|t|] == '\0';
    assert forall k | 0 <= k < |t| :: s[k] == t[k];
    assert FindChar(s, '\0', 0) == |t|;
    assert s[..|t|] == t;
  }
}
