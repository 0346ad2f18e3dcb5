/** Names split at a delimiter, and the logger name component of a log layout, which keeps the last
    segments of a dotted name by searching it backwards with unsigned positions. */
module Dotted {
  import opened Text

  // ----- segments -----

  function Segments(s: string, d: char): (r: seq<string>)
    ensures |r| >= 1
    decreases |s|
  {
    var pos := FindChar(s, d, 0);
    if pos == -1 then [s] else [s[..pos]] + Segments(s[pos + 1..], d)
  }

  function Join(segs: seq<string>, d: char): string
    requires segs != []
  {
    if |segs| == 1 then segs[0] else segs[0] + [d] + Join(segs[1..], d)
  }

  lemma {:induction false} FirstSegment(a: string, d: char, b: string)
    requires d !in a
    ensures Segments(a + [d] + b, d) == [a] + Segments(b, d)
  {
    var s := a + [d] + b;
    assert s[|a|] == d;
    assert forall k | 0 <= k < |a| :: s[k] == a[k];
    assert FindChar(s, d, 0) == |a|;
    assert s[..|a|] == a && s[|a| + 1..] == b;
  }

  lemma {:induction false} NoDelimiter(s: string, d: char)
    requires d !in s
    ensures Segments(s, d) == [s]
  {
  }

  /** Every delimiter separates the segments before it from those behind it. */
  lemma {:induction false} SplitAtDelimiter(a: string, d: char, b: string)
    ensures Segments(a + [d] + b, d) == Segments(a, d) + Segments(b, d)
    decreases |a|
  {
    hide FindChar;
    var pos := FindChar(a, d, 0);
    if pos == -1 {
      FirstSegment(a, d, b);
      NoDelimiter(a, d);
    } else {
      var first, rest := a[..pos], a[pos + 1..];
      assert a == first + [d] + rest;
      assert a + [d] + b == first + [d] + (rest + [d] + b);
      assert forall k | 0 <= k < |first| :: first[k] == a[k];
      FirstSegment(first, d, rest + [d] + b);
      FirstSegment(first, d, rest);
      SplitAtDelimiter(rest, d, b);
    }
  }

  lemma {:induction false} JoinOne(s: string, d: char)
    ensures Join([s], d) == s
  {
  }

  lemma {:induction false} JoinCons(first: string, rest: seq<string>, d: char)
    requires rest != []
    ensures Join([first] + rest, d) == first + [d] + Join(rest, d)
  {
    assert ([first] + rest)[1..] == rest;
  }

  /** Joining the segments gives the text back, and no segment holds the delimiter. */
  lemma {:induction false} JoinSegments(s: string, d: char)
    ensures Join(Segments(s, d), d) == s
    ensures forall g | g in Segments(s, d) :: d !in g
    decreases |s|
  {
    hide FindChar, Join;
    var pos := FindChar(s, d, 0);
    if pos == -1 {
      JoinOne(s, d);
    } else {
      var first, rest := s[..pos], s[pos + 1..];
      JoinSegments(rest, d);
      JoinCons(first, Segments(rest, d), d);
      assert s == first + [d] + rest;
    }
  }

  /** Segments are the only way to write a text as delimiter-free pieces joined. */
  lemma {:induction false} SegmentsOfJoin(segs: seq<string>, d: char)
    requires segs != [] && forall g | g in segs :: d !in g
    ensures Segments(Join(segs, d), d) == segs
    decreases |segs|
  {
    if |segs| == 1 {
      NoDelimiter(segs[0], d);
    } else {
      FirstSegment(segs[0], d, Join(segs[1..], d));
      SegmentsOfJoin(segs[1..], d);
      assert segs == [segs[0]] + segs[1..];
    }
  }

  /** The template `split`: the whole list of segments, or the first ones and what is left of the text
      when `maxSegments` is reached. A maximum of 0 still yields one segment. */
  method Split(s: string, delimiter: char, maxSegments: nat) returns (output: seq<string>, count: nat)
    ensures count == |output| >= 1 && count <= (if maxSegments == 0 then 1 else maxSegments)
    ensures Join(output, delimiter) == s
    ensures forall k | 0 <= k < |output| - 1 :: delimiter !in output[k]
    ensures |output| < maxSegments ==> output == Segments(s, delimiter)
    ensures Segments(s, delimiter) == output[..|output| - 1] + Segments(output[|output| - 1], delimiter)
  {
    hide Segments, Join, FindChar;
    var left := 0;
    var i := 1;
    output := [];
    var right := 0;
    while i < maxSegments
      invariant 0 <= left <= |s| && |output| == i - 1
      invariant i <= maxSegments || i == 1
      invariant forall k | 0 <= k < |output| :: delimiter !in output[k]
      invariant Segments(s, delimiter) == output + Segments(s[left..], delimiter)
    {
      right := FindChar(s, delimiter, left);
      if right == -1 {
        break;
      }
      var piece, rest := s[left..right], s[right + 1..];
      assert s[left..] == piece + [delimiter] + rest;
      FirstSegment(piece, delimiter, rest);
      assert output + ([piece] + Segments(rest, delimiter)) == (output + [piece]) + Segments(rest, delimiter);
      output := output + [piece];
      left := right + 1;
      i := i + 1;
    }
    var last := s[left..];
    if i < maxSegments {
      NoDelimiter(last, delimiter);
    }
    JoinPieces(s, output, last, delimiter);
    output := output + [last];
    assert output[..|output| - 1] + Segments(last, delimiter) == Segments(s, delimiter);
    return output, i;
  }

  /** Segments regrouped at their end still join to the text. */
  lemma {:induction false} JoinPieces(s: string, pieces: seq<string>, last: string, d: char)
    requires Segments(s, d) == pieces + Segments(last, d)
    ensures Join(pieces + [last], d) == s
  {
    JoinSegments(s, d);
    JoinSegments(last, d);
    JoinAppend(pieces, Segments(last, d), d);
    JoinAppend(pieces, [last], d);
  }

  lemma {:induction false} JoinAppend(a: seq<string>, b: seq<string>, d: char)
    requires b != []
    ensures Join(a + b, d) == (if a == [] then [] else Join(a, d) + [d]) + Join(b, d)
    decreases |a|
  {
    if a == [] {
      assert a + b == b;
    } else {
      assert (a + b)[0] == a[0] && (a + b)[1..] == a[1..] + b;
      JoinAppend(a[1..], b, d);
      if |a| == 1 {
        assert a[1..] == [];
      }
    }
  }

  // ----- the logger name component -----

  const NPOS := 0xFFFF_FFFF_FFFF_FFFF

  /** The last `n` segments of a dotted name, joined. */
  function LastSegments(name: string, n: nat): string
    requires 1 <= n <= |Segments(name, '.')|
  {
    var segs := Segments(name, '.');
    Join(segs[|segs| - n..], '.')
  }

  /** How many segments a precision asks for: all of them when the name has fewer. */
  function Asked(name: string, precision: nat): (n: nat)
    requires precision >= 1
    ensures 1 <= n <= |Segments(name, '.')|
  {
    var k := |Segments(name, '.')|;
    if precision < k then precision else k
  }

  predicate LeadingDot(name: string) {
    |name| > 0 && name[0] == '.'
  }

  lemma {:induction false} LeadingSegment(name: string)
    requires LeadingDot(name)
    ensures Segments(name, '.') == [""] + Segments(name[1..], '.')
  {
    assert name == "" + ['.'] + name[1..];
    FirstSegment("", '.', name[1..]);
  }

  /** How many segments the search keeps. Behind a leading dot it starts over from the end of the name. */
  function Kept(name: string, precision: nat): (n: nat)
    requires precision >= 1
    ensures 1 <= n <= |Segments(name, '.')|
  {
    if LeadingDot(name) then
      LeadingSegment(name);
      (precision - 1) % (|Segments(name, '.')| - 1) + 1
    else Asked(name, precision)
  }

  /** A segment start at `begin` with `n` segments from there on. */
  ghost predicate StartsSegment(name: string, begin: nat, n: nat) {
    && 0 < begin <= |name|
    && name[begin - 1] == '.'
    && |Segments(name[begin..], '.')| == n
  }

  lemma {:induction false} FromStart(name: string, begin: nat, n: nat)
    requires StartsSegment(name, begin, n)
    ensures Segments(name, '.') == Segments(name[..begin - 1], '.') + Segments(name[begin..], '.')
    ensures 1 <= n < |Segments(name, '.')|
    ensures LastSegments(name, n) == name[begin..]
  {
    hide Segments, Join;
    assert name == name[..begin - 1] + ['.'] + name[begin..];
    SplitAtDelimiter(name[..begin - 1], '.', name[begin..]);
    var segs := Segments(name, '.');
    assert segs[|segs| - n..] == Segments(name[begin..], '.');
    JoinSegments(name[begin..], '.');
  }

  /** The dot found next before a segment start begins exactly one more segment. */
  lemma {:induction false} PreviousStart(name: string, begin: nat, n: nat, r: nat)
    requires StartsSegment(name, begin, n)
    requires r < begin - 1 && name[r] == '.' && forall k | r < k < begin - 1 :: name[k] != '.'
    ensures StartsSegment(name, r + 1, n + 1)
  {
    hide Segments;
    var piece := name[r + 1..begin - 1];
    assert name[r + 1..] == piece + ['.'] + name[begin..];
    FirstSegment(piece, '.', name[begin..]);
  }

  lemma {:induction false} LastStart(name: string, r: nat)
    requires r < |name| && name[r] == '.' && forall k | r < k < |name| :: name[k] != '.'
    ensures StartsSegment(name, r + 1, 1)
  {
    NoDelimiter(name[r + 1..], '.');
  }

  /** With a leading dot, only the start right behind it has all segments but the empty first one. */
  lemma {:induction false} SecondStart(name: string, begin: nat, n: nat)
    requires LeadingDot(name) && StartsSegment(name, begin, n)
    ensures begin == 1 <==> n == |Segments(name, '.')| - 1
  {
    hide Segments;
    LeadingSegment(name);
    FromStart(name, begin, n);
    if begin > 1 {
      assert name[..begin - 1] == "" + ['.'] + name[1..begin - 1];
      FirstSegment("", '.', name[1..begin - 1]);
    }
  }

  lemma {:induction false} NextRemainder(i: nat, m: nat)
    requires m >= 1 && i >= 1
    ensures i % m + 1 == if (i - 1) % m + 1 == m then 1 else (i - 1) % m + 2
  {
    var q, r := (i - 1) / m, (i - 1) % m;
    assert i - 1 == m * q + r;
    if r + 1 == m {
      assert i == m * (q + 1) + 0;
      Remainder(i, m, q + 1, 0);
    } else {
      assert i == m * q + (r + 1);
      Remainder(i, m, q, r + 1);
    }
  }

  lemma {:induction false} Multiple(m: int, x: int)
    requires m >= 1
    ensures x >= 1 ==> m * x >= m
    ensures x <= -1 ==> m * x <= -m
  {
    if x >= 1 {
      assert m * x == m + m * (x - 1);
    } else if x <= -1 {
      assert m * x == m * (x + 1) - m;
    }
  }

  lemma {:induction false} Remainder(i: nat, m: nat, q: nat, r: nat)
    requires 0 <= r < m && i == m * q + r
    ensures i % m == r
  {
    var d, e := i / m, i % m;
    assert i == m * d + e && 0 <= e < m;
    assert m * (q - d) == e - r;
    Multiple(m, q - d);
  }

  /** `begin - 2` on an unsigned position. */
  function Before(begin: nat): nat
    requires begin <= NPOS
  {
    if begin >= 2 then begin - 2 else begin - 2 + NPOS + 1
  }

  /** `LoggerNameComponent::append`: what is written for a logger name, or `None` where `substr` throws
      because the search never ran. Names are shorter than the largest position. */
  method Append(precision: int, name: string) returns (out: Option<string>)
    requires |name| < NPOS - 2
    ensures precision == -1 ==> out == Some(name)
    ensures precision < -1 || precision == 0 ==> out == None
    ensures precision >= 1 ==> out == Some(LastSegments(name, Kept(name, precision)))
  {
    hide Segments, Join, RFindChar;
    if precision == -1 {
      return Some(name);
    }
    var begin: nat := NPOS;
    var i: nat := 0;
    while i < precision
      invariant i == 0 || i <= precision
      invariant begin <= NPOS
      invariant if i == 0 then begin == NPOS else StartsSegment(name, begin, Kept(name, i))
    {
      var from := Before(begin);
      var r := RFindChar(name, '.', if from < |name| then from else |name| - 1);
      if r == -1 {
        WholeName(name, begin, i, precision);
        assert name[0..] == name;
        begin := 0;
        break;
      }
      NextStart(name, begin, i, r);
      begin := r + 1;
      i := i + 1;
    }
    if begin > |name| {
      return None;
    }
    out := Some(name[begin..]);
    if begin > 0 && i > 0 {
      FromStart(name, begin, Kept(name, precision));
    }
  }

  /** One step of the backward search. */
  lemma {:induction false} NextStart(name: string, begin: nat, i: nat, r: nat)
    requires |name| < NPOS - 2 && begin <= NPOS
    requires if i == 0 then begin == NPOS else StartsSegment(name, begin, Kept(name, i))
    requires r < |name| && r <= Before(begin) && name[r] == '.'
    requires forall k | r < k < |name| && k <= Before(begin) :: name[k] != '.'
    ensures StartsSegment(name, r + 1, Kept(name, i + 1))
  {
    hide Segments;
    if i == 0 {
      LastStart(name, r);
      if LeadingDot(name) {
        LeadingSegment(name);
        Remainder(0, |Segments(name, '.')| - 1, 0, 0);
      }
    } else {
      var n, all := Kept(name, i), |Segments(name, '.')|;
      FromStart(name, begin, n);
      if LeadingDot(name) {
        LeadingSegment(name);
        SecondStart(name, begin, n);
        NextRemainder(i, all - 1);
      }
      if begin == 1 {
        LastStart(name, r);
      } else {
        PreviousStart(name, begin, n, r);
        FromStart(name, r + 1, n + 1);
      }
    }
  }

  /** When no dot is found the whole name was asked for. */
  lemma {:induction false} WholeName(name: string, begin: nat, i: nat, precision: nat)
    requires |name| < NPOS - 2 && begin <= NPOS && i < precision
    requires if i == 0 then begin == NPOS else StartsSegment(name, begin, Kept(name, i))
    requires forall k | 0 <= k < |name| && k <= Before(begin) :: name[k] != '.'
    ensures LastSegments(name, Kept(name, precision)) == name
  {
    hide Segments, Join;
    assert !LeadingDot(name);
    JoinSegments(name, '.');
    var segs := Segments(name, '.');
    if i == 0 {
      assert '.' !in name;
      NoDelimiter(name, '.');
    } else {
      FromStart(name, begin, Kept(name, i));
      NoDelimiter(name[..begin - 1], '.');
    }
    assert Kept(name, precision) == |segs|;
    assert segs[|segs| - |segs|..] == segs;
  }

  /** Joining fewer segments gives a shorter text. */
  lemma {:induction false} LastShorter(name: string, n: nat)
    requires 1 <= n < |Segments(name, '.')|
    ensures |LastSegments(name, n)| < |name|
  {
    hide Segments, Join;
    var segs := Segments(name, '.');
    JoinSegments(name, '.');
    assert segs == segs[..|segs| - n] + segs[|segs| - n..];
    JoinAppend(segs[..|segs| - n], segs[|segs| - n..], '.');
  }

  /** A precision shows the last segments it asks for, except for names with a leading dot that have no
      more segments than the precision: those are cut although they should be shown whole. */
  lemma {:induction false} PrecisionExact(name: string, precision: nat)
    requires precision >= 1
    ensures LastSegments(name, Kept(name, precision)) == LastSegments(name, Asked(name, precision))
       <==> !(LeadingDot(name) && precision >= |Segments(name, '.')|)
  {
    hide Segments, Join;
    var segs := Segments(name, '.');
    if LeadingDot(name) {
      LeadingSegment(name);
      if precision < |segs| {
        Remainder(precision - 1, |segs| - 1, 0, precision - 1);
      } else {
        var n := Kept(name, precision);
        assert n < |segs|;
        LastShorter(name, n);
        JoinSegments(name, '.');
        assert segs[0..] == segs;
      }
    }
  }
}
