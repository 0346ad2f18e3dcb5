/** The `std::stringstream` the database client reuses for every count it reads or writes. */
module Stream {
  import opened Text

  /** A string stream: its buffer, its put and get positions and its fail bit. */
  datatype StringStream = StringStream(buf: string, put: nat, get: nat, fail: bool) {

    predicate Valid() {
      put <= |buf| && get <= |buf|
    }

    /** `seekp(0)`: without effect on a failed stream. */
    function SeekPut(): (s: StringStream) {
      if fail then this else this.(put := 0)
    }

    /** `seekg(0)`: without effect on a failed stream. */
    function SeekGet(): (s: StringStream) {
      if fail then this else this.(get := 0)
    }

    /** `clear()` */
    function Clear(): (s: StringStream) {
      this.(fail := false)
    }

    /** `stream << text`: overwrites from the put position on and keeps what lies behind. */
    function Write(text: string): (s: StringStream)
      requires Valid()
      ensures s.Valid()
    {
      if fail then this
      else
        var end := put + |text|;
        this.(buf := buf[..put] + text + (if end < |buf| then buf[end..] else []), put := end)
    }

    /** `stream >> number` for a type with range `lo..hi`: a text without digits gives 0, a number out
        of range the nearest bound; both set the fail bit. An unsigned type wraps a small negative. */
    function Read(lo: int, hi: int): (r: (int, StringStream))
      requires Valid() && !fail && lo <= 0 <= hi
      ensures r.1.Valid() && lo <= r.0 <= hi
    {
      var n := ReadNumber(buf, get);
      if !n.ok then (0, this.(get := n.end, fail := true))
      else if lo == 0 && -hi <= n.value < 0 then (hi + 1 + n.value, this.(get := n.end))
      else if lo == 0 && n.value < 0 then (hi, this.(get := n.end, fail := true))
      else if n.value < lo then (lo, this.(get := n.end, fail := true))
      else if n.value > hi then (hi, this.(get := n.end, fail := true))
      else (n.value, this.(get := n.end))
    }

    /** Rewinding, writing a text with its terminator and reading a number: the sequence
        `seekp(0); seekg(0); clear(); << text << ends; >> n` used for every count. */
    function Next(text: string, lo: int, hi: int): (r: (int, StringStream))
      requires Valid() && lo <= 0 <= hi
      ensures r.1.Valid() && lo <= r.0 <= hi
    {
      SeekPut().SeekGet().Clear().Write(text).Write(['\0']).Read(lo, hi)
    }

    /** The same with the fail bit cleared before seeking, as the float and double extractors do. */
    function NextClearedFirst(text: string, lo: int, hi: int): (r: (int, StringStream))
      requires Valid() && lo <= 0 <= hi
      ensures r.1.Valid() && lo <= r.0 <= hi
    {
      Clear().SeekPut().SeekGet().Write(text).Write(['\0']).Read(lo, hi)
    }

    /** `seekp(0); clear(); << text << ends`, then `str().c_str()`: how every count is written. */
    function Put(text: string): (r: (string, StringStream))
      requires Valid()
      ensures r.1.Valid()
    {
      var s := SeekPut().Clear().Write(text).Write(['\0']);
      (CStr(s.buf), s)
    }
  }

  const Fresh := StringStream("", 0, 0, false)

  const INT_MIN := -0x8000_0000
  const INT_MAX := 0x7FFF_FFFF
  const UINT_MAX := 0xFFFF_FFFF
  const SHORT_MIN := -0x8000
  const SHORT_MAX := 0x7FFF
  const USHORT_MAX := 0xFFFF

  // ----- nothing of the old content is ever seen -----

  /** Up to a NUL, two texts that agree are scanned alike. */
  lemma {:induction false} SameDigits(s: string, t: string, i: nat, z: nat, acc: nat)
    requires i <= z < |s| && z < |t| && s[..z + 1] == t[..z + 1] && s[z] == '\0'
    ensures ScanDigits(s, i, acc) == ScanDigits(t, i, acc)
    ensures ScanDigits(s, i, acc).1 <= z
    decreases z - i
  {
    assert s[i] == s[..z + 1][i] == t[i];
    if IsDigit(s[i]) {
      SameDigits(s, t, i + 1, z, 10 * acc + DigitValue(s[i]));
    }
  }

  lemma {:induction false} SameSpaces(s: string, t: string, i: nat, z: nat)
    requires i <= z < |s| && z < |t| && s[..z + 1] == t[..z + 1] && s[z] == '\0'
    ensures SkipSpaces(s, i) == SkipSpaces(t, i) <= z
    decreases z - i
  {
    assert s[i] == s[..z + 1][i] == t[i];
    if IsSpace(s[i]) {
      SameSpaces(s, t, i + 1, z);
    }
  }

  lemma {:induction false} SameNumber(s: string, t: string, z: nat)
    requires z < |s| && z < |t| && s[..z + 1] == t[..z + 1] && s[z] == '\0'
    ensures ReadNumber(s, 0) == ReadNumber(t, 0)
  {
    SameSpaces(s, t, 0, z);
    var i := SkipSpaces(s, 0);
    assert s[i] == s[..z + 1][i] == t[i];
    var start := if s[i] == '-' || s[i] == '+' then i + 1 else i;
    SameDigits(s, t, start, z, 0);
  }

  /** What is in the buffer after a rewind and a write: the new text, its terminator, a stale tail. */
  lemma {:induction false} AfterRewind(s: StringStream, text: string) returns (tail: string)
    requires s.Valid() && !s.fail
    ensures s.SeekPut().SeekGet().Clear().Write(text).Write(['\0'])
         == StringStream(text + ['\0'] + tail, |text| + 1, 0, false)
  {
    var w := s.SeekPut().SeekGet().Clear().Write(text).Write(['\0']);
    tail := w.buf[|text| + 1..];
    assert w.buf == text + ['\0'] + tail;
  }

  /** A reused stream reads exactly what a new one would: no character of an earlier, longer text leaks. */
  lemma {:induction false} NoStaleTail(s: StringStream, text: string, lo: int, hi: int)
    requires s.Valid() && !s.fail && lo <= 0 <= hi
    ensures s.Next(text, lo, hi).0 == Fresh.Next(text, lo, hi).0
    ensures s.Next(text, lo, hi).1.fail == Fresh.Next(text, lo, hi).1.fail
    ensures s.Next(text, lo, hi).1.get == Fresh.Next(text, lo, hi).1.get
  {
    var tail := AfterRewind(s, text);
    var tail' := AfterRewind(Fresh, text);
    var a, b := text + ['\0'] + tail, text + ['\0'] + tail';
    assert a[..|text| + 1] == text + ['\0'] == b[..|text| + 1];
    SameNumber(a, b, |text|);
  }

  /** Reading the text of an in-range number gives that number and leaves a stream fit for the next. */
  lemma {:induction false} NextDec(s: StringStream, n: int, lo: int, hi: int)
    requires s.Valid() && !s.fail && lo <= 0 <= hi && lo <= n <= hi
    ensures s.Next(DecInt(n), lo, hi).0 == n
    ensures !s.Next(DecInt(n), lo, hi).1.fail
  {
    var tail := AfterRewind(s, DecInt(n));
    var buf := DecInt(n) + ['\0'] + tail;
    assert buf == DecInt(n) + (['\0'] + tail);
    ReadDecInt(buf, n, ['\0'] + tail);
  }

  /** Once the fail bit is set, the rewind that precedes `clear()` does nothing: the new text is written
      where the old one ended, over whatever older text stands there, and the read goes on where the
      failed one stopped. */
  lemma {:induction false} FailedStreamAppends(s: StringStream, text: string, lo: int, hi: int)
    requires s.Valid() && s.fail && lo <= 0 <= hi
    ensures var end := s.put + |text| + 1;
            var w := StringStream(s.buf[..s.put] + text + ['\0'] + (if end < |s.buf| then s.buf[end..] else []), end, s.get, false);
            w.Valid() && s.Next(text, lo, hi) == w.Read(lo, hi)
  {
    var end := s.put + |text| + 1;
    var w := s.Clear().Write(text);
    var head := s.buf[..s.put] + text;
    var tail := if end - 1 < |s.buf| then s.buf[end - 1..] else [];
    assert w.buf == head + tail && w.put == |head|;
    assert w.buf[..w.put] == head;
    assert end < |s.buf| ==> w.buf[end..] == s.buf[end..];
    assert w.Write(['\0']) == StringStream(head + ['\0'] + (if end < |s.buf| then s.buf[end..] else []), end, s.get, false);
  }

  /** With `clear()` first, a failed stream is as good as any other. */
  lemma {:induction false} ClearedFirstRecovers(s: StringStream, text: string, lo: int, hi: int)
    requires s.Valid() && lo <= 0 <= hi
    ensures s.NextClearedFirst(text, lo, hi).0 == Fresh.Next(text, lo, hi).0
    ensures s.NextClearedFirst(text, lo, hi).1.fail == Fresh.Next(text, lo, hi).1.fail
  {
    NoStaleTail(s.Clear(), text, lo, hi);
  }

  /** Writing a count through a reused stream yields the text of that count. */
  lemma {:induction false} PutDec(s: StringStream, n: int)
    requires s.Valid() && !s.fail
    ensures s.Put(DecInt(n)).0 == DecInt(n)
    ensures !s.Put(DecInt(n)).1.fail
  {
    var t := s.SeekPut().Clear().Write(DecInt(n)).Write(['\0']);
    var tail := t.buf[|DecInt(n)| + 1..];
    assert t.buf == DecInt(n) + ['\0'] + tail;
    CStrCuts(DecInt(n), tail);
  }
}
