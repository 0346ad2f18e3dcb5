/** Vectors of numbers in a `DbDatum`: inserted as texts, extracted through one reused stream. */
module Datum {
  import opened Text
  import opened Letters
  import opened Stream

  datatype DatumError = EmptyDbDatum | IncompatibleArgumentType(element: nat)

  /** Which of the two exception flags are set; without its flag an error is only told by the result. */
  datatype Flags = Flags(isEmpty: bool, wrongType: bool)

  /** What an extraction gives: the operator's result and the vector, or an exception. */
  datatype Extraction<+T> = Extracted(ok: bool, datum: seq<T>) | Thrown(error: DatumError)

  /** `datum.resize(n)`: keeps what there is and pads with `zero`. */
  function Resize<T>(datum: seq<T>, n: nat, zero: T): (r: seq<T>)
    ensures |r| == n
    ensures forall i | 0 <= i < n :: r[i] == if i < |datum| then datum[i] else zero
  {
    seq(n, i requires 0 <= i < n => if i < |datum| then datum[i] else zero)
  }

  // ----- integers -----

  predicate InRange(v: seq<int>, lo: int, hi: int) {
    forall i | 0 <= i < |v| :: lo <= v[i] <= hi
  }

  /** What one text reads as on a stream of its own. */
  function Value(text: string, lo: int, hi: int): int
    requires lo <= 0 <= hi
  {
    Fresh.Next(text, lo, hi).0
  }

  predicate Readable(text: string, lo: int, hi: int)
    requires lo <= 0 <= hi
  {
    !Fresh.Next(text, lo, hi).1.fail
  }

  function Inserted(v: seq<int>): (r: seq<string>)
    ensures |r| == |v| && forall i | 0 <= i < |v| :: r[i] == DecInt(v[i])
  {
    seq(|v|, i requires 0 <= i < |v| => DecInt(v[i]))
  }

  /** Every text for itself, up to the first unreadable one. */
  function IntVector(texts: seq<string>, i: nat, datum: seq<int>, lo: int, hi: int, flags: Flags): Extraction<int>
    requires i <= |texts| == |datum| && lo <= 0 <= hi
    decreases |texts| - i
  {
    if i == |texts| then Extracted(true, datum)
    else
      var next := datum[i := Value(texts[i], lo, hi)];
      if Readable(texts[i], lo, hi) then IntVector(texts, i + 1, next, lo, hi, flags)
      else if flags.wrongType then Thrown(IncompatibleArgumentType(i + 1))
      else Extracted(false, next)
  }

  function Ints(texts: seq<string>, was: seq<int>, lo: int, hi: int, flags: Flags): Extraction<int>
    requires lo <= 0 <= hi
  {
    if texts == [] then (if flags.isEmpty then Thrown(EmptyDbDatum) else Extracted(false, []))
    else IntVector(texts, 0, Resize(was, |texts|, 0), lo, hi, flags)
  }

  method InsertVector(v: seq<int>) returns (valueString: seq<string>)
    ensures valueString == Inserted(v)
  {
    hide DecInt;
    valueString := Resize([], |v|, "");
    for i := 0 to |v|
      invariant |valueString| == |v| && forall k | 0 <= k < i :: valueString[k] == DecInt(v[k])
    {
      valueString := valueString[i := DecInt(v[i])];
    }
  }

  /** The integer extractors, with one stream for all elements. */
  method ExtractVector(valueString: seq<string>, was: seq<int>, lo: int, hi: int, flags: Flags) returns (r: Extraction<int>)
    requires lo <= 0 <= hi
    ensures r == Ints(valueString, was, lo, hi, flags)
  {
    hide Value, Readable, StringStream.Next;
    if |valueString| == 0 {
      return if flags.isEmpty then Thrown(EmptyDbDatum) else Extracted(false, []);
    }
    var stream := Fresh;
    var datum := Resize(was, |valueString|, 0);
    for i := 0 to |valueString|
      invariant stream.Valid() && !stream.fail && |datum| == |valueString|
      invariant Ints(valueString, was, lo, hi, flags) == IntVector(valueString, i, datum, lo, hi, flags)
    {
      ReadsAlone(stream, valueString[i], lo, hi);
      var next := stream.Next(valueString[i], lo, hi);
      datum, stream := datum[i := next.0], next.1;
      if stream.fail {
        return if flags.wrongType then Thrown(IncompatibleArgumentType(i + 1)) else Extracted(false, datum);
      }
    }
    return Extracted(true, datum);
  }

  lemma {:induction false} ReadsAlone(s: StringStream, text: string, lo: int, hi: int)
    requires s.Valid() && !s.fail && lo <= 0 <= hi
    ensures s.Next(text, lo, hi).0 == Value(text, lo, hi)
    ensures s.Next(text, lo, hi).1.fail <==> !Readable(text, lo, hi)
  {
    hide StringStream.Next;
    NoStaleTail(s, text, lo, hi);
  }

  function Values(texts: seq<string>, lo: int, hi: int): (r: seq<int>)
    requires lo <= 0 <= hi
    ensures |r| == |texts| && forall i | 0 <= i < |r| :: r[i] == Value(texts[i], lo, hi)
  {
    seq(|texts|, i requires 0 <= i < |texts| => Value(texts[i], lo, hi))
  }

  lemma {:induction false} IntVectorPointwise(texts: seq<string>, i: nat, datum: seq<int>, lo: int, hi: int, flags: Flags)
    requires i <= |texts| == |datum| && lo <= 0 <= hi
    requires forall k | 0 <= k < i :: datum[k] == Value(texts[k], lo, hi)
    ensures var r := IntVector(texts, i, datum, lo, hi, flags);
            if forall k | i <= k < |texts| :: Readable(texts[k], lo, hi)
            then r == Extracted(true, Values(texts, lo, hi))
            else r.Thrown? || !r.ok
    decreases |texts| - i
  {
    hide Value, Readable;
    if i == |texts| {
      assert datum == Values(texts, lo, hi);
    } else if Readable(texts[i], lo, hi) {
      IntVectorPointwise(texts, i + 1, datum[i := Value(texts[i], lo, hi)], lo, hi, flags);
    }
  }

  /** How an extraction fails: at the first unreadable text, with the exception that counts it from 1, or
      with what was read so far in a vector otherwise left as it was. */
  lemma {:induction false} IntsStop(texts: seq<string>, was: seq<int>, lo: int, hi: int, flags: Flags, k: nat)
    requires k < |texts| && lo <= 0 <= hi && !Readable(texts[k], lo, hi) && forall i | 0 <= i < k :: Readable(texts[i], lo, hi)
    ensures var r := Ints(texts, was, lo, hi, flags);
            if flags.wrongType then r == Thrown(IncompatibleArgumentType(k + 1))
            else r.Extracted? && !r.ok && |r.datum| == |texts|
                 && forall i | 0 <= i < |texts| ::
                      r.datum[i] == if i <= k then Value(texts[i], lo, hi) else if i < |was| then was[i] else 0
  {
    hide Value, Readable;
    IntVectorStops(texts, 0, Resize(was, |texts|, 0), lo, hi, flags, k);
  }

  lemma {:induction false} IntVectorStops(texts: seq<string>, i: nat, datum: seq<int>, lo: int, hi: int, flags: Flags, k: nat)
    requires i <= k < |texts| == |datum| && lo <= 0 <= hi
    requires !Readable(texts[k], lo, hi) && forall j | i <= j < k :: Readable(texts[j], lo, hi)
    ensures var r := IntVector(texts, i, datum, lo, hi, flags);
            if flags.wrongType then r == Thrown(IncompatibleArgumentType(k + 1))
            else r.Extracted? && !r.ok && |r.datum| == |texts|
                 && forall j | 0 <= j < |texts| :: r.datum[j] == if i <= j <= k then Value(texts[j], lo, hi) else datum[j]
    decreases k - i
  {
    hide Value, Readable;
    if i < k {
      IntVectorStops(texts, i + 1, datum[i := Value(texts[i], lo, hi)], lo, hi, flags, k);
    }
  }

  /** The extraction succeeds with what each text reads as if and only if each is readable. */
  lemma {:induction false} IntsPointwise(texts: seq<string>, was: seq<int>, lo: int, hi: int, flags: Flags)
    requires texts != [] && lo <= 0 <= hi
    ensures (forall i | 0 <= i < |texts| :: Readable(texts[i], lo, hi))
       <==> Ints(texts, was, lo, hi, flags) == Extracted(true, Values(texts, lo, hi))
  {
    hide Value, Readable;
    IntVectorPointwise(texts, 0, Resize(was, |texts|, 0), lo, hi, flags);
  }

  /** Inserting and extracting a vector in the type's range gives the vector back if and only if it is not
      empty; what the receiving vector held before makes no difference. */
  lemma {:induction false} InsertThenExtract(v: seq<int>, was: seq<int>, lo: int, hi: int, flags: Flags)
    requires lo <= 0 <= hi && InRange(v, lo, hi)
    ensures Ints(Inserted(v), was, lo, hi, flags) == Extracted(true, v) <==> v != []
  {
    hide DecInt, StringStream.Next;
    var texts := Inserted(v);
    forall i | 0 <= i < |v| ensures Readable(texts[i], lo, hi) && Value(texts[i], lo, hi) == v[i] {
      NextDec(Fresh, v[i], lo, hi);
    }
    if v != [] {
      IntsPointwise(texts, was, lo, hi, flags);
      assert Values(texts, lo, hi) == v;
    }
  }

  // ----- floats -----

  datatype Float = Real(value: real) | NaN | PlusInfinity | MinusInfinity

  /** How the C++ library reads a floating point number, from the text in front of a NUL: the value it
      stores, whether that was a number in range, and how far it got. */
  datatype FloatReader = FloatReader(parse: string -> (real, bool), stop: string -> nat)

  /** `stream >> datum` for a float. */
  function ReadFloat(s: StringStream, reader: FloatReader): (r: (real, StringStream))
    requires s.Valid() && !s.fail
    ensures r.1.Valid()
  {
    var text := CStr(s.buf[s.get..]);
    var v, end := reader.parse(text), s.get + reader.stop(text);
    (v.0, s.(get := if end <= |s.buf| then end else |s.buf|, fail := !v.1))
  }

  /** The names tried when a text does not read as a number. */
  function SpecialFloat(text: string): Option<Float> {
    if SameName("nan", CStr(text)) || SameName("-nan", CStr(text)) then Some(NaN)
    else if SameName("-inf", CStr(text)) then Some(MinusInfinity)
    else if SameName("inf", CStr(text)) || SameName("+inf", CStr(text)) then Some(PlusInfinity)
    else None
  }

  /** Which name gives which float, in any case; every other text gives none. */
  lemma {:induction false} SpecialExact(text: string)
    ensures var t, f := CStr(text), SpecialFloat(text);
            && (f == Some(NaN) <==> SpeltAlike(t, "nan") || SpeltAlike(t, "-nan"))
            && (f == Some(MinusInfinity) <==> SpeltAlike(t, "-inf"))
            && (f == Some(PlusInfinity) <==> SpeltAlike(t, "inf") || SpeltAlike(t, "+inf"))
            && (f.Some? ==> !f.value.Real?)
  {
    hide SpeltAlike, CStr, Lower;
    var t := CStr(text);
    SameNameExact("nan", t);
    SameNameExact("-nan", t);
    SameNameExact("-inf", t);
    SameNameExact("inf", t);
    SameNameExact("+inf", t);
    SpecialNamesDiffer(t);
    AlikeBack(t, "nan");
    AlikeBack(t, "-nan");
    AlikeBack(t, "-inf");
    AlikeBack(t, "inf");
    AlikeBack(t, "+inf");
  }

  lemma {:induction false} AlikeBack(a: string, b: string)
    ensures SpeltAlike(a, b) <==> SpeltAlike(b, a)
  {
    hide SpeltAlike, Lower;
    SameNameExact(a, b);
    SameNameExact(b, a);
  }

  lemma {:induction false} SpecialNamesDiffer(t: string)
    ensures SameName("nan", t) || SameName("-nan", t) ==> !SameName("-inf", t) && !SameName("inf", t) && !SameName("+inf", t)
    ensures SameName("-inf", t) ==> !SameName("inf", t) && !SameName("+inf", t)
  {
    assert Lower("nan")[0] == 'n' && Lower("inf")[0] == 'i' && Lower("+inf")[0] == '+' && Lower("-inf")[1] == 'i' && Lower("-nan")[1] == 'n';
    assert Lower("-inf")[0] == '-' && Lower("-nan")[0] == '-';
  }

  /** What one text stands for on its own. */
  function FloatOf(text: string, reader: FloatReader): Option<Float> {
    var v := reader.parse(CStr(text));
    if v.1 then Some(Real(v.0)) else SpecialFloat(text)
  }

  /** The element a text leaves in the vector, also when it stands for no float. */
  function FloatElement(text: string, reader: FloatReader): Float {
    var v := FloatOf(text, reader);
    if v.Some? then v.value else Real(reader.parse(CStr(text)).0)
  }

  /** Every text for itself, up to the first that stands for no float. */
  function FloatVector(texts: seq<string>, i: nat, datum: seq<Float>, reader: FloatReader, flags: Flags): Extraction<Float>
    requires i <= |texts| == |datum|
    decreases |texts| - i
  {
    if i == |texts| then Extracted(true, datum)
    else
      var next := datum[i := FloatElement(texts[i], reader)];
      if FloatOf(texts[i], reader).Some? then FloatVector(texts, i + 1, next, reader, flags)
      else if flags.wrongType then Thrown(IncompatibleArgumentType(i + 1))
      else Extracted(false, next)
  }

  function Floats(texts: seq<string>, was: seq<Float>, reader: FloatReader, flags: Flags): Extraction<Float> {
    if texts == [] then (if flags.isEmpty then Thrown(EmptyDbDatum) else Extracted(false, []))
    else FloatVector(texts, 0, Resize(was, |texts|, Real(0.0)), reader, flags)
  }

  /** One element: what it becomes, whether the text stood for a float, and the stream behind it. */
  method NextFloat(stream: StringStream, text: string, reader: FloatReader) returns (element: Float, ok: bool, next: StringStream)
    requires stream.Valid()
    ensures next.Valid()
    ensures element == FloatElement(text, reader) && (ok <==> FloatOf(text, reader).Some?)
  {
    hide SpecialFloat, StringStream.Write, ReadFloat;
    FloatAlone(stream, text, reader);
    next := stream.Clear().SeekPut().SeekGet().Write(text).Write(['\0']);
    var read := ReadFloat(next, reader);
    next := read.1;
    element, ok := Real(read.0), true;
    if next.fail {
      var special := SpecialFloat(text);
      if special.Some? {
        element := special.value;
      } else {
        ok := false;
      }
    }
  }

  /** The float and double extractors, with one stream for all elements: a special name in the middle
      leaves the stream failed, but the next element is read as if it were alone. */
  method ExtractFloats(valueString: seq<string>, was: seq<Float>, reader: FloatReader, flags: Flags) returns (r: Extraction<Float>)
    ensures r == Floats(valueString, was, reader, flags)
  {
    hide FloatOf, FloatElement;
    if |valueString| == 0 {
      return if flags.isEmpty then Thrown(EmptyDbDatum) else Extracted(false, []);
    }
    var stream := Fresh;
    var datum := Resize(was, |valueString|, Real(0.0));
    for i := 0 to |valueString|
      invariant stream.Valid() && |datum| == |valueString|
      invariant Floats(valueString, was, reader, flags) == FloatVector(valueString, i, datum, reader, flags)
    {
      var element, ok, next := NextFloat(stream, valueString[i], reader);
      stream, datum := next, datum[i := element];
      if !ok {
        return if flags.wrongType then Thrown(IncompatibleArgumentType(i + 1)) else Extracted(false, datum);
      }
    }
    return Extracted(true, datum);
  }

  /** Whatever the stream went through before, the text just written is what is read. */
  lemma {:induction false} FloatAlone(s: StringStream, text: string, reader: FloatReader)
    requires s.Valid()
    ensures var t := s.Clear().SeekPut().SeekGet().Write(text).Write(['\0']);
            && t.Valid() && !t.fail
            && ReadFloat(t, reader).0 == reader.parse(CStr(text)).0
            && (ReadFloat(t, reader).1.fail <==> !reader.parse(CStr(text)).1)
  {
    var t := s.Clear().SeekPut().SeekGet().Write(text).Write(['\0']);
    var tail := AfterRewind(s.Clear(), text);
    assert t.buf == text + ['\0'] + tail;
    assert t.buf[0..] == t.buf;
    CStrPrefix(text, tail);
  }

  lemma {:induction false} CStrPrefix(text: string, tail: string)
    ensures CStr(text + ['\0'] + tail) == CStr(text)
  {
    var s, n := text + ['\0'] + tail, |CStr(text)|;
    assert forall k | 0 <= k < n :: s[k] == CStr(text)[k];
    assert s[n] == '\0';
    assert |CStr(s)| == n;
  }

  /** Without any text there is nothing to extract. */
  lemma {:induction false} NothingExtracted(was: seq<int>, was': seq<Float>, lo: int, hi: int, reader: FloatReader, flags: Flags)
    requires lo <= 0 <= hi
    ensures flags.isEmpty <==> Ints([], was, lo, hi, flags) == Thrown(EmptyDbDatum)
    ensures flags.isEmpty <==> Floats([], was', reader, flags) == Thrown(EmptyDbDatum)
    ensures !flags.isEmpty ==> Ints([], was, lo, hi, flags) == Extracted(false, []) && Floats([], was', reader, flags) == Extracted(false, [])
  {
  }

  /** Floats fail in the same way. */
  lemma {:induction false} FloatsStop(texts: seq<string>, was: seq<Float>, reader: FloatReader, flags: Flags, k: nat)
    requires k < |texts| && FloatOf(texts[k], reader).None? && forall i | 0 <= i < k :: FloatOf(texts[i], reader).Some?
    ensures var r := Floats(texts, was, reader, flags);
            if flags.wrongType then r == Thrown(IncompatibleArgumentType(k + 1))
            else r.Extracted? && !r.ok && |r.datum| == |texts|
                 && forall i | 0 <= i < |texts| ::
                      r.datum[i] == if i <= k then FloatElement(texts[i], reader) else if i < |was| then was[i] else Real(0.0)
  {
    hide FloatElement, FloatOf;
    FloatVectorStops(texts, 0, Resize(was, |texts|, Real(0.0)), reader, flags, k);
  }

  lemma {:induction false} FloatVectorStops(texts: seq<string>, i: nat, datum: seq<Float>, reader: FloatReader, flags: Flags, k: nat)
    requires i <= k < |texts| == |datum|
    requires FloatOf(texts[k], reader).None? && forall j | i <= j < k :: FloatOf(texts[j], reader).Some?
    ensures var r := FloatVector(texts, i, datum, reader, flags);
            if flags.wrongType then r == Thrown(IncompatibleArgumentType(k + 1))
            else r.Extracted? && !r.ok && |r.datum| == |texts|
                 && forall j | 0 <= j < |texts| :: r.datum[j] == if i <= j <= k then FloatElement(texts[j], reader) else datum[j]
    decreases k - i
  {
    hide FloatElement, FloatOf;
    if i < k {
      FloatVectorStops(texts, i + 1, datum[i := FloatElement(texts[i], reader)], reader, flags, k);
    }
  }

  /** A special name does not disturb its neighbours: with all texts standing for floats, the result is
      exactly what each stands for. */
  lemma {:induction false} FloatsPointwise(texts: seq<string>, was: seq<Float>, reader: FloatReader, flags: Flags)
    requires texts != []
    ensures (forall i | 0 <= i < |texts| :: FloatOf(texts[i], reader).Some?)
       <==> Floats(texts, was, reader, flags) == Extracted(true, FloatElements(texts, reader))
  {
    hide FloatElement, FloatOf;
    var datum := Resize(was, |texts|, Real(0.0));
    FloatVectorPointwise(texts, 0, datum, reader, flags);
  }

  function FloatElements(texts: seq<string>, reader: FloatReader): seq<Float> {
    seq(|texts|, i requires 0 <= i < |texts| => FloatElement(texts[i], reader))
  }

  lemma {:induction false} FloatVectorPointwise(texts: seq<string>, i: nat, datum: seq<Float>, reader: FloatReader, flags: Flags)
    requires i <= |texts| == |datum|
    requires forall k | 0 <= k < i :: datum[k] == FloatElement(texts[k], reader)
    ensures var r := FloatVector(texts, i, datum, reader, flags);
            if forall k | i <= k < |texts| :: FloatOf(texts[k], reader).Some?
            then r == Extracted(true, FloatElements(texts, reader))
            else r.Thrown? || !r.ok
    decreases |texts| - i
  {
    hide FloatElement, FloatOf;
    if i == |texts| {
      assert datum == FloatElements(texts, reader);
    } else if FloatOf(texts[i], reader).Some? {
      FloatVectorPointwise(texts, i + 1, datum[i := FloatElement(texts[i], reader)], reader, flags);
    }
  }
}
