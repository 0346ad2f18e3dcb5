/** Decoding the answer to a property history query: records of name, date, count and values, with the
    attribute name in front for attribute properties. */
module History {
  import opened Text
  import opened Stream
  import opened Layout

  /** One entry of a property's history; `att` is empty unless it is an attribute property. */
  datatype DbHistory = DbHistory(att: string, prop: string, date: string, value: seq<string>)

  /** `Decoded` and `Invalid` are the function's result and its exception. `Broken` marks data in which a
      record is cut short or has a negative count: for those the source has no defined behaviour. */
  datatype Outcome = Decoded(records: seq<DbHistory>) | Invalid | Broken

  function Offset(isAttribute: bool): (r: nat)
    ensures r == 3 || r == 4
  {
    if isAttribute then 4 else 3
  }

  /** `istringstream(text) >> count`: the count and whether it could be read. */
  function ReadCount(text: string): (int, bool) {
    var r := StringStream(text, 0, 0, false).Read(INT_MIN, INT_MAX);
    (r.0, !r.1.fail)
  }

  /** One record as it stands in the data, with the text of its count. */
  function RecordText(isAttribute: bool, h: DbHistory, count: string): seq<string> {
    (if isAttribute then [h.att] else []) + [h.prop, h.date, count] + h.value
  }

  predicate Fits(data: seq<string>, isAttribute: bool) {
    var offset := Offset(isAttribute);
    |data| >= offset && ReadCount(data[offset - 1]).0 >= 0 && offset + ReadCount(data[offset - 1]).0 <= |data|
  }

  function FirstRecord(data: seq<string>, isAttribute: bool): DbHistory
    requires Fits(data, isAttribute)
  {
    var offset := Offset(isAttribute);
    DbHistory(if isAttribute then data[0] else "", data[offset - 3], data[offset - 2],
              data[offset..offset + ReadCount(data[offset - 1]).0])
  }

  function Decode(data: seq<string>, isAttribute: bool): Outcome {
    var offset := Offset(isAttribute);
    if data == [] then Decoded([])
    else if |data| < offset then Broken
    else if !ReadCount(data[offset - 1]).1 then Invalid
    else if !Fits(data, isAttribute) then Broken
    else
      var rest := Decode(data[offset + ReadCount(data[offset - 1]).0..], isAttribute);
      if rest.Decoded? then Decoded([FirstRecord(data, isAttribute)] + rest.records) else rest
  }

  function Behind(records: seq<DbHistory>, o: Outcome): Outcome {
    if o.Decoded? then Decoded(records + o.records) else o
  }

  /** The record at a cursor, in terms of the whole array. */
  lemma {:induction false} DecodeAt(ret: seq<string>, i: nat, isAttribute: bool)
    requires i < |ret| && !Decode(ret[i..], isAttribute).Broken?
    ensures var offset := Offset(isAttribute);
            && i + offset <= |ret|
            && var (count, ok) := ReadCount(ret[i + offset - 1]);
               if !ok then Decode(ret[i..], isAttribute) == Invalid
               else
                 && 0 <= count && i + offset + count <= |ret|
                 && Decode(ret[i..], isAttribute) == Behind([RecordAt(ret, i, isAttribute, count)], Decode(ret[i + offset + count..], isAttribute))
  {
    hide ReadCount;
    var rest, offset := ret[i..], Offset(isAttribute);
    assert rest[offset - 1] == ret[i + offset - 1];
    var (count, ok) := ReadCount(ret[i + offset - 1]);
    if ok {
      assert rest[offset + count..] == ret[i + offset + count..];
      assert rest[offset..offset + count] == ret[i + offset..i + offset + count];
      assert FirstRecord(rest, isAttribute) == RecordAt(ret, i, isAttribute, count);
    }
  }

  function RecordAt(ret: seq<string>, i: nat, isAttribute: bool, count: nat): DbHistory
    requires i + Offset(isAttribute) + count <= |ret|
  {
    var offset := Offset(isAttribute);
    DbHistory(if isAttribute then ret[i] else "", ret[i + offset - 3], ret[i + offset - 2], ret[i + offset..i + offset + count])
  }

  method MakeHistoryArray(isAttribute: bool, ret: seq<string>) returns (r: Outcome)
    requires !Decode(ret, isAttribute).Broken?
    ensures r == Decode(ret, isAttribute)
  {
    hide ReadCount, Decode;
    var i := 0;
    var v: seq<DbHistory> := [];
    assert ret[0..] == ret;
    WholeBehind(Decode(ret, isAttribute));
    while i < |ret|
      invariant i <= |ret|
      invariant Decode(ret, isAttribute) == Behind(v, Decode(ret[i..], isAttribute))
      decreases |ret| - i
    {
      DecodeAt(ret, i, isAttribute);
      var offset := if isAttribute then 4 else 3;
      var aName := if isAttribute then ret[i] else "";
      var pName, pDate, pCount := ret[i + offset - 3], ret[i + offset - 2], ret[i + offset - 1];
      var (count, ok) := ReadCount(pCount);
      if !ok {
        return Invalid;
      }
      var value: seq<string> := [];
      for j := 0 to count
        invariant value == ret[i + offset..i + offset + j]
      {
        value := value + [ret[i + offset + j]];
      }
      var h := DbHistory(aName, pName, pDate, value);
      Regroup(v, h, Decode(ret[i + offset + count..], isAttribute));
      v := v + [h];
      i := i + (count + offset);
    }
    NoData(isAttribute);
    assert ret[i..] == [];
    return Decoded(v);
  }

  lemma {:induction false} WholeBehind(o: Outcome)
    ensures Behind([], o) == o
  {
    if o.Decoded? {
      assert [] + o.records == o.records;
    }
  }

  lemma {:induction false} NoData(isAttribute: bool)
    ensures Decode([], isAttribute) == Decoded([])
    ensures forall v :: Behind(v, Decoded([])) == Decoded(v)
  {
    forall v: seq<DbHistory> ensures Behind(v, Decoded([])) == Decoded(v) {
      assert v + [] == v;
    }
  }

  lemma {:induction false} Regroup(a: seq<DbHistory>, h: DbHistory, o: Outcome)
    ensures Behind(a, Behind([h], o)) == Behind(a + [h], o)
  {
    if o.Decoded? {
      assert a + ([h] + o.records) == a + [h] + o.records;
    }
  }

  // ----- what the data say -----

  datatype Counted = Counted(history: DbHistory, count: string)

  /** The records with their count texts, one behind the other. */
  function Written(isAttribute: bool, cs: seq<Counted>): seq<string> {
    Flat((c: Counted) => RecordText(isAttribute, c.history, c.count), cs)
  }

  function Histories(cs: seq<Counted>): (r: seq<DbHistory>)
    ensures |r| == |cs| && forall i | 0 <= i < |r| :: r[i] == cs[i].history
  {
    seq(|cs|, i requires 0 <= i < |cs| => cs[i].history)
  }

  predicate CountRight(isAttribute: bool, c: Counted) {
    ReadCount(c.count) == (|c.history.value|, true) && (!isAttribute ==> c.history.att == "")
  }

  lemma {:induction false} WrittenCons(isAttribute: bool, c: Counted, cs: seq<Counted>)
    ensures Written(isAttribute, [c] + cs) == RecordText(isAttribute, c.history, c.count) + Written(isAttribute, cs)
    ensures Histories([c] + cs) == [c.history] + Histories(cs)
  {
    assert ([c] + cs)[1..] == cs;
  }

  lemma {:induction false} FirstUndone(isAttribute: bool, c: Counted, tail: seq<string>)
    requires CountRight(isAttribute, c)
    ensures var data := RecordText(isAttribute, c.history, c.count) + tail;
            var o := Decode(tail, isAttribute);
            Decode(data, isAttribute) == Behind([c.history], o)
  {
    hide ReadCount;
    var text := RecordText(isAttribute, c.history, c.count);
    var data, offset, n := text + tail, Offset(isAttribute), |c.history.value|;
    assert data[offset - 1] == c.count;
    assert data[offset..offset + n] == c.history.value;
    assert data[offset + n..] == tail;
    assert FirstRecord(data, isAttribute) == c.history;
  }

  /** Decoding gives the records back, in order. */
  lemma {:induction false} HistoryRoundTrip(isAttribute: bool, cs: seq<Counted>)
    requires forall i | 0 <= i < |cs| :: CountRight(isAttribute, cs[i])
    ensures Decode(Written(isAttribute, cs), isAttribute) == Decoded(Histories(cs))
    decreases |cs|
  {
    hide Decode, Written, CountRight, RecordText;
    if cs == [] {
      EmptyHistory(isAttribute);
    } else {
      assert cs == [cs[0]] + cs[1..];
      HistoryRoundTrip(isAttribute, cs[1..]);
      WrittenCons(isAttribute, cs[0], cs[1..]);
      FirstUndone(isAttribute, cs[0], Written(isAttribute, cs[1..]));
    }
  }

  lemma {:induction false} EmptyHistory(isAttribute: bool)
    ensures Written(isAttribute, []) == [] && Decode([], isAttribute) == Decoded([])
  {
  }

  /** Only data made of whole records decode: the decoder accepts nothing else. */
  lemma {:induction false} HistoryOnlyRecords(isAttribute: bool, data: seq<string>) returns (cs: seq<Counted>)
    requires Decode(data, isAttribute).Decoded?
    ensures data == Written(isAttribute, cs)
    ensures forall i | 0 <= i < |cs| :: CountRight(isAttribute, cs[i])
    ensures Decode(data, isAttribute).records == Histories(cs)
    decreases |data|
  {
    hide Fits, CountRight, RecordText, Written, Histories;
    if data == [] {
      cs := [];
      EmptyHistory(isAttribute);
    } else {
      var c, end := FirstCounted(isAttribute, data);
      var rest := HistoryOnlyRecords(isAttribute, data[end..]);
      WrittenCons(isAttribute, c, rest);
      cs := [c] + rest;
    }
  }

  lemma {:induction false} FirstCounted(isAttribute: bool, data: seq<string>) returns (c: Counted, end: nat)
    requires data != [] && Decode(data, isAttribute).Decoded?
    ensures 0 < end <= |data| && CountRight(isAttribute, c)
    ensures data == RecordText(isAttribute, c.history, c.count) + data[end..]
    ensures Decode(data, isAttribute) == Behind([c.history], Decode(data[end..], isAttribute))
  {
    hide ReadCount;
    var offset := Offset(isAttribute);
    end := offset + ReadCount(data[offset - 1]).0;
    c := Counted(FirstRecord(data, isAttribute), data[offset - 1]);
    assert data[..end] == RecordText(isAttribute, c.history, c.count);
  }

  /** Records as the database writes them, each with the decimal text of its number of values. */
  function Counts(hs: seq<DbHistory>): (cs: seq<Counted>)
    ensures |cs| == |hs| && forall i | 0 <= i < |cs| :: cs[i] == Counted(hs[i], Dec(|hs[i].value|))
  {
    seq(|hs|, i requires 0 <= i < |hs| => Counted(hs[i], Dec(|hs[i].value|)))
  }

  /** Decoding such records gives them back. */
  lemma {:induction false} DecimalRoundTrip(isAttribute: bool, hs: seq<DbHistory>)
    requires forall i | 0 <= i < |hs| :: |hs[i].value| <= INT_MAX && (!isAttribute ==> hs[i].att == "")
    ensures Decode(Written(isAttribute, Counts(hs)), isAttribute) == Decoded(hs)
  {
    hide Decode, Written, ReadCount, Dec;
    var cs := Counts(hs);
    forall i | 0 <= i < |cs| ensures CountRight(isAttribute, cs[i]) {
      DecimalCount(|hs[i].value|);
    }
    HistoryRoundTrip(isAttribute, cs);
    assert Histories(cs) == hs;
  }

  /** The text of a number is a right count. */
  lemma {:induction false} DecimalCount(n: nat)
    requires n <= INT_MAX
    ensures ReadCount(Dec(n)) == (n, true)
  {
    assert DecInt(n) == Dec(n) + [];
    ReadDecInt(Dec(n), n, []);
  }
}
