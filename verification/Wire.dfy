/** The flat, length-prefixed form in which properties travel, and how `Database` reads it back. */
module Wire {
  import opened Text
  import opened Stream
  import opened Layout

  /** A property: its name and its values. Also what the client gets back, a `DbDatum`. */
  datatype DbDatum = DbDatum(name: string, values: seq<string>)

  /** Whatever owns properties: an object, a class, a device, an attribute or a pipe. */
  datatype Owner = Owner(name: string, props: seq<DbDatum>)

  /** One entry of a reply: a datum, followed or not by the dummy value " ". */
  datatype Entry = Entry(datum: DbDatum, dummy: bool)

  function FlatDatum(d: DbDatum): seq<string> {
    [d.name, Dec(|d.values|)] + d.values
  }

  function FlatEntry(e: Entry): seq<string> {
    FlatDatum(e.datum) + if e.dummy then [" "] else []
  }

  function FlatOwner(a: Owner): seq<string> {
    [a.name, Dec(|a.props|)] + Flat(FlatDatum, a.props)
  }

  /** How an attribute or a pipe shows up in the client's `DbData`: a header datum holding the number of
      properties, then the properties. */
  function OwnerData(a: Owner): seq<DbDatum> {
    [DbDatum(a.name, [Dec(|a.props|)])] + a.props
  }

  function Data(es: seq<Entry>): (ds: seq<DbDatum>)
    ensures |ds| == |es|
    ensures forall i | 0 <= i < |es| :: ds[i] == es[i].datum
  {
    seq(|es|, i requires 0 <= i < |es| => es[i].datum)
  }

  /** The entries of a list of properties written without any dummy. */
  function Plain(ds: seq<DbDatum>): (es: seq<Entry>)
    ensures |es| == |ds|
    ensures forall i | 0 <= i < |ds| :: es[i] == Entry(ds[i], false)
  {
    seq(|ds|, i requires 0 <= i < |ds| => Entry(ds[i], false))
  }

  // ----- reading -----

  datatype Decoded = Decoded(data: seq<DbDatum>, end: nat, stream: StringStream)

  function Prepend(ds: seq<DbDatum>, r: Option<Decoded>): Option<Decoded> {
    match r
    case None => None
    case Some(d) => Some(d.(data := ds + d.data))
  }

  /** One datum read at `index`. With `skip`, a datum without values is followed by a dummy to skip.
      None: an access beyond the reply, or a negative number of values. */
  function DecodeDatum(reply: seq<string>, index: nat, st: StringStream, skip: bool): (r: Option<Decoded>)
    requires st.Valid()
    ensures r.Some? ==> r.value.stream.Valid() && |r.value.data| == 1 && index < r.value.end
  {
    if index + 1 >= |reply| then None
    else
      var (n, st') := st.Next(reply[index + 1], INT_MIN, INT_MAX);
      if n < 0 || index + 2 + n > |reply| then None
      else
        var values := reply[index + 2..index + 2 + n];
        var end := index + 2 + n + if skip && n == 0 then 1 else 0;
        Some(Decoded([DbDatum(reply[index], values)], end, st'))
  }

  /** `k` consecutive data. */
  function DecodeData(reply: seq<string>, index: nat, st: StringStream, k: nat, skip: bool): (r: Option<Decoded>)
    requires st.Valid()
    ensures r.Some? ==> r.value.stream.Valid() && |r.value.data| == k
    decreases k
  {
    if k == 0 then Some(Decoded([], index, st))
    else
      match DecodeDatum(reply, index, st, skip)
      case None => None
      case Some(d) => Prepend(d.data, DecodeData(reply, d.end, d.stream, k - 1, skip))
  }

  /** `k` consecutive attributes; `lo..hi` is the range of the type their property count is read into. */
  function DecodeAttributes(reply: seq<string>, index: nat, st: StringStream, k: nat, lo: int, hi: int): (r: Option<Decoded>)
    requires st.Valid() && lo <= 0 <= hi
    ensures r.Some? ==> r.value.stream.Valid()
    decreases k
  {
    if k == 0 then Some(Decoded([], index, st))
    else if index + 1 >= |reply| then None
    else
      var (n, st') := st.Next(reply[index + 1], lo, hi);
      if n < 0 then None
      else
        match DecodeData(reply, index + 2, st', n, true)
        case None => None
        case Some(d) =>
          Prepend([DbDatum(reply[index], [DecInt(n)])] + d.data,
                  DecodeAttributes(reply, d.end, d.stream, k - 1, lo, hi))
  }

  // ----- what reading consumes -----

  function Consumed(d: DbDatum, skip: bool): nat {
    2 + |d.values| + if skip && d.values == [] then 1 else 0
  }

  function TotalConsumed(ds: seq<DbDatum>, skip: bool): nat {
    if ds == [] then 0 else Consumed(ds[0], skip) + TotalConsumed(ds[1..], skip)
  }

  lemma {:induction false} DecodeDatumEnd(reply: seq<string>, index: nat, st: StringStream, skip: bool)
    requires st.Valid() && DecodeDatum(reply, index, st, skip).Some?
    ensures var d := DecodeDatum(reply, index, st, skip).value;
            d.end == index + Consumed(d.data[0], skip)
  {
    hide StringStream.Next;
  }

  lemma {:induction false} DecodeDataEnd(reply: seq<string>, index: nat, st: StringStream, k: nat, skip: bool)
    requires st.Valid()
    requires DecodeData(reply, index, st, k, skip).Some?
    ensures var d := DecodeData(reply, index, st, k, skip).value;
            d.end == index + TotalConsumed(d.data, skip)
    decreases k
  {
    hide DecodeDatum, Consumed, TotalConsumed;
    if k == 0 {
      ConsumedNone(skip);
    } else {
      DecodeDatumEnd(reply, index, st, skip);
      var d := DecodeDatum(reply, index, st, skip).value;
      DecodeDataEnd(reply, d.end, d.stream, k - 1, skip);
      var rest := DecodeData(reply, d.end, d.stream, k - 1, skip).value;
      ConsumedCons(d.data[0], rest.data, skip);
      assert d.data == [d.data[0]];
    }
  }

  lemma {:induction false} ConsumedNone(skip: bool)
    ensures TotalConsumed([], skip) == 0
  {
  }

  lemma {:induction false} ConsumedCons(d: DbDatum, ds: seq<DbDatum>, skip: bool)
    ensures TotalConsumed([d] + ds, skip) == Consumed(d, skip) + TotalConsumed(ds, skip)
  {
    assert ([d] + ds)[1..] == ds;
  }

  // ----- an entry list and its reader agree -----

  /** The dummy is there exactly when the reader skips one. */
  predicate Aligned(e: Entry, skip: bool) {
    e.dummy <==> skip && e.datum.values == []
  }

  predicate AllAligned(es: seq<Entry>, skip: bool) {
    forall i | 0 <= i < |es| :: Aligned(es[i], skip)
  }

  /** Only entries without values carry a dummy. */
  predicate DummiesOnEmpty(es: seq<Entry>) {
    forall i | 0 <= i < |es| :: es[i].dummy ==> es[i].datum.values == []
  }

  /** Every entry without values carries its dummy. */
  predicate EmptiesHaveDummy(es: seq<Entry>) {
    forall i | 0 <= i < |es| :: es[i].datum.values == [] ==> es[i].dummy
  }

  /** Every value count fits the `int` it is read into. */
  predicate Countable(ds: seq<DbDatum>) {
    forall i | 0 <= i < |ds| :: |ds[i].values| <= INT_MAX
  }

  lemma {:induction false} DecodeOne(reply: seq<string>, index: nat, st: StringStream, e: Entry, skip: bool)
    requires st.Valid() && !st.fail && |e.datum.values| <= INT_MAX
    requires At(reply, index, FlatEntry(e))
    ensures var r := DecodeDatum(reply, index, st, skip);
            r.Some? && r.value.data == [e.datum] && r.value.end == index + Consumed(e.datum, skip) && !r.value.stream.fail
    ensures Aligned(e, skip) ==> Consumed(e.datum, skip) == |FlatEntry(e)|
  {
    hide StringStream.Next;
    var n := |e.datum.values|;
    AtConcat(reply, index, FlatDatum(e.datum), if e.dummy then [" "] else []);
    AtConcat(reply, index, [e.datum.name, Dec(n)], e.datum.values);
    AtIndex(reply, index, FlatDatum(e.datum));
    assert reply[index] == FlatDatum(e.datum)[0] && reply[index + 1] == FlatDatum(e.datum)[1] == Dec(n);
    assert Dec(n) == DecInt(n);
    NextDec(st, n, INT_MIN, INT_MAX);
  }

  /** Reading aligned entries gives their data and ends right behind them. */
  lemma {:induction false} DecodeAligned(reply: seq<string>, index: nat, st: StringStream, es: seq<Entry>, skip: bool)
    requires st.Valid() && !st.fail && Countable(Data(es)) && AllAligned(es, skip)
    requires At(reply, index, Flat(FlatEntry, es))
    ensures var r := DecodeData(reply, index, st, |es|, skip);
            r.Some? && r.value.data == Data(es) && r.value.end == index + |Flat(FlatEntry, es)| && !r.value.stream.fail
    decreases |es|
  {
    hide At, FlatEntry, DecodeDatum;
    if es != [] {
      AtConcat(reply, index, FlatEntry(es[0]), Flat(FlatEntry, es[1..]));
      DecodeOne(reply, index, st, es[0], skip);
      var d := DecodeDatum(reply, index, st, skip).value;
      assert Aligned(es[0], skip) && d.end == index + |FlatEntry(es[0])|;
      assert Countable(Data(es[1..])) by {
        forall i | 0 <= i < |es[1..]| ensures |Data(es[1..])[i].values| <= INT_MAX {
          assert Data(es[1..])[i] == Data(es)[i + 1];
        }
      }
      DecodeAligned(reply, d.end, d.stream, es[1..], skip);
      assert Data(es) == [es[0].datum] + Data(es[1..]);
    }
  }

  /** Entries never take more room than their reader consumes, and less as soon as one is misaligned. */
  lemma {:induction false} RoomConsumed(es: seq<Entry>)
    requires DummiesOnEmpty(es)
    ensures |Flat(FlatEntry, es)| <= TotalConsumed(Data(es), true)
    ensures |Flat(FlatEntry, es)| == TotalConsumed(Data(es), true) ==> AllAligned(es, true)
    decreases |es|
  {
    if es != [] {
      RoomConsumed(es[1..]);
      assert Data(es)[1..] == Data(es[1..]);
      assert |FlatEntry(es[0])| <= Consumed(es[0].datum, true);
      if |Flat(FlatEntry, es)| == TotalConsumed(Data(es), true) {
        forall i | 0 <= i < |es| ensures Aligned(es[i], true) {
          if i > 0 {
            assert es[i] == es[1..][i - 1];
          }
        }
      }
    }
  }

  /** Every entry without values carries its dummy, except perhaps the last: nothing is read behind it. */
  predicate DummiesButLast(es: seq<Entry>) {
    forall i | 0 <= i < |es| - 1 :: es[i].datum.values == [] ==> es[i].dummy
  }

  /** No entry behind the first is named by its own number of values. */
  predicate NamesTell(ds: seq<DbDatum>) {
    forall i | 1 <= i < |ds| :: ds[i].name != Dec(|ds[i].values|)
  }

  /** Where the reader stops when only the last entry lacks its dummy. */
  function Overrun(es: seq<Entry>): nat {
    if es != [] && !Aligned(es[|es| - 1], true) then 1 else 0
  }

  lemma {:induction false} DataTail(es: seq<Entry>)
    requires |es| > 0
    ensures Data(es) == [es[0].datum] + Data(es[1..])
  {
    var tail := es[1..];
    assert forall i | 0 <= i < |tail| :: Data(tail)[i] == Data(es)[i + 1];
  }

  lemma {:induction false} CountableTail(d: DbDatum, ds: seq<DbDatum>)
    requires Countable([d] + ds)
    ensures |d.values| <= INT_MAX && Countable(ds)
  {
    var all := [d] + ds;
    assert all[0] == d;
    forall i | 0 <= i < |ds| ensures |ds[i].values| <= INT_MAX {
      assert ds[i] == all[i + 1];
    }
  }

  lemma {:induction false} NamesTellTail(d: DbDatum, ds: seq<DbDatum>)
    requires NamesTell([d] + ds)
    ensures NamesTell(ds) && (ds != [] ==> ds[0].name != Dec(|ds[0].values|))
  {
    hide Dec;
    var all := [d] + ds;
    assert forall i | 0 <= i < |ds| :: ds[i] == all[i + 1];
  }

  lemma {:induction false} DummiesTail(es: seq<Entry>)
    requires |es| > 0
    ensures DummiesOnEmpty(es) ==> DummiesOnEmpty(es[1..])
    ensures |es| > 1 ==> (DummiesButLast(es) <==> (es[0].datum.values == [] ==> es[0].dummy) && DummiesButLast(es[1..]))
    ensures |es| > 1 ==> Overrun(es) == Overrun(es[1..])
  {
    var tail := es[1..];
    assert forall i | 0 <= i < |tail| :: tail[i] == es[i + 1];
    if |es| > 1 && (es[0].datum.values == [] ==> es[0].dummy) && DummiesButLast(tail) {
      forall i | 0 <= i < |es| - 1 ensures es[i].datum.values == [] ==> es[i].dummy {
        assert i > 0 ==> es[i] == tail[i - 1];
      }
    }
  }

  /** What carries over from a list of entries to its tail. */
  lemma {:induction false} TailOf(es: seq<Entry>)
    requires |es| > 0 && Countable(Data(es)) && DummiesOnEmpty(es)
    ensures Data(es) == [es[0].datum] + Data(es[1..])
    ensures |es[0].datum.values| <= INT_MAX && Countable(Data(es[1..])) && DummiesOnEmpty(es[1..])
    ensures |es| > 1 ==> (DummiesButLast(es) <==> (es[0].datum.values == [] ==> es[0].dummy) && DummiesButLast(es[1..]))
    ensures |es| > 1 ==> Overrun(es) == Overrun(es[1..])
  {
    hide Countable, DummiesOnEmpty, DummiesButLast, Overrun;
    DataTail(es);
    CountableTail(es[0].datum, Data(es[1..]));
    DummiesTail(es);
  }

  lemma {:induction false} DecodeCons(reply: seq<string>, index: nat, st: StringStream, k: nat, d: Decoded)
    requires st.Valid() && k > 0 && DecodeDatum(reply, index, st, true) == Some(d)
    ensures d.stream.Valid()
    ensures DecodeData(reply, index, st, k, true) == Prepend(d.data, DecodeData(reply, d.end, d.stream, k - 1, true))
  {
    hide DecodeDatum;
  }

  /** The data are right as soon as every entry but the last is aligned. */
  lemma {:induction false} DecodeButLast(reply: seq<string>, index: nat, st: StringStream, es: seq<Entry>)
    requires st.Valid() && !st.fail && Countable(Data(es)) && DummiesOnEmpty(es) && DummiesButLast(es)
    requires At(reply, index, Flat(FlatEntry, es))
    ensures var r := DecodeData(reply, index, st, |es|, true);
            r.Some? && r.value.data == Data(es) && r.value.end == index + |Flat(FlatEntry, es)| + Overrun(es) && !r.value.stream.fail
    decreases |es|
  {
    hide At, FlatEntry, DecodeDatum, Countable, DummiesOnEmpty, DummiesButLast, Overrun, StringStream.Next;
    if es == [] {
      NoOverrun(es);
    } else {
      TailOf(es);
      AtConcat(reply, index, FlatEntry(es[0]), Flat(FlatEntry, es[1..]));
      DecodeOne(reply, index, st, es[0], true);
      var d := DecodeDatum(reply, index, st, true).value;
      DecodeCons(reply, index, st, |es|, d);
      hide DecodeData;
      FirstRoom(es);
      if |es| == 1 {
        assert es[1..] == [];
        DecodeNone(reply, d.end, d.stream);
      } else {
        DecodeButLast(reply, d.end, d.stream, es[1..]);
      }
    }
  }

  lemma {:induction false} NoOverrun(es: seq<Entry>)
    requires es == []
    ensures Overrun(es) == 0
  {
  }

  lemma {:induction false} DecodeNone(reply: seq<string>, index: nat, st: StringStream)
    requires st.Valid()
    ensures DecodeData(reply, index, st, 0, true) == Some(Decoded([], index, st))
  {
  }

  /** What the first entry takes and what its reader consumes. */
  lemma {:induction false} FirstRoom(es: seq<Entry>)
    requires es != [] && DummiesOnEmpty(es)
    ensures Consumed(es[0].datum, true) == |FlatEntry(es[0])| + if Aligned(es[0], true) then 0 else 1
    ensures |es| == 1 ==> Overrun(es) == if Aligned(es[0], true) then 0 else 1
    ensures |es| > 1 && DummiesButLast(es) ==> Aligned(es[0], true)
    ensures !Aligned(es[0], true) ==> !(es[0].datum.values == [] ==> es[0].dummy)
  {
  }

  /** A reader one string ahead takes the count of the next entry for its name. */
  lemma {:induction false} NextName(reply: seq<string>, index: nat, st: StringStream, e: Entry, k: nat)
    requires st.Valid() && k > 0
    requires At(reply, index, FlatEntry(e))
    ensures var r := DecodeData(reply, index + 1, st, k, true);
            r.Some? ==> r.value.data[0].name == Dec(|e.datum.values|)
  {
    AtIndex(reply, index, FlatEntry(e));
    assert reply[index + 1] == FlatEntry(e)[1];
    hide StringStream.Next, At;
    if DecodeData(reply, index + 1, st, k, true).Some? {
      DecodeCons(reply, index + 1, st, k, DecodeDatum(reply, index + 1, st, true).value);
    }
  }

  /** So right data mean that the first entry is aligned, and that the others were read from there. */
  lemma {:induction false} FirstDataTell(reply: seq<string>, index: nat, st: StringStream, es: seq<Entry>) returns (st': StringStream)
    requires st.Valid() && !st.fail && |es| > 1 && Countable(Data(es)) && DummiesOnEmpty(es) && NamesTell(Data(es))
    requires At(reply, index, Flat(FlatEntry, es))
    ensures st'.Valid() && !st'.fail && At(reply, index + |FlatEntry(es[0])|, Flat(FlatEntry, es[1..]))
    ensures var r := DecodeData(reply, index, st, |es|, true);
            var rest := DecodeData(reply, index + |FlatEntry(es[0])|, st', |es| - 1, true);
            r.Some? && r.value.data == Data(es) ==> Aligned(es[0], true) && rest.Some? && rest.value.data == Data(es[1..])
  {
    hide At, FlatEntry, DecodeDatum, Countable, DummiesOnEmpty, DummiesButLast, NamesTell, StringStream.Next, Aligned, Consumed, Dec;
    TailOf(es);
    AtConcat(reply, index, FlatEntry(es[0]), Flat(FlatEntry, es[1..]));
    DecodeOne(reply, index, st, es[0], true);
    var d := DecodeDatum(reply, index, st, true).value;
    st' := d.stream;
    DecodeCons(reply, index, st, |es|, d);
    hide DecodeData, Flat;
    FirstRoom(es);
    var next := index + |FlatEntry(es[0])|;
    FlatTail(es);
    AtConcat(reply, next, FlatEntry(es[1]), Flat(FlatEntry, es[2..]));
    hide Data;
    TailData(es, DecodeData(reply, d.end, d.stream, |es| - 1, true));
    if !Aligned(es[0], true) {
      NextName(reply, next, d.stream, es[1], |es| - 1);
    }
  }

  /** Right data split into those of the first entry and the others. */
  lemma {:induction false} TailData(es: seq<Entry>, rest: Option<Decoded>)
    requires |es| > 1 && NamesTell(Data(es))
    ensures var r := Prepend([es[0].datum], rest);
            r.Some? && r.value.data == Data(es)
            ==> rest.Some? && rest.value.data == Data(es[1..]) && rest.value.data[0].name != Dec(|es[1].datum.values|)
  {
    hide NamesTell, Dec;
    DataTail(es);
    NamesTellTail(es[0].datum, Data(es[1..]));
    if rest.Some? && [es[0].datum] + rest.value.data == Data(es) {
      assert rest.value.data == ([es[0].datum] + rest.value.data)[1..];
    }
  }

  /** So right data mean that every entry but the last is aligned, unless a name is the count. */
  lemma {:induction false} RightDataTell(reply: seq<string>, index: nat, st: StringStream, es: seq<Entry>)
    requires st.Valid() && !st.fail && Countable(Data(es)) && DummiesOnEmpty(es) && NamesTell(Data(es))
    requires At(reply, index, Flat(FlatEntry, es))
    ensures var r := DecodeData(reply, index, st, |es|, true);
            r.Some? && r.value.data == Data(es) ==> DummiesButLast(es)
    decreases |es|
  {
    hide At, FlatEntry, Flat, DecodeData, Countable, DummiesOnEmpty, DummiesButLast, NamesTell, Aligned, Overrun;
    if |es| <= 1 {
      NoneButLast(es);
    } else {
      var st' := FirstDataTell(reply, index, st, es);
      TailOf(es);
      NamesTellTail(es[0].datum, Data(es[1..]));
      RightDataTell(reply, index + |FlatEntry(es[0])|, st', es[1..]);
      if Aligned(es[0], true) {
        AlignedFirst(es);
      }
    }
  }

  lemma {:induction false} NoneButLast(es: seq<Entry>)
    requires |es| <= 1
    ensures DummiesButLast(es)
  {
  }

  lemma {:induction false} AlignedFirst(es: seq<Entry>)
    requires es != [] && Aligned(es[0], true)
    ensures es[0].datum.values == [] ==> es[0].dummy
  {
  }

  lemma {:induction false} FlatTail(es: seq<Entry>)
    requires |es| > 1
    ensures Flat(FlatEntry, es[1..]) == FlatEntry(es[1]) + Flat(FlatEntry, es[2..])
  {
    assert es[1..][0] == es[1] && es[1..][1..] == es[2..];
  }

  /** The reader that skips dummies gives the right data when every entry without values but the last
      carries its dummy; and only then, unless an entry behind the first is named by its own number of
      values. Its cursor is right too if and only if the last entry is no exception. */
  lemma {:induction false} SkippingReaderExact(reply: seq<string>, index: nat, st: StringStream, es: seq<Entry>)
    requires st.Valid() && !st.fail && Countable(Data(es))
    requires DummiesOnEmpty(es)
    requires At(reply, index, Flat(FlatEntry, es)) && index + |Flat(FlatEntry, es)| == |reply|
    ensures var r := DecodeData(reply, index, st, |es|, true);
            (DummiesButLast(es) ==> r.Some? && r.value.data == Data(es) && r.value.end == |reply| + Overrun(es))
            && (NamesTell(Data(es)) ==> (r.Some? && r.value.data == Data(es) <==> DummiesButLast(es)))
            && (r.Some? && r.value.data == Data(es) && r.value.end == |reply| <==> EmptiesHaveDummy(es))
  {
    hide At, FlatEntry, NamesTell, DecodeData, Overrun, Countable, DummiesOnEmpty;
    var r := DecodeData(reply, index, st, |es|, true);
    if DummiesButLast(es) {
      DecodeButLast(reply, index, st, es);
    } else if NamesTell(Data(es)) {
      RightDataTell(reply, index, st, es);
    }
    if EmptiesHaveDummy(es) {
      DummiesAlign(es);
      DecodeAligned(reply, index, st, es, true);
    }
    if r.Some? && r.value.data == Data(es) && r.value.end == |reply| {
      DecodeDataEnd(reply, index, st, |es|, true);
      RoomConsumed(es);
    }
  }

  lemma {:induction false} DummiesAlign(es: seq<Entry>)
    requires DummiesOnEmpty(es)
    ensures EmptiesHaveDummy(es) <==> AllAligned(es, true)
  {
  }

  // ----- the same for attributes -----

  predicate AllFilled(ds: seq<DbDatum>) {
    forall i | 0 <= i < |ds| :: ds[i].values != []
  }

  predicate AllPropsFilled(atts: seq<Owner>) {
    forall i | 0 <= i < |atts| :: AllFilled(atts[i].props)
  }

  /** The number of properties and every number of values fit the types they are read into. */
  predicate CountableOwner(a: Owner, hi: int) {
    |a.props| <= hi && Countable(a.props)
  }

  predicate AllCountable(atts: seq<Owner>, hi: int) {
    forall i | 0 <= i < |atts| :: CountableOwner(atts[i], hi)
  }

  lemma {:induction false} FlatPlain(ds: seq<DbDatum>)
    ensures Flat(FlatEntry, Plain(ds)) == Flat(FlatDatum, ds)
  {
    if ds != [] {
      FlatPlain(ds[1..]);
      assert Plain(ds)[1..] == Plain(ds[1..]);
      assert FlatEntry(Plain(ds)[0]) == FlatDatum(ds[0]);
    }
  }

  /** Reading properties that all have a value. */
  lemma {:induction false} DecodeFilled(reply: seq<string>, index: nat, st: StringStream, ds: seq<DbDatum>)
    requires st.Valid() && !st.fail && Countable(ds) && AllFilled(ds)
    requires At(reply, index, Flat(FlatDatum, ds))
    ensures var r := DecodeData(reply, index, st, |ds|, true);
            r.Some? && r.value.data == ds && r.value.end == index + |Flat(FlatDatum, ds)| && !r.value.stream.fail
  {
    FlatPlain(ds);
    assert Data(Plain(ds)) == ds;
    DecodeAligned(reply, index, st, Plain(ds), true);
  }

  lemma {:induction false} HeaderAt(reply: seq<string>, index: nat, a: Owner)
    requires At(reply, index, FlatOwner(a))
    ensures index + 1 < |reply| && reply[index] == a.name && reply[index + 1] == DecInt(|a.props|)
    ensures At(reply, index + 2, Flat(FlatDatum, a.props)) && |FlatOwner(a)| == 2 + |Flat(FlatDatum, a.props)|
  {
    AtConcat(reply, index, [a.name, Dec(|a.props|)], Flat(FlatDatum, a.props));
    AtIndex(reply, index, [a.name, Dec(|a.props|)]);
    assert reply[index + 0] == a.name && reply[index + 1] == Dec(|a.props|);
  }

  /** Reading attributes whose properties all have a value. */
  lemma {:induction false} DecodeFilledAttributes(reply: seq<string>, index: nat, st: StringStream, atts: seq<Owner>, lo: int, hi: int)
    requires st.Valid() && !st.fail && lo <= 0 <= hi && AllCountable(atts, hi) && AllPropsFilled(atts)
    requires At(reply, index, Flat(FlatOwner, atts))
    ensures var r := DecodeAttributes(reply, index, st, |atts|, lo, hi);
            r.Some? && r.value.data == Flat(OwnerData, atts)
            && r.value.end == index + |Flat(FlatOwner, atts)| && !r.value.stream.fail
    decreases |atts|
  {
    hide At, FlatOwner, StringStream.Next, DecodeData, AllFilled, Dec;
    if atts != [] {
      var a := atts[0];
      assert CountableOwner(a, hi) && AllFilled(a.props);
      AtConcat(reply, index, FlatOwner(a), Flat(FlatOwner, atts[1..]));
      HeaderAt(reply, index, a);
      NextDec(st, |a.props|, lo, hi);
      var (n, st') := st.Next(reply[index + 1], lo, hi);
      DecodeFilled(reply, index + 2, st', a.props);
      var d := DecodeData(reply, index + 2, st', n, true).value;
      assert n == |a.props| && d.data == a.props && OwnerData(a) == [DbDatum(reply[index], [DecInt(n)])] + d.data;
      assert AllCountable(atts[1..], hi) && AllPropsFilled(atts[1..]);
      DecodeFilledAttributes(reply, d.end, d.stream, atts[1..], lo, hi);
    }
  }

  // ----- and exactly when -----

  function AttributesConsumed(atts: seq<Owner>): nat {
    if atts == [] then 0 else 2 + TotalConsumed(atts[0].props, true) + AttributesConsumed(atts[1..])
  }

  lemma {:induction false} DecIntInjective(a: int, b: int)
    requires DecInt(a) == DecInt(b)
    ensures a == b
  {
    AtoiDecInt(a);
    AtoiDecInt(b);
  }

  /** The header datum tells where the properties of an attribute end. */
  lemma {:induction false} SameHeader(name: string, n: nat, props: seq<DbDatum>, rest: seq<DbDatum>, a: Owner, rest': seq<DbDatum>)
    requires |props| == n
    requires [DbDatum(name, [DecInt(n)])] + props + rest == OwnerData(a) + rest'
    ensures name == a.name && props == a.props && rest == rest'
  {
    var s, t := [DbDatum(name, [DecInt(n)])] + props + rest, OwnerData(a) + rest';
    assert s[0].values[0] == DecInt(n) && t[0].values[0] == DecInt(|a.props|);
    DecIntInjective(n, |a.props|);
    assert s[1..1 + n] == props && t[1..1 + n] == a.props;
    assert s[1 + n..] == rest && t[1 + n..] == rest';
  }

  /** One attribute of a successful reading: its property count, its properties and what follows. */
  lemma {:induction false} DecodeAttributesStep(reply: seq<string>, index: nat, st: StringStream, k: nat, lo: int, hi: int)
      returns (n: nat, st': StringStream, d: Decoded)
    requires st.Valid() && lo <= 0 <= hi && k > 0
    ensures st'.Valid() && d.stream.Valid()
    ensures var r := DecodeAttributes(reply, index, st, k, lo, hi);
            var rest := DecodeAttributes(reply, d.end, d.stream, k - 1, lo, hi);
            r.Some? ==> && index + 1 < |reply| && DecodeData(reply, index + 2, st', n, true) == Some(d) && rest.Some?
                        && r == Some(rest.value.(data := [DbDatum(reply[index], [DecInt(n)])] + d.data + rest.value.data))
  {
    hide DecodeData, StringStream.Next;
    n, st', d := 0, st, Decoded([], index, st);
    if DecodeAttributes(reply, index, st, k, lo, hi).Some? {
      n := st.Next(reply[index + 1], lo, hi).0;
      st' := st.Next(reply[index + 1], lo, hi).1;
      d := DecodeData(reply, index + 2, st', n, true).value;
    }
  }

  /** If the reading gave the data of `atts`, its first step gave the properties of the first of them. */
  lemma {:induction false} DecodeAttributesFirst(reply: seq<string>, index: nat, st: StringStream, atts: seq<Owner>, lo: int, hi: int, r: Decoded)
      returns (d: Decoded, rest: Decoded)
    requires st.Valid() && lo <= 0 <= hi && atts != [] && DecodeAttributes(reply, index, st, |atts|, lo, hi) == Some(r)
    requires r.data == Flat(OwnerData, atts)
    ensures d.stream.Valid() && d.end == index + 2 + TotalConsumed(atts[0].props, true)
    ensures DecodeAttributes(reply, d.end, d.stream, |atts[1..]|, lo, hi) == Some(rest)
    ensures rest.data == Flat(OwnerData, atts[1..]) && r.end == rest.end
  {
    hide StringStream.Next, DecodeData, DecodeAttributes, OwnerData, Dec, DecInt;
    var n, st', d' := DecodeAttributesStep(reply, index, st, |atts|, lo, hi);
    d := d';
    rest := DecodeAttributes(reply, d.end, d.stream, |atts| - 1, lo, hi).value;
    SameHeader(reply[index], n, d.data, rest.data, atts[0], Flat(OwnerData, atts[1..]));
    DecodeDataEnd(reply, index + 2, st', n, true);
  }

  /** A successful reading that gave the data of `atts` consumed what the reader takes for `atts`. */
  lemma {:induction false} DecodeAttributesEnd(reply: seq<string>, index: nat, st: StringStream, atts: seq<Owner>, lo: int, hi: int)
    requires st.Valid() && lo <= 0 <= hi
    ensures var r := DecodeAttributes(reply, index, st, |atts|, lo, hi);
            r.Some? && r.value.data == Flat(OwnerData, atts) ==> r.value.end == index + AttributesConsumed(atts)
    decreases |atts|
  {
    var r := DecodeAttributes(reply, index, st, |atts|, lo, hi);
    if atts != [] && r.Some? && r.value.data == Flat(OwnerData, atts) {
      var d, rest := DecodeAttributesFirst(reply, index, st, atts, lo, hi, r.value);
      DecodeAttributesEnd(reply, d.end, d.stream, atts[1..], lo, hi);
    }
  }

  lemma {:induction false} RoomOfProps(ds: seq<DbDatum>)
    ensures |Flat(FlatDatum, ds)| <= TotalConsumed(ds, true)
    ensures |Flat(FlatDatum, ds)| == TotalConsumed(ds, true) ==> AllFilled(ds)
  {
    FlatPlain(ds);
    assert Data(Plain(ds)) == ds;
    RoomConsumed(Plain(ds));
    if |Flat(FlatDatum, ds)| == TotalConsumed(ds, true) {
      forall i | 0 <= i < |ds| ensures ds[i].values != [] {
        assert Aligned(Plain(ds)[i], true);
      }
    }
  }

  lemma {:induction false} RoomOfAttributes(atts: seq<Owner>)
    ensures |Flat(FlatOwner, atts)| <= AttributesConsumed(atts)
    ensures |Flat(FlatOwner, atts)| == AttributesConsumed(atts) ==> AllPropsFilled(atts)
    decreases |atts|
  {
    if atts != [] {
      RoomOfAttributes(atts[1..]);
      RoomOfProps(atts[0].props);
      if |Flat(FlatOwner, atts)| == AttributesConsumed(atts) {
        forall i | 0 <= i < |atts| ensures AllFilled(atts[i].props) {
          if i > 0 {
            assert atts[i] == atts[1..][i - 1];
          }
        }
      }
    }
  }

  // ----- and what the client sees of it -----

  predicate FilledButLast(ds: seq<DbDatum>) {
    forall i | 0 <= i < |ds| - 1 :: ds[i].values != []
  }

  /** Every property has a value, except perhaps the very last of the reply. */
  predicate FilledButEnd(atts: seq<Owner>) {
    forall i | 0 <= i < |atts| :: if i < |atts| - 1 then AllFilled(atts[i].props) else FilledButLast(atts[i].props)
  }

  /** No attribute behind the first is named by its number of properties, and no property behind the first
      of its attribute by its number of values. */
  predicate OwnersTell(atts: seq<Owner>) {
    forall i | 0 <= i < |atts| :: (i > 0 ==> atts[i].name != Dec(|atts[i].props|)) && NamesTell(atts[i].props)
  }

  lemma {:induction false} PlainButLast(ds: seq<DbDatum>)
    ensures DummiesOnEmpty(Plain(ds)) && Data(Plain(ds)) == ds
    ensures DummiesButLast(Plain(ds)) <==> FilledButLast(ds)
    ensures FilledButLast(ds) ==> (Overrun(Plain(ds)) == 0 <==> AllFilled(ds))
  {
    var es := Plain(ds);
    assert Data(es) == ds;
    assert forall i | 0 <= i < |ds| :: es[i] == Entry(ds[i], false);
    if DummiesButLast(es) {
      forall i | 0 <= i < |ds| - 1 ensures ds[i].values != [] {
        assert !es[i].dummy;
      }
    }
  }

  /** Reading properties of which only the last may be without values. */
  lemma {:induction false} PropsButLast(reply: seq<string>, index: nat, st: StringStream, ds: seq<DbDatum>)
    requires st.Valid() && !st.fail && Countable(ds) && FilledButLast(ds)
    requires At(reply, index, Flat(FlatDatum, ds))
    ensures var r := DecodeData(reply, index, st, |ds|, true);
            && r.Some? && r.value.data == ds && !r.value.stream.fail
            && r.value.end == index + |Flat(FlatDatum, ds)| + if AllFilled(ds) then 0 else 1
  {
    hide At, FlatEntry, Flat, DecodeData, Countable, DummiesOnEmpty, DummiesButLast, FilledButLast, AllFilled;
    FlatPlain(ds);
    PlainButLast(ds);
    DecodeButLast(reply, index, st, Plain(ds));
  }

  lemma {:induction false} PropsTell(reply: seq<string>, index: nat, st: StringStream, ds: seq<DbDatum>)
    requires st.Valid() && !st.fail && Countable(ds) && NamesTell(ds)
    requires At(reply, index, Flat(FlatDatum, ds))
    ensures var r := DecodeData(reply, index, st, |ds|, true);
            r.Some? && r.value.data == ds ==> FilledButLast(ds)
  {
    hide At, FlatEntry, Flat, DecodeData, Countable, DummiesOnEmpty, DummiesButLast, FilledButLast, AllFilled, NamesTell;
    FlatPlain(ds);
    PlainButLast(ds);
    RightDataTell(reply, index, st, Plain(ds));
  }

  lemma {:induction false} OwnersTail(atts: seq<Owner>, hi: int)
    requires atts != [] && AllCountable(atts, hi)
    ensures CountableOwner(atts[0], hi) && AllCountable(atts[1..], hi)
    ensures OwnersTell(atts) ==> NamesTell(atts[0].props) && OwnersTell(atts[1..])
    ensures OwnersTell(atts) && |atts| > 1 ==> atts[1].name != Dec(|atts[1].props|)
  {
    hide NamesTell, Dec, CountableOwner;
    var tail := atts[1..];
    assert forall i | 0 <= i < |tail| :: tail[i] == atts[i + 1];
  }

  lemma {:induction false} FilledTail(atts: seq<Owner>)
    requires atts != []
    ensures |atts| == 1 ==> (FilledButEnd(atts) <==> FilledButLast(atts[0].props))
    ensures |atts| > 1 ==> (FilledButEnd(atts) <==> AllFilled(atts[0].props) && FilledButEnd(atts[1..]))
  {
    hide AllFilled, FilledButLast;
    var tail := atts[1..];
    assert forall i | 0 <= i < |tail| :: tail[i] == atts[i + 1];
    if |atts| > 1 && AllFilled(atts[0].props) && FilledButEnd(tail) {
      forall i | 0 <= i < |atts|
        ensures if i < |atts| - 1 then AllFilled(atts[i].props) else FilledButLast(atts[i].props)
      {
        assert i > 0 ==> atts[i] == tail[i - 1];
      }
    }
  }

  lemma {:induction false} NothingFilled(atts: seq<Owner>)
    requires atts == []
    ensures FilledButEnd(atts)
  {
  }

  lemma {:induction false} FilledIsButLast(ds: seq<DbDatum>)
    requires AllFilled(ds)
    ensures FilledButLast(ds)
  {
  }

  /** Unfolds the reading of one attribute that stands at `index`. */
  lemma {:induction false} DecodeOwner(reply: seq<string>, index: nat, st: StringStream, a: Owner, k: nat, lo: int, hi: int)
      returns (st': StringStream)
    requires st.Valid() && !st.fail && lo <= 0 <= hi && k > 0 && CountableOwner(a, hi)
    requires At(reply, index, FlatOwner(a))
    ensures st'.Valid() && !st'.fail && At(reply, index + 2, Flat(FlatDatum, a.props)) && Countable(a.props)
    ensures |FlatOwner(a)| == 2 + |Flat(FlatDatum, a.props)|
    ensures var r := DecodeData(reply, index + 2, st', |a.props|, true);
            DecodeAttributes(reply, index, st, k, lo, hi)
            == if r.None? then None
               else Prepend([DbDatum(a.name, [Dec(|a.props|)])] + r.value.data,
                            DecodeAttributes(reply, r.value.end, r.value.stream, k - 1, lo, hi))
  {
    hide At, FlatOwner, StringStream.Next, DecodeData, Dec, Flat, Countable;
    HeaderAt(reply, index, a);
    NextDec(st, |a.props|, lo, hi);
    st' := st.Next(reply[index + 1], lo, hi).1;
  }

  /** One attribute of which only the last property may be without values. */
  lemma {:induction false} DecodeOwnerButLast(reply: seq<string>, index: nat, st: StringStream, a: Owner, k: nat, lo: int, hi: int)
      returns (end: nat, next: StringStream)
    requires st.Valid() && !st.fail && lo <= 0 <= hi && k > 0 && CountableOwner(a, hi) && FilledButLast(a.props)
    requires At(reply, index, FlatOwner(a))
    ensures next.Valid() && !next.fail
    ensures end == index + |FlatOwner(a)| + if AllFilled(a.props) then 0 else 1
    ensures DecodeAttributes(reply, index, st, k, lo, hi)
         == Prepend(OwnerData(a), DecodeAttributes(reply, end, next, k - 1, lo, hi))
  {
    hide At, Flat, FlatOwner, OwnerData, DecodeAttributes, DecodeData, AllFilled, FilledButLast, Dec, CountableOwner, Countable;
    var st' := DecodeOwner(reply, index, st, a, k, lo, hi);
    PropsButLast(reply, index + 2, st', a.props);
    OneOwner(a);
    var d := DecodeData(reply, index + 2, st', |a.props|, true).value;
    end, next := d.end, d.stream;
  }

  /** The data are right as soon as every property but the last of the reply has a value. */
  lemma {:induction false} DecodeButEnd(reply: seq<string>, index: nat, st: StringStream, atts: seq<Owner>, lo: int, hi: int)
    requires st.Valid() && !st.fail && lo <= 0 <= hi && AllCountable(atts, hi) && FilledButEnd(atts)
    requires At(reply, index, Flat(FlatOwner, atts))
    ensures var r := DecodeAttributes(reply, index, st, |atts|, lo, hi);
            r.Some? && r.value.data == Flat(OwnerData, atts)
    decreases |atts|
  {
    hide At, FlatOwner, OwnerData, DecodeAttributes, AllFilled, FilledButLast, AllCountable, CountableOwner, FilledButEnd;
    if atts == [] {
      NoAttributes(reply, index, st, lo, hi);
    } else {
      var a := atts[0];
      OwnersTail(atts, hi);
      FilledTail(atts);
      AtConcat(reply, index, FlatOwner(a), Flat(FlatOwner, atts[1..]));
      if |atts| > 1 {
        FilledIsButLast(a.props);
      }
      var end, next := DecodeOwnerButLast(reply, index, st, a, |atts|, lo, hi);
      if |atts| > 1 {
        DecodeButEnd(reply, end, next, atts[1..], lo, hi);
      } else {
        assert atts[1..] == [];
        NoAttributes(reply, end, next, lo, hi);
      }
    }
  }

  lemma {:induction false} OneOwner(a: Owner)
    ensures OwnerData(a) == [DbDatum(a.name, [Dec(|a.props|)])] + a.props
  {
  }

  lemma {:induction false} NoAttributes(reply: seq<string>, index: nat, st: StringStream, lo: int, hi: int)
    requires st.Valid() && lo <= 0 <= hi
    ensures DecodeAttributes(reply, index, st, 0, lo, hi) == Some(Decoded([], index, st))
  {
  }

  /** A reader one string ahead takes the next attribute's property count for its name. */
  lemma {:induction false} NextOwnerName(reply: seq<string>, index: nat, st: StringStream, a: Owner, k: nat, lo: int, hi: int)
    requires st.Valid() && k > 0 && lo <= 0 <= hi
    requires At(reply, index, FlatOwner(a))
    ensures var r := DecodeAttributes(reply, index + 1, st, k, lo, hi);
            r.Some? ==> r.value.data != [] && r.value.data[0].name == Dec(|a.props|)
  {
    HeaderAt(reply, index, a);
    hide At, FlatOwner, StringStream.Next, DecodeData, Flat;
    assert DecInt(|a.props|) == Dec(|a.props|);
    if DecodeAttributes(reply, index + 1, st, k, lo, hi).Some? {
      var n, st', d := DecodeAttributesStep(reply, index + 1, st, k, lo, hi);
    }
  }

  /** Right data split into those of the first attribute and those of the others. */
  lemma {:induction false} SplitData(a: Owner, props: seq<DbDatum>, rest: seq<DbDatum>, rest': seq<DbDatum>)
    requires |props| == |a.props|
    requires [DbDatum(a.name, [Dec(|a.props|)])] + props + rest == OwnerData(a) + rest'
    ensures props == a.props && rest == rest'
  {
    assert DecInt(|a.props|) == Dec(|a.props|);
    SameHeader(a.name, |a.props|, props, rest, a, rest');
  }

  /** Right data mean that the first attribute's properties were read right. */
  lemma {:induction false} FirstOwnerTell(reply: seq<string>, index: nat, st: StringStream, atts: seq<Owner>, lo: int, hi: int)
      returns (end: nat, next: StringStream)
    requires st.Valid() && !st.fail && lo <= 0 <= hi && atts != [] && AllCountable(atts, hi) && OwnersTell(atts)
    requires At(reply, index, Flat(FlatOwner, atts))
    ensures next.Valid() && At(reply, index + |FlatOwner(atts[0])|, Flat(FlatOwner, atts[1..]))
    ensures var r := DecodeAttributes(reply, index, st, |atts|, lo, hi);
            var rest := DecodeAttributes(reply, end, next, |atts| - 1, lo, hi);
            r.Some? && r.value.data == Flat(OwnerData, atts)
            ==> && FilledButLast(atts[0].props) && !next.fail
                && end == index + (|FlatOwner(atts[0])| + if AllFilled(atts[0].props) then 0 else 1)
                && rest.Some? && rest.value.data == Flat(OwnerData, atts[1..])
  {
    hide At, FlatOwner, OwnerData, DecodeData, AllFilled, FilledButLast, Dec, AllCountable, CountableOwner, OwnersTell, Countable, NamesTell;
    var a := atts[0];
    OwnersTail(atts, hi);
    AtConcat(reply, index, FlatOwner(a), Flat(FlatOwner, atts[1..]));
    var st' := DecodeOwner(reply, index, st, a, |atts|, lo, hi);
    hide DecodeAttributes;
    PropsTell(reply, index + 2, st', a.props);
    end, next := index, st;
    var r := DecodeAttributes(reply, index, st, |atts|, lo, hi);
    if r.Some? && r.value.data == Flat(OwnerData, atts) {
      var d := DecodeData(reply, index + 2, st', |a.props|, true).value;
      end, next := d.end, d.stream;
      var rest := DecodeAttributes(reply, end, next, |atts| - 1, lo, hi).value;
      SplitData(a, d.data, rest.data, Flat(OwnerData, atts[1..]));
      PropsButLast(reply, index + 2, st', a.props);
    }
  }

  /** So right data mean that every property but the last of the reply has a value, unless a name is a count. */
  lemma {:induction false} RightOwnersTell(reply: seq<string>, index: nat, st: StringStream, atts: seq<Owner>, lo: int, hi: int)
    requires st.Valid() && !st.fail && lo <= 0 <= hi && AllCountable(atts, hi) && OwnersTell(atts)
    requires At(reply, index, Flat(FlatOwner, atts))
    ensures var r := DecodeAttributes(reply, index, st, |atts|, lo, hi);
            r.Some? && r.value.data == Flat(OwnerData, atts) ==> FilledButEnd(atts)
    decreases |atts|
  {
    hide At, Flat, FlatOwner, OwnerData, DecodeAttributes, AllFilled, FilledButLast, FilledButEnd, Dec, AllCountable, CountableOwner, OwnersTell;
    var r := DecodeAttributes(reply, index, st, |atts|, lo, hi);
    if atts == [] {
      NothingFilled(atts);
    } else if r.Some? && r.value.data == Flat(OwnerData, atts) {
      var end, next := FirstOwnerTell(reply, index, st, atts, lo, hi);
      OwnersTail(atts, hi);
      FilledTail(atts);
      if |atts| > 1 {
        var behind := index + |FlatOwner(atts[0])|;
        OwnersSplit(atts);
        AtConcat(reply, behind, FlatOwner(atts[1]), Flat(FlatOwner, atts[2..]));
        assert Flat(OwnerData, atts[1..])[0].name == atts[1].name;
        if AllFilled(atts[0].props) {
          RightOwnersTell(reply, behind, next, atts[1..], lo, hi);
        } else {
          NextOwnerName(reply, behind, next, atts[1], |atts| - 1, lo, hi);
        }
      }
    }
  }

  lemma {:induction false} OwnersSplit(atts: seq<Owner>)
    requires |atts| > 1
    ensures Flat(FlatOwner, atts[1..]) == FlatOwner(atts[1]) + Flat(FlatOwner, atts[2..])
    ensures var ds := Flat(OwnerData, atts[1..]); ds != [] && ds[0].name == atts[1].name
  {
    assert atts[1..][0] == atts[1] && atts[1..][1..] == atts[2..];
  }

  /** The attribute reader gives every header and every property right when every property but the last of
      the reply has a value; and only then, unless a name is the count it stands before. Its cursor is
      right too if and only if that last one has a value as well. */
  lemma {:induction false} AttributeReaderExact(reply: seq<string>, index: nat, st: StringStream, atts: seq<Owner>, lo: int, hi: int)
    requires st.Valid() && !st.fail && lo <= 0 <= hi && AllCountable(atts, hi)
    requires At(reply, index, Flat(FlatOwner, atts)) && index + |Flat(FlatOwner, atts)| == |reply|
    ensures var r := DecodeAttributes(reply, index, st, |atts|, lo, hi);
            (FilledButEnd(atts) ==> r.Some? && r.value.data == Flat(OwnerData, atts))
            && (OwnersTell(atts) ==> (r.Some? && r.value.data == Flat(OwnerData, atts) <==> FilledButEnd(atts)))
            && (r.Some? && r.value.data == Flat(OwnerData, atts) && r.value.end == |reply| <==> AllPropsFilled(atts))
  {
    hide At, Flat, FlatOwner, OwnerData, DecodeAttributes, AllPropsFilled, FilledButEnd, AllCountable, OwnersTell;
    var r := DecodeAttributes(reply, index, st, |atts|, lo, hi);
    if FilledButEnd(atts) {
      DecodeButEnd(reply, index, st, atts, lo, hi);
    } else if OwnersTell(atts) {
      RightOwnersTell(reply, index, st, atts, lo, hi);
    }
    if AllPropsFilled(atts) {
      DecodeFilledAttributes(reply, index, st, atts, lo, hi);
    }
    if r.Some? && r.value.data == Flat(OwnerData, atts) && r.value.end == |reply| {
      DecodeAttributesEnd(reply, index, st, atts, lo, hi);
      RoomOfAttributes(atts);
    }
  }
}
