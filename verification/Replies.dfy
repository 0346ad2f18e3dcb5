/** What `Database` makes of a reply, and when that is what a direct look-up in the database content gives. */
module Replies {
  import opened Text
  import opened Stream
  import opened Layout
  import opened Wire
  import opened ServerData

  /** The decoding of a property reply into the `DbData` of the caller, with the final cursor. None: an
      access outside the reply or outside `db`, or a negative number of values. With `skip` (device and
      object properties) a property without values is taken to be followed by a dummy. */
  function DecodeReply(reply: seq<string>, db: seq<DbDatum>, skip: bool): Option<(seq<DbDatum>, nat)> {
    if |reply| < 2 then None
    else
      var (n, st) := Fresh.Next(reply[1], 0, UINT_MAX);
      if n > |db| then None
      else
        match DecodeData(reply, 2, st, n, skip)
        case None => None
        case Some(d) => Some((d.data + db[n..], d.end))
  }

  /** The same for an attribute or pipe reply; `db` is left alone when the reply announces nothing. */
  function DecodeAttributeReply(reply: seq<string>, db: seq<DbDatum>, lo: int, hi: int): Option<(seq<DbDatum>, nat)>
    requires lo <= 0 <= hi
  {
    if |reply| < 2 then None
    else
      var (n, st) := Fresh.Next(reply[1], 0, UINT_MAX);
      match DecodeAttributes(reply, 2, st, n, lo, hi)
      case None => None
      case Some(d) => Some((if n == 0 then db else d.data, d.end))
  }

  lemma {:induction false} FirstCount(n: nat)
    requires n <= UINT_MAX
    ensures Fresh.Next(Dec(n), 0, UINT_MAX).0 == n && !Fresh.Next(Dec(n), 0, UINT_MAX).1.fail
  {
    assert Dec(n) == DecInt(n);
    NextDec(Fresh, n, 0, UINT_MAX);
  }

  lemma {:induction false} BodyAt(head: seq<string>, body: seq<string>)
    ensures At(head + body, |head|, body)
  {
    assert (head + body)[|head|..] == body;
  }

  /** A reply that announces as many data as the caller has room for is decoded as a whole. */
  lemma {:induction false} DecodeWhole(reply: seq<string>, db: seq<DbDatum>, skip: bool)
    requires |reply| >= 2 && reply[1] == Dec(|db|) && |db| <= UINT_MAX
    ensures Fresh.Next(reply[1], 0, UINT_MAX).0 == |db| && !Fresh.Next(reply[1], 0, UINT_MAX).1.fail
    ensures var d := DecodeData(reply, 2, Fresh.Next(reply[1], 0, UINT_MAX).1, |db|, skip);
            DecodeReply(reply, db, skip) == if d.None? then None else Some((d.value.data, d.value.end))
  {
    hide StringStream.Next, DecodeData, Dec;
    FirstCount(|db|);
    var d := DecodeData(reply, 2, Fresh.Next(reply[1], 0, UINT_MAX).1, |db|, skip);
    if d.Some? {
      assert d.value.data + db[|db|..] == d.value.data;
    }
  }

  lemma {:induction false} DecodeWholeAttributes(reply: seq<string>, db: seq<DbDatum>, n: nat, lo: int, hi: int)
    requires |reply| >= 2 && reply[1] == Dec(n) && 0 < n <= UINT_MAX && lo <= 0 <= hi
    ensures !Fresh.Next(reply[1], 0, UINT_MAX).1.fail
    ensures var d := DecodeAttributes(reply, 2, Fresh.Next(reply[1], 0, UINT_MAX).1, n, lo, hi);
            DecodeAttributeReply(reply, db, lo, hi) == if d.None? then None else Some((d.value.data, d.value.end))
  {
    hide StringStream.Next, DecodeAttributes, Dec;
    FirstCount(n);
  }

  // ----- property replies -----

  /** No wanted name is that of a property stored without any value. */
  predicate WantedFilled(props: seq<DbDatum>, ws: seq<string>) {
    forall i | 0 <= i < |ws| ::
      var k := FindNamed(DatumName, props, ws[i]);
      k != -1 ==> props[k].values != []
  }

  /** All the wanted names but the last. */
  function ButLast(ws: seq<string>): seq<string> {
    if ws == [] then [] else ws[..|ws| - 1]
  }

  /** The client gets `data`, wherever the cursor ended. */
  predicate Gives(d: Option<(seq<DbDatum>, nat)>, data: seq<DbDatum>) {
    d.Some? && d.value.0 == data
  }

  lemma {:induction false} EntriesAreProperties(props: seq<DbDatum>, ws: seq<string>, device: bool)
    requires Countable(props)
    ensures Data(EntriesFor(props, ws, device)) == Properties(props, ws)
    ensures Countable(Properties(props, ws))
    ensures DummiesOnEmpty(EntriesFor(props, ws, device))
    ensures !device ==> AllAligned(EntriesFor(props, ws, device), false)
    ensures device ==> (EmptiesHaveDummy(EntriesFor(props, ws, device)) <==> WantedFilled(props, ws))
  {
    hide FindNamed;
    var es := EntriesFor(props, ws, device);
    assert forall i | 0 <= i < |ws| :: es[i] == EntryFor(props, ws[i], device);
    if device && EmptiesHaveDummy(es) {
      forall i | 0 <= i < |ws|
        ensures var k := FindNamed(DatumName, props, ws[i]); k != -1 ==> props[k].values != []
      {
        assert es[i].datum.values == [] ==> es[i].dummy;
      }
    }
  }

  lemma {:induction false} EntriesButLast(props: seq<DbDatum>, ws: seq<string>)
    ensures DummiesButLast(EntriesFor(props, ws, true)) <==> WantedFilled(props, ButLast(ws))
  {
    hide FindNamed;
    var es, init := EntriesFor(props, ws, true), ButLast(ws);
    assert forall i | 0 <= i < |init| :: es[i] == EntryFor(props, init[i], true);
    if DummiesButLast(es) {
      forall i | 0 <= i < |init|
        ensures var k := FindNamed(DatumName, props, init[i]); k != -1 ==> props[k].values != []
      {
        assert es[i].datum.values == [] ==> es[i].dummy;
      }
    }
  }

  /** Device and object properties: the client gets, for each name in order, exactly the stored values or
      none, when no wanted property but the last is stored without a value; and only then, unless a name
      is that of its own number of values. The cursor ends at the reply's length if and only if the last
      is no exception. */
  lemma {:induction false} DeviceReplyExact(name: string, props: seq<DbDatum>, ws: seq<string>, db: seq<DbDatum>)
    requires Countable(props) && |db| == |ws| <= UINT_MAX
    ensures var d := DecodeReply(PropertyReply(name, props, ws, true), db, true);
            && (WantedFilled(props, ButLast(ws)) ==> Gives(d, Properties(props, ws)))
            && (NamesTell(Properties(props, ws)) ==> (Gives(d, Properties(props, ws)) <==> WantedFilled(props, ButLast(ws))))
    ensures var reply := PropertyReply(name, props, ws, true);
            DecodeReply(reply, db, true) == Some((Properties(props, ws), |reply|)) <==> WantedFilled(props, ws)
  {
    hide StringStream.Next, Flat, FlatEntry, EntryFor, WantedFilled, EmptiesHaveDummy, DummiesButLast, DecodeData, At, FindNamed;
    hide Countable, Dec, NamesTell, DummiesOnEmpty, Overrun, ButLast, Properties;
    var es := EntriesFor(props, ws, true);
    var reply := PropertyReply(name, props, ws, true);
    EntriesAreProperties(props, ws, true);
    EntriesButLast(props, ws);
    DecodeWhole(reply, db, true);
    BodyAt([name, Dec(|ws|)], Flat(FlatEntry, es));
    SkippingReaderExact(reply, 2, Fresh.Next(reply[1], 0, UINT_MAX).1, es);
  }

  /** Where it fails: a property stored without values, asked for before another name. */
  lemma {:induction false} DeviceReplyWrong(name: string, props: seq<DbDatum>, w: string, w': string, db: seq<DbDatum>)
    requires Countable(props) && |db| == 2
    requires var k := FindNamed(DatumName, props, w); k != -1 && props[k].values == []
    requires w' != Dec(|ValuesOf(props, w')|)
    ensures !Gives(DecodeReply(PropertyReply(name, props, [w, w'], true), db, true), Properties(props, [w, w']))
  {
    hide FindNamed, Dec, DecodeReply, PropertyReply, Countable;
    var ws := [w, w'];
    DeviceReplyExact(name, props, ws, db);
    assert ButLast(ws)[0] == w;
    assert Properties(props, ws)[1] == DbDatum(w', ValuesOf(props, w'));
  }

  /** A dummy read as a number is 0. */
  lemma {:induction false} DummyReads(st: StringStream)
    requires st.Valid() && !st.fail
    ensures st.Next(" ", INT_MIN, INT_MAX).0 == 0
  {
    NoStaleTail(st, " ", INT_MIN, INT_MAX);
    var s := Fresh.SeekPut().SeekGet().Clear().Write(" ").Write(['\0']);
    assert s.buf == " \0" && s.get == 0;
    assert SkipSpaces(" \0", 0) == SkipSpaces(" \0", 1) == 1;
  }

  lemma {:induction false} CoincidenceReply(props: seq<DbDatum>, ws: seq<string>)
    requires props == [DbDatum("a", [])] && ws == ["a", "0"]
    ensures PropertyReply("d", props, ws, true) == ["d", Dec(2), "a", "0", "0", "0", " "]
    ensures Properties(props, ws) == [DbDatum("a", []), DbDatum("0", [])]
    ensures !WantedFilled(props, ButLast(ws))
  {
    assert Lower("0")[0] == '0' && Lower("a")[0] == 'a';
    assert FindNamed(DatumName, props, "a") == 0;
    assert FindNamed(DatumName, props, "0") == -1;
    assert ButLast(ws)[0] == "a";
    var es := EntriesFor(props, ws, true);
    var e0, e1 := Entry(DbDatum("a", []), false), Entry(DbDatum("0", []), true);
    assert es[0] == e0 && es[1] == e1;
    assert es == [e0] + [e1];
    FlatSnoc(FlatEntry, [e0], e1);
    FlatOne(FlatEntry, e0);
    assert Dec(0) == "0";
    assert FlatEntry(e0) == ["a", "0"] && FlatEntry(e1) == ["0", "0", " "];
  }

  /** Right data in spite of a wrong reading: the property "a" without values swallows the name "0", and
      the count of the absent property "0" takes its place. */
  lemma {:induction false} DeviceReplyCoincidence(db: seq<DbDatum>)
    requires |db| == 2
    ensures var props, ws := [DbDatum("a", [])], ["a", "0"];
            && !WantedFilled(props, ButLast(ws))
            && Gives(DecodeReply(PropertyReply("d", props, ws, true), db, true), Properties(props, ws))
  {
    hide StringStream.Next, PropertyReply, Properties, WantedFilled, Dec;
    var props, ws := [DbDatum("a", [])], ["a", "0"];
    var reply := PropertyReply("d", props, ws, true);
    CoincidenceReply(props, ws);
    DecodeWhole(reply, db, true);
    var st := Fresh.Next(reply[1], 0, UINT_MAX).1;
    ZeroReads(st);
    DummyReads(st.Next("0", INT_MIN, INT_MAX).1);
    var d := DecodeDatum(reply, 2, st, true).value;
    var e := DecodeDatum(reply, 5, d.stream, true).value;
    assert reply[4..4] == [] && reply[7..7] == [];
    assert d.end == 5 && d.data[0] == DbDatum("a", reply[4..4]);
    assert e.data[0] == DbDatum("0", reply[7..7]);
    DecodeCons(reply, 2, st, 2, d);
    DecodeCons(reply, 5, d.stream, 1, e);
    DecodeNone(reply, e.end, e.stream);
  }

  lemma {:induction false} ZeroReads(st: StringStream)
    requires st.Valid() && !st.fail
    ensures st.Next("0", INT_MIN, INT_MAX).0 == 0 && !st.Next("0", INT_MIN, INT_MAX).1.fail
  {
    assert DecInt(0) == "0";
    NextDec(st, 0, INT_MIN, INT_MAX);
  }

  /** Class properties: no dummy is written and none is skipped, so the client always gets them. */
  lemma {:induction false} ClassReplyExact(name: string, props: seq<DbDatum>, ws: seq<string>, db: seq<DbDatum>)
    requires Countable(props) && |db| == |ws| <= UINT_MAX
    ensures var reply := PropertyReply(name, props, ws, false);
            DecodeReply(reply, db, false) == Some((Properties(props, ws), |reply|))
  {
    hide StringStream.Next, Flat, FlatEntry, EntryFor, DecodeData, At, FindNamed, Countable, Dec, AllAligned;
    var es := EntriesFor(props, ws, false);
    var reply := PropertyReply(name, props, ws, false);
    EntriesAreProperties(props, ws, false);
    DecodeWhole(reply, db, false);
    BodyAt([name, Dec(|ws|)], Flat(FlatEntry, es));
    DecodeAligned(reply, 2, Fresh.Next(reply[1], 0, UINT_MAX).1, es, false);
  }

  // ----- attribute replies -----

  /** Every count of these attributes fits the type it is read into. */
  lemma {:induction false} OwnersForCountable(owners: seq<Owner>, ws: seq<string>, hi: int)
    requires AllCountable(owners, hi) && hi >= 0
    ensures AllCountable(OwnersFor(owners, ws), hi)
  {
    hide FindNamed;
    forall i | 0 <= i < |ws| ensures CountableOwner(OwnersFor(owners, ws)[i], hi) {
      assert OwnersFor(owners, ws)[i] == OwnerFor(owners, ws[i]);
    }
  }

  lemma {:induction false} NothingWanted(name: string, owners: seq<Owner>, db: seq<DbDatum>, lo: int, hi: int)
    requires lo <= 0 <= hi
    ensures OwnersFor(owners, []) == [] && AllPropsFilled(OwnersFor(owners, []))
    ensures Flat(OwnerData, OwnersFor(owners, [])) == [] && |AttributeReply(name, owners, [])| == 2
    ensures DecodeAttributeReply(AttributeReply(name, owners, []), db, lo, hi) == Some((db, 2))
  {
    hide StringStream.Next;
    FirstCount(0);
  }

  /** Attribute and pipe properties: the client gets the header and all the properties of each wanted
      attribute in order, a header with count 0 where there is none, when every property but the last of
      the reply has a value; and only then, unless a name is the count it stands before. The cursor ends at
      the reply's length if and only if that last one has a value as well. */
  lemma {:induction false} AttributeReplyExact(name: string, owners: seq<Owner>, ws: seq<string>, db: seq<DbDatum>, lo: int, hi: int)
    requires lo <= 0 <= hi && AllCountable(owners, hi) && |db| == |ws| <= UINT_MAX
    ensures var d, os := DecodeAttributeReply(AttributeReply(name, owners, ws), db, lo, hi), OwnersFor(owners, ws);
            && (FilledButEnd(os) ==> Gives(d, Flat(OwnerData, os)))
            && (OwnersTell(os) ==> (Gives(d, Flat(OwnerData, os)) <==> FilledButEnd(os)))
    ensures var reply := AttributeReply(name, owners, ws);
            DecodeAttributeReply(reply, db, lo, hi) == Some((Flat(OwnerData, OwnersFor(owners, ws)), |reply|))
            <==> AllPropsFilled(OwnersFor(owners, ws))
  {
    hide StringStream.Next, FlatOwner, OwnerFor, AllPropsFilled, AllCountable, DecodeAttributes, At, FindNamed, Dec;
    hide OwnersTell, FilledButEnd, Flat, OwnerData;
    var os := OwnersFor(owners, ws);
    var reply := AttributeReply(name, owners, ws);
    OwnersForCountable(owners, ws, hi);
    BodyAt([name, Dec(|ws|)], Flat(FlatOwner, os));
    if ws == [] {
      NothingWanted(name, owners, db, lo, hi);
      NothingFilled(os);
    } else {
      DecodeWholeAttributes(reply, db, |ws|, lo, hi);
      AttributeReaderExact(reply, 2, Fresh.Next(reply[1], 0, UINT_MAX).1, os, lo, hi);
    }
  }

  // ----- messages built by the put functions -----

  /** The message of `put_device_property`, `put_property` and `put_class_property`. */
  function PutMessage(name: string, db: seq<DbDatum>): seq<string> {
    [name, Dec(|db|)] + Flat(FlatDatum, db)
  }

  /** The message of the four attribute and pipe put functions. */
  function PutAttributeMessage(name: string, atts: seq<Owner>): seq<string> {
    [name, Dec(|atts|)] + Flat(FlatOwner, atts)
  }

  /** What `put_class_property` writes, the class reader gives back, lists without values included. */
  lemma {:induction false} PutThenClassGet(name: string, db: seq<DbDatum>, db': seq<DbDatum>)
    requires Countable(db) && |db| == |db'| <= UINT_MAX
    ensures DecodeReply(PutMessage(name, db), db', false) == Some((db, |PutMessage(name, db)|))
  {
    hide StringStream.Next, Flat, FlatEntry, DecodeData, At, Countable, Dec;
    var msg := PutMessage(name, db);
    FlatPlain(db);
    assert Data(Plain(db)) == db;
    DecodeWhole(msg, db', false);
    BodyAt([name, Dec(|db|)], Flat(FlatDatum, db));
    DecodeAligned(msg, 2, Fresh.Next(msg[1], 0, UINT_MAX).1, Plain(db), false);
  }

  /** The device reader gives it back when every property but the last has a value; and only then, unless
      a name is that of its own number of values. */
  lemma {:induction false} PutThenDeviceGet(name: string, db: seq<DbDatum>, db': seq<DbDatum>)
    requires Countable(db) && |db| == |db'| <= UINT_MAX
    ensures var d := DecodeReply(PutMessage(name, db), db', true);
            && (FilledButLast(db) ==> Gives(d, db))
            && (NamesTell(db) ==> (Gives(d, db) <==> FilledButLast(db)))
    ensures DecodeReply(PutMessage(name, db), db', true) == Some((db, |PutMessage(name, db)|)) <==> AllFilled(db)
  {
    hide StringStream.Next, Flat, FlatEntry, DecodeData, At, Countable, Dec, NamesTell, DummiesOnEmpty, Overrun, DummiesButLast, FilledButLast;
    hide EmptiesHaveDummy, AllFilled;
    var msg := PutMessage(name, db);
    var es := Plain(db);
    FlatPlain(db);
    PlainButLast(db);
    PlainFilled(db);
    DecodeWhole(msg, db', true);
    BodyAt([name, Dec(|db|)], Flat(FlatDatum, db));
    SkippingReaderExact(msg, 2, Fresh.Next(msg[1], 0, UINT_MAX).1, es);
  }

  lemma {:induction false} PlainFilled(db: seq<DbDatum>)
    ensures EmptiesHaveDummy(Plain(db)) <==> AllFilled(db)
  {
    var es := Plain(db);
    assert forall i | 0 <= i < |db| :: es[i] == Entry(db[i], false);
    if EmptiesHaveDummy(es) {
      forall i | 0 <= i < |db| ensures db[i].values != [] {
        assert !es[i].dummy;
      }
    }
  }

  /** Attribute properties: headers and properties come back unchanged when every property but the last has
      a value; and only then, unless a name is the count it stands before. */
  lemma {:induction false} PutThenAttributeGet(name: string, atts: seq<Owner>, db': seq<DbDatum>, lo: int, hi: int)
    requires lo <= 0 <= hi && AllCountable(atts, hi) && 0 < |atts| <= UINT_MAX
    ensures var d := DecodeAttributeReply(PutAttributeMessage(name, atts), db', lo, hi);
            && (FilledButEnd(atts) ==> Gives(d, Flat(OwnerData, atts)))
            && (OwnersTell(atts) ==> (Gives(d, Flat(OwnerData, atts)) <==> FilledButEnd(atts)))
    ensures var msg := PutAttributeMessage(name, atts);
            DecodeAttributeReply(msg, db', lo, hi) == Some((Flat(OwnerData, atts), |msg|)) <==> AllPropsFilled(atts)
  {
    hide StringStream.Next, FlatOwner, Flat, AllPropsFilled, AllCountable, DecodeAttributes, At, Dec, FilledButEnd, OwnersTell, OwnerData;
    var msg := PutAttributeMessage(name, atts);
    DecodeWholeAttributes(msg, db', |atts|, lo, hi);
    BodyAt([name, Dec(|atts|)], Flat(FlatOwner, atts));
    AttributeReaderExact(msg, 2, Fresh.Next(msg[1], 0, UINT_MAX).1, atts, lo, hi);
  }
}
