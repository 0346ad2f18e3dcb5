/** `Database`: the loops that decode replies and encode messages, and the calls that try the start-up
    cache first. */
module Database {
  import opened Text
  import opened Stream
  import opened Layout
  import opened Wire
  import opened ServerData
  import opened Replies
  import opened ServerCache
  import opened Cache

  // ----- decoding -----

  lemma {:induction false} PrependTwice(a: seq<DbDatum>, b: seq<DbDatum>, r: Option<Decoded>)
    ensures Prepend(a + b, r) == Prepend(a, Prepend(b, r))
  {
    if r.Some? {
      assert (a + b) + r.value.data == a + (b + r.value.data);
    }
  }

  lemma {:induction false} PrependNothing(r: Option<Decoded>)
    ensures Prepend([], r) == r
  {
    if r.Some? {
      assert [] + r.value.data == r.value.data;
    }
  }

  /** The inner loop: `nValues` strings copied from `index` on. None when the reply is too short. */
  method CopyValues(reply: seq<string>, index0: nat, nValues: nat) returns (values: Option<seq<string>>)
    ensures values == if index0 + nValues <= |reply| then Some(reply[index0..index0 + nValues]) else None
  {
    var index, copied := index0, [];
    for j := 0 to nValues
      invariant index == index0 + j && index <= index0 + nValues
      invariant j == 0 || index <= |reply|
      invariant index <= |reply| ==> copied == reply[index0..index]
      invariant j > 0 ==> index <= |reply|
    {
      if index >= |reply| {
        return None;
      }
      copied := copied + [reply[index]];
      index := index + 1;
    }
    values := if index0 + nValues <= |reply| then Some(copied) else None;
  }

  /** One datum: its name, its count read through the reused stream, its values, a dummy to skip. */
  method ReadDatum(reply: seq<string>, index0: nat, stream0: StringStream, skip: bool) returns (r: Option<Decoded>)
    requires stream0.Valid()
    ensures r == DecodeDatum(reply, index0, stream0, skip)
  {
    hide StringStream.Next;
    var index, stream := index0, stream0;
    if index + 1 >= |reply| {
      return None;
    }
    var name := reply[index];
    index := index + 1;
    var next := stream.Next(reply[index], INT_MIN, INT_MAX);
    var nValues := next.0;
    stream := next.1;
    index := index + 1;
    if nValues < 0 {
      return None;
    }
    var values := CopyValues(reply, index, nValues);
    if values.None? {
      return None;
    }
    index := index + nValues;
    if skip && nValues == 0 {
      index := index + 1;
    }
    r := Some(Decoded([DbDatum(name, values.value)], index, stream));
  }

  /** The loop over the data of a reply. */
  method ReadData(reply: seq<string>, index0: nat, stream0: StringStream, nProps: nat, skip: bool) returns (r: Option<Decoded>)
    requires stream0.Valid()
    ensures r == DecodeData(reply, index0, stream0, nProps, skip)
  {
    hide DecodeDatum, Prepend;
    ghost var whole := DecodeData(reply, index0, stream0, nProps, skip);
    var index, stream, dbData := index0, stream0, [];
    PrependNothing(whole);
    for i := 0 to nProps
      invariant stream.Valid()
      invariant whole == Prepend(dbData, DecodeData(reply, index, stream, nProps - i, skip))
    {
      var d := ReadDatum(reply, index, stream, skip);
      ghost var rest := nProps - i - 1;
      if d.None? {
        PrependNone(dbData);
        return None;
      }
      PrependTwice(dbData, d.value.data, DecodeData(reply, d.value.end, d.value.stream, rest, skip));
      index, stream, dbData := d.value.end, d.value.stream, dbData + d.value.data;
    }
    PrependEmpty(dbData, index, stream);
    r := Some(Decoded(dbData, index, stream));
  }

  lemma {:induction false} PrependNone(a: seq<DbDatum>)
    ensures Prepend(a, None) == None
  {
  }

  lemma {:induction false} PrependEmpty(a: seq<DbDatum>, end: nat, stream: StringStream)
    ensures Prepend(a, Some(Decoded([], end, stream))) == Some(Decoded(a, end, stream))
  {
    assert a + [] == a;
  }

  /** The tail of `get_device_property`, `get_property` (with `skip`) and `get_class_property` (without). */
  method DecodeProperties(reply: seq<string>, db: seq<DbDatum>, skip: bool) returns (r: Option<(seq<DbDatum>, nat)>)
    ensures r == DecodeReply(reply, db, skip)
  {
    hide StringStream.Next;
    if |reply| < 2 {
      return None;
    }
    var first := Fresh.Next(reply[1], 0, UINT_MAX);
    var nProps := first.0;
    if nProps > |db| {
      return None;
    }
    var d := ReadData(reply, 2, first.1, nProps, skip);
    if d.None? {
      return None;
    }
    r := Some((d.value.data + db[nProps..], d.value.end));
  }

  /** One attribute: the header datum, then its properties. */
  method ReadAttribute(reply: seq<string>, index0: nat, stream0: StringStream, lo: int, hi: int) returns (r: Option<Decoded>)
    requires stream0.Valid() && lo <= 0 <= hi
    ensures r.Some? ==> r.value.stream.Valid()
    ensures forall k: nat | k > 0 ::
      DecodeAttributes(reply, index0, stream0, k, lo, hi)
      == if r.None? then None else Prepend(r.value.data, DecodeAttributes(reply, r.value.end, r.value.stream, k - 1, lo, hi))
  {
    hide StringStream.Next, DecodeData, Prepend, DecInt;
    if index0 + 1 >= |reply| {
      return None;
    }
    var next := stream0.Next(reply[index0 + 1], lo, hi);
    var nProps := next.0;
    if nProps < 0 {
      return None;
    }
    var d := ReadData(reply, index0 + 2, next.1, nProps, true);
    if d.None? {
      return None;
    }
    r := Some(Decoded([DbDatum(reply[index0], [DecInt(nProps)])] + d.value.data, d.value.end, d.value.stream));
  }

  /** The tail of the four attribute and pipe get functions (server version 230 or more). Device functions
      read the number of properties into an unsigned short, class functions into a short. */
  method DecodeAttributeProperties(reply: seq<string>, db: seq<DbDatum>, lo: int, hi: int) returns (r: Option<(seq<DbDatum>, nat)>)
    requires lo <= 0 <= hi
    ensures r == DecodeAttributeReply(reply, db, lo, hi)
  {
    hide StringStream.Next, Prepend;
    if |reply| < 2 {
      return None;
    }
    var first := Fresh.Next(reply[1], 0, UINT_MAX);
    var nAttribs := first.0;
    var index, stream, dbData: seq<DbDatum> := 2, first.1, [];
    ghost var whole := DecodeAttributes(reply, 2, stream, nAttribs, lo, hi);
    PrependNothing(whole);
    for i := 0 to nAttribs
      invariant stream.Valid()
      invariant whole == Prepend(dbData, DecodeAttributes(reply, index, stream, nAttribs - i, lo, hi))
    {
      var d := ReadAttribute(reply, index, stream, lo, hi);
      ghost var rest := nAttribs - i;
      if d.None? {
        assert DecodeAttributes(reply, index, stream, rest, lo, hi) == None;
        PrependNone(dbData);
        return None;
      }
      PrependTwice(dbData, d.value.data, DecodeAttributes(reply, d.value.end, d.value.stream, rest - 1, lo, hi));
      index, stream, dbData := d.value.end, d.value.stream, dbData + d.value.data;
    }
    PrependEmpty(dbData, index, stream);
    r := Some((if nAttribs == 0 then db else dbData, index));
  }

  // ----- encoding -----

  /** The loop of `put_device_property`, `put_property` and `put_class_property`: every count goes through
      one stream that is rewound but never emptied. */
  method PutProperties(name: string, db: seq<DbDatum>) returns (msg: seq<string>)
    ensures msg == PutMessage(name, db)
  {
    hide StringStream.Put, Flat, Dec;
    PutDec(Fresh, |db|);
    var first := Fresh.Put(DecInt(|db|));
    var stream := first.1;
    msg := [name, first.0];
    FlatEmpty(FlatDatum);
    assert db[..0] == [];
    for i := 0 to |db|
      invariant stream.Valid() && !stream.fail
      invariant msg == [name, Dec(|db|)] + Flat(FlatDatum, db[..i])
    {
      var item;
      item, stream := PutDatum(db[i], stream);
      FlatSnoc(FlatDatum, db[..i], db[i]);
      assert db[..i + 1] == db[..i] + [db[i]];
      msg := msg + item;
      assert msg == [name, Dec(|db|)] + (Flat(FlatDatum, db[..i]) + item);
    }
    assert db[..|db|] == db;
  }

  method PutDatum(d: DbDatum, stream0: StringStream) returns (item: seq<string>, stream: StringStream)
    requires stream0.Valid() && !stream0.fail
    ensures item == FlatDatum(d) && stream.Valid() && !stream.fail
  {
    hide StringStream.Put, Dec;
    PutDec(stream0, |d.values|);
    var count := stream0.Put(DecInt(|d.values|));
    stream := count.1;
    item := [d.name, count.0];
    for j := 0 to |d.values|
      invariant item == [d.name, Dec(|d.values|)] + d.values[..j]
    {
      item := item + [d.values[j]];
    }
    assert d.values[..|d.values|] == d.values;
  }

  /** `db_data[i] >> n_props` into a short, from a datum that holds the text of a number. */
  method ExtractShort(d: DbDatum, ghost n: int) returns (v: int)
    requires d.values == [DecInt(n)] && SHORT_MIN <= n <= SHORT_MAX
    ensures v == n
  {
    assert Fresh.Write(DecInt(n)).buf == DecInt(n) + [];
    ReadDecInt(Fresh.Write(DecInt(n)).buf, n, []);
    v := Fresh.Write(d.values[0]).Read(SHORT_MIN, SHORT_MAX).0;
  }

  /** The loop of the four attribute and pipe put functions, over data laid out as header, properties,
      header, properties. */
  method PutAttributeProperties(name: string, db: seq<DbDatum>, ghost atts: seq<Owner>) returns (msg: seq<string>)
    requires db == Flat(OwnerData, atts) && AllCountable(atts, SHORT_MAX)
    ensures msg == PutAttributeMessage(name, atts)
  {
    hide StringStream.Put, Flat, Pos, At, Dec, FlatOwner, OwnerData, Countable;
    PosEnd(OwnerData, atts);
    WholeAt(db);
    FlatEmpty(FlatOwner);
    assert atts[..0] == [];
    var stream, nAttribs, i, body: seq<string> := Fresh, 0, 0, [];
    while i < |db|
      invariant stream.Valid() && !stream.fail && 0 <= nAttribs <= |atts|
      invariant i == Pos(OwnerData, atts, nAttribs)
      invariant body == Flat(FlatOwner, atts[..nAttribs])
      decreases |atts| - nAttribs
    {
      PosInside(OwnerData, atts, nAttribs);
      AtItem(db, 0, OwnerData, atts, nAttribs);
      var item, nProps;
      item, nProps, stream := PutAttribute(db, i, stream, atts[nAttribs]);
      FlatSnoc(FlatOwner, atts[..nAttribs], atts[nAttribs]);
      assert atts[..nAttribs + 1] == atts[..nAttribs] + [atts[nAttribs]];
      body := body + item;
      i := i + nProps + 1;
      nAttribs := nAttribs + 1;
    }
    AllConsumed(atts, nAttribs);
    assert atts[..nAttribs] == atts;
    PutDec(stream, nAttribs);
    var count := stream.Put(DecInt(nAttribs));
    msg := [name, count.0] + body;
  }

  lemma {:induction false} WholeAt(db: seq<DbDatum>)
    ensures At(db, 0, db)
  {
    assert db[0..|db|] == db;
  }

  lemma {:induction false} PosInside<T, U>(f: T -> seq<U>, xs: seq<T>, k: nat)
    requires k <= |xs| && Pos(f, xs, k) < |Flat(f, xs)|
    ensures k < |xs|
  {
    PosEnd(f, xs);
  }

  /** Every header takes room, so the loop stops behind the last attribute only. */
  lemma {:induction false} AllConsumed(atts: seq<Owner>, k: nat)
    requires k <= |atts| && Pos(OwnerData, atts, k) >= |Flat(OwnerData, atts)|
    ensures k == |atts|
  {
    if k < |atts| {
      FlatSplit(OwnerData, atts, k);
    }
  }

  lemma {:induction false} OwnerDataAt(db: seq<DbDatum>, i: nat, a: Owner)
    requires At(db, i, OwnerData(a))
    ensures |OwnerData(a)| == 1 + |a.props| && i + 1 + |a.props| <= |db|
    ensures db[i] == DbDatum(a.name, [DecInt(|a.props|)])
    ensures forall j | 0 <= j < |a.props| :: db[i + j + 1] == a.props[j]
    ensures DecInt(|a.props|) == Dec(|a.props|)
  {
    AtIndex(db, i, OwnerData(a));
    forall j | 0 <= j < |a.props| ensures db[i + j + 1] == a.props[j] {
      assert db[i + (j + 1)] == OwnerData(a)[j + 1];
    }
    assert db[i + 0] == OwnerData(a)[0];
  }

  /** One attribute: header and count, then each property. */
  method PutAttribute(db: seq<DbDatum>, i: nat, stream0: StringStream, ghost a: Owner)
      returns (item: seq<string>, nProps: nat, stream: StringStream)
    requires stream0.Valid() && !stream0.fail && At(db, i, OwnerData(a)) && |a.props| <= SHORT_MAX
    ensures item == FlatOwner(a) && nProps + 1 == |OwnerData(a)| && stream.Valid() && !stream.fail
  {
    hide StringStream.Put, StringStream.Write, StringStream.Read, Flat, FlatDatum, At, Dec, DecInt, OwnerData;
    OwnerDataAt(db, i, a);
    nProps := ExtractShort(db[i], |a.props|);
    PutDec(stream0, nProps);
    var count := stream0.Put(DecInt(nProps));
    stream := count.1;
    item := [db[i].name, count.0];
    FlatEmpty(FlatDatum);
    assert a.props[..0] == [];
    for j := 0 to nProps
      invariant stream.Valid() && !stream.fail
      invariant item == [a.name, Dec(|a.props|)] + Flat(FlatDatum, a.props[..j])
    {
      var more;
      more, stream := PutDatum(db[i + j + 1], stream);
      FlatSnoc(FlatDatum, a.props[..j], a.props[j]);
      assert a.props[..j + 1] == a.props[..j] + [a.props[j]];
      item := item + more;
      assert item == [a.name, Dec(|a.props|)] + (Flat(FlatDatum, a.props[..j]) + more);
    }
    assert a.props[..nProps] == a.props;
  }

  // ----- the calls that try the cache first -----

  /** What a get call does with a cache: decode the cached reply, ask the database server when the cache
      does not know the name, let another error through, or go outside the reply or the caller's data. */
  datatype Fetched = FromCache(data: seq<DbDatum>) | AskServer | OutOfBounds

  function Names(db: seq<DbDatum>): (ws: seq<string>)
    ensures |ws| == |db|
    ensures forall i | 0 <= i < |db| :: ws[i] == db[i].name
  {
    seq(|db|, i requires 0 <= i < |db| => db[i].name)
  }

  function DevicePropsOf(sd: ServerData, dev: string): Option<seq<DbDatum>> {
    if IsAdminDevice(dev) then Some(sd.adminDevice.props)
    else
      match FindDevice(sd.classes, dev, 0)
      case None => None
      case Some((c, k)) => Some(sd.classes[c].devs[k].props.props)
  }

  function ClassPropsOf(sd: ServerData, name: string): Option<seq<DbDatum>> {
    if SameName(name, "DServer") then Some(sd.dserver.props)
    else if SameName(name, "Default") then Some(sd.default.props)
    else
      var c := FindNamed(ClassName, sd.classes, name);
      if c == -1 then None else Some(sd.classes[c].props.props)
  }

  function ObjectPropsOf(sd: ServerData, name: string): Option<seq<DbDatum>> {
    if SameName(sd.control.name, name) then Some(sd.control.props) else None
  }

  /** Every value list of the database fits an `int`, every property list a `short`. */
  predicate Sized(props: Option<seq<DbDatum>>) {
    props.Some? ==> Countable(props.value)
  }

  method ParamList(name: string, db: seq<DbDatum>) returns (inParam: seq<string>)
    ensures inParam == [name] + Names(db)
  {
    inParam := [name];
    for i := 0 to |db|
      invariant inParam == [name] + Names(db)[..i]
    {
      inParam := inParam + [db[i].name];
    }
    assert Names(db)[..|db|] == Names(db);
  }

  /** A decoded reply as the client gets it. */
  function Shown(d: Option<(seq<DbDatum>, nat)>): Fetched {
    if d.None? then OutOfBounds else FromCache(d.value.0)
  }

  /** The client gets exactly the wanted properties when none but the last is stored without a value; and
      only then, unless a name is that of its own number of values. */
  predicate PropertiesExact(r: Fetched, props: seq<DbDatum>, ws: seq<string>) {
    var right := r == FromCache(Properties(props, ws));
    && (WantedFilled(props, ButLast(ws)) ==> right)
    && (NamesTell(Properties(props, ws)) ==> (right <==> WantedFilled(props, ButLast(ws))))
  }

  /** The same for attributes or pipes. */
  predicate AttributesExact(r: Fetched, owners: seq<Owner>, ws: seq<string>) {
    var right := r == FromCache(AttributesData(owners, ws));
    && (FilledButEnd(OwnersFor(owners, ws)) ==> right)
    && (OwnersTell(OwnersFor(owners, ws)) ==> (right <==> FilledButEnd(OwnersFor(owners, ws))))
  }

  /** What `GetDeviceProperty` answers: the server is asked exactly for devices the cache does not have. */
  predicate FetchedProperty(sd: ServerData, dev: string, db: seq<DbDatum>, r: Fetched) {
    var props := DevicePropsOf(sd, dev);
    && (props.None? <==> r == AskServer)
    && (props.Some? ==> PropertiesExact(r, props.value, Names(db)))
  }

  /** A device property read through the cache is the one a direct look-up gives. */
  method GetDeviceProperty(cache: DbServerCache, dev: string, db: seq<DbDatum>) returns (r: Fetched)
    requires cache.Valid() && |db| <= UINT_MAX && Sized(DevicePropsOf(cache.server, dev))
    modifies cache`retObjProp
    ensures FetchedProperty(cache.server, dev, db, r)
    ensures var props := DevicePropsOf(cache.server, dev);
            props.Some? ==> r == Shown(DecodeReply(PropertyReply(dev, props.value, Names(db), true), db, true))
  {
    hide Indexed, ServerData.Valid, ServerData.Flatten, IsAdminDevice, FindDevice, DecodeReply, PropertyReply, WantedFilled, NamesTell, ButLast, Properties, Countable;
    var inParam := ParamList(dev, db);
    assert inParam[0] == dev && inParam[1..] == Names(db);
    var reply := cache.GetDevProperty(inParam);
    if reply == Err(DeviceNotFoundInCache) {
      return AskServer;
    }
    ghost var props := DevicePropsOf(cache.server, dev).value;
    DeviceReplyExact(dev, props, Names(db), db);
    var d := DecodeProperties(reply.value, db, true);
    r := Shown(d);
  }

  /** The same for an object property (the control system services). */
  method GetProperty(cache: DbServerCache, obj: string, db: seq<DbDatum>) returns (r: Fetched)
    requires cache.Valid() && |db| <= UINT_MAX && Sized(ObjectPropsOf(cache.server, obj))
    modifies cache`retObjProp
    ensures var props := ObjectPropsOf(cache.server, obj);
            && (props.None? <==> r == AskServer)
            && (props.Some? ==> PropertiesExact(r, props.value, Names(db)))
    ensures var props := ObjectPropsOf(cache.server, obj);
            props.Some? ==> r == Shown(DecodeReply(PropertyReply(obj, props.value, Names(db), true), db, true))
  {
    hide Indexed, ServerData.Valid, ServerData.Flatten, SameName, DecodeReply, PropertyReply, WantedFilled, NamesTell, ButLast, Properties, Countable;
    var inParam := ParamList(obj, db);
    assert inParam[0] == obj && inParam[1..] == Names(db);
    var reply := cache.GetObjProperty(inParam);
    if reply == Err(DeviceNotFoundInCache) {
      return AskServer;
    }
    DeviceReplyExact(obj, cache.server.control.props, Names(db), db);
    var d := DecodeProperties(reply.value, db, true);
    r := Shown(d);
  }

  /** A class property read through the cache is the one a direct look-up gives, values or not. */
  method GetClassProperty(cache: DbServerCache, name: string, db: seq<DbDatum>) returns (r: Fetched)
    requires cache.Valid() && |db| <= UINT_MAX && Sized(ClassPropsOf(cache.server, name))
    modifies cache`retObjProp
    ensures r == match ClassPropsOf(cache.server, name)
                 case None => AskServer
                 case Some(props) => FromCache(Properties(props, Names(db)))
  {
    hide Indexed, ServerData.Valid, ServerData.Flatten, SameName, FindNamed, DecodeReply, PropertyReply, Countable;
    var inParam := ParamList(name, db);
    assert inParam[0] == name && inParam[1..] == Names(db);
    var reply := cache.GetClassProperty(inParam);
    if reply == Err(ClassNotFoundInCache) {
      return AskServer;
    }
    ghost var props := ClassPropsOf(cache.server, name).value;
    ClassReplyExact(name, props, Names(db), db);
    ClassReplyExact("DServer", props, Names(db), db);
    ClassReplyExact("Default", props, Names(db), db);
    var d := DecodeProperties(reply.value, db, false);
    r := Shown(d);
  }

  /** The attributes of a device; None for a device the server does not have. */
  function DeviceAttsOf(sd: ServerData, dev: string): Option<seq<Owner>> {
    match FindDevice(sd.classes, dev, 0)
    case None => None
    case Some((c, k)) => Some(sd.classes[c].devs[k].atts.owners)
  }

  function ClassAttsOf(sd: ServerData, name: string): Option<seq<Owner>> {
    var c := FindNamed(ClassName, sd.classes, name);
    if c == -1 then None else Some(sd.classes[c].atts.owners)
  }

  function DevicePipesOf(sd: ServerData, dev: string): Option<seq<Owner>> {
    match FindDevice(sd.classes, dev, 0)
    case None => None
    case Some((c, k)) => Some(PipeOwners(sd.classes[c].devs[k].pipes))
  }

  predicate SizedOwners(owners: Option<seq<Owner>>, hi: int) {
    owners.Some? ==> AllCountable(owners.value, hi)
  }

  /** What the client gets for the attributes it asked for. */
  function AttributesData(owners: seq<Owner>, ws: seq<string>): seq<DbDatum> {
    Flat(OwnerData, OwnersFor(owners, ws))
  }

  /** Decoding a reply of the cache for the attributes `owners`, or for a device it lists no attribute of. */
  method DecodeCached(reply: seq<string>, name: string, db: seq<DbDatum>, lo: int, hi: int, ghost owners: Option<seq<Owner>>) returns (r: Fetched)
    requires lo <= 0 <= hi && |db| <= UINT_MAX && SizedOwners(owners, hi)
    requires reply == if owners.None? then [name, "0"] else AttributeReply(name, owners.value, Names(db))
    ensures owners.None? ==> r == FromCache(db)
    ensures owners.Some? ==> AttributesExact(r, owners.value, Names(db))
    ensures r == Shown(DecodeAttributeReply(reply, db, lo, hi))
  {
    hide AttributeReply, AllCountable, FilledButEnd, OwnersTell, DecodeAttributeReply, OwnersFor, Flat;
    if owners.None? {
      EmptyReply(name, db, lo, hi);
    } else {
      AttributeReplyExact(name, owners.value, Names(db), db, lo, hi);
    }
    var d := DecodeAttributeProperties(reply, db, lo, hi);
    r := Shown(d);
  }

  /** Device attribute properties read through the cache are those a direct look-up gives. The admin
      device, which the cache does not list, gets its own list back unchanged. */
  method GetDeviceAttributeProperty(cache: DbServerCache, dev: string, db: seq<DbDatum>) returns (r: Fetched)
    requires cache.Valid() && |db| <= UINT_MAX && SizedOwners(DeviceAttsOf(cache.server, dev), USHORT_MAX)
    modifies cache`retObjAttProp
    ensures var atts := DeviceAttsOf(cache.server, dev);
            && (atts.None? && !IsAdminDevice(dev) <==> r == AskServer)
            && (atts.None? && IsAdminDevice(dev) ==> r == FromCache(db))
            && (atts.Some? ==> AttributesExact(r, atts.value, Names(db)))
    ensures var atts := DeviceAttsOf(cache.server, dev);
            atts.Some? ==> r == Shown(DecodeAttributeReply(AttributeReply(dev, atts.value, Names(db)), db, 0, USHORT_MAX))
  {
    hide Indexed, ServerData.Valid, ServerData.Flatten, IsAdminDevice, FindDevice, AttributeReply, AllCountable, AttributesExact;
    hide DecodeAttributeReply, AttributesData;
    var inParam := ParamList(dev, db);
    assert inParam[0] == dev && inParam[1..] == Names(db);
    var reply := cache.GetDevAttProperty(inParam);
    if reply == Err(DeviceNotFoundInCache) {
      return AskServer;
    }
    r := DecodeCached(reply.value, dev, db, 0, USHORT_MAX, DeviceAttsOf(cache.server, dev));
  }

  lemma {:induction false} EmptyReply(name: string, db: seq<DbDatum>, lo: int, hi: int)
    requires lo <= 0 <= hi
    ensures DecodeAttributeReply([name, "0"], db, lo, hi) == Some((db, 2))
  {
    NothingWanted(name, [], db, lo, hi);
    FlatEmpty(FlatOwner);
    assert Dec(0) == "0" && AttributeReply(name, [], []) == [name, "0"];
  }

  /** Class attribute properties read through the cache are those a direct look-up gives. */
  method GetClassAttributeProperty(cache: DbServerCache, name: string, db: seq<DbDatum>) returns (r: Fetched)
    requires cache.Valid() && |db| <= UINT_MAX && SizedOwners(ClassAttsOf(cache.server, name), SHORT_MAX)
    modifies cache`retObjAttProp
    ensures var atts := ClassAttsOf(cache.server, name);
            && (atts.None? <==> r == AskServer)
            && (atts.Some? ==> AttributesExact(r, atts.value, Names(db)))
    ensures var atts := ClassAttsOf(cache.server, name);
            atts.Some? ==> r == Shown(DecodeAttributeReply(AttributeReply(name, atts.value, Names(db)), db, SHORT_MIN, SHORT_MAX))
  {
    hide Indexed, ServerData.Valid, ServerData.Flatten, FindNamed, AttributeReply, AllCountable, AttributesExact;
    hide DecodeAttributeReply, AttributesData;
    var inParam := ParamList(name, db);
    assert inParam[0] == name && inParam[1..] == Names(db);
    var reply := cache.GetClassAttProperty(inParam);
    if reply == Err(ClassNotFoundInCache) {
      return AskServer;
    }
    r := DecodeCached(reply.value, name, db, SHORT_MIN, SHORT_MAX, ClassAttsOf(cache.server, name));
  }

  /** Device pipe properties; the server is asked as well when the stored procedures are older than 1.9. */
  method GetDevicePipeProperty(cache: DbServerCache, dev: string, db: seq<DbDatum>) returns (r: Fetched)
    requires cache.Valid() && |db| <= UINT_MAX && SizedOwners(DevicePipesOf(cache.server, dev), USHORT_MAX)
    modifies cache`retObjPipeProp
    ensures var pipes := DevicePipesOf(cache.server, dev);
            && (r == AskServer <==> !cache.server.HasPipes() || (pipes.None? && !IsAdminDevice(dev)))
            && (cache.server.HasPipes() && pipes.None? && IsAdminDevice(dev) ==> r == FromCache(db))
            && (cache.server.HasPipes() && pipes.Some? ==> AttributesExact(r, pipes.value, Names(db)))
    ensures var pipes := DevicePipesOf(cache.server, dev);
            cache.server.HasPipes() && pipes.Some?
            ==> r == Shown(DecodeAttributeReply(AttributeReply(dev, pipes.value, Names(db)), db, 0, USHORT_MAX))
  {
    hide Indexed, ServerData.Valid, ServerData.Flatten, ServerData.HasPipes, IsAdminDevice, FindDevice, AttributeReply, AllCountable;
    hide AttributesExact, DecodeAttributeReply, AttributesData;
    var inParam := ParamList(dev, db);
    assert inParam[0] == dev && inParam[1..] == Names(db);
    var reply := cache.GetDevPipeProperty(inParam);
    if reply == Err(DeviceNotFoundInCache) || reply == Err(TooOldStoredProc) {
      return AskServer;
    }
    r := DecodeCached(reply.value, dev, db, 0, USHORT_MAX, DevicePipesOf(cache.server, dev));
  }

  function ClassPipesOf(sd: ServerData, name: string): Option<seq<Owner>> {
    var c := FindNamed(ClassName, sd.classes, name);
    if c == -1 then None else Some(PipeOwners(sd.classes[c].pipes))
  }

  /** Class pipe properties. */
  method GetClassPipeProperty(cache: DbServerCache, name: string, db: seq<DbDatum>) returns (r: Fetched)
    requires cache.Valid() && |db| <= UINT_MAX && SizedOwners(ClassPipesOf(cache.server, name), SHORT_MAX)
    modifies cache`retObjPipeProp
    ensures var pipes := ClassPipesOf(cache.server, name);
            && (r == AskServer <==> !cache.server.HasPipes() || pipes.None?)
            && (cache.server.HasPipes() && pipes.Some? ==> AttributesExact(r, pipes.value, Names(db)))
    ensures var pipes := ClassPipesOf(cache.server, name);
            cache.server.HasPipes() && pipes.Some?
            ==> r == Shown(DecodeAttributeReply(AttributeReply(name, pipes.value, Names(db)), db, SHORT_MIN, SHORT_MAX))
  {
    hide Indexed, ServerData.Valid, ServerData.Flatten, ServerData.HasPipes, FindNamed, AttributeReply, AllCountable;
    hide AttributesExact, DecodeAttributeReply, AttributesData;
    var inParam := ParamList(name, db);
    assert inParam[0] == name && inParam[1..] == Names(db);
    var reply := cache.GetClassPipeProperty(inParam);
    if reply == Err(ClassNotFoundInCache) || reply == Err(TooOldStoredProc) {
      return AskServer;
    }
    r := DecodeCached(reply.value, name, db, SHORT_MIN, SHORT_MAX, ClassPipesOf(cache.server, name));
  }
}
