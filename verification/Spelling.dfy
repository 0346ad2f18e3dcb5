/** What ignoring case means for looking up devices and their properties. */
module Spelling {
  import opened Text
  import opened Letters
  import opened Layout
  import opened Stream
  import opened Wire
  import opened ServerData
  import opened Replies
  import opened Database

  /** `TG_strncasecmp(name, "dserver/", 8) == 0`, letter by letter. */
  lemma {:induction false} AdminDeviceExact(name: string)
    ensures IsAdminDevice(name) <==> |name| >= 8 && SpeltAlike(name[..8], "dserver/")
  {
    hide SpeltAlike;
    if |name| >= 8 {
      SameNameExact(name[..8], "dserver/");
      assert Lower("dserver/") == "dserver/";
    }
  }

  /** A look-up finds the first element spelt as asked, up to case, if there is one. */
  lemma {:induction false} FoundSpelt<T>(nameOf: T -> string, xs: seq<T>, w: string)
    ensures var r := FindNamed(nameOf, xs, w);
            && (r == -1 <==> forall k | 0 <= k < |xs| :: !SpeltAlike(nameOf(xs[k]), w))
            && (r != -1 ==> SpeltAlike(nameOf(xs[r]), w) && forall k | 0 <= k < r :: !SpeltAlike(nameOf(xs[k]), w))
  {
    hide FindNamed, SpeltAlike, SameName;
    FirstNamed(nameOf, xs, w);
    forall k | 0 <= k < |xs| ensures SameName(nameOf(xs[k]), w) <==> SpeltAlike(nameOf(xs[k]), w) {
      SameNameExact(nameOf(xs[k]), w);
    }
  }

  // ----- what is looked up -----

  /** `k` is the first element spelt as asked. */
  ghost predicate FirstSpelt<T>(nameOf: T -> string, xs: seq<T>, w: string, k: int) {
    0 <= k < |xs| && SpeltAlike(nameOf(xs[k]), w) && forall j | 0 <= j < k :: !SpeltAlike(nameOf(xs[j]), w)
  }

  ghost predicate NoneSpelt<T>(nameOf: T -> string, xs: seq<T>, w: string) {
    forall j | 0 <= j < |xs| :: !SpeltAlike(nameOf(xs[j]), w)
  }

  lemma {:induction false} FirstSpeltFound<T>(nameOf: T -> string, xs: seq<T>, w: string)
    ensures forall k :: FirstSpelt(nameOf, xs, w, k) <==> k != -1 && k == FindNamed(nameOf, xs, w)
    ensures NoneSpelt(nameOf, xs, w) <==> FindNamed(nameOf, xs, w) == -1
  {
    hide SpeltAlike, FindNamed;
    FoundSpelt(nameOf, xs, w);
  }

  /** What a client is to get: each name as asked, with the values of the first property spelt alike. */
  lemma {:induction false} PropertiesSpelt(props: seq<DbDatum>, ws: seq<string>, i: nat, k: int)
    requires i < |ws|
    ensures var d := Properties(props, ws)[i];
            && d.name == ws[i]
            && (FirstSpelt(DatumName, props, ws[i], k) ==> d.values == props[k].values)
            && (NoneSpelt(DatumName, props, ws[i]) ==> d.values == [])
  {
    hide SpeltAlike, FindNamed, FirstSpelt, NoneSpelt;
    FirstSpeltFound(DatumName, props, ws[i]);
  }

  /** The same for attributes and pipes. */
  lemma {:induction false} OwnersSpelt(owners: seq<Owner>, ws: seq<string>, i: nat, k: int)
    requires i < |ws|
    ensures var o := OwnersFor(owners, ws)[i];
            && (FirstSpelt(OwnerName, owners, ws[i], k) ==> 0 <= k < |owners| && o == owners[k])
            && (NoneSpelt(OwnerName, owners, ws[i]) ==> o == Owner(ws[i], []))
  {
    hide SpeltAlike, FindNamed, FirstSpelt, NoneSpelt;
    FirstSpeltFound(OwnerName, owners, ws[i]);
  }

  /** Where a device is: in the first class that has one spelt alike, the first of these. */
  ghost predicate DeviceSpelt(classes: seq<ServerClass>, dev: string, c: int, k: int) {
    && 0 <= c < |classes| && FirstSpelt(NameOfDevice, classes[c].devs, dev, k)
    && forall d | 0 <= d < c :: NoneSpelt(NameOfDevice, classes[d].devs, dev)
  }

  lemma {:induction false} DeviceFoundSpelt(classes: seq<ServerClass>, dev: string, c: int, k: int)
    ensures DeviceSpelt(classes, dev, c, k) <==> FindDevice(classes, dev, 0) == Some((c, k))
    ensures FindDevice(classes, dev, 0) == None <==> forall d | 0 <= d < |classes| :: NoneSpelt(NameOfDevice, classes[d].devs, dev)
  {
    hide SpeltAlike, FindNamed, FirstSpelt, NoneSpelt;
    forall d | 0 <= d < |classes|
      ensures NoneSpelt(NameOfDevice, classes[d].devs, dev) <==> FindNamed(NameOfDevice, classes[d].devs, dev) == -1
    {
      FirstSpeltFound(NameOfDevice, classes[d].devs, dev);
    }
    if 0 <= c < |classes| {
      FirstSpeltFound(NameOfDevice, classes[c].devs, dev);
    }
    var r := FindDevice(classes, dev, 0);
    if r.Some? {
      FirstSpeltFound(NameOfDevice, classes[r.value.0].devs, dev);
    }
  }

  /** Whose properties a device query is about: the admin device for names that begin with "dserver/". */
  lemma {:induction false} DevicePropsExact(sd: ServerData, dev: string, c: int, k: int)
    ensures var admin := |dev| >= 8 && SpeltAlike(dev[..8], "dserver/"); var r := DevicePropsOf(sd, dev);
            && (admin ==> r == Some(sd.adminDevice.props))
            && (!admin && DeviceSpelt(sd.classes, dev, c, k)
                ==> 0 <= c < |sd.classes| && 0 <= k < |sd.classes[c].devs| && r == Some(sd.classes[c].devs[k].props.props))
            && (r == None <==> !admin && forall d | 0 <= d < |sd.classes| :: NoneSpelt(NameOfDevice, sd.classes[d].devs, dev))
  {
    hide SpeltAlike, FindNamed, FirstSpelt, NoneSpelt, FindDevice, IsAdminDevice;
    AdminDeviceExact(dev);
    DeviceFoundSpelt(sd.classes, dev, c, k);
  }

  /** Whose properties a class query is about: the two reserved names first. */
  lemma {:induction false} ClassPropsExact(sd: ServerData, name: string, c: int)
    ensures var r := ClassPropsOf(sd, name);
            if SpeltAlike(name, "DServer") then r == Some(sd.dserver.props)
            else if SpeltAlike(name, "Default") then r == Some(sd.default.props)
            else (FirstSpelt(ClassName, sd.classes, name, c) ==> 0 <= c < |sd.classes| && r == Some(sd.classes[c].props.props))
                 && (r == None <==> NoneSpelt(ClassName, sd.classes, name))
  {
    hide SpeltAlike, FindNamed, FirstSpelt, NoneSpelt, SameName;
    SameNameExact(name, "DServer");
    SameNameExact(name, "Default");
    FirstSpeltFound(ClassName, sd.classes, name);
  }

  /** Object queries know one object, the control system. */
  lemma {:induction false} ObjectPropsExact(sd: ServerData, name: string)
    ensures ObjectPropsOf(sd, name) == if SpeltAlike(name, sd.control.name) then Some(sd.control.props) else None
  {
    hide SpeltAlike, SameName;
    SameNameExact(name, sd.control.name);
    SameNameExact(sd.control.name, name);
    SameBack(name, sd.control.name);
  }

  lemma {:induction false} SameBack(a: string, b: string)
    ensures SameName(a, b) == SameName(b, a)
  {
  }

  // ----- two spellings of one name -----

  lemma {:induction false} FoundAlike<T>(nameOf: T -> string, xs: seq<T>, w: string, w': string)
    requires SpeltAlike(w, w')
    ensures FindNamed(nameOf, xs, w) == FindNamed(nameOf, xs, w')
    decreases |xs|
  {
    hide SpeltAlike;
    SameNameExact(w, w');
    if xs != [] {
      FoundAlike(nameOf, xs[1..], w, w');
    }
  }

  lemma {:induction false} DeviceAlike(classes: seq<ServerClass>, dev: string, dev': string, from: nat)
    requires SpeltAlike(dev, dev') && from <= |classes|
    ensures FindDevice(classes, dev, from) == FindDevice(classes, dev', from)
    decreases |classes| - from
  {
    hide SpeltAlike, FindNamed;
    if from < |classes| {
      FoundAlike(NameOfDevice, classes[from].devs, dev, dev');
      DeviceAlike(classes, dev, dev', from + 1);
    }
  }

  lemma {:induction false} AdminAlike(dev: string, dev': string)
    requires SpeltAlike(dev, dev')
    ensures IsAdminDevice(dev) == IsAdminDevice(dev')
  {
    hide SpeltAlike;
    SameNameExact(dev, dev');
    if |dev| >= 8 && |dev'| >= 8 {
      assert Lower(dev[..8]) == Lower(dev)[..8];
      assert Lower(dev'[..8]) == Lower(dev')[..8];
    }
    assert |Lower(dev)| == |Lower(dev')|;
  }

  predicate AllAlike(ws: seq<string>, ws': seq<string>) {
    |ws| == |ws'| && forall i | 0 <= i < |ws| :: SpeltAlike(ws[i], ws'[i])
  }

  lemma {:induction false} WantedAlike(props: seq<DbDatum>, ws: seq<string>, ws': seq<string>)
    requires AllAlike(ws, ws')
    ensures WantedFilled(props, ws) == WantedFilled(props, ws')
    ensures WantedFilled(props, ButLast(ws)) == WantedFilled(props, ButLast(ws'))
    ensures forall i | 0 <= i < |ws| :: Properties(props, ws)[i].values == Properties(props, ws')[i].values
  {
    hide SpeltAlike, FindNamed;
    forall i | 0 <= i < |ws| ensures FindNamed(DatumName, props, ws[i]) == FindNamed(DatumName, props, ws'[i]) {
      FoundAlike(DatumName, props, ws[i], ws'[i]);
    }
    var init, init' := ButLast(ws), ButLast(ws');
    assert forall i | 0 <= i < |init| :: init[i] == ws[i] && init'[i] == ws'[i];
  }

  /** The same values, whatever the names. */
  predicate SameValues(r: Fetched, r': Fetched) {
    if r.FromCache? && r'.FromCache? then
      |r.data| == |r'.data| && forall i | 0 <= i < |r.data| :: r.data[i].values == r'.data[i].values
    else r == r'
  }

  /** No wanted property but the last is stored without a value. */
  predicate FilledFor(sd: ServerData, dev: string, db: seq<DbDatum>) {
    var props := DevicePropsOf(sd, dev);
    props.Some? ==> WantedFilled(props.value, ButLast(Names(db)))
  }

  /** Two calls of `GetDeviceProperty` with device and properties in two spellings give the same values:
      both ask the server, or both are answered from the cache alike. */
  lemma {:induction false} SpellingsAgree(sd: ServerData, dev: string, dev': string, db: seq<DbDatum>, db': seq<DbDatum>, r: Fetched, r': Fetched)
    requires SpeltAlike(dev, dev') && AllAlike(Names(db), Names(db'))
    ensures FetchedProperty(sd, dev, db, r) && FetchedProperty(sd, dev', db', r') && FilledFor(sd, dev, db)
            ==> SameValues(r, r') && (r.AskServer? || (r.FromCache? && r'.FromCache?))
  {
    hide SpeltAlike, WantedFilled, ButLast, IsAdminDevice, FindDevice, Properties, NamesTell;
    DeviceAlike(sd.classes, dev, dev', 0);
    AdminAlike(dev, dev');
    var props := DevicePropsOf(sd, dev);
    if props.Some? {
      WantedAlike(props.value, Names(db), Names(db'));
    }
  }

  // ----- device lists and releases -----

  /** The devices of the first class spelt as asked, name by name in stored order; none for an unknown class. */
  lemma {:induction false} DeviceListExact(sd: ServerData, className: string)
    ensures var r, c := DeviceListAnswer(sd, className), FindNamed(ClassName, sd.classes, className);
            if c == -1 then r == [] && forall k | 0 <= k < |sd.classes| :: !SpeltAlike(sd.classes[k].props.name, className)
            else SpeltAlike(sd.classes[c].props.name, className)
                 && |r| == |sd.classes[c].devs| && forall k | 0 <= k < |r| :: r[k] == sd.classes[c].devs[k].name
  {
    hide SpeltAlike, FindNamed, Flat;
    FoundSpelt(ClassName, sd.classes, className);
    var c := FindNamed(ClassName, sd.classes, className);
    if c == -1 {
      forall k | 0 <= k < |sd.classes| ensures !SpeltAlike(sd.classes[k].props.name, className) {
        assert ClassName(sd.classes[k]) == sd.classes[k].props.name;
      }
    } else {
      NamesOf(sd.classes[c].devs);
    }
  }

  lemma {:induction false} NamesOf(ds: seq<Device>)
    ensures |Flat(DeviceName, ds)| == |ds|
    ensures forall k | 0 <= k < |ds| :: Flat(DeviceName, ds)[k] == ds[k].name
    decreases |ds|
  {
    if ds != [] {
      NamesOf(ds[1..]);
      assert forall k | 1 <= k < |ds| :: ds[k] == ds[1..][k - 1];
    }
  }

  /** Pipes are sent from release 1.9 on. */
  lemma {:induction false} PipesExact(sd: ServerData)
    requires sd.release.Release? && sd.release.minor < 100
    ensures sd.HasPipes() <==> sd.release.major > 1 || (sd.release.major == 1 && sd.release.minor >= 9)
  {
  }
}
