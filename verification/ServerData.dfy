/** Everything the database knows about one device server process, in structured form, the flat list of
    strings it is sent as, and the direct look-ups the start-up cache stands in for. */
module ServerData {
  import opened Text
  import opened Layout
  import opened Wire

  /** The attributes (or pipes) of a class or a device, each with its properties. */
  datatype OwnerBlock = OwnerBlock(name: string, owners: seq<Owner>)

  datatype Device = Device(name: string, props: Owner, atts: OwnerBlock, pipes: Option<OwnerBlock>)

  datatype ServerClass = ServerClass(props: Owner, atts: OwnerBlock, pipes: Option<OwnerBlock>,
                                     listName: string, devs: seq<Device>)

  /** Import data of an event channel. */
  datatype EventBlock = Missing(name: string) | Present(items: seq<string>)

  /** Import data of the access control device. */
  datatype TacBlock = NoTac | MissingTac(name: string) | PresentTac(items: seq<string>)

  const NOT_FOUND := "Not Found"

  function FlatBlock(b: OwnerBlock): seq<string> {
    [b.name, Dec(|b.owners|)] + Flat(FlatOwner, b.owners)
  }

  function FlatPipes(b: Option<OwnerBlock>): seq<string> {
    if b.Some? then FlatBlock(b.value) else []
  }

  function FlatDevice(d: Device): seq<string> {
    FlatOwner(d.props) + FlatBlock(d.atts) + FlatPipes(d.pipes)
  }

  function DeviceName(d: Device): seq<string> {
    [d.name]
  }

  function FlatDeviceList(c: ServerClass): seq<string> {
    [c.listName, Dec(|c.devs|)] + Flat(DeviceName, c.devs)
  }

  /** The parts of a class in the order in which they are sent. */
  function ClassParts(c: ServerClass): seq<seq<string>> {
    [FlatOwner(c.props), FlatBlock(c.atts), FlatPipes(c.pipes), FlatDeviceList(c), Flat(FlatDevice, c.devs)]
  }

  function FlatClass(c: ServerClass): seq<string> {
    Flat(Itself, ClassParts(c))
  }

  function FlatEvent(e: EventBlock): seq<string> {
    match e
    case Missing(name) => [name, NOT_FOUND]
    case Present(items) => items
  }

  function FlatTac(t: TacBlock): seq<string> {
    match t
    case NoTac => []
    case MissingTac(name) => [name, NOT_FOUND]
    case PresentTac(items) => items
  }

  function Itself(part: seq<string>): seq<string> {
    part
  }

  predicate ValidEvent(e: EventBlock) {
    e.Present? ==> |e.items| == 6 && e.items[1] != NOT_FOUND
  }

  predicate ValidTac(t: TacBlock) {
    t.PresentTac? ==> |t.items| >= 6 && t.items[1] != NOT_FOUND
  }

  /** `DbServerCache` reads the stored procedure release from the first string: "release 1.9" is 109.
      None: `substr(8)` is called on a shorter string and throws. */
  function ProcRelease(first: string): Option<int> {
    if Find(first, "release", 0) == -1 then Some(0)
    else if |first| < 8 then None
    else
      var rel := first[8..];
      var pos := FindChar(rel, '.', 0);
      if pos == -1 then Some(0) else Some(100 * Atoi(rel[..pos]) + Atoi(rel[pos + 1..]))
  }

  function ReleaseText(major: nat, minor: nat): string {
    "release " + Dec(major) + "." + Dec(minor)
  }

  /** A release string written as the database writes it is read back as 100 * major + minor. */
  lemma {:induction false} ReleaseRead(major: nat, minor: nat)
    ensures ProcRelease(ReleaseText(major, minor)) == Some(100 * major + minor)
  {
    var s := ReleaseText(major, minor);
    assert s[0..0 + |"release"|] == "release";
    assert OccursAt(s, "release", 0);
    var rel := s[8..];
    assert rel == Dec(major) + "." + Dec(minor);
    assert rel[|Dec(major)|] == '.';
    assert forall k | 0 <= k < |Dec(major)| :: rel[k] == Dec(major)[k];
    assert FindChar(rel, '.', 0) == |Dec(major)|;
    assert rel[..|Dec(major)|] == Dec(major) && rel[|Dec(major)| + 1..] == Dec(minor);
    AtoiDec(major);
    AtoiDec(minor);
  }

  datatype Release = NoRelease | Release(major: nat, minor: nat)

  const RELEASE_PART := 0
  const ADMIN_PART := 1
  const NOTIFD_PART := 2
  const ADMIN_EVENT_PART := 3
  const DSERVER_PART := 4
  const DEFAULT_PART := 5
  const ADMIN_DEVICE_PART := 6
  const COUNT_PART := 7
  const CLASSES_PART := 8
  const CONTROL_PART := 9
  const TAC_PART := 10

  /** The content of a full answer to `fill_server_cache`. */
  datatype ServerData = ServerData(
    release: Release, admin: seq<string>, notifd: EventBlock, adminEvent: EventBlock,
    dserver: Owner, default: Owner, adminDevice: Owner,
    countName: string, classes: seq<ServerClass>, control: Owner, tac: TacBlock)
  {
    function ReleaseNumber(): int {
      if release.Release? then 100 * release.major + release.minor else 0
    }

    /** Pipes are sent from stored procedure release 1.9 on. */
    predicate HasPipes() {
      ReleaseNumber() >= 109
    }

    function Parts(): (parts: seq<seq<string>>)
      ensures |parts| == 11
    {
      [if release.Release? then [ReleaseText(release.major, release.minor)] else [],
       admin, FlatEvent(notifd), FlatEvent(adminEvent),
       FlatOwner(dserver), FlatOwner(default), FlatOwner(adminDevice),
       [countName, Dec(|classes|)], Flat(FlatClass, classes), FlatOwner(control), FlatTac(tac)]
    }

    /** The list of strings the server receives. */
    function Flatten(): seq<string> {
      Flat(Itself, Parts())
    }

    /** Where part `k` starts in that list. */
    function Start(k: nat): nat
      requires k <= 11
    {
      Pos(Itself, Parts(), k)
    }

    predicate Valid() {
      && |admin| == 8
      && ValidEvent(notifd) && ValidEvent(adminEvent) && ValidTac(tac)
      && (release.Release? ==> ReleaseNumber() != 0)
      && (release.NoRelease? ==> ProcRelease(admin[0]) == Some(0))
      && forall k | 0 <= k < |classes| :: ValidClass(classes[k])
    }

    predicate ValidClass(c: ServerClass) {
      && (c.pipes.Some? <==> HasPipes())
      && forall k | 0 <= k < |c.devs| :: c.devs[k].pipes.Some? <==> HasPipes()
    }
  }

  // ----- direct look-ups -----

  /** The first element whose name is `w` but for case, or -1. */
  function FindNamed<T>(nameOf: T -> string, xs: seq<T>, w: string): (r: int)
    ensures -1 <= r < |xs|
  {
    if xs == [] then -1
    else if SameName(nameOf(xs[0]), w) then 0
    else
      var r := FindNamed(nameOf, xs[1..], w);
      if r == -1 then -1 else r + 1
  }

  lemma {:induction false} FirstNamed<T>(nameOf: T -> string, xs: seq<T>, w: string)
    ensures var r := FindNamed(nameOf, xs, w);
            && (r == -1 ==> forall k | 0 <= k < |xs| :: !SameName(nameOf(xs[k]), w))
            && (r != -1 ==> SameName(nameOf(xs[r]), w) && forall k | 0 <= k < r :: !SameName(nameOf(xs[k]), w))
    decreases |xs|
  {
    if xs != [] && !SameName(nameOf(xs[0]), w) {
      FirstNamed(nameOf, xs[1..], w);
      assert forall k | 1 <= k < |xs| :: xs[k] == xs[1..][k - 1];
    }
  }

  /** Searching from the front: as long as nothing was found before `k`, element `k` is the one looked for
      exactly if it has that name. */
  lemma {:induction false} NamedAt<T>(nameOf: T -> string, xs: seq<T>, w: string, k: nat)
    requires k < |xs|
    requires FindNamed(nameOf, xs, w) == -1 || FindNamed(nameOf, xs, w) >= k
    ensures SameName(nameOf(xs[k]), w) <==> FindNamed(nameOf, xs, w) == k
  {
    FirstNamed(nameOf, xs, w);
  }

  function DatumName(d: DbDatum): string { d.name }

  function OwnerName(o: Owner): string { o.name }

  function ClassName(c: ServerClass): string { c.props.name }

  function NameOfDevice(d: Device): string { d.name }

  /** The values of a property, none when there is no such property. */
  function ValuesOf(props: seq<DbDatum>, w: string): seq<string> {
    var k := FindNamed(DatumName, props, w);
    if k == -1 then [] else props[k].values
  }

  /** What a client asking for the properties `ws` is to get: one datum for each, in order. */
  function Properties(props: seq<DbDatum>, ws: seq<string>): (r: seq<DbDatum>)
    ensures |r| == |ws|
    ensures forall i | 0 <= i < |ws| :: r[i] == DbDatum(ws[i], ValuesOf(props, ws[i]))
  {
    seq(|ws|, i requires 0 <= i < |ws| => DbDatum(ws[i], ValuesOf(props, ws[i])))
  }

  /** The attribute asked for, or one of that name without any property. */
  function OwnerFor(owners: seq<Owner>, w: string): Owner {
    var k := FindNamed(OwnerName, owners, w);
    if k == -1 then Owner(w, []) else owners[k]
  }

  function OwnersFor(owners: seq<Owner>, ws: seq<string>): (r: seq<Owner>)
    ensures |r| == |ws|
    ensures forall i | 0 <= i < |ws| :: r[i] == OwnerFor(owners, ws[i])
  {
    seq(|ws|, i requires 0 <= i < |ws| => OwnerFor(owners, ws[i]))
  }

  /** Class and index of the first device of that name, class by class. */
  function FindDevice(classes: seq<ServerClass>, dev: string, from: nat): (r: Option<(nat, nat)>)
    requires from <= |classes|
    ensures r.None? ==> forall c | from <= c < |classes| :: FindNamed(NameOfDevice, classes[c].devs, dev) == -1
    ensures r.Some? ==> from <= r.value.0 < |classes| && r.value.1 < |classes[r.value.0].devs|
                        && FindNamed(NameOfDevice, classes[r.value.0].devs, dev) == r.value.1
                        && forall c | from <= c < r.value.0 :: FindNamed(NameOfDevice, classes[c].devs, dev) == -1
    decreases |classes| - from
  {
    if from == |classes| then None
    else
      var k := FindNamed(NameOfDevice, classes[from].devs, dev);
      if k != -1 then Some((from, k)) else FindDevice(classes, dev, from + 1)
  }

  /** `strncasecmp(name, "dserver/", 8) == 0` */
  predicate IsAdminDevice(name: string) {
    |name| >= 8 && Lower(name[..8]) == "dserver/"
  }

  // ----- what the cache is expected to answer -----

  datatype CacheError = ClassNotFoundInCache | DeviceNotFoundInCache | TooOldStoredProc | CacheAccess | DeviceNotDefined | EventNotDefined

  datatype Result<+T> = Ok(value: T) | Err(error: CacheError)

  /** The reply entry for one wanted property: with `device`, an absent property carries a dummy value. */
  function EntryFor(props: seq<DbDatum>, w: string, device: bool): Entry {
    var k := FindNamed(DatumName, props, w);
    if k == -1 then Entry(DbDatum(w, []), device) else Entry(DbDatum(w, props[k].values), false)
  }

  function EntriesFor(props: seq<DbDatum>, ws: seq<string>, device: bool): (r: seq<Entry>)
    ensures |r| == |ws|
    ensures forall i | 0 <= i < |ws| :: r[i] == EntryFor(props, ws[i], device)
  {
    seq(|ws|, i requires 0 <= i < |ws| => EntryFor(props, ws[i], device))
  }

  function PropertyReply(name: string, props: seq<DbDatum>, ws: seq<string>, device: bool): seq<string> {
    [name, Dec(|ws|)] + Flat(FlatEntry, EntriesFor(props, ws, device))
  }

  function AttributeReply(name: string, owners: seq<Owner>, ws: seq<string>): seq<string> {
    [name, Dec(|ws|)] + Flat(FlatOwner, OwnersFor(owners, ws))
  }

  // The answers below take the parameter list of a query: the name of the class, device or object,
  // then the wanted names.

  function ClassPropertyAnswer(sd: ServerData, inParam: seq<string>): Result<seq<string>>
    requires |inParam| > 0
  {
    var name, ws := inParam[0], inParam[1..];
    if SameName(name, "DServer") then Ok(PropertyReply("DServer", sd.dserver.props, ws, false))
    else if SameName(name, "Default") then Ok(PropertyReply("Default", sd.default.props, ws, false))
    else
      var c := FindNamed(ClassName, sd.classes, name);
      if c == -1 then Err(ClassNotFoundInCache)
      else Ok(PropertyReply(name, sd.classes[c].props.props, ws, false))
  }

  function DevicePropertyAnswer(sd: ServerData, inParam: seq<string>): Result<seq<string>>
    requires |inParam| > 0
  {
    var name, ws := inParam[0], inParam[1..];
    if IsAdminDevice(name) then Ok(PropertyReply(name, sd.adminDevice.props, ws, true))
    else
      match FindDevice(sd.classes, name, 0)
      case None => Err(DeviceNotFoundInCache)
      case Some((c, k)) => Ok(PropertyReply(name, sd.classes[c].devs[k].props.props, ws, true))
  }

  function ObjectPropertyAnswer(sd: ServerData, inParam: seq<string>): Result<seq<string>>
    requires |inParam| > 0
  {
    if SameName(sd.control.name, inParam[0]) then Ok(PropertyReply(inParam[0], sd.control.props, inParam[1..], true))
    else Err(DeviceNotFoundInCache)
  }

  function ClassAttributeAnswer(sd: ServerData, inParam: seq<string>): Result<seq<string>>
    requires |inParam| > 0
  {
    var c := FindNamed(ClassName, sd.classes, inParam[0]);
    if c == -1 then Err(ClassNotFoundInCache)
    else Ok(AttributeReply(inParam[0], sd.classes[c].atts.owners, inParam[1..]))
  }

  /** An unknown device is an error, but the admin device simply has no attribute property. */
  function DeviceAttributeAnswer(sd: ServerData, inParam: seq<string>): Result<seq<string>>
    requires |inParam| > 0
  {
    match FindDevice(sd.classes, inParam[0], 0)
    case None => if IsAdminDevice(inParam[0]) then Ok([inParam[0], "0"]) else Err(DeviceNotFoundInCache)
    case Some((c, k)) => Ok(AttributeReply(inParam[0], sd.classes[c].devs[k].atts.owners, inParam[1..]))
  }

  function PipeOwners(b: Option<OwnerBlock>): seq<Owner> {
    if b.Some? then b.value.owners else []
  }

  function ClassPipeAnswer(sd: ServerData, inParam: seq<string>): Result<seq<string>>
    requires |inParam| > 0
  {
    var c := FindNamed(ClassName, sd.classes, inParam[0]);
    if !sd.HasPipes() then Err(TooOldStoredProc)
    else if c == -1 then Err(ClassNotFoundInCache)
    else Ok(AttributeReply(inParam[0], PipeOwners(sd.classes[c].pipes), inParam[1..]))
  }

  function DevicePipeAnswer(sd: ServerData, inParam: seq<string>): Result<seq<string>>
    requires |inParam| > 0
  {
    if !sd.HasPipes() then Err(TooOldStoredProc)
    else
      match FindDevice(sd.classes, inParam[0], 0)
      case None => if IsAdminDevice(inParam[0]) then Ok([inParam[0], "0"]) else Err(DeviceNotFoundInCache)
      case Some((c, k)) => Ok(AttributeReply(inParam[0], PipeOwners(sd.classes[c].devs[k].pipes), inParam[1..]))
  }

  function DeviceListAnswer(sd: ServerData, className: string): seq<string> {
    var c := FindNamed(ClassName, sd.classes, className);
    if c == -1 then [] else Flat(DeviceName, sd.classes[c].devs)
  }
}
