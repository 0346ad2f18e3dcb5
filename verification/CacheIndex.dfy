/** The index of `DbServerCache` over the flat list received at start-up, and the forward walk that
    builds it block by block. */
module CacheIndex {
  import opened Text
  import opened Layout
  import opened Wire
  import opened ServerData

  datatype EltIdx = EltIdx(first_idx: int, last_idx: int)

  datatype PropEltIdx = PropEltIdx(first_idx: int, last_idx: int, prop_nb: int, props_idx: seq<int>)

  datatype AttPropEltIdx = AttPropEltIdx(first_idx: int, last_idx: int, att_nb: int, atts_idx: seq<int>)

  datatype DevEltIdx = DevEltIdx(dev_prop: PropEltIdx, dev_att_prop: AttPropEltIdx, dev_pipe_prop: Option<AttPropEltIdx>)

  datatype ClassEltIdx = ClassEltIdx(class_prop: PropEltIdx, class_att_prop: AttPropEltIdx,
                                     class_pipe_prop: Option<AttPropEltIdx>,
                                     dev_list: EltIdx, dev_nb: int, devs_idx: seq<DevEltIdx>)

  // ----- an index that points at what it should -----

  /** A block occupies the positions `first_idx` to `last_idx`, both included. */
  predicate Spans(first_idx: int, last_idx: int, lo: int, block: seq<string>) {
    first_idx == lo && last_idx == lo + |block| - 1
  }

  /** For each property, where it starts and how many values it has. */
  ghost predicate PropsIndexed(props_idx: seq<int>, props: seq<DbDatum>, lo: int, upTo: nat)
    requires upTo <= |props|
  {
    2 * upTo <= |props_idx| &&
    forall k | 0 <= k < upTo ::
      props_idx[2 * k] == lo + 2 + Pos(FlatDatum, props, k) && props_idx[2 * k + 1] == |props[k].values|
  }

  ghost predicate OwnerIndexed(data: seq<string>, o: PropEltIdx, b: Owner, lo: int) {
    && At(data, lo, FlatOwner(b))
    && Spans(o.first_idx, o.last_idx, lo, FlatOwner(b))
    && o.prop_nb == |b.props| && |o.props_idx| == 2 * |b.props|
    && PropsIndexed(o.props_idx, b.props, lo, |b.props|)
  }

  ghost predicate StartsIndexed(atts_idx: seq<int>, owners: seq<Owner>, lo: int, upTo: nat)
    requires upTo <= |owners|
  {
    upTo <= |atts_idx| && forall k | 0 <= k < upTo :: atts_idx[k] == lo + 2 + Pos(FlatOwner, owners, k)
  }

  ghost predicate BlockIndexed(data: seq<string>, a: AttPropEltIdx, b: OwnerBlock, lo: int) {
    && At(data, lo, FlatBlock(b))
    && Spans(a.first_idx, a.last_idx, lo, FlatBlock(b))
    && a.att_nb == |b.owners| == |a.atts_idx|
    && StartsIndexed(a.atts_idx, b.owners, lo, |b.owners|)
  }

  ghost predicate PipesIndexed(data: seq<string>, a: Option<AttPropEltIdx>, b: Option<OwnerBlock>, lo: int) {
    match (a, b)
    case (None, None) => true
    case (Some(x), Some(y)) => BlockIndexed(data, x, y, lo)
    case _ => false
  }

  ghost predicate DeviceIndexed(data: seq<string>, x: DevEltIdx, d: Device, lo: int) {
    && OwnerIndexed(data, x.dev_prop, d.props, lo)
    && BlockIndexed(data, x.dev_att_prop, d.atts, lo + |FlatOwner(d.props)|)
    && PipesIndexed(data, x.dev_pipe_prop, d.pipes, lo + |FlatOwner(d.props)| + |FlatBlock(d.atts)|)
  }

  ghost predicate DevicesIndexed(data: seq<string>, xs: seq<DevEltIdx>, ds: seq<Device>, lo: int) {
    |xs| <= |ds| && forall k | 0 <= k < |xs| :: DeviceIndexed(data, xs[k], ds[k], lo + Pos(FlatDevice, ds, k))
  }

  function PartStart(c: ServerClass, k: nat): nat
    requires k <= 5
  {
    Pos(Itself, ClassParts(c), k)
  }

  ghost predicate ClassIndexed(data: seq<string>, x: ClassEltIdx, c: ServerClass, lo: int) {
    && At(data, lo, FlatClass(c))
    && OwnerIndexed(data, x.class_prop, c.props, lo + PartStart(c, 0))
    && BlockIndexed(data, x.class_att_prop, c.atts, lo + PartStart(c, 1))
    && PipesIndexed(data, x.class_pipe_prop, c.pipes, lo + PartStart(c, 2))
    && At(data, lo + PartStart(c, 3), FlatDeviceList(c))
    && Spans(x.dev_list.first_idx, x.dev_list.last_idx, lo + PartStart(c, 3), FlatDeviceList(c))
    && x.dev_nb == |c.devs| == |x.devs_idx|
    && DevicesIndexed(data, x.devs_idx, c.devs, lo + PartStart(c, 4))
  }

  ghost predicate ClassesIndexed(data: seq<string>, xs: seq<ClassEltIdx>, cs: seq<ServerClass>, lo: int) {
    |xs| <= |cs| && forall k | 0 <= k < |xs| :: ClassIndexed(data, xs[k], cs[k], lo + Pos(FlatClass, cs, k))
  }

  // ----- reading through positions -----

  lemma {:induction false} OwnerAt(data: seq<string>, lo: int, b: Owner)
    requires At(data, lo, FlatOwner(b))
    ensures 0 <= lo && lo + 2 <= lo + |FlatOwner(b)| <= |data|
    ensures |FlatOwner(b)| == 2 + |Flat(FlatDatum, b.props)|
    ensures data[lo] == b.name && Atoi(data[lo + 1]) == |b.props|
    ensures At(data, lo + 2, Flat(FlatDatum, b.props))
  {
    HeaderAt(data, lo, b);
    AtoiDec(|b.props|);
  }

  lemma {:induction false} DatumAt(data: seq<string>, pos: int, d: DbDatum)
    requires At(data, pos, FlatDatum(d))
    ensures 0 <= pos && pos + 2 + |d.values| <= |data|
    ensures data[pos] == d.name && data[pos + 1] == Dec(|d.values|) && Atoi(data[pos + 1]) == |d.values|
    ensures At(data, pos + 2, d.values)
  {
    AtConcat(data, pos, [d.name, Dec(|d.values|)], d.values);
    AtIndex(data, pos, [d.name, Dec(|d.values|)]);
    assert data[pos + 0] == d.name && data[pos + 1] == Dec(|d.values|);
    AtoiDec(|d.values|);
  }

  /** Property `k` of an object: the number of its values stands behind its name, the next one follows. */
  lemma {:induction false} PropertyAt(data: seq<string>, lo: int, b: Owner, k: nat)
    requires At(data, lo, FlatOwner(b)) && k < |b.props|
    ensures var pos := lo + 2 + Pos(FlatDatum, b.props, k);
            && 0 <= pos && pos + 1 < |data| && Atoi(data[pos + 1]) == |b.props[k].values|
            && lo + 2 + Pos(FlatDatum, b.props, k + 1) == pos + 2 + |b.props[k].values|
  {
    OwnerAt(data, lo, b);
    AtItem(data, lo + 2, FlatDatum, b.props, k);
    DatumAt(data, lo + 2 + Pos(FlatDatum, b.props, k), b.props[k]);
  }

  lemma {:induction false} BlockAt(data: seq<string>, lo: int, b: OwnerBlock)
    requires At(data, lo, FlatBlock(b))
    ensures 0 <= lo && lo + 2 <= lo + |FlatBlock(b)| <= |data|
    ensures |FlatBlock(b)| == 2 + |Flat(FlatOwner, b.owners)|
    ensures data[lo] == b.name && Atoi(data[lo + 1]) == |b.owners|
    ensures At(data, lo + 2, Flat(FlatOwner, b.owners))
  {
    AtConcat(data, lo, [b.name, Dec(|b.owners|)], Flat(FlatOwner, b.owners));
    AtIndex(data, lo, [b.name, Dec(|b.owners|)]);
    assert data[lo + 0] == b.name && data[lo + 1] == Dec(|b.owners|);
    AtoiDec(|b.owners|);
  }

  /** Every recorded property index points at its property: name, count and values stand there. */
  lemma {:induction false} PropIndexPoints(data: seq<string>, o: PropEltIdx, b: Owner, lo: int, k: nat)
    requires OwnerIndexed(data, o, b, lo) && k < |b.props|
    ensures 0 <= o.props_idx[2 * k] && o.props_idx[2 * k] + 2 + o.props_idx[2 * k + 1] <= |data|
    ensures o.props_idx[2 * k + 1] == |b.props[k].values|
    ensures data[o.props_idx[2 * k]] == b.props[k].name
    ensures data[o.props_idx[2 * k] + 1] == Dec(|b.props[k].values|)
    ensures data[o.props_idx[2 * k] + 2..o.props_idx[2 * k] + 2 + o.props_idx[2 * k + 1]] == b.props[k].values
  {
    OwnerAt(data, lo, b);
    AtItem(data, lo + 2, FlatDatum, b.props, k);
    DatumAt(data, lo + 2 + Pos(FlatDatum, b.props, k), b.props[k]);
  }

  /** Every recorded attribute index points at its attribute, header and properties. */
  lemma {:induction false} AttributeIndexPoints(data: seq<string>, a: AttPropEltIdx, b: OwnerBlock, lo: int, k: nat)
    requires BlockIndexed(data, a, b, lo) && k < |b.owners|
    ensures At(data, a.atts_idx[k], FlatOwner(b.owners[k]))
    ensures data[a.atts_idx[k]] == b.owners[k].name
  {
    BlockAt(data, lo, b);
    AtItem(data, lo + 2, FlatOwner, b.owners, k);
    OwnerAt(data, a.atts_idx[k], b.owners[k]);
  }

  /** The device list shows the name of every device of the class. */
  lemma {:induction false} DeviceListAt(data: seq<string>, lo: int, c: ServerClass)
    requires At(data, lo, FlatDeviceList(c))
    ensures 0 <= lo && lo + 2 + |c.devs| == lo + |FlatDeviceList(c)| <= |data|
    ensures Atoi(data[lo + 1]) == |c.devs|
    ensures forall k | 0 <= k < |c.devs| :: data[lo + 2 + k] == c.devs[k].name
  {
    AtConcat(data, lo, [c.listName, Dec(|c.devs|)], Flat(DeviceName, c.devs));
    AtIndex(data, lo, [c.listName, Dec(|c.devs|)]);
    assert data[lo + 1] == Dec(|c.devs|);
    AtoiDec(|c.devs|);
    DeviceNames(c.devs);
    AtIndex(data, lo + 2, Flat(DeviceName, c.devs));
  }

  lemma {:induction false} DeviceNames(ds: seq<Device>)
    ensures |Flat(DeviceName, ds)| == |ds|
    ensures forall k | 0 <= k < |ds| :: Flat(DeviceName, ds)[k] == ds[k].name
  {
    if ds != [] {
      DeviceNames(ds[1..]);
      forall k | 0 <= k < |ds| ensures Flat(DeviceName, ds)[k] == ds[k].name {
        if k > 0 {
          assert ds[k] == ds[1..][k - 1];
        }
      }
    }
  }

  // ----- the walk -----

  lemma {:induction false} OneMoreIndexed(before: seq<int>, after: seq<int>, props: seq<DbDatum>, lo: int, k: nat)
    requires k < |props| && PropsIndexed(before, props, lo, k) && 2 * k + 1 < |before|
    requires after == before[2 * k := lo + 2 + Pos(FlatDatum, props, k)][2 * k + 1 := |props[k].values|]
    ensures PropsIndexed(after, props, lo, k + 1)
  {
    forall j | 0 <= j < k + 1
      ensures after[2 * j] == lo + 2 + Pos(FlatDatum, props, j) && after[2 * j + 1] == |props[j].values|
    {
      if j < k {
        assert after[2 * j] == before[2 * j] && after[2 * j + 1] == before[2 * j + 1];
      }
    }
  }

  /** `prop_indexes`: from the end `stop0` of the previous block over the block of one object. */
  method PropIndexes(data: seq<string>, stop0: int, ghost b: Owner) returns (start: int, stop: int, obj: PropEltIdx)
    requires At(data, stop0 + 1, FlatOwner(b))
    ensures start == stop0 + 1 && stop == stop0 + |FlatOwner(b)|
    ensures OwnerIndexed(data, obj, b, start)
  {
    hide At, Flat, Pos, Dec;
    stop := stop0;
    start := stop + 1;
    OwnerAt(data, start, b);
    PosEnd(FlatDatum, b.props);
    var nbProp := Atoi(data[start + 1]);
    if nbProp == 0 {
      stop := start + 1;
      obj := PropEltIdx(start, stop, 0, []);
      return;
    }
    stop := stop + 2;

    var id := 0;
    var propsIdx := new int[nbProp * 2];
    var loop := 0;
    while loop < nbProp
      invariant 0 <= loop <= nbProp && id == 2 * loop
      invariant stop + 1 == start + 2 + Pos(FlatDatum, b.props, loop)
      invariant PropsIndexed(propsIdx[..], b.props, start, loop)
    {
      PropertyAt(data, start, b, loop);
      ghost var before := propsIdx[..];
      propsIdx[id] := stop + 1;
      id := id + 1;
      var nbElt := Atoi(data[stop + 2]);
      propsIdx[id] := nbElt;
      id := id + 1;
      OneMoreIndexed(before, propsIdx[..], b.props, start, loop);
      stop := stop + nbElt + 2;
      loop := loop + 1;
    }
    obj := PropEltIdx(start, stop, nbProp, propsIdx[..]);
  }

  /** `prop_att_indexes` and, in the same words, `prop_pipe_indexes`. */
  method PropAttIndexes(data: seq<string>, stop0: int, ghost b: OwnerBlock) returns (start: int, stop: int, obj: AttPropEltIdx)
    requires At(data, stop0 + 1, FlatBlock(b))
    ensures start == stop0 + 1 && stop == stop0 + |FlatBlock(b)|
    ensures BlockIndexed(data, obj, b, start)
  {
    hide At, Flat, Pos, Dec;
    start := stop0 + 1;
    BlockAt(data, start, b);
    PosEnd(FlatOwner, b.owners);
    var nbAtt := Atoi(data[start + 1]);
    if nbAtt == 0 {
      stop := start + 1;
      obj := AttPropEltIdx(start, stop, 0, []);
      return;
    }

    var id := 0;
    var attsIdx := new int[nbAtt];
    stop := start + 2;
    var ll := 0;
    while ll < nbAtt
      invariant 0 <= ll <= nbAtt && id == ll
      invariant stop + (if ll == nbAtt then 1 else 0) == start + 2 + Pos(FlatOwner, b.owners, ll)
      invariant StartsIndexed(attsIdx[..], b.owners, start, ll)
    {
      AtItem(data, start + 2, FlatOwner, b.owners, ll);
      attsIdx[id] := stop;
      id := id + 1;
      stop := SkipOwner(data, stop, b.owners[ll]);
      if ll == nbAtt - 1 {
        stop := stop - 1;
      }
      ll := ll + 1;
    }
    obj := AttPropEltIdx(start, stop, nbAtt, attsIdx[..]);
  }

  /** The inner loop of `prop_att_indexes`: from the first item of an attribute to the first item behind it. */
  method SkipOwner(data: seq<string>, at: int, ghost o: Owner) returns (stop: int)
    requires At(data, at, FlatOwner(o))
    ensures stop == at + |FlatOwner(o)|
  {
    OwnerAt(data, at, o);
    PosEnd(FlatDatum, o.props);
    var nbProp := Atoi(data[at + 1]);
    stop := at + 2;
    for loop := 0 to nbProp
      invariant stop == at + 2 + Pos(FlatDatum, o.props, loop)
    {
      PropertyAt(data, at, o, loop);
      var nbElt := Atoi(data[stop + 1]);
      stop := stop + nbElt + 2;
    }
  }

  lemma {:induction false} DevicePartsAt(data: seq<string>, lo: int, d: Device)
    requires At(data, lo, FlatDevice(d))
    ensures At(data, lo, FlatOwner(d.props))
    ensures At(data, lo + |FlatOwner(d.props)|, FlatBlock(d.atts))
    ensures At(data, lo + |FlatOwner(d.props)| + |FlatBlock(d.atts)|, FlatPipes(d.pipes))
  {
    AtConcat(data, lo, FlatOwner(d.props) + FlatBlock(d.atts), FlatPipes(d.pipes));
    AtConcat(data, lo, FlatOwner(d.props), FlatBlock(d.atts));
  }

  /** The properties, attributes and, from release 109 on, pipes of one device. */
  method DeviceIndexes(data: seq<string>, stop0: int, procRelease: int, ghost d: Device) returns (stop: int, x: DevEltIdx)
    requires At(data, stop0 + 1, FlatDevice(d)) && (d.pipes.Some? <==> procRelease >= 109)
    ensures stop == stop0 + |FlatDevice(d)|
    ensures DeviceIndexed(data, x, d, stop0 + 1)
  {
    hide At, FlatOwner, FlatBlock, OwnerIndexed, BlockIndexed;
    DevicePartsAt(data, stop0 + 1, d);
    var start, devProp, devAttProp;
    start, stop, devProp := PropIndexes(data, stop0, d.props);
    start, stop, devAttProp := PropAttIndexes(data, stop, d.atts);
    var devPipeProp := None;
    if procRelease >= 109 {
      var pipes;
      start, stop, pipes := PropAttIndexes(data, stop, d.pipes.value);
      devPipeProp := Some(pipes);
    }
    x := DevEltIdx(devProp, devAttProp, devPipeProp);
  }

  lemma {:induction false} ClassPartsAt(data: seq<string>, lo: int, c: ServerClass)
    requires At(data, lo, FlatClass(c))
    ensures PartStart(c, 0) == 0
    ensures At(data, lo, FlatOwner(c.props)) && PartStart(c, 1) == |FlatOwner(c.props)|
    ensures At(data, lo + PartStart(c, 1), FlatBlock(c.atts)) && PartStart(c, 2) == PartStart(c, 1) + |FlatBlock(c.atts)|
    ensures At(data, lo + PartStart(c, 2), FlatPipes(c.pipes)) && PartStart(c, 3) == PartStart(c, 2) + |FlatPipes(c.pipes)|
    ensures At(data, lo + PartStart(c, 3), FlatDeviceList(c)) && PartStart(c, 4) == PartStart(c, 3) + |FlatDeviceList(c)|
    ensures At(data, lo + PartStart(c, 4), Flat(FlatDevice, c.devs))
    ensures |FlatClass(c)| == PartStart(c, 4) + |Flat(FlatDevice, c.devs)|
  {
    hide At, PartStart, FlatClass;
    ClassPartAt(data, lo, c, 0);
    ClassPartAt(data, lo, c, 1);
    ClassPartAt(data, lo, c, 2);
    ClassPartAt(data, lo, c, 3);
    ClassPartAt(data, lo, c, 4);
  }

  lemma {:induction false} ClassPartAt(data: seq<string>, lo: int, c: ServerClass, k: nat)
    requires At(data, lo, FlatClass(c)) && k < 5
    ensures At(data, lo + PartStart(c, k), ClassParts(c)[k])
    ensures PartStart(c, 0) == 0 && PartStart(c, k + 1) == PartStart(c, k) + |ClassParts(c)[k]|
    ensures PartStart(c, 5) == |FlatClass(c)|
  {
    PosEnd(Itself, ClassParts(c));
    AtItem(data, lo, Itself, ClassParts(c), k);
  }

  /** The body of the loop over the embedded classes. */
  method ClassIndexes(data: seq<string>, stop0: int, procRelease: int, ghost c: ServerClass) returns (stop: int, x: ClassEltIdx)
    requires At(data, stop0 + 1, FlatClass(c)) && (c.pipes.Some? <==> procRelease >= 109)
    requires forall k | 0 <= k < |c.devs| :: c.devs[k].pipes.Some? <==> procRelease >= 109
    ensures stop == stop0 + |FlatClass(c)|
    ensures ClassIndexed(data, x, c, stop0 + 1)
  {
    hide At, Flat, PartStart, FlatOwner, FlatBlock, FlatClass, OwnerIndexed, BlockIndexed, DevicesIndexed;
    ghost var lo := stop0 + 1;
    ClassPartsAt(data, lo, c);
    var start, classProp, classAttProp;
    start, stop, classProp := PropIndexes(data, stop0, c.props);
    start, stop, classAttProp := PropAttIndexes(data, stop, c.atts);
    var classPipeProp := None;
    if procRelease >= 109 {
      var pipes;
      start, stop, pipes := PropAttIndexes(data, stop, c.pipes.value);
      classPipeProp := Some(pipes);
    }

    start := stop + 1;
    DeviceListAt(data, start, c);
    var nbDev := Atoi(data[start + 1]);
    stop := stop + nbDev + 2;
    var devList := EltIdx(start, stop);
    var devsIdx;
    stop, devsIdx := DevicesIndexes(data, stop, procRelease, nbDev, c.devs);
    x := ClassEltIdx(classProp, classAttProp, classPipeProp, devList, nbDev, devsIdx);
  }

  /** The loop over the devices of a class. */
  method DevicesIndexes(data: seq<string>, stop0: int, procRelease: int, nbDev: int, ghost ds: seq<Device>)
      returns (stop: int, devsIdx: seq<DevEltIdx>)
    requires At(data, stop0 + 1, Flat(FlatDevice, ds)) && nbDev == |ds|
    requires forall k | 0 <= k < |ds| :: ds[k].pipes.Some? <==> procRelease >= 109
    ensures stop == stop0 + |Flat(FlatDevice, ds)| && |devsIdx| == |ds|
    ensures DevicesIndexed(data, devsIdx, ds, stop0 + 1)
  {
    hide At, Flat, Pos, DeviceIndexed;
    PosEnd(FlatDevice, ds);
    stop, devsIdx := stop0, [];
    for loop := 0 to nbDev
      invariant |devsIdx| == loop && stop == stop0 + Pos(FlatDevice, ds, loop)
      invariant DevicesIndexed(data, devsIdx, ds, stop0 + 1)
    {
      AtItem(data, stop0 + 1, FlatDevice, ds, loop);
      var x;
      stop, x := DeviceIndexes(data, stop, procRelease, ds[loop]);
      devsIdx := devsIdx + [x];
    }
  }

  /** The loop over the embedded classes. */
  method ClassesIndexes(data: seq<string>, stop0: int, procRelease: int, classNb: int, ghost sd: ServerData)
      returns (stop: int, classesIdx: seq<ClassEltIdx>)
    requires sd.Valid() && procRelease == sd.ReleaseNumber() && classNb == |sd.classes|
    requires At(data, stop0 + 1, Flat(FlatClass, sd.classes))
    ensures stop == stop0 + |Flat(FlatClass, sd.classes)| && |classesIdx| == |sd.classes|
    ensures ClassesIndexed(data, classesIdx, sd.classes, stop0 + 1)
  {
    hide At, Flat, Pos, ClassIndexed;
    PosEnd(FlatClass, sd.classes);
    stop, classesIdx := stop0, [];
    for clLoop := 0 to classNb
      invariant |classesIdx| == clLoop && stop == stop0 + Pos(FlatClass, sd.classes, clLoop)
      invariant ClassesIndexed(data, classesIdx, sd.classes, stop0 + 1)
    {
      AtItem(data, stop0 + 1, FlatClass, sd.classes, clLoop);
      assert sd.ValidClass(sd.classes[clLoop]);
      var x;
      stop, x := ClassIndexes(data, stop, procRelease, sd.classes[clLoop]);
      classesIdx := classesIdx + [x];
    }
  }

  /** The block of an event channel has two items when the channel is unknown, six otherwise. */
  method EventIndexes(data: seq<string>, stop0: int, ghost e: EventBlock) returns (stop: int, x: EltIdx)
    requires At(data, stop0 + 1, FlatEvent(e)) && ValidEvent(e)
    ensures stop == stop0 + |FlatEvent(e)|
    ensures Spans(x.first_idx, x.last_idx, stop0 + 1, FlatEvent(e))
  {
    AtIndex(data, stop0 + 1, FlatEvent(e));
    assert data[stop0 + 1 + 1] == FlatEvent(e)[1];
    var start := stop0 + 1;
    stop := stop0;
    if data[start + 1] == NOT_FOUND {
      stop := stop + 2;
    } else {
      stop := stop + 6;
    }
    x := EltIdx(start, stop);
  }

  // ----- searching through the index -----

  /** The search of `get_obj_prop`: the position in `props_idx` of the wanted property, `2 * prop_nb` if none. */
  method FindProp(data: seq<string>, obj: PropEltIdx, wanted: string, ghost b: Owner, ghost pos: int) returns (lo: int)
    requires OwnerIndexed(data, obj, b, pos)
    ensures var k := FindNamed(DatumName, b.props, wanted);
            lo == if k == -1 then 2 * |b.props| else 2 * k
  {
    hide PropsIndexed, At, Flat, Lower, FindNamed;
    ghost var k, found := 0, FindNamed(DatumName, b.props, wanted);
    lo := 0;
    while lo < obj.prop_nb * 2
      invariant 0 <= k <= |b.props| && lo == 2 * k && (found == -1 || found >= k)
    {
      NamedAt(DatumName, b.props, wanted, k);
      PropIndexPoints(data, obj, b, pos, k);
      if SameName(wanted, data[obj.props_idx[lo]]) {
        break;
      }
      lo := lo + 2;
      k := k + 1;
    }
  }

  /** The search of the attribute and pipe queries: the index of the wanted name, `att_nb` if none. */
  method FindOwner(data: seq<string>, a: AttPropEltIdx, wanted: string, ghost b: OwnerBlock, ghost pos: int) returns (ll: int)
    requires BlockIndexed(data, a, b, pos)
    ensures var k := FindNamed(OwnerName, b.owners, wanted);
            ll == if k == -1 then |b.owners| else k
  {
    hide StartsIndexed, At, Flat, Lower, FindNamed;
    ghost var found := FindNamed(OwnerName, b.owners, wanted);
    ll := 0;
    while ll < a.att_nb
      invariant 0 <= ll <= |b.owners| && (found == -1 || found >= ll)
    {
      NamedAt(OwnerName, b.owners, wanted, ll);
      AttributeIndexPoints(data, a, b, pos, ll);
      if SameName(wanted, data[a.atts_idx[ll]]) {
        break;
      }
      ll := ll + 1;
    }
  }
}
