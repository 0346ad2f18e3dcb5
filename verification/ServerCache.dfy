/** `DbServerCache`: built once from the list received at start-up, then asked again and again instead
    of the database. */
module ServerCache {
  import opened Text
  import opened Layout
  import opened Wire
  import opened ServerData
  import opened CacheIndex

  /** Part `k` of a flattened answer stands at its start; the parts follow one another without a gap. */
  lemma {:induction false} PartAt(sd: ServerData, k: nat)
    requires k < 11
    ensures At(sd.Flatten(), sd.Start(k), sd.Parts()[k])
    ensures sd.Start(0) == 0 && sd.Start(k + 1) == sd.Start(k) + |sd.Parts()[k]|
    ensures sd.Start(11) == |sd.Flatten()|
  {
    var data, parts := sd.Flatten(), sd.Parts();
    assert At(data, 0, Flat(Itself, parts)) by {
      assert data[0..0 + |data|] == data;
    }
    PosEnd(Itself, parts);
    AtItem(data, 0, Itself, parts, k);
  }

  /** The first string tells the release; without a release it is the first item of the admin device. */
  lemma {:induction false} FirstString(sd: ServerData)
    requires sd.Valid()
    ensures |sd.Flatten()| > 3 && ProcRelease(sd.Flatten()[0]) == Some(sd.ReleaseNumber())
    ensures sd.Start(ADMIN_PART) == if sd.ReleaseNumber() != 0 then 1 else 0
  {
    PartAt(sd, RELEASE_PART);
    PartAt(sd, ADMIN_PART);
    AtIndex(sd.Flatten(), sd.Start(RELEASE_PART), sd.Parts()[RELEASE_PART]);
    AtIndex(sd.Flatten(), sd.Start(ADMIN_PART), sd.Parts()[ADMIN_PART]);
    assert sd.Flatten()[sd.Start(ADMIN_PART) + 0] == sd.admin[0];
    if sd.release.Release? {
      ReleaseRead(sd.release.major, sd.release.minor);
      assert sd.Flatten()[0 + 0] == ReleaseText(sd.release.major, sd.release.minor);
    }
  }

  /** The number of embedded classes stands behind one name. */
  lemma {:induction false} CountAt(sd: ServerData)
    ensures 0 <= sd.Start(COUNT_PART) && sd.Start(COUNT_PART) + 1 < |sd.Flatten()|
    ensures Atoi(sd.Flatten()[sd.Start(COUNT_PART) + 1]) == |sd.classes|
    ensures sd.Start(CLASSES_PART) == sd.Start(COUNT_PART) + 2
  {
    PartAt(sd, COUNT_PART);
    AtIndex(sd.Flatten(), sd.Start(COUNT_PART), sd.Parts()[COUNT_PART]);
    assert sd.Flatten()[sd.Start(COUNT_PART) + 1] == sd.Parts()[COUNT_PART][1];
    AtoiDec(|sd.classes|);
  }

  /** The classes, the control system object and what is left for the access control device. */
  lemma {:induction false} TailAt(sd: ServerData)
    ensures At(sd.Flatten(), sd.Start(CLASSES_PART), Flat(FlatClass, sd.classes))
    ensures sd.Start(CONTROL_PART) == sd.Start(CLASSES_PART) + |Flat(FlatClass, sd.classes)|
    ensures At(sd.Flatten(), sd.Start(CONTROL_PART), FlatOwner(sd.control))
    ensures sd.Start(TAC_PART) == sd.Start(CONTROL_PART) + |FlatOwner(sd.control)|
    ensures At(sd.Flatten(), sd.Start(TAC_PART), FlatTac(sd.tac))
    ensures sd.Start(TAC_PART) + |FlatTac(sd.tac)| == |sd.Flatten()|
  {
    PartAt(sd, CLASSES_PART);
    PartAt(sd, CONTROL_PART);
    PartAt(sd, TAC_PART);
  }

  /** The admin device takes eight strings behind the release. */
  lemma {:induction false} AdminAt(sd: ServerData)
    requires sd.Valid()
    ensures At(sd.Flatten(), sd.Start(ADMIN_PART), sd.admin) && |sd.admin| == 8
    ensures sd.Start(NOTIFD_PART) == sd.Start(ADMIN_PART) + 8
  {
    PartAt(sd, ADMIN_PART);
  }

  lemma {:induction false} EventsAt(sd: ServerData)
    requires sd.Valid()
    ensures ValidEvent(sd.notifd) && ValidEvent(sd.adminEvent)
    ensures At(sd.Flatten(), sd.Start(NOTIFD_PART), FlatEvent(sd.notifd))
    ensures At(sd.Flatten(), sd.Start(ADMIN_EVENT_PART), FlatEvent(sd.adminEvent))
    ensures sd.Start(ADMIN_EVENT_PART) == sd.Start(NOTIFD_PART) + |FlatEvent(sd.notifd)|
    ensures sd.Start(DSERVER_PART) == sd.Start(ADMIN_EVENT_PART) + |FlatEvent(sd.adminEvent)|
  {
    assert sd.Parts()[NOTIFD_PART] == FlatEvent(sd.notifd) && sd.Parts()[ADMIN_EVENT_PART] == FlatEvent(sd.adminEvent);
    hide At, FlatEvent, ServerData.Flatten, ServerData.Start, ServerData.Parts;
    PartAt(sd, NOTIFD_PART);
    PartAt(sd, ADMIN_EVENT_PART);
  }

  /** The two event blocks. */
  method WalkEvents(data: seq<string>, stop0: int, ghost sd: ServerData) returns (stop: int, notifd: EltIdx, adminEvent: EltIdx)
    requires sd.Valid() && data == sd.Flatten() && stop0 + 1 == sd.Start(NOTIFD_PART)
    ensures Spans(notifd.first_idx, notifd.last_idx, sd.Start(NOTIFD_PART), FlatEvent(sd.notifd))
    ensures Spans(adminEvent.first_idx, adminEvent.last_idx, sd.Start(ADMIN_EVENT_PART), FlatEvent(sd.adminEvent))
    ensures stop + 1 == sd.Start(DSERVER_PART)
  {
    hide At, FlatEvent, ValidEvent, Spans, ServerData.Flatten, ServerData.Start, ServerData.Valid;
    EventsAt(sd);
    stop, notifd := EventIndexes(data, stop0, sd.notifd);
    stop, adminEvent := EventIndexes(data, stop, sd.adminEvent);
  }

  /** DServer class, Default and admin device properties. */
  method WalkObjects(data: seq<string>, stop0: int, ghost sd: ServerData)
      returns (stop: int, dserver: PropEltIdx, default: PropEltIdx, adminDevice: PropEltIdx)
    requires data == sd.Flatten() && stop0 + 1 == sd.Start(DSERVER_PART)
    ensures OwnerIndexed(data, dserver, sd.dserver, sd.Start(DSERVER_PART))
    ensures OwnerIndexed(data, default, sd.default, sd.Start(DEFAULT_PART))
    ensures OwnerIndexed(data, adminDevice, sd.adminDevice, sd.Start(ADMIN_DEVICE_PART))
    ensures stop + 1 == sd.Start(COUNT_PART)
  {
    hide At, FlatOwner, Flat, ServerData.Flatten, ServerData.Start, OwnerIndexed;
    PartAt(sd, DSERVER_PART);
    PartAt(sd, DEFAULT_PART);
    PartAt(sd, ADMIN_DEVICE_PART);
    var start;
    start, stop, dserver := PropIndexes(data, stop0, sd.dserver);
    start, stop, default := PropIndexes(data, stop, sd.default);
    start, stop, adminDevice := PropIndexes(data, stop, sd.adminDevice);
  }

  /** The number of embedded classes, then the classes. */
  method WalkClasses(data: seq<string>, stop0: int, procRelease: int, ghost sd: ServerData)
      returns (stop: int, classNb: int, classesIdx: seq<ClassEltIdx>)
    requires sd.Valid() && data == sd.Flatten() && stop0 + 1 == sd.Start(COUNT_PART)
    requires procRelease == sd.ReleaseNumber()
    ensures classNb == |sd.classes| == |classesIdx|
    ensures ClassesIndexed(data, classesIdx, sd.classes, sd.Start(CLASSES_PART))
    ensures stop + 1 == sd.Start(CONTROL_PART)
  {
    CountAt(sd);
    TailAt(sd);
    hide At, Flat, Dec, ServerData.Flatten, ServerData.Start, ServerData.Valid, ServerData.ReleaseNumber, ClassesIndexed;
    var start := stop0 + 1;
    classNb := Atoi(data[start + 1]);
    stop := stop0 + 2;
    stop, classesIdx := ClassesIndexes(data, stop, procRelease, classNb, sd);
  }

  /** The control system services, and what is left for the access control device. */
  method WalkTail(data: seq<string>, stop0: int, nData: int, ghost sd: ServerData) returns (ctrlServProp: PropEltIdx, impTac: EltIdx)
    requires data == sd.Flatten() && stop0 + 1 == sd.Start(CONTROL_PART) && nData == |data|
    ensures OwnerIndexed(data, ctrlServProp, sd.control, sd.Start(CONTROL_PART))
    ensures impTac == EltIdx(sd.Start(TAC_PART), nData)
    ensures impTac.first_idx >= |data| <==> FlatTac(sd.tac) == []
  {
    TailAt(sd);
    hide At, FlatOwner, ServerData.Flatten, ServerData.Start, OwnerIndexed;
    var start, stop;
    start, stop, ctrlServProp := PropIndexes(data, stop0, sd.control);
    start := stop + 1;
    if stop == nData {
      impTac := *;  // left as it is; never happens, since `stop` is the index of the last string used
    } else {
      stop := nData;
      impTac := EltIdx(start, stop);
    }
  }

  /** The index members of `DbServerCache`. */
  datatype CacheIdx = CacheIdx(
    procRelease: int, impAdm: EltIdx, impNotifdEvent: EltIdx, impAdmEvent: EltIdx,
    dserverClassProp: PropEltIdx, defaultProp: PropEltIdx, admDevProp: PropEltIdx,
    classNb: int, classesIdx: seq<ClassEltIdx>, ctrlServProp: PropEltIdx, impTac: EltIdx)

  /** Every index points at the part, class, device, attribute or property it stands for, and the blocks
      tile the list: each starts where the one before it ends. */
  ghost predicate Indexed(data: seq<string>, x: CacheIdx, sd: ServerData) {
    && x.procRelease == sd.ReleaseNumber()
    && Spans(x.impAdm.first_idx, x.impAdm.last_idx, sd.Start(ADMIN_PART), sd.admin)
    && Spans(x.impNotifdEvent.first_idx, x.impNotifdEvent.last_idx, sd.Start(NOTIFD_PART), FlatEvent(sd.notifd))
    && Spans(x.impAdmEvent.first_idx, x.impAdmEvent.last_idx, sd.Start(ADMIN_EVENT_PART), FlatEvent(sd.adminEvent))
    && OwnerIndexed(data, x.dserverClassProp, sd.dserver, sd.Start(DSERVER_PART))
    && OwnerIndexed(data, x.defaultProp, sd.default, sd.Start(DEFAULT_PART))
    && OwnerIndexed(data, x.admDevProp, sd.adminDevice, sd.Start(ADMIN_DEVICE_PART))
    && x.classNb == |sd.classes| == |x.classesIdx|
    && ClassesIndexed(data, x.classesIdx, sd.classes, sd.Start(CLASSES_PART))
    && OwnerIndexed(data, x.ctrlServProp, sd.control, sd.Start(CONTROL_PART))
    && x.impTac == EltIdx(sd.Start(TAC_PART), |data|)
  }

  /** The walk over a full list. (Lists of two or three strings, sent for an unknown server, are not part
      of this model.) */
  method Walk(data: seq<string>, ghost sd: ServerData) returns (x: CacheIdx)
    requires sd.Valid() && data == sd.Flatten()
    ensures Indexed(data, x, sd)
    ensures x.impTac.first_idx >= |data| <==> FlatTac(sd.tac) == []
  {
    FirstString(sd);
    AdminAt(sd);
    hide At, ProcRelease, ServerData.Flatten, ServerData.Start, ServerData.Parts, ServerData.ReleaseNumber;
    hide ServerData.Valid, OwnerIndexed, ClassesIndexed, FlatEvent, FlatOwner, FlatTac;
    var procRelease := ProcRelease(data[0]).value;
    var startIdx, stopIdx := 0, 0;
    if procRelease != 0 {
      startIdx, stopIdx := startIdx + 1, stopIdx + 1;
    }
    stopIdx := startIdx + 7;
    var impAdm := EltIdx(startIdx, stopIdx);
    var notifd, adminEvent, dserver, default, adminDevice, classNb, classesIdx, control, tac;
    stopIdx, notifd, adminEvent := WalkEvents(data, stopIdx, sd);
    stopIdx, dserver, default, adminDevice := WalkObjects(data, stopIdx, sd);
    stopIdx, classNb, classesIdx := WalkClasses(data, stopIdx, procRelease, sd);
    control, tac := WalkTail(data, stopIdx, |data|, sd);
    x := CacheIdx(procRelease, impAdm, notifd, adminEvent, dserver, default, adminDevice, classNb, classesIdx, control, tac);
  }

  lemma {:induction false} FlatEmpty<T, U>(f: T -> seq<U>)
    ensures Flat(f, []) == []
  {
  }

  lemma {:induction false} ClassNameAt(data: seq<string>, x: ClassEltIdx, c: ServerClass, lo: int)
    ensures ClassIndexed(data, x, c, lo) ==>
              0 <= x.class_prop.first_idx < |data| && data[x.class_prop.first_idx] == c.props.name
  {
    if ClassIndexed(data, x, c, lo) {
      OwnerAt(data, lo + PartStart(c, 0), c.props);
    }
  }

  /** The device list of a class shows the names of its devices. */
  predicate DevicesNamed(data: seq<string>, x: ClassEltIdx, c: ServerClass) {
    && x.dev_nb == |c.devs| && 0 <= x.dev_list.first_idx && x.dev_list.first_idx + 2 + x.dev_nb <= |data|
    && forall k | 0 <= k < |c.devs| :: data[x.dev_list.first_idx + 2 + k] == c.devs[k].name
  }

  lemma {:induction false} DeviceNamesAt(data: seq<string>, x: ClassEltIdx, c: ServerClass, lo: int)
    ensures ClassIndexed(data, x, c, lo) ==> DevicesNamed(data, x, c)
  {
    hide Flat, Pos, At;
    if ClassIndexed(data, x, c, lo) {
      DeviceListAt(data, lo + PartStart(c, 3), c);
    }
  }

  /** The inner loop of `find_dev_att`, over the device names of one class. */
  method FindInClass(data: seq<string>, x: ClassEltIdx, dev: string, ghost c: ServerClass) returns (found: bool, ll: int)
    requires DevicesNamed(data, x, c)
    ensures found <==> FindNamed(NameOfDevice, c.devs, dev) != -1
    ensures found ==> ll == FindNamed(NameOfDevice, c.devs, dev)
  {
    hide SameName, FindNamed;
    ghost var k := FindNamed(NameOfDevice, c.devs, dev);
    ll := 0;
    while ll < x.dev_nb
      invariant 0 <= ll <= x.dev_nb && (k == -1 || k >= ll)
    {
      NamedAt(NameOfDevice, c.devs, dev, ll);
      if SameName(data[x.dev_list.first_idx + 2 + ll], dev) {
        found := true;
        return;
      }
      ll := ll + 1;
    }
    found := false;
  }

  /** One turn of the loop of `get_obj_prop`: the strings added for one wanted property. */
  method PropItem(data: seq<string>, wanted: string, obj: PropEltIdx, devProp: bool, ghost b: Owner, ghost pos: int)
      returns (item: seq<string>)
    requires OwnerIndexed(data, obj, b, pos)
    ensures item == FlatEntry(EntryFor(b.props, wanted, devProp))
  {
    hide At, Flat, PropsIndexed, SameName, FindNamed;
    var lo := FindProp(data, obj, wanted, b, pos);
    if lo < obj.prop_nb * 2 {
      ghost var k := FindNamed(DatumName, b.props, wanted);
      PropIndexPoints(data, obj, b, pos, k);
      var nbElt := obj.props_idx[lo + 1];
      item := [wanted, data[obj.props_idx[lo] + 1]];
      for j := 0 to nbElt
        invariant item == [wanted, Dec(nbElt)] + b.props[k].values[..j]
      {
        item := item + [data[obj.props_idx[lo] + 2 + j]];
        assert data[obj.props_idx[lo] + 2..obj.props_idx[lo] + 2 + nbElt][j] == b.props[k].values[j];
      }
      assert b.props[k].values[..nbElt] == b.props[k].values;
    } else {
      item := [wanted, "0"];
      if devProp {
        item := item + [" "];
      }
      assert Dec(0) == "0";
    }
  }

  /** One turn of the loop of the attribute and pipe queries: the whole stored block of the attribute, or
      a header telling that there is no property. */
  method OwnerItem(data: seq<string>, wanted: string, a: AttPropEltIdx, ghost b: OwnerBlock, ghost pos: int)
      returns (item: seq<string>)
    requires BlockIndexed(data, a, b, pos)
    ensures item == FlatOwner(OwnerFor(b.owners, wanted))
  {
    hide At, Flat, StartsIndexed, SameName, FindNamed;
    var ll := FindOwner(data, a, wanted, b, pos);
    if ll < a.att_nb {
      AttributeIndexPoints(data, a, b, pos, ll);
      item := CopyOwner(data, a.atts_idx[ll], b.owners[ll]);
    } else {
      item := [wanted, "0"];
      assert Dec(0) == "0";
      FlatEmpty(FlatDatum);
      assert FlatOwner(Owner(wanted, [])) == item + [];
    }
  }

  /** Measures a stored attribute, then copies it. */
  method CopyOwner(data: seq<string>, attIndex: int, ghost o: Owner) returns (item: seq<string>)
    requires At(data, attIndex, FlatOwner(o))
    ensures item == FlatOwner(o)
  {
    OwnerAt(data, attIndex, o);
    PosEnd(FlatDatum, o.props);
    AtIndex(data, attIndex, FlatOwner(o));
    hide At, Flat, Pos, FlatOwner, Dec;
    var nbProp := Atoi(data[attIndex + 1]);
    var tmpIdx, nbToCopy := attIndex + 2, 2;
    for k := 0 to nbProp
      invariant tmpIdx == attIndex + nbToCopy == attIndex + 2 + Pos(FlatDatum, o.props, k)
    {
      PropertyAt(data, attIndex, o, k);
      var nbElt := Atoi(data[tmpIdx + 1]);
      tmpIdx := tmpIdx + nbElt + 2;
      nbToCopy := nbToCopy + 2 + nbElt;
    }
    item := [];
    for j := 0 to nbToCopy
      invariant item == FlatOwner(o)[..j]
    {
      item := item + [data[attIndex + j]];
    }
    assert FlatOwner(o)[..nbToCopy] == FlatOwner(o);
  }

  /** The loop over the wanted names of the attribute and pipe queries, and the reply it builds. */
  method OwnersReply(data: seq<string>, inParam: seq<string>, a: AttPropEltIdx, ghost b: OwnerBlock, ghost pos: int)
      returns (reply: seq<string>)
    requires |inParam| > 0 && BlockIndexed(data, a, b, pos)
    ensures reply == AttributeReply(inParam[0], b.owners, inParam[1..])
  {
    hide BlockIndexed, At, Flat, Dec, FlatOwner, OwnerFor;
    var foundAtt := 0;
    var wantedAttNb := |inParam| - 1;
    ghost var os := OwnersFor(b.owners, inParam[1..]);
    ghost var head := [inParam[0], ""];
    reply := [inParam[0], ""];
    FlatEmpty(FlatOwner);
    assert os[..0] == [];
    for loop := 0 to wantedAttNb
      invariant foundAtt == loop
      invariant reply == head + Flat(FlatOwner, os[..loop])
    {
      var item := OwnerItem(data, inParam[loop + 1], a, b, pos);
      reply := reply + item;
      foundAtt := foundAtt + 1;
      assert os[loop] == OwnerFor(b.owners, inParam[loop + 1]);
      FlatSnoc(FlatOwner, os[..loop], os[loop]);
      assert os[..loop + 1] == os[..loop] + [os[loop]];
      assert reply == head + (Flat(FlatOwner, os[..loop]) + item);
    }
    assert os[..wantedAttNb] == os;
    reply := reply[1 := Dec(foundAtt)];
    assert reply == [head[0], Dec(|inParam[1..]|)] + Flat(FlatOwner, os);
  }

  /** Where class `c` starts in the list. */
  ghost function ClassPos(sd: ServerData, c: nat): int
    requires c < |sd.classes|
  {
    sd.Start(CLASSES_PART) + Pos(FlatClass, sd.classes, c)
  }

  ghost function DevicePos(sd: ServerData, c: nat, k: nat): int
    requires c < |sd.classes| && k < |sd.classes[c].devs|
  {
    ClassPos(sd, c) + PartStart(sd.classes[c], 4) + Pos(FlatDevice, sd.classes[c].devs, k)
  }

  /** The parts of the index that belong to class `c`. */
  lemma {:induction false} ClassFound(data: seq<string>, x: CacheIdx, sd: ServerData, c: nat)
    requires Indexed(data, x, sd) && c < |sd.classes|
    ensures c < |x.classesIdx| && ClassIndexed(data, x.classesIdx[c], sd.classes[c], ClassPos(sd, c))
  {
    hide ServerData.Start, ServerData.ReleaseNumber, Spans, OwnerIndexed, ClassIndexed;
  }

  lemma {:induction false} ClassBlocks(data: seq<string>, x: CacheIdx, sd: ServerData, c: nat)
    requires Indexed(data, x, sd) && c < |sd.classes|
    ensures c < |x.classesIdx| && OwnerIndexed(data, x.classesIdx[c].class_prop, sd.classes[c].props, ClassPos(sd, c) + PartStart(sd.classes[c], 0))
    ensures BlockIndexed(data, x.classesIdx[c].class_att_prop, sd.classes[c].atts, ClassPos(sd, c) + PartStart(sd.classes[c], 1))
    ensures PipesIndexed(data, x.classesIdx[c].class_pipe_prop, sd.classes[c].pipes, ClassPos(sd, c) + PartStart(sd.classes[c], 2))
  {
    hide Indexed, At, Spans, OwnerIndexed, BlockIndexed, PipesIndexed, DevicesIndexed, PartStart, ClassPos;
    ClassFound(data, x, sd, c);
  }

  /** The parts of the index that belong to device `k` of class `c`. */
  lemma {:induction false} DeviceFound(data: seq<string>, x: CacheIdx, sd: ServerData, c: nat, k: nat)
    requires Indexed(data, x, sd) && c < |sd.classes| && k < |sd.classes[c].devs|
    ensures c < |x.classesIdx| && k < |x.classesIdx[c].devs_idx|
    ensures DeviceIndexed(data, x.classesIdx[c].devs_idx[k], sd.classes[c].devs[k], DevicePos(sd, c, k))
  {
    hide Indexed, At, Spans, OwnerIndexed, BlockIndexed, PipesIndexed, DeviceIndexed, PartStart, ClassPos;
    ClassFound(data, x, sd, c);
  }

  lemma {:induction false} DeviceBlocks(data: seq<string>, x: CacheIdx, sd: ServerData, c: nat, k: nat)
    requires Indexed(data, x, sd) && c < |sd.classes| && k < |sd.classes[c].devs|
    ensures c < |x.classesIdx| && k < |x.classesIdx[c].devs_idx|
    ensures var d, di, pos := sd.classes[c].devs[k], x.classesIdx[c].devs_idx[k], DevicePos(sd, c, k);
            && OwnerIndexed(data, di.dev_prop, d.props, pos)
            && BlockIndexed(data, di.dev_att_prop, d.atts, pos + |FlatOwner(d.props)|)
            && PipesIndexed(data, di.dev_pipe_prop, d.pipes, pos + |FlatOwner(d.props)| + |FlatBlock(d.atts)|)
  {
    hide Indexed, OwnerIndexed, BlockIndexed, PipesIndexed, FlatOwner, FlatBlock, DevicePos;
    DeviceFound(data, x, sd, c, k);
  }

  /** What the index says of the objects that are not classes or devices. */
  lemma {:induction false} ObjectsFound(data: seq<string>, x: CacheIdx, sd: ServerData)
    requires Indexed(data, x, sd)
    ensures OwnerIndexed(data, x.dserverClassProp, sd.dserver, sd.Start(DSERVER_PART))
    ensures OwnerIndexed(data, x.defaultProp, sd.default, sd.Start(DEFAULT_PART))
    ensures OwnerIndexed(data, x.admDevProp, sd.adminDevice, sd.Start(ADMIN_DEVICE_PART))
    ensures OwnerIndexed(data, x.ctrlServProp, sd.control, sd.Start(CONTROL_PART))
    ensures x.procRelease == sd.ReleaseNumber()
    ensures x.classNb == |sd.classes| == |x.classesIdx|
  {
    hide ServerData.Start, ServerData.ReleaseNumber, Spans, OwnerIndexed, ClassesIndexed;
  }

  // ----- finding a class or a device -----

  method FindClass(data: seq<string>, idx: CacheIdx, name: string, ghost server: ServerData) returns (c: int)
    requires Indexed(data, idx, server)
    ensures c == FindNamed(ClassName, server.classes, name)
  {
    hide Indexed, OwnerIndexed, ClassIndexed, ClassPos, SameName, FindNamed;
    ObjectsFound(data, idx, server);
    ghost var k := FindNamed(ClassName, server.classes, name);
    c := 0;
    while c < idx.classNb
      invariant 0 <= c <= idx.classNb
      invariant k == -1 || k >= c
    {
      NamedAt(ClassName, server.classes, name, c);
      ClassFound(data, idx, server, c);
      ClassNameAt(data, idx.classesIdx[c], server.classes[c], ClassPos(server, c));
      if SameName(data[idx.classesIdx[c].class_prop.first_idx], name) {
        return;
      }
      c := c + 1;
    }
    c := -1;
  }

  method FindDevAtt(data: seq<string>, idx: CacheIdx, dev: string, ghost server: ServerData) returns (res: int, classInd: int, devInd: int)
    requires Indexed(data, idx, server)
    ensures match FindDevice(server.classes, dev, 0)
            case None => res == -1
            case Some((c, k)) => res == 0 && classInd == c && devInd == k
  {
    hide Indexed, OwnerIndexed, ClassIndexed, ClassPos, SameName, FindNamed;
    ObjectsFound(data, idx, server);
    classInd, devInd := 0, 0;
    while classInd < idx.classNb
      invariant 0 <= classInd <= idx.classNb
      invariant FindDevice(server.classes, dev, 0) == FindDevice(server.classes, dev, classInd)
    {
      ClassFound(data, idx, server, classInd);
      var found;
      DeviceNamesAt(data, idx.classesIdx[classInd], server.classes[classInd], ClassPos(server, classInd));
      found, devInd := FindInClass(data, idx.classesIdx[classInd], dev, server.classes[classInd]);
      if found {
        res := 0;
        return;
      }
      classInd := classInd + 1;
    }
    res := -1;
  }

  /** `get_obj_prop`: completes a reply of which the name is there. */
  method GetObjProp(data: seq<string>, name: string, inParam: seq<string>, obj: PropEltIdx, devProp: bool, ghost b: Owner, ghost pos: int)
      returns (ret: seq<string>)
    requires |inParam| > 0 && OwnerIndexed(data, obj, b, pos)
    ensures ret == PropertyReply(name, b.props, inParam[1..], devProp)
  {
    hide OwnerIndexed, PropsIndexed, At, Flat, Dec, FlatEntry, EntryFor;
    ret := [name, ""];
    var foundProp := 0;
    var nbWantedProp := |inParam| - 1;
    ghost var es := EntriesFor(b.props, inParam[1..], devProp);
    FlatEmpty(FlatEntry);
    assert es[..0] == [];
    for loop := 0 to nbWantedProp
      invariant foundProp == loop
      invariant ret == [name, ""] + Flat(FlatEntry, es[..loop])
    {
      var item := PropItem(data, inParam[loop + 1], obj, devProp, b, pos);
      ret := ret + item;
      foundProp := foundProp + 1;
      assert es[loop] == EntryFor(b.props, inParam[loop + 1], devProp);
      FlatSnoc(FlatEntry, es[..loop], es[loop]);
      assert es[..loop + 1] == es[..loop] + [es[loop]];
      assert ret == [name, ""] + (Flat(FlatEntry, es[..loop]) + item);
    }
    assert es[..nbWantedProp] == es;
    ret := ret[1 := Dec(foundProp)];
    assert ret == [name, Dec(|inParam[1..]|)] + Flat(FlatEntry, es);
  }

  // ----- the queries, on the list and its index -----

  method ClassProperty(data: seq<string>, idx: CacheIdx, inParam: seq<string>, ghost server: ServerData) returns (r: Result<seq<string>>)
    requires Indexed(data, idx, server) && |inParam| > 0
    ensures r == ClassPropertyAnswer(server, inParam)
  {
    hide Indexed, ServerData.Start, ServerData.ReleaseNumber, SameName, FindNamed, FindDevice, IsAdminDevice;
    hide OwnerIndexed, BlockIndexed, DeviceIndexed, PipesIndexed, ClassPos, DevicePos, PartStart;
    hide PropertyReply, AttributeReply, FlatOwner, FlatBlock, ServerData.Valid;
    ObjectsFound(data, idx, server);
    var ret;
    if SameName(inParam[0], "DServer") {
      ret := GetObjProp(data, "DServer", inParam, idx.dserverClassProp, false, server.dserver, server.Start(DSERVER_PART));
    } else if SameName(inParam[0], "Default") {
      ret := GetObjProp(data, "Default", inParam, idx.defaultProp, false, server.default, server.Start(DEFAULT_PART));
    } else {
      var c := FindClass(data, idx, inParam[0], server);
      if c == -1 {
        return Err(ClassNotFoundInCache);
      }
      ClassBlocks(data, idx, server, c);
      ret := GetObjProp(data, inParam[0], inParam, idx.classesIdx[c].class_prop, false, server.classes[c].props,
                        ClassPos(server, c) + PartStart(server.classes[c], 0));
    }
    r := Ok(ret);
  }

  method DeviceProperty(data: seq<string>, idx: CacheIdx, inParam: seq<string>, ghost server: ServerData) returns (r: Result<seq<string>>)
    requires Indexed(data, idx, server) && |inParam| > 0
    ensures r == DevicePropertyAnswer(server, inParam)
  {
    hide Indexed, ServerData.Start, ServerData.ReleaseNumber, SameName, FindNamed, FindDevice, IsAdminDevice;
    hide OwnerIndexed, BlockIndexed, DeviceIndexed, PipesIndexed, ClassPos, DevicePos, PartStart;
    hide PropertyReply, AttributeReply, FlatOwner, FlatBlock, ServerData.Valid;
    ObjectsFound(data, idx, server);
    var ret;
    if IsAdminDevice(inParam[0]) {
      ret := GetObjProp(data, inParam[0], inParam, idx.admDevProp, true, server.adminDevice, server.Start(ADMIN_DEVICE_PART));
    } else {
      var res, c, k := FindDevAtt(data, idx, inParam[0], server);
      if res == -1 {
        return Err(DeviceNotFoundInCache);
      }
      DeviceBlocks(data, idx, server, c, k);
      ret := GetObjProp(data, inParam[0], inParam, idx.classesIdx[c].devs_idx[k].dev_prop, true,
                        server.classes[c].devs[k].props, DevicePos(server, c, k));
    }
    r := Ok(ret);
  }

  method ObjectProperty(data: seq<string>, idx: CacheIdx, inParam: seq<string>, ghost server: ServerData) returns (r: Result<seq<string>>)
    requires Indexed(data, idx, server) && |inParam| > 0
    ensures r == ObjectPropertyAnswer(server, inParam)
  {
    ObjectsFound(data, idx, server);
    OwnerAt(data, server.Start(CONTROL_PART), server.control);
    assert idx.ctrlServProp.first_idx == server.Start(CONTROL_PART);
    hide Indexed, ServerData.Start, ServerData.ReleaseNumber, SameName, FindNamed, FindDevice, IsAdminDevice;
    hide OwnerIndexed, BlockIndexed, DeviceIndexed, PipesIndexed, ClassPos, DevicePos, PartStart;
    hide PropertyReply, AttributeReply, FlatOwner, FlatBlock, ServerData.Valid;
    if !SameName(data[idx.ctrlServProp.first_idx], inParam[0]) {
      return Err(DeviceNotFoundInCache);
    }
    var ret := GetObjProp(data, inParam[0], inParam, idx.ctrlServProp, true, server.control, server.Start(CONTROL_PART));
    r := Ok(ret);
  }

  method ClassAttProperty(data: seq<string>, idx: CacheIdx, inParam: seq<string>, ghost server: ServerData) returns (r: Result<seq<string>>)
    requires Indexed(data, idx, server) && |inParam| > 0
    ensures r == ClassAttributeAnswer(server, inParam)
  {
    hide Indexed, ServerData.Start, ServerData.ReleaseNumber, SameName, FindNamed, FindDevice, IsAdminDevice;
    hide OwnerIndexed, BlockIndexed, DeviceIndexed, PipesIndexed, ClassPos, DevicePos, PartStart;
    hide PropertyReply, AttributeReply, FlatOwner, FlatBlock, ServerData.Valid;
    var c := FindClass(data, idx, inParam[0], server);
    if c == -1 {
      return Err(ClassNotFoundInCache);
    }
    ClassBlocks(data, idx, server, c);
    var ret := OwnersReply(data, inParam, idx.classesIdx[c].class_att_prop, server.classes[c].atts,
                           ClassPos(server, c) + PartStart(server.classes[c], 1));
    r := Ok(ret);
  }

  method DeviceAttProperty(data: seq<string>, idx: CacheIdx, inParam: seq<string>, ghost server: ServerData) returns (r: Result<seq<string>>)
    requires Indexed(data, idx, server) && |inParam| > 0
    ensures r == DeviceAttributeAnswer(server, inParam)
  {
    hide Indexed, ServerData.Start, ServerData.ReleaseNumber, SameName, FindNamed, FindDevice, IsAdminDevice;
    hide OwnerIndexed, BlockIndexed, DeviceIndexed, PipesIndexed, ClassPos, DevicePos, PartStart;
    hide PropertyReply, AttributeReply, FlatOwner, FlatBlock, ServerData.Valid;
    var res, c, k := FindDevAtt(data, idx, inParam[0], server);
    if res != -1 {
      DeviceBlocks(data, idx, server, c, k);
      var ret := OwnersReply(data, inParam, idx.classesIdx[c].devs_idx[k].dev_att_prop, server.classes[c].devs[k].atts,
                             DevicePos(server, c, k) + |FlatOwner(server.classes[c].devs[k].props)|);
      r := Ok(ret);
    } else if !IsAdminDevice(inParam[0]) {
      r := Err(DeviceNotFoundInCache);
    } else {
      r := Ok([inParam[0], "0"]);
    }
  }

  method ClassPipeProperty(data: seq<string>, idx: CacheIdx, inParam: seq<string>, ghost server: ServerData) returns (r: Result<seq<string>>)
    requires server.Valid() && Indexed(data, idx, server) && |inParam| > 0
    ensures r == ClassPipeAnswer(server, inParam)
  {
    hide Indexed, ServerData.Start, ServerData.ReleaseNumber, SameName, FindNamed, FindDevice, IsAdminDevice;
    hide OwnerIndexed, BlockIndexed, DeviceIndexed, PipesIndexed, ClassPos, DevicePos, PartStart;
    hide PropertyReply, AttributeReply, FlatOwner, FlatBlock, ServerData.Valid;
    ObjectsFound(data, idx, server);
    if idx.procRelease < 109 {
      return Err(TooOldStoredProc);
    }
    var c := FindClass(data, idx, inParam[0], server);
    if c == -1 {
      return Err(ClassNotFoundInCache);
    }
    ClassBlocks(data, idx, server, c);
    PipesPresent(server, c);
    PipesFound(data, idx.classesIdx[c].class_pipe_prop, server.classes[c].pipes, ClassPos(server, c) + PartStart(server.classes[c], 2));
    var ret := OwnersReply(data, inParam, idx.classesIdx[c].class_pipe_prop.value, server.classes[c].pipes.value,
                           ClassPos(server, c) + PartStart(server.classes[c], 2));
    r := Ok(ret);
  }

  method DevicePipeProperty(data: seq<string>, idx: CacheIdx, inParam: seq<string>, ghost server: ServerData) returns (r: Result<seq<string>>)
    requires server.Valid() && Indexed(data, idx, server) && |inParam| > 0
    ensures r == DevicePipeAnswer(server, inParam)
  {
    hide Indexed, ServerData.Start, ServerData.ReleaseNumber, SameName, FindNamed, FindDevice, IsAdminDevice;
    hide OwnerIndexed, BlockIndexed, DeviceIndexed, PipesIndexed, ClassPos, DevicePos, PartStart;
    hide PropertyReply, AttributeReply, FlatOwner, FlatBlock, ServerData.Valid;
    ObjectsFound(data, idx, server);
    if idx.procRelease < 109 {
      return Err(TooOldStoredProc);
    }
    var res, c, k := FindDevAtt(data, idx, inParam[0], server);
    if res != -1 {
      DeviceBlocks(data, idx, server, c, k);
      PipesPresent(server, c);
      ghost var d := server.classes[c].devs[k];
      PipesFound(data, idx.classesIdx[c].devs_idx[k].dev_pipe_prop, d.pipes, DevicePos(server, c, k) + |FlatOwner(d.props)| + |FlatBlock(d.atts)|);
      var ret := OwnersReply(data, inParam, idx.classesIdx[c].devs_idx[k].dev_pipe_prop.value, d.pipes.value,
                             DevicePos(server, c, k) + |FlatOwner(d.props)| + |FlatBlock(d.atts)|);
      r := Ok(ret);
    } else if !IsAdminDevice(inParam[0]) {
      r := Err(DeviceNotFoundInCache);
    } else {
      r := Ok([inParam[0], "0"]);
    }
  }

  lemma {:induction false} PipesPresent(sd: ServerData, c: nat)
    requires sd.Valid() && sd.HasPipes() && c < |sd.classes|
    ensures sd.classes[c].pipes.Some?
    ensures forall k | 0 <= k < |sd.classes[c].devs| :: sd.classes[c].devs[k].pipes.Some?
  {
    assert sd.ValidClass(sd.classes[c]);
  }

  lemma {:induction false} PipesFound(data: seq<string>, a: Option<AttPropEltIdx>, b: Option<OwnerBlock>, lo: int)
    requires PipesIndexed(data, a, b, lo) && b.Some?
    ensures a.Some? && BlockIndexed(data, a.value, b.value, lo)
  {
  }

  method DeviceList(data: seq<string>, idx: CacheIdx, inParam: seq<string>, ghost server: ServerData) returns (r: seq<string>)
    requires Indexed(data, idx, server) && |inParam| > 1
    ensures r == DeviceListAnswer(server, inParam[1])
  {
    hide Indexed, ClassIndexed, ClassPos, FindNamed, Flat;
    var c := FindClass(data, idx, inParam[1], server);
    r := [];
    if c != -1 {
      ClassFound(data, idx, server, c);
      ghost var devs := server.classes[c].devs;
      DeviceNamesAt(data, idx.classesIdx[c], server.classes[c], ClassPos(server, c));
      DeviceNames(devs);
      for loop := 0 to idx.classesIdx[c].dev_nb
        invariant r == Flat(DeviceName, devs)[..loop]
      {
        r := r + [data[idx.classesIdx[c].dev_list.first_idx + 2 + loop]];
      }
      assert Flat(DeviceName, devs)[..|devs|] == Flat(DeviceName, devs);
    }
  }
}
