/** The other answers of `DbServerCache`: import data of devices and event channels, and the listing of
    property names by a wildcard. */
module CacheImports {
  import opened Text
  import opened Letters
  import opened Layout
  import opened Wire
  import opened ServerData
  import opened CacheIndex
  import opened ServerCache

  /** A `DevVarLongStringArray` with import data. */
  datatype ImportData = ImportData(lvalue: seq<int>, svalue: seq<string>)

  // ----- import data, from the structured content -----

  function AdminImport(sd: ServerData): ImportData
    requires |sd.admin| == 8
  {
    ImportData([Atoi(sd.admin[5]), Atoi(sd.admin[7])], sd.admin[..5])
  }

  /** The import data of an event channel: five strings are reserved, four are set. */
  function EventImport(e: EventBlock): Result<ImportData>
    requires ValidEvent(e)
  {
    match e
    case Missing(_) => Err(EventNotDefined)
    case Present(items) => Ok(ImportData([Atoi(items[4]), Atoi(items[5])], items[..4] + [""]))
  }

  function TacImport(t: TacBlock, dev: string): Result<ImportData>
    requires ValidTac(t)
  {
    match t
    case NoTac => Err(CacheAccess)
    case MissingTac(name) => if SameName(dev, name) then Err(DeviceNotDefined) else Err(CacheAccess)
    case PresentTac(items) =>
      if SameName(dev, items[0]) then Ok(ImportData([Atoi(items[5]), Atoi(items[|items| - 1])], items[..5])) else Err(CacheAccess)
  }

  // ----- what was written comes back -----

  /** The admin device: five strings, a number, a string and a number. */
  lemma {:induction false} AdminRead(sd: ServerData, svalue: seq<string>, x: nat, between: string, y: nat)
    requires |svalue| == 5 && sd.admin == svalue + [Dec(x), between, Dec(y)]
    ensures AdminImport(sd) == ImportData([x, y], svalue)
  {
    hide Dec, Atoi;
    AtoiDec(x);
    AtoiDec(y);
    assert sd.admin[..5] == svalue;
  }

  /** An event channel: four strings and two numbers. */
  lemma {:induction false} EventRead(svalue: seq<string>, x: nat, y: nat)
    requires |svalue| == 4 && svalue[1] != NOT_FOUND
    ensures EventImport(Present(svalue + [Dec(x), Dec(y)])) == Ok(ImportData([x, y], svalue + [""]))
  {
    hide Dec, Atoi;
    AtoiDec(x);
    AtoiDec(y);
    assert (svalue + [Dec(x), Dec(y)])[..4] == svalue;
  }

  /** No access control device, or one of another name: no access to the cache; one that is not defined. */
  lemma {:induction false} TacAbsent(dev: string, name: string)
    ensures TacImport(NoTac, dev) == Err(CacheAccess)
    ensures TacImport(MissingTac(name), dev) == Err(if SpeltAlike(dev, name) then DeviceNotDefined else CacheAccess)
  {
    hide SpeltAlike, SameName;
    SameNameExact(dev, name);
  }

  /** The access control device, asked for by its name in any case: five strings, a number, anything, and
      a number at the end. */
  lemma {:induction false} TacRead(dev: string, svalue: seq<string>, x: nat, between: seq<string>, y: nat)
    requires |svalue| == 5 && svalue[1] != NOT_FOUND
    ensures TacImport(PresentTac(svalue + [Dec(x)] + between + [Dec(y)]), dev)
         == if SpeltAlike(dev, svalue[0]) then Ok(ImportData([x, y], svalue)) else Err(CacheAccess)
  {
    hide Dec, Atoi, SpeltAlike, Lower;
    AtoiDec(x);
    AtoiDec(y);
    SameNameExact(dev, svalue[0]);
    var items := svalue + [Dec(x)] + between + [Dec(y)];
    assert items[..5] == svalue && items[5] == Dec(x) && items[|items| - 1] == Dec(y);
  }

  // ----- import data, from the list and its index -----

  /** The strings from `first` on are those of `block`, whose last one stands at `last`. */
  predicate Shows(data: seq<string>, first: int, last: int, block: seq<string>) {
    0 <= first && last == first + |block| - 1 < |data| && forall j | 0 <= j < |block| :: data[first + j] == block[j]
  }

  lemma {:induction false} PartShown(data: seq<string>, sd: ServerData, k: nat)
    requires data == sd.Flatten() && k < 11
    ensures Shows(data, sd.Start(k), sd.Start(k) + |sd.Parts()[k]| - 1, sd.Parts()[k])
  {
    hide ServerData.Flatten, ServerData.Start, ServerData.Parts;
    PartAt(sd, k);
    AtIndex(data, sd.Start(k), sd.Parts()[k]);
  }

  lemma {:induction false} ImportParts(sd: ServerData)
    ensures sd.Parts()[ADMIN_PART] == sd.admin && sd.Parts()[NOTIFD_PART] == FlatEvent(sd.notifd)
    ensures sd.Parts()[ADMIN_EVENT_PART] == FlatEvent(sd.adminEvent) && sd.Parts()[TAC_PART] == FlatTac(sd.tac)
  {
  }

  lemma {:induction false} ImportsShown(data: seq<string>, x: CacheIdx, sd: ServerData)
    requires sd.Valid() && data == sd.Flatten() && Indexed(data, x, sd)
    ensures Shows(data, x.impAdm.first_idx, x.impAdm.last_idx, sd.admin) && |sd.admin| == 8
    ensures Shows(data, x.impNotifdEvent.first_idx, x.impNotifdEvent.last_idx, FlatEvent(sd.notifd)) && ValidEvent(sd.notifd)
    ensures Shows(data, x.impAdmEvent.first_idx, x.impAdmEvent.last_idx, FlatEvent(sd.adminEvent)) && ValidEvent(sd.adminEvent)
    ensures 0 <= x.impTac.first_idx && x.impTac.last_idx == |data| && Shows(data, x.impTac.first_idx, |data| - 1, FlatTac(sd.tac))
    ensures ValidTac(sd.tac)
  {
    hide ServerData.Flatten, ServerData.Start, ServerData.Parts, ServerData.ReleaseNumber;
    hide OwnerIndexed, ClassesIndexed, FlatEvent, FlatTac, ValidEvent, ValidTac, Shows;
    ImportParts(sd);
    PartShown(data, sd, ADMIN_PART);
    PartShown(data, sd, NOTIFD_PART);
    PartShown(data, sd, ADMIN_EVENT_PART);
    PartShown(data, sd, TAC_PART);
    PartAt(sd, TAC_PART);
  }

  /** The copying loop shared by the import functions. */
  method CopyStrings(data: seq<string>, first: int, n: nat, ghost block: seq<string>) returns (svalue: seq<string>)
    requires n <= |block| && Shows(data, first, first + |block| - 1, block)
    ensures svalue == block[..n]
  {
    svalue := [];
    for loop := 0 to n
      invariant svalue == block[..loop]
    {
      svalue := svalue + [data[first + loop]];
    }
  }

  method ImportAdmDev(data: seq<string>, idx: CacheIdx, ghost sd: ServerData) returns (r: Result<ImportData>)
    requires sd.Valid() && data == sd.Flatten() && Indexed(data, idx, sd)
    ensures r == Ok(AdminImport(sd))
  {
    hide Indexed, ServerData.Valid, ServerData.Flatten, Atoi;
    ImportsShown(data, idx, sd);
    var lastIndex := if idx.procRelease >= 109 then 2 else 1;
    if idx.impAdm.last_idx == lastIndex {
      return Err(EventNotDefined);
    }
    var lvalue := [Atoi(data[idx.impAdm.first_idx + 5]), Atoi(data[idx.impAdm.last_idx])];
    var svalue := CopyStrings(data, idx.impAdm.first_idx, 5, sd.admin);
    r := Ok(ImportData(lvalue, svalue));
  }

  method ImportNotifdEvent(data: seq<string>, idx: CacheIdx, ghost sd: ServerData) returns (r: Result<ImportData>)
    requires sd.Valid() && data == sd.Flatten() && Indexed(data, idx, sd)
    ensures r == EventImport(sd.notifd)
  {
    hide Indexed, ServerData.Valid, ServerData.Flatten, Atoi;
    ImportsShown(data, idx, sd);
    if idx.impNotifdEvent.last_idx == idx.impNotifdEvent.first_idx + 1 {
      return Err(EventNotDefined);
    }
    var lvalue := [Atoi(data[idx.impNotifdEvent.first_idx + 4]), Atoi(data[idx.impNotifdEvent.last_idx])];
    var svalue := CopyStrings(data, idx.impNotifdEvent.first_idx, 4, FlatEvent(sd.notifd));
    r := Ok(ImportData(lvalue, svalue + [""]));
  }

  /** The last string of the notification daemon's block. */
  function LastOfNotifd(sd: ServerData): string
    requires ValidEvent(sd.notifd)
  {
    FlatEvent(sd.notifd)[|FlatEvent(sd.notifd)| - 1]
  }

  /** What `import_adm_event` returns: its second number is taken from the block of the notification
      daemon, not from the block of the server's own event channel. */
  function AdminEventImport(sd: ServerData): Result<ImportData>
    requires ValidEvent(sd.notifd) && ValidEvent(sd.adminEvent)
  {
    match sd.adminEvent
    case Missing(_) => Err(EventNotDefined)
    case Present(items) => Ok(ImportData([Atoi(items[4]), Atoi(LastOfNotifd(sd))], items[..4] + [""]))
  }

  method ImportAdmEvent(data: seq<string>, idx: CacheIdx, ghost sd: ServerData) returns (r: Result<ImportData>)
    requires sd.Valid() && data == sd.Flatten() && Indexed(data, idx, sd)
    ensures r == AdminEventImport(sd)
  {
    hide Indexed, ServerData.Valid, ServerData.Flatten, Atoi;
    ImportsShown(data, idx, sd);
    if idx.impAdmEvent.last_idx == idx.impAdmEvent.first_idx + 1 {
      return Err(EventNotDefined);
    }
    var lvalue := [Atoi(data[idx.impAdmEvent.first_idx + 4]), Atoi(data[idx.impNotifdEvent.last_idx])];
    var svalue := CopyStrings(data, idx.impAdmEvent.first_idx, 4, FlatEvent(sd.adminEvent));
    r := Ok(ImportData(lvalue, svalue + [""]));
  }

  /** The cached import data of the server's event channel are right exactly when that channel is unknown,
      or its last number happens to be that of the notification daemon's block. */
  lemma {:induction false} AdminEventRight(sd: ServerData)
    requires ValidEvent(sd.notifd) && ValidEvent(sd.adminEvent)
    ensures AdminEventImport(sd) == EventImport(sd.adminEvent)
            <==> sd.adminEvent.Missing? || Atoi(LastOfNotifd(sd)) == Atoi(sd.adminEvent.items[5])
  {
    hide Atoi;
    if sd.adminEvent.Present? && AdminEventImport(sd) == EventImport(sd.adminEvent) {
      assert AdminEventImport(sd).value.lvalue[1] == EventImport(sd.adminEvent).value.lvalue[1];
    }
  }

  /** They are wrong as soon as no notification daemon runs on the host and the channel's number is not 0. */
  lemma {:induction false} AdminEventWrong(sd: ServerData)
    requires sd.notifd.Missing? && ValidEvent(sd.adminEvent)
    requires sd.adminEvent.Present? && Atoi(sd.adminEvent.items[5]) != 0
    ensures AdminEventImport(sd) != EventImport(sd.adminEvent)
  {
    AdminEventRight(sd);
    assert NOT_FOUND[0] == 'N';
    assert LastOfNotifd(sd) == NOT_FOUND && Atoi(NOT_FOUND) == 0;
  }

  method ImportTacDev(data: seq<string>, idx: CacheIdx, dev: string, ghost sd: ServerData) returns (r: Result<ImportData>)
    requires sd.Valid() && data == sd.Flatten() && Indexed(data, idx, sd)
    ensures r == TacImport(sd.tac, dev)
  {
    hide Indexed, ServerData.Valid, ServerData.Flatten, Atoi;
    ImportsShown(data, idx, sd);
    var first, last := idx.impTac.first_idx, idx.impTac.last_idx;
    if last == -1 || first >= |data| {
      return Err(CacheAccess);
    }
    ghost var block := FlatTac(sd.tac);
    assert data[first + 0] == block[0] && data[first + 1] == block[1];
    if |dev| != |data[first]| {
      assert |Lower(dev)| != |Lower(data[first])|;
      return Err(CacheAccess);
    }
    if Lower(dev) != Lower(data[first]) {
      return Err(CacheAccess);
    }
    if data[first + 1] == NOT_FOUND {
      return Err(DeviceNotDefined);
    }
    assert data[first + (|block| - 1)] == block[|block| - 1];
    var lvalue := [Atoi(data[first + 5]), Atoi(data[last - 1])];
    var svalue := CopyStrings(data, first, 5, block);
    r := Ok(ImportData(lvalue, svalue));
  }

  // ----- listing by a wildcard -----

  predicate Prefix(s: string, p: string) {
    |p| <= |s| && s[..|p|] == p
  }

  predicate Suffix(s: string, p: string) {
    |p| <= |s| && s[|s| - |p|..] == p
  }

  /** The meaning of a wildcard: the text before the first '*' starts the name and the text behind it ends
      the name; the two may overlap. Without '*' the name is the wildcard. Case does not matter. */
  predicate Matches(wildcard: string, name: string) {
    var w, n := Lower(wildcard), Lower(name);
    var pos := FindChar(w, '*', 0);
    if pos == -1 then n == w else Prefix(n, w[..pos]) && Suffix(n, w[pos + 1..])
  }

  /** The same letter by letter: around the first '*', or on the whole name. */
  lemma {:induction false} MatchesExact(wildcard: string, name: string, before: string, after: string)
    ensures '*' !in wildcard ==> (Matches(wildcard, name) <==> SpeltAlike(name, wildcard))
    ensures '*' !in before && wildcard == before + "*" + after ==>
              (Matches(wildcard, name) <==>
                && |before| <= |name| && SpeltAlike(name[..|before|], before)
                && |after| <= |name| && SpeltAlike(name[|name| - |after|..], after))
  {
    StarKept(wildcard);
    SameNameExact(name, wildcard);
    hide SpeltAlike, Lower, Prefix, Suffix;
    if '*' !in before && wildcard == before + "*" + after {
      StarFound(before, after);
      PrefixSpelt(name, before);
      SuffixSpelt(name, after);
    }
  }

  lemma {:induction false} StarFound(before: string, after: string)
    requires '*' !in before
    ensures var w := Lower(before + "*" + after);
            FindChar(w, '*', 0) == |before| && w[..|before|] == Lower(before) && w[|before| + 1..] == Lower(after)
  {
    LowerConcat(before + "*", after);
    LowerConcat(before, "*");
    assert Lower("*") == "*";
    StarKept(before);
    hide Lower;
    var w := Lower(before) + "*" + Lower(after);
    assert w[|before|] == '*';
    assert forall k | 0 <= k < |before| :: w[k] == Lower(before)[k];
  }

  lemma {:induction false} PrefixSpelt(name: string, before: string)
    ensures Prefix(Lower(name), Lower(before)) <==> |before| <= |name| && SpeltAlike(name[..|before|], before)
  {
    hide SpeltAlike;
    if |before| <= |name| {
      SameNameExact(name[..|before|], before);
      assert Lower(name)[..|before|] == Lower(name[..|before|]);
    }
  }

  lemma {:induction false} SuffixSpelt(name: string, after: string)
    ensures Suffix(Lower(name), Lower(after)) <==> |after| <= |name| && SpeltAlike(name[|name| - |after|..], after)
  {
    hide SpeltAlike;
    if |after| <= |name| {
      SameNameExact(name[|name| - |after|..], after);
      assert Lower(name)[|name| - |after|..] == Lower(name[|name| - |after|..]);
    }
  }

  lemma {:induction false} StarKept(s: string)
    ensures '*' in Lower(s) <==> '*' in s
  {
    forall i | 0 <= i < |s| ensures Lower(s)[i] == '*' <==> s[i] == '*' {
    }
  }

  /** The names listed are those of the properties that match. */
  lemma {:induction false} ListedExact(props: seq<DbDatum>, wildcard: string, n: string)
    ensures n in Listed(props, wildcard) <==> Matches(wildcard, n) && exists i | 0 <= i < |props| :: props[i].name == n
    decreases |props|
  {
    hide Matches;
    if props != [] {
      ListedExact(props[1..], wildcard, n);
      assert forall i | 0 <= i < |props| - 1 :: props[1..][i] == props[i + 1];
      if i :| 0 <= i < |props| && props[i].name == n {
        assert i > 0 ==> props[1..][i - 1].name == n;
      }
      assert props[0].name == n ==> exists i | 0 <= i < |props| :: props[i].name == n;
    }
  }

  function Listed(props: seq<DbDatum>, wildcard: string): seq<string> {
    if props == [] then []
    else (if Matches(wildcard, props[0].name) then [props[0].name] else []) + Listed(props[1..], wildcard)
  }

  lemma {:induction false} ListedSnoc(props: seq<DbDatum>, p: DbDatum, wildcard: string)
    ensures Listed(props + [p], wildcard)
         == Listed(props, wildcard) + if Matches(wildcard, p.name) then [p.name] else []
    decreases |props|
  {
    hide Matches;
    if props != [] {
      assert (props + [p])[0] == props[0] && (props + [p])[1..] == props[1..] + [p];
      ListedSnoc(props[1..], p, wildcard);
    } else {
      assert [p][1..] == [];
    }
  }

  /** `find` answers 0 exactly for a prefix. */
  lemma {:induction false} FindPrefix(s: string, p: string)
    ensures Find(s, p, 0) == 0 <==> Prefix(s, p)
  {
    assert OccursAt(s, p, 0) <==> Prefix(s, p);
  }

  /** `rfind` answers the last possible position exactly for a suffix. */
  lemma {:induction false} RFindSuffix(s: string, p: string)
    ensures var r := RFind(s, p, |s|); r != -1 && r == |s| - |p| <==> Suffix(s, p)
  {
    var r := RFind(s, p, |s|);
    if |p| <= |s| {
      assert OccursAt(s, p, |s| - |p|) <==> Suffix(s, p);
    }
    if Suffix(s, p) {
      assert r != -1;
      assert r >= |s| - |p|;
    }
  }

  /** The test of `get_obj_prop_list` on one name, branch by branch. */
  method Selected(wildcard: string, name: string) returns (store: bool)
    ensures store <==> Matches(wildcard, name)
  {
    var before, after, wildcardUsed := false, false, false;
    var beforeStr, afterStr := "", "";
    var w := Lower(wildcard);
    var pos := FindChar(w, '*', 0);
    if pos != -1 {
      wildcardUsed := true;
      if pos == 0 {
        if |w| != 1 {
          after := true;
          afterStr := w[pos + 1..];
        }
      } else {
        before := true;
        beforeStr := w[..pos];
        if pos != |w| - 1 {
          after := true;
          afterStr := w[pos + 1..];
        }
      }
    }

    store := false;
    var tmpName := Lower(name);
    FindPrefix(tmpName, beforeStr);
    RFindSuffix(tmpName, afterStr);
    hide Lower, FindChar, Find, RFind;
    if wildcardUsed {
      if !before {
        if !after {
          store := true;
        } else {
          var posAfter := RFind(tmpName, afterStr, |tmpName|);
          store := posAfter != -1 && posAfter == |tmpName| - |afterStr|;
        }
      } else {
        var posBefore := Find(tmpName, beforeStr, 0);
        if !after {
          store := posBefore != -1 && posBefore == 0;
        } else {
          var posAfter := RFind(tmpName, afterStr, |tmpName|);
          store := posBefore != -1 && posBefore == 0 && posAfter != -1 && posAfter == |tmpName| - |afterStr|;
        }
      }
    } else {
      store := tmpName == w;
    }
  }

  /** `get_obj_prop_list`: the stored names the wildcard selects, in the order of the list. */
  method GetObjPropList(data: seq<string>, wildcard: string, obj: PropEltIdx, ghost b: Owner, ghost pos: int) returns (ret: seq<string>)
    requires OwnerIndexed(data, obj, b, pos)
    ensures ret == Listed(b.props, wildcard)
  {
    hide PropsIndexed, At, Flat, Matches;
    ret := [];
    var lo := 0;
    ghost var k := 0;
    while lo < obj.prop_nb * 2
      invariant 0 <= k <= |b.props| && lo == 2 * k
      invariant ret == Listed(b.props[..k], wildcard)
    {
      PropIndexPoints(data, obj, b, pos, k);
      var store := Selected(wildcard, data[obj.props_idx[lo]]);
      if store {
        ret := ret + [data[obj.props_idx[lo]]];
      }
      ListedSnoc(b.props[..k], b.props[k], wildcard);
      assert b.props[..k + 1] == b.props[..k] + [b.props[k]];
      lo := lo + 2;
      k := k + 1;
    }
    assert b.props[..|b.props|] == b.props;
  }

  /** The property names of a device that a wildcard selects. */
  function PropertyListAnswer(sd: ServerData, dev: string, wildcard: string): Result<seq<string>> {
    if IsAdminDevice(dev) then Ok(Listed(sd.adminDevice.props, wildcard))
    else
      match FindDevice(sd.classes, dev, 0)
      case None => Err(DeviceNotFoundInCache)
      case Some((c, k)) => Ok(Listed(sd.classes[c].devs[k].props.props, wildcard))
  }

  method GetDevicePropertyList(data: seq<string>, idx: CacheIdx, inParam: seq<string>, ghost sd: ServerData) returns (r: Result<seq<string>>)
    requires Indexed(data, idx, sd) && |inParam| > 1
    ensures r == PropertyListAnswer(sd, inParam[0], inParam[1])
  {
    hide Indexed, ServerData.Start, FindDevice, IsAdminDevice, OwnerIndexed, BlockIndexed, PipesIndexed, DevicePos;
    hide FlatOwner, Listed;
    ObjectsFound(data, idx, sd);
    var ret;
    if IsAdminDevice(inParam[0]) {
      ret := GetObjPropList(data, inParam[1], idx.admDevProp, sd.adminDevice, sd.Start(ADMIN_DEVICE_PART));
    } else {
      var res, c, k := FindDevAtt(data, idx, inParam[0], sd);
      if res == -1 {
        return Err(DeviceNotFoundInCache);
      }
      DeviceBlocks(data, idx, sd, c, k);
      ret := GetObjPropList(data, inParam[1], idx.classesIdx[c].devs_idx[k].dev_prop,
                            sd.classes[c].devs[k].props, DevicePos(sd, c, k));
    }
    r := Ok(ret);
  }
}
