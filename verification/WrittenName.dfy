/** Every well-written attribute name parses back to the parts it was written from. */
module WrittenName {
  import opened Text
  import opened Dotted
  import opened AttributeName

  // ----- written names -----

  /** The parts a name is written from: `device` holds the three fields of a device, one device alias, or
      nothing when `attr` is an attribute alias. */
  datatype Written = Written(prefix: string, place: Option<(string, string)>, device: seq<string>, attr: string, modifier: string)

  function PlaceText(place: Option<(string, string)>): string {
    if place.None? then "" else place.value.0 + ":" + place.value.1 + "/"
  }

  function Body(w: Written): string {
    Join(w.device + [w.attr], '/')
  }

  function WrittenText(w: Written): string {
    w.prefix + (PlaceText(w.place) + Body(w)) + w.modifier
  }

  predicate Clean(field: string) {
    field != "" && '/' !in field && ':' !in field && '#' !in field
  }

  predicate CleanPlace(place: Option<(string, string)>) {
    place.Some? ==> Clean(place.value.0) && Clean(place.value.1)
  }

  /** Prefix and modifier may be in any case. */
  predicate WellWritten(w: Written) {
    && (w.prefix == "" || w.prefix == "//" || SameName(w.prefix, "tango://"))
    && CleanPlace(w.place)
    && (|w.device| == 0 || |w.device| == 1 || |w.device| == 3)
    && (forall f | f in w.device :: Clean(f))
    && Clean(w.attr) && (w.device == [] ==> Find(Lower(w.attr), "->", 0) == -1)
    && (w.modifier == "" || SameName(w.modifier, "#dbase=yes") || SameName(w.modifier, "#dbase=no"))
  }

  function LowerAll(fields: seq<string>): (r: seq<string>)
    ensures |r| == |fields| && forall i | 0 <= i < |r| :: r[i] == Lower(fields[i])
  {
    seq(|fields|, i requires 0 <= i < |fields| => Lower(fields[i]))
  }

  function LowerPlace(place: Option<(string, string)>): Option<(string, string)> {
    if place.None? then None else Some((Lower(place.value.0), Lower(place.value.1)))
  }

  function LowerWritten(w: Written): Written {
    Written(Lower(w.prefix), LowerPlace(w.place), LowerAll(w.device), Lower(w.attr), Lower(w.modifier))
  }

  /** What the place stands for: a device server when the database is not used, a database otherwise. */
  function AddressOf(place: Option<(string, string)>, dbaseUsed: bool): Address
    requires dbaseUsed || place.Some?
  {
    if !dbaseUsed then
      Blank.(host := place.value.0, port := place.value.1, portNum := PortNumber(place.value.1),
             dbHost := NOT_USED, dbPort := NOT_USED)
    else if place.None? then
      Blank.(dbaseUsed := true, fromEnvVar := true, host := FROM_IOR, port := FROM_IOR)
    else
      Blank.(dbaseUsed := true, host := FROM_IOR, port := FROM_IOR,
             dbHost := place.value.0, dbPort := place.value.1, dbPortNum := PortNumber(place.value.1))
  }

  /** The fields a place fills: host and port of the server without a database, of the database with one;
      what is not known is marked "IOR" or "Unused". */
  lemma {:induction false} PlaceFields(host: string, port: string)
    ensures var a := AddressOf(None, true);
            a.dbaseUsed && a.fromEnvVar && a.host == "IOR" && a.port == "IOR" && a.portNum == 0 && a.dbHost == "" && a.dbPort == ""
    ensures var a := AddressOf(Some((host, port)), true);
            && a.dbaseUsed && !a.fromEnvVar && a.host == "IOR" && a.port == "IOR" && a.portNum == 0
            && a.dbHost == host && a.dbPort == port && a.dbPortNum == PortNumber(port)
    ensures var a := AddressOf(Some((host, port)), false);
            && !a.dbaseUsed && a.host == host && a.port == port && a.portNum == PortNumber(port)
            && a.dbHost == "Unused" && a.dbPort == "Unused" && a.dbPortNum == 0
  {
    hide PortNumber;
  }

  /** What an attribute alias stands for in a database. */
  function AliasMeaning(place: Option<(string, string)>, alias: string, aliases: Aliases): Result<Address> {
    var db := if place.None? then FromEnvironment else AtHost(place.value.0, PortNumber(place.value.1));
    if (db, alias) !in aliases then Err(AliasNotDefined)
    else
      var segs := Segments(aliases[(db, alias)], '/');
      if |segs| != 4 then Err(WrongSyntax)
      else Ok(AddressOf(place, true).(deviceName := Join(segs[..3], '/'), attrName := segs[3]))
  }

  /** What a well-written name stands for. */
  function Meaning(w: Written, aliases: Aliases): Result<Address> {
    var dbaseUsed := Lower(w.modifier) != "#dbase=no";
    var place := LowerPlace(w.place);
    if !dbaseUsed && (place.None? || |w.device| != 3) then Err(WrongSyntax)
    else if |w.device| == 3 then
      Ok(AddressOf(place, dbaseUsed).(deviceName := Join(LowerAll(w.device), '/'), attrName := w.attr))
    else if |w.device| == 1 then
      var alias := PlaceText(place) + Lower(w.device[0]);
      Ok(AddressOf(place, dbaseUsed).(deviceName := alias, aliasName := alias, attrName := w.attr))
    else AliasMeaning(place, Lower(w.attr), aliases)
  }

  // ----- characters the parts are free of -----

  lemma {:induction false} LowerKeeps(s: string, c: char)
    requires !('A' <= c <= 'Z') && !('a' <= c <= 'z')
    ensures c in Lower(s) <==> c in s
  {
    forall i | 0 <= i < |s| ensures Lower(s)[i] == c <==> s[i] == c {
    }
  }

  lemma {:induction false} LowerClean(field: string)
    requires Clean(field)
    ensures Clean(Lower(field))
  {
    LowerKeeps(field, '/');
    LowerKeeps(field, ':');
    LowerKeeps(field, '#');
  }

  /** The parts in lower case, with prefix and modifier in one of their forms. */
  predicate Lowered(v: Written) {
    && (v.prefix == "" || v.prefix == "//" || v.prefix == "tango://")
    && CleanPlace(v.place) && (v.place.Some? ==> v.place.value.0 != NOT_USED)
    && (|v.device| == 0 || |v.device| == 1 || |v.device| == 3)
    && (forall f | f in v.device :: Clean(f))
    && Clean(v.attr) && (v.device == [] ==> Find(v.attr, "->", 0) == -1)
    && (v.modifier == "" || v.modifier == "#dbase=yes" || v.modifier == "#dbase=no")
  }

  lemma {:induction false} LowerJoin(segs: seq<string>)
    requires segs != []
    ensures Lower(Join(segs, '/')) == Join(LowerAll(segs), '/')
    decreases |segs|
  {
    var low := LowerAll(segs);
    if |segs| > 1 {
      LowerJoin(segs[1..]);
      assert LowerAll(segs[1..]) == low[1..];
      LowerConcat(segs[0] + "/", Join(segs[1..], '/'));
      LowerConcat(segs[0], "/");
      assert Lower("/") == "/";
    }
  }

  lemma {:induction false} LowerText(w: Written)
    requires WellWritten(w)
    ensures Lower(WrittenText(w)) == WrittenText(LowerWritten(w))
    ensures Lowered(LowerWritten(w))
  {
    var v := LowerWritten(w);
    LowerFixed();
    LowerParts(w);
    if w.place.Some? {
      LowerClean(w.place.value.0);
      LowerClean(w.place.value.1);
      assert Lower(w.place.value.0)[0] != 'U';
    }
    LowerClean(w.attr);
    forall i | 0 <= i < |v.device| ensures Clean(v.device[i]) {
      assert w.device[i] in w.device;
      LowerClean(w.device[i]);
    }
  }

  lemma {:induction false} LowerFixed()
    ensures Lower("tango://") == "tango://" && Lower("//") == "//" && Lower("") == ""
    ensures Lower("#dbase=yes") == "#dbase=yes" && Lower("#dbase=no") == "#dbase=no"
  {
  }

  lemma {:induction false} LowerParts(w: Written)
    ensures Lower(WrittenText(w)) == WrittenText(LowerWritten(w))
  {
    var v := LowerWritten(w);
    LowerJoin(w.device + [w.attr]);
    assert LowerAll(w.device + [w.attr]) == v.device + [v.attr];
    assert Lower(PlaceText(w.place)) == PlaceText(v.place);
    hide Lower, Join, PlaceText;
    LowerConcat(PlaceText(w.place), Body(w));
    LowerConcat(w.prefix, PlaceText(w.place) + Body(w));
    LowerConcat(w.prefix + (PlaceText(w.place) + Body(w)), w.modifier);
  }

  lemma {:induction false} JoinFree(segs: seq<string>, c: char)
    requires segs != [] && c != '/' && forall f | f in segs :: c !in f
    ensures c !in Join(segs, '/')
    decreases |segs|
  {
    if |segs| > 1 {
      JoinFree(segs[1..], c);
    }
  }

  lemma {:induction false} JoinHead(segs: seq<string>)
    requires segs != [] && segs[0] != ""
    ensures Join(segs, '/') != "" && Join(segs, '/')[0] == segs[0][0]
  {
  }

  lemma {:induction false} BodyFree(v: Written)
    requires Lowered(v)
    ensures ':' !in Body(v) && '#' !in Body(v) && Body(v) != "" && Body(v)[0] != '/'
  {
    var segs := v.device + [v.attr];
    assert Clean(segs[0]) by {
      assert v.device != [] ==> segs[0] in v.device;
    }
    JoinHead(segs);
    JoinFree(segs, ':');
    JoinFree(segs, '#');
  }

  // ----- the steps undo the writing -----

  /** No part of the text reads as the end of a protocol. */
  predicate NoProtocol(s: string) {
    s != "" && s[0] != '/' && forall k | 0 <= k < |s| - 1 :: s[k] == ':' ==> s[k + 1] != '/'
  }

  lemma {:induction false} SeparatorAt(s: string, k: int)
    ensures OccursAt(s, "://", k) <==> 0 <= k && k + 3 <= |s| && s[k] == ':' && s[k + 1] == '/' && s[k + 2] == '/'
  {
    if 0 <= k && k + 3 <= |s| {
      assert s[k..k + 3] == [s[k], s[k + 1], s[k + 2]];
    }
  }

  lemma {:induction false} TangoFound(rest: string)
    ensures Find("tango://" + rest, "://", 0) == 5
  {
    hide OccursAt;
    var s := "tango://" + rest;
    forall k | 0 <= k <= 5 ensures OccursAt(s, "://", k) <==> k == 5 {
      SeparatorAt(s, k);
    }
    var pos := Find(s, "://", 0);
    assert pos != -1 ==> OccursAt(s, "://", pos);
    assert OccursAt(s, "://", 5);
  }

  lemma {:induction false} ProtocolAbsent(prefix: string, rest: string)
    requires prefix == "" || prefix == "//"
    requires NoProtocol(rest)
    ensures Find(prefix + rest, "://", 0) == -1
  {
    hide OccursAt;
    var s := prefix + rest;
    forall k: int ensures !OccursAt(s, "://", k) {
      SeparatorAt(s, k);
      if |prefix| <= k && k + 3 <= |s| {
        assert s[k] == rest[k - |prefix|] && s[k + 1] == rest[k + 1 - |prefix|];
      }
    }
  }

  lemma {:induction false} ProtocolUndone(prefix: string, rest: string)
    requires prefix == "" || prefix == "//" || prefix == "tango://"
    requires NoProtocol(rest)
    ensures WithoutProtocol(prefix + rest) == Ok(rest)
  {
    hide Find;
    var s := prefix + rest;
    if prefix == "tango://" {
      TangoFound(rest);
      assert s[..5] == "tango" && s[8..] == rest;
    } else {
      ProtocolAbsent(prefix, rest);
      if prefix == "" {
        assert s == rest;
      } else {
        assert s[2..] == rest;
      }
    }
  }

  lemma {:induction false} ModifierUndone(text: string, modifier: string)
    requires modifier == "" || modifier == "#dbase=yes" || modifier == "#dbase=no"
    requires '#' !in text
    ensures WithoutModifier(text + modifier) == Ok((text, modifier != "#dbase=no"))
  {
    var s := text + modifier;
    assert forall k | 0 <= k < |text| :: s[k] == text[k];
    if modifier == "" {
      assert s == text;
    } else {
      assert s[|text|] == '#';
      assert FindChar(s, '#', 0) == |text|;
      assert s[..|text|] == text;
      assert s[|text| + 1..] == modifier[1..];
    }
  }

  /** The first colon and slash behind a written place. */
  lemma {:induction false} PlaceFound(host: string, port: string, body: string)
    requires Clean(host) && Clean(port)
    ensures var s := host + ":" + port + "/" + body; var slash := |host| + 1 + |port|;
            && FindChar(s, ':', 0) == |host| && FindChar(s, '/', 0) == slash
            && s[..|host|] == host && s[|host| + 1..slash] == port && s[slash + 1..] == body
            && FindChar(s[..slash], ':', 0) == |host|
  {
    var s, slash := host + ":" + port + "/" + body, |host| + 1 + |port|;
    assert forall k | 0 <= k < |host| :: s[k] == host[k];
    assert s[|host|] == ':';
    assert forall k | 0 <= k < |port| :: s[|host| + 1 + k] == port[k];
    forall k | |host| < k < slash ensures s[k] != '/' {
      assert s[k] == port[k - |host| - 1];
    }
    assert s[slash] == '/';
    assert s[..slash][|host|] == ':';
  }

  lemma {:induction false} NoPlaceUndone(body: string, dbaseUsed: bool)
    requires ':' !in body
    ensures Placed(body, dbaseUsed)
         == if dbaseUsed then Ok(AddressOf(None, true).(deviceName := body)) else Err(WrongSyntax)
  {
    hide Substr, PortNumber;
    var slash := FindChar(body, '/', 0);
    if slash != -1 {
      assert forall k | 0 <= k < slash :: body[..slash][k] == body[k];
      assert FindChar(body[..slash], ':', 0) == -1;
    }
  }

  lemma {:induction false} PlacedAt(s: string, host: string, port: string, body: string, dbaseUsed: bool)
    requires var slash := |host| + 1 + |port|;
             && FindChar(s, ':', 0) == |host| && FindChar(s, '/', 0) == slash
             && s[..|host|] == host && s[|host| + 1..slash] == port && s[slash + 1..] == body
             && FindChar(s[..slash], ':', 0) == |host|
    ensures Placed(s, dbaseUsed) == Ok(AddressOf(Some((host, port)), dbaseUsed).(deviceName := body))
  {
    hide FindChar, PortNumber;
    var slash := |host| + 1 + |port|;
    if dbaseUsed {
      assert s[..slash][..|host|] == host;
    } else {
      assert Substr(s, |host| + 1, |port|) == port;
    }
  }

  lemma {:induction false} SomePlaceUndone(host: string, port: string, body: string, dbaseUsed: bool)
    requires Clean(host) && Clean(port)
    ensures Placed(host + ":" + port + "/" + body, dbaseUsed)
         == Ok(AddressOf(Some((host, port)), dbaseUsed).(deviceName := body))
  {
    hide FindChar, Placed, AddressOf, Clean;
    PlaceFound(host, port, body);
    PlacedAt(host + ":" + port + "/" + body, host, port, body, dbaseUsed);
  }

  lemma {:induction false} PlaceUndone(v: Written, dbaseUsed: bool)
    requires Lowered(v)
    ensures Placed(PlaceText(v.place) + Body(v), dbaseUsed)
         == if !dbaseUsed && v.place.None? then Err(WrongSyntax) else Ok(AddressOf(v.place, dbaseUsed).(deviceName := Body(v)))
  {
    BodyFree(v);
    hide Join, FindChar, Body, Placed, AddressOf;
    var body := Body(v);
    if v.place.Some? {
      var host, port := v.place.value.0, v.place.value.1;
      SomePlaceUndone(host, port, body, dbaseUsed);
      assert v.place == Some((host, port));
      assert PlaceText(v.place) + body == host + ":" + port + "/" + body;
    } else {
      NoPlaceUndone(body, dbaseUsed);
      assert PlaceText(v.place) + body == body;
    }
  }

  lemma {:induction false} NoProtocolIn(v: Written)
    requires Lowered(v)
    ensures NoProtocol(PlaceText(v.place) + Body(v) + v.modifier)
  {
    BodyFree(v);
    hide Join, Body, NoProtocol;
    var tail := Body(v) + v.modifier;
    assert ':' !in tail && tail[0] != '/';
    if v.place.Some? {
      var host, port := v.place.value.0, v.place.value.1;
      NoProtocolBehind(host, port, tail);
      Regrouped(host, port, Body(v), v.modifier);
    } else {
      NoColon(tail);
      assert PlaceText(v.place) + Body(v) + v.modifier == tail;
    }
  }

  lemma {:induction false} NoColon(tail: string)
    requires ':' !in tail && tail != "" && tail[0] != '/'
    ensures NoProtocol(tail)
  {
  }

  lemma {:induction false} Regrouped(host: string, port: string, body: string, modifier: string)
    ensures host + ":" + port + "/" + body + modifier == host + (":" + (port + ("/" + (body + modifier))))
  {
    var a, b := host + ":" + port + "/" + body + modifier, host + (":" + (port + ("/" + (body + modifier))));
    assert a == host + ":" + port + ("/" + body + modifier);
    assert "/" + body + modifier == "/" + (body + modifier);
  }

  lemma {:induction false} NoProtocolBehind(host: string, port: string, tail: string)
    requires Clean(host) && Clean(port) && ':' !in tail
    ensures NoProtocol(host + (":" + (port + ("/" + tail))))
  {
    var s := host + (":" + (port + ("/" + tail)));
    var behind := port + ("/" + tail);
    assert ':' !in behind;
    forall k | 0 <= k < |s| - 1 ensures s[k] == ':' ==> s[k + 1] != '/' {
      if k < |host| {
        assert s[k] == host[k];
      } else if k > |host| {
        assert s[k] == behind[k - |host| - 1];
      } else {
        assert s[k + 1] == port[0];
      }
    }
    assert s[0] == host[0];
  }

  /** The end of a written body: separator and attribute name. */
  lemma {:induction false} BodyEnd(v: Written)
    requires v.device != []
    ensures Body(v) == Join(v.device, '/') + "/" + v.attr
  {
    JoinAppend(v.device, [v.attr], '/');
  }

  lemma {:induction false} LastSlash(head: string, attr: string)
    requires '/' !in attr
    ensures BehindLast(head + "/" + attr) == |head| + 1
  {
    var s := head + "/" + attr;
    assert s[|head|..][1..] == attr;
    LastSeparator(s, |head| + 1);
  }

  lemma {:induction false} FieldsUndone(v: Written)
    requires Lowered(v)
    ensures Fields(Body(v)) == Ok((|v.device|, |Body(v)| - |v.attr|))
  {
    var segs := v.device + [v.attr];
    forall g | g in segs ensures Clean(g) {
    }
    SegmentsOfJoin(segs, '/');
    hide Segments, Join, BehindLast;
    if v.device == [] {
      assert segs == [v.attr];
      JoinOne(v.attr, '/');
      LastSeparator(v.attr, 0);
    } else {
      BodyEnd(v);
      LastSlash(Join(v.device, '/'), v.attr);
    }
  }

  /** The attribute name is cut out of the name as it was given, in its own case. */
  lemma {:induction false} CaseKept(w: Written)
    requires WellWritten(w) && w.device != []
    ensures CasedAttribute(WrittenText(w)) == w.attr
  {
    BodyEnd(w);
    ModifierChars(w.modifier);
    NoHash(w);
    JoinFree(w.device, '#');
    hide Join, Lower, Body, PlaceText;
    var head := w.prefix + PlaceText(w.place) + Join(w.device, '/') + "/";
    var s := WrittenText(w);
    assert s == head + w.attr + w.modifier;
    AttributeCut(head, w.attr, w.modifier);
  }

  lemma {:induction false} ModifierChars(modifier: string)
    requires modifier == "" || SameName(modifier, "#dbase=yes") || SameName(modifier, "#dbase=no")
    ensures '/' !in modifier
    ensures modifier != "" ==> modifier[0] == '#' && '#' !in modifier[1..]
  {
    LowerFixed();
    LowerKeeps(modifier, '/');
    if modifier != "" {
      var m := Lower(modifier);
      assert m[0] == '#';
      assert '#' !in m[1..];
      LowerKeeps(modifier[1..], '#');
      assert Lower(modifier[1..]) == m[1..];
    }
  }

  lemma {:induction false} NoHash(w: Written)
    requires WellWritten(w)
    ensures '#' !in w.prefix && '#' !in PlaceText(w.place) && '#' !in Body(w)
  {
    LowerFixed();
    LowerKeeps(w.prefix, '#');
    JoinFree(w.device + [w.attr], '#');
  }

  lemma {:induction false} AttributeCut(head: string, attr: string, modifier: string)
    requires head != "" && head[|head| - 1] == '/' && '/' !in attr && '/' !in modifier && '#' !in attr && '#' !in head
    requires modifier != "" ==> modifier[0] == '#' && '#' !in modifier[1..]
    ensures CasedAttribute(head + attr + modifier) == attr
  {
    var s := head + attr + modifier;
    var mod := |head| + |attr|;
    assert s[|head|..] == attr + modifier;
    LastSeparator(s, |head|);
    assert s[|head|..mod] == attr;
    if modifier == "" {
      assert s[|head|..] == attr;
      assert '#' !in s;
    } else {
      assert s[mod] == '#';
      assert forall k | mod < k < |s| :: s[k] == modifier[1..][k - mod - 1];
      assert RFindChar(s, '#', |s| - 1) == mod;
    }
  }

  /** Where the device ends in the body and in the name with its place. */
  lemma {:induction false} DeviceCut(v: Written)
    requires Lowered(v) && v.device != []
    ensures var body := Body(v); var head, name := Join(v.device, '/'), PlaceText(v.place) + body;
            && |body| == |head| + 1 + |v.attr| && body[..|head|] == head
            && RFindChar(name, '/', |name| - 1) == |PlaceText(v.place)| + |head|
            && name[..|PlaceText(v.place)| + |head|] == PlaceText(v.place) + head
    ensures |v.device| == 1 ==> Join(v.device, '/') == v.device[0]
  {
    BodyEnd(v);
    if |v.device| == 1 {
      assert v.device == [v.device[0]];
      JoinOne(v.device[0], '/');
    }
    assert '/' !in v.attr;
    hide Join, Body, RFindChar, PlaceText, Lowered;
    var place, body, head := PlaceText(v.place), Body(v), Join(v.device, '/');
    assert body[..|head|] == head;
    var name := place + body;
    assert name == (place + head) + "/" + v.attr;
    LastSlash(place + head, v.attr);
    assert name[..|place + head|] == place + head;
  }

  lemma {:induction false} NamedUndone(v: Written, dbaseUsed: bool, cased: string)
    requires Lowered(v) && v.device != [] && (dbaseUsed || v.place.Some?)
    ensures var a := AddressOf(v.place, dbaseUsed); var body := Body(v);
            && 0 < |body| - |v.attr| <= |body|
            && Named(a.(deviceName := body), PlaceText(v.place) + body, |v.device|, |body| - |v.attr|, cased)
            == if |v.device| == 3 then Ok(a.(deviceName := Join(v.device, '/'), attrName := CasedAttribute(cased)))
               else if !dbaseUsed then Err(WrongSyntax)
               else
                 var alias := PlaceText(v.place) + v.device[0];
                 Ok(a.(deviceName := alias, aliasName := alias, attrName := CasedAttribute(cased)))
  {
    hide Join, Body, CasedAttribute, RFindChar, PortNumber, PlaceText, Lowered;
    DeviceCut(v);
    DatabaseHost(v);
    if |v.device| == 1 {
      NamedAlias(AddressOf(v.place, dbaseUsed).(deviceName := Body(v)), PlaceText(v.place) + Body(v), |Body(v)| - |v.attr|, cased);
      EmptyPlace(v.place, v.device[0]);
    }
  }

  lemma {:induction false} DatabaseHost(v: Written)
    requires Lowered(v)
    ensures v.place.Some? ==> v.place.value.0 != NOT_USED
    ensures |v.device| <= 1 || |v.device| == 3
  {
  }

  lemma {:induction false} EmptyPlace(place: Option<(string, string)>, alias: string)
    ensures place.None? ==> PlaceText(place) + alias == alias
  {
  }

  lemma {:induction false} NamedAlias(a: Address, name: string, end: nat, cased: string)
    requires 0 < end <= |a.deviceName| && RFindChar(name, '/', |name| - 1) != -1
    ensures Named(a, name, 1, end, cased) ==
            if a.dbHost == NOT_USED then Err(WrongSyntax)
            else
              var alias := if a.fromEnvVar then a.deviceName[..end - 1] else name[..RFindChar(name, '/', |name| - 1)];
              Ok(a.(deviceName := alias, aliasName := alias, attrName := CasedAttribute(cased)))
  {
    hide RFindChar, CasedAttribute;
  }

  lemma {:induction false} ResolvedUndone(v: Written, aliases: Aliases)
    requires Lowered(v) && v.device == []
    ensures Resolved(AddressOf(v.place, true).(deviceName := v.attr), aliases) == AliasMeaning(v.place, v.attr, aliases)
  {
    hide Find, BehindLast;
    var db := if v.place.None? then FromEnvironment else AtHost(v.place.value.0, PortNumber(v.place.value.1));
    if (db, v.attr) in aliases {
      var full := aliases[(db, v.attr)];
      if |Segments(full, '/')| == 4 {
        FourFields(full);
      }
    }
  }

  lemma {:induction false} FourFields(full: string)
    requires |Segments(full, '/')| == 4
    ensures var end, segs := BehindLast(full), Segments(full, '/');
            0 < end && full[end..] == segs[3] && full[..end - 1] == Join(segs[..3], '/')
  {
    JoinSegments(full, '/');
    hide Segments, Join, BehindLast;
    var segs := Segments(full, '/');
    var head := Join(segs[..3], '/');
    assert segs == segs[..3] + [segs[3]];
    JoinAppend(segs[..3], [segs[3]], '/');
    JoinOne(segs[3], '/');
    assert full == head + "/" + segs[3];
    LastSlash(head, segs[3]);
    assert full[|head| + 1..] == segs[3] && full[..|head|] == head;
  }

  lemma {:induction false} Shape(v: Written)
    requires Lowered(v)
    ensures v.prefix == "" || v.prefix == "//" || v.prefix == "tango://"
    ensures v.modifier == "" || v.modifier == "#dbase=yes" || v.modifier == "#dbase=no"
    ensures '#' !in PlaceText(v.place) + Body(v)
    ensures |v.device| == 0 || |v.device| == 1 || |v.device| == 3
  {
    BodyFree(v);
  }

  lemma {:induction false} BareBody(v: Written)
    requires v.device == []
    ensures Body(v) == v.attr
  {
    assert v.device + [v.attr] == [v.attr];
  }

  lemma {:induction false} NoAlias(place: Option<(string, string)>, alias: string, aliases: Aliases)
    requires place.Some?
    ensures Resolved(AddressOf(place, false).(deviceName := alias), aliases) == Err(WrongSyntax)
  {
  }

  /** Parsing undoes writing: host, port and device in lower case, the attribute as it was given; a
      device alias or attribute alias is refused without a database. */
  lemma {:induction false} RoundTrip(w: Written, aliases: Aliases)
    requires WellWritten(w)
    ensures Parsed(WrittenText(w), aliases) == Meaning(w, aliases)
  {
    hide Lower, Lowered, WellWritten, Body, PlaceText, AliasMeaning, Resolved, Named, CasedAttribute, Placed, Fields;
    hide AddressOf, WithoutProtocol, WithoutModifier, Join, Clean, LowerPlace;
    var v := LowerWritten(w);
    var dbaseUsed := v.modifier != "#dbase=no";
    var text := PlaceText(v.place) + Body(v);
    LowerText(w);
    NoProtocolIn(v);
    Shape(v);
    assert WrittenText(v) == v.prefix + (text + v.modifier);
    ProtocolUndone(v.prefix, text + v.modifier);
    ModifierUndone(text, v.modifier);
    PlaceUndone(v, dbaseUsed);
    FieldsUndone(v);
    if dbaseUsed || v.place.Some? {
      if v.device == [] {
        JoinOne(v.attr, '/');
        BareBody(v);
        if dbaseUsed {
          ResolvedUndone(v, aliases);
        } else {
          NoAlias(v.place, Body(v), aliases);
        }
      } else {
        NamedUndone(v, dbaseUsed, WrittenText(w));
        CaseKept(w);
      }
    }
  }

  // ----- what is refused -----

  /** Another protocol than "tango" is refused, whatever follows. */
  lemma {:induction false} ProtocolRefused(protocol: string, rest: string, aliases: Aliases)
    requires ':' !in protocol && !SameName(protocol, "tango")
    ensures Parsed(protocol + "://" + rest, aliases) == Err(UnsupportedProtocol)
  {
    var full := protocol + "://" + rest;
    LowerConcat(protocol + "://", rest);
    LowerConcat(protocol, "://");
    assert Lower("://") == "://" && Lower("tango") == "tango";
    LowerKeeps(protocol, ':');
    ProtocolFound(Lower(protocol), Lower(rest));
    hide Lower, Find;
    var low := Lower(protocol) + "://" + Lower(rest);
    assert low[..|protocol|] == Lower(protocol);
    assert WithoutProtocol(Lower(full)) == Err(UnsupportedProtocol);
  }

  lemma {:induction false} ProtocolFound(protocol: string, rest: string)
    requires ':' !in protocol
    ensures Find(protocol + "://" + rest, "://", 0) == |protocol|
  {
    hide OccursAt;
    var s := protocol + "://" + rest;
    forall k | 0 <= k <= |protocol| ensures OccursAt(s, "://", k) <==> k == |protocol| {
      SeparatorAt(s, k);
      assert k < |protocol| ==> s[k] == protocol[k];
    }
    assert OccursAt(s, "://", |protocol|);
    var pos := Find(s, "://", 0);
    assert pos != -1 ==> OccursAt(s, "://", pos);
  }

  /** Another modifier than the two is refused. */
  lemma {:induction false} ModifierRefused(name: string, modifier: string, aliases: Aliases)
    requires '#' !in name && NoProtocol(Lower(name + "#" + modifier))
    requires !SameName(modifier, "dbase=yes") && !SameName(modifier, "dbase=no")
    ensures Parsed(name + "#" + modifier, aliases) == Err(UnsupportedModifier)
  {
    var full := name + "#" + modifier;
    LowerConcat(name + "#", modifier);
    LowerConcat(name, "#");
    assert Lower("#") == "#" && Lower("dbase=yes") == "dbase=yes" && Lower("dbase=no") == "dbase=no";
    LowerKeeps(name, '#');
    hide Lower, NoProtocol, WithoutProtocol, WithoutModifier, FindChar, Placed, Fields, Resolved, Named;
    var low := Lower(name) + "#" + Lower(modifier);
    assert "" + low == low;
    ProtocolUndone("", low);
    OtherModifier(Lower(name), Lower(modifier));
  }

  lemma {:induction false} OtherModifier(text: string, modifier: string)
    requires '#' !in text && modifier != "dbase=yes" && modifier != "dbase=no"
    ensures WithoutModifier(text + "#" + modifier) == Err(UnsupportedModifier)
  {
    var s := text + "#" + modifier;
    assert s[|text|] == '#';
    assert forall k | 0 <= k < |text| :: s[k] == text[k];
    assert FindChar(s, '#', 0) == |text|;
    assert s[|text| + 1..] == modifier;
  }

  /** Without a database a host and a port are asked for. */
  lemma {:induction false} PlaceMissing(name: string)
    requires ':' !in name || '/' !in name
    ensures Placed(name, false) == Err(WrongSyntax)
  {
  }

  /** With the slash in front of the colon host, port and device are not what they seem. */
  lemma {:induction false} PlaceTwisted(host: string, middle: string, port: string)
    requires '/' !in host && ':' !in host && ':' !in middle
    ensures Placed(host + "/" + middle + ":" + port, false)
         == Ok(AddressOf(Some((host + "/" + middle, port)), false).(deviceName := middle + ":" + port))
  {
    var s := host + "/" + middle + ":" + port;
    assert s == (host + "/" + middle) + ":" + port;
    FirstColon(host + "/" + middle, port);
    FirstSlash(host, middle + ":" + port);
    hide PortNumber, FindChar;
    assert s == host + "/" + (middle + ":" + port);
    assert s[|host| + 1..] == middle + ":" + port;
    var colon := |host| + 1 + |middle|;
    assert s[..colon] == host + "/" + middle && s[colon + 1..] == port;
  }

  lemma {:induction false} FirstSlash(a: string, b: string)
    requires '/' !in a
    ensures FindChar(a + "/" + b, '/', 0) == |a|
  {
    var s := a + "/" + b;
    assert s[|a|] == '/';
    assert forall k | 0 <= k < |a| :: s[k] == a[k];
  }

  lemma {:induction false} FirstColon(a: string, b: string)
    requires ':' !in a
    ensures FindChar(a + ":" + b, ':', 0) == |a|
  {
    var s := a + ":" + b;
    assert s[|a|] == ':';
    assert forall k | 0 <= k < |a| :: s[k] == a[k];
  }

  /** Names without host, modifier and protocol: refused when they have three fields or more than four, or
      an empty one beside others. */
  lemma {:induction false} FieldsRefused(parts: seq<string>, aliases: Aliases)
    requires |parts| > 1 && parts[0] != "" && forall f | f in parts :: Free(f)
    requires |parts| == 3 || |parts| > 4 || "" in parts
    ensures Parsed(Join(parts, '/'), aliases) == Err(WrongSyntax)
  {
    var low := LowerAll(parts);
    LowerJoin(parts);
    LowerFree(parts);
    hide Lower, Join, Free, Fields, WithoutProtocol, WithoutModifier, Placed, Resolved, Named, AddressOf;
    FieldsBad(low);
    BareName(Join(low, '/'));
  }

  predicate Free(f: string) {
    '/' !in f && ':' !in f && '#' !in f
  }

  lemma {:induction false} LowerFree(parts: seq<string>)
    requires forall f | f in parts :: Free(f)
    ensures forall f | f in LowerAll(parts) :: Free(f)
    ensures "" in parts ==> "" in LowerAll(parts)
  {
    var low := LowerAll(parts);
    forall f | f in low ensures Free(f) {
      var i :| 0 <= i < |low| && low[i] == f;
      assert parts[i] in parts;
      LowerKeeps(parts[i], '/');
      LowerKeeps(parts[i], ':');
      LowerKeeps(parts[i], '#');
    }
    if "" in parts {
      var i :| 0 <= i < |parts| && parts[i] == "";
      assert low[i] == "";
    }
  }

  lemma {:induction false} FieldsBad(low: seq<string>)
    requires |low| > 1 && low[0] != "" && forall f | f in low :: Free(f)
    requires |low| == 3 || |low| > 4 || "" in low
    ensures var name := Join(low, '/');
            name != "" && name[0] != '/' && ':' !in name && '#' !in name && Fields(name) == Err(WrongSyntax)
  {
    assert low[0] in low;
    JoinFree(low, ':');
    JoinFree(low, '#');
    JoinHead(low);
    SegmentsOfJoin(low, '/');
    hide Join, Segments;
  }

  /** A name without protocol, host and modifier is a device name as a whole. */
  lemma {:induction false} BareName(name: string)
    requires name != "" && name[0] != '/' && ':' !in name && '#' !in name
    ensures WithoutProtocol(name) == Ok(name) && WithoutModifier(name) == Ok((name, true))
    ensures Placed(name, true) == Ok(AddressOf(None, true).(deviceName := name))
  {
    NoColon(name);
    hide NoProtocol;
    assert "" + name == name && name + "" == name;
    ProtocolUndone("", name);
    ModifierUndone(name, "");
    NoPlaceUndone(name, true);
  }

  /** An alias with a colon or an arrow in it is refused. */
  lemma {:induction false} AliasRefused(alias: string, aliases: Aliases)
    requires alias != "" && '/' !in alias && '#' !in alias
    requires ':' in alias || Find(Lower(alias), "->", 0) != -1
    ensures Parsed(alias, aliases) == Err(WrongSyntax)
  {
    LowerKeeps(alias, '/');
    LowerKeeps(alias, ':');
    LowerKeeps(alias, '#');
    hide Lower, Find, FindChar, BehindLast, WithoutProtocol, WithoutModifier, Placed, Resolved, Named, Fields, AddressOf;
    var low := Lower(alias);
    AliasSteps(low);
    AliasNotResolved(AddressOf(None, true).(deviceName := low), aliases);
  }

  lemma {:induction false} AliasSteps(low: string)
    requires low != "" && '/' !in low && '#' !in low
    ensures WithoutProtocol(low) == Ok(low) && WithoutModifier(low) == Ok((low, true))
    ensures Placed(low, true) == Ok(AddressOf(None, true).(deviceName := low)) && Fields(low) == Ok((0, BehindLast(low)))
  {
    hide NoProtocol, FindChar, Segments, BehindLast, WithoutProtocol, WithoutModifier, Placed, AddressOf;
    assert "" + low == low && low + "" == low;
    NoSlash(low);
    ProtocolUndone("", low);
    ModifierUndone(low, "");
    NoDelimiter(low, '/');
    OnlyName(low);
  }

  lemma {:induction false} OnlyName(name: string)
    requires '/' !in name
    ensures Placed(name, true) == Ok(AddressOf(None, true).(deviceName := name))
  {
  }

  lemma {:induction false} AliasNotResolved(a: Address, aliases: Aliases)
    requires ':' in a.deviceName || Find(a.deviceName, "->", 0) != -1
    ensures Resolved(a, aliases) == Err(WrongSyntax)
  {
    hide Find;
  }

  lemma {:induction false} NoSlash(s: string)
    requires s != "" && '/' !in s
    ensures NoProtocol(s)
  {
  }
}
