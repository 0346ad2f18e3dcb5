/** The control system services, kept as a list of strings "service/instance:device": registering,
    unregistering and looking up, against a map that ignores case. */
module ServiceList {
  import opened Text

  predicate StartsWith(s: string, p: string) {
    |p| <= |s| && s[..|p|] == p
  }

  function Name(serv: string, inst: string): string {
    serv + "/" + inst
  }

  // ----- the functions of the source, on the list of strings -----

  /** `register_service`: the loop's effect on one stored string, and whether it was the service looked for. */
  function Updated(entry: string, fullName: string, dev: string): Option<string> {
    if StartsWith(Lower(entry), fullName) then
      var pos := FindChar(entry, ':', 0);
      if pos == -1 then None else Some(entry[..pos] + ":" + dev)
    else Some(entry)
  }

  function UpdateAll(list: seq<string>, fullName: string, dev: string): seq<string> {
    if list == [] then []
    else
      var u := Updated(list[0], fullName, dev);
      (if u.Some? then [u.value] else []) + UpdateAll(list[1..], fullName, dev)
  }

  predicate Holds(entry: string, fullName: string) {
    StartsWith(Lower(entry), fullName) && FindChar(entry, ':', 0) != -1
  }

  function Register(list: seq<string>, serv: string, inst: string, dev: string): seq<string> {
    var fullName := Lower(Name(serv, inst) + ":");
    UpdateAll(list, fullName, dev)
    + if exists k | 0 <= k < |list| :: Holds(list[k], fullName) then [] else [Name(serv, inst) + ":" + dev]
  }

  function Others(list: seq<string>, fullName: string): seq<string> {
    if list == [] then []
    else (if StartsWith(Lower(list[0]), fullName) then [] else [list[0]]) + Others(list[1..], fullName)
  }

  function Unregister(list: seq<string>, serv: string, inst: string): seq<string> {
    Others(list, Lower(Name(serv, inst) + ":"))
  }

  function Filter(serv: string, inst: string): string {
    Lower(if inst == "*" then serv + "/" else Name(serv, inst) + ":")
  }

  /** What `get_services` keeps of one stored string. */
  function Answer(entry: string, filter: string): seq<string> {
    var e := Lower(entry);
    var pos := FindChar(e, ':', 0);
    if StartsWith(e, filter) && pos != -1 then [e[pos + 1..]] else []
  }

  function Answers(list: seq<string>, filter: string): seq<string> {
    if list == [] then [] else Answer(list[0], filter) + Answers(list[1..], filter)
  }

  function GetServices(list: seq<string>, serv: string, inst: string): seq<string> {
    Answers(list, Filter(serv, inst))
  }

  // ----- the loops -----

  lemma {:induction false} UpdateSnoc(list: seq<string>, e: string, fullName: string, dev: string)
    ensures var u := Updated(e, fullName, dev);
            UpdateAll(list + [e], fullName, dev) == UpdateAll(list, fullName, dev) + if u.Some? then [u.value] else []
    decreases |list|
  {
    hide Updated;
    if list == [] {
      assert [e][1..] == [];
    } else {
      assert (list + [e])[0] == list[0] && (list + [e])[1..] == list[1..] + [e];
      UpdateSnoc(list[1..], e, fullName, dev);
    }
  }

  lemma {:induction false} OthersSnoc(list: seq<string>, e: string, fullName: string)
    ensures Others(list + [e], fullName) == Others(list, fullName) + if StartsWith(Lower(e), fullName) then [] else [e]
    decreases |list|
  {
    hide StartsWith, Lower;
    if list == [] {
      assert [e][1..] == [];
    } else {
      assert (list + [e])[0] == list[0] && (list + [e])[1..] == list[1..] + [e];
      OthersSnoc(list[1..], e, fullName);
    }
  }

  lemma {:induction false} AnswersSnoc(list: seq<string>, e: string, filter: string)
    ensures Answers(list + [e], filter) == Answers(list, filter) + Answer(e, filter)
    decreases |list|
  {
    hide Answer;
    if list == [] {
      assert [e][1..] == [];
    } else {
      assert (list + [e])[0] == list[0] && (list + [e])[1..] == list[1..] + [e];
      AnswersSnoc(list[1..], e, filter);
    }
  }

  method RegisterService(services: seq<string>, serv: string, inst: string, dev: string) returns (newServices: seq<string>)
    ensures newServices == Register(services, serv, inst, dev)
  {
    hide StartsWith, Lower, FindChar, UpdateAll;
    var fullName := Lower(serv + "/" + inst + ":");
    assert serv + "/" + inst + ":" == Name(serv, inst) + ":";
    var serviceExists := false;
    newServices := [];
    NoUpdate(fullName, dev);
    for i := 0 to |services|
      invariant newServices == UpdateAll(services[..i], fullName, dev)
      invariant serviceExists <==> exists k | 0 <= k < i :: Holds(services[k], fullName)
    {
      UpdateSnoc(services[..i], services[i], fullName, dev);
      assert services[..i + 1] == services[..i] + [services[i]];
      if StartsWith(Lower(services[i]), fullName) {
        var pos := FindChar(services[i], ':', 0);
        if pos != -1 {
          newServices := newServices + [services[i][..pos] + ":" + dev];
          serviceExists := true;
          assert Holds(services[i], fullName);
        }
      } else {
        newServices := newServices + [services[i]];
      }
    }
    assert services[..|services|] == services;
    if !serviceExists {
      newServices := newServices + [serv + "/" + inst + ":" + dev];
      assert serv + "/" + inst + ":" + dev == Name(serv, inst) + ":" + dev;
    } else {
      assert newServices + [] == newServices;
    }
  }

  lemma {:induction false} NoUpdate(fullName: string, dev: string)
    ensures UpdateAll([], fullName, dev) == []
  {
  }

  method UnregisterService(services: seq<string>, serv: string, inst: string) returns (newServices: seq<string>)
    ensures newServices == Unregister(services, serv, inst)
  {
    hide StartsWith, Lower;
    var fullName := Lower(serv + "/" + inst + ":");
    assert serv + "/" + inst + ":" == Name(serv, inst) + ":";
    newServices := [];
    for i := 0 to |services|
      invariant newServices == Others(services[..i], fullName)
    {
      OthersSnoc(services[..i], services[i], fullName);
      assert services[..i + 1] == services[..i] + [services[i]];
      if !StartsWith(Lower(services[i]), fullName) {
        newServices := newServices + [services[i]];
      }
    }
    assert services[..|services|] == services;
  }

  method FindServices(services: seq<string>, serv: string, inst: string) returns (found: seq<string>)
    ensures found == GetServices(services, serv, inst)
  {
    hide StartsWith, Lower, FindChar;
    var filter := serv + "/";
    if inst != "*" {
      filter := filter + inst + ":";
      assert filter == Name(serv, inst) + ":";
    }
    filter := Lower(filter);
    found := [];
    for i := 0 to |services|
      invariant found == Answers(services[..i], filter)
    {
      AnswersSnoc(services[..i], services[i], filter);
      assert services[..i + 1] == services[..i] + [services[i]];
      var lower := Lower(services[i]);
      if StartsWith(lower, filter) {
        var pos := FindChar(lower, ':', 0);
        if pos != -1 {
          found := found + [lower[pos + 1..]];
        }
      }
    }
    assert services[..|services|] == services;
  }

  // ----- what the strings mean -----

  /** One registered service: its name "service/instance" as first registered, and its device. */
  datatype Service = Service(name: string, dev: string)

  function ServiceText(s: Service): string {
    s.name + ":" + s.dev
  }

  function Texts(ss: seq<Service>): (r: seq<string>)
    ensures |r| == |ss| && forall i | 0 <= i < |ss| :: r[i] == ServiceText(ss[i])
  {
    seq(|ss|, i requires 0 <= i < |ss| => ServiceText(ss[i]))
  }

  predicate NamesClean(ss: seq<Service>) {
    forall i | 0 <= i < |ss| :: ':' !in ss[i].name
  }

  lemma {:induction false} LowerKeepsColon(s: string)
    ensures ':' in Lower(s) <==> ':' in s
  {
    forall i | 0 <= i < |s| ensures Lower(s)[i] == ':' <==> s[i] == ':' {
    }
  }

  /** The first colon separates name and device. */
  lemma {:induction false} FirstColon(name: string, dev: string)
    requires ':' !in name
    ensures FindChar(name + ":" + dev, ':', 0) == |name|
  {
    var t := name + ":" + dev;
    assert t[|name|] == ':';
    assert forall k | 0 <= k < |name| :: t[k] == name[k];
  }

  /** Before a separator neither contains, a prefix is the whole. */
  lemma {:induction false} PrefixSame(a: string, b: string, c: char, tail: string)
    requires c !in a && c !in b
    ensures StartsWith(a + [c] + tail, b + [c]) <==> a == b
  {
    var t := a + [c] + tail;
    if StartsWith(t, b + [c]) {
      assert t[..|b| + 1] == b + [c];
      assert forall k | 0 <= k < |b| :: t[k] == (t[..|b| + 1])[k] == b[k];
      assert t[|b|] == (t[..|b| + 1])[|b|] == c;
      assert t[|a|] == c;
      assert |a| == |b|;
      assert a == t[..|a|] == b;
    }
    if a == b {
      assert t[..|b| + 1] == b + [c];
    }
  }

  /** A stored string starts with a wanted name and colon exactly when its name is the wanted one. */
  lemma {:induction false} SameService(s: Service, name: string)
    requires ':' !in s.name && ':' !in name
    ensures StartsWith(Lower(ServiceText(s)), Lower(name + ":")) <==> SameName(s.name, name)
  {
    var a, b, d := Lower(s.name), Lower(name), Lower(s.dev);
    LowerKeepsColon(s.name);
    LowerKeepsColon(name);
    assert Lower(ServiceText(s)) == a + ":" + d;
    assert Lower(name + ":") == b + ":";
    PrefixSame(a, b, ':', d);
  }

  function FindService(ss: seq<Service>, name: string): (r: int)
    ensures -1 <= r < |ss|
    ensures r == -1 <==> forall k | 0 <= k < |ss| :: !SameName(ss[k].name, name)
  {
    if ss == [] then -1
    else if SameName(ss[0].name, name) then 0
    else
      var r := FindService(ss[1..], name);
      assert forall k | 1 <= k < |ss| :: ss[k] == ss[1..][k - 1];
      if r == -1 then -1 else r + 1
  }

  function SetDevice(ss: seq<Service>, name: string, dev: string): (r: seq<Service>)
    ensures |r| == |ss|
    ensures forall i | 0 <= i < |ss| :: r[i] == if SameName(ss[i].name, name) then ss[i].(dev := dev) else ss[i]
  {
    seq(|ss|, i requires 0 <= i < |ss| => if SameName(ss[i].name, name) then ss[i].(dev := dev) else ss[i])
  }

  function Registered(ss: seq<Service>, name: string, dev: string): seq<Service> {
    if FindService(ss, name) == -1 then ss + [Service(name, dev)] else SetDevice(ss, name, dev)
  }

  function Unregistered(ss: seq<Service>, name: string): seq<Service> {
    if ss == [] then []
    else (if SameName(ss[0].name, name) then [] else [ss[0]]) + Unregistered(ss[1..], name)
  }

  lemma {:induction false} TextsTail(ss: seq<Service>)
    requires ss != []
    ensures Texts(ss)[0] == ServiceText(ss[0]) && Texts(ss)[1..] == Texts(ss[1..])
  {
  }

  lemma {:induction false} UpdatedMeans(s: Service, name: string, dev: string)
    requires ':' !in s.name && ':' !in name
    ensures Updated(ServiceText(s), Lower(name + ":"), dev)
         == Some(ServiceText(if SameName(s.name, name) then s.(dev := dev) else s))
    ensures Holds(ServiceText(s), Lower(name + ":")) <==> SameName(s.name, name)
  {
    SameService(s, name);
    FirstColon(s.name, s.dev);
    assert ServiceText(s)[..|s.name|] == s.name;
  }

  lemma {:induction false} UpdateAllMeans(ss: seq<Service>, name: string, dev: string)
    requires NamesClean(ss) && ':' !in name
    ensures UpdateAll(Texts(ss), Lower(name + ":"), dev) == Texts(SetDevice(ss, name, dev))
    decreases |ss|
  {
    hide Updated, ServiceText, SameName, Lower;
    if ss != [] {
      TextsTail(ss);
      UpdatedMeans(ss[0], name, dev);
      UpdateAllMeans(ss[1..], name, dev);
      var r := SetDevice(ss, name, dev);
      assert r[1..] == SetDevice(ss[1..], name, dev);
      TextsTail(r);
      assert Texts(r) == [Texts(r)[0]] + Texts(r)[1..];
    }
  }

  /** Registering acts on the strings as on the services they stand for. */
  lemma {:induction false} RegisterMeans(ss: seq<Service>, serv: string, inst: string, dev: string)
    requires NamesClean(ss) && ':' !in Name(serv, inst)
    ensures Register(Texts(ss), serv, inst, dev) == Texts(Registered(ss, Name(serv, inst), dev))
    ensures NamesClean(Registered(ss, Name(serv, inst), dev))
  {
    hide Holds, ServiceText, SameName, Lower, Name, UpdateAll;
    var name := Name(serv, inst);
    var fullName := Lower(name + ":");
    UpdateAllMeans(ss, name, dev);
    forall k | 0 <= k < |ss| ensures Holds(Texts(ss)[k], fullName) <==> SameName(ss[k].name, name) {
      UpdatedMeans(ss[k], name, dev);
    }
    if FindService(ss, name) == -1 {
      assert SetDevice(ss, name, dev) == ss;
      NewText(name, dev);
      assert Texts(ss + [Service(name, dev)]) == Texts(ss) + [name + ":" + dev];
    } else {
      assert exists k | 0 <= k < |ss| :: Holds(Texts(ss)[k], fullName);
      assert UpdateAll(Texts(ss), fullName, dev) + [] == UpdateAll(Texts(ss), fullName, dev);
    }
  }

  lemma {:induction false} NewText(name: string, dev: string)
    ensures ServiceText(Service(name, dev)) == name + ":" + dev
  {
  }

  lemma {:induction false} UnregisterMeans(ss: seq<Service>, serv: string, inst: string)
    requires NamesClean(ss) && ':' !in Name(serv, inst)
    ensures Unregister(Texts(ss), serv, inst) == Texts(Unregistered(ss, Name(serv, inst)))
    ensures NamesClean(Unregistered(ss, Name(serv, inst)))
    decreases |ss|
  {
    hide StartsWith, ServiceText, SameName, Lower, Name;
    if ss != [] {
      TextsTail(ss);
      SameService(ss[0], Name(serv, inst));
      UnregisterMeans(ss[1..], serv, inst);
      var rest := Unregistered(ss[1..], Name(serv, inst));
      assert Texts([ss[0]] + rest) == [ServiceText(ss[0])] + Texts(rest);
      assert [] + rest == rest && [] + Texts(rest) == Texts(rest);
    }
  }

  // ----- the map -----

  /** Keys are service names in lower case. */
  type Registry = map<string, string>

  ghost predicate Distinct(ss: seq<Service>) {
    forall i, j | 0 <= i < j < |ss| :: !SameName(ss[i].name, ss[j].name)
  }

  /** Each name once, whatever its case; the map gives the device of each. */
  ghost predicate Represents(ss: seq<Service>, m: Registry) {
    && Distinct(ss)
    && (forall i | 0 <= i < |ss| :: Lower(ss[i].name) in m && m[Lower(ss[i].name)] == ss[i].dev)
    && (forall k | k in m :: exists i | 0 <= i < |ss| :: Lower(ss[i].name) == k)
  }

  lemma {:induction false} RegisteredDistinct(ss: seq<Service>, name: string, dev: string)
    requires Distinct(ss)
    ensures Distinct(Registered(ss, name, dev))
  {
    hide Lower;
    var r := Registered(ss, name, dev);
    assert forall i | 0 <= i < |ss| :: r[i].name == ss[i].name;
    if FindService(ss, name) == -1 {
      assert r[|ss|].name == name;
    }
  }

  lemma {:induction false} RegisteredRepresents(ss: seq<Service>, m: Registry, name: string, dev: string)
    requires Represents(ss, m)
    ensures Represents(Registered(ss, name, dev), m[Lower(name) := dev])
  {
    hide Lower, Distinct;
    RegisteredDistinct(ss, name, dev);
    var r, m' := Registered(ss, name, dev), m[Lower(name) := dev];
    var f := FindService(ss, name);
    if f == -1 {
      assert r[|ss|] == Service(name, dev);
      assert forall i | 0 <= i < |ss| :: r[i] == ss[i];
      forall k | k in m' ensures exists i | 0 <= i < |r| :: Lower(r[i].name) == k {
        if k == Lower(name) {
          assert Lower(r[|ss|].name) == k;
        } else {
          var i :| 0 <= i < |ss| && Lower(ss[i].name) == k;
          assert Lower(r[i].name) == k;
        }
      }
    } else {
      assert forall i | 0 <= i < |ss| :: r[i].name == ss[i].name;
      FoundService(ss, name);
      assert Lower(ss[f].name) == Lower(name);
      forall k | k in m' ensures exists i | 0 <= i < |r| :: Lower(r[i].name) == k {
        assert k in m;
        var i :| 0 <= i < |ss| && Lower(ss[i].name) == k;
        assert Lower(r[i].name) == k;
      }
    }
  }

  lemma {:induction false} UnregisteredSub(ss: seq<Service>, name: string)
    ensures forall x | x in Unregistered(ss, name) :: x in ss && !SameName(x.name, name)
    ensures forall x | x in ss && !SameName(x.name, name) :: x in Unregistered(ss, name)
    decreases |ss|
  {
    hide SameName;
    if ss != [] {
      UnregisteredSub(ss[1..], name);
    }
  }

  lemma {:induction false} DistinctCons(s: Service, rest: seq<Service>)
    ensures Distinct([s] + rest) <==> Distinct(rest) && forall x | x in rest :: !SameName(s.name, x.name)
  {
    hide SameName;
    var all := [s] + rest;
    assert forall k | 0 <= k < |rest| :: all[k + 1] == rest[k];
    if Distinct(all) {
      forall i, j | 0 <= i < j < |rest| ensures !SameName(rest[i].name, rest[j].name) {
        assert !SameName(all[i + 1].name, all[j + 1].name);
      }
      forall x | x in rest ensures !SameName(s.name, x.name) {
        var k :| 0 <= k < |rest| && rest[k] == x;
        assert !SameName(all[0].name, all[k + 1].name);
      }
    }
    if Distinct(rest) && forall x | x in rest :: !SameName(s.name, x.name) {
      forall i, j | 0 <= i < j < |all| ensures !SameName(all[i].name, all[j].name) {
        assert all[j] == rest[j - 1] && rest[j - 1] in rest;
        if i > 0 {
          assert all[i] == rest[i - 1];
        }
      }
    }
  }

  lemma {:induction false} UnregisteredDistinct(ss: seq<Service>, name: string)
    requires Distinct(ss)
    ensures Distinct(Unregistered(ss, name))
    decreases |ss|
  {
    hide SameName, Distinct;
    if ss != [] {
      assert ss == [ss[0]] + ss[1..];
      DistinctCons(ss[0], ss[1..]);
      UnregisteredDistinct(ss[1..], name);
      UnregisteredSub(ss[1..], name);
      var rest := Unregistered(ss[1..], name);
      DistinctCons(ss[0], rest);
      assert [] + rest == rest;
    }
  }

  lemma {:induction false} UnregisteredRepresents(ss: seq<Service>, m: Registry, name: string)
    requires Represents(ss, m)
    ensures Represents(Unregistered(ss, name), m - {Lower(name)})
  {
    UnregisteredSub(ss, name);
    UnregisteredDistinct(ss, name);
    hide Lower, Unregistered;
    var r, m' := Unregistered(ss, name), m - {Lower(name)};
    forall i | 0 <= i < |r| ensures Lower(r[i].name) in m' && m'[Lower(r[i].name)] == r[i].dev {
      assert r[i] in r && r[i] in ss;
    }
    forall k | k in m' ensures exists i | 0 <= i < |r| :: Lower(r[i].name) == k {
      var i :| 0 <= i < |ss| && Lower(ss[i].name) == k;
      assert ss[i] in ss && ss[i] in r;
    }
  }

  // ----- looking up -----

  lemma {:induction false} AnswerMeans(s: Service, serv: string, inst: string)
    requires ':' !in s.name && ':' !in Name(serv, inst) && inst != "*"
    ensures Answer(ServiceText(s), Filter(serv, inst)) == if SameName(s.name, Name(serv, inst)) then [Lower(s.dev)] else []
  {
    SameService(s, Name(serv, inst));
    LowerKeepsColon(s.name);
    var e := Lower(s.name) + ":" + Lower(s.dev);
    assert Lower(ServiceText(s)) == e;
    FirstColon(Lower(s.name), Lower(s.dev));
    assert e[|s.name| + 1..] == Lower(s.dev);
  }

  /** A look-up gives the lower-cased device of every service of that name; with a map behind the list,
      that is one or none. */
  lemma {:induction false} GetServicesFinds(ss: seq<Service>, m: Registry, serv: string, inst: string)
    requires NamesClean(ss) && Represents(ss, m) && ':' !in Name(serv, inst) && inst != "*"
    ensures GetServices(Texts(ss), serv, inst)
         == var k := Lower(Name(serv, inst)); if k in m then [Lower(m[k])] else []
  {
    hide Lower, Texts, NamesClean, Name;
    var name := Name(serv, inst);
    OneAnswer(ss, serv, inst);
    MapFinds(ss, m, name);
  }

  lemma {:induction false} MapFinds(ss: seq<Service>, m: Registry, name: string)
    requires Represents(ss, m)
    ensures var f := FindService(ss, name);
            if Lower(name) in m then f != -1 && ss[f].dev == m[Lower(name)] else f == -1
  {
    hide Lower;
    if Lower(name) in m {
      var i :| 0 <= i < |ss| && Lower(ss[i].name) == Lower(name);
      assert SameName(ss[i].name, name);
    }
    if FindService(ss, name) != -1 {
      FoundService(ss, name);
    }
  }

  lemma {:induction false} FoundService(ss: seq<Service>, name: string)
    requires FindService(ss, name) != -1
    ensures SameName(ss[FindService(ss, name)].name, name)
    decreases |ss|
  {
    if !SameName(ss[0].name, name) {
      FoundService(ss[1..], name);
    }
  }

  lemma {:induction false} OneAnswer(ss: seq<Service>, serv: string, inst: string)
    requires NamesClean(ss) && ':' !in Name(serv, inst) && inst != "*"
    requires Distinct(ss)
    ensures var f := FindService(ss, Name(serv, inst));
            GetServices(Texts(ss), serv, inst) == if f == -1 then [] else [Lower(ss[f].dev)]
    decreases |ss|
  {
    hide Lower, Answer, ServiceText, Filter, Name;
    if ss != [] {
      TextsTail(ss);
      AnswerMeans(ss[0], serv, inst);
      OneAnswer(ss[1..], serv, inst);
      var name := Name(serv, inst);
      if SameName(ss[0].name, name) {
        assert forall k | 1 <= k < |ss| :: !SameName(ss[0].name, ss[k].name) && ss[k] == ss[1..][k - 1];
        assert FindService(ss[1..], name) == -1;
      }
    }
  }

  lemma {:induction false} LowerName(serv: string, inst: string)
    ensures Lower(Name(serv, inst)) == Lower(serv) + "/" + Lower(inst)
  {
    LowerConcat(serv + "/", inst);
    LowerConcat(serv, "/");
    assert Lower("/") == "/";
  }

  lemma {:induction false} LowerKeepsSlash(s: string)
    ensures '/' in Lower(s) <==> '/' in s
  {
    forall i | 0 <= i < |s| ensures Lower(s)[i] == '/' <==> s[i] == '/' {
    }
  }

  lemma {:induction false} AnswerOf(entry: string, filter: string, name: string, dev: string)
    requires Lower(entry) == name + ":" + dev && ':' !in name
    ensures Answer(entry, filter) == if StartsWith(name + ":" + dev, filter) then [dev] else []
  {
    hide Lower, StartsWith, FindChar;
    FirstColon(name, dev);
    assert (name + ":" + dev)[|name| + 1..] == dev;
  }

  // ----- every run -----

  datatype Call = Reg(serv: string, inst: string, dev: string) | Unreg(serv: string, inst: string)

  function CallName(c: Call): string {
    Name(c.serv, c.inst)
  }

  function Apply(list: seq<string>, c: Call): seq<string> {
    match c
    case Reg(s, i, d) => Register(list, s, i, d)
    case Unreg(s, i) => Unregister(list, s, i)
  }

  function ApplyAll(calls: seq<Call>): seq<string>
    decreases |calls|
  {
    if calls == [] then [] else Apply(ApplyAll(calls[..|calls| - 1]), calls[|calls| - 1])
  }

  /** The same calls on a map. */
  function MapAll(calls: seq<Call>): Registry
    decreases |calls|
  {
    if calls == [] then map[]
    else
      var m, c := MapAll(calls[..|calls| - 1]), calls[|calls| - 1];
      if c.Reg? then m[Lower(CallName(c)) := c.dev] else m - {Lower(CallName(c))}
  }

  /** The services the strings stand for. */
  function Services(calls: seq<Call>): seq<Service>
    decreases |calls|
  {
    if calls == [] then []
    else
      var ss, c := Services(calls[..|calls| - 1]), calls[|calls| - 1];
      if c.Reg? then Registered(ss, CallName(c), c.dev) else Unregistered(ss, CallName(c))
  }

  /** After any calls from the empty list the strings stand for a list of services that represents the map. */
  lemma {:induction false} RunRepresents(calls: seq<Call>)
    requires forall c | c in calls :: ':' !in CallName(c)
    ensures ApplyAll(calls) == Texts(Services(calls)) && NamesClean(Services(calls)) && Represents(Services(calls), MapAll(calls))
    decreases |calls|
  {
    if calls != [] {
      var before, c := calls[..|calls| - 1], calls[|calls| - 1];
      assert c in calls && ':' !in Name(c.serv, c.inst);
      RunRepresents(before);
      var ss := Services(before);
      hide NamesClean, Represents, Registered, Unregistered, Register, Unregister, Lower, Texts, Name;
      match c
      case Reg(s, i, d) =>
        RegisterMeans(ss, s, i, d);
        RegisteredRepresents(ss, MapAll(before), Name(s, i), d);
      case Unreg(s, i) =>
        UnregisterMeans(ss, s, i);
        UnregisteredRepresents(ss, MapAll(before), Name(s, i));
    }
  }

  /** The list refines the map: after any sequence of calls, a look-up gives the lower-cased device
      registered last under that name, if it has not been unregistered since, and nothing otherwise. */
  lemma {:induction false} ListRefinesMap(calls: seq<Call>, serv: string, inst: string)
    requires forall c | c in calls :: ':' !in CallName(c)
    requires ':' !in Name(serv, inst) && inst != "*"
    ensures GetServices(ApplyAll(calls), serv, inst)
         == var m, k := MapAll(calls), Lower(Name(serv, inst)); if k in m then [Lower(m[k])] else []
  {
    hide ApplyAll, MapAll, GetServices, Lower, Name, Represents, NamesClean, Services;
    RunRepresents(calls);
    GetServicesFinds(Services(calls), MapAll(calls), serv, inst);
  }

  /** Names are told apart as service and instance when services contain no '/'. */
  lemma {:induction false} NamesTellApart(serv: string, inst: string, serv': string, inst': string)
    requires '/' !in serv && '/' !in serv'
    ensures SameName(Name(serv, inst), Name(serv', inst')) <==> SameName(serv, serv') && SameName(inst, inst')
  {
    var a, b, c, d := Lower(serv), Lower(inst), Lower(serv'), Lower(inst');
    assert Lower(Name(serv, inst)) == a + "/" + b && Lower(Name(serv', inst')) == c + "/" + d;
    assert forall k | 0 <= k < |serv| :: a[k] == '/' <==> serv[k] == '/';
    assert forall k | 0 <= k < |serv'| :: c[k] == '/' <==> serv'[k] == '/';
    hide Lower;
    var s, t := a + "/" + b, c + "/" + d;
    if s == t {
      assert s[|a|] == '/' && t[|c|] == '/';
      assert |a| == |c|;
      assert a == s[..|a|] == t[..|c|] == c;
      assert b == s[|a| + 1..] == t[|c| + 1..] == d;
    }
  }

  lemma {:induction false} OneText(t: string, filter: string)
    ensures Answers([t], filter) == Answer(t, filter)
  {
    hide Answer;
    assert [t][1..] == [];
    assert Answers([t][1..], filter) == [];
  }

  /** What a look-up answers for a service just registered. */
  lemma {:induction false} OwnAnswer(serv: string, inst: string, dev: string)
    requires inst != "*"
    ensures var name, d := Lower(Name(serv, inst)), Lower(dev);
            Answer(Name(serv, inst) + ":" + dev, Filter(serv, inst)) == [(name + ":" + d)[FindChar(name + ":" + d, ':', 0) + 1..]]
  {
    var name, d := Lower(Name(serv, inst)), Lower(dev);
    var e := name + ":" + d;
    LowerConcat(Name(serv, inst) + ":", dev);
    LowerConcat(Name(serv, inst), ":");
    assert Lower(":") == ":";
    hide Lower, Name;
    assert e[|name|] == ':';
    assert e[..|name + ":"|] == name + ":";
  }

  /** The restriction on colons is exact: a service registered in an empty list is found with its device
      if and only if its name has no colon. */
  lemma {:induction false} ColonExact(serv: string, inst: string, dev: string)
    requires inst != "*"
    ensures GetServices(Register([], serv, inst, dev), serv, inst) == [Lower(dev)] <==> ':' !in Name(serv, inst)
  {
    var name := Name(serv, inst);
    LowerKeepsColon(name);
    OwnAnswer(serv, inst, dev);
    hide Lower, Name, Answer, Filter, Answers, Holds;
    assert Register([], serv, inst, dev) == [name + ":" + dev];
    OneText(name + ":" + dev, Filter(serv, inst));
    var a, d := Lower(name), Lower(dev);
    var e := a + ":" + d;
    if ':' !in name {
      FirstColon(a, d);
      assert e[|a| + 1..] == d;
    } else {
      var k :| 0 <= k < |a| && a[k] == ':';
      assert e[k] == ':';
      assert |e[FindChar(e, ':', 0) + 1..]| > |d|;
    }
  }
}
