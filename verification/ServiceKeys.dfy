/** Looking up every instance of a service: the answers come in the order of first registration. */
module ServiceKeys {
  import opened Text
  import opened ServiceList

  /** A service and an instance, in lower case. */
  datatype Key = Key(serv: string, inst: string) {
    function Text(): string {
      serv + "/" + inst
    }
  }

  function KeyOf(c: Call): Key {
    Key(Lower(c.serv), Lower(c.inst))
  }

  function Drop(ks: seq<Key>, k: Key): seq<Key> {
    if ks == [] then [] else (if ks[0] == k then [] else [ks[0]]) + Drop(ks[1..], k)
  }

  /** What is registered after some calls, in the order of first registration. */
  function Keys(calls: seq<Call>): seq<Key>
    decreases |calls|
  {
    if calls == [] then []
    else
      var ks, c := Keys(calls[..|calls| - 1]), calls[|calls| - 1];
      if c.Unreg? then Drop(ks, KeyOf(c)) else if KeyOf(c) in ks then ks else ks + [KeyOf(c)]
  }

  /** The devices of one service, in the order of the keys. */
  function Devices(ks: seq<Key>, m: Registry, serv: string): seq<string> {
    if ks == [] then []
    else
      (if ks[0].serv == serv && ks[0].Text() in m then [Lower(m[ks[0].Text()])] else []) + Devices(ks[1..], m, serv)
  }

  /** The keys of a list of services, one for one. */
  ghost predicate Keyed(ss: seq<Service>, ks: seq<Key>) {
    && |ss| == |ks|
    && forall i | 0 <= i < |ss| :: '/' !in ks[i].serv && Lower(ss[i].name) == ks[i].Text()
  }

  lemma {:induction false} KeyedTail(ss: seq<Service>, ks: seq<Key>)
    requires Keyed(ss, ks) && ss != []
    ensures Keyed(ss[1..], ks[1..]) && '/' !in ks[0].serv && Lower(ss[0].name) == ks[0].Text()
  {
    hide Key.Text, Lower;
  }

  lemma {:induction false} KeyedCons(s: Service, ss: seq<Service>, k: Key, ks: seq<Key>)
    requires Keyed(ss, ks) && '/' !in k.serv && Lower(s.name) == k.Text()
    ensures Keyed([s] + ss, [k] + ks)
  {
    hide Key.Text, Lower;
  }

  lemma {:induction false} KeyTextSame(k: Key, k': Key)
    requires '/' !in k.serv && '/' !in k'.serv
    ensures k.Text() == k'.Text() <==> k == k'
  {
    var s, t := k.Text(), k'.Text();
    if s == t {
      assert s[|k.serv|] == '/' && t[|k'.serv|] == '/';
      assert forall i | 0 <= i < |k.serv| :: s[i] == k.serv[i];
      assert forall i | 0 <= i < |k'.serv| :: t[i] == k'.serv[i];
      assert |k.serv| == |k'.serv|;
      assert k.serv == s[..|k.serv|] == t[..|k'.serv|] == k'.serv;
      assert k.inst == s[|k.serv| + 1..] == t[|k'.serv| + 1..] == k'.inst;
    }
  }

  lemma {:induction false} CallKey(c: Call)
    requires '/' !in c.serv
    ensures Lower(CallName(c)) == KeyOf(c).Text() && '/' !in KeyOf(c).serv
  {
    LowerName(c.serv, c.inst);
    LowerKeepsSlash(c.serv);
  }

  /** A service is found in the list exactly when its key is among the keys. */
  lemma {:induction false} FoundKey(ss: seq<Service>, ks: seq<Key>, name: string, k: Key)
    requires Keyed(ss, ks) && '/' !in k.serv && Lower(name) == k.Text()
    ensures FindService(ss, name) == -1 <==> k !in ks
  {
    hide Lower, Key.Text;
    forall i | 0 <= i < |ss| ensures SameName(ss[i].name, name) <==> ks[i] == k {
      KeyTextSame(ks[i], k);
    }
  }

  lemma {:induction false} RegisteredKeyed(ss: seq<Service>, ks: seq<Key>, name: string, dev: string, k: Key)
    requires Keyed(ss, ks) && '/' !in k.serv && Lower(name) == k.Text()
    ensures Keyed(Registered(ss, name, dev), if k in ks then ks else ks + [k])
  {
    FoundKey(ss, ks, name, k);
    hide Lower, Key.Text, SameName;
    var r := Registered(ss, name, dev);
    assert forall i | 0 <= i < |ss| :: r[i].name == ss[i].name;
    if k !in ks {
      assert r[|ss|].name == name;
    }
  }

  lemma {:induction false} UnregisteredKeyed(ss: seq<Service>, ks: seq<Key>, name: string, k: Key)
    requires Keyed(ss, ks) && '/' !in k.serv && Lower(name) == k.Text()
    ensures Keyed(Unregistered(ss, name), Drop(ks, k))
    decreases |ss|
  {
    hide Keyed, Lower, Key.Text;
    if ss == [] {
      NothingKeyed(ss, ks);
    } else {
      KeyedTail(ss, ks);
      KeyedLength(ss, ks);
      KeyTextSame(ks[0], k);
      UnregisteredKeyed(ss[1..], ks[1..], name, k);
      var rest, left := Unregistered(ss[1..], name), Drop(ks[1..], k);
      KeyedCons(ss[0], rest, ks[0], left);
      assert [] + rest == rest && [] + left == left;
    }
  }

  lemma {:induction false} KeyedLength(ss: seq<Service>, ks: seq<Key>)
    requires Keyed(ss, ks)
    ensures |ss| == |ks|
  {
  }

  lemma {:induction false} NothingKeyed(ss: seq<Service>, ks: seq<Key>)
    requires Keyed(ss, ks) && ss == []
    ensures ks == []
  {
  }

  /** Calls with services free of '/'. */
  predicate PlainCalls(calls: seq<Call>) {
    forall c | c in calls :: ':' !in CallName(c) && '/' !in c.serv
  }

  lemma {:induction false} RunKeyed(calls: seq<Call>)
    requires PlainCalls(calls)
    ensures Keyed(Services(calls), Keys(calls))
    decreases |calls|
  {
    if calls != [] {
      var before, c := calls[..|calls| - 1], calls[|calls| - 1];
      assert c in calls;
      assert PlainCalls(before);
      RunKeyed(before);
      hide Keyed, Lower, Key.Text, Registered, Unregistered, KeyOf, CallName, PlainCalls;
      CallKey(c);
      if c.Reg? {
        RegisteredKeyed(Services(before), Keys(before), CallName(c), c.dev, KeyOf(c));
      } else {
        UnregisteredKeyed(Services(before), Keys(before), CallName(c), KeyOf(c));
      }
    }
  }

  // ----- looking up -----

  ghost predicate Backed(ss: seq<Service>, m: Registry) {
    forall i | 0 <= i < |ss| :: Lower(ss[i].name) in m && m[Lower(ss[i].name)] == ss[i].dev
  }

  /** What one service contributes to a look-up of all instances. */
  lemma {:induction false} OneContribution(s: Service, k: Key, wanted: string)
    requires ':' !in s.name && '/' !in k.serv && Lower(s.name) == k.Text() && '/' !in wanted
    ensures Answer(ServiceText(s), Filter(wanted, "*")) == if k.serv == Lower(wanted) then [Lower(s.dev)] else []
  {
    var a, b, d := k.serv, Lower(wanted), Lower(s.dev);
    LowerKeepsColon(s.name);
    LowerKeepsSlash(wanted);
    LowerConcat(s.name + ":", s.dev);
    LowerConcat(s.name, ":");
    LowerConcat(wanted, "/");
    assert Lower(":") == ":" && Lower("/") == "/";
    hide Lower, Answer, StartsWith;
    AnswerOf(ServiceText(s), Filter(wanted, "*"), k.Text(), d);
    assert a + "/" + k.inst + ":" + d == a + "/" + (k.inst + ":" + d);
    PrefixSame(a, b, '/', k.inst + ":" + d);
  }

  lemma {:induction false} AllContributions(ss: seq<Service>, ks: seq<Key>, m: Registry, wanted: string)
    requires NamesClean(ss) && Keyed(ss, ks) && Backed(ss, m) && '/' !in wanted
    ensures GetServices(Texts(ss), wanted, "*") == Devices(ks, m, Lower(wanted))
    decreases |ss|
  {
    hide Keyed, Lower, Key.Text, Answer, ServiceText, Filter;
    if ss == [] {
      NothingKeyed(ss, ks);
    } else {
      TextsTail(ss);
      KeyedTail(ss, ks);
      KeyedLength(ss, ks);
      OneContribution(ss[0], ks[0], wanted);
      AllContributions(ss[1..], ks[1..], m, wanted);
    }
  }

  lemma {:induction false} RepresentsBacked(ss: seq<Service>, m: Registry)
    requires Represents(ss, m)
    ensures Backed(ss, m)
  {
    hide Lower;
  }

  /** After every run a look-up of all instances gives, in the order of first registration, the lower-cased
      device of every key whose service matches. */
  lemma {:induction false} WildcardFinds(calls: seq<Call>, wanted: string)
    requires PlainCalls(calls) && '/' !in wanted
    ensures GetServices(ApplyAll(calls), wanted, "*") == Devices(Keys(calls), MapAll(calls), Lower(wanted))
  {
    hide ApplyAll, MapAll, GetServices, Lower, Represents, Backed, NamesClean, Services, Keyed, Keys, Devices, Texts;
    assert forall c | c in calls :: ':' !in CallName(c);
    RunRepresents(calls);
    RunKeyed(calls);
    RepresentsBacked(Services(calls), MapAll(calls));
    AllContributions(Services(calls), Keys(calls), MapAll(calls), wanted);
  }

  /** Every key of a run is in the map, so no key is passed over. */
  lemma {:induction false} KeysMapped(calls: seq<Call>, k: Key)
    requires PlainCalls(calls) && '/' !in k.serv
    ensures k in Keys(calls) <==> k.Text() in MapAll(calls)
  {
    hide ApplyAll, MapAll, Lower, NamesClean, Services, Keys, Texts, Key.Text, Distinct;
    assert forall c | c in calls :: ':' !in CallName(c);
    RunRepresents(calls);
    RunKeyed(calls);
    var ss, ks, m := Services(calls), Keys(calls), MapAll(calls);
    if k in ks {
      var i :| 0 <= i < |ks| && ks[i] == k;
      assert Lower(ss[i].name) == k.Text();
    }
    if k.Text() in m {
      var i :| 0 <= i < |ss| && Lower(ss[i].name) == k.Text();
      KeyTextSame(ks[i], k);
    }
  }
}
