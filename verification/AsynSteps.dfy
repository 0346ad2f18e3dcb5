/** The steps of `AsynReq`: the tables of asynchronous requests in polling and in callback mode, with their lazily
    purged list of cancelled requests. Each locked method is one step. */
module AsynSteps {
  import opened Text

  /** Addresses stand for the pointers the tables are keyed by. */
  type Connection = int
  type Request = int
  type CallBack = int

  datatype ReqType = CMD_INOUT | READ_ATTR | WRITE_ATTR_SINGLE | WRITE_ATTR

  datatype TgRequest = TgRequest(request: Option<Request>, reqType: ReqType, cb: Option<CallBack>, arrived: bool, dev: Option<Connection>)

  /** An entry of `asyn_poll_req_table`, a map in the order of its keys. */
  datatype PollEntry = PollEntry(id: int, req: Request, reqType: ReqType)

  /** An entry of `cb_dev_table`, a multimap in the order of its keys. */
  datatype DevEntry = DevEntry(dev: Connection, req: Request, reqType: ReqType, cb: CallBack, arrived: bool)

  /** The tables, the identifier counter and the log of `CORBA::release` calls. */
  datatype State = State(
    poll: seq<PollEntry>, devTable: seq<DevEntry>, reqTable: map<Request, TgRequest>,
    cancelled: seq<int>, ctr: int, released: seq<Request>)

  const Empty := State([], [], map[], [], 0, [])

  // ----- looking up -----

  /** Position of a polling request, or -1. */
  function FindId(poll: seq<PollEntry>, id: int): (r: int)
    ensures -1 <= r < |poll|
    ensures r != -1 ==> poll[r].id == id
    ensures r == -1 <==> forall k | 0 <= k < |poll| :: poll[k].id != id
  {
    if poll == [] then -1
    else if poll[0].id == id then 0
    else
      var r := FindId(poll[1..], id);
      assert forall k | 1 <= k < |poll| :: poll[k] == poll[1..][k - 1];
      if r == -1 then -1 else r + 1
  }

  /** Position of the first entry of a request under a device, or -1. */
  function FindEntry(t: seq<DevEntry>, dev: Connection, req: Request): (r: int)
    ensures -1 <= r < |t|
    ensures r != -1 ==> t[r].dev == dev && t[r].req == req && forall k | 0 <= k < r :: t[k].dev != dev || t[k].req != req
    ensures r == -1 ==> forall k | 0 <= k < |t| :: t[k].dev != dev || t[k].req != req
  {
    if t == [] then -1
    else if t[0].dev == dev && t[0].req == req then 0
    else
      var r := FindEntry(t[1..], dev, req);
      assert forall k | 1 <= k < |t| :: t[k] == t[1..][k - 1];
      if r == -1 then -1 else r + 1
  }

  /** Position of the first entry of a request, or -1. */
  function FindReq(t: seq<DevEntry>, req: Request): (r: int)
    ensures -1 <= r < |t|
    ensures r != -1 ==> t[r].req == req && forall k | 0 <= k < r :: t[k].req != req
    ensures r == -1 ==> forall k | 0 <= k < |t| :: t[k].req != req
  {
    if t == [] then -1
    else if t[0].req == req then 0
    else
      var r := FindReq(t[1..], req);
      assert forall k | 1 <= k < |t| :: t[k] == t[1..][k - 1];
      if r == -1 then -1 else r + 1
  }

  /** Where a multimap inserts a key: behind every entry with the same key or a smaller one. */
  function UpperBound(t: seq<DevEntry>, dev: Connection): (r: nat)
    ensures r <= |t|
    ensures forall k | 0 <= k < r :: t[k].dev <= dev
    ensures r < |t| ==> t[r].dev > dev
  {
    if t == [] || t[0].dev > dev then 0
    else
      var r := UpperBound(t[1..], dev);
      assert forall k | 1 <= k < |t| :: t[k] == t[1..][k - 1];
      r + 1
  }

  function Without<T>(s: seq<T>, i: nat): seq<T>
    requires i < |s|
  {
    s[..i] + s[i + 1..]
  }

  // ----- the purge of cancelled requests -----

  /** A cancelled request can go when it has left the table already or its reply is there. `answered` is
      what `poll_response()` says at that moment; an exception counts as no. */
  predicate Removable(poll: seq<PollEntry>, answered: set<Request>, id: int) {
    var k := FindId(poll, id);
    k == -1 || poll[k].req in answered
  }

  /** What the loop over the cancelled list leaves: after an erased element, the iterator is already on the
      next one when it is advanced again, so that one is kept unseen. */
  function Kept(c: seq<int>, removable: int -> bool): seq<int> {
    if c == [] then []
    else if removable(c[0]) then (if |c| == 1 then [] else [c[1]] + Kept(c[2..], removable))
    else [c[0]] + Kept(c[1..], removable)
  }

  /** What it erases. */
  function Dropped(c: seq<int>, removable: int -> bool): seq<int> {
    if c == [] then []
    else if removable(c[0]) then [c[0]] + (if |c| == 1 then [] else Dropped(c[2..], removable))
    else Dropped(c[1..], removable)
  }

  function CountIf(c: seq<int>, p: int -> bool): nat {
    if c == [] then 0 else (if p(c[0]) then 1 else 0) + CountIf(c[1..], p)
  }

  /** `sub` is what remains of `c` when some elements are left out. */
  ghost predicate Subsequence(sub: seq<int>, c: seq<int>) {
    if sub == [] then true
    else if c == [] then false
    else (sub[0] == c[0] && Subsequence(sub[1..], c[1..])) || Subsequence(sub, c[1..])
  }

  lemma {:induction false} CountTwo(c: seq<int>, p: int -> bool)
    requires |c| > 1
    ensures CountIf(c, p) == (if p(c[0]) then 1 else 0) + (if p(c[1]) then 1 else 0) + CountIf(c[2..], p)
  {
    assert c[1..][1..] == c[2..];
  }

  lemma {:induction false} CountCons(x: int, c: seq<int>, p: int -> bool)
    ensures CountIf([x] + c, p) == (if p(x) then 1 else 0) + CountIf(c, p)
  {
    assert ([x] + c)[1..] == c;
  }

  /** Although it skips an element after each erasure, one purge removes at least half of what can be
      removed, and no more than that. */
  lemma {:induction false} PurgeProgress(c: seq<int>, removable: int -> bool)
    ensures 2 * |Dropped(c, removable)| >= CountIf(c, removable)
    ensures CountIf(c, removable) == |Dropped(c, removable)| + CountIf(Kept(c, removable), removable)
    decreases |c|
  {
    if c != [] {
      if !removable(c[0]) {
        PurgeProgress(c[1..], removable);
        CountCons(c[0], Kept(c[1..], removable), removable);
      } else if |c| > 1 {
        PurgeProgress(c[2..], removable);
        CountTwo(c, removable);
        CountCons(c[1], Kept(c[2..], removable), removable);
      }
    }
  }

  lemma {:induction false} MultisetCons(x: int, c: seq<int>)
    ensures multiset([x] + c) == multiset{x} + multiset(c)
  {
  }

  /** It loses or invents no element. */
  lemma {:induction false} PurgeConserves(c: seq<int>, removable: int -> bool)
    ensures multiset(c) == multiset(Kept(c, removable)) + multiset(Dropped(c, removable))
    decreases |c|
  {
    if c != [] {
      var x, tail := c[0], c[1..];
      MultisetCons(x, tail);
      assert c == [x] + tail;
      if !removable(x) {
        PurgeConserves(tail, removable);
        MultisetCons(x, Kept(tail, removable));
      } else if tail != [] {
        var y, rest := c[1], c[2..];
        assert tail == [y] + rest;
        PurgeConserves(rest, removable);
        var kept, dropped := Kept(rest, removable), Dropped(rest, removable);
        assert Kept(c, removable) == [y] + kept && Dropped(c, removable) == [x] + dropped;
        hide Kept, Dropped;
        MultisetCons(y, rest);
        MultisetCons(y, kept);
        MultisetCons(x, dropped);
      }
    }
  }

  /** It erases nothing that cannot be removed. */
  lemma {:induction false} PurgeDropsRemovable(c: seq<int>, removable: int -> bool)
    ensures forall x | x in Dropped(c, removable) :: removable(x)
    decreases |c|
  {
    if c != [] {
      if removable(c[0]) && |c| > 1 {
        PurgeDropsRemovable(c[2..], removable);
      } else {
        PurgeDropsRemovable(c[1..], removable);
      }
    }
  }

  /** What stays keeps its order. */
  lemma {:induction false} PurgeKeepsOrder(c: seq<int>, removable: int -> bool)
    ensures Subsequence(Kept(c, removable), c)
    decreases |c|
  {
    if c != [] {
      if !removable(c[0]) {
        PurgeKeepsOrder(c[1..], removable);
        assert Kept(c, removable)[1..] == Kept(c[1..], removable);
      } else if |c| > 1 {
        PurgeKeepsOrder(c[2..], removable);
        assert c[1..][1..] == c[2..];
        assert Kept(c, removable)[1..] == Kept(c[2..], removable);
        assert Subsequence(Kept(c, removable), c[1..]);
      }
    }
  }

  /** No two elements that can be removed stand side by side. */
  predicate Apart(c: seq<int>, removable: int -> bool) {
    forall i | 0 <= i < |c| - 1 :: removable(c[i]) ==> !removable(c[i + 1])
  }

  lemma {:induction false} ApartTail(c: seq<int>, removable: int -> bool)
    requires |c| > 1
    ensures Apart(c, removable) <==> (removable(c[0]) ==> !removable(c[1])) && Apart(c[1..], removable)
  {
    var tail := c[1..];
    assert forall i | 0 <= i < |tail| :: tail[i] == c[i + 1];
    if (removable(c[0]) ==> !removable(c[1])) && Apart(tail, removable) {
      forall i | 0 <= i < |c| - 1 ensures removable(c[i]) ==> !removable(c[i + 1]) {
        if i > 0 {
          assert removable(tail[i - 1]) ==> !removable(tail[i]);
        }
      }
    }
  }

  /** One purge removes everything that can be removed if and only if no two such elements stand side by
      side. */
  lemma {:induction false} PurgeComplete(c: seq<int>, removable: int -> bool)
    ensures CountIf(Kept(c, removable), removable) == 0 <==> Apart(c, removable)
    decreases |c|
  {
    hide Apart;
    if |c| <= 1 {
      NothingAside(c, removable);
    } else {
      ApartTail(c, removable);
      if !removable(c[0]) {
        PurgeComplete(c[1..], removable);
        CountCons(c[0], Kept(c[1..], removable), removable);
      } else {
        PurgeComplete(c[2..], removable);
        CountCons(c[1], Kept(c[2..], removable), removable);
        assert c[1..][1..] == c[2..];
        if |c| > 2 {
          ApartTail(c[1..], removable);
        } else {
          NothingAside(c[1..], removable);
          NothingAside(c[2..], removable);
        }
      }
    }
  }

  lemma {:induction false} NothingAside(c: seq<int>, removable: int -> bool)
    requires |c| <= 1
    ensures Apart(c, removable) && CountIf(Kept(c, removable), removable) == 0
  {
  }

  /** Where it is incomplete: of two cancelled and answered requests the second survives. */
  lemma {:induction false} PurgeLeaves(id: int, id': int, removable: int -> bool)
    requires removable(id) && removable(id')
    ensures Kept([id, id'], removable) == [id']
  {
    assert [id, id'][2..] == [];
  }

  // ----- the steps -----

  function CanRemove(poll: seq<PollEntry>, answered: set<Request>): int -> bool {
    id => Removable(poll, answered, id)
  }

  /** `remove_cancelled_request`, when the request can go: nothing if it has gone already, else release. */
  function RemoveGone(poll: seq<PollEntry>, released: seq<Request>, id: int): (seq<PollEntry>, seq<Request>) {
    var k := FindId(poll, id);
    if k == -1 then (poll, released) else (Without(poll, k), released + [poll[k].req])
  }

  function RemoveAllGone(poll: seq<PollEntry>, released: seq<Request>, ids: seq<int>): (seq<PollEntry>, seq<Request>)
    decreases |ids|
  {
    if ids == [] then (poll, released)
    else
      var (poll', released') := RemoveAllGone(poll, released, ids[..|ids| - 1]);
      RemoveGone(poll', released', ids[|ids| - 1])
  }

  /** `store_request`, polling mode: purge, then a new identifier for the new request. */
  function StorePoll(s: State, answered: set<Request>, req: Request, ty: ReqType): State {
    var can := CanRemove(s.poll, answered);
    var (poll, released) := RemoveAllGone(s.poll, s.released, Dropped(s.cancelled, can));
    s.(poll := poll + [PollEntry(s.ctr + 1, req, ty)], released := released,
       cancelled := Kept(s.cancelled, can), ctr := s.ctr + 1)
  }

  function View(e: DevEntry): TgRequest {
    TgRequest(None, e.reqType, Some(e.cb), e.arrived, Some(e.dev))
  }

  function Insert(t: seq<DevEntry>, e: DevEntry): seq<DevEntry> {
    var u := UpperBound(t, e.dev);
    t[..u] + [e] + t[u..]
  }

  /** `store_request`, callback mode: a multimap always inserts, a map keeps the value of a known key. */
  function StoreCb(s: State, e: DevEntry): State {
    s.(devTable := Insert(s.devTable, e),
       reqTable := if e.req in s.reqTable then s.reqTable else s.reqTable[e.req := View(e)])
  }

  /** `get_request(req)`, the arrived flag set through the reference it returns, `mark_as_arrived(req)`.
      None: the request is unknown and `get_request` throws. */
  function Arrive(s: State, req: Request): Option<State> {
    if req !in s.reqTable then None
    else
      var k := FindReq(s.devTable, req);
      Some(s.(reqTable := s.reqTable[req := s.reqTable[req].(arrived := true)],
              devTable := if k == -1 then s.devTable else s.devTable[k := s.devTable[k].(arrived := true)]))
  }

  /** `remove_request(dev, req)` */
  function RemoveCb(s: State, dev: Connection, req: Request): State {
    var k := FindEntry(s.devTable, dev, req);
    s.(devTable := if k == -1 then s.devTable else Without(s.devTable, k),
       released := if k == -1 then s.released else s.released + [req],
       reqTable := s.reqTable - {req})
  }

  /** `remove_request(id)`; None: unknown identifier. */
  function RemovePoll(s: State, id: int): Option<State> {
    var k := FindId(s.poll, id);
    if k == -1 then None
    else Some(s.(poll := Without(s.poll, k), released := s.released + [s.poll[k].req]))
  }

  function Cancelling(c: seq<int>, id: int): seq<int> {
    if id in c then c else c + [id]
  }

  /** `mark_as_cancelled(id)`; None: unknown identifier. */
  function Cancel(s: State, id: int): Option<State> {
    if FindId(s.poll, id) == -1 then None else Some(s.(cancelled := Cancelling(s.cancelled, id)))
  }

  function CancellingAll(c: seq<int>, poll: seq<PollEntry>): seq<int>
    decreases |poll|
  {
    if poll == [] then c
    else Cancelling(CancellingAll(c, poll[..|poll| - 1]), poll[|poll| - 1].id)
  }

  /** `mark_all_polling_as_cancelled()` */
  function CancelAll(s: State): State {
    s.(cancelled := CancellingAll(s.cancelled, s.poll))
  }

  // ----- what every step keeps -----

  predicate Distinct(t: seq<DevEntry>) {
    forall i, j | 0 <= i < j < |t| :: t[i].req != t[j].req
  }

  predicate ByDevice(t: seq<DevEntry>) {
    forall i, j | 0 <= i < j < |t| :: t[i].dev <= t[j].dev
  }

  predicate Viewed(t: seq<DevEntry>, m: map<Request, TgRequest>) {
    forall i | 0 <= i < |t| :: t[i].req in m && m[t[i].req] == View(t[i])
  }

  predicate Covered(t: seq<DevEntry>, m: map<Request, TgRequest>) {
    forall r | r in m :: FindReq(t, r) != -1
  }

  /** The two callback tables hold the same requests, each with the same device, type, callback and
      arrived flag. */
  predicate Mirror(s: State) {
    Distinct(s.devTable) && ByDevice(s.devTable) && Viewed(s.devTable, s.reqTable) && Covered(s.devTable, s.reqTable)
  }

  predicate Ordered(poll: seq<PollEntry>, ctr: int) {
    && (forall i, j | 0 <= i < j < |poll| :: poll[i].id < poll[j].id)
    && forall i | 0 <= i < |poll| :: poll[i].id <= ctr
  }

  ghost predicate NoRepeats(c: seq<int>) {
    forall x :: multiset(c)[x] <= 1
  }

  ghost predicate Inv(s: State) {
    Mirror(s) && Ordered(s.poll, s.ctr) && NoRepeats(s.cancelled)
  }

  function PollReqs(poll: seq<PollEntry>): seq<Request> {
    seq(|poll|, i requires 0 <= i < |poll| => poll[i].req)
  }

  function DevReqs(t: seq<DevEntry>): seq<Request> {
    seq(|t|, i requires 0 <= i < |t| => t[i].req)
  }

  /** The requests the tables still hold. */
  function Pending(s: State): multiset<Request> {
    multiset(PollReqs(s.poll)) + multiset(DevReqs(s.devTable))
  }

  // ----- callback mode -----

  lemma {:induction false} FoundIsOnly(t: seq<DevEntry>, k: nat)
    requires k < |t| && Distinct(t)
    ensures FindReq(t, t[k].req) == k && FindEntry(t, t[k].dev, t[k].req) == k
  {
  }

  /** Entries before the insertion point keep their position, the others move by one. */
  lemma {:induction false} InsertIndex(t: seq<DevEntry>, e: DevEntry) returns (u: nat)
    ensures u <= |t| && |Insert(t, e)| == |t| + 1 && Insert(t, e)[u] == e
    ensures forall i | 0 <= i < u :: Insert(t, e)[i] == t[i] && t[i].dev <= e.dev
    ensures forall i | u < i <= |t| :: Insert(t, e)[i] == t[i - 1]
    ensures u < |t| ==> t[u].dev > e.dev
  {
    u := UpperBound(t, e.dev);
  }

  lemma {:induction false} InsertFresh(t: seq<DevEntry>, e: DevEntry)
    requires Distinct(t) && forall i | 0 <= i < |t| :: t[i].req != e.req
    ensures Distinct(Insert(t, e))
  {
    var u := InsertIndex(t, e);
    hide Insert;
    var t' := Insert(t, e);
    forall i, j | 0 <= i < j < |t'| ensures t'[i].req != t'[j].req {
      assert i < u ==> t'[i] == t[i];
      assert i > u ==> t'[i] == t[i - 1];
      assert j < u ==> t'[j] == t[j];
      assert j > u ==> t'[j] == t[j - 1];
    }
  }

  lemma {:induction false} InsertByDevice(t: seq<DevEntry>, e: DevEntry)
    requires ByDevice(t)
    ensures ByDevice(Insert(t, e))
  {
    var u := InsertIndex(t, e);
    hide Insert;
    var t' := Insert(t, e);
    forall i, j | 0 <= i < j < |t'| ensures t'[i].dev <= t'[j].dev {
      assert i < u ==> t'[i] == t[i];
      assert i > u ==> t'[i] == t[i - 1];
      assert j < u ==> t'[j] == t[j];
      assert j > u ==> t'[j] == t[j - 1];
    }
  }

  /** What is found in a table is found after an insertion, and so is the new request. */
  lemma {:induction false} InsertFound(t: seq<DevEntry>, e: DevEntry, r: Request)
    ensures FindReq(Insert(t, e), r) != -1 <==> r == e.req || FindReq(t, r) != -1
  {
    var u := InsertIndex(t, e);
    hide Insert, FindReq;
    var t', k := Insert(t, e), FindReq(t, r);
    if r == e.req {
      assert t'[u].req == r;
    } else if k != -1 {
      if k < u { assert t'[k].req == r; } else { assert t'[k + 1].req == r; }
    } else {
      forall i | 0 <= i < |t'| ensures t'[i].req != r {
        assert i < u ==> t'[i] == t[i];
        assert i > u ==> t'[i] == t[i - 1];
      }
    }
  }

  lemma {:induction false} InsertViewed(t: seq<DevEntry>, e: DevEntry, m: map<Request, TgRequest>)
    requires Viewed(t, m) && e.req !in m
    ensures Viewed(Insert(t, e), m[e.req := View(e)])
  {
    var u := InsertIndex(t, e);
    hide Insert, View;
    var t', m' := Insert(t, e), m[e.req := View(e)];
    forall i | 0 <= i < |t'| ensures t'[i].req in m' && m'[t'[i].req] == View(t'[i]) {
      assert i < u ==> t'[i] == t[i];
      assert i > u ==> t'[i] == t[i - 1];
    }
  }

  /** Storing keeps the mirror exactly when the request handle is a fresh one. */
  lemma {:induction false} StoreCbMirror(s: State, e: DevEntry)
    requires Mirror(s)
    ensures Mirror(StoreCb(s, e)) <==> e.req !in s.reqTable
  {
    var t := s.devTable;
    if e.req in s.reqTable {
      StaleInsert(t, e);
    } else {
      hide Insert, FindReq, View;
      assert forall i | 0 <= i < |t| :: t[i].req in s.reqTable;
      InsertFresh(t, e);
      InsertByDevice(t, e);
      InsertViewed(t, e, s.reqTable);
      forall r | r in StoreCb(s, e).reqTable ensures FindReq(Insert(t, e), r) != -1 {
        InsertFound(t, e, r);
      }
    }
  }

  lemma {:induction false} StaleInsert(t: seq<DevEntry>, e: DevEntry)
    requires FindReq(t, e.req) != -1
    ensures !Distinct(Insert(t, e))
  {
    var u := InsertIndex(t, e);
    hide Insert, FindReq;
    var k, t' := FindReq(t, e.req), Insert(t, e);
    if k < u {
      assert t'[k].req == t'[u].req;
    } else {
      assert t'[k + 1].req == t'[u].req;
    }
  }

  lemma {:induction false} InsertReqs(t: seq<DevEntry>, e: DevEntry)
    ensures multiset(DevReqs(Insert(t, e))) == multiset(DevReqs(t)) + multiset{e.req}
  {
    var u := UpperBound(t, e.dev);
    var a, b := DevReqs(t[..u]), DevReqs(t[u..]);
    assert DevReqs(Insert(t, e)) == a + [e.req] + b;
    assert DevReqs(t) == a + b;
  }

  lemma {:induction false} ArriveMirror(s: State, req: Request)
    requires Mirror(s) && req in s.reqTable
    ensures Mirror(Arrive(s, req).value)
    ensures DevReqs(Arrive(s, req).value.devTable) == DevReqs(s.devTable)
  {
    hide FindReq;
    var k, t := FindReq(s.devTable, req), s.devTable;
    assert k != -1;
    var t', m' := Arrive(s, req).value.devTable, Arrive(s, req).value.reqTable;
    assert forall i | 0 <= i < |t| :: t'[i].req == t[i].req && t'[i].dev == t[i].dev;
    forall r | r in m' ensures FindReq(t', r) != -1 {
      var i := FindReq(t, r);
      assert t'[i].req == r;
    }
    forall i | 0 <= i < |t'| ensures t'[i].req in m' && m'[t'[i].req] == View(t'[i]) {
      if i != k {
        assert t[i].req != req;
      }
    }
  }

  /** Removing keeps the mirror exactly when the device is the one the request was stored for. */
  lemma {:induction false} RemoveCbMirror(s: State, dev: Connection, req: Request)
    requires Mirror(s)
    ensures Mirror(RemoveCb(s, dev, req)) <==> (req in s.reqTable ==> s.reqTable[req].dev == Some(dev))
  {
    hide FindReq, FindEntry;
    var t, k := s.devTable, FindEntry(s.devTable, dev, req);
    var s' := RemoveCb(s, dev, req);
    if k == -1 {
      assert s'.devTable == t;
      if req in s.reqTable {
        var j := FindReq(t, req);
        assert t[j].req == req && t[j].dev != dev && s.reqTable[req] == View(t[j]);
        assert t[j].req !in s'.reqTable;
      } else {
        assert s'.reqTable == s.reqTable;
      }
    } else {
      assert s.reqTable[req] == View(t[k]);
      RemovedMirror(s, k);
    }
  }

  lemma {:induction false} RemovedMirror(s: State, k: nat)
    requires Mirror(s) && k < |s.devTable|
    ensures Mirror(s.(devTable := Without(s.devTable, k), reqTable := s.reqTable - {s.devTable[k].req}))
  {
    hide FindReq;
    var t, t', m' := s.devTable, Without(s.devTable, k), s.reqTable - {s.devTable[k].req};
    assert forall i | 0 <= i < k :: t'[i] == t[i];
    assert forall i | k <= i < |t'| :: t'[i] == t[i + 1];
    assert forall i | 0 <= i < |t'| :: t'[i] == t[if i < k then i else i + 1];
    forall r | r in m' ensures FindReq(t', r) != -1 {
      var i := FindReq(t, r);
      if i < k { assert t'[i].req == r; } else { assert t'[i - 1].req == r; }
    }
  }

  lemma {:induction false} WithoutReqs(t: seq<DevEntry>, k: nat)
    requires k < |t|
    ensures multiset(DevReqs(t)) == multiset(DevReqs(Without(t, k))) + multiset{t[k].req}
  {
    var a, b := DevReqs(t[..k]), DevReqs(t[k + 1..]);
    assert DevReqs(t) == a + [t[k].req] + b;
    assert DevReqs(Without(t, k)) == a + b;
  }

  // ----- polling mode -----

  lemma {:induction false} PollWithoutReqs(poll: seq<PollEntry>, k: nat)
    requires k < |poll|
    ensures multiset(PollReqs(poll)) == multiset(PollReqs(Without(poll, k))) + multiset{poll[k].req}
  {
    var a, b := PollReqs(poll[..k]), PollReqs(poll[k + 1..]);
    assert PollReqs(poll) == a + [poll[k].req] + b;
    assert PollReqs(Without(poll, k)) == a + b;
  }

  lemma {:induction false} WithoutOrdered(poll: seq<PollEntry>, ctr: int, k: nat)
    requires Ordered(poll, ctr) && k < |poll|
    ensures Ordered(Without(poll, k), ctr)
    ensures FindId(Without(poll, k), poll[k].id) == -1
  {
    var p := Without(poll, k);
    assert forall i | 0 <= i < |p| :: p[i] == poll[if i < k then i else i + 1];
  }

  /** Removing one request changes the lookup of no other identifier. */
  lemma {:induction false} WithoutOthers(poll: seq<PollEntry>, ctr: int, k: nat, id: int)
    requires Ordered(poll, ctr) && k < |poll| && id != poll[k].id
    ensures var p := Without(poll, k);
            var i, j := FindId(p, id), FindId(poll, id);
            (i == -1 <==> j == -1) && (i != -1 ==> p[i] == poll[j])
  {
    hide FindId;
    var p := Without(poll, k);
    var i, j := FindId(p, id), FindId(poll, id);
    if i != -1 {
      assert p[i] == poll[if i < k then i else i + 1];
      assert poll[j].id == poll[if i < k then i else i + 1].id;
    }
    if j != -1 {
      assert p[if j < k then j else j - 1] == poll[j];
    }
  }

  /** Removing a request that can go leaves every answer of `Removable` as it was. */
  lemma {:induction false} RemovableStable(poll: seq<PollEntry>, ctr: int, answered: set<Request>, gone: int, id: int)
    requires Ordered(poll, ctr) && Removable(poll, answered, gone)
    ensures Removable(RemoveGone(poll, [], gone).0, answered, id) == Removable(poll, answered, id)
  {
    hide FindId;
    var k := FindId(poll, gone);
    if k != -1 {
      if id == gone {
        WithoutOrdered(poll, ctr, k);
      } else {
        WithoutOthers(poll, ctr, k, id);
      }
    }
  }

  /** Removing any number of them: order, answers, and every released request is one that left. */
  lemma {:induction false} RemoveAllGoneKeeps(poll: seq<PollEntry>, ctr: int, released: seq<Request>, answered: set<Request>, ids: seq<int>)
    requires Ordered(poll, ctr) && forall x | x in ids :: Removable(poll, answered, x)
    ensures var (p, r) := RemoveAllGone(poll, released, ids);
            && Ordered(p, ctr)
            && (forall id :: Removable(p, answered, id) == Removable(poll, answered, id))
            && multiset(r) + multiset(PollReqs(p)) == multiset(released) + multiset(PollReqs(poll))
    decreases |ids|
  {
    if ids != [] {
      var last := ids[|ids| - 1];
      RemoveAllGoneKeeps(poll, ctr, released, answered, ids[..|ids| - 1]);
      var (p, r) := RemoveAllGone(poll, released, ids[..|ids| - 1]);
      hide RemoveAllGone, Ordered, Removable, FindId;
      RemoveOneKeeps(p, ctr, r, answered, last);
    }
  }

  lemma {:induction false} RemoveOneKeeps(poll: seq<PollEntry>, ctr: int, released: seq<Request>, answered: set<Request>, gone: int)
    requires Ordered(poll, ctr) && Removable(poll, answered, gone)
    ensures var (p, r) := RemoveGone(poll, released, gone);
            && Ordered(p, ctr)
            && (forall id :: Removable(p, answered, id) == Removable(poll, answered, id))
            && multiset(r) + multiset(PollReqs(p)) == multiset(released) + multiset(PollReqs(poll))
  {
    hide Ordered, Removable, FindId, PollReqs;
    forall id ensures Removable(RemoveGone(poll, released, gone).0, answered, id) == Removable(poll, answered, id) {
      RemovableStable(poll, ctr, answered, gone, id);
    }
    var k := FindId(poll, gone);
    if k != -1 {
      WithoutOrdered(poll, ctr, k);
      PollWithoutReqs(poll, k);
    }
  }

  /** A request leaves the table in a purge only if it was cancelled and its reply is there. */
  lemma {:induction false} RemoveAllGoneOnly(poll: seq<PollEntry>, released: seq<Request>, ids: seq<int>, e: PollEntry)
    requires e in poll && e.id !in ids
    ensures e in RemoveAllGone(poll, released, ids).0
    decreases |ids|
  {
    if ids != [] {
      RemoveAllGoneOnly(poll, released, ids[..|ids| - 1], e);
      var p := RemoveAllGone(poll, released, ids[..|ids| - 1]).0;
      hide RemoveAllGone;
      var k := FindId(p, ids[|ids| - 1]);
      if k != -1 {
        var i :| 0 <= i < |p| && p[i] == e;
        assert i != k;
        if i < k { assert Without(p, k)[i] == e; } else { assert Without(p, k)[i - 1] == e; }
      }
    }
  }

  /** `store_request` never drops a pending request, unless that was cancelled and answered. */
  lemma {:induction false} PurgeDropsOnlyAnswered(s: State, answered: set<Request>, req: Request, ty: ReqType, e: PollEntry)
    requires Inv(s) && e in s.poll
    ensures e in StorePoll(s, answered, req, ty).poll || (e.id in s.cancelled && e.req in answered)
  {
    var can := CanRemove(s.poll, answered);
    var ids := Dropped(s.cancelled, can);
    PurgeConserves(s.cancelled, can);
    PurgeDropsRemovable(s.cancelled, can);
    hide RemoveAllGone, Dropped, Kept, Mirror;
    if e.id in ids {
      assert can(e.id);
      assert e.id in multiset(ids) && e.id in multiset(s.cancelled);
      var k := FindId(s.poll, e.id);
      var i :| 0 <= i < |s.poll| && s.poll[i] == e;
      assert i == k;
    } else {
      RemoveAllGoneOnly(s.poll, s.released, ids, e);
    }
  }

  lemma {:induction false} Rearrange(r: multiset<Request>, p: multiset<Request>, r': multiset<Request>, p': multiset<Request>,
                                     d: multiset<Request>, x: multiset<Request>)
    requires r + p == r' + p'
    ensures r + (p + x + d) == r' + (p' + d) + x
  {
    assert r + (p + x + d) == (r + p) + d + x;
    assert r' + (p' + d) + x == (r' + p') + d + x;
  }

  lemma {:induction false} StorePollKeeps(s: State, answered: set<Request>, req: Request, ty: ReqType)
    requires Inv(s)
    ensures Inv(StorePoll(s, answered, req, ty))
    ensures var t := StorePoll(s, answered, req, ty);
            multiset(t.released) + Pending(t) == multiset(s.released) + Pending(s) + multiset{req}
  {
    var can := CanRemove(s.poll, answered);
    var ids := Dropped(s.cancelled, can);
    PurgeConserves(s.cancelled, can);
    PurgeDropsRemovable(s.cancelled, can);
    hide Removable, RemoveAllGone, Dropped, Kept, DevReqs;
    assert forall x | x in ids :: can(x) == Removable(s.poll, answered, x);
    RemoveAllGoneKeeps(s.poll, s.ctr, s.released, answered, ids);
    var (p, r) := RemoveAllGone(s.poll, s.released, ids);
    assert PollReqs(p + [PollEntry(s.ctr + 1, req, ty)]) == PollReqs(p) + [req];
    var t := StorePoll(s, answered, req, ty);
    assert t.devTable == s.devTable && t.released == r && t.poll == p + [PollEntry(s.ctr + 1, req, ty)];
    assert multiset(PollReqs(t.poll)) == multiset(PollReqs(p)) + multiset{req};
    Rearrange(multiset(r), multiset(PollReqs(p)), multiset(s.released), multiset(PollReqs(s.poll)), multiset(DevReqs(s.devTable)), multiset{req});
    forall x ensures multiset(Kept(s.cancelled, can))[x] <= 1 {
      assert multiset(s.cancelled)[x] <= 1;
    }
  }

  lemma {:induction false} CancellingOnce(c: seq<int>, id: int)
    requires NoRepeats(c)
    ensures NoRepeats(Cancelling(c, id))
  {
    if id !in c {
      assert multiset(c)[id] == 0;
    }
  }

  lemma {:induction false} CancellingAllOnce(c: seq<int>, poll: seq<PollEntry>)
    requires NoRepeats(c)
    ensures NoRepeats(CancellingAll(c, poll))
    ensures forall x | x in c :: x in CancellingAll(c, poll)
    ensures forall i | 0 <= i < |poll| :: poll[i].id in CancellingAll(c, poll)
    decreases |poll|
  {
    hide NoRepeats;
    if poll != [] {
      CancellingAllOnce(c, poll[..|poll| - 1]);
      CancellingOnce(CancellingAll(c, poll[..|poll| - 1]), poll[|poll| - 1].id);
      assert forall i | 0 <= i < |poll| - 1 :: poll[i] == poll[..|poll| - 1][i];
    }
  }

  // ----- every run -----

  datatype Op =
    | DoStorePoll(answered: set<Request>, req: Request, ty: ReqType)
    | DoStoreCb(e: DevEntry)
    | DoArrive(req: Request)
    | DoRemoveCb(dev: Connection, req: Request)
    | DoRemovePoll(id: int)
    | DoCancel(id: int)
    | DoCancelAll

  /** One call; a call that throws leaves the tables as they are. */
  function Step(s: State, op: Op): State {
    match op
    case DoStorePoll(answered, req, ty) => StorePoll(s, answered, req, ty)
    case DoStoreCb(e) => StoreCb(s, e)
    case DoArrive(req) => OrSame(Arrive(s, req), s)
    case DoRemoveCb(dev, req) => RemoveCb(s, dev, req)
    case DoRemovePoll(id) => OrSame(RemovePoll(s, id), s)
    case DoCancel(id) => OrSame(Cancel(s, id), s)
    case DoCancelAll => CancelAll(s)
  }

  function OrSame(r: Option<State>, s: State): State {
    if r.Some? then r.value else s
  }

  /** The request handle a call stores. */
  function StoredBy(op: Op): multiset<Request> {
    match op
    case DoStorePoll(_, req, _) => multiset{req}
    case DoStoreCb(e) => multiset{e.req}
    case _ => multiset{}
  }

  /** Callers store fresh handles and name the device a request was stored for. */
  predicate WellUsed(s: State, op: Op) {
    match op
    case DoStoreCb(e) => e.req !in s.reqTable
    case DoRemoveCb(dev, req) => req in s.reqTable ==> s.reqTable[req].dev == Some(dev)
    case _ => true
  }

  function Run(s: State, ops: seq<Op>): State
    decreases |ops|
  {
    if ops == [] then s else Run(Step(s, ops[0]), ops[1..])
  }

  predicate WellUsedRun(s: State, ops: seq<Op>)
    decreases |ops|
  {
    ops != [] ==> WellUsed(s, ops[0]) && WellUsedRun(Step(s, ops[0]), ops[1..])
  }

  function Stored(ops: seq<Op>): multiset<Request> {
    if ops == [] then multiset{} else StoredBy(ops[0]) + Stored(ops[1..])
  }

  lemma {:induction false} StoreCbKeeps(s: State, e: DevEntry)
    requires Inv(s) && e.req !in s.reqTable
    ensures Inv(StoreCb(s, e))
    ensures Pending(StoreCb(s, e)) == Pending(s) + multiset{e.req} && StoreCb(s, e).released == s.released
  {
    hide PollReqs, DevReqs, Insert, Ordered, NoRepeats, Mirror;
    StoreCbMirror(s, e);
    InsertReqs(s.devTable, e);
  }

  lemma {:induction false} ArriveKeeps(s: State, req: Request)
    requires Inv(s) && req in s.reqTable
    ensures var t := Arrive(s, req).value; Inv(t) && Pending(t) == Pending(s) && t.released == s.released
  {
    hide PollReqs, DevReqs, Ordered, NoRepeats, Mirror;
    ArriveMirror(s, req);
  }

  lemma {:induction false} RemoveCbKeeps(s: State, dev: Connection, req: Request)
    requires Inv(s) && (req in s.reqTable ==> s.reqTable[req].dev == Some(dev))
    ensures var t := RemoveCb(s, dev, req);
            Inv(t) && multiset(t.released) + Pending(t) == multiset(s.released) + Pending(s)
  {
    hide PollReqs, DevReqs, Ordered, NoRepeats, Mirror, FindEntry, Without;
    RemoveCbMirror(s, dev, req);
    var k := FindEntry(s.devTable, dev, req);
    if k != -1 {
      WithoutReqs(s.devTable, k);
    }
  }

  lemma {:induction false} RemovePollKeeps(s: State, id: int)
    requires Inv(s) && RemovePoll(s, id).Some?
    ensures var t := RemovePoll(s, id).value;
            Inv(t) && multiset(t.released) + Pending(t) == multiset(s.released) + Pending(s)
  {
    hide PollReqs, DevReqs, Ordered, NoRepeats, Distinct, ByDevice, Viewed, Covered, FindId, Without;
    var k := FindId(s.poll, id);
    PollWithoutReqs(s.poll, k);
    WithoutOrdered(s.poll, s.ctr, k);
  }

  lemma {:induction false} CancelKeeps(s: State, c: seq<int>)
    requires Inv(s) && NoRepeats(c)
    ensures Inv(s.(cancelled := c)) && Pending(s.(cancelled := c)) == Pending(s)
  {
    hide PollReqs, DevReqs, Ordered, NoRepeats, Distinct, ByDevice, Viewed, Covered;
  }

  lemma {:induction false} CancelOneKeeps(s: State, id: int)
    requires Inv(s) && Cancel(s, id).Some?
    ensures var t := Cancel(s, id).value; Inv(t) && Pending(t) == Pending(s) && t.released == s.released
  {
    assert NoRepeats(s.cancelled);
    hide Inv, Pending, NoRepeats, FindId, Cancelling;
    CancellingOnce(s.cancelled, id);
    CancelKeeps(s, Cancelling(s.cancelled, id));
  }

  lemma {:induction false} CancelAllKeeps(s: State)
    requires Inv(s)
    ensures var t := CancelAll(s); Inv(t) && Pending(t) == Pending(s) && t.released == s.released
  {
    assert NoRepeats(s.cancelled);
    hide Inv, Pending, NoRepeats, CancellingAll;
    CancellingAllOnce(s.cancelled, s.poll);
    CancelKeeps(s, CancellingAll(s.cancelled, s.poll));
  }

  lemma {:induction false} StepKeeps(s: State, op: Op)
    requires Inv(s) && WellUsed(s, op)
    ensures Inv(Step(s, op))
    ensures multiset(Step(s, op).released) + Pending(Step(s, op)) == multiset(s.released) + Pending(s) + StoredBy(op)
  {
    hide Inv, Pending, StorePoll, StoreCb, RemoveCb, RemovePoll, Cancel, CancelAll, FindId;
    match op
    case DoStorePoll(answered, req, ty) => StorePollKeeps(s, answered, req, ty);
    case DoStoreCb(e) => StoreCbKeeps(s, e);
    case DoArrive(req) =>
      if req in s.reqTable {
        ArriveKeeps(s, req);
      }
    case DoRemoveCb(dev, req) => RemoveCbKeeps(s, dev, req);
    case DoRemovePoll(id) =>
      if RemovePoll(s, id).Some? {
        RemovePollKeeps(s, id);
      }
    case DoCancel(id) =>
      if Cancel(s, id).Some? {
        CancelOneKeeps(s, id);
      }
    case DoCancelAll => CancelAllKeeps(s);
  }

  /** In every run from empty tables, the callback tables mirror each other, identifiers are unique and
      each stored request is either still in a table or has been released, once for each time it was
      stored. */
  lemma {:induction false} RunKeeps(s: State, ops: seq<Op>)
    requires Inv(s) && WellUsedRun(s, ops)
    ensures Inv(Run(s, ops))
    ensures multiset(Run(s, ops).released) + Pending(Run(s, ops)) == multiset(s.released) + Pending(s) + Stored(ops)
    decreases |ops|
  {
    if ops != [] {
      hide Inv, Pending, WellUsed, Step, StoredBy;
      StepKeeps(s, ops[0]);
      RunKeeps(Step(s, ops[0]), ops[1..]);
    }
  }

  lemma {:induction false} RunFromEmpty(ops: seq<Op>)
    requires WellUsedRun(Empty, ops)
    ensures Inv(Run(Empty, ops))
    ensures multiset(Run(Empty, ops).released) + Pending(Run(Empty, ops)) == Stored(ops)
  {
    hide Run, Stored, WellUsedRun;
    RunKeeps(Empty, ops);
    assert PollReqs([]) == [] && DevReqs([]) == [];
  }
}
