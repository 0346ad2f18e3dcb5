/** `ApiUtil::get_asynch_replies`: the loops that collect replies and fire callbacks. What the ORB says is
    a list of events; callbacks do not store requests themselves. */
module Drain {
  import opened Text
  import opened AsynSteps
  import opened AsynTable

  datatype CallbackKind = CmdCallback | ReadAttrCallback | WriteAttrCallback

  /** A callback fired: by the type of the request, on its device, with its callback object. */
  datatype Fired = Fired(kind: CallbackKind, dev: Connection, req: Request, cb: CallBack)

  /** What polling or waiting for the next response gives. */
  datatype OrbEvent = NoReply | Reply(req: Request) | NotSentYet | OtherError

  datatype Outcome = Done | Blocked | BadAsyn | OrbError | NotArrived

  function KindOf(ty: ReqType): CallbackKind {
    match ty
    case CMD_INOUT => CmdCallback
    case READ_ATTR => ReadAttrCallback
    case WRITE_ATTR_SINGLE => WriteAttrCallback
    case WRITE_ATTR => WriteAttrCallback
  }

  function CallbackOf(e: DevEntry): Fired {
    Fired(KindOf(e.reqType), e.dev, e.req, e.cb)
  }

  /** The callbacks owed for the entries of a table. */
  function Callbacks(t: seq<DevEntry>): seq<Fired> {
    seq(|t|, i requires 0 <= i < |t| => CallbackOf(t[i]))
  }

  function Reqs(fired: seq<Fired>): seq<Request> {
    seq(|fired|, i requires 0 <= i < |fired| => fired[i].req)
  }

  // ----- one reply -----

  /** The reply to `req` marked as arrived in both tables, its callback fired, the request removed. */
  function Process(s: State, req: Request): State
    requires req in s.reqTable && s.reqTable[req].dev.Some?
  {
    RemoveCb(Arrive(s, req).value, s.reqTable[req].dev.value, req)
  }

  function CallbackFor(s: State, req: Request): Fired
    requires req in s.reqTable && s.reqTable[req].dev.Some? && s.reqTable[req].cb.Some?
  {
    Fired(KindOf(s.reqTable[req].reqType), s.reqTable[req].dev.value, req, s.reqTable[req].cb.value)
  }

  /** Nothing is lost, nothing fired twice: what was owed is either fired or still owed. Each callback
      fired takes one request out of both tables and releases it; polling requests are left alone. */
  ghost predicate Served(s: State, s': State, fired: seq<Fired>) {
    && Inv(s')
    && multiset(fired) + multiset(Callbacks(s'.devTable)) == multiset(Callbacks(s.devTable))
    && |fired| + |s'.devTable| == |s.devTable|
    && s'.released == s.released + Reqs(fired)
    && s'.poll == s.poll && s'.cancelled == s.cancelled && s'.ctr == s.ctr
  }

  /** A callback that belongs to an entry, told by the type of its request: one kind for commands, one for
      attributes read, one for attributes written. */
  predicate FiredFor(f: Fired, e: DevEntry) {
    && f.dev == e.dev && f.req == e.req && f.cb == e.cb
    && (f.kind == CmdCallback <==> e.reqType == CMD_INOUT)
    && (f.kind == ReadAttrCallback <==> e.reqType == READ_ATTR)
    && (f.kind == WriteAttrCallback <==> e.reqType == WRITE_ATTR || e.reqType == WRITE_ATTR_SINGLE)
  }

  ghost predicate FiredFrom(t: seq<DevEntry>, fired: seq<Fired>) {
    forall f | f in fired :: exists k | 0 <= k < |t| :: FiredFor(f, t[k])
  }

  lemma {:induction false} CallbackFits(e: DevEntry)
    ensures FiredFor(CallbackOf(e), e)
  {
  }

  /** Every callback fired belongs to an entry of the table on entry. */
  lemma {:induction false} ServedFires(s: State, s': State, fired: seq<Fired>)
    requires Served(s, s', fired)
    ensures FiredFrom(s.devTable, fired)
  {
    hide Inv, FiredFor;
    var cbs := Callbacks(s.devTable);
    forall f | f in fired ensures exists k | 0 <= k < |s.devTable| :: FiredFor(f, s.devTable[k]) {
      assert f in multiset(fired) && f in multiset(cbs);
      var k :| 0 <= k < |cbs| && cbs[k] == f;
      CallbackFits(s.devTable[k]);
    }
  }

  lemma {:induction false} ServedNothing(s: State)
    requires Inv(s)
    ensures Served(s, s, [])
  {
    assert s.released + [] == s.released;
  }

  lemma {:induction false} ServedTwice(s: State, s': State, s'': State, fired: seq<Fired>, fired': seq<Fired>)
    requires Served(s, s', fired) && Served(s', s'', fired')
    ensures Served(s, s'', fired + fired')
  {
    hide Inv, Callbacks;
    assert Reqs(fired + fired') == Reqs(fired) + Reqs(fired');
    assert (s.released + Reqs(fired)) + Reqs(fired') == s.released + (Reqs(fired) + Reqs(fired'));
    var a, b, c, d := multiset(fired), multiset(fired'), multiset(Callbacks(s'.devTable)), multiset(Callbacks(s''.devTable));
    assert multiset(fired + fired') + d == a + (b + d);
  }

  /** Both tables are empty together. */
  lemma {:induction false} EmptyTogether(s: State)
    requires Mirror(s)
    ensures |s.reqTable| == 0 <==> s.devTable == []
  {
    if s.devTable == [] {
      forall r ensures r !in s.reqTable {
        assert r in s.reqTable ==> FindReq(s.devTable, r) != -1;
      }
    } else {
      assert s.devTable[0].req in s.reqTable;
    }
  }

  lemma {:induction false} WithoutCallbacks(t: seq<DevEntry>, k: nat)
    requires k < |t|
    ensures multiset(Callbacks(t)) == multiset(Callbacks(Without(t, k))) + multiset{CallbackOf(t[k])}
  {
    var a, b := Callbacks(t[..k]), Callbacks(t[k + 1..]);
    assert Callbacks(t) == a + [CallbackOf(t[k])] + b;
    assert Callbacks(Without(t, k)) == a + b;
  }

  /** Removing the entry at `k` with its callback fired. */
  lemma {:induction false} ServedOne(s: State, k: nat)
    requires Inv(s) && k < |s.devTable|
    ensures Served(s, RemoveCb(s, s.devTable[k].dev, s.devTable[k].req), [CallbackOf(s.devTable[k])])
  {
    var e := s.devTable[k];
    FoundIsOnly(s.devTable, k);
    assert s.reqTable[e.req] == View(e);
    WithoutCallbacks(s.devTable, k);
    hide FindEntry, FindReq, Callbacks, Ordered, NoRepeats, Mirror, PollReqs, DevReqs;
    RemoveCbKeeps(s, e.dev, e.req);
    assert Reqs([CallbackOf(e)]) == [e.req];
  }

  lemma {:induction false} ArriveCallbacks(s: State, req: Request)
    requires Inv(s) && req in s.reqTable
    ensures Callbacks(Arrive(s, req).value.devTable) == Callbacks(s.devTable)
  {
  }

  /** One reply processed serves exactly one request: the callback of its type, device and object fires. */
  lemma {:induction false} ProcessServes(s: State, req: Request)
    requires Inv(s) && req in s.reqTable
    ensures s.reqTable[req].dev.Some? && s.reqTable[req].cb.Some?
    ensures Served(s, Process(s, req), [CallbackFor(s, req)])
  {
    var k := FindReq(s.devTable, req);
    assert k != -1 && s.reqTable[req] == View(s.devTable[k]);
    var a := Arrive(s, req).value;
    ArriveKeeps(s, req);
    ArriveCallbacks(s, req);
    hide Inv, FindReq, Callbacks;
    assert a.devTable[k].req == req && CallbackOf(a.devTable[k]) == CallbackFor(s, req);
    ServedOne(a, k);
  }

  // ----- what has arrived already -----

  /** The first arrived entry, or -1. */
  function NextArrived(t: seq<DevEntry>): (r: int)
    ensures -1 <= r < |t| && (r != -1 ==> t[r].arrived)
    ensures forall k | 0 <= k < (if r == -1 then |t| else r) :: !t[k].arrived
  {
    if t == [] then -1
    else if t[0].arrived then 0
    else
      var r := NextArrived(t[1..]);
      assert forall k | 1 <= k < |t| :: t[k] == t[1..][k - 1];
      if r == -1 then -1 else r + 1
  }

  /** The first loop of both functions, read as: pick the next arrived entry, then process it. (The source
      removes the entry its iterator stands on.) */
  function FireArrived(s: State): (State, seq<Fired>)
    decreases |s.devTable|
  {
    var k := NextArrived(s.devTable);
    if k == -1 then (s, [])
    else
      var e := s.devTable[k];
      var s' := RemoveCb(s, e.dev, e.req);
      if |s'.devTable| >= |s.devTable| then (s, [])
      else
        var (s'', fired) := FireArrived(s');
        (s'', [CallbackOf(e)] + fired)
  }

  lemma {:induction false} FireArrivedServes(s: State)
    requires Inv(s)
    ensures var (s', fired) := FireArrived(s);
            Served(s, s', fired) && NextArrived(s'.devTable) == -1
    decreases |s.devTable|
  {
    hide Inv, Callbacks, NextArrived;
    var k := NextArrived(s.devTable);
    if k == -1 {
      ServedNothing(s);
    } else {
      var e := s.devTable[k];
      var s' := RemoveCb(s, e.dev, e.req);
      ServedOne(s, k);
      FireArrivedServes(s');
      var (s'', fired) := FireArrived(s');
      ServedTwice(s, s', s'', [CallbackOf(e)], fired);
    }
  }

  // ----- waiting without limit -----

  /** `get_asynch_replies(0)` behind its first loop: waits until nothing is pending. Events run out only
      if the ORB stays silent for ever. */
  function DrainAll(s: State, events: seq<OrbEvent>): (State, seq<Fired>, Outcome)
    requires Inv(s)
    decreases |events|
  {
    if |s.reqTable| == 0 then (s, [], Done)
    else if events == [] then (s, [], Blocked)
    else
      match events[0]
      case NoReply => DrainAll(s, events[1..])
      case NotSentYet => DrainAll(s, events[1..])
      case OtherError => (s, [], OrbError)
      case Reply(req) =>
        if req !in s.reqTable then (s, [], BadAsyn)
        else
          ProcessServes(s, req);
          var (s', fired, o) := DrainAll(Process(s, req), events[1..]);
          (s', [CallbackFor(s, req)] + fired, o)
  }

  /** Whatever happens, every callback fired was owed once and fires once; the call returns normally only
      with both tables empty. */
  lemma {:induction false} DrainAllServes(s: State, events: seq<OrbEvent>)
    requires Inv(s)
    ensures var (s', fired, o) := DrainAll(s, events);
            && Served(s, s', fired)
            && (o == Done ==> s'.devTable == [] && s'.reqTable == map[] && multiset(fired) == multiset(Callbacks(s.devTable)))
    decreases |events|
  {
    hide Callbacks, Process, CallbackFor, Ordered, NoRepeats, Distinct, ByDevice, Viewed, Covered;
    if |s.reqTable| == 0 {
      EmptyTogether(s);
      ServedNothing(s);
      assert Callbacks([]) == [] by { EmptyCallbacks(); }
    } else if events == [] {
      ServedNothing(s);
    } else {
      match events[0]
      case NoReply => DrainAllServes(s, events[1..]);
      case NotSentYet => DrainAllServes(s, events[1..]);
      case OtherError => ServedNothing(s);
      case Reply(req) =>
        if req !in s.reqTable {
          ServedNothing(s);
        } else {
          ProcessServes(s, req);
          DrainAllServes(Process(s, req), events[1..]);
          var (s', fired, o) := DrainAll(Process(s, req), events[1..]);
          ServedTwice(s, Process(s, req), s', [CallbackFor(s, req)], fired);
          if o == Done {
            EmptyCallbacks();
          }
        }
    }
  }

  lemma {:induction false} EmptyCallbacks()
    ensures Callbacks([]) == []
  {
  }

  // ----- waiting with a limit -----

  /** C++ division, towards zero. */
  function Quotient(a: int, b: int): int
    requires b > 0
  {
    if a >= 0 then a / b else -((-a) / b)
  }

  /** The loop of at most `nb` polls, one event each; silence when the events have run out. */
  function WaitLoop(s: State, nb: int, events: seq<OrbEvent>): (State, seq<Fired>, int, Outcome)
    requires Inv(s)
    decreases if nb > 0 then nb else 0
  {
    if nb <= 0 || |s.reqTable| == 0 then (s, [], nb, Done)
    else
      var rest := if events == [] then [] else events[1..];
      match if events == [] then NoReply else events[0]
      case NoReply => WaitLoop(s, nb - 1, rest)
      case NotSentYet => WaitLoop(s, nb - 1, rest)
      case OtherError => (s, [], nb - 1, OrbError)
      case Reply(req) =>
        if req !in s.reqTable then (s, [], nb - 1, BadAsyn)
        else
          ProcessServes(s, req);
          var (s', fired, nb', o) := WaitLoop(Process(s, req), nb - 1, rest);
          (s', [CallbackFor(s, req)] + fired, nb', o)
  }

  /** `get_asynch_replies(timeout)` behind its first loop, for a timeout other than 0. */
  function DrainFor(s: State, timeout: int, events: seq<OrbEvent>): (State, seq<Fired>, Outcome)
    requires Inv(s)
  {
    if |s.reqTable| == 0 then (s, [], Done)
    else
      var (s', fired, nb, o) := WaitLoop(s, Quotient(timeout, 20), events);
      (s', fired, if o != Done then o else if nb == 0 && |s'.reqTable| != 0 then NotArrived else Done)
  }

  lemma {:induction false} WaitLoopServes(s: State, nb: int, events: seq<OrbEvent>)
    requires Inv(s)
    ensures var (s', fired, nb', o) := WaitLoop(s, nb, events);
            && Served(s, s', fired)
            && (nb > 0 ==> 0 <= nb' <= nb && |fired| <= nb - nb')
            && (nb <= 0 ==> s' == s && fired == [] && nb' == nb && o == Done)
            && (o == Done && nb > 0 ==> nb' == 0 || |s'.reqTable| == 0)
            && (o == Done || o == OrbError || o == BadAsyn)
    decreases if nb > 0 then nb else 0
  {
    hide Inv, Callbacks, Process, CallbackFor;
    if nb <= 0 || |s.reqTable| == 0 {
      ServedNothing(s);
    } else {
      var rest := if events == [] then [] else events[1..];
      match if events == [] then NoReply else events[0]
      case NoReply => WaitLoopServes(s, nb - 1, rest);
      case NotSentYet => WaitLoopServes(s, nb - 1, rest);
      case OtherError => ServedNothing(s);
      case Reply(req) =>
        if req !in s.reqTable {
          ServedNothing(s);
        } else {
          ProcessServes(s, req);
          WaitLoopServes(Process(s, req), nb - 1, rest);
          var (s', fired, nb', o) := WaitLoop(Process(s, req), nb - 1, rest);
          ServedTwice(s, Process(s, req), s', [CallbackFor(s, req)], fired);
        }
    }
  }

  /** All polls were made without an exception. */
  ghost predicate PollsSpent(s: State, polls: nat, events: seq<OrbEvent>)
    requires Inv(s)
  {
    var r := WaitLoop(s, polls, events);
    r.2 == 0 && r.3 == Done
  }

  /** With a timeout, requests are conserved, at most timeout / 20 replies are served, and the exception
      for missing replies is raised exactly when all polls are spent and something is pending. */
  lemma {:induction false} DrainForServes(s: State, timeout: int, events: seq<OrbEvent>)
    requires Inv(s) && timeout > 0
    ensures var (s', fired, o) := DrainFor(s, timeout, events);
            && Served(s, s', fired) && |fired| <= timeout / 20
            && (o == Done ==> s'.devTable == [] && s'.reqTable == map[])
            && (o == NotArrived <==> PollsSpent(s, timeout / 20, events) && |s'.reqTable| != 0)
  {
    hide Callbacks, WaitLoop, Ordered, NoRepeats, Distinct, ByDevice, Viewed, Covered;
    WaitLoopServes(s, timeout / 20, events);
    ServedNothing(s);
    EmptyTogether(s);
    EmptyTogether(WaitLoop(s, timeout / 20, events).0);
  }

  /** The requests answered in the first `nb` polls. */
  function AnsweredBy(nb: nat, events: seq<OrbEvent>): set<Request>
    decreases nb
  {
    if nb == 0 || events == [] then {}
    else (if events[0].Reply? then {events[0].req} else {}) + AnsweredBy(nb - 1, events[1..])
  }

  /** As long as something is pending, the first `nb` polls raise no error and answer pending requests only. */
  predicate Orderly(pending: set<Request>, nb: nat, events: seq<OrbEvent>)
    decreases nb
  {
    pending == {} || nb == 0 || events == []
    || match events[0]
       case NoReply => Orderly(pending, nb - 1, events[1..])
       case NotSentYet => Orderly(pending, nb - 1, events[1..])
       case OtherError => false
       case Reply(req) => req in pending && Orderly(pending - {req}, nb - 1, events[1..])
  }

  lemma {:induction false} ProcessKeys(s: State, req: Request)
    requires req in s.reqTable && s.reqTable[req].dev.Some?
    ensures Process(s, req).reqTable.Keys == s.reqTable.Keys - {req}
  {
    hide FindEntry, FindReq;
  }

  lemma {:induction false} Silence(s: State, nb: nat)
    requires Inv(s)
    ensures var (s', fired, nb', o) := WaitLoop(s, nb, []);
            s' == s && fired == [] && o == Done && (nb' == 0 || |s.reqTable| == 0)
    decreases nb
  {
    hide Inv;
    if nb > 0 && |s.reqTable| != 0 {
      Silence(s, nb - 1);
    }
  }

  /** What stays pending are the requests no poll answered. */
  lemma {:induction false} WaitLoopLeaves(s: State, nb: nat, events: seq<OrbEvent>)
    requires Inv(s) && Orderly(s.reqTable.Keys, nb, events)
    ensures var (s', fired, nb', o) := WaitLoop(s, nb, events);
            && o == Done && (nb' == 0 || |s'.reqTable| == 0)
            && s'.reqTable.Keys == s.reqTable.Keys - AnsweredBy(nb, events)
    decreases nb
  {
    hide Inv, Process, CallbackFor;
    if nb == 0 || |s.reqTable| == 0 {
      assert |s.reqTable| == 0 ==> s.reqTable == map[];
    } else if events == [] {
      Silence(s, nb);
    } else {
      assert s.reqTable.Keys != {};
      match events[0]
      case NoReply => WaitLoopLeaves(s, nb - 1, events[1..]);
      case NotSentYet => WaitLoopLeaves(s, nb - 1, events[1..]);
      case Reply(req) =>
        ProcessServes(s, req);
        ProcessKeys(s, req);
        WaitLoopLeaves(Process(s, req), nb - 1, events[1..]);
    }
  }

  /** Told from the replies alone: the exception is raised exactly when some request pending on entry is
      not answered by the first timeout / 20 polls, and the unanswered ones stay pending. */
  lemma {:induction false} MissingReplies(s: State, timeout: nat, events: seq<OrbEvent>)
    requires Inv(s) && timeout > 0 && Orderly(s.reqTable.Keys, timeout / 20, events)
    ensures var (s', fired, o) := DrainFor(s, timeout, events); var answered := AnsweredBy(timeout / 20, events);
            && o == (if s.reqTable.Keys <= answered then Done else NotArrived)
            && s'.reqTable.Keys == s.reqTable.Keys - answered
  {
    hide Inv, WaitLoop, Orderly, AnsweredBy;
    WaitLoopLeaves(s, timeout / 20, events);
    var (s', fired, o) := DrainFor(s, timeout, events);
    var answered := AnsweredBy(timeout / 20, events);
    assert |s.reqTable| == 0 ==> s.reqTable == map[];
    assert |s'.reqTable.Keys| == |s'.reqTable|;
    if s.reqTable.Keys - answered == {} {
      forall r | r in s.reqTable.Keys ensures r in answered {
        assert r !in answered ==> r in s.reqTable.Keys - answered;
      }
    }
  }

  /** A timeout of -20 or less waits for nothing and reports nothing, whatever is pending. */
  lemma {:induction false} NegativeTimeout(s: State, timeout: int, events: seq<OrbEvent>)
    requires Inv(s) && timeout <= -20
    ensures DrainFor(s, timeout, events) == (s, [], Done)
  {
    assert (-timeout) / 20 >= 1;
    hide Inv, Callbacks;
    WaitLoopServes(s, Quotient(timeout, 20), events);
  }

  // ----- polling once -----

  /** The first part of `get_asynch_replies()`: replies as long as there is one. */
  function PollLoop(s: State, events: seq<OrbEvent>): (State, seq<Fired>, Outcome)
    requires Inv(s)
    decreases |events|
  {
    if events == [] || events[0].NoReply? || events[0].NotSentYet? then (s, [], Done)
    else if events[0].OtherError? then (s, [], OrbError)
    else if events[0].req !in s.reqTable then (s, [], BadAsyn)
    else
      ProcessServes(s, events[0].req);
      var (s', fired, o) := PollLoop(Process(s, events[0].req), events[1..]);
      (s', [CallbackFor(s, events[0].req)] + fired, o)
  }

  lemma {:induction false} PollLoopServes(s: State, events: seq<OrbEvent>)
    requires Inv(s)
    ensures var (s', fired, o) := PollLoop(s, events); Served(s, s', fired)
    decreases |events|
  {
    hide Inv, Callbacks, Process, CallbackFor;
    if events == [] || !events[0].Reply? || events[0].req !in s.reqTable {
      ServedNothing(s);
    } else {
      var req := events[0].req;
      ProcessServes(s, req);
      PollLoopServes(Process(s, req), events[1..]);
      var (s', fired, o) := PollLoop(Process(s, req), events[1..]);
      ServedTwice(s, Process(s, req), s', [CallbackFor(s, req)], fired);
    }
  }

  // ----- both functions as a whole -----

  function GetReplies(s: State, events: seq<OrbEvent>): (State, seq<Fired>, Outcome)
    requires Inv(s)
  {
    var (s', fired, o) := PollLoop(s, events);
    if o != Done then (s', fired, o)
    else
      var (s'', fired') := FireArrived(s');
      (s'', fired + fired', Done)
  }

  function GetRepliesWithin(s: State, timeout: int, events: seq<OrbEvent>): (State, seq<Fired>, Outcome)
    requires Inv(s)
  {
    FireArrivedServes(s);
    var (s', fired) := FireArrived(s);
    var (s'', fired', o) := if timeout == 0 then DrainAll(s', events) else DrainFor(s', timeout, events);
    (s'', fired + fired', o)
  }

  /** Without a timeout argument: one pass fires whatever has arrived, each callback once. */
  lemma {:induction false} GetRepliesServes(s: State, events: seq<OrbEvent>)
    requires Inv(s)
    ensures var (s', fired, o) := GetReplies(s, events);
            Served(s, s', fired) && (o == Done ==> NextArrived(s'.devTable) == -1)
  {
    hide Served, Inv, NextArrived;
    PollLoopServes(s, events);
    var (s', fired, o) := PollLoop(s, events);
    assert Inv(s') by { ServedInv(s, s', fired); }
    FireArrivedServes(s');
    var (s'', fired') := FireArrived(s');
    ServedTwice(s, s', s'', fired, fired');
  }

  lemma {:induction false} ServedInv(s: State, s': State, fired: seq<Fired>)
    requires Served(s, s', fired)
    ensures Inv(s')
  {
  }

  /** With timeout 0, a call that returns normally has fired every outstanding callback exactly once and
      left both tables empty. */
  lemma {:induction false} GetRepliesZero(s: State, events: seq<OrbEvent>)
    requires Inv(s)
    ensures var (s', fired, o) := GetRepliesWithin(s, 0, events);
            && Served(s, s', fired)
            && (o == Done ==> s'.devTable == [] && s'.reqTable == map[] && multiset(fired) == multiset(Callbacks(s.devTable)))
  {
    hide Inv, Callbacks, FireArrived, DrainAll, NextArrived;
    FireArrivedServes(s);
    var (s', fired) := FireArrived(s);
    DrainAllServes(s', events);
    var (s'', fired', o) := DrainAll(s', events);
    ServedTwice(s, s', s'', fired, fired');
    EmptyCallbacks();
  }

  /** Whatever the timeout: callbacks are conserved, each fired once. */
  lemma {:induction false} GetRepliesWithinServes(s: State, timeout: int, events: seq<OrbEvent>)
    requires Inv(s)
    ensures var (s', fired, o) := GetRepliesWithin(s, timeout, events); Served(s, s', fired)
  {
    hide Inv, Callbacks, Served, FireArrived, DrainAll, WaitLoop, NextArrived;
    FireArrivedServes(s);
    var (s', fired) := FireArrived(s);
    ServedInv(s, s', fired);
    if timeout == 0 {
      DrainAllServes(s', events);
      var (s'', fired', o) := DrainAll(s', events);
      ServedTwice(s, s', s'', fired, fired');
    } else {
      ServedNothing(s');
      WaitLoopServes(s', Quotient(timeout, 20), events);
      var (s'', fired', o) := DrainFor(s', timeout, events);
      ServedTwice(s, s', s'', fired, fired');
    }
  }

  /** Every callback fired is that of an entry on entry, of the kind its request asks for. */
  lemma {:induction false} GetRepliesFires(s: State, events: seq<OrbEvent>)
    requires Inv(s)
    ensures FiredFrom(s.devTable, GetReplies(s, events).1)
  {
    hide Inv, Served, FiredFrom, GetReplies, NextArrived;
    GetRepliesServes(s, events);
    ServedFires(s, GetReplies(s, events).0, GetReplies(s, events).1);
  }

  lemma {:induction false} GetRepliesWithinFires(s: State, timeout: int, events: seq<OrbEvent>)
    requires Inv(s)
    ensures FiredFrom(s.devTable, GetRepliesWithin(s, timeout, events).1)
  {
    hide Inv, Served, FiredFrom, GetRepliesWithin;
    GetRepliesWithinServes(s, timeout, events);
    ServedFires(s, GetRepliesWithin(s, timeout, events).0, GetRepliesWithin(s, timeout, events).1);
  }

  // ----- the code -----

  /** The body shared by all the loops: look the request up, mark it in both tables, fire its callback,
      remove it. False stands for the exception on an unknown request. */
  method ProcessReply(t: AsynReq, req: Request) returns (ok: bool, fired: seq<Fired>)
    requires Inv(t.St())
    modifies t
    ensures ok <==> req in old(t.reqTable)
    ensures ok ==> old(t.reqTable)[req].dev.Some? && old(t.reqTable)[req].cb.Some?
    ensures ok ==> t.St() == Process(old(t.St()), req) && fired == [CallbackFor(old(t.St()), req)] && Inv(t.St())
    ensures !ok ==> t.St() == old(t.St()) && fired == []
    ensures FiredFrom(old(t.devTable), fired)
  {
    ok, fired := req in t.reqTable, [];
    if !ok {
      return;
    }
    ghost var s := t.St();
    ProcessServes(s, req);
    ServedFires(s, Process(s, req), [CallbackFor(s, req)]);
    ArriveKeeps(s, req);
    hide Inv, Callbacks, FindReq, FindEntry, Ordered, NoRepeats, Mirror, FiredFrom, Served;
    t.reqTable := t.reqTable[req := t.reqTable[req].(arrived := true)];
    t.MarkAsArrived(req);
    assert t.St() == Arrive(s, req).value;
    var tgReq := t.reqTable[req];
    fired := [Fired(KindOf(tgReq.reqType), tgReq.dev.value, req, tgReq.cb.value)];
    InvByDevice(t.St());
    t.RemoveCbRequest(tgReq.dev.value, req);
  }

  lemma {:induction false} InvByDevice(s: State)
    requires Inv(s)
    ensures ByDevice(s.devTable)
  {
  }

  lemma {:induction false} FireStep(s: State)
    requires Inv(s)
    ensures var k := NextArrived(s.devTable);
            if k == -1 then FireArrived(s) == (s, [])
            else
              var e := s.devTable[k];
              var s' := RemoveCb(s, e.dev, e.req);
              Inv(s') && |s'.devTable| < |s.devTable|
              && FireArrived(s) == (FireArrived(s').0, [CallbackOf(e)] + FireArrived(s').1)
  {
    hide Inv, Callbacks, NextArrived, FindEntry;
    var k := NextArrived(s.devTable);
    if k != -1 {
      ServedOne(s, k);
    }
  }

  /** The loop over the entries that have arrived. */
  method ProcessArrived(t: AsynReq) returns (fired: seq<Fired>)
    requires Inv(t.St())
    modifies t
    ensures (t.St(), fired) == FireArrived(old(t.St())) && Inv(t.St())
  {
    hide Inv, NextArrived, FireArrived, RemoveCb;
    fired := [];
    var pos := NextArrived(t.devTable);
    assert [] + FireArrived(t.St()).1 == FireArrived(t.St()).1;
    while pos != -1
      invariant Inv(t.St()) && pos == NextArrived(t.devTable)
      invariant FireArrived(old(t.St())) == (FireArrived(t.St()).0, fired + FireArrived(t.St()).1)
      decreases |t.devTable|
    {
      ghost var s := t.St();
      var e := t.devTable[pos];
      FireStep(s);
      InvByDevice(s);
      t.RemoveCbRequest(e.dev, e.req);
      assert fired + ([CallbackOf(e)] + FireArrived(t.St()).1) == (fired + [CallbackOf(e)]) + FireArrived(t.St()).1;
      fired := fired + [CallbackOf(e)];
      pos := NextArrived(t.devTable);
    }
    FireStep(t.St());
    assert fired + [] == fired;
  }

  /** The loop that takes replies as long as there is one. */
  method PollReplies(t: AsynReq, events: seq<OrbEvent>) returns (fired: seq<Fired>, o: Outcome)
    requires Inv(t.St())
    modifies t
    ensures (t.St(), fired, o) == PollLoop(old(t.St()), events) && Inv(t.St())
  {
    hide FiredFrom, NextArrived, Inv, Callbacks, Process, CallbackFor, FireArrived;
    fired, o := [], Done;
    var k := 0;
    assert events[0..] == events && [] + PollLoop(t.St(), events).1 == PollLoop(t.St(), events).1;
    while k < |events| && !events[k].NoReply? && !events[k].NotSentYet?
      invariant 0 <= k <= |events| && Inv(t.St())
      invariant var r := PollLoop(t.St(), events[k..]); PollLoop(old(t.St()), events) == (r.0, fired + r.1, r.2)
    {
      if events[k].OtherError? {
        o := OrbError;
        assert fired + [] == fired;
        return;
      }
      ghost var s, rest := t.St(), events[k..];
      assert rest[0] == events[k] && rest[1..] == events[k + 1..];
      var ok, more := ProcessReply(t, events[k].req);
      if !ok {
        o := BadAsyn;
        assert fired + [] == fired;
        return;
      }
      ghost var r := PollLoop(t.St(), events[k + 1..]);
      assert fired + (more + r.1) == (fired + more) + r.1;
      fired := fired + more;
      k := k + 1;
    }
    assert fired + [] == fired;
  }

  /** `get_asynch_replies()` */
  method GetAsynchReplies(t: AsynReq, events: seq<OrbEvent>) returns (fired: seq<Fired>, o: Outcome)
    requires Inv(t.St())
    modifies t
    ensures (t.St(), fired, o) == GetReplies(old(t.St()), events)
    ensures FiredFrom(old(t.devTable), fired)
  {
    GetRepliesFires(t.St(), events);
    hide FiredFrom, NextArrived, Inv, Callbacks, FireArrived, PollLoop;
    fired, o := PollReplies(t, events);
    if o == Done {
      var more := ProcessArrived(t);
      fired := fired + more;
    }
  }

  /** The loop that waits until no request is pending. */
  method WaitAll(t: AsynReq, events: seq<OrbEvent>) returns (fired: seq<Fired>, o: Outcome)
    requires Inv(t.St())
    modifies t
    ensures (t.St(), fired, o) == DrainAll(old(t.St()), events)
  {
    hide Inv, Callbacks, Process, CallbackFor;
    fired, o := [], Done;
    var k := 0;
    assert events[0..] == events && [] + DrainAll(t.St(), events).1 == DrainAll(t.St(), events).1;
    while |t.reqTable| != 0
      invariant 0 <= k <= |events| && Inv(t.St())
      invariant var r := DrainAll(t.St(), events[k..]); DrainAll(old(t.St()), events) == (r.0, fired + r.1, r.2)
      decreases |events| - k
    {
      assert fired + [] == fired;
      if k == |events| {
        o := Blocked;
        return;
      }
      ghost var s, rest := t.St(), events[k..];
      assert rest[0] == events[k] && rest[1..] == events[k + 1..];
      if events[k].OtherError? {
        o := OrbError;
        return;
      }
      if events[k].Reply? {
        var ok, more := ProcessReply(t, events[k].req);
        if !ok {
          o := BadAsyn;
          return;
        }
        ghost var r := DrainAll(t.St(), events[k + 1..]);
        assert fired + (more + r.1) == (fired + more) + r.1;
        fired := fired + more;
      }
      k := k + 1;
    }
    assert fired + [] == fired;
  }

  /** The loop of at most `nb0` polls. */
  method WaitSome(t: AsynReq, nb0: int, events: seq<OrbEvent>) returns (fired: seq<Fired>, nb: int, o: Outcome)
    requires Inv(t.St())
    modifies t
    ensures (t.St(), fired, nb, o) == WaitLoop(old(t.St()), nb0, events)
  {
    hide Inv, Callbacks, Process, CallbackFor;
    fired, nb, o := [], nb0, Done;
    var left := events;
    assert [] + WaitLoop(t.St(), nb, left).1 == WaitLoop(t.St(), nb, left).1;
    while nb > 0 && |t.reqTable| != 0
      invariant Inv(t.St())
      invariant var r := WaitLoop(t.St(), nb, left); WaitLoop(old(t.St()), nb0, events) == (r.0, fired + r.1, r.2, r.3)
    {
      assert fired + [] == fired;
      nb := nb - 1;
      var event := if left == [] then NoReply else left[0];
      ghost var rest := if left == [] then [] else left[1..];
      if event.OtherError? {
        o := OrbError;
        return;
      }
      if event.Reply? {
        var ok, more := ProcessReply(t, event.req);
        if !ok {
          o := BadAsyn;
          return;
        }
        ghost var r := WaitLoop(t.St(), nb, rest);
        assert fired + (more + r.1) == (fired + more) + r.1;
        fired := fired + more;
      }
      left := if left == [] then [] else left[1..];
    }
    assert fired + [] == fired;
  }

  /** `get_asynch_replies(call_timeout)` */
  method GetAsynchRepliesWithin(t: AsynReq, timeout: int, events: seq<OrbEvent>) returns (fired: seq<Fired>, o: Outcome)
    requires Inv(t.St())
    modifies t
    ensures (t.St(), fired, o) == GetRepliesWithin(old(t.St()), timeout, events)
    ensures FiredFrom(old(t.devTable), fired)
  {
    GetRepliesWithinFires(t.St(), timeout, events);
    hide FiredFrom, NextArrived, Inv, Callbacks, FireArrived, DrainAll, WaitLoop;
    fired := ProcessArrived(t);
    o := Done;
    ghost var s := t.St();
    if |t.reqTable| != 0 {
      var more;
      if timeout != 0 {
        var nb := Quotient(timeout, 20);
        more, nb, o := WaitSome(t, nb, events);
        if o == Done && nb == 0 && |t.reqTable| != 0 {
          o := NotArrived;
        }
      } else {
        more, o := WaitAll(t, events);
      }
      fired := fired + more;
    } else {
      NothingPending(s, events);
      assert fired + [] == fired;
    }
  }

  lemma {:induction false} NothingPending(s: State, events: seq<OrbEvent>)
    requires Inv(s) && |s.reqTable| == 0
    ensures DrainAll(s, events) == (s, [], Done)
  {
  }
}
