/** How calls of `get_asynch_replies(timeout)` end, told from the tables on entry and the replies alone. */
module DrainOutcomes {
  import opened AsynSteps
  import opened Drain

  // ----- the first loop: what had arrived before -----

  /** The callback requests whose reply has not arrived yet. */
  function Waiting(s: State): set<Request> {
    set r | r in s.reqTable && !s.reqTable[r].arrived
  }

  lemma {:induction false} MirrorEntry(s: State, k: nat)
    requires Inv(s) && k < |s.devTable|
    ensures var e := s.devTable[k]; e.req in s.reqTable && s.reqTable[e.req].arrived == e.arrived
  {
  }

  lemma {:induction false} MirrorRequest(s: State, r: Request) returns (k: nat)
    requires Inv(s) && r in s.reqTable
    ensures k < |s.devTable| && s.devTable[k].req == r && s.devTable[k].arrived == s.reqTable[r].arrived
  {
    k := FindReq(s.devTable, r);
  }

  lemma {:induction false} NoneArrived(s: State)
    requires Inv(s) && NextArrived(s.devTable) == -1
    ensures Waiting(s) == s.reqTable.Keys
  {
    hide Inv;
    forall r | r in s.reqTable.Keys ensures r in Waiting(s) {
      var k := MirrorRequest(s, r);
    }
  }

  /** Firing what has arrived leaves exactly the requests that are waiting. */
  lemma {:induction false} FireArrivedLeaves(s: State)
    requires Inv(s)
    ensures Inv(FireArrived(s).0) && FireArrived(s).0.reqTable.Keys == Waiting(s)
    decreases |s.devTable|
  {
    hide Inv, FireArrived, FindEntry, NextArrived;
    FireStep(s);
    var k := NextArrived(s.devTable);
    if k == -1 {
      NoneArrived(s);
    } else {
      var e := s.devTable[k];
      var s' := RemoveCb(s, e.dev, e.req);
      MirrorEntry(s, k);
      FireArrivedLeaves(s');
      assert Waiting(s') == Waiting(s);
    }
  }

  // ----- waiting without limit -----

  /** What stays pending are the requests no event answers. */
  lemma {:induction false} DrainAllLeaves(s: State, events: seq<OrbEvent>)
    requires Inv(s) && Orderly(s.reqTable.Keys, |events|, events)
    ensures var (s', fired, o) := DrainAll(s, events); var answered := AnsweredBy(|events|, events);
            && s'.reqTable.Keys == s.reqTable.Keys - answered
            && o == (if s'.reqTable.Keys == {} then Done else Blocked)
    decreases |events|
  {
    hide Inv, Process, CallbackFor;
    assert |s.reqTable.Keys| == |s.reqTable|;
    if |s.reqTable| == 0 {
      assert s.reqTable.Keys == {};
    } else if events != [] {
      assert s.reqTable.Keys != {};
      match events[0]
      case NoReply => DrainAllLeaves(s, events[1..]);
      case NotSentYet => DrainAllLeaves(s, events[1..]);
      case Reply(req) =>
        ProcessServes(s, req);
        ProcessKeys(s, req);
        DrainAllLeaves(Process(s, req), events[1..]);
    }
  }

  lemma {:induction false} NothingLeft(pending: set<Request>, answered: set<Request>)
    ensures pending - answered == {} <==> pending <= answered
  {
    if pending - answered == {} {
      forall r | r in pending ensures r in answered {
        assert r !in answered ==> r in pending - answered;
      }
    }
  }

  // ----- the whole call -----

  /** With timeout 0 the call returns exactly when every request that was waiting on entry is answered;
      until then the unanswered ones stay. */
  lemma {:induction false} ZeroTimeoutEnds(s: State, events: seq<OrbEvent>)
    requires Inv(s) && Orderly(Waiting(s), |events|, events)
    ensures var (s', fired, o) := GetRepliesWithin(s, 0, events); var answered := AnsweredBy(|events|, events);
            && o == (if Waiting(s) <= answered then Done else Blocked)
            && s'.reqTable.Keys == Waiting(s) - answered
  {
    hide Inv, FireArrived, DrainAll, Orderly, AnsweredBy, NextArrived, Waiting;
    FireArrivedLeaves(s);
    DrainAllLeaves(FireArrived(s).0, events);
    NothingLeft(Waiting(s), AnsweredBy(|events|, events));
  }

  /** With a timeout of at least one millisecond the call returns normally exactly when every request that
      was waiting on entry is answered by the first timeout / 20 polls, and raises the exception for
      missing replies otherwise; the unanswered ones stay. */
  lemma {:induction false} TimeoutEnds(s: State, timeout: nat, events: seq<OrbEvent>)
    requires Inv(s) && timeout > 0 && Orderly(Waiting(s), timeout / 20, events)
    ensures var (s', fired, o) := GetRepliesWithin(s, timeout, events); var answered := AnsweredBy(timeout / 20, events);
            && o == (if Waiting(s) <= answered then Done else NotArrived)
            && s'.reqTable.Keys == Waiting(s) - answered
  {
    hide Inv, FireArrived, DrainFor, Orderly, AnsweredBy, NextArrived, Waiting;
    FireArrivedLeaves(s);
    MissingReplies(FireArrived(s).0, timeout, events);
  }

  // ----- returning with something pending -----

  /** A normal return that leaves requests pending: for every timeout but 0, this happens exactly when the
      timeout is -20 or less and something was pending. */
  lemma {:induction false} SilentReturn(s: State, timeout: int, events: seq<OrbEvent>)
    requires Inv(s) && timeout != 0
    ensures var (s', fired, o) := DrainFor(s, timeout, events);
            o == Done && |s'.reqTable| != 0 <==> timeout <= -20 && |s.reqTable| != 0
  {
    hide Inv, WaitLoop, Served;
    RoundTowardsZero(timeout);
    WaitLoopServes(s, Quotient(timeout, 20), events);
  }

  lemma {:induction false} RoundTowardsZero(timeout: int)
    ensures Quotient(timeout, 20) < 0 <==> timeout <= -20
    ensures -20 < timeout < 20 ==> Quotient(timeout, 20) == 0
  {
  }

  /** For the whole call: exactly when the timeout is -20 or less and some reply had not arrived on entry.
      Timeout 0 is never among them. */
  lemma {:induction false} SilentReturnWithin(s: State, timeout: int, events: seq<OrbEvent>)
    requires Inv(s)
    ensures var (s', fired, o) := GetRepliesWithin(s, timeout, events);
            o == Done && s'.reqTable.Keys != {} <==> timeout <= -20 && Waiting(s) != {}
  {
    hide Inv, FireArrived, DrainFor, DrainAll, NextArrived, Waiting, Served;
    FireArrivedLeaves(s);
    var t := FireArrived(s).0;
    var s' := GetRepliesWithin(s, timeout, events).0;
    assert |t.reqTable.Keys| == |t.reqTable| && |s'.reqTable.Keys| == |s'.reqTable|;
    if timeout == 0 {
      DrainAllServes(t, events);
    } else {
      SilentReturn(t, timeout, events);
    }
  }

  // ----- taking replies one by one -----

  /** Among the first `n` events there is no error, and the replies are to different pending requests. */
  predicate Known(pending: set<Request>, events: seq<OrbEvent>, n: nat) {
    && n <= |events|
    && (forall i | 0 <= i < n :: !events[i].OtherError?)
    && (forall i | 0 <= i < n && events[i].Reply? :: events[i].req in pending)
    && (forall i, j | 0 <= i < j < n && events[i].Reply? && events[j].Reply? :: events[i].req != events[j].req)
  }

  lemma {:induction false} KnownTail(pending: set<Request>, events: seq<OrbEvent>, n: nat)
    requires n > 0 && Known(pending, events, n)
    ensures events != [] && !events[0].OtherError?
    ensures events[0].Reply? ==> events[0].req in pending && Known(pending - {events[0].req}, events[1..], n - 1)
    ensures !events[0].Reply? ==> Known(pending, events[1..], n - 1)
  {
    assert forall i | 0 <= i < n - 1 :: events[1..][i] == events[i + 1];
  }

  lemma {:induction false} AnsweredByMeans(n: nat, events: seq<OrbEvent>, r: Request)
    ensures r in AnsweredBy(n, events) <==> exists i | 0 <= i < n && i < |events| :: events[i] == Reply(r)
    decreases n
  {
    if n > 0 && events != [] {
      var tail := events[1..];
      AnsweredByMeans(n - 1, tail, r);
      if i :| 0 <= i < n && i < |events| && events[i] == Reply(r) {
        assert i > 0 ==> tail[i - 1] == Reply(r);
      }
      if i :| 0 <= i < n - 1 && i < |tail| && tail[i] == Reply(r) {
        assert events[i + 1] == Reply(r);
      }
    }
  }

  /** The requests replied to in the first `n` events, in order. */
  function Replied(n: nat, events: seq<OrbEvent>): seq<Request>
    requires n <= |events|
  {
    if n == 0 then [] else (if events[0].Reply? then [events[0].req] else []) + Replied(n - 1, events[1..])
  }

  /** What is known after some replies have been processed: these left both tables, their callbacks were
      fired in order, and nothing else changed. */
  ghost predicate Taken(s: State, t: State, fired: seq<Fired>, n: nat, events: seq<OrbEvent>)
    requires n <= |events|
  {
    && Inv(t) && Served(s, t, fired)
    && t.reqTable.Keys == s.reqTable.Keys - AnsweredBy(n, events)
    && Waiting(t) == Waiting(s) - AnsweredBy(n, events)
    && Reqs(fired) == Replied(n, events)
  }

  lemma {:induction false} TakenNone(s: State, events: seq<OrbEvent>)
    requires Inv(s)
    ensures Taken(s, s, [], 0, events)
  {
    hide Inv, Served;
    ServedNothing(s);
  }

  lemma {:induction false} ProcessWaiting(s: State, req: Request)
    requires req in s.reqTable && s.reqTable[req].dev.Some?
    ensures Waiting(Process(s, req)) == Waiting(s) - {req}
  {
    hide FindEntry, FindReq;
  }

  /** A reply in front of what is taken afterwards. */
  lemma {:induction false} TakenReply(s: State, t: State, fired: seq<Fired>, n: nat, events: seq<OrbEvent>)
    requires Inv(s) && 0 < n <= |events| && events[0].Reply? && events[0].req in s.reqTable
    ensures s.reqTable[events[0].req].dev.Some? && s.reqTable[events[0].req].cb.Some?
    ensures Taken(Process(s, events[0].req), t, fired, n - 1, events[1..])
            ==> Taken(s, t, [CallbackFor(s, events[0].req)] + fired, n, events)
  {
    hide Inv, Served, Process, Waiting;
    var req := events[0].req;
    ProcessServes(s, req);
    ProcessKeys(s, req);
    ProcessWaiting(s, req);
    if Taken(Process(s, req), t, fired, n - 1, events[1..]) {
      ServedTwice(s, Process(s, req), t, [CallbackFor(s, req)], fired);
      assert Reqs([CallbackFor(s, req)] + fired) == [req] + Reqs(fired);
    }
  }

  lemma {:induction false} TakenSilence(s: State, t: State, fired: seq<Fired>, n: nat, events: seq<OrbEvent>)
    requires 0 < n <= |events| && !events[0].Reply?
    ensures Taken(s, t, fired, n - 1, events[1..]) ==> Taken(s, t, fired, n, events)
  {
    hide Inv, Served, Waiting;
    assert {} + AnsweredBy(n - 1, events[1..]) == AnsweredBy(n - 1, events[1..]);
    assert [] + Replied(n - 1, events[1..]) == Replied(n - 1, events[1..]);
  }

  /** The polling loop takes the first `n` replies and goes on from there. */
  lemma {:induction false} PollTakes(s: State, events: seq<OrbEvent>, n: nat) returns (t: State, fired: seq<Fired>)
    requires Inv(s) && Known(s.reqTable.Keys, events, n) && forall i | 0 <= i < n :: events[i].Reply?
    ensures Inv(t) && Taken(s, t, fired, n, events)
    ensures var r := PollLoop(t, events[n..]); PollLoop(s, events) == (r.0, fired + r.1, r.2)
    decreases n
  {
    hide Inv, Taken, Known, Process, CallbackFor;
    if n == 0 {
      TakenNone(s, events);
      t, fired := s, [];
      assert events[0..] == events && [] + PollLoop(s, events).1 == PollLoop(s, events).1;
    } else {
      KnownTail(s.reqTable.Keys, events, n);
      var req := events[0].req;
      ProcessServes(s, req);
      ProcessKeys(s, req);
      assert forall i | 0 <= i < n - 1 :: events[1..][i] == events[i + 1];
      var more;
      t, more := PollTakes(Process(s, req), events[1..], n - 1);
      TakenReply(s, t, more, n, events);
      fired := [CallbackFor(s, req)] + more;
      assert events[1..][n - 1..] == events[n..];
      var r := PollLoop(t, events[n..]);
      assert [CallbackFor(s, req)] + (more + r.1) == fired + r.1;
    }
  }

  /** The replies among the first `n` events are served in order, then whatever had arrived before; exactly
      the requests without a reply stay, and callbacks are fired for exactly those that leave. */
  ghost predicate AllTaken(s: State, s': State, fired: seq<Fired>, n: nat, events: seq<OrbEvent>)
    requires n <= |events|
  {
    && Served(s, s', fired)
    && s'.reqTable.Keys == Waiting(s) - AnsweredBy(n, events)
    && Replied(n, events) <= Reqs(fired)
    && forall r :: r in Reqs(fired) <==> r in s.reqTable.Keys && r !in s'.reqTable.Keys
  }

  /** Without a timeout argument: when the first `n` events are replies to different pending requests and
      nothing follows for now, all of them are served. */
  lemma {:induction false} PollServes(s: State, events: seq<OrbEvent>, n: nat)
    requires Inv(s) && Known(s.reqTable.Keys, events, n) && forall i | 0 <= i < n :: events[i].Reply?
    requires n < |events| ==> events[n].NoReply? || events[n].NotSentYet?
    ensures var (s', fired, o) := GetReplies(s, events);
            o == Done && AllTaken(s, s', fired, n, events)
  {
    assert n <= |events|;
    hide Inv, Known, Served, FireArrived, NextArrived, Waiting, PollLoop, GetReplies, Taken, AllTaken, Reqs, Replied, AnsweredBy;
    var t, fired := PollTakes(s, events, n);
    assert events[n..] != [] ==> events[n..][0] == events[n];
    PollStops(t, events[n..]);
    assert fired + [] == fired;
    GetRepliesThen(s, events, t, fired);
    ThenArrived(s, t, fired, n, events);
  }

  lemma {:induction false} PollStops(t: State, events: seq<OrbEvent>)
    requires Inv(t) && (events != [] ==> events[0].NoReply? || events[0].NotSentYet?)
    ensures PollLoop(t, events) == (t, [], Done)
  {
    hide Inv;
  }

  lemma {:induction false} GetRepliesThen(s: State, events: seq<OrbEvent>, t: State, fired: seq<Fired>)
    requires Inv(s) && PollLoop(s, events) == (t, fired, Done)
    ensures GetReplies(s, events) == (FireArrived(t).0, fired + FireArrived(t).1, Done)
  {
    hide Inv, PollLoop, FireArrived;
  }

  /** The first loop's part followed by what had arrived before. */
  lemma {:induction false} ThenArrived(s: State, t: State, fired: seq<Fired>, n: nat, events: seq<OrbEvent>)
    requires Inv(s) && n <= |events| && Taken(s, t, fired, n, events)
    ensures AllTaken(s, FireArrived(t).0, fired + FireArrived(t).1, n, events)
  {
    hide Inv, Served, FireArrived, NextArrived, Waiting, AnsweredBy, Replied;
    FireArrivedServes(t);
    FireArrivedLeaves(t);
    var (s', more) := FireArrived(t);
    ServedTwice(s, t, s', fired, more);
    assert Reqs(fired + more) == Reqs(fired) + Reqs(more);
    FiredLeft(s, s', fired + more);
  }

  lemma {:induction false} OnceOnly<T>(x: seq<T>, v: T)
    requires forall i, j | 0 <= i < j < |x| :: x[i] != x[j]
    ensures multiset(x)[v] <= 1
    decreases |x|
  {
    if x != [] {
      var init, last := x[..|x| - 1], x[|x| - 1];
      OnceOnly(init, v);
      assert x == init + [last];
      assert last !in init;
      assert multiset(init)[last] == 0;
    }
  }

  /** Callbacks owed, and the requests of the table. */
  lemma {:induction false} OwedFor(s: State, f: Fired)
    requires Inv(s)
    ensures f in Callbacks(s.devTable) ==> f.req in s.reqTable
    ensures multiset(Callbacks(s.devTable))[f] <= 1
    ensures forall g | g in Callbacks(s.devTable) && f in Callbacks(s.devTable) && g.req == f.req :: g == f
  {
    var t, c := s.devTable, Callbacks(s.devTable);
    assert forall i | 0 <= i < |t| :: c[i].req == t[i].req;
    OnceOnly(c, f);
  }

  lemma {:induction false} OwedTo(s: State, r: Request) returns (f: Fired)
    requires Inv(s) && r in s.reqTable
    ensures f in Callbacks(s.devTable) && f.req == r
  {
    var k := MirrorRequest(s, r);
    f := Callbacks(s.devTable)[k];
  }

  /** Callbacks were fired for exactly the requests that left. */
  lemma {:induction false} FiredLeft(s: State, s': State, fired: seq<Fired>)
    requires Inv(s) && Served(s, s', fired)
    ensures forall r :: r in Reqs(fired) <==> r in s.reqTable.Keys && r !in s'.reqTable.Keys
  {
    hide Inv, Callbacks;
    var owed, left := Callbacks(s.devTable), Callbacks(s'.devTable);
    forall r ensures r in Reqs(fired) <==> r in s.reqTable.Keys && r !in s'.reqTable.Keys {
      if r in Reqs(fired) {
        var i :| 0 <= i < |fired| && fired[i].req == r;
        FiredGone(s, s', fired, fired[i]);
      }
      if r in s.reqTable.Keys && r !in s'.reqTable.Keys {
        var f := OwedTo(s, r);
        OwedFor(s', f);
        assert f in multiset(owed) && f !in multiset(left);
        assert f in multiset(fired);
        var i :| 0 <= i < |fired| && fired[i] == f;
        assert Reqs(fired)[i] == r;
      }
    }
  }

  lemma {:induction false} FiredGone(s: State, s': State, fired: seq<Fired>, f: Fired)
    requires Inv(s) && Served(s, s', fired) && f in fired
    ensures f.req in s.reqTable && f.req !in s'.reqTable
  {
    hide Inv, Callbacks;
    var owed, left := Callbacks(s.devTable), Callbacks(s'.devTable);
    assert multiset(fired)[f] >= 1;
    assert f in multiset(owed);
    OwedFor(s, f);
    assert multiset(left)[f] == 0;
    assert forall g | g in left :: g in multiset(left) && g in multiset(owed);
    if f.req in s'.reqTable {
      var g := OwedTo(s', f.req);
    }
  }

  // ----- exceptions -----

  /** What an event that ends a call raises: an error of the ORB, or a reply to a request not pending. */
  function Raised(event: OrbEvent, pending: set<Request>): Outcome {
    if event.OtherError? then OrbError else if event.Reply? && event.req !in pending then BadAsyn else Done
  }

  lemma {:induction false} PollRaises(t: State, events: seq<OrbEvent>)
    requires Inv(t) && events != [] && Raised(events[0], t.reqTable.Keys) != Done
    ensures PollLoop(t, events) == (t, [], Raised(events[0], t.reqTable.Keys))
  {
    hide Inv;
  }

  /** An exception behind `n` replies: those are served, and everything else is left as it is. */
  lemma {:induction false} PollErrs(s: State, events: seq<OrbEvent>, n: nat)
    requires Inv(s) && Known(s.reqTable.Keys, events, n) && forall i | 0 <= i < n :: events[i].Reply?
    requires n < |events| && Raised(events[n], s.reqTable.Keys - AnsweredBy(n, events)) != Done
    ensures var (s', fired, o) := GetReplies(s, events);
            && o == Raised(events[n], s.reqTable.Keys - AnsweredBy(n, events))
            && Taken(s, s', fired, n, events)
  {
    hide Inv, Known, Served, FireArrived, PollLoop, Waiting, Raised, AnsweredBy, Reqs, Replied;
    var t, fired := PollTakes(s, events, n);
    assert events[n..][0] == events[n];
    PollRaises(t, events[n..]);
    assert fired + [] == fired;
  }

  // ----- the waiting loops, event by event -----

  /** The unlimited loop takes the first `n` events, as long as something stays pending. */
  lemma {:induction false} DrainAllTakes(s: State, events: seq<OrbEvent>, n: nat) returns (t: State, fired: seq<Fired>)
    requires Inv(s) && Known(s.reqTable.Keys, events, n) && s.reqTable.Keys - AnsweredBy(n, events) != {}
    ensures Inv(t) && Taken(s, t, fired, n, events)
    ensures var r := DrainAll(t, events[n..]); DrainAll(s, events) == (r.0, fired + r.1, r.2)
    decreases n
  {
    hide Inv, Taken, Known, Process, CallbackFor;
    assert |s.reqTable.Keys| == |s.reqTable|;
    if n == 0 {
      TakenNone(s, events);
      t, fired := s, [];
      assert events[0..] == events && [] + DrainAll(s, events).1 == DrainAll(s, events).1;
    } else {
      KnownTail(s.reqTable.Keys, events, n);
      assert events[1..][n - 1..] == events[n..];
      if events[0].Reply? {
        var req := events[0].req;
        ProcessServes(s, req);
        ProcessKeys(s, req);
        assert s.reqTable.Keys - AnsweredBy(n, events) == s.reqTable.Keys - {req} - AnsweredBy(n - 1, events[1..]);
        var more;
        t, more := DrainAllTakes(Process(s, req), events[1..], n - 1);
        TakenReply(s, t, more, n, events);
        fired := [CallbackFor(s, req)] + more;
        var r := DrainAll(t, events[n..]);
        assert [CallbackFor(s, req)] + (more + r.1) == fired + r.1;
      } else {
        t, fired := DrainAllTakes(s, events[1..], n - 1);
        TakenSilence(s, t, fired, n, events);
      }
    }
  }

  lemma {:induction false} WaitLoopStep(s: State, nb: nat, events: seq<OrbEvent>)
    requires Inv(s) && nb > 0 && s.reqTable.Keys != {} && events != [] && !events[0].OtherError?
    ensures !events[0].Reply? ==> WaitLoop(s, nb, events) == WaitLoop(s, nb - 1, events[1..])
    ensures events[0].Reply? && events[0].req in s.reqTable ==>
              && s.reqTable[events[0].req].dev.Some? && s.reqTable[events[0].req].cb.Some?
              && Inv(Process(s, events[0].req))
              && var r := WaitLoop(Process(s, events[0].req), nb - 1, events[1..]);
                 WaitLoop(s, nb, events) == (r.0, [CallbackFor(s, events[0].req)] + r.1, r.2, r.3)
  {
    hide Inv, Process, CallbackFor;
    assert |s.reqTable.Keys| == |s.reqTable|;
    if events[0].Reply? && events[0].req in s.reqTable {
      ProcessServes(s, events[0].req);
    }
  }

  /** The limited loop does the same, and has as many polls left as it has not used. */
  lemma {:induction false} WaitLoopTakes(s: State, nb: nat, events: seq<OrbEvent>, n: nat) returns (t: State, fired: seq<Fired>)
    requires Inv(s) && n <= nb && Known(s.reqTable.Keys, events, n) && s.reqTable.Keys - AnsweredBy(n, events) != {}
    ensures Inv(t) && Taken(s, t, fired, n, events)
    ensures var r := WaitLoop(t, nb - n, events[n..]); WaitLoop(s, nb, events) == (r.0, fired + r.1, r.2, r.3)
    decreases n
  {
    hide Inv, Taken, Known, Process, CallbackFor, WaitLoop;
    if n == 0 {
      TakenNone(s, events);
      t, fired := s, [];
      assert events[0..] == events && [] + WaitLoop(s, nb, events).1 == WaitLoop(s, nb, events).1;
    } else {
      KnownTail(s.reqTable.Keys, events, n);
      assert s.reqTable.Keys != {};
      WaitLoopStep(s, nb, events);
      assert events[1..][n - 1..] == events[n..];
      if events[0].Reply? {
        var req := events[0].req;
        ProcessServes(s, req);
        ProcessKeys(s, req);
        assert s.reqTable.Keys - AnsweredBy(n, events) == s.reqTable.Keys - {req} - AnsweredBy(n - 1, events[1..]);
        var more;
        t, more := WaitLoopTakes(Process(s, req), nb - 1, events[1..], n - 1);
        TakenReply(s, t, more, n, events);
        fired := [CallbackFor(s, req)] + more;
        var r := WaitLoop(t, nb - n, events[n..]);
        assert [CallbackFor(s, req)] + (more + r.1) == fired + r.1;
      } else {
        t, fired := WaitLoopTakes(s, nb - 1, events[1..], n - 1);
        TakenSilence(s, t, fired, n, events);
      }
    }
  }

  lemma {:induction false} DrainRaises(t: State, nb: nat, events: seq<OrbEvent>)
    requires Inv(t) && t.reqTable.Keys != {} && events != [] && Raised(events[0], t.reqTable.Keys) != Done
    ensures DrainAll(t, events) == (t, [], Raised(events[0], t.reqTable.Keys))
    ensures nb > 0 ==> WaitLoop(t, nb, events) == (t, [], nb - 1, Raised(events[0], t.reqTable.Keys))
  {
    hide Inv;
    assert |t.reqTable.Keys| == |t.reqTable|;
  }

  /** With a timeout argument: an exception raised at event `n`, within the polls there are, comes after
      everything before it has been served. */
  lemma {:induction false} WithinErrs(s: State, timeout: nat, events: seq<OrbEvent>, n: nat)
    requires Inv(s) && n < |events| && Known(Waiting(s), events, n) && (timeout > 0 ==> n < timeout / 20)
    ensures var (s', fired, o) := GetRepliesWithin(s, timeout, events);
            var pending := Waiting(s) - AnsweredBy(n, events);
            pending != {} && Raised(events[n], pending) != Done
            ==> o == Raised(events[n], pending) && s'.reqTable.Keys == pending && Served(s, s', fired)
  {
    hide Inv, Known, Served, FireArrived, DrainAll, WaitLoop, Waiting, Raised, AnsweredBy, Reqs, Replied, NextArrived;
    FireArrivedLeaves(s);
    GetRepliesWithinServes(s, timeout, events);
    var t0 := FireArrived(s).0;
    assert events[n..][0] == events[n];
    assert |t0.reqTable.Keys| == |t0.reqTable|;
    var pending := Waiting(s) - AnsweredBy(n, events);
    if pending != {} && Raised(events[n], pending) != Done {
      if timeout == 0 {
        var t, fired := DrainAllTakes(t0, events, n);
        DrainRaises(t, 0, events[n..]);
      } else {
        var t, fired := WaitLoopTakes(t0, timeout / 20, events, n);
        DrainRaises(t, timeout / 20 - n, events[n..]);
      }
    }
  }
}
