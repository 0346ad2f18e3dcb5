/** What each operation of `AsynReq` does, told from the entries of its tables. */
module AsynEffects {
  import opened Text
  import opened AsynSteps

  // ----- polling mode: removing -----

  /** The entry of that identifier goes and is released; without one there is the exception and no change. */
  ghost predicate PollRemoved(s: State, t: State, id: int, ok: bool) {
    && (ok <==> exists k | 0 <= k < |s.poll| :: s.poll[k].id == id)
    && (!ok ==> t == s)
    && (ok ==> exists k | 0 <= k < |s.poll| ::
          && s.poll[k].id == id
          && t == s.(poll := s.poll[..k] + s.poll[k + 1..], released := s.released + [s.poll[k].req]))
  }

  lemma {:induction false} RemovePollRemoves(s: State, id: int)
    ensures PollRemoved(s, OrSame(RemovePoll(s, id), s), id, RemovePoll(s, id).Some?)
  {
    var k := FindId(s.poll, id);
    if k != -1 {
      assert s.poll[k].id == id;
    }
  }

  /** With identifiers in order, exactly the entry `e` leaves: every other one stays, in order. */
  lemma {:induction false} PollRemovedExact(s: State, t: State, id: int, ok: bool, e: PollEntry)
    requires Ordered(s.poll, s.ctr) && PollRemoved(s, t, id, ok) && e in s.poll && e.id == id
    ensures ok && t.released == s.released + [e.req] && Ordered(t.poll, t.ctr)
    ensures forall x :: x in t.poll <==> x in s.poll && x.id != id
    ensures t.devTable == s.devTable && t.reqTable == s.reqTable && t.cancelled == s.cancelled && t.ctr == s.ctr
  {
    var i :| 0 <= i < |s.poll| && s.poll[i] == e;
    assert s.poll[i].id == id;
    var k :| 0 <= k < |s.poll| && s.poll[k].id == id
             && t == s.(poll := s.poll[..k] + s.poll[k + 1..], released := s.released + [s.poll[k].req]);
    assert i == k;
    WithoutMembers(s.poll, s.ctr, k);
    WithoutOrdered(s.poll, s.ctr, k);
  }

  lemma {:induction false} WithoutMembers(poll: seq<PollEntry>, ctr: int, k: nat)
    requires Ordered(poll, ctr) && k < |poll|
    ensures forall x :: x in Without(poll, k) <==> x in poll && x.id != poll[k].id
  {
    var p := Without(poll, k);
    forall x ensures x in p <==> x in poll && x.id != poll[k].id {
      if x in p {
        var i :| 0 <= i < |p| && p[i] == x;
        assert x == poll[if i < k then i else i + 1];
      }
      if x in poll && x.id != poll[k].id {
        var i :| 0 <= i < |poll| && poll[i] == x;
        assert x == p[if i < k then i else i - 1];
      }
    }
  }

  // ----- polling mode: cancelling -----

  /** The identifier joins the list, once; without an entry there is the exception and no change. */
  ghost predicate Cancelled(s: State, t: State, id: int, ok: bool) {
    && (ok <==> exists k | 0 <= k < |s.poll| :: s.poll[k].id == id)
    && (!ok ==> t == s)
    && (ok ==> t == s.(cancelled := t.cancelled) && s.cancelled <= t.cancelled
               && |t.cancelled| == |s.cancelled| + (if id in s.cancelled then 0 else 1)
               && forall x :: x in t.cancelled <==> x in s.cancelled || x == id)
  }

  lemma {:induction false} CancelJoins(s: State, id: int)
    ensures Cancelled(s, OrSame(Cancel(s, id), s), id, Cancel(s, id).Some?)
  {
  }

  /** Every identifier of the table joins the list, new ones in the order of the table. */
  ghost predicate CancelledAll(s: State, t: State) {
    && t == s.(cancelled := t.cancelled) && s.cancelled <= t.cancelled
    && (forall x :: x in t.cancelled <==> x in s.cancelled || exists k | 0 <= k < |s.poll| :: s.poll[k].id == x)
    && (forall i | |s.cancelled| <= i < |t.cancelled| :: t.cancelled[i] !in s.cancelled)
    && (Ordered(s.poll, s.ctr) ==> forall i, j | |s.cancelled| <= i < j < |t.cancelled| :: t.cancelled[i] < t.cancelled[j])
  }

  lemma {:induction false} CancelAllJoins(s: State)
    ensures CancelledAll(s, CancelAll(s))
  {
    CancellingMembers(s.cancelled, s.poll);
    if Ordered(s.poll, s.ctr) {
      CancellingOrder(s.cancelled, s.poll, s.ctr);
    }
  }

  lemma {:induction false} CancellingMembers(c: seq<int>, poll: seq<PollEntry>)
    ensures var r := CancellingAll(c, poll);
            && c <= r
            && (forall x :: x in r <==> x in c || exists k | 0 <= k < |poll| :: poll[k].id == x)
            && (forall i | |c| <= i < |r| :: r[i] !in c)
    decreases |poll|
  {
    if poll != [] {
      var init, last := poll[..|poll| - 1], poll[|poll| - 1];
      CancellingMembers(c, init);
      var before, r := CancellingAll(c, init), CancellingAll(c, poll);
      hide CancellingAll;
      forall x ensures x in r <==> x in c || exists k | 0 <= k < |poll| :: poll[k].id == x {
        assert x in r <==> x in before || x == last.id;
        if x in before && x !in c {
          var k :| 0 <= k < |init| && init[k].id == x;
          assert poll[k].id == x;
        }
        if k :| 0 <= k < |poll| && poll[k].id == x {
          assert k < |init| ==> init[k].id == x;
        }
        assert poll[|poll| - 1].id == last.id;
      }
    }
  }

  lemma {:induction false} CancellingOrder(c: seq<int>, poll: seq<PollEntry>, ctr: int)
    requires Ordered(poll, ctr)
    ensures var r := CancellingAll(c, poll);
            && c <= r
            && (forall i, j | |c| <= i < j < |r| :: r[i] < r[j])
            && (forall i | |c| <= i < |r| :: poll != [] && r[i] <= poll[|poll| - 1].id)
    decreases |poll|
  {
    if poll != [] {
      var init := poll[..|poll| - 1];
      CancellingOrder(c, init, ctr);
      assert init != [] ==> init[|init| - 1].id < poll[|poll| - 1].id;
    }
  }

  // ----- polling mode: storing -----

  /** A cancelled identifier can go when its entry has gone or its reply is there. */
  lemma {:induction false} RemovableMeans(poll: seq<PollEntry>, ctr: int, answered: set<Request>, id: int)
    requires Ordered(poll, ctr)
    ensures Removable(poll, answered, id) <==> forall e | e in poll && e.id == id :: e.req in answered
  {
    var k := FindId(poll, id);
    forall e | e in poll && e.id == id ensures k != -1 && e == poll[k] {
      var i :| 0 <= i < |poll| && poll[i] == e;
    }
    if k != -1 {
      assert poll[k] in poll;
    }
  }

  lemma {:induction false} AllGone(poll: seq<PollEntry>, ctr: int, released: seq<Request>, ids: seq<int>)
    requires Ordered(poll, ctr)
    ensures var p := RemoveAllGone(poll, released, ids).0;
            Ordered(p, ctr) && forall x :: x in p <==> x in poll && x.id !in ids
    decreases |ids|
  {
    if ids != [] {
      var init, last := ids[..|ids| - 1], ids[|ids| - 1];
      AllGone(poll, ctr, released, init);
      var (p, r) := RemoveAllGone(poll, released, init);
      assert ids == init + [last];
      hide RemoveAllGone, Ordered;
      var k := FindId(p, last);
      if k == -1 {
        forall x | x in p ensures x.id != last {
          var i :| 0 <= i < |p| && p[i] == x;
        }
      } else {
        WithoutMembers(p, ctr, k);
        WithoutOrdered(p, ctr, k);
      }
    }
  }

  /** Storing: a new entry under a new identifier; of the old ones exactly those leave whose identifier
      leaves the cancelled list, which are answered; all others stay, in order. */
  ghost predicate PollStored(s: State, t: State, answered: set<Request>, req: Request, ty: ReqType) {
    var gone := multiset(s.cancelled) - multiset(t.cancelled);
    && t.ctr == s.ctr + 1 && Ordered(t.poll, t.ctr)
    && (forall x :: x in t.poll <==> x == PollEntry(t.ctr, req, ty) || (x in s.poll && x.id !in gone))
    && (forall x | x in s.poll && x.id in gone :: x.req in answered)
    && t.devTable == s.devTable && t.reqTable == s.reqTable
  }

  lemma {:induction false} StorePollStores(s: State, answered: set<Request>, req: Request, ty: ReqType)
    requires Inv(s)
    ensures PollStored(s, StorePoll(s, answered, req, ty), answered, req, ty)
  {
    var can := CanRemove(s.poll, answered);
    var ids := Dropped(s.cancelled, can);
    var t := StorePoll(s, answered, req, ty);
    assert Ordered(s.poll, s.ctr);
    hide Inv, Kept, Dropped, RemoveAllGone, Ordered, Removable;
    AllGone(s.poll, s.ctr, s.released, ids);
    var p := RemoveAllGone(s.poll, s.released, ids).0;
    assert t.poll == p + [PollEntry(t.ctr, req, ty)];
    hide StorePoll;
    NewLast(p, s.ctr, PollEntry(t.ctr, req, ty));
    GoneDropped(s.cancelled, can);
    DroppedAnswered(s.poll, s.ctr, answered, s.cancelled);
    Assembled(s, t, answered, req, ty, p, ids);
  }

  lemma {:induction false} DroppedAnswered(poll: seq<PollEntry>, ctr: int, answered: set<Request>, c: seq<int>)
    requires Ordered(poll, ctr)
    ensures forall x | x in poll && x.id in Dropped(c, CanRemove(poll, answered)) :: x.req in answered
  {
    hide Ordered, Dropped, Removable;
    var can := CanRemove(poll, answered);
    PurgeDropsRemovable(c, can);
    forall x | x in poll && x.id in Dropped(c, can) ensures x.req in answered {
      assert can(x.id);
      RemovableMeans(poll, ctr, answered, x.id);
    }
  }

  lemma {:induction false} Assembled(s: State, t: State, answered: set<Request>, req: Request, ty: ReqType, p: seq<PollEntry>, ids: seq<int>)
    requires multiset(s.cancelled) - multiset(t.cancelled) == multiset(ids)
    requires t.ctr == s.ctr + 1 && Ordered(t.poll, t.ctr) && t.devTable == s.devTable && t.reqTable == s.reqTable
    requires forall x :: x in t.poll <==> x == PollEntry(t.ctr, req, ty) || x in p
    requires forall x :: x in p <==> x in s.poll && x.id !in ids
    requires forall x | x in s.poll && x.id in ids :: x.req in answered
    ensures PollStored(s, t, answered, req, ty)
  {
    hide Ordered;
    var gone := multiset(s.cancelled) - multiset(t.cancelled);
    assert forall i: int :: i in gone <==> i in ids;
  }

  lemma {:induction false} GoneDropped(c: seq<int>, can: int -> bool)
    ensures multiset(c) - multiset(Kept(c, can)) == multiset(Dropped(c, can))
    ensures forall x :: x in multiset(Dropped(c, can)) <==> x in Dropped(c, can)
  {
    hide Kept, Dropped;
    PurgeConserves(c, can);
  }

  lemma {:induction false} NewLast(poll: seq<PollEntry>, ctr: int, e: PollEntry)
    requires Ordered(poll, ctr) && e.id == ctr + 1
    ensures Ordered(poll + [e], ctr + 1)
    ensures forall x :: x in poll + [e] <==> x == e || x in poll
  {
  }

  // ----- callback mode -----

  /** Storing under a fresh handle: the entry stands behind those of its own and of smaller devices; the
      request table has the same request, device, type and callback, not yet arrived. */
  ghost predicate CbStored(s: State, t: State, e: DevEntry) {
    && (exists u | 0 <= u <= |s.devTable| ::
          && t.devTable == s.devTable[..u] + [e] + s.devTable[u..]
          && (forall i | 0 <= i < u :: s.devTable[i].dev <= e.dev)
          && (u < |s.devTable| ==> s.devTable[u].dev > e.dev))
    && t.reqTable == s.reqTable[e.req := TgRequest(None, e.reqType, Some(e.cb), e.arrived, Some(e.dev))]
    && t == s.(devTable := t.devTable, reqTable := t.reqTable)
  }

  lemma {:induction false} StoreCbStores(s: State, e: DevEntry)
    ensures e.req !in s.reqTable ==> CbStored(s, StoreCb(s, e), e)
    ensures e.req in s.reqTable ==> StoreCb(s, e).reqTable == s.reqTable
  {
    var u := UpperBound(s.devTable, e.dev);
    assert StoreCb(s, e).devTable == s.devTable[..u] + [e] + s.devTable[u..];
  }

  /** Marking a request as arrived sets its flag in both tables and changes nothing else. */
  lemma {:induction false} ArriveMarks(s: State, req: Request)
    requires Inv(s) && req in s.reqTable
    ensures var t := Arrive(s, req).value;
            && t.reqTable == s.reqTable[req := s.reqTable[req].(arrived := true)]
            && |t.devTable| == |s.devTable|
            && (forall i | 0 <= i < |t.devTable| ::
                  t.devTable[i] == if s.devTable[i].req == req then s.devTable[i].(arrived := true) else s.devTable[i])
            && t == s.(devTable := t.devTable, reqTable := t.reqTable)
  {
    hide FindReq;
  }

  /** Removing a request under its own device: it leaves both tables and is released; the rest stays. */
  lemma {:induction false} RemoveCbRemoves(s: State, dev: Connection, req: Request)
    requires Inv(s) && req in s.reqTable && s.reqTable[req].dev == Some(dev)
    ensures var t := RemoveCb(s, dev, req);
            && t.reqTable == s.reqTable - {req}
            && (forall x :: x in t.devTable <==> x in s.devTable && x.req != req)
            && t.released == s.released + [req]
            && t == s.(devTable := t.devTable, reqTable := t.reqTable, released := t.released)
  {
    hide FindEntry, FindReq, Without, Ordered, NoRepeats;
    var k := FindReq(s.devTable, req);
    assert s.devTable[k].dev == dev;
    FoundIsOnly(s.devTable, k);
    OthersStay(s.devTable, k);
  }

  lemma {:induction false} OthersStay(t: seq<DevEntry>, k: nat)
    requires Distinct(t) && k < |t|
    ensures forall x :: x in Without(t, k) <==> x in t && x.req != t[k].req
  {
    var r := Without(t, k);
    forall x ensures x in r <==> x in t && x.req != t[k].req {
      if x in r {
        var i :| 0 <= i < |r| && r[i] == x;
        assert x == t[if i < k then i else i + 1];
      }
      if x in t && x.req != t[k].req {
        var i :| 0 <= i < |t| && t[i] == x;
        assert x == r[if i < k then i else i - 1];
      }
    }
  }
}
