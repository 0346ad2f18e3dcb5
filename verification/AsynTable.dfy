/** The methods of `AsynReq` as the source writes them, loops over the tables, against the steps of
    module `AsynSteps`. */
module AsynTable {
  import opened Text
  import opened AsynSteps
  import opened AsynEffects

  // ----- loops -----

  /** `remove_cancelled_request` */
  method RemoveCancelledRequest(poll0: seq<PollEntry>, ghost released0: seq<Request>, answered: set<Request>, id: int)
      returns (ret: bool, poll: seq<PollEntry>, ghost released: seq<Request>)
    ensures ret == Removable(poll0, answered, id)
    ensures poll == if ret then RemoveGone(poll0, released0, id).0 else poll0
    ensures released == if ret then RemoveGone(poll0, released0, id).1 else released0
  {
    poll, released := poll0, released0;
    var pos := FindId(poll, id);
    ret := true;
    if pos != -1 {
      if poll[pos].req !in answered {
        ret := false;
      } else {
        released := released + [poll[pos].req];
        poll := Without(poll, pos);
      }
    }
  }

  /** The purge at the head of `store_request`. */
  method Purge(poll0: seq<PollEntry>, ghost released0: seq<Request>, cancelled0: seq<int>, answered: set<Request>, ghost ctr: int)
      returns (poll: seq<PollEntry>, ghost released: seq<Request>, cancelled: seq<int>)
    requires Ordered(poll0, ctr)
    ensures cancelled == Kept(cancelled0, CanRemove(poll0, answered))
    ensures poll == RemoveAllGone(poll0, released0, Dropped(cancelled0, CanRemove(poll0, answered))).0
    ensures released == RemoveAllGone(poll0, released0, Dropped(cancelled0, CanRemove(poll0, answered))).1
  {
    hide Ordered, Removable, RemoveAllGone, RemoveGone, Without, Kept, Dropped, FindId, PollReqs;
    ghost var can := CanRemove(poll0, answered);
    ghost var j, dropped: seq<int> := 0, [];
    poll, released, cancelled := poll0, released0, cancelled0;
    NothingGone(poll, released);
    var i := 0;
    assert cancelled0[0..] == cancelled0 && cancelled[..0] == [];
    while i < |cancelled|
      invariant 0 <= i <= |cancelled| && 0 <= j <= |cancelled0|
      invariant cancelled[i..] == cancelled0[j..]
      invariant Kept(cancelled0, can) == cancelled[..i] + Kept(cancelled0[j..], can)
      invariant Dropped(cancelled0, can) == dropped + Dropped(cancelled0[j..], can)
      invariant (poll, released) == RemoveAllGone(poll0, released0, dropped)
      invariant forall x | x in dropped :: can(x)
    {
      ghost var rest := cancelled0[j..];
      assert rest == cancelled[i..] && cancelled[i] == rest[0];
      assert forall x | x in dropped :: can(x) == Removable(poll0, answered, x);
      RemoveAllGoneKeeps(poll0, ctr, released0, answered, dropped);
      var ret, poll', released' := RemoveCancelledRequest(poll, released, answered, cancelled[i]);
      assert ret == can(cancelled[i]);
      PurgeStep(rest, can);
      if ret {
        OneMoreGone(poll0, released0, dropped, cancelled[i]);
        Erased(cancelled, i);
        poll, released := poll', released';
        dropped := dropped + [cancelled[i]];
        cancelled := Without(cancelled, i);
        if i == |cancelled| {
          j := |cancelled0|;
          break;
        }
        assert rest[2..] == cancelled0[j + 2..];
        j := j + 2;
      } else {
        assert cancelled[i + 1..] == rest[1..];
        assert rest[1..] == cancelled0[j + 1..];
        assert cancelled[..i + 1] == cancelled[..i] + [rest[0]];
        j := j + 1;
      }
      i := i + 1;
    }
    PurgeEnd(can);
    assert cancelled[..|cancelled|] == cancelled && cancelled0[j..] == [];
    assert Dropped(cancelled0, can) == dropped;
  }

  /** A list before and after the element at `i` is erased. */
  lemma {:induction false} Erased(c: seq<int>, i: nat)
    requires i < |c|
    ensures var w, rest := Without(c, i), c[i..];
            && |w| == |c| - 1 && w[..i] == c[..i]
            && (|rest| == 1 ==> w == c[..i])
            && (|rest| > 1 ==> i < |w| && w[i + 1..] == rest[2..] && w[..i + 1] == c[..i] + [rest[1]])
  {
  }

  lemma {:induction false} NothingGone(poll: seq<PollEntry>, released: seq<Request>)
    ensures RemoveAllGone(poll, released, []) == (poll, released)
  {
  }

  lemma {:induction false} OneMoreGone(poll: seq<PollEntry>, released: seq<Request>, ids: seq<int>, id: int)
    ensures var (p, r) := RemoveAllGone(poll, released, ids);
            RemoveAllGone(poll, released, ids + [id]) == RemoveGone(p, r, id)
  {
    assert (ids + [id])[..|ids|] == ids;
  }

  lemma {:induction false} PurgeEnd(can: int -> bool)
    ensures Kept([], can) == [] && Dropped([], can) == []
  {
  }

  lemma {:induction false} PurgeStep(c: seq<int>, can: int -> bool)
    requires c != []
    ensures !can(c[0]) ==> Kept(c, can) == [c[0]] + Kept(c[1..], can) && Dropped(c, can) == Dropped(c[1..], can)
    ensures can(c[0]) && |c| == 1 ==> Kept(c, can) == [] && Dropped(c, can) == [c[0]]
    ensures can(c[0]) && |c| > 1 ==> Kept(c, can) == [c[1]] + Kept(c[2..], can) && Dropped(c, can) == [c[0]] + Dropped(c[2..], can)
  {
  }

  /** `lower_bound(dev)` */
  method LowerBound(t: seq<DevEntry>, dev: Connection) returns (pos: nat)
    requires ByDevice(t)
    ensures pos <= |t| && forall k | 0 <= k < pos :: t[k].dev < dev
    ensures forall k | pos <= k < |t| :: t[k].dev >= dev
  {
    pos := 0;
    while pos < |t| && t[pos].dev < dev
      invariant 0 <= pos <= |t| && forall k | 0 <= k < pos :: t[k].dev < dev
    {
      pos := pos + 1;
    }
  }

  /** The search of `remove_request`, from the first to the last entry of the device. */
  method SearchDevice(t: seq<DevEntry>, dev: Connection, req: Request) returns (pos: int)
    requires ByDevice(t)
    ensures pos == FindEntry(t, dev, req)
  {
    hide FindEntry;
    ghost var k := FindEntry(t, dev, req);
    pos := LowerBound(t, dev);
    while pos < |t| && t[pos].dev == dev
      invariant 0 <= pos <= |t| && (k == -1 || k >= pos)
    {
      if t[pos].req == req {
        return;
      }
      pos := pos + 1;
    }
    pos := -1;
  }

  /** `e` is in the table, behind no other arrived entry of the same device. */
  ghost predicate FirstArrived(t: seq<DevEntry>, e: DevEntry) {
    exists k | 0 <= k < |t| :: t[k] == e && forall j | 0 <= j < k :: !(t[j].dev == e.dev && t[j].arrived)
  }

  // ----- the class -----

  class AsynReq {
    var poll: seq<PollEntry>
    var devTable: seq<DevEntry>
    var reqTable: map<Request, TgRequest>
    var cancelled: seq<int>
    var ctr: int
    ghost var released: seq<Request>

    ghost function St(): State
      reads this
    {
      State(poll, devTable, reqTable, cancelled, ctr, released)
    }

    constructor ()
      ensures St() == Empty
    {
      poll, devTable, reqTable, cancelled, ctr, released := [], [], map[], [], 0, [];
    }

    /** Polling mode: purges cancelled requests, then stores the new one under a new identifier. */
    method StoreRequest(req: Request, ty: ReqType, answered: set<Request>) returns (reqId: int)
      requires Ordered(poll, ctr)
      modifies this
      ensures St() == StorePoll(old(St()), answered, req, ty)
      ensures reqId == ctr == old(ctr) + 1
      ensures Inv(old(St())) ==> PollStored(old(St()), St(), answered, req, ty)
    {
      if Inv(St()) {
        StorePollStores(St(), answered, req, ty);
      }
      hide Inv, PollStored;
      PurgeEnd(CanRemove(poll, answered));
      NothingGone(poll, released);
      hide Ordered, RemoveAllGone, Kept, Dropped;
      if cancelled != [] {
        var poll', cancelled';
        ghost var released';
        poll', released', cancelled' := Purge(poll, released, cancelled, answered, ctr);
        poll, released, cancelled := poll', released', cancelled';
      }
      ctr := ctr + 1;
      reqId := ctr;
      poll := poll + [PollEntry(reqId, req, ty)];
    }

    /** Callback mode. */
    method StoreCbRequest(req: Request, cb: CallBack, dev: Connection, ty: ReqType)
      modifies this`devTable, this`reqTable
      ensures St() == StoreCb(old(St()), DevEntry(dev, req, ty, cb, false))
      ensures req !in old(reqTable) ==> CbStored(old(St()), St(), DevEntry(dev, req, ty, cb, false))
    {
      hide CbStored;
      var e := DevEntry(dev, req, ty, cb, false);
      StoreCbStores(St(), e);
      var u := 0;
      while u < |devTable| && devTable[u].dev <= dev
        invariant 0 <= u <= UpperBound(devTable, dev)
        invariant devTable == old(devTable) && reqTable == old(reqTable)
      {
        UpperStep(devTable, dev, u);
        u := u + 1;
      }
      UpperEnd(devTable, dev, u);
      devTable := devTable[..u] + [e] + devTable[u..];
      if req !in reqTable {
        reqTable := reqTable[req := TgRequest(None, ty, Some(cb), false, Some(dev))];
      }
    }

    /** `mark_as_arrived`: the first entry of the request in the device table. */
    method MarkAsArrived(req: Request)
      modifies this`devTable
      ensures var k := FindReq(old(devTable), req);
              devTable == if k == -1 then old(devTable) else old(devTable)[k := old(devTable)[k].(arrived := true)]
    {
      hide FindReq;
      var pos := 0;
      while pos < |devTable|
        invariant 0 <= pos <= |devTable| && devTable == old(devTable)
        invariant forall k | 0 <= k < pos :: devTable[k].req != req
      {
        if devTable[pos].req == req {
          devTable := devTable[pos := devTable[pos].(arrived := true)];
          return;
        }
        pos := pos + 1;
      }
    }

    /** `get_request(dev)`: the first arrived request of a device. */
    method GetArrived(dev: Connection) returns (r: Option<DevEntry>)
      requires ByDevice(devTable)
      ensures r.Some? ==> r.value.dev == dev && r.value.arrived && FirstArrived(devTable, r.value)
      ensures r.None? ==> forall k | 0 <= k < |devTable| :: devTable[k].dev != dev || !devTable[k].arrived
    {
      var pos := LowerBound(devTable, dev);
      while pos < |devTable| && devTable[pos].dev == dev
        invariant 0 <= pos <= |devTable|
        invariant forall k | 0 <= k < pos :: devTable[k].dev != dev || !devTable[k].arrived
        invariant forall k | pos <= k < |devTable| :: devTable[k].dev >= dev
      {
        if devTable[pos].arrived {
          return Some(devTable[pos]);
        }
        pos := pos + 1;
      }
      return None;
    }

    /** Callback mode: the entry of the device table, then the request table. */
    method RemoveCbRequest(dev: Connection, req: Request)
      requires ByDevice(devTable)
      modifies this
      ensures St() == RemoveCb(old(St()), dev, req)
    {
      hide FindEntry, ByDevice;
      var pos := SearchDevice(devTable, dev, req);
      if pos != -1 {
        released := released + [req];
        devTable := Without(devTable, pos);
      }
      reqTable := reqTable - {req};
    }

    /** Polling mode; false stands for the exception on an unknown identifier. */
    method RemovePollRequest(reqId: int) returns (ok: bool)
      modifies this
      ensures ok <==> RemovePoll(old(St()), reqId).Some?
      ensures St() == OrSame(RemovePoll(old(St()), reqId), old(St()))
      ensures PollRemoved(old(St()), St(), reqId, ok)
    {
      hide PollRemoved;
      RemovePollRemoves(St(), reqId);
      var pos := FindId(poll, reqId);
      ok := pos != -1;
      if ok {
        released := released + [poll[pos].req];
        poll := Without(poll, pos);
      }
    }

    method MarkAsCancelled(reqId: int) returns (ok: bool)
      modifies this`cancelled
      ensures ok <==> Cancel(old(St()), reqId).Some?
      ensures St() == OrSame(Cancel(old(St()), reqId), old(St()))
      ensures Cancelled(old(St()), St(), reqId, ok)
    {
      hide Cancelled;
      CancelJoins(St(), reqId);
      ok := FindId(poll, reqId) != -1;
      if ok && reqId !in cancelled {
        cancelled := cancelled + [reqId];
      }
    }

    method MarkAllPollingAsCancelled()
      modifies this`cancelled
      ensures St() == CancelAll(old(St()))
      ensures CancelledAll(old(St()), St())
    {
      hide CancelledAll;
      CancelAllJoins(St());
      var pos := 0;
      assert poll[..0] == [];
      while pos < |poll|
        invariant 0 <= pos <= |poll|
        invariant cancelled == CancellingAll(old(cancelled), poll[..pos])
      {
        var id := poll[pos].id;
        if id !in cancelled {
          cancelled := cancelled + [id];
        }
        assert poll[..pos + 1][..pos] == poll[..pos];
        pos := pos + 1;
      }
      assert poll[..|poll|] == poll;
    }
  }

  lemma {:induction false} UpperStep(t: seq<DevEntry>, dev: Connection, u: nat)
    requires u < |t| && u <= UpperBound(t, dev) && t[u].dev <= dev
    ensures u + 1 <= UpperBound(t, dev)
  {
    hide UpperBound;
  }

  lemma {:induction false} UpperEnd(t: seq<DevEntry>, dev: Connection, u: nat)
    requires u <= UpperBound(t, dev) && (u == |t| || t[u].dev > dev)
    ensures u == UpperBound(t, dev)
  {
    hide UpperBound;
  }
}
