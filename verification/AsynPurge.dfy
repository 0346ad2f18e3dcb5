/** How fast cancelled requests leave the table over many calls of `store_request`. */
module AsynPurge {
  import opened AsynSteps

  /** Cancelled identifiers have been handed out. */
  predicate HandedOut(s: State) {
    forall id | id in s.cancelled :: id <= s.ctr
  }

  function Left(s: State, answered: set<Request>): nat {
    CountIf(s.cancelled, CanRemove(s.poll, answered))
  }

  lemma {:induction false} CountSame(c: seq<int>, p: int -> bool, q: int -> bool)
    requires forall i | 0 <= i < |c| :: p(c[i]) == q(c[i])
    ensures CountIf(c, p) == CountIf(c, q)
    decreases |c|
  {
    if c != [] {
      var tail := c[1..];
      assert forall i | 0 <= i < |tail| :: tail[i] == c[i + 1];
      CountSame(c[1..], p, q);
    }
  }

  lemma {:induction false} KeptInside(c: seq<int>, can: int -> bool, x: int)
    requires x in Kept(c, can)
    ensures x in c
  {
    hide Kept, Dropped;
    PurgeConserves(c, can);
    assert x in multiset(Kept(c, can));
    assert x in multiset(c);
  }

  /** A new entry changes no answer about another identifier. */
  lemma {:induction false} NewEntry(poll: seq<PollEntry>, e: PollEntry, answered: set<Request>, id: int)
    requires id != e.id
    ensures Removable(poll + [e], answered, id) == Removable(poll, answered, id)
    decreases |poll|
  {
    if poll == [] {
      assert (poll + [e])[1..] == [];
    } else {
      assert (poll + [e])[1..] == poll[1..] + [e];
      NewEntry(poll[1..], e, answered, id);
    }
  }

  /** One call halves the number of cancelled requests that can be removed. */
  lemma {:induction false} StorePollHalves(s: State, answered: set<Request>, req: Request, ty: ReqType)
    requires Inv(s) && HandedOut(s)
    ensures var t := StorePoll(s, answered, req, ty);
            Inv(t) && HandedOut(t) && 2 * Left(t, answered) <= Left(s, answered)
  {
    hide Inv, Removable, RemoveAllGone, Kept, Dropped, CountIf, Ordered;
    var can := CanRemove(s.poll, answered);
    var ids := Dropped(s.cancelled, can);
    var t := StorePoll(s, answered, req, ty);
    StorePollKeeps(s, answered, req, ty);
    PurgeProgress(s.cancelled, can);
    PurgeDropsRemovable(s.cancelled, can);
    InvOrdered(s);
    RemoveAllGoneKeeps(s.poll, s.ctr, s.released, answered, ids);
    var p := RemoveAllGone(s.poll, s.released, ids).0;
    forall i | 0 <= i < |t.cancelled|
      ensures t.cancelled[i] <= s.ctr && can(t.cancelled[i]) == CanRemove(t.poll, answered)(t.cancelled[i])
    {
      KeptInside(s.cancelled, can, t.cancelled[i]);
      NewEntry(p, PollEntry(s.ctr + 1, req, ty), answered, t.cancelled[i]);
    }
    CountSame(t.cancelled, can, CanRemove(t.poll, answered));
  }

  lemma {:induction false} InvOrdered(s: State)
    requires Inv(s)
    ensures Ordered(s.poll, s.ctr)
  {
  }

  /** A run of `store_request` calls during which no further reply comes. */
  function StorePolls(s: State, answered: set<Request>, stores: seq<(Request, ReqType)>): State
    decreases |stores|
  {
    if stores == [] then s
    else StorePolls(StorePoll(s, answered, stores[0].0, stores[0].1), answered, stores[1..])
  }

  function Power2(n: nat): nat {
    if n == 0 then 1 else 2 * Power2(n - 1)
  }

  lemma {:induction false} Twice(a: nat, b: nat)
    ensures (2 * a) * b == 2 * (a * b)
  {
  }

  /** After n calls at most 1 in 2 to the power n is left of what could be removed before. */
  lemma {:induction false} PurgeConverges(s: State, answered: set<Request>, stores: seq<(Request, ReqType)>)
    requires Inv(s) && HandedOut(s)
    ensures var t := StorePolls(s, answered, stores);
            Inv(t) && HandedOut(t) && Power2(|stores|) * Left(t, answered) <= Left(s, answered)
    decreases |stores|
  {
    hide Inv, HandedOut, Left;
    if stores != [] {
      StorePollHalves(s, answered, stores[0].0, stores[0].1);
      var s' := StorePoll(s, answered, stores[0].0, stores[0].1);
      PurgeConverges(s', answered, stores[1..]);
      Twice(Power2(|stores| - 1), Left(StorePolls(s', answered, stores[1..]), answered));
    }
  }

  /** Replies that come in between can delay it: here an identifier that could be removed from the start
      outlives two purges, as each removes another one right before it. */
  lemma {:induction false} LateRepliesDelay(a: int, b: int, id: int, first: int -> bool, second: int -> bool)
    requires !first(a) && first(b) && first(id)
    requires forall x | first(x) :: second(x)
    requires second(a)
    ensures Kept(Kept([a, b, id], first), second) == [id]
  {
    assert [a, b, id][1..] == [b, id] && [b, id][2..] == [];
    PurgeLeaves(b, id, first);
    PurgeLeaves(a, id, second);
  }

  // ----- in every run -----

  lemma {:induction false} CancellingAllIds(c: seq<int>, poll: seq<PollEntry>, ctr: int)
    requires forall id | id in c :: id <= ctr
    requires forall i | 0 <= i < |poll| :: poll[i].id <= ctr
    ensures forall id | id in CancellingAll(c, poll) :: id <= ctr
    decreases |poll|
  {
    if poll != [] {
      CancellingAllIds(c, poll[..|poll| - 1], ctr);
    }
  }

  /** Every operation cancels only identifiers it finds in the table. */
  lemma {:induction false} StepHandsOut(s: State, op: Op)
    requires Inv(s) && HandedOut(s) && WellUsed(s, op)
    ensures HandedOut(Step(s, op))
  {
    hide Mirror, NoRepeats, FindId, RemoveAllGone, Kept, Dropped, CountIf;
    match op
    case DoStorePoll(answered, req, ty) => StorePollHalves(s, answered, req, ty);
    case DoStoreCb(e) =>
    case DoArrive(req) =>
    case DoRemoveCb(dev, req) =>
    case DoRemovePoll(id) =>
    case DoCancel(id) =>
    case DoCancelAll => CancellingAllIds(s.cancelled, s.poll, s.ctr);
  }

  /** So what `PurgeConverges` asks for holds in every run from empty tables. */
  lemma {:induction false} RunHandsOut(s: State, ops: seq<Op>)
    requires Inv(s) && HandedOut(s) && WellUsedRun(s, ops)
    ensures Inv(Run(s, ops)) && HandedOut(Run(s, ops))
    decreases |ops|
  {
    if ops != [] {
      hide Inv, HandedOut, WellUsed, Step;
      StepKeeps(s, ops[0]);
      StepHandsOut(s, ops[0]);
      RunHandsOut(Step(s, ops[0]), ops[1..]);
    }
  }
}
