/** Conservation: the outbound messages in the table or deleted by retention are exactly those that replies have
    accepted. */
module QueueLedger {
  import opened Prelude
  import opened Messages
  import opened Queue
  import opened QueueInvariant
  import opened QueueSafety
  import opened QueueSubmit

  /** The k-th id of the i-th reply, which accepted a request, is `id`. */
  predicate AcceptedAt(s: State, i: int, k: int, id: Id) {
    0 <= i < |s.replies| && s.replies[i].outcome.Accepted? && 0 <= k < |s.replies[i].ids| && s.replies[i].ids[k] == id
  }

  ghost predicate AcceptedId(s: State, id: Id) { exists i, k :: AcceptedAt(s, i, k, id) }

  predicate IsOutbound(s: State, id: Id) {
    || (id in s.cells && s.cells[id].row.direction.Outbound?)
    || (id in s.tombs && s.tombs[id].cell.row.direction.Outbound?)
  }

  /** Accepted ids and outbound messages, present or deleted, are the same, and no id was accepted twice. */
  ghost predicate Balanced(s: State) {
    && (forall id :: AcceptedId(s, id) <==> IsOutbound(s, id))
    && (forall i, k, j, l, id :: AcceptedAt(s, i, k, id) && AcceptedAt(s, j, l, id) ==> i == j && k == l)
  }

  /** What was replied stays, and what is added accepts nothing. */
  ghost predicate NothingAccepted(s: State, t: State) {
    s.replies <= t.replies && forall i | |s.replies| <= i < |t.replies| :: !t.replies[i].outcome.Accepted?
  }

  lemma BalanceKept(s: State, t: State)
    requires Balanced(s) && NothingAccepted(s, t)
    requires forall id :: IsOutbound(t, id) <==> IsOutbound(s, id)
    ensures Balanced(t)
  {
    forall i, k, id ensures AcceptedAt(t, i, k, id) <==> AcceptedAt(s, i, k, id) {}
    forall id ensures AcceptedId(t, id) <==> AcceptedId(s, id) {
      if AcceptedId(s, id) {
        var i, k :| AcceptedAt(s, i, k, id);
        assert AcceptedAt(t, i, k, id);
      }
    }
  }

  lemma OthersAcceptNothing(c: Config, s: State, e: Event)
    requires !e.SubmitInsert?
    ensures NothingAccepted(s, Step(c, s, e))
  {
    if !e.SubmitLookup? && !e.SubmitRecover? {
      OthersReplyNothing(c, s, e);
    }
  }

  lemma OthersReplyNothing(c: Config, s: State, e: Event)
    requires !e.SubmitInsert? && !e.SubmitLookup? && !e.SubmitRecover?
    ensures Step(c, s, e).replies == s.replies
  {
  }

  lemma OthersAddNothing(c: Config, s: State, e: Event, id: Id)
    requires Inv(c, s) && !e.SubmitInsert?
    ensures IsOutbound(Step(c, s, e), id) <==> IsOutbound(s, id)
  {
    if !e.Prune? && !e.InboundArrive? {
      StepForward(c, s, e);
    }
  }

  lemma InsertRefused(s: State, rid: Rid, ids: seq<Id>, clash: Option<Id>)
    ensures var t := InsertStep(s, rid, ids, clash);
      || (t.cells == s.cells && NothingAccepted(s, t) && t.tombs == s.tombs)
      || (rid in s.requests && s.requests[rid].Missed? && |ids| == |s.requests[rid].topics| && FreshIds(s, ids)
          && t.cells == s.cells + NewCells(s.requests[rid], ids, s.now) && t.tombs == s.tombs
          && t.replies == s.replies + [Reply(s.requests[rid].service, s.requests[rid].key, ids, Accepted)])
  {
  }

  lemma AcceptedBefore(s: State, t: State, r: Reply, i: int, k: int, id: Id)
    requires t.replies == s.replies + [r] && r.outcome.Accepted?
    ensures AcceptedAt(t, i, k, id) <==>
      AcceptedAt(s, i, k, id) || (i == |s.replies| && 0 <= k < |r.ids| && r.ids[k] == id)
  {
  }

  lemma NewlyAccepted(s: State, t: State, r: Reply)
    requires t.replies == s.replies + [r] && r.outcome.Accepted?
    ensures forall id :: AcceptedId(t, id) <==> AcceptedId(s, id) || id in r.ids
  {
    forall id ensures AcceptedId(t, id) <==> AcceptedId(s, id) || id in r.ids {
      forall i, k ensures AcceptedAt(t, i, k, id) <==>
        AcceptedAt(s, i, k, id) || (i == |s.replies| && 0 <= k < |r.ids| && r.ids[k] == id) {
        AcceptedBefore(s, t, r, i, k, id);
      }
      if id in r.ids {
        var k :| 0 <= k < |r.ids| && r.ids[k] == id;
        assert AcceptedAt(t, |s.replies|, k, id);
      }
      if AcceptedId(s, id) {
        var i, k :| AcceptedAt(s, i, k, id);
        assert AcceptedAt(t, i, k, id);
      }
    }
  }

  lemma NewlyOutbound(s: State, t: State, q: Request, ids: seq<Id>)
    requires q.Missed? && |ids| == |q.topics| && FreshIds(s, ids) && t.tombs == s.tombs
    requires t.cells == s.cells + NewCells(q, ids, s.now)
    ensures forall id :: IsOutbound(t, id) <==> IsOutbound(s, id) || id in ids
  {
    var added := NewCells(q, ids, s.now);
    NewCellsAre(q, ids, s.now);
    AddedCells(s.cells, added, t.cells, ids);
    forall id ensures IsOutbound(t, id) <==> IsOutbound(s, id) || id in ids {
      if id in ids {
        var k :| 0 <= k < |ids| && ids[k] == id;
        assert t.cells[ids[k]].row == NewOutbound(q.service, q.key, q.topics[k], s.now);
      }
    }
  }

  lemma InsertBalanced(s: State, rid: Rid, ids: seq<Id>, clash: Option<Id>)
    requires Balanced(s)
    ensures Balanced(InsertStep(s, rid, ids, clash)) && s.replies <= InsertStep(s, rid, ids, clash).replies
  {
    var t := InsertStep(s, rid, ids, clash);
    InsertRefused(s, rid, ids, clash);
    if t.cells == s.cells && NothingAccepted(s, t) {
      BalanceKept(s, t);
    } else {
      var q := s.requests[rid];
      var r := Reply(q.service, q.key, ids, Accepted);
      NewlyAccepted(s, t, r);
      NewlyOutbound(s, t, q, ids);
      forall i, k, j, l, id | AcceptedAt(t, i, k, id) && AcceptedAt(t, j, l, id) ensures i == j && k == l {
        AcceptedBefore(s, t, r, i, k, id);
        AcceptedBefore(s, t, r, j, l, id);
        NewIdIsNew(s, ids, i, k, id);
        NewIdIsNew(s, ids, j, l, id);
      }
    }
  }

  lemma NewIdIsNew(s: State, ids: seq<Id>, i: int, k: int, id: Id)
    requires Balanced(s) && FreshIds(s, ids)
    ensures AcceptedAt(s, i, k, id) ==> id !in ids
  {
    assert AcceptedAt(s, i, k, id) ==> AcceptedId(s, id);
  }

  lemma StepBalanced(c: Config, s: State, e: Event)
    requires Inv(c, s) && Balanced(s)
    ensures Balanced(Step(c, s, e)) && s.replies <= Step(c, s, e).replies
  {
    if e.SubmitInsert? {
      InsertBalanced(s, e.rid, e.ids, e.clash);
    } else {
      OthersAcceptNothing(c, s, e);
      forall id ensures IsOutbound(Step(c, s, e), id) <==> IsOutbound(s, id) { OthersAddNothing(c, s, e, id); }
      BalanceKept(s, Step(c, s, e));
    }
  }

  lemma {:induction false} RunBalanced(c: Config, s: State, es: seq<Event>)
    requires Inv(c, s) && Balanced(s)
    ensures Balanced(Run(c, s, es)) && s.replies <= Run(c, s, es).replies
    decreases |es|
  {
    if es != [] {
      StepBalanced(c, s, es[0]);
      StepKeeps(c, s, es[0]);
      RunBalanced(c, Step(c, s, es[0]), es[1..]);
    }
  }

  lemma ReachableBalanced(c: Config, s: State)
    requires Reachable(c, s)
    ensures Balanced(s)
  {
    var start, es :| s == Run(c, Init(start), es);
    InitInv(c, start);
    RunBalanced(c, Init(start), es);
  }

  /** Nothing accepted is lost and nothing else appears: in every reachable state the ids ever accepted, each in one
      place of one reply, are exactly the outbound messages in the table together with, disjointly, those deleted by
      retention; whatever was deleted was terminal and past retention at that moment. Replies are never taken back. */
  lemma Conservation(c: Config, s: State, es: seq<Event>)
    requires Reachable(c, s)
    ensures var t := Run(c, s, es);
      && (forall id :: AcceptedId(t, id) <==> IsOutbound(t, id))
      && (forall i, k, j, l, id :: AcceptedAt(t, i, k, id) && AcceptedAt(t, j, l, id) ==> i == j && k == l)
      && t.cells.Keys !! t.tombs.Keys
      && (forall id | id in t.tombs ::
            Terminal(t.tombs[id].cell.row.status) && t.tombs[id].cell.row.created < t.tombs[id].at - c.retention)
      && s.replies <= t.replies
  {
    ReachableInv(c, s);
    ReachableBalanced(c, s);
    RunBalanced(c, s, es);
    RunKeeps(c, s, es);
  }
}
