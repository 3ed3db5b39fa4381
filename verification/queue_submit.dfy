/** Idempotent submission: what concurrent `send_message` requests with the same service and key are told. */
module QueueSubmit {
  import opened Prelude
  import opened Messages
  import opened Queue
  import opened QueueInvariant
  import opened QueueSafety

  predicate Successful(r: Reply) { r.outcome.Accepted? || r.outcome.Replayed? }

  /** In every reachable state, whatever raced: all successful replies for one service and non-empty key name the same
      single message, and exactly one row carries that key, unless retention has deleted a row with that key. */
  lemma IdempotentUnderRaces(c: Config, s: State, i: nat, j: nat)
    requires Reachable(c, s) && i < |s.replies| && j < |s.replies|
    requires Successful(s.replies[i]) && Successful(s.replies[j]) && Truthy(s.replies[i].key)
    requires s.replies[i].service == s.replies[j].service && s.replies[i].key == s.replies[j].key
    ensures Buried(s, s.replies[i].service, s.replies[i].key)
      || (|s.replies[i].ids| == 1 && s.replies[i].ids == s.replies[j].ids && s.replies[i].ids[0] in s.cells
          && forall id | id in s.cells :: SameKey(s.cells[id].row, s.replies[i].service, s.replies[i].key) <==>
            id == s.replies[i].ids[0])
  {
    ReachableInv(c, s);
    var r, q := s.replies[i], s.replies[j];
    assert ReplyInv(s, r) && ReplyInv(s, q);
    if !Buried(s, r.service, r.key) {
      var x, y := r.ids[0], q.ids[0];
      assert Known(s, x, r.service, r.key) && Known(s, y, q.service, q.key);
      NotBuried(s, x, r.service, r.key);
      NotBuried(s, y, r.service, r.key);
      assert x == y;
    }
  }

  lemma NotBuried(s: State, id: Id, service: string, key: Option<string>)
    requires Known(s, id, service, key) && key.Some? && !Buried(s, service, key)
    ensures id in s.cells && SameKey(s.cells[id].row, service, key)
  {
    assert id in s.tombs ==> !SameKey(s.tombs[id].cell.row, service, key);
  }

  /** In every reachable state, a request with a non-empty key has failed with an internal error only if retention has
      by now deleted a row with that key. */
  lemma KeyedRequestFailsOnlyAfterPrune(c: Config, s: State, i: nat)
    requires Reachable(c, s) && i < |s.replies| && s.replies[i].outcome.Crashed500? && Truthy(s.replies[i].key)
    ensures Buried(s, s.replies[i].service, s.replies[i].key)
  {
    ReachableInv(c, s);
    assert ReplyInv(s, s.replies[i]);
  }

  lemma NewCellsAre(q: Request, ids: seq<Id>, now: int)
    requires q.Missed? && |ids| == |q.topics| && Distinct(ids)
    ensures NewCells(q, ids, now).Keys == (set id | id in ids)
    ensures forall i | 0 <= i < |ids| ::
      NewCells(q, ids, now)[ids[i]].row == NewOutbound(q.service, q.key, q.topics[i], now)
  {
    var added := NewCells(q, ids, now);
    forall i | 0 <= i < |ids|
      ensures ids[i] in added && added[ids[i]].row == NewOutbound(q.service, q.key, q.topics[i], now) {}
    forall id | id in ids ensures id in added.Keys {}
  }

  /** What one recipient's new row looks like: QUEUED, due at once, on ntfy exactly when it has a topic. */
  predicate FreshRow(r: Row, q: Request, topic: Option<string>, now: int)
    requires q.Missed?
  {
    && r.status == Queued && r.direction == Outbound && r.attempts == 0 && r.pid == None && Due(r, now)
    && r.service == q.service && r.key == q.key && r.topic == topic
    && (r.transport == Ntfy <==> topic.Some?) && (r.transport == Sms <==> topic.None?)
  }

  /** The insert is atomic: every recipient gets its own new row or the table does not change at all. */
  lemma AllRecipientsOrNone(s: State, rid: Rid, ids: seq<Id>, clash: Option<Id>)
    ensures var t := InsertStep(s, rid, ids, clash);
      || t.cells == s.cells
      || (rid in s.requests && s.requests[rid].Missed? && |ids| == |s.requests[rid].topics| && FreshIds(s, ids)
          && t.cells.Keys == s.cells.Keys + (set id | id in ids)
          && (forall id | id in s.cells :: t.cells[id] == s.cells[id])
          && forall i | 0 <= i < |ids| ::
              ids[i] in t.cells && FreshRow(t.cells[ids[i]].row, s.requests[rid], s.requests[rid].topics[i], s.now))
  {
    var t := InsertStep(s, rid, ids, clash);
    InsertedOrNot(s, rid, ids, clash);
    if t.cells != s.cells {
      NewCellsAre(s.requests[rid], ids, s.now);
      AddedCells(s.cells, NewCells(s.requests[rid], ids, s.now), t.cells, ids);
    }
  }

  /** Whatever happens afterwards, all recipients of an accepted request keep their row, each with its own topic, or
      had it deleted as terminal; no part of the request is ever lost. */
  lemma AllRecipientsKept(c: Config, s: State, rid: Rid, ids: seq<Id>, clash: Option<Id>, es: seq<Event>)
    requires Reachable(c, s) && InsertStep(s, rid, ids, clash).cells != s.cells
    ensures rid in s.requests && s.requests[rid].Missed? && |ids| == |s.requests[rid].topics| && Distinct(ids)
    ensures var q, u := s.requests[rid], Run(c, Step(c, s, SubmitInsert(rid, ids, clash)), es);
      forall i | 0 <= i < |ids| :: KeptFor(u, ids[i], q, i)
  {
    var e, q := SubmitInsert(rid, ids, clash), s.requests[rid];
    AllRecipientsOrNone(s, rid, ids, clash);
    ReachableInv(c, s);
    StepKeeps(c, s, e);
    var t := Step(c, s, e);
    RunAdvances(c, t, es);
    RunKeeps(c, t, es);
    forall i | 0 <= i < |ids| ensures KeptFor(Run(c, t, es), ids[i], q, i) {
      assert For(t.cells[ids[i]].row, q, i);
      KeptAfter(c, t, Run(c, t, es), ids[i], q, i);
    }
  }

  lemma KeptAfter(c: Config, t: State, u: State, id: Id, q: Request, i: nat)
    requires q.Missed? && i < |q.topics| && Advances(t, u) && TombsInv(c, u) && id in t.cells
      && For(t.cells[id].row, q, i)
    ensures KeptFor(u, id, q, i)
  {
  }

  /** The row of one recipient is there, or was deleted as terminal. */
  ghost predicate KeptFor(u: State, id: Id, q: Request, i: nat)
    requires q.Missed? && i < |q.topics|
  {
    || (id in u.cells && For(u.cells[id].row, q, i))
    || (id in u.tombs && For(u.tombs[id].cell.row, q, i) && Terminal(u.tombs[id].cell.row.status))
  }

  predicate For(r: Row, q: Request, i: nat)
    requires q.Missed? && i < |q.topics|
  {
    r.service == q.service && r.key == q.key && r.topic == q.topics[i]
  }

  lemma InsertedOrNot(s: State, rid: Rid, ids: seq<Id>, clash: Option<Id>)
    ensures var t := InsertStep(s, rid, ids, clash);
      || t.cells == s.cells
      || (rid in s.requests && s.requests[rid].Missed? && |ids| == |s.requests[rid].topics| && FreshIds(s, ids)
          && t.cells == s.cells + NewCells(s.requests[rid], ids, s.now))
  {
  }

  lemma AddedCells(cells: map<Id, Cell>, added: map<Id, Cell>, all: map<Id, Cell>, ids: seq<Id>)
    requires all == cells + added && added.Keys == (set id | id in ids) && forall i | 0 <= i < |ids| :: ids[i] !in cells
    ensures all.Keys == cells.Keys + (set id | id in ids)
    ensures forall id | id in cells :: all[id] == cells[id]
    ensures forall i | 0 <= i < |ids| :: ids[i] in all && all[ids[i]] == added[ids[i]]
  {
    forall i | 0 <= i < |ids| ensures ids[i] in added { assert ids[i] in (set id | id in ids); }
    forall id | id in cells ensures id !in added { assert id !in ids; }
  }

  /** The reply a request gets when nothing runs between its lookup and its insert, as a function of the request and of
      whether its key is already in the table. An empty-string key skips the lookup but is stored, so it fails as soon
      as it repeats, within one request or across two. */
  function AloneOutcome(key: Option<string>, recipients: nat, taken: bool): Outcome {
    var keyed := key.Some? && key.value != "";
    if recipients == 0 || (keyed && recipients > 1) then Refused
    else if keyed && taken then Replayed
    else if key == Some("") && (recipients > 1 || taken) then Crashed500
    else Accepted
  }

  /** `holder` is a row of the same service with this key, none only if there is none. */
  ghost predicate KeyHolder(s: State, service: string, key: Option<string>, holder: Option<Id>) {
    match holder
    case Some(id) =>
      id in s.cells && key.Some? && s.cells[id].row.service == service && s.cells[id].row.key == key
    case None =>
      key.Some? ==> forall id | id in s.cells :: s.cells[id].row.service != service || s.cells[id].row.key != key
  }

  /** `t` is `s` after one request has been answered: exactly one reply more, and new rows exactly when it accepts. */
  ghost predicate AnsweredWith(s: State, t: State, service: string, key: Option<string>, outcome: Outcome,
                               holder: Option<Id>, ids: seq<Id>) {
    && t.replies == s.replies + [Reply(service, key, NamedIds(outcome, holder, ids), outcome)]
    && t.requests.Keys == s.requests.Keys
    && (if outcome.Accepted? then t.cells.Keys == s.cells.Keys + (set id | id in ids) else t.cells == s.cells)
  }

  /** The new rows, the row that was there already, or none. */
  function NamedIds(outcome: Outcome, holder: Option<Id>, ids: seq<Id>): seq<Id> {
    match outcome
    case Accepted => ids
    case Replayed => [holder.GetOr(0)]
    case _ => []
  }

  lemma SubmitAlone(c: Config, s: State, rid: Rid, service: string, key: Option<string>, topics: seq<Option<string>>,
                    holder: Option<Id>, ids: seq<Id>)
    requires rid !in s.requests && KeyHolder(s, service, key, holder) && |ids| == |topics| && FreshIds(s, ids)
    ensures var t := Step(c, Step(c, s, SubmitLookup(rid, service, key, topics, holder)),
                          SubmitInsert(rid, ids, holder));
      AnsweredWith(s, t, service, key, AloneOutcome(key, |topics|, holder.Some?), holder, ids)
  {
    assert Answers(s, service, key, holder);
    if topics == [] || (Truthy(key) && (|topics| > 1 || holder.Some?)) {
      AloneAtLookup(s, rid, service, key, topics, holder, ids);
    } else {
      AloneAtInsert(s, rid, service, key, topics, holder, ids);
    }
  }

  lemma AloneAtLookup(s: State, rid: Rid, service: string, key: Option<string>, topics: seq<Option<string>>,
                      holder: Option<Id>, ids: seq<Id>)
    requires rid !in s.requests && Answers(s, service, key, holder)
    requires topics == [] || (Truthy(key) && (|topics| > 1 || holder.Some?))
    ensures var t := InsertStep(LookupStep(s, rid, service, key, topics, holder), rid, ids, holder);
      AnsweredWith(s, t, service, key, AloneOutcome(key, |topics|, holder.Some?), holder, ids)
  {
    RepliesAtLookup(s, rid, service, key, topics, holder);
  }

  lemma AloneAtInsert(s: State, rid: Rid, service: string, key: Option<string>, topics: seq<Option<string>>,
                      holder: Option<Id>, ids: seq<Id>)
    requires rid !in s.requests && Answers(s, service, key, holder) && |ids| == |topics| && FreshIds(s, ids)
    requires topics != [] && !(Truthy(key) && (|topics| > 1 || holder.Some?))
    ensures var t := InsertStep(LookupStep(s, rid, service, key, topics, holder), rid, ids, holder);
      AnsweredWith(s, t, service, key, AloneOutcome(key, |topics|, holder.Some?), holder, ids)
  {
    WaitsAfterLookup(s, rid, service, key, topics, holder);
    InsertAlone(LookupStep(s, rid, service, key, topics, holder), rid, ids, holder);
    assert (s.requests.Keys + {rid}) - {rid} == s.requests.Keys;
  }

  lemma WaitsAfterLookup(s: State, rid: Rid, service: string, key: Option<string>, topics: seq<Option<string>>,
                         holder: Option<Id>)
    requires rid !in s.requests && Answers(s, service, key, holder)
    requires topics != [] && !(Truthy(key) && (|topics| > 1 || holder.Some?))
    ensures LookupStep(s, rid, service, key, topics, holder)
      == s.(requests := s.requests[rid := Missed(service, key, topics)])
  {
  }

  lemma RepliesAtLookup(s: State, rid: Rid, service: string, key: Option<string>, topics: seq<Option<string>>,
                        holder: Option<Id>)
    requires rid !in s.requests && Answers(s, service, key, holder)
    requires topics == [] || (Truthy(key) && (|topics| > 1 || holder.Some?))
    ensures LookupStep(s, rid, service, key, topics, holder) == s.(replies := s.replies +
      [if AloneOutcome(key, |topics|, holder.Some?) == Refused then Reply(service, key, [], Refused)
       else Reply(service, key, [holder.value], Replayed)])
  {
  }

  lemma InsertAlone(s: State, rid: Rid, ids: seq<Id>, holder: Option<Id>)
    requires rid in s.requests && s.requests[rid].Missed? && |ids| == |s.requests[rid].topics| && FreshIds(s, ids)
    requires Answers(s, s.requests[rid].service, s.requests[rid].key, holder)
    requires |ids| > 0 && (Truthy(s.requests[rid].key) ==> |ids| == 1 && holder.None?)
    ensures var q := s.requests[rid];
      var t := InsertStep(s, rid, ids, holder);
      var outcome := AloneOutcome(q.key, |ids|, holder.Some?);
      && t.replies == s.replies + [Reply(q.service, q.key, if outcome.Accepted? then ids else [], outcome)]
      && t.requests == s.requests - {rid}
      && (if outcome.Accepted? then t.cells.Keys == s.cells.Keys + (set id | id in ids) else t.cells == s.cells)
      && !outcome.Replayed?
  {
    NewCellsAre(s.requests[rid], ids, s.now);
  }

  /** The loser of a race is told the winner's id: from a request whose lookup missed, once a row with its key is in the
      table, its insert fails, and whatever runs before its second lookup except prune and crash, the lookup finds that
      row. */
  lemma RaceLoserGetsWinner(c: Config, s: State, rid: Rid, ids: seq<Id>, winner: Id, between: seq<Event>)
    requires Reachable(c, s) && rid in s.requests && s.requests[rid].Missed? && Truthy(s.requests[rid].key)
    requires winner in s.cells && SameKey(s.cells[winner].row, s.requests[rid].service, s.requests[rid].key)
    requires |ids| == |s.requests[rid].topics| && FreshIds(s, ids)
    requires forall i | 0 <= i < |between| ::
      !between[i].Prune? && !between[i].Crash? && between[i] != SubmitRecover(rid, Some(winner))
    ensures var u := Run(c, Step(c, s, SubmitInsert(rid, ids, Some(winner))), between);
      var t := Step(c, u, SubmitRecover(rid, Some(winner)));
      t.replies == u.replies + [Reply(s.requests[rid].service, s.requests[rid].key, [winner], Replayed)]
        && t.cells == u.cells
  {
    ReachableInv(c, s);
    var s1 := Step(c, s, SubmitInsert(rid, ids, Some(winner)));
    StepKeeps(c, s, SubmitInsert(rid, ids, Some(winner)));
    InsertLoses(s, rid, ids, winner);
    ConflictWaits(c, s1, rid, winner, between);
    RecoverFinds(c, Run(c, s1, between), rid, winner);
  }

  lemma RecoverFinds(c: Config, s: State, rid: Rid, winner: Id)
    requires rid in s.requests && s.requests[rid].Conflict? && winner in s.cells
    requires SameKey(s.cells[winner].row, s.requests[rid].service, s.requests[rid].key)
    ensures var q := s.requests[rid];
      var t := Step(c, s, SubmitRecover(rid, Some(winner)));
      t.replies == s.replies + [Reply(q.service, q.key, [winner], Replayed)] && t.cells == s.cells
  {
  }

  lemma InsertLoses(s: State, rid: Rid, ids: seq<Id>, winner: Id)
    requires rid in s.requests && s.requests[rid].Missed? && Truthy(s.requests[rid].key)
    requires winner in s.cells && SameKey(s.cells[winner].row, s.requests[rid].service, s.requests[rid].key)
    requires |ids| == |s.requests[rid].topics| && FreshIds(s, ids)
    ensures var q := s.requests[rid];
      InsertStep(s, rid, ids, Some(winner)) == s.(requests := s.requests[rid := Conflict(q.service, q.key, winner)])
  {
  }

  lemma {:induction false} ConflictWaits(c: Config, s: State, rid: Rid, winner: Id, es: seq<Event>)
    requires Inv(c, s) && rid in s.requests && s.requests[rid].Conflict?
    requires winner in s.cells && SameKey(s.cells[winner].row, s.requests[rid].service, s.requests[rid].key)
    requires forall i | 0 <= i < |es| :: !es[i].Prune? && !es[i].Crash? && es[i] != SubmitRecover(rid, Some(winner))
    ensures var t := Run(c, s, es);
      && rid in t.requests && t.requests[rid] == s.requests[rid]
      && winner in t.cells && SameKey(t.cells[winner].row, s.requests[rid].service, s.requests[rid].key)
    decreases |es|
  {
    if es != [] {
      ConflictWaitsStep(c, s, rid, winner, es[0]);
      StepKeeps(c, s, es[0]);
      ConflictWaits(c, Step(c, s, es[0]), rid, winner, es[1..]);
    }
  }

  lemma ConflictWaitsStep(c: Config, s: State, rid: Rid, winner: Id, e: Event)
    requires Inv(c, s) && rid in s.requests && s.requests[rid].Conflict?
    requires winner in s.cells && SameKey(s.cells[winner].row, s.requests[rid].service, s.requests[rid].key)
    requires !e.Prune? && !e.Crash? && e != SubmitRecover(rid, Some(winner))
    ensures var t := Step(c, s, e);
      && rid in t.requests && t.requests[rid] == s.requests[rid]
      && winner in t.cells && SameKey(t.cells[winner].row, s.requests[rid].service, s.requests[rid].key)
  {
    if e.SubmitRecover? && e.rid == rid {
      assert !Answers(s, s.requests[rid].service, s.requests[rid].key, e.found);
    } else if e.SubmitInsert? {
      InsertOnlyAdds(s, e.rid, e.ids, e.clash);
    } else if !e.InboundArrive? {
      StepForward(c, s, e);
      RequestsStay(c, s, e, rid);
    }
  }

  lemma RequestsStay(c: Config, s: State, e: Event, rid: Rid)
    requires rid in s.requests && !e.Crash? && !e.SubmitInsert? && !(e.SubmitRecover? && e.rid == rid)
    ensures rid in Step(c, s, e).requests && Step(c, s, e).requests[rid] == s.requests[rid]
  {
  }
}
