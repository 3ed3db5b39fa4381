/** Which SENT messages can still become terminal, and so be deleted, and which stay SENT for ever. */
module QueueSettle {
  import opened Prelude
  import opened Messages
  import opened Queue
  import opened QueueInvariant
  import opened QueueSafety

  /** SENT, in nobody's memory, and no longer followed by the status loop: it has no provider id or was sent over a day
      ago. */
  ghost predicate Dormant(s: State, id: Id) {
    && id in s.cells && s.cells[id].row.status.Sent? && Unread(s, id) && !Polled(s.cells[id].row, s.now)
  }

  lemma DormantStep(c: Config, s: State, e: Event, id: Id)
    requires Inv(c, s) && Dormant(s, id) && !(e.ReceiptRead? && e.target == id)
    ensures var t := Step(c, s, e); Dormant(t, id) && t.cells[id] == s.cells[id]
  {
    if SendLoopEvent(e) || e.Crash? {
      SendLoopLeavesOthers(c, s, e, id);
    } else {
      EnvLeavesUnread(c, s, e, id);
    }
    StepAdvances(c, s, e);
  }

  /** A message whose day has passed without a report stays SENT, and in the table, unless a receipt for it is looked
      up. */
  lemma {:induction false} DormantStaysSent(c: Config, s: State, es: seq<Event>, id: Id)
    requires Inv(c, s) && Dormant(s, id)
    requires forall i | 0 <= i < |es| :: !(es[i].ReceiptRead? && es[i].target == id)
    ensures Dormant(Run(c, s, es), id) && Run(c, s, es).cells[id] == s.cells[id]
    decreases |es|
  {
    if es != [] {
      DormantStep(c, s, es[0], id);
      StepKeeps(c, s, es[0]);
      DormantStaysSent(c, Step(c, s, es[0]), es[1..], id);
    }
  }

  // ---------- beyond the reach of receipts ----------

  /** Two dormant rows with one provider id (or one row whose id is missing or empty): no receipt finds either. */
  ghost predicate Stranded(s: State, id: Id, twin: Id) {
    && Dormant(s, id) && Dormant(s, twin) && s.cells[id].row.pid == s.cells[twin].row.pid
    && (id == twin ==> s.cells[id].row.pid.GetOr("") == "")
  }

  lemma StrandedStep(c: Config, s: State, e: Event, id: Id, twin: Id)
    requires Inv(c, s) && Stranded(s, id, twin)
    ensures var t := Step(c, s, e);
      Stranded(t, id, twin) && t.cells[id] == s.cells[id] && t.cells[twin] == s.cells[twin]
  {
    if e.ReceiptRead? && (e.target == id || e.target == twin) {
      assert !OnlyWithPid(s, e.receiptFor, e.target);
      assert Step(c, s, e) == s;
    } else {
      DormantStep(c, s, e, id);
      DormantStep(c, s, e, twin);
    }
  }

  lemma {:induction false} StrandedForever(c: Config, s: State, es: seq<Event>, id: Id, twin: Id)
    requires Inv(c, s) && Stranded(s, id, twin)
    ensures id in Run(c, s, es).cells && Run(c, s, es).cells[id] == s.cells[id]
    decreases |es|
  {
    if es != [] {
      StrandedStep(c, s, es[0], id, twin);
      StepKeeps(c, s, es[0]);
      StrandedForever(c, Step(c, s, es[0]), es[1..], id, twin);
    }
  }

  // ---------- exactly which rows can settle ----------

  ghost predicate CanSettle(c: Config, s: State, id: Id) {
    exists es: seq<Event> :: id in Run(c, s, es).cells && Terminal(Run(c, s, es).cells[id].row.status)
  }

  lemma SettledNow(c: Config, s: State, id: Id)
    requires id in s.cells && Terminal(s.cells[id].row.status)
    ensures CanSettle(c, s, id)
  {
    assert Run(c, s, []) == s;
  }

  lemma SettlesAfter(c: Config, s: State, e: Event, id: Id)
    requires CanSettle(c, Step(c, s, e), id)
    ensures CanSettle(c, s, id)
  {
    var t := Step(c, s, e);
    var es :| id in Run(c, t, es).cells && Terminal(Run(c, t, es).cells[id].row.status);
    assert ([e] + es)[0] == e && ([e] + es)[1..] == es;
    assert Run(c, s, [e] + es) == Run(c, t, es);
  }

  /** The status loop still follows the row, or a receipt can find it: it has a non-empty id, and every other row with
      that id is terminal or still followed. */
  ghost predicate Settleable(s: State, id: Id)
    requires id in s.cells
  {
    var r := s.cells[id].row;
    || Polled(r, s.now)
    || (r.pid.GetOr("") != "" && forall j | j in s.cells && j != id && s.cells[j].row.pid == r.pid ::
          Terminal(s.cells[j].row.status) || Polled(s.cells[j].row, s.now))
  }

  /** The SENT rows with the given id that the status loop follows, other than `id`. */
  ghost function Rivals(s: State, id: Id): set<Id>
    requires id in s.cells
  {
    set j | j in s.cells && j != id && s.cells[j].row.pid == s.cells[id].row.pid && Polled(s.cells[j].row, s.now)
  }

  function AllDelivered(ids: set<Id>): (m: map<Id, Status>)
    ensures m.Keys == ids && forall j | j in m :: m[j] == Delivered
  {
    map j | j in ids :: Delivered
  }

  /** What a whole poll does that reports DELIVERED for `ids`. */
  lemma PollDelivers(c: Config, s: State, ids: set<Id>)
    requires forall j | j in ids :: j in s.cells && Polled(s.cells[j].row, s.now)
    ensures var t := Step(c, Step(c, Step(c, s, PollFault), PollRead), PollCommit(AllDelivered(ids)));
      && t.cells.Keys == s.cells.Keys && t.now == s.now && t.receipts == s.receipts
      && forall j | j in s.cells :: t.cells[j] == if j in ids then Overwrite(s.cells[j], Delivered, s.now)
        else s.cells[j]
  {
    var s2 := Step(c, Step(c, s, PollFault), PollRead);
    assert s2.cells == s.cells && s2.now == s.now && s2.receipts == s.receipts && s2.poll.Some?;
    assert forall j | j in ids :: j in s2.poll.value;
    PollCommitDelivers(c, s2, ids);
  }

  lemma PollCommitDelivers(c: Config, s: State, ids: set<Id>)
    requires s.poll.Some? && ids <= s.poll.value && ids <= s.cells.Keys
    ensures var t := Step(c, s, PollCommit(AllDelivered(ids)));
      && t.cells.Keys == s.cells.Keys && t.now == s.now && t.receipts == s.receipts
      && forall j | j in s.cells :: t.cells[j] == if j in ids then Overwrite(s.cells[j], Delivered, s.now)
        else s.cells[j]
  {
    assert Legal(s, AllDelivered(ids));
  }

  lemma SettlesAfterPoll(c: Config, s: State, ids: set<Id>, id: Id)
    requires CanSettle(c, Step(c, Step(c, Step(c, s, PollFault), PollRead), PollCommit(AllDelivered(ids))), id)
    ensures CanSettle(c, s, id)
  {
    SettlesAfter(c, Step(c, Step(c, s, PollFault), PollRead), PollCommit(AllDelivered(ids)), id);
    SettlesAfter(c, Step(c, s, PollFault), PollRead, id);
    SettlesAfter(c, s, PollFault, id);
  }

  lemma FollowedSettles(c: Config, s: State, id: Id)
    requires id in s.cells && Polled(s.cells[id].row, s.now)
    ensures CanSettle(c, s, id)
  {
    PollDelivers(c, s, {id});
    SettledNow(c, Step(c, Step(c, Step(c, s, PollFault), PollRead), PollCommit(AllDelivered({id}))), id);
    SettlesAfterPoll(c, s, {id}, id);
  }

  lemma ReceiptSettles(c: Config, s: State, rid: Rid, id: Id, pid: string)
    requires rid !in s.receipts && OnlyWithPid(s, pid, id) && s.cells[id].row.status.Sent?
    ensures CanSettle(c, s, id)
  {
    var s1 := Step(c, s, ReceiptRead(rid, pid, id));
    assert s1 == s.(receipts := s.receipts[rid := Loaded(id, Sent)]);
    SettledNow(c, Step(c, s1, ReceiptCommit(rid)), id);
    SettlesAfter(c, s1, ReceiptCommit(rid), id);
    SettlesAfter(c, s, ReceiptRead(rid, pid, id), id);
  }

  lemma {:induction false} NewestOf(cells: map<Id, Cell>) returns (bound: int)
    ensures forall j | j in cells :: cells[j].row.created <= bound
    decreases |cells|
  {
    bound := 0;
    if j: Id :| j in cells {
      assert |(cells - {j}).Keys| == |cells.Keys - {j}| < |cells.Keys|;
      var rest := NewestOf(cells - {j});
      assert forall k | k in cells && k != j :: k in cells - {j} && (cells - {j})[k] == cells[k];
      bound := Max(rest, cells[j].row.created);
    }
  }

  /** Once every other row with the id is terminal, retention deletes them in time, and a receipt finds the one left. */
  lemma AloneAfterRetention(c: Config, s: State, rid: Rid, id: Id, pid: string)
    requires rid !in s.receipts && pid != "" && id in s.cells && s.cells[id].row.status.Sent?
      && s.cells[id].row.pid == Some(pid)
    requires forall j | j in s.cells && j != id && s.cells[j].row.pid == Some(pid) :: Terminal(s.cells[j].row.status)
    ensures CanSettle(c, s, id)
  {
    var newest := NewestOf(s.cells);
    var d: nat := Max(0, newest + c.retention + 1 - s.now);
    var s1 := Step(c, s, Tick(d));
    var s2 := Step(c, s1, Prune);
    assert forall j | j in s2.cells :: j in s.cells && s2.cells[j] == s.cells[j] && !Expired(c, s.cells[j].row, s1.now);
    assert id in s2.cells && OnlyWithPid(s2, pid, id);
    ReceiptSettles(c, s2, rid, id, pid);
    SettlesAfter(c, s1, Prune, id);
    SettlesAfter(c, s, Tick(d), id);
  }

  lemma ReachableByReceipt(c: Config, s: State, rid: Rid, id: Id)
    requires rid !in s.receipts && id in s.cells && s.cells[id].row.status.Sent? && Settleable(s, id)
      && !Polled(s.cells[id].row, s.now)
    ensures CanSettle(c, s, id)
  {
    var rivals := Rivals(s, id);
    PollDelivers(c, s, rivals);
    AloneAfterRetention(c, Step(c, Step(c, Step(c, s, PollFault), PollRead), PollCommit(AllDelivered(rivals))), rid, id,
                        s.cells[id].row.pid.value);
    SettlesAfterPoll(c, s, rivals, id);
  }

  /** The row, and any other that has its provider id, is in nobody's memory. */
  ghost predicate UnreadAlike(s: State, id: Id)
    requires id in s.cells
  {
    forall j | j in s.cells && (j == id || (s.cells[id].row.pid.Some? && s.cells[j].row.pid == s.cells[id].row.pid)) ::
      Unread(s, j)
  }

  /** A SENT row can still become terminal exactly when the status loop follows it, or it has a non-empty provider id
      and every other row with that id is terminal or followed. Otherwise it stays SENT over every run and is never
      deleted. */
  lemma SentSettlesIff(c: Config, s: State, rid: Rid, id: Id)
    requires Reachable(c, s) && id in s.cells && s.cells[id].row.status.Sent? && UnreadAlike(s, id)
      && rid !in s.receipts
    ensures CanSettle(c, s, id) <==> Settleable(s, id)
    ensures !Settleable(s, id) ==> forall es: seq<Event> ::
      id in Run(c, s, es).cells && Run(c, s, es).cells[id] == s.cells[id]
  {
    ReachableInv(c, s);
    if !Settleable(s, id) {
      var twin := TwinOf(c, s, id);
      forall es: seq<Event> ensures id in Run(c, s, es).cells && Run(c, s, es).cells[id] == s.cells[id] {
        StrandedForever(c, s, es, id, twin);
      }
    } else if Polled(s.cells[id].row, s.now) {
      FollowedSettles(c, s, id);
    } else {
      ReachableByReceipt(c, s, rid, id);
    }
  }

  lemma TwinOf(c: Config, s: State, id: Id) returns (twin: Id)
    requires CellsInv(c, s) && id in s.cells && s.cells[id].row.status.Sent? && UnreadAlike(s, id) && !Settleable(s, id)
    ensures Stranded(s, id, twin)
  {
    twin := id;
    if s.cells[id].row.pid.GetOr("") != "" {
      twin :| twin in s.cells && twin != id && s.cells[twin].row.pid == s.cells[id].row.pid
        && !Terminal(s.cells[twin].row.status) && !Polled(s.cells[twin].row, s.now);
      assert CellInv(c, s.now, s.cells[twin], StageOf(s.hand, twin));
    }
  }
}
