/** What each answer makes of a message, in plain numbers: the row that the send loop's commit leaves in the table. */
module QueueOutcomes {
  import opened Prelude
  import opened Messages
  import opened Queue
  import opened QueueInvariant
  import opened QueueSafety

  /** The send loop waits for an answer on behalf of message `id`. */
  ghost predicate CallOut(c: Config, s: State, id: Id, stage: Stage) {
    Reachable(c, s) && s.hand.Holding? && s.hand.id == id && s.hand.stage == stage && id in s.cells
  }

  /** The answer `e` arrives, other tasks run, and the loop commits. */
  function Settle(c: Config, s: State, e: Event, during: seq<Event>): State {
    Step(c, Run(c, Step(c, s, e), during), Commit)
  }

  /** Whatever the other tasks do before the commit, it leaves the loop's copy. */
  lemma CommitsCopy(c: Config, s: State, id: Id, e: Event, during: seq<Event>)
    requires Reachable(c, s) && s.hand.Holding? && s.hand.id == id && id in s.cells
    requires forall i | 0 <= i < |during| :: EnvEvent(during[i])
    requires var h := Step(c, s, e).hand; h.Holding? && h.id == id && Dirty(h.stage)
    ensures var h, t := Step(c, s, e).hand, Settle(c, s, e, during);
      && id in t.cells && t.cells[id].row == h.copy.(updated := t.now) && s.now <= t.now
      && (if h.stage.FallbackChosen? then t.hand.Holding? && t.hand.id == id && t.hand.stage == Held else t.hand == Top)
  {
    ReachableInv(c, s);
    StepKeeps(c, s, e);
    StepAdvances(c, s, e);
    HeldDuring(c, Step(c, s, e), during);
    CommitLeavesCopy(c, Run(c, Step(c, s, e), during));
  }

  lemma HeldDuring(c: Config, s: State, during: seq<Event>)
    requires Inv(c, s) && s.hand.Holding? && forall i | 0 <= i < |during| :: EnvEvent(during[i])
    ensures var u := Run(c, s, during); Inv(c, u) && u.hand == s.hand && s.now <= u.now
  {
    assert CellInv(c, s.now, s.cells[s.hand.id], s.hand.stage);
    OnlySendLoopTouchesPending(c, s, during, s.hand.id);
    EnvRunMovesTime(c, s, during);
  }

  lemma CommitLeavesCopy(c: Config, s: State)
    requires Inv(c, s) && s.hand.Holding? && Dirty(s.hand.stage)
    ensures var h, t := s.hand, Step(c, s, Commit);
      && h.id in t.cells && t.cells[h.id].row == h.copy.(updated := t.now) && t.now == s.now
      && (if h.stage.FallbackChosen? then t.hand.Holding? && t.hand.id == h.id
        && t.hand.stage == Held else t.hand == Top)
  {
    CommittedCellKeeps(c, s);
  }

  /** The row after an error, `n` being the attempts before: given up exactly when the error is permanent or that was
      the last attempt allowed; otherwise waiting again for 30 seconds doubled with each attempt, at most 900. */
  predicate AfterError(c: Config, before: Row, after: Row, permanent: bool, at: int) {
    var n := before.attempts;
    && after.attempts == n + 1 && after.transport == before.transport && after.pid == before.pid
    && (after.status == Failed <==> permanent || n + 1 >= c.maxAttempts)
    && (after.status != Failed ==> after.status == Queued && after.next == Some(at + Min(30 * Pow2(n), 900)))
  }

  /** Every provider error, transient or permanent, after any number of attempts. */
  lemma ErrorOutcome(c: Config, s: State, id: Id, permanent: bool, during: seq<Event>)
    requires CallOut(c, s, id, SmsOut) && forall i | 0 <= i < |during| :: EnvEvent(during[i])
    ensures var t := Settle(c, s, SmsError(permanent), during);
      t.hand == Top && id in t.cells && AfterError(c, s.cells[id].row, t.cells[id].row, permanent, s.now)
  {
    ReachableInv(c, s);
    CommitsCopy(c, s, id, SmsError(permanent), during);
  }

  /** The row after the gateway accepted: SENT, and followed by the status loop for one day from the answer, if it has
      an id. */
  ghost predicate AfterAccept(before: Row, after: Row, pid: Option<string>, at: int) {
    && after.attempts == before.attempts + 1 && after.transport == before.transport
    && after.status == Sent && after.pid == pid && after.sentAt == Some(at)
    && forall now :: Polled(after, now) <==> pid.Some? && now < at + 86400
  }

  lemma AcceptOutcome(c: Config, s: State, id: Id, pid: Option<string>, during: seq<Event>)
    requires CallOut(c, s, id, SmsOut) && forall i | 0 <= i < |during| :: EnvEvent(during[i])
    ensures var t := Settle(c, s, SmsOk(pid), during);
      t.hand == Top && id in t.cells && AfterAccept(s.cells[id].row, t.cells[id].row, pid, s.now)
  {
    ReachableInv(c, s);
    CommitsCopy(c, s, id, SmsOk(pid), during);
  }

  /** The row after ntfy answered. */
  predicate AfterPublish(before: Row, after: Row, receipt: string, at: int) {
    && after.attempts == before.attempts && after.transport == before.transport
    && after.status == Published && after.pid == Some("ntfy:" + receipt) && after.sentAt == Some(at)
  }

  lemma PublishOutcome(c: Config, s: State, id: Id, receipt: string, during: seq<Event>)
    requires CallOut(c, s, id, PublishOut) && forall i | 0 <= i < |during| :: EnvEvent(during[i])
    ensures var t := Settle(c, s, PublishOk(receipt), during);
      t.hand == Top && id in t.cells && AfterPublish(s.cells[id].row, t.cells[id].row, receipt, s.now)
  {
    ReachableInv(c, s);
    CommitsCopy(c, s, id, PublishOk(receipt), during);
  }

  /** The row after ntfy failed: still SENDING and in hand, now for SMS, no attempt counted. */
  predicate AfterFallback(before: Row, after: Row) {
    after == before.(transport := SmsFallback, updated := after.updated)
  }

  lemma FallbackOutcome(c: Config, s: State, id: Id, during: seq<Event>)
    requires CallOut(c, s, id, PublishOut) && forall i | 0 <= i < |during| :: EnvEvent(during[i])
    ensures var t := Settle(c, s, PublishFail, during);
      && t.hand.Holding? && t.hand.id == id && t.hand.stage == Held && id in t.cells
      && AfterFallback(s.cells[id].row, t.cells[id].row) && t.cells[id].row.status == Sending
  {
    ReachableInv(c, s);
    CommitsCopy(c, s, id, PublishFail, during);
  }

  // ---------- the other writers ----------

  /** A poll reads exactly the rows that are SENT with an id and less than a day ago, and its commit writes exactly what
      was reported about them. */
  lemma PollOutcome(c: Config, s: State, during: seq<Event>, updates: map<Id, Status>)
    requires s.poll.None? && Run(c, Step(c, s, PollRead), during).poll == Step(c, s, PollRead).poll
    requires forall id | id in updates :: id in s.cells && (updates[id] == Delivered || updates[id] == Failed)
    requires forall id | id in updates ::
      var r := s.cells[id].row; r.status == Sent && r.pid.Some? && r.sentAt.Some? && s.now < r.sentAt.value + 86400
    ensures var u := Run(c, Step(c, s, PollRead), during);
      var t := Step(c, u, PollCommit(updates));
      && t.poll == None && t.cells.Keys == u.cells.Keys
      && (if updates.Keys <= u.cells.Keys then
            forall id | id in u.cells :: t.cells[id] ==
              if id in updates then u.cells[id].(row := u.cells[id].row.(status := updates[id], updated := u.now))
              else u.cells[id]
          else t.cells == u.cells)
  {
    var u := Run(c, Step(c, s, PollRead), during);
    assert forall id | id in updates :: id in u.poll.value;
    assert Legal(u, updates);
  }

  /** A delivery receipt makes the row it loaded DELIVERED, whatever it has become since, unless it was DELIVERED
      already or has been deleted; no other row changes. */
  lemma ReceiptOutcome(c: Config, s: State, rid: Rid, id: Id)
    requires rid in s.receipts && id in s.cells
    ensures var t, x := Step(c, s, ReceiptCommit(rid)), s.cells[id];
      id in t.cells && t.cells[id] ==
        if s.receipts[rid].id == id && s.receipts[rid].status != Delivered then
          x.(row := x.row.(status := Delivered, updated := s.now))
        else x
  {
  }

  /** An inbound message is stored as received, under its provider id; no other row changes. */
  lemma InboundOutcome(c: Config, s: State, id: Id, pid: Option<string>, created: int)
    requires id !in s.cells && id !in s.tombs
    ensures var t := Step(c, s, InboundArrive(id, pid, created));
      && t.cells.Keys == s.cells.Keys + {id} && (forall j | j in s.cells :: t.cells[j] == s.cells[j])
      && var r := t.cells[id].row;
        r.direction == Inbound && r.status == Received && r.pid == pid && r.created == created && r.attempts == 0
  {
  }

  /** Retention deletes exactly the messages that are DELIVERED, FAILED, RECEIVED or PUBLISHED and older than the
      retention period, and keeps what they were. */
  lemma RetentionIsExact(c: Config, s: State, id: Id)
    requires Reachable(c, s) && id in s.cells
    ensures var t, r := Step(c, s, Prune), s.cells[id].row;
      && (id !in t.cells <==> r.status in {Delivered, Failed, Received, Published} && r.created < s.now - c.retention)
      && (id in t.cells ==> t.cells[id] == s.cells[id] && id !in t.tombs)
      && (id !in t.cells ==> id in t.tombs && t.tombs[id] == Tomb(s.cells[id], s.now))
  {
    ReachableInv(c, s);
  }
}
