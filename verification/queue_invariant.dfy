/** The invariant of the queue machine and its preservation by every event, hence by every run with every crash. */
module QueueInvariant {
  import opened Prelude
  import opened Backoff
  import opened Messages
  import opened Queue

  function StageOf(h: Hand, id: Id): Stage {
    if h.Holding? && h.id == id then h.stage else Free
  }

  ghost predicate CellsInv(c: Config, s: State) {
    forall id | id in s.cells :: CellInv(c, s.now, s.cells[id], StageOf(s.hand, id))
  }

  /** Ownership: what the send loop remembers agrees with the committed table at every await. */
  ghost predicate HandInv(c: Config, s: State) {
    match s.hand
    case Top => true
    case Swept => true
    case Requeueing(ids, at) =>
      at <= s.now && ids <= s.cells.Keys
      && forall id | id in ids :: s.cells[id].row.status.Sending? && Rested(s.cells[id].errs, at, SEND_CAP)
    case Claiming(id, at) =>
      at <= s.now && id in s.cells && Due(s.cells[id].row, at)
    case Holding(id, base, copy, stage) =>
      id in s.cells && base == s.cells[id].row && CopyInv(c, s.now, base, copy, stage, s.cells[id].errs)
  }

  /** A row read by the status loop or by a receipt handler has left the queue for good. */
  ghost predicate LeftQueue(s: State, id: Id) {
    (id in s.cells && Phase(s.cells[id].row.status) >= 1) || id in s.tombs
  }

  ghost predicate StaleInv(s: State) {
    && (s.poll.Some? ==> forall id | id in s.poll.value ::
          LeftQueue(s, id) && (id in s.cells ==> s.cells[id].row.direction.Outbound?))
    && (forall rid | rid in s.receipts :: LeftQueue(s, s.receipts[rid].id))
  }

  ghost predicate TombsInv(c: Config, s: State) {
    && s.cells.Keys !! s.tombs.Keys
    && forall id | id in s.tombs ::
        var t := s.tombs[id];
        t.at <= s.now && Expired(c, t.cell.row, t.at) && CellInv(c, t.at, t.cell, Free)
  }

  // ---------- idempotency keys ----------

  ghost predicate UniqueKeys(s: State) {
    forall i, j | i in s.cells && j in s.cells && SameKey(s.cells[i].row, s.cells[j].row.service, s.cells[j].row.key) ::
      i == j
  }

  ghost predicate Known(s: State, id: Id, service: string, key: Option<string>) {
    || (id in s.cells && s.cells[id].row.service == service && s.cells[id].row.key == key)
    || (id in s.tombs && s.tombs[id].cell.row.service == service && s.tombs[id].cell.row.key == key)
  }

  /** A row with this key was deleted by retention. */
  ghost predicate Buried(s: State, service: string, key: Option<string>) {
    exists id :: id in s.tombs && SameKey(s.tombs[id].cell.row, service, key)
  }

  ghost predicate ReplyInv(s: State, r: Reply) {
    && (forall i | 0 <= i < |r.ids| :: Known(s, r.ids[i], r.service, r.key))
    && (r.outcome.Accepted? || r.outcome.Replayed? ==> |r.ids| > 0 && (Truthy(r.key) ==> |r.ids| == 1))
    && (r.outcome.Refused? || r.outcome.Crashed500? ==> r.ids == [])
    && (r.outcome.Crashed500? && Truthy(r.key) ==> Buried(s, r.service, r.key))
  }

  ghost predicate RequestInv(s: State, q: Request) {
    match q
    case Missed(service, key, topics) => |topics| > 0 && (Truthy(key) ==> |topics| == 1)
    case Conflict(service, key, winner) => Truthy(key) && Known(s, winner, service, key)
  }

  ghost predicate KeysInv(s: State) {
    && UniqueKeys(s)
    && (forall i | 0 <= i < |s.replies| :: ReplyInv(s, s.replies[i]))
    && (forall rid | rid in s.requests :: RequestInv(s, s.requests[rid]))
  }

  ghost predicate Inv(c: Config, s: State) {
    CellsInv(c, s) && HandInv(c, s) && StaleInv(s) && TombsInv(c, s) && KeysInv(s)
  }

  // ---------- preservation: frames ----------

  predicate SameIdentity(a: Row, b: Row) {
    a.direction == b.direction && a.service == b.service && a.key == b.key && a.created == b.created
      && a.topic == b.topic
  }

  /** A message keeps what it is, its phase does not fall and its history only grows. */
  predicate Advanced(x: Cell, y: Cell) {
    && SameIdentity(x.row, y.row)
    && Phase(x.row.status) <= Phase(y.row.status)
    && x.trace <= y.trace && x.errs <= y.errs
  }

  /** Nothing is inserted or deleted and every message only advances. */
  ghost predicate Forward(s: State, t: State) {
    && s.cells.Keys == t.cells.Keys && s.tombs == t.tombs && s.now <= t.now
    && forall id | id in s.cells :: Advanced(s.cells[id], t.cells[id])
  }

  lemma KeysForward(s: State, t: State)
    requires KeysInv(s) && Forward(s, t) && t.replies == s.replies
    requires forall rid | rid in t.requests :: rid in s.requests && t.requests[rid] == s.requests[rid]
    ensures KeysInv(t)
  {
    forall r: Reply | ReplyInv(s, r) ensures ReplyInv(t, r) {}
    forall q: Request | RequestInv(s, q) ensures RequestInv(t, q) {}
  }

  lemma StaleForward(s: State, t: State)
    requires StaleInv(s) && Forward(s, t)
    requires t.poll == s.poll || t.poll == None
    requires forall rid | rid in t.receipts :: rid in s.receipts && t.receipts[rid] == s.receipts[rid]
    ensures StaleInv(t)
  {
  }

  /** One message changes and the invariant of that message is re-established. */
  lemma OneCell(c: Config, s: State, t: State, id: Id)
    requires Inv(c, s) && id in s.cells && id in t.cells && t.cells == s.cells[id := t.cells[id]]
    requires t == s.(cells := t.cells, hand := t.hand)
    requires !(s.hand.Holding? && s.hand.id != id) && !(t.hand.Holding? && t.hand.id != id)
    requires Advanced(s.cells[id], t.cells[id])
    requires CellInv(c, s.now, t.cells[id], StageOf(t.hand, id)) && HandInv(c, t)
    ensures Inv(c, t) && Forward(s, t)
  {
    KeysForward(s, t);
    StaleForward(s, t);
  }

  lemma TickKeeps(c: Config, s: State, d: nat)
    requires Inv(c, s)
    ensures Inv(c, Step(c, s, Tick(d)))
  {
    var t := Step(c, s, Tick(d));
    forall id | id in t.cells ensures CellInv(c, t.now, t.cells[id], StageOf(t.hand, id)) {
      TimePasses(c, s.now, t.now, s.cells[id], StageOf(s.hand, id));
    }
    KeysForward(s, t);
    StaleForward(s, t);
  }

  // ---------- the send loop ----------

  lemma RequeueReadKeeps(c: Config, s: State)
    requires Inv(c, s)
    ensures Inv(c, RequeueReadStep(c, s)) && Forward(s, RequeueReadStep(c, s))
  {
    var t := RequeueReadStep(c, s);
    if t != s {
      HandMoves(c, s, t);
    }
  }

  lemma RequeueCommitKeeps(c: Config, s: State)
    requires Inv(c, s)
    ensures Inv(c, RequeueCommitStep(s)) && Forward(s, RequeueCommitStep(s))
  {
    var t := RequeueCommitStep(s);
    if s.hand.Requeueing? {
      forall id | id in t.cells ensures CellInv(c, t.now, t.cells[id], StageOf(t.hand, id)) {
        if id in s.hand.ids {
          RequeueKeeps(c, s.now, s.cells[id], s.hand.at);
        }
      }
    }
    KeysForward(s, t);
    StaleForward(s, t);
  }

  lemma ClaimCommitKeeps(c: Config, s: State)
    requires Inv(c, s)
    ensures Inv(c, ClaimCommitStep(s)) && Forward(s, ClaimCommitStep(s))
  {
    if s.hand.Claiming? {
      ClaimKeeps(c, s.now, s.cells[s.hand.id], s.hand.at);
      OneCell(c, s, ClaimCommitStep(s), s.hand.id);
    }
  }

  lemma CallKeeps(c: Config, s: State, act: Act, ntfy: bool, next: Stage)
    requires Inv(c, s)
    requires if ntfy then act == Publish && next == PublishOut else act == SmsCall && next == SmsOut
    ensures Inv(c, CallStep(s, act, ntfy, next)) && Forward(s, CallStep(s, act, ntfy, next))
  {
    var t := CallStep(s, act, ntfy, next);
    if t != s {
      var x := s.cells[s.hand.id];
      if ntfy { PublishKeeps(c, s.now, x); } else { SmsCallKeeps(c, s.now, x); }
      OneCell(c, s, t, s.hand.id);
    }
  }

  lemma AnswerKeeps(c: Config, s: State, awaited: Stage, copy: Row, next: Stage)
    requires Inv(c, s) && !awaited.Free?
    requires InFlight(awaited) == InFlight(next) && PublishInFlight(awaited) == PublishInFlight(next)
    requires s.hand.Holding? && s.hand.stage == awaited ==>
      CopyInv(c, s.now, s.hand.base, copy, next, (if s.hand.id in s.cells then s.cells[s.hand.id].errs else []))
    ensures Inv(c, AnswerStep(s, awaited, copy, next)) && Forward(s, AnswerStep(s, awaited, copy, next))
  {
    var t := AnswerStep(s, awaited, copy, next);
    if t != s {
      assert t.cells == s.cells[s.hand.id := t.cells[s.hand.id]];
      OneCell(c, s, t, s.hand.id);
    }
  }

  lemma CommittedCellKeeps(c: Config, s: State)
    requires Inv(c, s) && s.hand.Holding? && Dirty(s.hand.stage)
    ensures var x, y := s.cells[s.hand.id], CommittedCell(s.cells[s.hand.id], s.hand, s.now);
      && CellInv(c, s.now, y, if s.hand.stage.FallbackChosen? then Held else Free)
      && Advanced(x, y) && y.row == s.hand.copy.(updated := s.now)
  {
    var x, h := s.cells[s.hand.id], s.hand;
    match h.stage {
      case FallbackChosen => FallbackKeeps(c, s.now, x, h.copy);
      case PublicationMade => PublicationKeeps(c, s.now, x, h.copy);
      case Settled(ok, at) =>
        if ok { AcceptKeeps(c, s.now, x, h.copy, h.stage); } else { RejectKeeps(c, s.now, x, h.copy, h.stage); }
    }
  }

  lemma CommitHand(c: Config, s: State)
    requires s.hand.Holding? && Dirty(s.hand.stage) && s.hand.id in s.cells
    requires CommittedCell(s.cells[s.hand.id], s.hand, s.now).row == s.hand.copy.(updated := s.now)
    ensures var t := CommitStep(s);
      && HandInv(c, t) && t == s.(cells := t.cells, hand := t.hand)
      && t.cells == s.cells[s.hand.id := CommittedCell(s.cells[s.hand.id], s.hand, s.now)]
      && StageOf(t.hand, s.hand.id) == (if s.hand.stage.FallbackChosen? then Held else Free)
      && (t.hand.Holding? ==> t.hand.id == s.hand.id)
  {
  }

  lemma CommitKeeps(c: Config, s: State)
    requires Inv(c, s)
    ensures Inv(c, CommitStep(s)) && Forward(s, CommitStep(s))
  {
    if s.hand.Holding? && Dirty(s.hand.stage) {
      CommittedCellKeeps(c, s);
      CommitHand(c, s);
      OneCell(c, s, CommitStep(s), s.hand.id);
    }
  }

  lemma LetGoKeeps(c: Config, s: State)
    requires Inv(c, s)
    ensures Inv(c, LetGo(s)) && Forward(s, LetGo(s))
  {
    var t := LetGo(s);
    if s.hand.Holding? {
      DropKeeps(c, s.now, s.cells[s.hand.id], s.hand.stage);
      OneCell(c, s, t, s.hand.id);
    } else {
      KeysForward(s, t);
      StaleForward(s, t);
    }
  }

  // ---------- status loop, receipts, inbound, prune, crash ----------

  predicate Overwritten(x: Cell, y: Cell, now: int) {
    && y == Overwrite(x, y.row.status, now)
    && (y.row.status.Delivered? || (y.row.status.Failed? && x.row.direction.Outbound?))
  }

  /** Terminal statuses are written over rows that have left the queue. */
  lemma OverwritesKeep(c: Config, s: State, t: State)
    requires Inv(c, s) && t == s.(cells := t.cells, poll := t.poll, receipts := t.receipts)
      && t.cells.Keys == s.cells.Keys
    requires forall id | id in s.cells ::
      t.cells[id] == s.cells[id] || (LeftQueue(s, id) && Overwritten(s.cells[id], t.cells[id], s.now))
    requires t.poll == s.poll || t.poll == None
    requires forall rid | rid in t.receipts :: rid in s.receipts && t.receipts[rid] == s.receipts[rid]
    ensures Inv(c, t) && Forward(s, t)
  {
    forall id | id in s.cells && t.cells[id] != s.cells[id]
      ensures CellInv(c, s.now, t.cells[id], Free) && StageOf(s.hand, id) == Free
    {
      OverwriteKeeps(c, s.now, s.cells[id], t.cells[id].row.status);
    }
    assert Forward(s, t);
    assert CellsInv(c, t);
    assert HandInv(c, t);
    KeysForward(s, t);
    StaleForward(s, t);
  }

  lemma PollCommitKeeps(c: Config, s: State, updates: map<Id, Status>)
    requires Inv(c, s)
    ensures Inv(c, PollCommitStep(s, updates)) && Forward(s, PollCommitStep(s, updates))
  {
    OverwritesKeep(c, s, PollCommitStep(s, updates));
  }

  lemma ReceiptCommitKeeps(c: Config, s: State, rid: Rid)
    requires Inv(c, s)
    ensures Inv(c, ReceiptCommitStep(s, rid)) && Forward(s, ReceiptCommitStep(s, rid))
  {
    OverwritesKeep(c, s, ReceiptCommitStep(s, rid));
  }

  lemma PruneHand(c: Config, s: State)
    requires Inv(c, s)
    ensures HandInv(c, PruneStep(c, s)) && CellsInv(c, PruneStep(c, s))
  {
    var t := PruneStep(c, s);
    if s.hand.Requeueing? {
      forall id | id in s.hand.ids ensures id in t.cells {}
    }
  }

  lemma PruneKeeps(c: Config, s: State)
    requires Inv(c, s)
    ensures Inv(c, PruneStep(c, s))
  {
    var t := PruneStep(c, s);
    PruneHand(c, s);
    forall r: Reply | ReplyInv(s, r) ensures ReplyInv(t, r) {
      if r.outcome.Crashed500? && Truthy(r.key) {
        var id :| id in s.tombs && SameKey(s.tombs[id].cell.row, r.service, r.key);
        assert id in t.tombs && t.tombs[id] == s.tombs[id];
      }
    }
    forall q: Request | RequestInv(s, q) ensures RequestInv(t, q) {}
  }

  lemma CrashKeeps(c: Config, s: State)
    requires Inv(c, s)
    ensures Inv(c, CrashStep(s)) && Forward(s, CrashStep(s))
  {
    LetGoKeeps(c, s);
    var t, u := LetGo(s), CrashStep(s);
    KeysForward(t, u);
    StaleForward(t, u);
  }

  lemma ReadKeeps(c: Config, s: State, t: State)
    requires Inv(c, s) && t == s.(poll := t.poll, receipts := t.receipts) && StaleInv(t)
    ensures Inv(c, t)
  {
    KeysForward(s, t);
  }

  // ---------- send_message ----------

  lemma OnlyReplies(c: Config, s: State, t: State)
    requires Inv(c, s) && t == s.(replies := t.replies, requests := t.requests)
    requires forall i | 0 <= i < |t.replies| ::
      (i < |s.replies| && t.replies[i] == s.replies[i]) || ReplyInv(s, t.replies[i])
    requires forall rid | rid in t.requests ::
      (rid in s.requests && t.requests[rid] == s.requests[rid]) || RequestInv(s, t.requests[rid])
    ensures Inv(c, t)
  {
    forall r: Reply | ReplyInv(s, r) ensures ReplyInv(t, r) {}
    forall q: Request | RequestInv(s, q) ensures RequestInv(t, q) {}
    StaleForward(s, t);
  }

  lemma KeysArrive(s: State, t: State, added: map<Id, Cell>)
    requires KeysInv(s) && t == s.(cells := s.cells + added)
    requires added.Keys !! s.cells.Keys
    requires forall i, j | i in added && j in t.cells && i != j ::
      !SameKey(added[i].row, t.cells[j].row.service, t.cells[j].row.key)
    ensures KeysInv(t)
  {
    forall i, j | i in t.cells && j in t.cells && SameKey(t.cells[i].row, t.cells[j].row.service, t.cells[j].row.key)
      ensures i == j
    {
      assert i !in added ==> SameKey(s.cells[i].row, t.cells[j].row.service, t.cells[j].row.key);
      assert SameKey(t.cells[j].row, t.cells[i].row.service, t.cells[i].row.key);
    }
    forall r: Reply | ReplyInv(s, r) ensures ReplyInv(t, r) {}
    forall q: Request | RequestInv(s, q) ensures RequestInv(t, q) {}
  }

  /** New rows arrive that satisfy the message invariant and take no key already in the table. */
  lemma Arrivals(c: Config, s: State, t: State, added: map<Id, Cell>)
    requires Inv(c, s) && t == s.(cells := s.cells + added)
    requires added.Keys !! s.cells.Keys && added.Keys !! s.tombs.Keys
    requires forall id | id in added :: CellInv(c, s.now, added[id], Free)
    requires KeysInv(t)
    ensures Inv(c, t)
  {
    forall id | id in t.cells ensures CellInv(c, t.now, t.cells[id], StageOf(t.hand, id)) {
      if id in added { assert StageOf(t.hand, id) == Free; }
    }
    assert StaleInv(t);
  }

  lemma InboundKeeps(c: Config, s: State, id: Id, pid: Option<string>, created: int)
    requires Inv(c, s)
    ensures Inv(c, InboundStep(s, id, pid, created))
  {
    var t := InboundStep(s, id, pid, created);
    if t != s {
      var added := map[id := Cell(NewInbound(pid, created, s.now), [], [])];
      assert t == s.(cells := s.cells + added);
      InboundCellInv(c, s.now, pid, created);
      KeysArrive(s, t, added);
      Arrivals(c, s, t, added);
    }
  }

  lemma InboundCellInv(c: Config, now: int, pid: Option<string>, created: int)
    ensures CellInv(c, now, Cell(NewInbound(pid, created, now), [], []), Free)
  {
    assert Count([]) == Tally(0, 0, 0, 0, 0, 0, 0, 0, 0, 0);
  }

  lemma NewCellInv(c: Config, now: int, service: string, key: Option<string>, topic: Option<string>)
    ensures CellInv(c, now, Cell(NewOutbound(service, key, topic, now), [], []), Free)
  {
    assert Count([]) == Tally(0, 0, 0, 0, 0, 0, 0, 0, 0, 0);
  }

  lemma InsertOnlyAdds(s: State, rid: Rid, ids: seq<Id>, clash: Option<Id>)
    ensures var t := InsertStep(s, rid, ids, clash);
      && t.hand == s.hand && t.tombs == s.tombs && t.now == s.now && t.poll == s.poll && t.receipts == s.receipts
      && (forall id | id in s.cells :: id in t.cells && t.cells[id] == s.cells[id])
      && (forall id | id in t.cells && id !in s.cells ::
        id in ids && t.cells[id].row.created == s.now && t.cells[id].row.status == Queued)
  {
  }

  lemma NoClash(s: State, q: Request, ids: seq<Id>)
    requires q.Missed? && |ids| == |q.topics| && FreshIds(s, ids)
    requires Answers(s, q.service, q.key, None) && !(q.key.Some? && |ids| > 1)
    requires KeysInv(s)
    ensures KeysInv(s.(cells := s.cells + NewCells(q, ids, s.now)))
    ensures forall i | 0 <= i < |ids| :: Known(s.(cells := s.cells + NewCells(q, ids, s.now)), ids[i], q.service, q.key)
  {
    var added := NewCells(q, ids, s.now);
    var t := s.(cells := s.cells + added);
    forall i, j | i in added && j in t.cells && i != j
      ensures !SameKey(added[i].row, t.cells[j].row.service, t.cells[j].row.key)
    {
      if j in added {
        var m, n :| 0 <= m < |ids| && 0 <= n < |ids| && ids[m] == i && ids[n] == j;
      } else {
        assert !SameKey(s.cells[j].row, q.service, q.key);
      }
    }
    KeysArrive(s, t, added);
    forall i | 0 <= i < |ids| ensures Known(t, ids[i], q.service, q.key) {
      assert ids[i] in added;
    }
  }

  lemma RowsInserted(c: Config, s: State, q: Request, ids: seq<Id>)
    requires Inv(c, s) && q.Missed? && |ids| == |q.topics| && FreshIds(s, ids)
    requires Answers(s, q.service, q.key, None) && !(q.key.Some? && |ids| > 1)
    ensures Inv(c, s.(cells := s.cells + NewCells(q, ids, s.now)))
  {
    var added := NewCells(q, ids, s.now);
    forall id | id in added ensures CellInv(c, s.now, added[id], Free) {
      var i :| 0 <= i < |ids| && ids[i] == id;
      NewCellInv(c, s.now, q.service, q.key, q.topics[i]);
    }
    NoClash(s, q, ids);
    Arrivals(c, s, s.(cells := s.cells + added), added);
  }

  lemma AcceptedReply(s: State, u: State, t: State, rid: Rid, ids: seq<Id>)
    requires KeysInv(s) && rid in s.requests && s.requests[rid].Missed? && |ids| == |s.requests[rid].topics|
    requires forall i | 0 <= i < |ids| :: Known(u, ids[i], s.requests[rid].service, s.requests[rid].key)
    requires t.replies == s.replies + [Reply(s.requests[rid].service, s.requests[rid].key, ids, Accepted)]
    ensures ReplyInv(u, t.replies[|s.replies|]) && forall i | 0 <= i < |s.replies| :: t.replies[i] == s.replies[i]
  {
    assert RequestInv(s, s.requests[rid]);
  }

  /** What an insert does: nothing but a reply or a changed request, or new rows and a reply that accepts. */
  lemma InsertOutcome(s: State, rid: Rid, ids: seq<Id>, clash: Option<Id>)
    requires KeysInv(s)
    ensures var t := InsertStep(s, rid, ids, clash);
      || Refusal(s, t)
      || (rid in s.requests && s.requests[rid].Missed? && |ids| == |s.requests[rid].topics| && FreshIds(s, ids)
          && Answers(s, s.requests[rid].service, s.requests[rid].key, None)
          && !(s.requests[rid].key.Some? && |ids| > 1)
          && t == s.(cells := s.cells + NewCells(s.requests[rid], ids, s.now), requests := s.requests - {rid},
               replies := s.replies + [Reply(s.requests[rid].service, s.requests[rid].key, ids, Accepted)]))
  {
    if rid in s.requests {
      assert RequestInv(s, s.requests[rid]);
    }
  }

  /** Only replies and requests have changed, and they are as they should be. */
  ghost predicate Refusal(s: State, t: State) {
    && t == s.(replies := t.replies, requests := t.requests)
    && (forall i | 0 <= i < |t.replies| ::
      (i < |s.replies| && t.replies[i] == s.replies[i]) || ReplyInv(s, t.replies[i]))
    && (forall rid | rid in t.requests ::
          (rid in s.requests && t.requests[rid] == s.requests[rid]) || RequestInv(s, t.requests[rid]))
  }

  lemma InsertKeeps(c: Config, s: State, rid: Rid, ids: seq<Id>, clash: Option<Id>)
    requires Inv(c, s)
    ensures Inv(c, InsertStep(s, rid, ids, clash))
  {
    var t := InsertStep(s, rid, ids, clash);
    InsertOutcome(s, rid, ids, clash);
    if Refusal(s, t) {
      OnlyReplies(c, s, t);
    } else {
      var q := s.requests[rid];
      RowsInserted(c, s, q, ids);
      NoClash(s, q, ids);
      var u := s.(cells := s.cells + NewCells(q, ids, s.now));
      AcceptedReply(s, u, t, rid, ids);
      OnlyReplies(c, u, t);
    }
  }

  // ---------- all events, all runs ----------

  predicate SendLoopEvent(e: Event) {
    e.RequeueRead? || e.RequeueCommit? || e.ClaimRead? || e.ClaimNone? || e.ClaimCommit? || e.PublishCall?
    || e.PublishOk? || e.PublishFail? || e.SmsGrant? || e.SmsOk? || e.SmsError? || e.Commit? || e.SendFault?
  }

  lemma ClaimReadKeeps(c: Config, s: State, e: Event)
    requires Inv(c, s) && (e.ClaimRead? || e.ClaimNone?)
    ensures Inv(c, Step(c, s, e)) && Forward(s, Step(c, s, e))
  {
    if s.hand.Swept? {
      HandMoves(c, s, Step(c, s, e));
    }
  }

  lemma NtfyAnswerKeeps(c: Config, s: State, e: Event)
    requires Inv(c, s) && (e.PublishOk? || e.PublishFail?)
    ensures Inv(c, Step(c, s, e)) && Forward(s, Step(c, s, e))
  {
    if e.PublishOk? {
      AnswerKeeps(c, s, PublishOut, MarkedPublished(HandCopy(s), e.receipt, s.now), PublicationMade);
    } else {
      AnswerKeeps(c, s, PublishOut, FallenBack(HandCopy(s)), FallbackChosen);
    }
  }

  lemma SmsAnswerKeeps(c: Config, s: State, e: Event)
    requires Inv(c, s) && (e.SmsOk? || e.SmsError?)
    ensures Inv(c, Step(c, s, e)) && Forward(s, Step(c, s, e))
  {
    if e.SmsOk? {
      AnswerKeeps(c, s, SmsOut, MarkedSent(HandCopy(s), e.pid, s.now), Settled(true, s.now));
    } else {
      AnswerKeeps(c, s, SmsOut, MarkedError(c, HandCopy(s), e.permanent, s.now), Settled(false, s.now));
    }
  }

  lemma CallsKeep(c: Config, s: State, e: Event)
    requires Inv(c, s) && (e.PublishCall? || e.SmsGrant?)
    ensures Inv(c, Step(c, s, e)) && Forward(s, Step(c, s, e))
  {
    if e.PublishCall? {
      CallKeeps(c, s, Publish, true, PublishOut);
    } else {
      CallKeeps(c, s, SmsCall, false, SmsOut);
    }
  }

  lemma SendLoopKeeps(c: Config, s: State, e: Event)
    requires Inv(c, s) && SendLoopEvent(e)
    ensures Inv(c, Step(c, s, e)) && Forward(s, Step(c, s, e))
  {
    if e.RequeueRead? { RequeueReadKeeps(c, s); }
    else if e.RequeueCommit? { RequeueCommitKeeps(c, s); }
    else if e.ClaimRead? || e.ClaimNone? { ClaimReadKeeps(c, s, e); }
    else if e.ClaimCommit? { ClaimCommitKeeps(c, s); }
    else if e.PublishCall? || e.SmsGrant? { CallsKeep(c, s, e); }
    else if e.PublishOk? || e.PublishFail? { NtfyAnswerKeeps(c, s, e); }
    else if e.SmsOk? || e.SmsError? { SmsAnswerKeeps(c, s, e); }
    else if e.Commit? { CommitKeeps(c, s); }
    else { LetGoKeeps(c, s); }
  }

  lemma ReadsKeep(c: Config, s: State, e: Event)
    requires Inv(c, s) && (e.PollRead? || e.PollFault? || e.ReceiptRead?)
    ensures Inv(c, Step(c, s, e))
  {
    ReadKeeps(c, s, Step(c, s, e));
  }

  /** Every event keeps the invariant, from any state that has it. */
  lemma StepKeeps(c: Config, s: State, e: Event)
    requires Inv(c, s)
    ensures Inv(c, Step(c, s, e))
  {
    match e
    case Tick(d) => TickKeeps(c, s, d);
    case SubmitLookup(rid, service, key, topics, found) => LookupKeeps(c, s, rid, service, key, topics, found);
    case SubmitInsert(rid, ids, clash) => InsertKeeps(c, s, rid, ids, clash);
    case SubmitRecover(rid, found) => RecoverKeeps(c, s, rid, found);
    case PollCommit(updates) => PollCommitKeeps(c, s, updates);
    case ReceiptCommit(rid) => ReceiptCommitKeeps(c, s, rid);
    case InboundArrive(id, pid, created) => InboundKeeps(c, s, id, pid, created);
    case Prune => PruneKeeps(c, s);
    case Crash => CrashKeeps(c, s);
    case PollRead => ReadsKeep(c, s, e);
    case PollFault => ReadsKeep(c, s, e);
    case ReceiptRead(_, _, _) => ReadsKeep(c, s, e);
    case _ => SendLoopKeeps(c, s, e);
  }

  lemma LookupKeeps(c: Config, s: State, rid: Rid, service: string, key: Option<string>, topics: seq<Option<string>>,
                    found: Option<Id>)
    requires Inv(c, s)
    ensures Inv(c, LookupStep(s, rid, service, key, topics, found))
  {
    OnlyReplies(c, s, LookupStep(s, rid, service, key, topics, found));
  }

  lemma HandMoves(c: Config, s: State, t: State)
    requires Inv(c, s) && t == s.(hand := t.hand) && HandInv(c, t) && !s.hand.Holding? && !t.hand.Holding?
    ensures Inv(c, t) && Forward(s, t)
  {
    KeysForward(s, t);
    StaleForward(s, t);
  }

  lemma RecoverKeeps(c: Config, s: State, rid: Rid, found: Option<Id>)
    requires Inv(c, s)
    ensures Inv(c, RecoverStep(s, rid, found))
  {
    var t := RecoverStep(s, rid, found);
    if t != s {
      var q := s.requests[rid];
      assert found.None? ==> Buried(s, q.service, q.key) by {
        if found.None? { assert q.winner in s.tombs && SameKey(s.tombs[q.winner].cell.row, q.service, q.key); }
      }
      OnlyReplies(c, s, t);
    }
  }

  /** The invariant holds after every run from the empty table: any interleaving, any number of crashes. */
  lemma {:induction false} RunKeeps(c: Config, s: State, es: seq<Event>)
    requires Inv(c, s)
    ensures Inv(c, Run(c, s, es))
    decreases |es|
  {
    if es != [] {
      StepKeeps(c, s, es[0]);
      RunKeeps(c, Step(c, s, es[0]), es[1..]);
    }
  }

  lemma InitInv(c: Config, now: int)
    ensures Inv(c, Init(now))
  {
  }
}
