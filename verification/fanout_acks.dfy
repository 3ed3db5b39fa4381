/** What becomes of an acknowledgement: exactly when it is remembered, and the two ways in which it is forgotten. */
module FanoutAcks {
  import opened Prelude
  import opened Webhooks
  import opened Fanout
  import opened FanoutSafety

  /** The loop has an acknowledgement of delivery `d` in memory. */
  ghost predicate HasAck(s: State, d: Did) {
    s.batch.Some? && d in s.batch.value.done && s.batch.value.done[d].acked && d in s.cells
  }

  /** An acknowledgement in memory becomes the committed status exactly when the next event is the commit of its
      finished batch and no row of the batch has been deleted. Otherwise the delivery stays waiting as before, and if
      the batch is gone the acknowledgement is lost. */
  lemma AckRememberedIff(subs: seq<Subscriber>, s: State, e: Event, d: Did)
    requires Reachable(subs, s) && HasAck(s, d)
    ensures var t, b := Step(subs, s, e), s.batch.value;
      d in t.cells ==>
        && (t.cells[d].row.status.Delivered? <==> e.BatchCommit? && b.todo == [] && b.done.Keys <= s.cells.Keys)
        && (!t.cells[d].row.status.Delivered? ==> t.cells[d].row == s.cells[d].row && t.cells[d].row.status.Waiting?)
        && (!t.cells[d].row.status.Delivered? ==> HasAck(t, d) || t.cells[d].lostAcks == s.cells[d].lostAcks + 1)
  {
    ReachableInv(subs, s);
    assert WorkInv(s.now, s.cells[d].row, s.cells[d].fails, WorkOn(s, d));
    if e.InboundInsert? {
      InsertLeavesDelivery(subs, s, e.rid, e.id, e.dids, d);
    } else if LoopEvent(e) {
      LoopEventFate(subs, s, e, d);
    }
  }

  lemma InsertLeavesDelivery(subs: seq<Subscriber>, s: State, rid: Rid, id: Id, dids: seq<Did>, d: Did)
    requires d in s.cells
    ensures var t := InsertStep(subs, s, rid, id, dids); d in t.cells && t.cells[d] == s.cells[d] && t.batch == s.batch
  {
    InsertEffect(subs, s, rid, id, dids);
    var rows := NewDeliveries(id, Wanting(subs, {}), s.now);
    if |rows| == |dids| && FreshDids(s, dids) {
      NewCellsAre(rows, dids);
    }
  }

  lemma LoopEventFate(subs: seq<Subscriber>, s: State, e: Event, d: Did)
    requires BatchInv(s) && HasAck(s, d) && LoopEvent(e)
    requires s.cells[d].row.status.Waiting? && s.batch.value.done[d].row.status.Delivered?
    ensures var t, b := Step(subs, s, e), s.batch.value;
      && d in t.cells
      && (t.cells[d].row.status.Delivered? <==> e.BatchCommit? && b.todo == [] && b.done.Keys <= s.cells.Keys)
      && (!t.cells[d].row.status.Delivered? ==> t.cells[d].row == s.cells[d].row)
      && (!t.cells[d].row.status.Delivered? ==> HasAck(t, d) || t.cells[d].lostAcks == s.cells[d].lostAcks + 1)
  {
    if Posting(s) {
      assert s.batch.value.todo[0] !in s.batch.value.done;
    }
  }

  // ---------- what a batch does ----------

  /** In a reachable state every delivery of the batch is called for: its message is stored and its subscriber
      configured. */
  lemma AlwaysCalls(subs: seq<Subscriber>, s: State, d: Did)
    requires Owned(subs, s) && d in s.cells
    ensures Calls(subs, s, s.cells[d].row)
  {
    var sub :| sub in subs && sub.interested && sub.name == s.cells[d].row.subscriber;
    var i :| 0 <= i < |subs| && subs[i] == sub;
  }

  function OncePosted(x: Cell, answer: Answer): Cell {
    x.(posts := x.posts + 1, acks := x.acks + if Acknowledges(answer) then 1 else 0)
  }

  /** `t` is `s` with the batch `dids` read and its first `n` deliveries posted and answered. */
  ghost predicate Underway(s: State, t: State, dids: seq<Did>, answers: seq<Answer>, n: nat)
    requires n <= |dids| == |answers|
  {
    && t.batch.Some? && t == s.(cells := t.cells, batch := t.batch) && t.cells.Keys == s.cells.Keys
    && t.batch.value.todo == dids[n..]
    && (forall i | 0 <= i < |dids| ::
      dids[i] in s.cells && dids[i] in t.batch.value.base && t.batch.value.base[dids[i]] == s.cells[dids[i]].row)
    && (forall d | d in t.batch.value.done :: d in dids)
    && (forall i | 0 <= i < n :: dids[i] in t.batch.value.done
          && t.batch.value.done[dids[i]] == Work(After(s.cells[dids[i]].row, true, answers[i], s.now), true,
            Acknowledges(answers[i]), s.now))
    && (forall i | 0 <= i < n :: t.cells[dids[i]] == OncePosted(s.cells[dids[i]], answers[i]))
    && (forall i | n <= i < |dids| :: t.cells[dids[i]] == s.cells[dids[i]] && dids[i] !in t.batch.value.done)
    && (forall d | d in s.cells && d !in dids :: t.cells[d] == s.cells[d])
    && (n > 0 ==> t.batch.value.loaded == Some(s.cells[dids[n - 1]].row.message))
    && (Locked(t) <==> !OneMessage(s, dids, n))
  }

  /** The first `n` deliveries are all of the same message. */
  ghost predicate OneMessage(s: State, dids: seq<Did>, n: nat)
    requires n <= |dids| && forall i | 0 <= i < |dids| :: dids[i] in s.cells
  {
    forall i | 0 <= i < n :: s.cells[dids[i]].row.message == s.cells[dids[0]].row.message
  }

  lemma PostNext(subs: seq<Subscriber>, s: State, t: State, dids: seq<Did>, answers: seq<Answer>, n: nat)
    requires n < |dids| == |answers| && Distinct(dids) && Underway(s, t, dids, answers, n) && Owned(subs, s)
    ensures Underway(s, Step(subs, t, Post(answers[n])), dids, answers, n + 1)
  {
    var did := dids[n];
    NextFlush(s, t, dids, answers, n);
    AlwaysCalls(subs, s, did);
    assert t.batch.value.todo[0] == did && dids[n..][1..] == dids[n + 1..];
    assert Calls(subs, t, t.batch.value.base[did]);
    PostEffect(subs, t, answers[n], did);
    UnderwayNext(s, t, Step(subs, t, Post(answers[n])), dids, answers, n);
  }

  lemma UnderwayNext(s: State, t: State, u: State, dids: seq<Did>, answers: seq<Answer>, n: nat)
    requires n < |dids| == |answers| && Distinct(dids) && Underway(s, t, dids, answers, n) && u.batch.Some?
    requires u == t.(cells := t.cells[dids[n] := OncePosted(t.cells[dids[n]], answers[n])], batch := u.batch)
    requires u.batch.value.todo == dids[n + 1..] && u.batch.value.base == t.batch.value.base
    requires u.batch.value.done == t.batch.value.done[dids[n] :=
      Work(After(s.cells[dids[n]].row, true, answers[n], s.now), true, Acknowledges(answers[n]), s.now)]
    requires u.batch.value.loaded == Some(s.cells[dids[n]].row.message) && (Locked(u) <==> !OneMessage(s, dids, n + 1))
    ensures Underway(s, u, dids, answers, n + 1)
  {
    forall i | 0 <= i < |dids| && i != n ensures dids[i] != dids[n] {}
  }

  /** The write lock is taken when a second message is loaded. */
  lemma NextFlush(s: State, t: State, dids: seq<Did>, answers: seq<Answer>, n: nat)
    requires n < |dids| == |answers| && Underway(s, t, dids, answers, n)
    ensures Posting(t) && !FlushFails(t)
    ensures OneMessage(s, dids, n + 1) <==> !(Locked(t) || Flushes(t))
  {
    assert t.batch.value.todo[0] == dids[n];
    forall d | d in t.batch.value.done ensures d in t.cells {
      var i :| 0 <= i < |dids| && dids[i] == d;
    }
    if n > 0 {
      assert dids[n - 1] in t.batch.value.done;
    } else {
      assert forall d :: d !in t.batch.value.done;
      NothingDone(t.batch.value.done);
    }
  }

  lemma NothingDone(done: map<Did, Work>)
    ensures (forall d :: d !in done) ==> done == map[]
  {
    if forall d :: d !in done {
      assert done.Keys == {};
    }
  }

  lemma PostEffect(subs: seq<Subscriber>, s: State, answer: Answer, did: Did)
    requires Posting(s) && s.batch.value.todo[0] == did && did in s.cells && Calls(subs, s, s.batch.value.base[did])
    requires !FlushFails(s)
    ensures var t, b := Step(subs, s, Post(answer)), s.batch.value;
      && t == s.(cells := s.cells[did := OncePosted(s.cells[did], answer)], batch := t.batch) && t.batch.Some?
      && t.batch.value.todo == b.todo[1..] && t.batch.value.base == b.base
      && t.batch.value.done == b.done[did := Work(After(b.base[did], true, answer, s.now), true, Acknowledges(answer),
        s.now)]
      && t.batch.value.loaded == Some(b.base[did].message) && t.batch.value.locked == (b.locked || Flushes(s))
  {
  }

  /** Reading a batch and posting its first `n` deliveries. */
  function Part(dids: seq<Did>, answers: seq<Answer>, n: nat): seq<Event>
    requires n <= |answers|
  {
    [BatchRead(dids)] + Posts(answers[..n])
  }

  lemma {:induction false} BatchRuns(subs: seq<Subscriber>, s: State, dids: seq<Did>, answers: seq<Answer>, n: nat)
    requires Owned(subs, s) && s.batch.None? && Selects(s, dids) && n <= |answers| == |dids|
    ensures Underway(s, Run(subs, s, Part(dids, answers, n)), dids, answers, n)
  {
    if n == 0 {
      assert [BatchRead(dids)] + Posts(answers[..0]) == [BatchRead(dids)] && [BatchRead(dids)][1..] == [];
      assert Run(subs, s, [BatchRead(dids)]) == Step(subs, s, BatchRead(dids));
      assert dids[0..] == dids && OneMessage(s, dids, 0);
    } else {
      BatchRuns(subs, s, dids, answers, n - 1);
      PostsStep(answers, n - 1);
      assert Part(dids, answers, n) == Part(dids, answers, n - 1) + [Post(answers[n - 1])];
      RunSnoc(subs, s, Part(dids, answers, n - 1), Post(answers[n - 1]));
      PostNext(subs, s, Run(subs, s, Part(dids, answers, n - 1)), dids, answers, n - 1);
    }
  }

  lemma {:induction false} RunAppend(subs: seq<Subscriber>, s: State, a: seq<Event>, b: seq<Event>)
    ensures Run(subs, s, a + b) == Run(subs, Run(subs, s, a), b)
    decreases |a|
  {
    if a == [] {
      assert a + b == b;
    } else {
      assert (a + b)[0] == a[0] && (a + b)[1..] == a[1..] + b;
      RunAppend(subs, Step(subs, s, a[0]), a[1..], b);
    }
  }

  // ---------- forgotten in a crash ----------

  /** The delivery is as it was, but for one more call. */
  ghost predicate PostedSince(s: State, u: State, d: Did, answer: Answer) {
    && d in s.cells && d in u.cells && u.cells[d].row == s.cells[d].row
    && u.cells[d].posts == s.cells[d].posts + 1 && u.cells[d].acks == s.cells[d].acks + if Acknowledges(answer) then 1
      else 0
  }

  /** After a crash in mid-batch every row is as it was, so the same batch is due again. */
  lemma CrashForgets(subs: seq<Subscriber>, s: State, t: State, dids: seq<Did>, answers: seq<Answer>, n: nat)
    requires n <= |dids| == |answers| && Selects(s, dids) && Underway(s, t, dids, answers, n)
    ensures var u := Step(subs, t, Fault);
      && u.batch.None? && u.now == s.now && u.cells.Keys == s.cells.Keys && Selects(u, dids)
      && (forall d | d in s.cells :: u.cells[d].row == s.cells[d].row)
      && forall i | 0 <= i < n :: PostedSince(s, u, dids[i], answers[i])
  {
    var u := Step(subs, t, Fault);
    assert forall d | d in s.cells :: u.cells[d].row == t.cells[d].row == s.cells[d].row;
    forall i | 0 <= i < n ensures PostedSince(s, u, dids[i], answers[i]) {
      assert u.cells[dids[i]] == Forgotten(OncePosted(s.cells[dids[i]], answers[i]), t.batch.value.done[dids[i]]);
    }
  }

  /** An acknowledgement protects only once it is committed. In every reachable state, for every batch, every delivery
      of it and every later point of the batch: if the process dies there after the delivery was acknowledged, the next
      batch posts it again, and it can be acknowledged twice. */
  lemma AckedButLostIsPostedAgain(subs: seq<Subscriber>, s: State, dids: seq<Did>, answers: seq<Answer>, n: nat, k: nat,
                                  again: seq<Answer>)
    requires Reachable(subs, s) && s.batch.None? && Selects(s, dids) && k < n <= |dids| == |answers| == |again|
    requires Acknowledges(answers[k]) && Acknowledges(again[k])
    ensures var t := Run(subs, Step(subs, Run(subs, s, Part(dids, answers, n)), Fault), Part(dids, again, k + 1));
      var d := dids[k];
      d in t.cells && t.cells[d].row == s.cells[d].row && t.cells[d].posts == s.cells[d].posts + 2
        && t.cells[d].acks == s.cells[d].acks + 2
  {
    ReachableInv(subs, s);
    AfterCrash(subs, s, dids, answers, n);
    PostedOnceMore(subs, Step(subs, Run(subs, s, Part(dids, answers, n)), Fault), dids, again, k);
  }

  lemma AfterCrash(subs: seq<Subscriber>, s: State, dids: seq<Did>, answers: seq<Answer>, n: nat)
    requires Inv(subs, s) && s.batch.None? && Selects(s, dids) && n <= |dids| == |answers|
    ensures var u := Step(subs, Run(subs, s, Part(dids, answers, n)), Fault);
      && Inv(subs, u) && u.batch.None? && Selects(u, dids)
      && forall i | 0 <= i < n :: PostedSince(s, u, dids[i], answers[i])
  {
    BatchRuns(subs, s, dids, answers, n);
    var t := Run(subs, s, Part(dids, answers, n));
    CrashForgets(subs, s, t, dids, answers, n);
    RunKeeps(subs, s, Part(dids, answers, n));
    StepKeeps(subs, t, Fault);
  }

  lemma PostedOnceMore(subs: seq<Subscriber>, s: State, dids: seq<Did>, answers: seq<Answer>, k: nat)
    requires Inv(subs, s) && s.batch.None? && Selects(s, dids) && k < |dids| == |answers| && Acknowledges(answers[k])
    ensures var t := Run(subs, s, Part(dids, answers, k + 1));
      var d := dids[k];
      d in t.cells && t.cells[d].row == s.cells[d].row && t.cells[d].posts == s.cells[d].posts + 1
        && t.cells[d].acks == s.cells[d].acks + 1
  {
    BatchRuns(subs, s, dids, answers, k + 1);
  }

  // ---------- forgotten without any fault ----------

  /** A row of the batch has been deleted. */
  ghost predicate Doomed(s: State, j: Did) {
    s.batch.Some? && (j in s.batch.value.todo || j in s.batch.value.done) && j !in s.cells
  }

  /** No row differs and none has come; the rows with an acknowledgement in memory keep it, or it is lost with the
      batch. */
  ghost predicate Fruitless(s: State, t: State, d: Did) {
    && t.now == s.now && t.cells.Keys == s.cells.Keys && (forall e | e in s.cells :: t.cells[e].row == s.cells[e].row)
    && d in s.cells && t.cells[d].posts == s.cells[d].posts && t.cells[d].acks == s.cells[d].acks
    && (t.batch.Some? ==> HasAck(t, d) && t.cells[d].lostAcks == s.cells[d].lostAcks)
    && (t.batch.None? ==> t.cells[d].lostAcks == s.cells[d].lostAcks + 1)
  }

  lemma DropFruitless(s: State, d: Did)
    requires HasAck(s, d)
    ensures Fruitless(s, Drop(s), d)
  {
  }

  lemma DoomedTurn(subs: seq<Subscriber>, s: State, answer: Answer, d: Did, j: Did)
    requires BatchInv(s) && HasAck(s, d) && Doomed(s, j) && s.batch.value.todo != []
    ensures var t := Step(subs, s, Post(answer));
      Fruitless(s, t, d) && (t.batch.Some? ==> Doomed(t, j) && t.batch.value.todo == s.batch.value.todo[1..])
  {
    var b := s.batch.value;
    assert b.todo[0] in b.base && b.todo[0] !in b.done;
    DropFruitless(s, d);
    if !FlushFails(s) {
      TurnShape(subs, s, answer);
      TurnFruitless(subs, s, answer, d);
    }
  }

  lemma TurnFruitless(subs: seq<Subscriber>, s: State, answer: Answer, d: Did)
    requires Posting(s) && HasAck(s, d) && s.batch.value.todo[0] != d
    ensures Fruitless(s, TurnStep(subs, s, answer), d)
  {
  }

  /** The remaining turns of the batch, however answered. */
  lemma {:induction false} DoomedTurns(subs: seq<Subscriber>, s: State, answers: seq<Answer>, d: Did, j: Did)
    requires Inv(subs, s) && HasAck(s, d) && Doomed(s, j) && |answers| <= |s.batch.value.todo|
    ensures var t := Run(subs, s, Posts(answers));
      && Inv(subs, t) && Fruitless(s, t, d)
      && (t.batch.Some? ==> Doomed(t, j) && t.batch.value.todo == s.batch.value.todo[|answers|..])
    decreases |answers|
  {
    if answers != [] {
      var n := |answers| - 1;
      DoomedTurns(subs, s, answers[..n], d, j);
      var t := Run(subs, s, Posts(answers[..n]));
      RunSnoc(subs, s, Posts(answers[..n]), Post(answers[n]));
      StepKeeps(subs, t, Post(answers[n]));
      if t.batch.Some? {
        DoomedTurn(subs, t, answers[n], d, j);
      }
    }
  }

  /** Once a row of the batch has been deleted, the batch is lost with no fault at all: whatever the answers in its
      remaining turns, it is abandoned at the next write, no row has changed, and an acknowledgement it had in memory is
      lost. */
  lemma DoomedBatchIsLost(subs: seq<Subscriber>, s: State, answers: seq<Answer>, d: Did, j: Did)
    requires Inv(subs, s) && HasAck(s, d) && Doomed(s, j) && |answers| == |s.batch.value.todo|
    ensures var t := Run(subs, s, Posts(answers) + [BatchCommit]);
      Inv(subs, t) && t.batch.None? && Fruitless(s, t, d)
  {
    DoomedTurns(subs, s, answers, d, j);
    var t := Run(subs, s, Posts(answers));
    RunSnoc(subs, s, Posts(answers), BatchCommit);
    StepKeeps(subs, t, BatchCommit);
    if t.batch.Some? {
      assert t.batch.value.todo == [] && j in t.batch.value.done;
      assert !(t.batch.value.done.Keys <= t.cells.Keys);
      DropFruitless(t, d);
    }
  }

  // ---------- not forgotten once the batch holds the write lock ----------

  /** The batch holds the lock and none of its rows is missing. */
  ghost predicate Safe(s: State) {
    Locked(s) && s.batch.value.done.Keys <= s.cells.Keys && forall e | e in s.batch.value.todo :: e in s.cells
  }

  lemma SafeTurn(subs: seq<Subscriber>, s: State, answer: Answer, d: Did)
    requires BatchInv(s) && Safe(s) && HasAck(s, d)
    ensures var t := Step(subs, s, Post(answer)); Safe(t) && HasAck(t, d)
  {
    if Posting(s) {
      assert s.batch.value.todo[0] !in s.batch.value.done;
      TurnShape(subs, s, answer);
      TurnFruitless(subs, s, answer, d);
      TurnKeepsLock(subs, s, answer);
      assert !FlushFails(s);
    }
  }

  lemma TurnKeepsLock(subs: seq<Subscriber>, s: State, answer: Answer)
    requires Locked(s)
    ensures Locked(TurnStep(subs, s, answer))
  {
  }

  lemma SafeStep(subs: seq<Subscriber>, s: State, e: Event, d: Did)
    requires Inv(subs, s) && Safe(s) && HasAck(s, d) && !e.Fault? && !e.PostUnanswered?
    ensures var t := Step(subs, s, e);
      (Safe(t) && HasAck(t, d)) || (e.BatchCommit? && d in t.cells && t.cells[d].row.status.Delivered?)
  {
    if e.Post? {
      SafeTurn(subs, s, e.answer, d);
    } else if e.BatchCommit? {
      assert WorkInv(s.now, s.cells[d].row, s.cells[d].fails, WorkOn(s, d));
      LoopEventFate(subs, s, e, d);
      assert s.batch.value.todo != [] ==> Step(subs, s, e) == s;
    } else {
      SafeWaits(subs, s, e, d);
    }
  }

  lemma SafeWaits(subs: seq<Subscriber>, s: State, e: Event, d: Did)
    requires Safe(s) && (e.BatchRead? || e.Tick? || e.Prune? || e.InboundLookup? || e.InboundInsert? || e.InboundFault?)
    ensures var t := Step(subs, s, e); t.batch == s.batch && t.cells == s.cells
  {
  }

  /** Somewhere in the run the delivery is committed as delivered. */
  ghost predicate CommittedIn(subs: seq<Subscriber>, s: State, es: seq<Event>, d: Did)
    decreases |es|
  {
    es != [] &&
    var t := Step(subs, s, es[0]);
    (es[0].BatchCommit? && d in t.cells && t.cells[d].row.status.Delivered?) || CommittedIn(subs, t, es[1..], d)
  }

  /** Once a second message is loaded with all rows of the batch still there, nothing but a fault can take an
      acknowledgement: over every run without one it stays in memory, the batch complete, until it is committed. */
  lemma {:induction false} LockedBatchKeepsAcks(subs: seq<Subscriber>, s: State, es: seq<Event>, d: Did)
    requires Inv(subs, s) && Safe(s) && HasAck(s, d)
    requires forall i | 0 <= i < |es| :: !es[i].Fault? && !es[i].PostUnanswered?
    ensures (Safe(Run(subs, s, es)) && HasAck(Run(subs, s, es), d)) || CommittedIn(subs, s, es, d)
    decreases |es|
  {
    if es != [] {
      SafeStep(subs, s, es[0], d);
      StepKeeps(subs, s, es[0]);
      var t := Step(subs, s, es[0]);
      if Safe(t) && HasAck(t, d) {
        LockedBatchKeepsAcks(subs, t, es[1..], d);
      }
    }
  }

  // ---------- the schedule ----------

  /** After `p` turns of the batch retention deletes a message; the other turns and the commit follow. */
  function DeletedMeanwhile(dids: seq<Did>, answers: seq<Answer>, p: nat, gone: Id): seq<Event>
    requires p <= |answers|
  {
    Part(dids, answers, p) + [Prune({gone})] + (Posts(answers[p..]) + [BatchCommit])
  }

  /** `v` is `t` without the deliveries of message `gone`. */
  ghost predicate Pruned(s: State, t: State, v: State, gone: Id) {
    && v.batch == t.batch && v.now == t.now
    && (forall d :: d in v.cells <==> d in s.cells && s.cells[d].row.message != gone)
    && forall d | d in v.cells :: d in t.cells && v.cells[d] == t.cells[d]
  }

  /** Retention can delete a message while the batch is out exactly as long as the batch has loaded but one message. */
  lemma DeletesWhileUnlocked(s: State, t: State, dids: seq<Did>, answers: seq<Answer>, p: nat, d: Did, gone: Id)
    requires p <= |dids| == |answers| && Underway(s, t, dids, answers, p)
    requires d in s.cells && s.cells[d].row.message == gone
    ensures PruneStep(t, {gone}) != t <==> OneMessage(s, dids, p)
    ensures OneMessage(s, dids, p) ==> Pruned(s, t, PruneStep(t, {gone}), gone)
  {
    SameRowsUnderway(s, t, dids, answers, p);
    assert d !in PruneStep(t, {gone}).cells || Locked(t);
  }

  lemma SameRowsUnderway(s: State, t: State, dids: seq<Did>, answers: seq<Answer>, n: nat)
    requires n <= |dids| == |answers| && Underway(s, t, dids, answers, n)
    ensures forall d | d in s.cells :: t.cells[d].row == s.cells[d].row
  {
    forall d | d in s.cells ensures t.cells[d].row == s.cells[d].row {
      if d in dids {
        var i :| 0 <= i < |dids| && dids[i] == d;
      }
    }
  }

  lemma AfterDeletion(subs: seq<Subscriber>, s: State, dids: seq<Did>, answers: seq<Answer>, p: nat, k: nat, gone: Id)
    requires Reachable(subs, s) && s.batch.None? && Selects(s, dids) && k < p <= |dids| == |answers|
    requires OneMessage(s, dids, p) && Acknowledges(answers[k]) && s.cells[dids[k]].row.message != gone
    requires exists j :: 0 <= j < |dids| && s.cells[dids[j]].row.message == gone
    ensures var u := Run(subs, s, DeletedMeanwhile(dids, answers, p, gone));
      && Inv(subs, u) && u.batch.None? && u.now == s.now && PostedSince(s, u, dids[k], answers[k])
      && u.cells[dids[k]].lostAcks == s.cells[dids[k]].lostAcks + 1
      && (forall d :: d in u.cells <==> d in s.cells && s.cells[d].row.message != gone)
      && (forall d | d in u.cells :: u.cells[d].row == s.cells[d].row)
  {
    var part, rest := Part(dids, answers, p) + [Prune({gone})], Posts(answers[p..]) + [BatchCommit];
    ReachableInv(subs, s);
    RunKeeps(subs, s, part);
    var j := AfterPrune(subs, s, dids, answers, p, k, gone);
    var v := Run(subs, s, part);
    DoomedBatchIsLost(subs, v, answers[p..], dids[k], dids[j]);
    RunAppend(subs, s, part, rest);
    RowsThroughout(s, v, Run(subs, v, rest), dids, answers, k, gone);
  }

  /** The state right after retention has deleted `gone`. */
  ghost predicate Deleted(s: State, v: State, dids: seq<Did>, answers: seq<Answer>, k: nat, gone: Id)
    requires k < |dids| == |answers|
  {
    && v.now == s.now && dids[k] in v.cells && dids[k] in s.cells
    && v.cells[dids[k]] == OncePosted(s.cells[dids[k]], answers[k])
    && (forall d :: d in v.cells <==> d in s.cells && s.cells[d].row.message != gone)
    && (forall d | d in v.cells :: v.cells[d].row == s.cells[d].row)
  }

  lemma RowsThroughout(s: State, v: State, u: State, dids: seq<Did>, answers: seq<Answer>, k: nat, gone: Id)
    requires k < |dids| == |answers| && Deleted(s, v, dids, answers, k, gone)
    requires Fruitless(v, u, dids[k]) && u.batch.None?
    ensures u.now == s.now && PostedSince(s, u, dids[k], answers[k])
    ensures u.cells[dids[k]].lostAcks == s.cells[dids[k]].lostAcks + 1
    ensures forall d :: d in u.cells <==> d in s.cells && s.cells[d].row.message != gone
    ensures forall d | d in u.cells :: u.cells[d].row == s.cells[d].row
  {
    assert forall d :: d in u.cells <==> d in v.cells;
  }

  lemma AfterPrune(subs: seq<Subscriber>, s: State, dids: seq<Did>, answers: seq<Answer>, p: nat, k: nat, gone: Id)
      returns (j: nat)
    requires Owned(subs, s) && s.batch.None? && Selects(s, dids) && k < p <= |dids| == |answers|
    requires OneMessage(s, dids, p) && Acknowledges(answers[k]) && s.cells[dids[k]].row.message != gone
    requires exists j :: 0 <= j < |dids| && s.cells[dids[j]].row.message == gone
    ensures var v := Run(subs, s, Part(dids, answers, p) + [Prune({gone})]);
      && j < |dids| && HasAck(v, dids[k]) && Doomed(v, dids[j])
      && |v.batch.value.todo| == |answers[p..]| && Deleted(s, v, dids, answers, k, gone)
  {
    BatchRuns(subs, s, dids, answers, p);
    var part := Part(dids, answers, p);
    RunSnoc(subs, s, part, Prune({gone}));
    j := PruneDooms(s, Run(subs, s, part), dids, answers, p, k, gone);
  }

  lemma PruneDooms(s: State, t: State, dids: seq<Did>, answers: seq<Answer>, p: nat, k: nat, gone: Id) returns (j: nat)
    requires k < p <= |dids| == |answers| && Underway(s, t, dids, answers, p)
    requires OneMessage(s, dids, p) && Acknowledges(answers[k]) && s.cells[dids[k]].row.message != gone
    requires exists j :: 0 <= j < |dids| && s.cells[dids[j]].row.message == gone
    ensures var v := PruneStep(t, {gone});
      && j < |dids| && HasAck(v, dids[k]) && Doomed(v, dids[j])
      && |v.batch.value.todo| == |answers[p..]| && Deleted(s, v, dids, answers, k, gone)
  {
    j :| 0 <= j < |dids| && s.cells[dids[j]].row.message == gone;
    SameRowsUnderway(s, t, dids, answers, p);
    DeletesWhileUnlocked(s, t, dids, answers, p, dids[j], gone);
    DeletedIsDoomed(s, t, PruneStep(t, {gone}), dids, answers, p, k, j);
  }

  lemma DeletedIsDoomed(s: State, t: State, v: State, dids: seq<Did>, answers: seq<Answer>, p: nat, k: nat, j: nat)
    requires k < p <= |dids| == |answers| && j < |dids| && Underway(s, t, dids, answers, p) && OneMessage(s, dids, p)
    requires Acknowledges(answers[k]) && s.cells[dids[k]].row.message != s.cells[dids[j]].row.message
    requires v.batch == t.batch && dids[j] !in v.cells && dids[k] in v.cells
    ensures HasAck(v, dids[k]) && Doomed(v, dids[j]) && |v.batch.value.todo| == |answers[p..]|
  {
    assert j >= p;
    assert dids[p..][j - p] == dids[j];
  }

  /** No crash and no other fault is needed. If retention deletes a message while a batch with a delivery of it is out
      (which it can until the batch loads its second message), every other delivery the batch has posted by then stays
      waiting as it was, with its acknowledgement lost, and is posted again by the next batch that selects it. */
  lemma DeletedRowRepeatsPosts(subs: seq<Subscriber>, s: State, dids: seq<Did>, answers: seq<Answer>, p: nat, k: nat,
                               gone: Id, dids': seq<Did>, again: seq<Answer>, k': nat)
    requires Reachable(subs, s) && s.batch.None? && Selects(s, dids) && k < p <= |dids| == |answers|
    requires OneMessage(s, dids, p) && Acknowledges(answers[k]) && s.cells[dids[k]].row.message != gone
    requires exists j :: 0 <= j < |dids| && s.cells[dids[j]].row.message == gone
    requires Selects(Run(subs, s, DeletedMeanwhile(dids, answers, p, gone)), dids')
    requires k' < |dids'| == |again| && dids'[k'] == dids[k] && Acknowledges(again[k'])
    ensures var t := Run(subs, Run(subs, s, DeletedMeanwhile(dids, answers, p, gone)), Part(dids', again, k' + 1));
      PostedTwice(s, t, dids[k])
  {
    AfterDeletion(subs, s, dids, answers, p, k, gone);
    PostedOnceMore(subs, Run(subs, s, DeletedMeanwhile(dids, answers, p, gone)), dids', again, k');
  }

  /** The delivery is waiting as before, after two more calls that were both acknowledged. */
  ghost predicate PostedTwice(s: State, t: State, d: Did) {
    && d in s.cells && d in t.cells && t.cells[d].row == s.cells[d].row
    && t.cells[d].posts == s.cells[d].posts + 2 && t.cells[d].acks == s.cells[d].acks + 2
  }

  /** It does happen: whenever exactly two deliveries are due, of different messages, and retention deletes the second
      one's message while the first is being posted. */
  lemma TwoDueOneDeleted(subs: seq<Subscriber>, s: State, a: Did, b: Did)
    requires Reachable(subs, s) && s.batch.None? && Selects(s, [a, b])
    requires a in s.cells && b in s.cells && s.cells[a].row.message != s.cells[b].row.message
    ensures var ok := Code(200);
      var t := Run(subs, Run(subs, s, DeletedMeanwhile([a, b], [ok, ok], 1, s.cells[b].row.message)),
        Part([a], [ok], 1));
      PostedTwice(s, t, a)
  {
    var ok, gone := Code(200), s.cells[b].row.message;
    assert [a, b][0] == a && [a, b][1] == b;
    assert OneMessage(s, [a, b], 1);
    AfterDeletion(subs, s, [a, b], [ok, ok], 1, 0, gone);
    var u := Run(subs, s, DeletedMeanwhile([a, b], [ok, ok], 1, gone));
    forall d | d in u.cells && Due(u.cells[d].row, u.now) ensures d == a {
      assert d in s.cells && Due(s.cells[d].row, s.now);
      assert d in [a, b];
    }
    assert a in u.cells && Due(u.cells[a].row, u.now);
    assert Selects(u, [a]);
    DeletedRowRepeatsPosts(subs, s, [a, b], [ok, ok], 1, 0, gone, [a], [ok], 0);
  }
}
