/** Safety of the queue over every run: what each message's history looks like in every reachable state. */
module QueueSafety {
  import opened Prelude
  import opened Backoff
  import opened Messages
  import opened Queue
  import opened QueueInvariant

  ghost predicate Reachable(c: Config, s: State) {
    exists start: int, es: seq<Event> :: s == Run(c, Init(start), es)
  }

  lemma ReachableInv(c: Config, s: State)
    requires Reachable(c, s)
    ensures Inv(c, s)
  {
    var start, es :| s == Run(c, Init(start), es);
    InitInv(c, start);
    RunKeeps(c, Init(start), es);
  }

  // ---------- histories only grow, phases never fall ----------

  ghost predicate Advances(s: State, t: State) {
    && s.now <= t.now
    && (forall id | id in s.tombs :: id in t.tombs && t.tombs[id] == s.tombs[id])
    && forall id | id in s.cells ::
        || (id in t.cells && Advanced(s.cells[id], t.cells[id]))
        || (id in t.tombs && Advanced(s.cells[id], t.tombs[id].cell))
  }

  lemma StepAdvances(c: Config, s: State, e: Event)
    requires Inv(c, s)
    ensures Advances(s, Step(c, s, e))
  {
    if e.SubmitInsert? {
      InsertOnlyAdds(s, e.rid, e.ids, e.clash);
    } else if e.Prune? {
      PruneAdvances(c, s);
    } else if !e.InboundArrive? {
      StepForward(c, s, e);
    }
  }

  lemma PruneAdvances(c: Config, s: State)
    requires TombsInv(c, s)
    ensures Advances(s, PruneStep(c, s))
  {
  }

  lemma StepForward(c: Config, s: State, e: Event)
    requires Inv(c, s)
    requires !(e.Prune? || e.InboundArrive? || e.SubmitInsert?)
    ensures Forward(s, Step(c, s, e))
  {
    if SendLoopEvent(e) { SendLoopKeeps(c, s, e); }
    else if e.PollCommit? { PollCommitKeeps(c, s, e.updates); }
    else if e.ReceiptCommit? { ReceiptCommitKeeps(c, s, e.rid); }
    else if e.Crash? { CrashKeeps(c, s); }
    else { QuietForward(c, s, e); }
  }

  lemma QuietForward(c: Config, s: State, e: Event)
    requires e.Tick? || e.SubmitLookup? || e.SubmitRecover? || e.PollRead? || e.PollFault? || e.ReceiptRead?
    ensures Forward(s, Step(c, s, e))
  {
    if e.SubmitLookup? {
      LookupForward(s, e.rid, e.service, e.key, e.topics, e.found);
    } else if e.SubmitRecover? {
      RecoverForward(s, e.rid, e.found);
    } else if e.PollRead? || e.ReceiptRead? {
      ReadForward(c, s, e);
    }
  }

  lemma ReadForward(c: Config, s: State, e: Event)
    requires e.PollRead? || e.ReceiptRead?
    ensures Forward(s, Step(c, s, e))
  {
  }

  lemma LookupForward(s: State, rid: Rid, service: string, key: Option<string>, topics: seq<Option<string>>,
                      found: Option<Id>)
    ensures Forward(s, LookupStep(s, rid, service, key, topics, found))
  {
  }

  lemma RecoverForward(s: State, rid: Rid, found: Option<Id>)
    ensures Forward(s, RecoverStep(s, rid, found))
  {
  }

  lemma AdvancesTransitive(s: State, t: State, u: State)
    requires Advances(s, t) && Advances(t, u)
    ensures Advances(s, u)
  {
  }

  lemma {:induction false} RunAdvances(c: Config, s: State, es: seq<Event>)
    requires Inv(c, s)
    ensures Advances(s, Run(c, s, es))
    decreases |es|
  {
    if es != [] {
      var t := Step(c, s, es[0]);
      StepKeeps(c, s, es[0]);
      StepAdvances(c, s, es[0]);
      RunAdvances(c, t, es[1..]);
      AdvancesTransitive(s, t, Run(c, t, es[1..]));
    }
  }

  /** A message's phase (waiting, sent, terminal) never falls, whatever is interleaved or lost; so the set of
      terminal statuses is closed, and a terminal message can only stay or be pruned as terminal. */
  lemma PhaseMonotone(c: Config, s: State, es: seq<Event>, id: Id)
    requires Reachable(c, s) && id in s.cells
    ensures var t := Run(c, s, es);
      || (id in t.cells && Phase(s.cells[id].row.status) <= Phase(t.cells[id].row.status))
      || (id in t.tombs && Terminal(t.tombs[id].cell.row.status))
    ensures var t := Run(c, s, es);
      Terminal(s.cells[id].row.status) && id in t.cells ==> Terminal(t.cells[id].row.status)
  {
    ReachableInv(c, s);
    RunAdvances(c, s, es);
    RunKeeps(c, s, es);
  }

  // ---------- individual terminal statuses can still change ----------

  /** A row that is SENT with a provider id no other row has, recently, and no status poll under way. */
  ghost predicate Pollable(s: State, id: Id, pid: string) {
    && id in s.cells && Polled(s.cells[id].row, s.now) && s.cells[id].row.pid == Some(pid)
    && s.poll == None && OnlyWithPid(s, pid, id)
  }

  /** From every such state there is a continuation in which the row is DELIVERED and afterwards FAILED: the status loop
      reads it, a receipt arrives, and the status loop then commits what it read. */
  lemma TerminalStatusNotAbsorbing(c: Config, s: State, rid: Rid, id: Id, pid: string)
    requires Pollable(s, id, pid) && rid !in s.receipts
    ensures var first := [PollRead, ReceiptRead(rid, pid, id), ReceiptCommit(rid)];
      var t, u := Run(c, s, first), Run(c, s, first + [PollCommit(map[id := Failed])]);
      id in t.cells && t.cells[id].row.status == Delivered && id in u.cells && u.cells[id].row.status == Failed
  {
    var e0, e1, e2, e3 := PollRead, ReceiptRead(rid, pid, id), ReceiptCommit(rid), PollCommit(map[id := Failed]);
    var s1 := Step(c, s, e0);
    assert id in s1.poll.value && s1 == s.(poll := s1.poll);
    var s2 := Step(c, s1, e1);
    assert s2 == s1.(receipts := s1.receipts[rid := Loaded(id, Sent)]);
    var s3 := Step(c, s2, e2);
    assert s3.cells[id].row.status == Delivered && s3.poll == s1.poll;
    RunThree(c, s, e0, e1, e2);
    RunAppend(c, s, [e0, e1, e2], [e3]);
    RunOne(c, s3, e3);
    FinalPoll(c, s3, id);
  }

  lemma FinalPoll(c: Config, s: State, id: Id)
    requires id in s.cells && s.poll.Some? && id in s.poll.value
    ensures var t := Step(c, s, PollCommit(map[id := Failed])); id in t.cells && t.cells[id].row.status == Failed
  {
    assert map[id := Failed].Keys == {id};
  }

  lemma RunOne(c: Config, s: State, e: Event)
    ensures Run(c, s, [e]) == Step(c, s, e)
  {
    assert [e][1..] == [];
  }

  lemma {:induction false} RunAppend(c: Config, s: State, a: seq<Event>, b: seq<Event>)
    ensures Run(c, s, a + b) == Run(c, Run(c, s, a), b)
    decreases |a|
  {
    if a == [] {
      assert a + b == b;
    } else {
      assert (a + b)[0] == a[0] && (a + b)[1..] == a[1..] + b;
      RunAppend(c, Step(c, s, a[0]), a[1..], b);
    }
  }

  lemma RunThree(c: Config, s: State, a: Event, b: Event, d: Event)
    ensures Run(c, s, [a, b, d]) == Step(c, Step(c, Step(c, s, a), b), d)
  {
    var s1 := Step(c, s, a);
    var s2 := Step(c, s1, b);
    assert [a, b, d][1..] == [b, d] && [b, d][1..] == [d] && [d][1..] == [];
    assert Run(c, s2, [d]) == Step(c, s2, d);
    assert Run(c, s1, [b, d]) == Run(c, s2, [d]);
  }

  /** A writer holding an old read of the row, which will write a different status when it commits. */
  predicate StaleWrite(s: State, e: Event, id: Id) {
    id in s.cells &&
    match e
    case PollCommit(updates) =>
      Legal(s, updates) && updates.Keys <= s.cells.Keys && id in updates && updates[id] != s.cells[id].row.status
    case ReceiptCommit(rid) =>
      rid in s.receipts && s.receipts[rid].id == id && !s.receipts[rid].status.Delivered?
        && !s.cells[id].row.status.Delivered?
    case _ => false
  }

  /** Exactly two kinds of event ever move a row out of a terminal status: a status poll or a receipt that read the row
      earlier. */
  lemma TerminalStatusLeftIff(c: Config, s: State, e: Event, id: Id)
    requires Reachable(c, s) && id in s.cells && Terminal(s.cells[id].row.status)
    ensures var t := Step(c, s, e);
      (id in t.cells && t.cells[id].row.status != s.cells[id].row.status) <==> StaleWrite(s, e, id)
  {
    if SendLoopEvent(e) || e.Crash? {
      ReachableInv(c, s);
      SendLoopLeavesOthers(c, s, e, id);
    } else if e.SubmitInsert? {
      InsertOnlyAdds(s, e.rid, e.ids, e.clash);
    } else {
      OverwritesAreStale(c, s, e, id);
    }
  }

  lemma OverwritesAreStale(c: Config, s: State, e: Event, id: Id)
    requires EnvEvent(e) && !e.SubmitInsert? && id in s.cells
    ensures var t := Step(c, s, e);
      (id in t.cells && t.cells[id].row.status != s.cells[id].row.status) <==> StaleWrite(s, e, id)
  {
  }

  /** What the send loop has in memory has not left the queue. */
  ghost predicate HandPending(s: State) {
    && (s.hand.Requeueing? ==> forall id | id in s.hand.ids && id in s.cells :: Pending(s.cells[id].row.status))
    && (s.hand.Claiming? && s.hand.id in s.cells ==> Pending(s.cells[s.hand.id].row.status))
    && (s.hand.Holding? && s.hand.id in s.cells ==> Pending(s.cells[s.hand.id].row.status))
  }

  lemma HandIsPending(c: Config, s: State)
    requires Inv(c, s)
    ensures HandPending(s)
  {
    if s.hand.Holding? {
      assert CellInv(c, s.now, s.cells[s.hand.id], s.hand.stage);
    }
  }

  lemma SendLoopHands(c: Config, s: State, e: Event)
    requires SendLoopEvent(e) || e.Crash?
    ensures Step(c, s, e).poll in {s.poll, None} && Step(c, s, e).receipts in {s.receipts, map[]}
  {
  }

  lemma HandLeavesOthers(c: Config, s: State, e: Event, id: Id)
    requires HandPending(s) && (SendLoopEvent(e) || e.Crash?) && id in s.cells && !Pending(s.cells[id].row.status)
    ensures id in Step(c, s, e).cells && Step(c, s, e).cells[id] == s.cells[id]
  {
  }

  /** The send loop touches no row that has left the queue. */
  lemma SendLoopLeavesOthers(c: Config, s: State, e: Event, id: Id)
    requires Inv(c, s) && (SendLoopEvent(e) || e.Crash?) && id in s.cells && !Pending(s.cells[id].row.status)
    ensures id in Step(c, s, e).cells && Step(c, s, e).cells[id] == s.cells[id]
    ensures Step(c, s, e).poll in {s.poll, None} && Step(c, s, e).receipts in {s.receipts, map[]}
  {
    HandIsPending(c, s);
    HandLeavesOthers(c, s, e, id);
    SendLoopHands(c, s, e);
  }

  // ---------- ownership ----------

  /** Everything that is neither the send loop nor a crash: handlers, status loop, prune loop, the clock. */
  predicate EnvEvent(e: Event) { !SendLoopEvent(e) && !e.Crash? }

  lemma EnvStepKeepsPending(c: Config, s: State, e: Event, id: Id)
    requires StaleInv(s) && TombsInv(c, s) && EnvEvent(e) && id in s.cells && Pending(s.cells[id].row.status)
    ensures var t := Step(c, s, e);
      id in t.cells && t.cells[id] == s.cells[id] && t.hand == s.hand
  {
    if e.SubmitInsert? {
      InsertOnlyAdds(s, e.rid, e.ids, e.clash);
    }
  }

  /** While a message is QUEUED or SENDING nothing but the send loop touches its row or its history. */
  lemma {:induction false} OnlySendLoopTouchesPending(c: Config, s: State, es: seq<Event>, id: Id)
    requires Inv(c, s) && (forall i | 0 <= i < |es| :: EnvEvent(es[i]))
    requires id in s.cells && Pending(s.cells[id].row.status)
    ensures var t := Run(c, s, es);
      id in t.cells && t.cells[id] == s.cells[id] && t.hand == s.hand
    decreases |es|
  {
    if es != [] {
      EnvStepKeepsPending(c, s, es[0], id);
      StepKeeps(c, s, es[0]);
      OnlySendLoopTouchesPending(c, Step(c, s, es[0]), es[1..], id);
    }
  }

  /** In every reachable state a pending row has no provider id; what the send loop loaded is the committed row, and so
      is its copy until an answer is assigned to it; and its next commit loses nobody's update: it leaves exactly the
      copy. */
  lemma Ownership(c: Config, s: State, id: Id)
    requires Reachable(c, s) && id in s.cells
    ensures Pending(s.cells[id].row.status) ==>
      s.cells[id].row.pid == None && s.cells[id].row.direction.Outbound? && !Polled(s.cells[id].row, s.now)
        && !Expired(c, s.cells[id].row, s.now)
    ensures s.hand.Holding? && s.hand.id == id ==> s.cells[id].row == s.hand.base && s.cells[id].row.status.Sending?
    ensures s.hand.Holding? && s.hand.id == id && !Dirty(s.hand.stage) ==> s.hand.copy == s.cells[id].row
    ensures s.hand.Holding? && s.hand.id == id && Dirty(s.hand.stage) ==>
      CommitStep(s).cells[id].row == s.hand.copy.(updated := s.now)
  {
    ReachableInv(c, s);
  }

  /** Whatever else runs - other messages' requests, sweeps with any threshold, polls, receipts, retention - the row of
      the message in hand stays as it was loaded, in hand, until the send loop itself commits or lets go. */
  lemma {:induction false} HeldChangesOnlyByItsCommit(c: Config, s: State, es: seq<Event>)
    requires Inv(c, s) && s.hand.Holding?
    requires forall i | 0 <= i < |es| :: !es[i].Commit? && !es[i].SendFault? && !es[i].Crash?
    ensures var t := Run(c, s, es);
      && t.hand.Holding? && t.hand.id == s.hand.id && t.hand.base == s.hand.base
      && s.hand.id in t.cells && t.cells[s.hand.id].row == s.cells[s.hand.id].row == s.hand.base
    decreases |es|
  {
    if es != [] {
      StepKeeps(c, s, es[0]);
      HeldStep(c, s, es[0]);
      HeldChangesOnlyByItsCommit(c, Step(c, s, es[0]), es[1..]);
    }
  }

  lemma HeldStep(c: Config, s: State, e: Event)
    requires Inv(c, s) && s.hand.Holding? && !e.Commit? && !e.SendFault? && !e.Crash?
    ensures var t := Step(c, s, e);
      && t.hand.Holding? && t.hand.id == s.hand.id && t.hand.base == s.hand.base
      && s.hand.id in t.cells && t.cells[s.hand.id].row == s.cells[s.hand.id].row
  {
    if EnvEvent(e) {
      assert CellInv(c, s.now, s.cells[s.hand.id], s.hand.stage);
      EnvStepKeepsPending(c, s, e, s.hand.id);
    } else {
      HeldOwnStep(c, s, e);
    }
  }

  lemma HeldOwnStep(c: Config, s: State, e: Event)
    requires SendLoopEvent(e) && s.hand.Holding? && s.hand.id in s.cells && !e.Commit? && !e.SendFault?
    ensures var t := Step(c, s, e);
      && t.hand.Holding? && t.hand.id == s.hand.id && t.hand.base == s.hand.base
      && s.hand.id in t.cells && t.cells[s.hand.id].row == s.cells[s.hand.id].row
  {
  }

  // ---------- one-way channel choice ----------

  /** Publishes come first, then at most one fallback, then SMS calls; a routed message's fallback is on record before
      its first SMS call; PUBLISHED means no SMS call was ever made; a topic means ntfy or sms-fallback. */
  lemma OneWayChannel(c: Config, s: State, id: Id)
    requires Reachable(c, s) && id in s.cells
    ensures var x := s.cells[id];
      && (x.row.topic.Some? <==> x.row.transport.Ntfy? || x.row.transport.SmsFallback?)
      && (forall i, j | 0 <= i < |x.trace| && 0 <= j < |x.trace| && x.trace[i] == Publish
        && x.trace[j] == SmsCall :: i < j)
      && (forall j | 0 <= j < |x.trace| && x.trace[j] == SmsCall && x.row.topic.Some? ::
            exists i :: 0 <= i < j && x.trace[i] == Fallback)
      && (forall i, j | 0 <= i < |x.trace| && 0 <= j < |x.trace| && x.trace[i] == Fallback
        && x.trace[j] == Fallback :: i == j)
      && (x.row.status.Published? ==> SmsCall !in x.trace && Fallback !in x.trace)
  {
    ReachableInv(c, s);
    var x := s.cells[id];
    assert CellInv(c, s.now, x, StageOf(s.hand, id));
    forall i, j | 0 <= i < |x.trace| && 0 <= j < |x.trace| && x.trace[i] == Publish && x.trace[j] == SmsCall
      ensures i < j {
      assert !(j < i) by { if j < i { assert Blocks(x.trace[j], x.trace[i]); } }
    }
    forall i, j | 0 <= i < |x.trace| && 0 <= j < |x.trace| && x.trace[i] == Fallback && x.trace[j] == Fallback
      ensures i == j {
    }
    forall j | 0 <= j < |x.trace| && x.trace[j] == SmsCall && x.row.topic.Some?
      ensures exists i :: 0 <= i < j && x.trace[i] == Fallback
    {
      assert Fallback in x.trace;
      var i :| 0 <= i < |x.trace| && x.trace[i] == Fallback;
      if j < i { assert Blocks(x.trace[j], x.trace[i]); }
    }
  }

  // ---------- duplicates, attempts, spacing ----------

  lemma {:induction false} FallbackCount(trace: seq<Act>)
    requires Ordered(trace)
    ensures Count(trace).fallbacks <= 1 && (Fallback !in trace ==> Count(trace).fallbacks == 0)
  {
    if trace != [] {
      var n := |trace| - 1;
      FallbackCount(trace[..n]);
      if trace[n] == Fallback {
        assert forall i | 0 <= i < n :: !Blocks(trace[i], trace[n]);
        assert Fallback !in trace[..n];
      }
    }
  }

  /** Every SMS call is a committed attempt, a lost one, or the one in flight; at most one attempt was committed as
      accepted, and never together with a publication. So calls beyond the first committed success are errors or losses.
      Every ntfy call is a committed publication, one that led to the committed fallback, a lost one, or the one in
      flight; so but for losses there is at most one. */
  lemma DuplicateAccounting(c: Config, s: State, id: Id)
    requires Reachable(c, s) && id in s.cells
    ensures var x, t := s.cells[id], Count(s.cells[id].trace);
      && t.calls == x.row.attempts + t.loses + InFlight(StageOf(s.hand, id))
      && x.row.attempts == t.accepts + |x.errs|
      && t.accepts + t.publications <= 1
      && t.calls - |x.errs| <= 1 + t.loses
      && (Pending(x.row.status) ==> t.accepts == 0 && t.publications == 0)
      && t.publishes == t.publications + t.fallbacks + t.lostPublishes + PublishInFlight(StageOf(s.hand, id))
      && t.publishes <= 1 + t.lostPublishes
  {
    ReachableInv(c, s);
    assert CellInv(c, s.now, s.cells[id], StageOf(s.hand, id));
    FallbackCount(s.cells[id].trace);
  }

  /** A pending message has attempts left, none ever exceeds the limit, and it is claimed at most once per allowed
      attempt plus once per fault. Without faults it has left the queue once it has been claimed and let go of
      `max(1, max_attempts)` times. */
  lemma AttemptsAndClaimsBounded(c: Config, s: State, id: Id)
    requires Reachable(c, s) && id in s.cells
    ensures var x, t := s.cells[id], Count(s.cells[id].trace);
      && x.row.attempts <= Max(1, c.maxAttempts)
      && (Pending(x.row.status) ==> x.row.attempts < Max(1, c.maxAttempts))
      && t.calls <= Max(1, c.maxAttempts) + t.loses
      && t.claims <= Max(1, c.maxAttempts) + t.loses + t.lostPublishes + t.drops
      && (Pending(x.row.status) && StageOf(s.hand, id).Free? ==>
            t.claims < Max(1, c.maxAttempts) + t.loses + t.lostPublishes + t.drops)
  {
    ReachableInv(c, s);
    assert CellInv(c, s.now, s.cells[id], StageOf(s.hand, id));
  }

  /** Even across crashes, a claim made after the i-th committed failure comes at least backoff(i) later, and so does
      the next committed failure. */
  lemma RetrySpacing(c: Config, s: State, id: Id)
    requires Reachable(c, s) && id in s.cells
    ensures var x := s.cells[id];
      && (forall p | 0 <= p < |x.trace| && x.trace[p].Claim? && x.trace[p].failures > 0 ::
            && x.trace[p].failures <= |x.errs|
            && x.trace[p].at >= x.errs[x.trace[p].failures - 1] + SendSeconds(x.trace[p].failures))
      && (forall i | 0 < i < |x.errs| :: x.errs[i] >= x.errs[i - 1] + SendSeconds(i))
  {
    ReachableInv(c, s);
    var x := s.cells[id];
    assert CellInv(c, s.now, x, StageOf(s.hand, id));
    forall p | 0 <= p < |x.trace| ensures ClaimRested(x.trace[p], x.errs) {}
  }

  /** Exhausting a message takes at least the whole schedule: 30(2^n - 1) seconds for n <= 5 waits, 930 + 900(n - 5)
      beyond. */
  lemma ExhaustionTakesTheSchedule(c: Config, s: State, id: Id)
    requires Reachable(c, s) && id in s.cells && |s.cells[id].errs| == Max(1, c.maxAttempts)
    ensures var n, errs := Max(1, c.maxAttempts) - 1, s.cells[id].errs;
      errs[n] - errs[0] >= if n <= 5 then 30 * (Pow2(n) - 1) else 930 + 900 * (n - 5)
  {
    ReachableInv(c, s);
    assert CellInv(c, s.now, s.cells[id], StageOf(s.hand, id));
    SpacedTotal(s.cells[id].errs, Max(1, c.maxAttempts) - 1, SEND_CAP);
    SendTotalClosedForm(Max(1, c.maxAttempts) - 1);
  }

  // ---------- crash recovery ----------

  lemma EnvRunMovesTime(c: Config, s: State, es: seq<Event>)
    requires Inv(c, s)
    ensures Inv(c, Run(c, s, es)) && s.now <= Run(c, s, es).now
  {
    RunKeeps(c, s, es);
    RunAdvances(c, s, es);
  }

  /** A crash leaves a held message exactly as committed, only its history notes the loss. */
  lemma CrashOrphans(c: Config, s: State, id: Id)
    requires Reachable(c, s) && id in s.cells
    ensures var t := Step(c, s, Crash);
      && t.hand == Top && t.poll == None && t.receipts == map[] && t.requests == map[]
      && t.cells.Keys == s.cells.Keys && t.tombs == s.tombs && t.replies == s.replies
      && t.cells[id].row == s.cells[id].row && t.cells[id].errs == s.cells[id].errs
      && (t.cells[id].trace == s.cells[id].trace <==> !(s.hand.Holding? && s.hand.id == id))
  {
  }

  /** A sweep that starts with the row stuck returns it to the queue, whatever runs between its read and its commit. */
  lemma SweepRequeues(c: Config, s: State, id: Id, during: seq<Event>)
    requires Inv(c, s) && s.hand.Top? && id in s.cells && Stuck(c, s.cells[id].row, s.now)
    requires forall i | 0 <= i < |during| :: EnvEvent(during[i])
    ensures var t := Step(c, Run(c, Step(c, s, RequeueRead), during), RequeueCommit);
      && id in t.cells && t.cells[id] == s.cells[id].(row := Requeued(s.cells[id].row, s.now, t.now))
      && s.now <= t.now && t.hand == Swept
  {
    var s3 := Step(c, s, RequeueRead);
    SweepReads(c, s, id);
    OnlySendLoopTouchesPending(c, s3, during, id);
    EnvRunMovesTime(c, s3, during);
    SweepCommits(c, Run(c, s3, during), id);
  }

  lemma SweepReads(c: Config, s: State, id: Id)
    requires Inv(c, s) && s.hand.Top? && id in s.cells && Stuck(c, s.cells[id].row, s.now)
    ensures var t := Step(c, s, RequeueRead);
      Inv(c, t) && t.hand == Requeueing(StuckIds(c, s), s.now) && id in t.hand.ids && t.cells == s.cells
        && t.now == s.now
  {
    StepKeeps(c, s, RequeueRead);
    assert id in StuckIds(c, s);
  }

  lemma SweepCommits(c: Config, s: State, id: Id)
    requires HandInv(c, s) && s.hand.Requeueing? && id in s.hand.ids
    ensures var t := Step(c, s, RequeueCommit);
      id in t.cells && t.cells[id] == s.cells[id].(row := Requeued(s.cells[id].row, s.hand.at, s.now))
        && t.hand == Swept && t.now == s.now
  {
  }

  /** A SENDING row that the send loop has lost: neither in hand nor about to be requeued. */
  ghost predicate Orphan(s: State, id: Id) {
    && id in s.cells && s.cells[id].row.status.Sending?
    && !(s.hand.Holding? && s.hand.id == id) && !(s.hand.Claiming? && s.hand.id == id)
    && !(s.hand.Requeueing? && id in s.hand.ids)
  }

  /** No sweep of the run looks at the clock after `limit`. */
  ghost predicate SweepsOnlyUntil(c: Config, s: State, es: seq<Event>, limit: int)
    decreases |es|
  {
    es == [] || ((es[0].RequeueRead? ==> s.now <= limit) && SweepsOnlyUntil(c, Step(c, s, es[0]), es[1..], limit))
  }

  lemma OrphanStep(c: Config, s: State, e: Event, id: Id)
    requires Inv(c, s) && Orphan(s, id) && (e.RequeueRead? ==> s.now <= s.cells[id].row.updated + c.stuckAfter)
    ensures var t := Step(c, s, e); Orphan(t, id) && t.cells[id] == s.cells[id]
  {
    if EnvEvent(e) {
      EnvStepKeepsPending(c, s, e, id);
    } else {
      OrphanOwnStep(c, s, e, id);
    }
  }

  lemma OrphanOwnStep(c: Config, s: State, e: Event, id: Id)
    requires !EnvEvent(e) && Orphan(s, id) && (e.RequeueRead? ==> s.now <= s.cells[id].row.updated + c.stuckAfter)
    ensures var t := Step(c, s, e); Orphan(t, id) && t.cells[id] == s.cells[id]
  {
    if e.RequeueRead? || e.RequeueCommit? {
      OrphanNotSwept(c, s, e, id);
    } else {
      OrphanNotHeld(c, s, e, id);
    }
  }

  lemma OrphanNotSwept(c: Config, s: State, e: Event, id: Id)
    requires Orphan(s, id) && (e.RequeueRead? || e.RequeueCommit?)
    requires e.RequeueRead? ==> s.now <= s.cells[id].row.updated + c.stuckAfter
    ensures var t := Step(c, s, e); Orphan(t, id) && t.cells[id] == s.cells[id]
  {
    assert e.RequeueRead? ==> id !in StuckIds(c, s);
  }

  lemma OrphanNotHeld(c: Config, s: State, e: Event, id: Id)
    requires !EnvEvent(e) && !e.RequeueRead? && !e.RequeueCommit? && Orphan(s, id)
    ensures var t := Step(c, s, e); Orphan(t, id) && t.cells[id] == s.cells[id]
  {
    if e.ClaimRead? || e.ClaimNone? || e.ClaimCommit? {
      OrphanNotClaimed(c, s, e, id);
    } else if e.Commit? || e.SendFault? || e.Crash? {
      OrphanNotSettled(c, s, e, id);
    }
  }

  lemma OrphanNotClaimed(c: Config, s: State, e: Event, id: Id)
    requires Orphan(s, id) && (e.ClaimRead? || e.ClaimNone? || e.ClaimCommit?)
    ensures var t := Step(c, s, e); Orphan(t, id) && t.cells[id] == s.cells[id]
  {
  }

  lemma OrphanNotSettled(c: Config, s: State, e: Event, id: Id)
    requires Orphan(s, id) && (e.Commit? || e.SendFault? || e.Crash?)
    ensures var t := Step(c, s, e); Orphan(t, id) && t.cells[id] == s.cells[id]
  {
  }

  /** The restarted send loop may work through any number of other messages, and the process may crash again: until a
      sweep looks past the threshold, an orphan stays exactly as it was left. */
  lemma {:induction false} OrphanStays(c: Config, s: State, es: seq<Event>, id: Id)
    requires Inv(c, s) && Orphan(s, id)
    requires SweepsOnlyUntil(c, s, es, s.cells[id].row.updated + c.stuckAfter)
    ensures Orphan(Run(c, s, es), id) && Run(c, s, es).cells[id] == s.cells[id]
    decreases |es|
  {
    if es != [] {
      OrphanStep(c, s, es[0], id);
      StepKeeps(c, s, es[0]);
      OrphanStays(c, Step(c, s, es[0]), es[1..], id);
    }
  }

  /** In particular it stays so over every run that ends before the clock passes the threshold. */
  lemma OrphanStaysUntilThreshold(c: Config, s: State, es: seq<Event>, id: Id)
    requires Reachable(c, s) && Orphan(s, id) && Run(c, s, es).now <= s.cells[id].row.updated + c.stuckAfter
    ensures Orphan(Run(c, s, es), id) && Run(c, s, es).cells[id] == s.cells[id]
  {
    ReachableInv(c, s);
    EarlyRunsSweepEarly(c, s, es, s.cells[id].row.updated + c.stuckAfter);
    OrphanStays(c, s, es, id);
  }

  /** A run that ends before the threshold has no sweep past it. */
  lemma {:induction false} EarlyRunsSweepEarly(c: Config, s: State, es: seq<Event>, limit: int)
    requires Inv(c, s) && Run(c, s, es).now <= limit
    ensures SweepsOnlyUntil(c, s, es, limit)
    decreases |es|
  {
    if es != [] {
      EnvRunMovesTime(c, s, es);
      StepKeeps(c, s, es[0]);
      EarlyRunsSweepEarly(c, Step(c, s, es[0]), es[1..], limit);
    }
  }

  /** A SENDING row carries the time of its last claim, unless a fallback has been committed since; then it is newer. */
  lemma SendingSinceClaim(c: Config, s: State, id: Id)
    requires Reachable(c, s) && id in s.cells && s.cells[id].row.status.Sending?
    ensures var x := s.cells[id];
      && LastClaim(x.trace).Some? && LastClaim(x.trace).value <= x.row.updated <= s.now
      && (!FellBackSinceClaim(x.trace) ==> x.row.updated == LastClaim(x.trace).value)
  {
    ReachableInv(c, s);
    assert CellInv(c, s.now, s.cells[id], StageOf(s.hand, id));
  }

  lemma {:induction false} EarlierLimit(c: Config, s: State, es: seq<Event>, limit: int, later: int)
    requires SweepsOnlyUntil(c, s, es, limit) && limit <= later
    ensures SweepsOnlyUntil(c, s, es, later)
    decreases |es|
  {
    if es != [] {
      EarlierLimit(c, Step(c, s, es[0]), es[1..], limit, later);
    }
  }

  /** The threshold runs from the claim: an orphan is untouched over every run whose sweeps look at the clock no later
      than `stuckAfter` after its last claim. */
  lemma OrphanStaysSinceClaim(c: Config, s: State, es: seq<Event>, id: Id)
    requires Reachable(c, s) && Orphan(s, id) && LastClaim(s.cells[id].trace).Some?
    requires SweepsOnlyUntil(c, s, es, LastClaim(s.cells[id].trace).value + c.stuckAfter)
    ensures Orphan(Run(c, s, es), id) && Run(c, s, es).cells[id] == s.cells[id]
  {
    ReachableInv(c, s);
    SendingSinceClaim(c, s, id);
    var limit := LastClaim(s.cells[id].trace).value + c.stuckAfter;
    EarlierLimit(c, s, es, limit, s.cells[id].row.updated + c.stuckAfter);
    OrphanStays(c, s, es, id);
  }

  /** From when a SENDING message may be taken for stuck: its last claim, or the fallback committed since. */
  function ClockStart(x: Cell): int {
    if LastClaim(x.trace).Some? && !FellBackSinceClaim(x.trace) then LastClaim(x.trace).value else x.row.updated
  }

  /** After a crash at any point, whatever the restarted system does - passes of the send loop over other messages,
      further crashes, all the other tasks - the first sweep that looks at the clock later than `stuckAfter` after the
      message's last claim (or the fallback committed since) returns it to the queue, due at once, with attempts,
      transport and history as they were. */
  lemma CrashRecovery(c: Config, s: State, id: Id, before: seq<Event>, during: seq<Event>)
    requires Reachable(c, s) && id in s.cells && s.cells[id].row.status.Sending?
    requires SweepsOnlyUntil(c, Step(c, s, Crash), before, ClockStart(s.cells[id]) + c.stuckAfter)
    requires Run(c, Step(c, s, Crash), before).hand.Top?
    requires Run(c, Step(c, s, Crash), before).now > ClockStart(s.cells[id]) + c.stuckAfter
    requires forall i | 0 <= i < |during| :: EnvEvent(during[i])
    ensures var down := Step(c, s, Crash);
      var t := Step(c, Run(c, Step(c, Run(c, down, before), RequeueRead), during), RequeueCommit);
      && id in t.cells && t.cells[id].row.next.Some? && t.cells[id].row.next.value <= t.now
      && t.cells[id].row == s.cells[id].row.(status := Queued, next := t.cells[id].row.next, updated := t.now)
      && t.cells[id].trace == down.cells[id].trace && t.cells[id].errs == s.cells[id].errs
      && t.hand == Swept
  {
    ReachableInv(c, s);
    CrashOrphans(c, s, id);
    SendingSinceClaim(c, s, id);
    StepKeeps(c, s, Crash);
    OrphanRecovers(c, Step(c, s, Crash), id, before, during);
  }

  lemma OrphanRecovers(c: Config, s: State, id: Id, before: seq<Event>, during: seq<Event>)
    requires Inv(c, s) && Orphan(s, id)
    requires SweepsOnlyUntil(c, s, before, s.cells[id].row.updated + c.stuckAfter)
    requires Run(c, s, before).hand.Top? && Run(c, s, before).now > s.cells[id].row.updated + c.stuckAfter
    requires forall i | 0 <= i < |during| :: EnvEvent(during[i])
    ensures var t := Step(c, Run(c, Step(c, Run(c, s, before), RequeueRead), during), RequeueCommit);
      && id in t.cells && t.hand == Swept && Due(t.cells[id].row, t.now)
      && exists at :: at <= t.now && t.cells[id] == s.cells[id].(row := Requeued(s.cells[id].row, at, t.now))
  {
    OrphanStays(c, s, before, id);
    EnvRunMovesTime(c, s, before);
    SweepRequeues(c, Run(c, s, before), id, during);
    assert s.cells[id].row.direction.Outbound? by { assert CellInv(c, s.now, s.cells[id], StageOf(s.hand, id)); }
  }

  // ---------- rows no writer has in memory ----------

  /** No status poll and no receipt handler holds an earlier read of the row. */
  ghost predicate Unread(s: State, id: Id) {
    && (s.poll.Some? ==> id !in s.poll.value)
    && (forall rid | rid in s.receipts :: s.receipts[rid].id != id)
  }

  lemma EnvLeavesUnread(c: Config, s: State, e: Event, id: Id)
    requires EnvEvent(e) && id in s.cells && Unread(s, id) && !(e.ReceiptRead? && e.target == id)
    requires !Polled(s.cells[id].row, s.now) && !Expired(c, s.cells[id].row, s.now)
    ensures var t := Step(c, s, e); id in t.cells && t.cells[id] == s.cells[id] && Unread(t, id)
  {
    if e.SubmitInsert? {
      InsertOnlyAdds(s, e.rid, e.ids, e.clash);
    }
  }

  lemma ExpiredIsBuried(c: Config, s: State, e: Event, id: Id)
    requires EnvEvent(e) && id in s.cells && Unread(s, id) && !(e.ReceiptRead? && e.target == id)
      && Expired(c, s.cells[id].row, s.now)
    ensures var t := Step(c, s, e); StillThere(s, id, s.cells[id]) && StillThere(t, id, s.cells[id])
  {
    if e.SubmitInsert? {
      InsertOnlyAdds(s, e.rid, e.ids, e.clash);
    }
  }

  /** The row is in the table exactly as it was, unread, or deleted exactly as it was. */
  ghost predicate StillThere(s: State, id: Id, x: Cell) {
    || (id in s.cells && s.cells[id] == x && Unread(s, id))
    || (id in s.tombs && s.tombs[id].cell == x)
  }

  lemma TombStays(c: Config, s: State, e: Event, id: Id)
    requires TombsInv(c, s) && id in s.tombs
    ensures id in Step(c, s, e).tombs && Step(c, s, e).tombs[id] == s.tombs[id]
  {
    if e.SubmitInsert? {
      InsertOnlyAdds(s, e.rid, e.ids, e.clash);
    }
  }

  /** A terminal status holds as long as no writer reads the row: unless a poll or receipt already has the row in
      memory, or a receipt for it is looked up later, the row stays exactly as it is until retention deletes it. */
  lemma {:induction false} TerminalHoldsWhileUnread(c: Config, s: State, es: seq<Event>, id: Id, x: Cell)
    requires Inv(c, s) && StillThere(s, id, x) && Terminal(x.row.status)
    requires forall i | 0 <= i < |es| :: !(es[i].ReceiptRead? && es[i].target == id)
    ensures StillThere(Run(c, s, es), id, x)
    decreases |es|
  {
    if es != [] {
      if id in s.tombs {
        TombStays(c, s, es[0], id);
      } else if SendLoopEvent(es[0]) || es[0].Crash? {
        SendLoopLeavesOthers(c, s, es[0], id);
      } else if Expired(c, x.row, s.now) {
        ExpiredIsBuried(c, s, es[0], id);
      } else {
        EnvLeavesUnread(c, s, es[0], id);
      }
      StepKeeps(c, s, es[0]);
      TerminalHoldsWhileUnread(c, Step(c, s, es[0]), es[1..], id, x);
    }
  }
}
