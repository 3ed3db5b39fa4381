/**
  No message starves: while a due message waits, every claim of another message uses up one of finitely many
  attempts of messages that are no younger.
 */
module QueueFairness {
  import opened Prelude
  import opened Messages
  import opened Queue
  import opened QueueInvariant
  import opened QueueSafety

  /** Claims message `id` may still take before it leaves the queue, not counting the one in hand. */
  function Weight(c: Config, s: State, id: Id): nat
    requires id in s.cells
  {
    var r := s.cells[id].row;
    if Pending(r.status) then Max(0, c.Limit() - r.attempts - InHand(StageOf(s.hand, id))) else 0
  }

  predicate Ahead(s: State, m: Id, id: Id)
    requires m in s.cells && id in s.cells
  {
    id != m && s.cells[id].row.created <= s.cells[m].row.created
  }

  function Weights(c: Config, s: State, m: Id): map<Id, nat>
    requires m in s.cells
  {
    map id | id in s.cells && Ahead(s, m, id) && Weight(c, s, id) > 0 :: Weight(c, s, id)
  }

  /** How many claims can still come before message `m` when nothing fails. */
  ghost function Potential(c: Config, s: State, m: Id): nat
    requires m in s.cells
  {
    Sum(Weights(c, s, m))
  }

  /** 1 if the event commits a claim. */
  function ClaimsMade(s: State, e: Event): nat {
    if e.ClaimCommit? && s.hand.Claiming? && s.hand.id in s.cells then 1 else 0
  }

  /** 1 if the event makes the send loop let go of a message it has claimed. */
  function Faults(s: State, e: Event): nat {
    if (e.SendFault? || e.Crash?) && s.hand.Holding? then 1 else 0
  }

  function ClaimsIn(c: Config, s: State, es: seq<Event>): nat
    decreases |es|
  {
    if es == [] then 0 else ClaimsMade(s, es[0]) + ClaimsIn(c, Step(c, s, es[0]), es[1..])
  }

  function FaultsIn(c: Config, s: State, es: seq<Event>): nat
    decreases |es|
  {
    if es == [] then 0 else Faults(s, es[0]) + FaultsIn(c, Step(c, s, es[0]), es[1..])
  }

  /** `m` is due, older than the present instant, and no younger message is about to be claimed before it. */
  ghost predicate Waiting(s: State, m: Id) {
    && m in s.cells && Due(s.cells[m].row, s.now) && s.cells[m].row.created < s.now
    && (s.hand.Claiming? && s.hand.id in s.cells ==> s.cells[s.hand.id].row.created <= s.cells[m].row.created)
  }

  // ---------- one event ----------

  /** Between `s` and `t` no message ahead of `m` gains weight, except perhaps `x`. */
  ghost predicate NoGain(c: Config, s: State, t: State, m: Id, x: Option<Id>)
    requires m in s.cells && m in t.cells
  {
    forall id | id in t.cells && Ahead(t, m, id) && Weight(c, t, id) > 0 && x != Some(id) ::
      id in s.cells && Ahead(s, m, id) && Weight(c, t, id) <= Weight(c, s, id)
  }

  lemma NoGainDominates(c: Config, s: State, t: State, m: Id)
    requires m in s.cells && m in t.cells && NoGain(c, s, t, m, None)
    ensures Dominated(Weights(c, t, m), Weights(c, s, m)) && Potential(c, t, m) <= Potential(c, s, m)
  {
    SumMonotone(Weights(c, t, m), Weights(c, s, m));
  }

  lemma EnvNoGain(c: Config, s: State, e: Event, m: Id)
    requires Inv(c, s) && EnvEvent(e) && Waiting(s, m)
    ensures var t := Step(c, s, e);
      m in t.cells && t.cells[m] == s.cells[m] && NoGain(c, s, t, m, None) && Waiting(t, m)
  {
    EnvStepKeepsPending(c, s, e, m);
    if s.hand.Claiming? {
      EnvStepKeepsPending(c, s, e, s.hand.id);
    }
    EnvRunMovesTime(c, s, [e]);
    RunOne(c, s, e);
    EnvArrivals(c, s, e);
    QueueNoGain(c, s, Step(c, s, e), m);
  }

  lemma EnvArrivals(c: Config, s: State, e: Event)
    requires EnvEvent(e)
    ensures QueuedBefore(s, Step(c, s, e))
  {
    if e.SubmitInsert? {
      InsertOnlyAdds(s, e.rid, e.ids, e.clash);
    } else {
      EnvWeights(c, s, e);
    }
  }

  /** Whatever is pending in `t` was pending in `s` with the same age and attempts, or has only just arrived. */
  ghost predicate QueuedBefore(s: State, t: State) {
    forall id | id in t.cells && Pending(t.cells[id].row.status) ::
      (id in s.cells && Pending(s.cells[id].row.status) && t.cells[id].row.created == s.cells[id].row.created
         && t.cells[id].row.attempts == s.cells[id].row.attempts)
      || t.cells[id].row.created == s.now
  }

  lemma QueueNoGain(c: Config, s: State, t: State, m: Id)
    requires m in s.cells && m in t.cells && t.cells[m] == s.cells[m] && t.hand == s.hand
      && s.cells[m].row.created < s.now
    requires QueuedBefore(s, t)
    ensures NoGain(c, s, t, m, None)
  {
  }

  lemma EnvWeights(c: Config, s: State, e: Event)
    requires EnvEvent(e) && !e.SubmitInsert?
    ensures var t := Step(c, s, e);
      forall id | id in t.cells && Pending(t.cells[id].row.status) ::
        id in s.cells && Pending(s.cells[id].row.status) && t.hand == s.hand
        && t.cells[id].row.created == s.cells[id].row.created && t.cells[id].row.attempts == s.cells[id].row.attempts
  {
  }

  /** The sweep and the claim's read leave every message's remaining attempts alone. */
  ghost predicate SweptOver(s: State, t: State) {
    && t.now == s.now && t.cells.Keys == s.cells.Keys && (forall id :: StageOf(t.hand, id) == StageOf(s.hand, id))
    && (forall id | id in s.cells && !s.cells[id].row.status.Sending? :: t.cells[id] == s.cells[id])
    && (forall id | id in s.cells :: t.cells[id].row.created == s.cells[id].row.created
          && t.cells[id].row.attempts == s.cells[id].row.attempts
          && (Pending(t.cells[id].row.status) ==> Pending(s.cells[id].row.status)))
    && (t.hand.Claiming? && t.hand != s.hand ==> OldestDue(s, t.hand.id))
  }

  lemma RequeueWeights(s: State)
    requires s.hand.Requeueing? ==> forall id | id in s.hand.ids && id in s.cells :: s.cells[id].row.status.Sending?
    ensures SweptOver(s, RequeueCommitStep(s))
  {
  }

  lemma SweepWeights(c: Config, s: State, e: Event)
    requires HandInv(c, s)
    requires e.RequeueRead? || e.RequeueCommit? || e.ClaimRead? || e.ClaimNone?
    ensures SweptOver(s, Step(c, s, e))
  {
    if e.RequeueCommit? {
      RequeueWeights(s);
    }
  }

  lemma SweepNoGain(c: Config, s: State, e: Event, m: Id)
    requires HandInv(c, s) && Waiting(s, m)
    requires e.RequeueRead? || e.RequeueCommit? || e.ClaimRead? || e.ClaimNone?
    ensures var t := Step(c, s, e);
      m in t.cells && t.cells[m] == s.cells[m] && NoGain(c, s, t, m, None) && Waiting(t, m)
  {
    SweepWeights(c, s, e);
  }

  /** Calls and answers leave every row as it is and every other message's history alone. */
  ghost predicate RowsKept(s: State, t: State) {
    && t.now == s.now && t.cells.Keys == s.cells.Keys && (t.hand.Claiming? ==> t.hand == s.hand)
    && (forall id :: InHand(StageOf(t.hand, id)) == InHand(StageOf(s.hand, id)))
    && (forall id | id in s.cells :: t.cells[id].row == s.cells[id].row
          && (!s.cells[id].row.status.Sending? ==> t.cells[id] == s.cells[id]))
  }

  lemma CallWeights(s: State, act: Act, ntfy: bool, next: Stage)
    requires s.hand.Holding? && s.hand.id in s.cells ==> s.cells[s.hand.id].row.status.Sending?
    requires !next.Free?
    ensures RowsKept(s, CallStep(s, act, ntfy, next))
  {
  }

  lemma AnswerWeights(s: State, awaited: Stage, copy: Row, next: Stage)
    requires !awaited.Free? && !next.Free?
    ensures RowsKept(s, AnswerStep(s, awaited, copy, next))
  {
  }

  lemma HandWeights(c: Config, s: State, e: Event)
    requires s.hand.Holding? && s.hand.id in s.cells ==> s.cells[s.hand.id].row.status.Sending?
    requires e.PublishCall? || e.PublishOk? || e.PublishFail? || e.SmsGrant? || e.SmsOk? || e.SmsError?
    ensures RowsKept(s, Step(c, s, e))
  {
    match e
    case PublishCall => CallWeights(s, Publish, true, PublishOut);
    case SmsGrant => CallWeights(s, SmsCall, false, SmsOut);
    case PublishOk(receipt) => AnswerWeights(s, PublishOut, MarkedPublished(HandCopy(s), receipt, s.now),
      PublicationMade);
    case PublishFail => AnswerWeights(s, PublishOut, FallenBack(HandCopy(s)), FallbackChosen);
    case SmsOk(pid) => AnswerWeights(s, SmsOut, MarkedSent(HandCopy(s), pid, s.now), Settled(true, s.now));
    case SmsError(permanent) => AnswerWeights(s, SmsOut, MarkedError(c, HandCopy(s), permanent, s.now),
      Settled(false, s.now));
  }

  lemma RowsKeptNoGain(c: Config, s: State, t: State, m: Id)
    requires Waiting(s, m) && RowsKept(s, t)
    ensures m in t.cells && t.cells[m] == s.cells[m] && NoGain(c, s, t, m, None) && Waiting(t, m)
  {
  }

  lemma CommitWeights(c: Config, s: State)
    requires Inv(c, s) && s.hand.Holding? && Dirty(s.hand.stage)
    ensures var t, h := CommitStep(s), s.hand.id;
      && t.now == s.now && !t.hand.Claiming? && h in s.cells && s.cells[h].row.status.Sending?
      && t.cells == s.cells[h := t.cells[h]] && t.cells[h].row.created == s.cells[h].row.created
      && (forall id | id != h :: StageOf(t.hand, id) == StageOf(s.hand, id) == Free)
      && Weight(c, t, h) <= Weight(c, s, h)
  {
    CommittedCellKeeps(c, s);
  }

  /** Making or answering a call, or committing an answer, gives no message more claims than it had left. */
  lemma HandNoGain(c: Config, s: State, e: Event, m: Id)
    requires Inv(c, s) && Waiting(s, m)
    requires SendLoopEvent(e) && !(e.RequeueRead? || e.RequeueCommit? || e.ClaimRead? || e.ClaimNone? || e.ClaimCommit?
      || e.SendFault?)
    ensures var t := Step(c, s, e);
      m in t.cells && t.cells[m] == s.cells[m] && NoGain(c, s, t, m, None) && Waiting(t, m)
  {
    if !e.Commit? {
      HandWeights(c, s, e);
      RowsKeptNoGain(c, s, Step(c, s, e), m);
    } else if s.hand.Holding? && Dirty(s.hand.stage) {
      CommitWeights(c, s);
    }
  }

  lemma ClaimLowers(c: Config, s: State, m: Id)
    requires Inv(c, s) && Waiting(s, m) && ClaimsMade(s, ClaimCommit) == 1 && s.hand.id != m
    ensures var t := Step(c, s, ClaimCommit);
      && m in t.cells && t.cells[m] == s.cells[m] && Waiting(t, m)
      && Potential(c, t, m) + 1 <= Potential(c, s, m)
  {
    var t, x := Step(c, s, ClaimCommit), s.hand.id;
    assert CellInv(c, s.now, s.cells[x], Free);
    assert Ahead(s, m, x) && Weight(c, s, x) == c.Limit() - s.cells[x].row.attempts;
    assert Weight(c, t, x) == Weight(c, s, x) - 1;
    assert NoGain(c, s, t, m, None);
    NoGainDominates(c, s, t, m);
    SumDrops(Weights(c, t, m), Weights(c, s, m), x);
  }

  lemma FaultRaisesByOne(c: Config, s: State, e: Event, m: Id)
    requires Inv(c, s) && Waiting(s, m) && Faults(s, e) == 1
    ensures var t := Step(c, s, e);
      && m in t.cells && t.cells[m] == s.cells[m] && Waiting(t, m)
      && Potential(c, t, m) <= Potential(c, s, m) + 1
  {
    FaultWeights(c, s, e);
    WeightsBump(c, s, Step(c, s, e), m, s.hand.id);
  }

  lemma FaultWeights(c: Config, s: State, e: Event)
    requires Inv(c, s) && Faults(s, e) == 1
    ensures var t, h := Step(c, s, e), s.hand.id;
      && t.now == s.now && t.hand == Top && h in s.cells && s.cells[h].row.status.Sending?
      && t.cells == s.cells[h := t.cells[h]] && t.cells[h].row == s.cells[h].row
  {
  }

  lemma WeightsBump(c: Config, s: State, t: State, m: Id, h: Id)
    requires m in s.cells && m in t.cells && h in s.cells && h in t.cells && h != m && s.hand.Holding? && s.hand.id == h
      && t.hand == Top
    requires t.cells == s.cells[h := t.cells[h]] && t.cells[h].row == s.cells[h].row
    ensures Potential(c, t, m) <= Potential(c, s, m) + 1
  {
    assert NoGain(c, s, t, m, Some(h));
    assert Dominated(Weights(c, t, m) - {h}, Weights(c, s, m));
    assert At(Weights(c, t, m), h) <= At(Weights(c, s, m), h) + 1;
    SumBumps(Weights(c, t, m), Weights(c, s, m), h);
  }

  lemma FaultWithoutHand(c: Config, s: State, e: Event, m: Id)
    requires Inv(c, s) && Waiting(s, m) && (e.SendFault? || e.Crash?) && !s.hand.Holding?
    ensures var t := Step(c, s, e);
      m in t.cells && t.cells[m] == s.cells[m] && NoGain(c, s, t, m, None) && Waiting(t, m)
  {
  }

  lemma StepWaits(c: Config, s: State, e: Event, m: Id)
    requires Inv(c, s) && Waiting(s, m)
    requires !(e.ClaimCommit? && s.hand.Claiming? && s.hand.id == m)
    ensures var t := Step(c, s, e);
      && m in t.cells && t.cells[m] == s.cells[m] && Waiting(t, m)
      && Potential(c, t, m) + ClaimsMade(s, e) <= Potential(c, s, m) + Faults(s, e)
  {
    var t := Step(c, s, e);
    if ClaimsMade(s, e) == 1 {
      ClaimLowers(c, s, m);
    } else if Faults(s, e) == 1 {
      FaultRaisesByOne(c, s, e, m);
    } else {
      if EnvEvent(e) {
        EnvNoGain(c, s, e, m);
      } else if e.RequeueRead? || e.RequeueCommit? || e.ClaimRead? || e.ClaimNone? {
        SweepNoGain(c, s, e, m);
      } else if e.SendFault? || e.Crash? {
        FaultWithoutHand(c, s, e, m);
      } else if !e.ClaimCommit? {
        HandNoGain(c, s, e, m);
      } else {
        assert t == s;
      }
      NoGainDominates(c, s, t, m);
    }
  }

  // ---------- whole runs ----------

  /** Somewhere in the run message `m` is claimed. */
  ghost predicate ClaimedIn(c: Config, s: State, es: seq<Event>, m: Id)
    decreases |es|
  {
    es != [] && ((es[0].ClaimCommit? && s.hand.Claiming? && s.hand.id == m)
      || ClaimedIn(c, Step(c, s, es[0]), es[1..], m))
  }

  lemma {:induction false} WaitingRun(c: Config, s: State, es: seq<Event>, m: Id)
    requires Inv(c, s) && Waiting(s, m) && !ClaimedIn(c, s, es, m)
    ensures var t := Run(c, s, es);
      && m in t.cells && t.cells[m] == s.cells[m] && Waiting(t, m)
      && Potential(c, t, m) + ClaimsIn(c, s, es) <= Potential(c, s, m) + FaultsIn(c, s, es)
    decreases |es|
  {
    if es != [] {
      StepKeeps(c, s, es[0]);
      StepWaits(c, s, es[0], m);
      WaitingRun(c, Step(c, s, es[0]), es[1..], m);
    }
  }

  /** Bounded waiting. Take any reachable state in which the send loop is not about to claim, and a due message m
      created before the present instant. However the run continues - new arrivals, other loops, crashes - as long as m
      is not claimed it stays due and untouched, and at most as many claims are made as the older pending messages had
      attempts left, plus one for each fault that threw a claim away. */
  lemma BoundedWaiting(c: Config, s: State, es: seq<Event>, m: Id)
    requires Reachable(c, s) && !s.hand.Claiming?
    requires m in s.cells && Due(s.cells[m].row, s.now) && s.cells[m].row.created < s.now
    requires !ClaimedIn(c, s, es, m)
    ensures ClaimsIn(c, s, es) <= Potential(c, s, m) + FaultsIn(c, s, es)
    ensures var t := Run(c, s, es); m in t.cells && t.cells[m] == s.cells[m] && Due(t.cells[m].row, t.now)
  {
    ReachableInv(c, s);
    WaitingRun(c, s, es, m);
  }

  lemma {:induction false} ClaimsAppend(c: Config, s: State, a: seq<Event>, b: seq<Event>)
    ensures ClaimsIn(c, s, a + b) == ClaimsIn(c, s, a) + ClaimsIn(c, Run(c, s, a), b)
    decreases |a|
  {
    if a == [] {
      assert a + b == b;
    } else {
      assert (a + b)[0] == a[0] && (a + b)[1..] == a[1..] + b;
      ClaimsAppend(c, Step(c, s, a[0]), a[1..], b);
    }
  }

  lemma {:induction false} ClaimedInPrefix(c: Config, s: State, a: seq<Event>, b: seq<Event>, m: Id)
    requires ClaimedIn(c, s, a, m)
    ensures ClaimedIn(c, s, a + b, m)
    decreases |a|
  {
    assert (a + b)[0] == a[0] && (a + b)[1..] == a[1..] + b;
    if !(a[0].ClaimCommit? && s.hand.Claiming? && s.hand.id == m) {
      ClaimedInPrefix(c, Step(c, s, a[0]), a[1..], b, m);
    }
  }

  /** The potential in plain terms: at most the attempt limit for each older pending message. */
  lemma PotentialAtMost(c: Config, s: State, m: Id)
    requires m in s.cells
    ensures Potential(c, s, m) <= Max(1, c.maxAttempts) * |set id | id in s.cells && Ahead(s, m, id)
      && Pending(s.cells[id].row.status)|
  {
    var w := Weights(c, s, m);
    var ahead := set id | id in s.cells && Ahead(s, m, id) && Pending(s.cells[id].row.status);
    AheadKeys(c, s, m);
    SmallerSet(w.Keys, ahead);
    SumBounded(w, c.Limit());
    TimesMonotone(c.Limit(), |w.Keys|, |ahead|);
    assert |w| == |w.Keys|;
  }

  lemma AheadKeys(c: Config, s: State, m: Id)
    requires m in s.cells
    ensures Weights(c, s, m).Keys <= set id | id in s.cells && Ahead(s, m, id) && Pending(s.cells[id].row.status)
    ensures forall id | id in Weights(c, s, m) :: Weights(c, s, m)[id] <= c.Limit()
  {
  }

  /** The loop does not idle while something is due: the idle branch is closed and some row can be claimed. */
  lemma NeverIdleWhileDue(s: State, m: Id)
    requires s.hand.Swept? && m in s.cells && Due(s.cells[m].row, s.now)
    ensures ClaimNoneStep(s) == s
    ensures exists id :: OldestDue(s, id) && ClaimReadStep(s, id).hand == Claiming(id, s.now)
  {
    var id := Oldest(s, (set j | j in s.cells && Due(s.cells[j].row, s.now)), m);
    assert ClaimReadStep(s, id).hand == Claiming(id, s.now);
  }

  lemma {:induction false} Oldest(s: State, ids: set<Id>, x: Id) returns (id: Id)
    requires x in ids && ids <= s.cells.Keys
    ensures id in ids && forall j | j in ids :: s.cells[id].row.created <= s.cells[j].row.created
    decreases |ids|
  {
    id := x;
    if y0: Id :| y0 in ids - {x} {
      var y := Oldest(s, ids - {x}, y0);
      assert ids == (ids - {x}) + {x};
      id := if s.cells[x].row.created <= s.cells[y].row.created then x else y;
    } else {
      forall j | j in ids ensures j == x {
        assert j != x ==> j in ids - {x};
      }
    }
  }
}
