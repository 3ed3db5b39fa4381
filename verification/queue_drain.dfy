/** The queue drains: without new submissions only so many claims can be made, however the run goes on. */
module QueueDrain {
  import opened Prelude
  import opened Messages
  import opened Queue
  import opened QueueInvariant
  import opened QueueSafety
  import opened QueueFairness

  function AllWeights(c: Config, s: State): map<Id, nat> {
    map id | id in s.cells && Weight(c, s, id) > 0 :: Weight(c, s, id)
  }

  /** The claims the messages in the table can still take when nothing fails. */
  ghost function Remaining(c: Config, s: State): nat { Sum(AllWeights(c, s)) }

  /** Between `s` and `t` no message gains weight, except perhaps `x`. */
  ghost predicate NoneGains(c: Config, s: State, t: State, x: Option<Id>) {
    forall id | id in t.cells && Weight(c, t, id) > 0 && x != Some(id) ::
      id in s.cells && Weight(c, t, id) <= Weight(c, s, id)
  }

  lemma NoneGainsDominates(c: Config, s: State, t: State)
    requires NoneGains(c, s, t, None)
    ensures Dominated(AllWeights(c, t), AllWeights(c, s)) && Remaining(c, t) <= Remaining(c, s)
  {
    SumMonotone(AllWeights(c, t), AllWeights(c, s));
  }

  lemma EnvNoneGains(c: Config, s: State, e: Event)
    requires EnvEvent(e) && !e.SubmitInsert?
    ensures NoneGains(c, s, Step(c, s, e), None)
  {
    EnvWeights(c, s, e);
  }

  lemma SweepNoneGains(c: Config, s: State, e: Event)
    requires HandInv(c, s) && (e.RequeueRead? || e.RequeueCommit? || e.ClaimRead? || e.ClaimNone?)
    ensures NoneGains(c, s, Step(c, s, e), None)
  {
    SweepWeights(c, s, e);
  }

  lemma HandNoneGains(c: Config, s: State, e: Event)
    requires Inv(c, s)
    requires SendLoopEvent(e) && !(e.RequeueRead? || e.RequeueCommit? || e.ClaimRead? || e.ClaimNone? || e.ClaimCommit?
      || e.SendFault?)
    ensures NoneGains(c, s, Step(c, s, e), None)
  {
    if !e.Commit? {
      HandWeights(c, s, e);
    } else if s.hand.Holding? && Dirty(s.hand.stage) {
      CommitWeights(c, s);
    }
  }

  lemma ClaimUsesOne(c: Config, s: State)
    requires Inv(c, s) && ClaimsMade(s, ClaimCommit) == 1
    ensures Remaining(c, Step(c, s, ClaimCommit)) + 1 <= Remaining(c, s)
  {
    var t, x := Step(c, s, ClaimCommit), s.hand.id;
    assert CellInv(c, s.now, s.cells[x], Free);
    assert Weight(c, s, x) == c.Limit() - s.cells[x].row.attempts;
    assert Weight(c, t, x) == Weight(c, s, x) - 1;
    assert NoneGains(c, s, t, None);
    NoneGainsDominates(c, s, t);
    SumDrops(AllWeights(c, t), AllWeights(c, s), x);
  }

  lemma FaultGivesOneBack(c: Config, s: State, e: Event)
    requires Inv(c, s) && Faults(s, e) == 1
    ensures Remaining(c, Step(c, s, e)) <= Remaining(c, s) + 1
  {
    var t, h := Step(c, s, e), s.hand.id;
    FaultWeights(c, s, e);
    assert NoneGains(c, s, t, Some(h));
    assert Dominated(AllWeights(c, t) - {h}, AllWeights(c, s));
    assert At(AllWeights(c, t), h) <= At(AllWeights(c, s), h) + 1;
    SumBumps(AllWeights(c, t), AllWeights(c, s), h);
  }

  lemma FaultWithoutMessage(c: Config, s: State, e: Event)
    requires (e.SendFault? || e.Crash?) && !s.hand.Holding?
    ensures NoneGains(c, s, Step(c, s, e), None)
  {
  }

  lemma StepDrains(c: Config, s: State, e: Event)
    requires Inv(c, s) && !e.SubmitInsert?
    ensures Remaining(c, Step(c, s, e)) + ClaimsMade(s, e) <= Remaining(c, s) + Faults(s, e)
  {
    if ClaimsMade(s, e) == 1 {
      ClaimUsesOne(c, s);
    } else if Faults(s, e) == 1 {
      FaultGivesOneBack(c, s, e);
    } else {
      OtherNoneGains(c, s, e);
      NoneGainsDominates(c, s, Step(c, s, e));
    }
  }

  lemma OtherNoneGains(c: Config, s: State, e: Event)
    requires Inv(c, s) && !e.SubmitInsert? && ClaimsMade(s, e) == 0 && Faults(s, e) == 0
    ensures NoneGains(c, s, Step(c, s, e), None)
  {
    if EnvEvent(e) {
      EnvNoneGains(c, s, e);
    } else if e.RequeueRead? || e.RequeueCommit? || e.ClaimRead? || e.ClaimNone? {
      SweepNoneGains(c, s, e);
    } else if e.SendFault? || e.Crash? {
      FaultWithoutMessage(c, s, e);
    } else if !e.ClaimCommit? {
      HandNoneGains(c, s, e);
    } else {
      assert Step(c, s, e) == s;
    }
  }

  /** From every reachable state, over every run without new submissions: the claims made and the claims that remain
      possible are together at most those that were possible at the start, plus one for each fault that threw a claim
      away. */
  lemma {:induction false} QueueDrains(c: Config, s: State, es: seq<Event>)
    requires Inv(c, s) && forall i | 0 <= i < |es| :: !es[i].SubmitInsert?
    ensures ClaimsIn(c, s, es) + Remaining(c, Run(c, s, es)) <= Remaining(c, s) + FaultsIn(c, s, es)
    decreases |es|
  {
    if es != [] {
      StepDrains(c, s, es[0]);
      StepKeeps(c, s, es[0]);
      QueueDrains(c, Step(c, s, es[0]), es[1..]);
    }
  }

  lemma SumOfNothing(m: map<int, nat>)
    requires forall x :: x !in m
    ensures Sum(m) == 0
  {
  }

  /** Between passes nothing remains possible exactly when no message is waiting any more. */
  lemma DrainedIff(c: Config, s: State)
    requires Reachable(c, s) && !s.hand.Holding?
    ensures Remaining(c, s) == 0 <==> forall id | id in s.cells :: !Pending(s.cells[id].row.status)
  {
    ReachableInv(c, s);
    var w := AllWeights(c, s);
    if forall id | id in s.cells :: !Pending(s.cells[id].row.status) {
      assert forall id :: id !in w;
      SumOfNothing(w);
    }
    forall id | id in s.cells && Pending(s.cells[id].row.status) ensures Remaining(c, s) > 0 {
      assert CellInv(c, s.now, s.cells[id], Free);
      SumTakeOut(w, id);
    }
  }

  /** In plain terms: at most the attempt limit for each message waiting at the start. */
  lemma RemainingAtMost(c: Config, s: State)
    ensures Remaining(c, s) <= Max(1, c.maxAttempts) * |set id | id in s.cells && Pending(s.cells[id].row.status)|
  {
    var w, waiting := AllWeights(c, s), set id | id in s.cells && Pending(s.cells[id].row.status);
    assert w.Keys <= waiting && forall id | id in w :: w[id] <= c.Limit();
    SmallerSet(w.Keys, waiting);
    SumBounded(w, c.Limit());
    TimesMonotone(c.Limit(), |w.Keys|, |waiting|);
    assert |w| == |w.Keys|;
  }
}
