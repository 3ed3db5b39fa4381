/**
  The send loop over many passes. Two promises that no single pass shows: a due message is claimed after a bounded
  number of passes, and no half-open minute of one process life holds more SMS calls than the limit allows.
 */
module SendLoop {
  import opened Prelude
  import opened Messages
  import opened Queue
  import opened QueueInvariant
  import opened QueueSafety
  import opened QueueFairness
  import opened Relay
  import opened Limiter

  /** The passes that an exception may end before their time: a call or a commit that raises. */
  function Broken(worlds: seq<World>): nat {
    if worlds == [] then 0 else Broken(worlds[..|worlds| - 1]) + if Breaks(worlds[|worlds| - 1]) then 1 else 0
  }

  predicate Breaks(w: World) {
    || w.publish.PublishBroke? || w.send.SendBroke? || !w.sweepOk || !w.claimOk || !w.ntfyOk || !w.smsOk
  }

  /** Marks of a lost claim among the send loop's own events. */
  function FaultMarks(own: seq<Event>): nat {
    if own == [] then 0
    else
      var last := own[|own| - 1];
      FaultMarks(own[..|own| - 1]) + if last.SendFault? || last.Crash? then 1 else 0
  }

  lemma {:induction false} MarksAppend(a: seq<Event>, b: seq<Event>)
    ensures FaultMarks(a + b) == FaultMarks(a) + FaultMarks(b)
  {
    if b == [] {
      assert a + b == a;
    } else {
      assert (a + b)[..|a + b| - 1] == a + b[..|b| - 1];
      MarksAppend(a, b[..|b| - 1]);
    }
  }

  lemma {:induction false} FaultsAreMarked(c: Config, s: State, es: seq<Event>)
    ensures FaultsIn(c, s, es) <= FaultMarks(Own(es))
    decreases |es|
  {
    if es != [] {
      FaultsAreMarked(c, Step(c, s, es[0]), es[1..]);
      assert es == [es[0]] + es[1..];
      OwnAppend([es[0]], es[1..]);
      OwnOne(es[0]);
      MarksAppend(Own([es[0]]), Own(es[1..]));
    }
  }

  lemma OwnOne(e: Event)
    ensures Own([e]) == if OwnEvent(e) then [e] else []
    ensures FaultMarks(Own([e])) == if e.SendFault? || e.Crash? then 1 else 0
  {
    assert Own([e]) == Own([]) + if OwnEvent(e) then [e] else [];
    if OwnEvent(e) {
      assert [e][..0] == [];
    }
  }

  lemma MarksOfTwo(a: Event, b: Event)
    ensures FaultMarks([a]) == if a.SendFault? || a.Crash? then 1 else 0
    ensures FaultMarks([a, b]) == FaultMarks([a]) + FaultMarks([b])
  {
    assert [a][..0] == [] && [a] + [b] == [a, b];
    MarksAppend([a], [b]);
  }

  /** A pass ends in at most one exception, and in none when nothing breaks. */
  lemma ScriptMarks(stuck: bool, found: Option<Id>, routed: bool, w: World)
    ensures FaultMarks(Script(stuck, found, routed, w)) <= if Breaks(w) then 1 else 0
  {
    SweepMarks(stuck, w.sweepOk);
    if w.sweepOk {
      var tail := AfterClaim(found, routed, w);
      MarksAppend(SweepScript(stuck, true), ClaimScript(found, w.claimOk) + tail);
      MarksAppend(ClaimScript(found, w.claimOk), tail);
      ClaimMarks(found, w.claimOk);
      DeliveryMarks(routed, w);
    } else {
      assert SweepScript(stuck, false) + [] == SweepScript(stuck, false);
    }
  }

  lemma SweepMarks(stuck: bool, ok: bool)
    ensures FaultMarks(SweepScript(stuck, ok)) == if ok then 0 else 1
  {
    MarksOfTwo(RequeueRead, if ok then RequeueCommit else SendFault);
    MarksOfTwo(if ok then RequeueRead else SendFault, Commit);
    MarksOfTwo(if ok then RequeueCommit else SendFault, Commit);
  }

  lemma ClaimMarks(found: Option<Id>, ok: bool)
    ensures FaultMarks(ClaimScript(found, ok)) == if ok then 0 else 1
  {
    MarksOfTwo(if ok then ClaimNone else SendFault, Commit);
    MarksOfTwo(if ok then ClaimCommit else SendFault, Commit);
    if found.Some? {
      MarksOfTwo(ClaimRead(found.value), if ok then ClaimCommit else SendFault);
    }
  }

  lemma DeliveryMarks(routed: bool, w: World)
    ensures FaultMarks(DeliveryScript(routed, w))
      <= if w.publish.PublishBroke? || w.send.SendBroke? || !w.ntfyOk || !w.smsOk then 1 else 0
  {
    AnswerMarks(w);
    SettleMarks(w);
    MarksOfTwo(PublishCall, SmsGrant);
    MarksOfTwo(SmsGrant, PublishCall);
    MarksAppend([PublishCall], AnswerScript(w));
    MarksAppend([SmsGrant], SettleScript(w));
    MarksAppend(PublishScript(w), FallbackScript(w));
  }

  lemma EndMarks(e: Event, ok: bool)
    requires !e.SendFault? && !e.Crash?
    ensures FaultMarks([e, CommitOr(ok)]) == if ok then 0 else 1
  {
    MarksOfTwo(e, CommitOr(ok));
    MarksOfTwo(CommitOr(ok), e);
  }

  lemma AnswerMarks(w: World)
    ensures FaultMarks(AnswerScript(w)) == if w.publish.PublishBroke? || !w.ntfyOk then 1 else 0
  {
    match w.publish
    case Receipt(receipt) => EndMarks(PublishOk(receipt), w.ntfyOk);
    case PublishFailed => EndMarks(PublishFail, w.ntfyOk);
    case PublishBroke => MarksOfTwo(SendFault, SendFault);
  }

  lemma SettleMarks(w: World)
    ensures FaultMarks(SettleScript(w)) == if w.send.SendBroke? || !w.smsOk then 1 else 0
  {
    match w.send
    case SendAccepted(pid) => EndMarks(SmsOk(pid), w.smsOk);
    case ProviderError(permanent) => EndMarks(SmsError(permanent), w.smsOk);
    case SendBroke => MarksOfTwo(SendFault, SendFault);
  }

  // ---------- a pass without a claim loses none ----------

  lemma {:induction false} OwnKeepsMembers(es: seq<Event>, e: Event)
    requires e in es && OwnEvent(e)
    ensures e in Own(es)
  {
    var n := |es| - 1;
    if es[n] != e {
      OwnKeepsMembers(es[..n], e);
    }
  }

  lemma {:induction false} NoClaimNoFault(c: Config, s: State, es: seq<Event>)
    requires !s.hand.Holding? && ClaimCommit !in es
    ensures FaultsIn(c, s, es) == 0
    decreases |es|
  {
    if es != [] {
      assert es[0] != ClaimCommit;
      StaysUnheld(c, s, es[0]);
      NoClaimNoFault(c, Step(c, s, es[0]), es[1..]);
    }
  }

  lemma StaysUnheld(c: Config, s: State, e: Event)
    requires !s.hand.Holding? && !e.ClaimCommit?
    ensures !Step(c, s, e).hand.Holding?
  {
  }

  lemma ClaimlessScript(stuck: bool, found: Option<Id>, routed: bool, w: World)
    requires !Claims(found, w)
    ensures ClaimCommit !in Script(stuck, found, routed, w)
  {
  }

  // ---------- many passes ----------

  /** What has happened since the loop began at `base`, after the passes in `worlds`: while a message waits unclaimed,
      each pass has made a claim and kept it, or is a broken one. */
  ghost predicate Progress(c: Config, base: State, es: seq<Event>, worlds: seq<World>) {
    forall m | m in base.cells && Waiting(base, m) && !ClaimedIn(c, base, es, m) ::
      ClaimsIn(c, base, es) + Broken(worlds) >= |worlds| + FaultsIn(c, base, es)
  }

  /** What one more pass from `s` contributes. */
  ghost predicate Contributes(c: Config, s: State, pass: seq<Event>, w: World) {
    || (ClaimsIn(c, s, pass) > 0 && FaultsIn(c, s, pass) <= if Breaks(w) then 1 else 0)
    || (FaultsIn(c, s, pass) == 0 && (Breaks(w) || NothingDue(Run(c, s, pass))))
  }

  ghost predicate NothingDue(s: State) { forall j | j in s.cells :: !Due(s.cells[j].row, s.now) }

  lemma PassProgress(c: Config, base: State, es: seq<Event>, pass: seq<Event>, worlds: seq<World>, w: World)
    requires Inv(c, base) && Progress(c, base, es, worlds) && Contributes(c, Run(c, base, es), pass, w)
    ensures Progress(c, base, es + pass, worlds + [w])
  {
    FaultsAppend(c, base, es, pass);
    ClaimsAppend(c, base, es, pass);
    RunAppend(c, base, es, pass);
    assert (worlds + [w])[..|worlds|] == worlds;
    forall m | m in base.cells && Waiting(base, m) && !ClaimedIn(c, base, es + pass, m)
      ensures ClaimsIn(c, base, es + pass) + Broken(worlds + [w]) >= |worlds + [w]| + FaultsIn(c, base, es + pass)
    {
      if ClaimedIn(c, base, es, m) { ClaimedInPrefix(c, base, es, pass, m); }
      WaitingRun(c, base, es + pass, m);
    }
  }

  lemma {:induction false} FaultsAppend(c: Config, s: State, a: seq<Event>, b: seq<Event>)
    ensures FaultsIn(c, s, a + b) == FaultsIn(c, s, a) + FaultsIn(c, Run(c, s, a), b)
    decreases |a|
  {
    if a == [] {
      assert a + b == b;
    } else {
      assert (a + b)[0] == a[0] && (a + b)[1..] == a[1..] + b;
      FaultsAppend(c, Step(c, s, a[0]), a[1..], b);
    }
  }

  /** After more passes than older messages have attempts left, plus broken passes, a message that was due has been
      claimed. */
  lemma EnoughPasses(c: Config, base: State, es: seq<Event>, worlds: seq<World>, m: Id)
    requires Inv(c, base) && Progress(c, base, es, worlds) && Waiting(base, m)
    requires |worlds| > Potential(c, base, m) + Broken(worlds)
    ensures ClaimedIn(c, base, es, m)
  {
    if !ClaimedIn(c, base, es, m) {
      WaitingRun(c, base, es, m);
    }
  }

  lemma Cancel<T>(a: seq<T>, b: seq<T>, d: seq<T>)
    requires a + b == a + d
    ensures b == d
  {
    assert b == (a + b)[|a|..] && d == (a + d)[|a|..];
  }

  lemma OwnOfPass(mid: seq<Event>, pass: seq<Event>, own: seq<Event>)
    requires Own(mid + pass) == Own(mid) + own
    ensures Own(pass) == own
  {
    OwnAppend(mid, pass);
    Cancel(Own(mid), Own(pass), own);
  }

  lemma PassContributes(c: Config, start: int, mid: seq<Event>, pass: seq<Event>, stuck: bool, found: Option<Id>,
                        routed: bool, w: World)
    requires Own(pass) == Script(stuck, found, routed, w) && Run(c, Init(start), mid).hand.Top?
    requires Claims(found, w) ==> ClaimsIn(c, Init(start), mid + pass) > ClaimsIn(c, Init(start), mid)
    requires found.None? && w.sweepOk && w.claimOk ==> NothingDue(Run(c, Init(start), mid + pass))
    ensures Contributes(c, Run(c, Init(start), mid), pass, w)
  {
    var s := Run(c, Init(start), mid);
    ClaimsAppend(c, Init(start), mid, pass);
    RunAppend(c, Init(start), mid, pass);
    if Claims(found, w) {
      ScriptMarks(stuck, found, routed, w);
      FaultsAreMarked(c, s, pass);
    } else {
      ClaimlessScript(stuck, found, routed, w);
      if ClaimCommit in pass { OwnKeepsMembers(pass, ClaimCommit); }
      NoClaimNoFault(c, s, pass);
    }
  }

  lemma PassOf(c: Config, start: int, before: seq<Event>, es: seq<Event>, pass: seq<Event>, worlds: seq<World>,
               w: World)
    requires Progress(c, Run(c, Init(start), before), es, worlds)
    requires Contributes(c, Run(c, Init(start), before + es), pass, w)
    ensures Progress(c, Run(c, Init(start), before), es + pass, worlds + [w])
  {
    InitInv(c, start);
    RunKeeps(c, Init(start), before);
    RunAppend(c, Init(start), before, es);
    PassProgress(c, Run(c, Init(start), before), es, pass, worlds, w);
  }

  /** One pass as part of the loop that began after `before` and has logged `es` since. */
  method Pass(sys: System, ghost before: seq<Event>, ghost es: seq<Event>, ghost worlds: seq<World>, w: World,
              limiter: RateLimiter, clock: Clock) returns (ghost pass: seq<Event>)
    requires sys.Valid() && sys.s.hand.Top? && w.OnlyOthers() && limiter.Ready(clock) && sys.log == before + es
    requires Progress(sys.c, Run(sys.c, Init(sys.start), before), es, worlds)
    modifies sys`s, sys`log, sys`acts, sys`calledAt, limiter, clock
    ensures sys.Valid() && sys.s.hand.Top? && limiter.Ready(clock) && sys.log == before + (es + pass)
    ensures Progress(sys.c, Run(sys.c, Init(sys.start), before), es + pass, worlds + [w])
    ensures exists once :: sys.Called(old(limiter.granted), limiter, old(sys.calledAt), once)
  {
    ghost var stuck := StuckIds(sys.c, sys.s) != {};
    var found, routed := sys.Iterate(w, limiter, clock);
    pass := sys.log[|before + es|..];
    assert sys.log == before + es + pass == before + (es + pass);
    OwnOfPass(before + es, pass, Script(stuck, found, routed, w));
    PassContributes(sys.c, sys.start, before + es, pass, stuck, found, routed, w);
    PassOf(sys.c, sys.start, before, es, pass, worlds, w);
  }

  /** A message waiting at `base` is claimed in `es` once there are more passes than older pending messages have
      attempts left, plus broken passes. */
  ghost predicate NoneStarves(c: Config, base: State, es: seq<Event>, worlds: seq<World>) {
    forall m | m in base.cells && Waiting(base, m) && |worlds| > Potential(c, base, m) + Broken(worlds) ::
      ClaimedIn(c, base, es, m)
  }

  /** The loop of one process life, with a limiter of its own: as many passes as `worlds` has entries. Every message
      that is due when it starts (and was created before that instant) is claimed within as many passes as older pending
      messages have attempts left, plus broken passes, plus one. And the calls to the provider are made at times of
      which no half-open minute holds more than the limit. `es` is the run from where the loop started. */
  method Loop(sys: System, worlds: seq<World>, perMinute: int, clock: Clock) returns (ghost es: seq<Event>)
    requires sys.Valid() && sys.s.hand.Top? && forall i | 0 <= i < |worlds| :: worlds[i].OnlyOthers()
    modifies sys`s, sys`log, sys`acts, sys`calledAt, clock
    ensures sys.Valid() && sys.s.hand.Top? && sys.log == old(sys.log) + es && sys.s == Run(sys.c, old(sys.s), es)
    ensures NoneStarves(sys.c, old(sys.s), es, worlds)
    ensures old(sys.calledAt) <= sys.calledAt
    ensures forall a :: CountIn(sys.calledAt[|old(sys.calledAt)|..], a) <= Max(1, perMinute)
  {
    var limiter := new RateLimiter(perMinute, clock.now);
    ghost var calls := sys.calledAt;
    Finish(sys.c, sys.start, sys.log, sys.s);
    es := Passes(sys, worlds, limiter, clock);
    assert sys.calledAt[|calls|..] == limiter.granted;
    Throttled(limiter, sys.calledAt[|calls|..], perMinute);
  }

  method Passes(sys: System, worlds: seq<World>, limiter: RateLimiter, clock: Clock) returns (ghost es: seq<Event>)
    requires sys.Valid() && sys.s.hand.Top? && limiter.Ready(clock) && limiter.granted == []
    requires forall i | 0 <= i < |worlds| :: worlds[i].OnlyOthers()
    modifies sys`s, sys`log, sys`acts, sys`calledAt, limiter, clock
    ensures sys.Valid() && sys.s.hand.Top? && limiter.Ready(clock) && sys.log == old(sys.log) + es
    ensures sys.s == Run(sys.c, old(sys.s), es) && Progress(sys.c, old(sys.s), es, worlds)
    ensures sys.calledAt == old(sys.calledAt) + limiter.granted
  {
    ghost var before, calls, base, done := sys.log, sys.calledAt, Run(sys.c, Init(sys.start), sys.log), [];
    es := [];
    var i := 0;
    while i < |worlds|
      invariant 0 <= i <= |worlds| && done == worlds[..i]
      invariant sys.Valid() && sys.s.hand.Top? && sys.log == before + es
      invariant limiter.Ready(clock) && sys.calledAt == calls + limiter.granted
      invariant Progress(sys.c, base, es, done)
    {
      ghost var pass := Pass(sys, before, es, done, worlds[i], limiter, clock);
      NextWorld(worlds, i);
      es, done := es + pass, done + [worlds[i]];
      i := i + 1;
    }
    assert done == worlds;
    RunAppend(sys.c, Init(sys.start), before, es);
  }

  lemma NextWorld(worlds: seq<World>, i: nat)
    requires i < |worlds|
    ensures worlds[..i + 1] == worlds[..i] + [worlds[i]]
  {
  }

  lemma Throttled(limiter: RateLimiter, calls: seq<real>, perMinute: int)
    requires limiter.Valid() && calls == limiter.granted && limiter.perMinute == Max(1, perMinute)
    ensures forall a :: CountIn(calls, a) <= Max(1, perMinute)
  {
    forall a ensures CountIn(calls, a) <= Max(1, perMinute) { LimiterNeverOverfull(limiter, a); }
  }

  lemma Finish(c: Config, start: int, before: seq<Event>, base: State)
    requires base == Run(c, Init(start), before)
    ensures forall es, worlds :: Progress(c, base, es, worlds) ==> NoneStarves(c, base, es, worlds)
  {
    InitInv(c, start);
    RunKeeps(c, Init(start), before);
    forall es, worlds | Progress(c, base, es, worlds) ensures NoneStarves(c, base, es, worlds) {
      forall m | Waiting(base, m) && |worlds| > Potential(c, base, m) + Broken(worlds)
        ensures ClaimedIn(c, base, es, m) {
        EnoughPasses(c, base, es, worlds, m);
      }
    }
  }
}
