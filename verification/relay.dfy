/**
  The code itself: one iteration of the send loop, the status poll, the receipt handler, retention and `send_message`,
  written as the program runs them, with the message object changed in place between loads and commits. At every await
  the rest of the system runs (`Await`). What is proved is that all of it together is a run of the queue machine, so
  everything proved of reachable states holds of this code.
 */
module Relay {
  import opened Prelude
  import opened Messages
  import opened Queue
  import opened QueueInvariant
  import opened QueueSafety
  import opened QueueSubmit
  import opened QueueFairness
  import opened QueueOutcomes
  import Backoff
  import opened Limiter

  /** The object the ORM hands out: the row's columns, assigned one by one and written back by a commit. */
  class MessageRow {
    const id: Id
    const base: Row      // as loaded
    var status: Status
    var transport: Transport
    var attempts: nat
    var next: Option<int>
    var pid: Option<string>
    var updated: int
    var sentAt: Option<int>

    constructor (id: Id, r: Row)
      ensures this.id == id && base == r && Snapshot() == r
    {
      this.id, base := id, r;
      status, transport, attempts, next := r.status, r.transport, r.attempts, r.next;
      pid, updated, sentAt := r.pid, r.updated, r.sentAt;
    }

    function Snapshot(): Row
      reads this
    {
      base.(status := status, transport := transport, attempts := attempts, next := next, pid := pid,
        updated := updated, sentAt := sentAt)
    }
  }

  datatype PublishResult = Receipt(receipt: string) | PublishFailed | PublishBroke
  datatype SendResult = SendAccepted(pid: Option<string>) | ProviderError(permanent: bool) | SendBroke

  /** What the outside world does during one iteration: what else runs at each await, how the two calls end, and whether
      the four stretches that end in a commit succeed or raise. */
  datatype World = World(sweep: seq<Event>, swept: seq<Event>, claim: seq<Event>, claimed: seq<Event>,
                         publishing: seq<Event>, settling: seq<Event>, waiting: seq<Event>, sending: seq<Event>,
                         committing: seq<Event>, publish: PublishResult, send: SendResult,
                         sweepOk: bool, claimOk: bool, ntfyOk: bool, smsOk: bool)
  {
    /** Only the other tasks run meanwhile. */
    ghost predicate OnlyOthers() {
      && OnlyEnv(sweep) && OnlyEnv(swept) && OnlyEnv(claim) && OnlyEnv(claimed) && OnlyEnv(publishing)
      && OnlyEnv(settling) && OnlyEnv(waiting) && OnlyEnv(sending) && OnlyEnv(committing)
    }
  }

  /** The events of one pass of the send loop, as the code orders them. An exception ends the pass. */
  function SweepScript(stuck: bool, ok: bool): seq<Event> {
    if stuck then [RequeueRead, if ok then RequeueCommit else SendFault] else [if ok then RequeueRead else SendFault]
  }

  function ClaimScript(found: Option<Id>, ok: bool): seq<Event> {
    if found.Some? then [ClaimRead(found.value), if ok then ClaimCommit else SendFault]
    else [if ok then ClaimNone else SendFault]
  }

  function PublishScript(w: World): seq<Event> { [PublishCall] + AnswerScript(w) }

  function CommitOr(ok: bool): Event { if ok then Commit else SendFault }

  function AnswerScript(w: World): seq<Event> {
    match w.publish
    case Receipt(receipt) => [PublishOk(receipt), CommitOr(w.ntfyOk)]
    case PublishFailed => [PublishFail, CommitOr(w.ntfyOk)]
    case PublishBroke => [SendFault]
  }

  function SmsScript(w: World): seq<Event> { [SmsGrant] + SettleScript(w) }

  function SettleScript(w: World): seq<Event> {
    match w.send
    case SendAccepted(pid) => [SmsOk(pid), CommitOr(w.smsOk)]
    case ProviderError(permanent) => [SmsError(permanent), CommitOr(w.smsOk)]
    case SendBroke => [SendFault]
  }

  /** A pass that reads `found` as the oldest due message. */
  function Script(stuck: bool, found: Option<Id>, routed: bool, w: World): seq<Event> {
    SweepScript(stuck, w.sweepOk) + if w.sweepOk then ClaimScript(found, w.claimOk) + AfterClaim(found, routed, w)
      else []
  }

  function AfterClaim(found: Option<Id>, routed: bool, w: World): seq<Event> {
    if found.Some? && w.claimOk then DeliveryScript(routed, w) else []
  }

  predicate Claims(found: Option<Id>, w: World) { w.sweepOk && w.claimOk && found.Some? }

  /** A routed message goes to ntfy first, and to SMS only when that fails and the fallback is committed. */
  function DeliveryScript(routed: bool, w: World): seq<Event> {
    if !routed then SmsScript(w) else PublishScript(w) + FallbackScript(w)
  }

  function FallbackScript(w: World): seq<Event> { if FallsBack(w) then SmsScript(w) else [] }

  lemma Joined(a: seq<Event>, b: seq<Event>, d: seq<Event>)
    ensures a + b + d == a + (b + d)
  {
  }

  predicate FallsBack(w: World) { w.publish.PublishFailed? && w.ntfyOk }

  predicate ReachesSms(routed: bool, w: World) { !routed || FallsBack(w) }

  lemma ScriptOf(before: seq<Event>, after: seq<Event>, stuck: bool, found: Option<Id>, routed: bool, w: World)
    requires w.sweepOk
    requires after == before + SweepScript(stuck, true) + ClaimScript(found, w.claimOk) + AfterClaim(found, routed, w)
    ensures after == before + Script(stuck, found, routed, w)
  {
  }

  predicate OwnEvent(e: Event) { SendLoopEvent(e) || e.Crash? }

  /** The send loop's events, and crashes, among others. */
  function Own(es: seq<Event>): seq<Event> {
    if es == [] then [] else Own(es[..|es| - 1]) + if OwnEvent(es[|es| - 1]) then [es[|es| - 1]] else []
  }

  lemma {:induction false} OwnAppend(a: seq<Event>, b: seq<Event>)
    ensures Own(a + b) == Own(a) + Own(b)
  {
    if b == [] {
      assert a + b == a;
    } else {
      assert (a + b)[..|a + b| - 1] == a + b[..|b| - 1];
      OwnAppend(a, b[..|b| - 1]);
    }
  }

  lemma {:induction false} OwnNothing(es: seq<Event>)
    requires OnlyEnv(es)
    ensures Own(es) == []
  {
    if es != [] {
      OwnNothing(es[..|es| - 1]);
    }
  }

  /** The rows a status poll follows. */
  function Followed(s: State): set<Id> {
    set id | id in s.cells && Polled(s.cells[id].row, s.now)
  }

  /** What the provider reports that differs from the SENT those rows were read with. */
  function Reports(pending: set<Id>, reported: map<Id, Status>): map<Id, Status> {
    map id | id in pending && id in reported && reported[id] != Sent :: reported[id]
  }

  ghost predicate OnlyEnv(es: seq<Event>) { forall i | 0 <= i < |es| :: EnvEvent(es[i]) }

  class System {
    const c: Config
    var s: State
    ghost const start: int
    ghost var log: seq<Event>
    ghost var calledAt: seq<real>    // when the send loop called the provider, by the limiter's clock
    ghost var acts: seq<Event>    // the send loop's own events in the log, and crashes

    /** The present state is where the machine gets from the empty table by the events so far. */
    ghost predicate Valid()
      reads this
    {
      s == Run(c, Init(start), log) && acts == Own(log)
    }

    /** Claims committed since the system first started. */
    ghost function ClaimsSoFar(): nat
      reads this
    {
      ClaimsIn(c, Init(start), log)
    }

    constructor (c: Config, now: int)
      ensures Valid() && s == Init(now) && this.c == c && log == []
    {
      this.c, start, s, log, acts := c, now, Init(now), [], [];
      calledAt := [];
    }

    /** The running code moves the system to `t`, which must be what the machine does on `e`. */
    method Perform(ghost e: Event, t: State)
      requires Valid() && t == Step(c, s, e)
      modifies this`s, this`log, this`acts
      ensures Valid() && s == t && log == old(log) + [e] && acts == old(acts) + (if OwnEvent(e) then [e] else [])
    {
      RunSnoc(c, Init(start), log, e);
      OwnAppend(log, [e]);
      s := t;
      log := log + [e];
      acts := acts + if OwnEvent(e) then [e] else [];
      assert Own([e]) == if OwnEvent(e) then [e] else [];
    }

    /** An await: other tasks run. */
    method Await(es: seq<Event>)
      requires Valid()
      modifies this`s, this`log, this`acts
      ensures Valid() && s == Run(c, old(s), es) && log == old(log) + es && acts == old(acts) + Own(es)
    {
      var i := 0;
      while i < |es|
        invariant 0 <= i <= |es| && Valid()
        invariant s == Run(c, old(s), es[..i]) && log == old(log) + es[..i] && acts == old(acts) + Own(es[..i])
      {
        NextEvent(c, old(s), es, i);
        Perform(es[i], Step(c, s, es[i]));
        i := i + 1;
      }
      assert es[..i] == es;
    }

    /** An await of the send loop: its own memory and the rows it owns are untouched. */
    method AwaitOthers(es: seq<Event>)
      requires Valid() && OnlyEnv(es)
      modifies this`s, this`log, this`acts
      ensures Valid() && s.hand == old(s.hand) && acts == old(acts) && old(log) <= log && old(s.now) <= s.now
      ensures forall id | id in old(s.cells) && Pending(old(s.cells[id].row.status)) ::
        id in s.cells && s.cells[id] == old(s.cells[id])
    {
      OthersTouchNothing(c, start, log, es);
      OwnNothing(es);
      Await(es);
    }

    // ---------- the send loop ----------

    method RequeueStuck(w: World)
      requires Valid() && s.hand.Top? && w.OnlyOthers()
      modifies this`s, this`log, this`acts
      ensures Valid() && s.hand == (if w.sweepOk then Swept else Top) && old(log) <= log
      ensures acts == old(acts) + SweepScript(StuckIds(c, old(s)) != {}, w.sweepOk)
    {
      var ids := StuckIds(c, s);
      var at := s.now;
      if ids == {} && w.sweepOk {
        Perform(RequeueRead, s.(hand := Swept));
        return;
      }
      if ids != {} {
        Perform(RequeueRead, s.(hand := Requeueing(ids, at)));
        AwaitOthers(w.sweep);
      }
      if w.sweepOk {
        HandIsCommitted(c, start, log);
        var cells := MarkQueued(ids, at);
        Perform(RequeueCommit, s.(hand := Swept, cells := cells));
      } else {
        Abandon();
      }
    }

    /** Each stuck message is assigned its new status and time; the result is what the commit will write. */
    method MarkQueued(ids: set<Id>, at: int) returns (cells: map<Id, Cell>)
      requires ids <= s.cells.Keys
      ensures cells == map id | id in s.cells ::
        if id in ids then s.cells[id].(row := Requeued(s.cells[id].row, at, s.now)) else s.cells[id]
    {
      cells := s.cells;
      var todo := ids;
      while todo != {}
        invariant todo <= ids && cells.Keys == s.cells.Keys
        invariant forall id | id in cells && id in ids && id !in todo ::
          cells[id] == s.cells[id].(row := Requeued(s.cells[id].row, at, s.now))
        invariant forall id | id in cells && !(id in ids && id !in todo) :: cells[id] == s.cells[id]
        decreases todo
      {
        var id := PickId(todo);
        var message := new MessageRow(id, cells[id].row);
        message.status := Queued;
        message.next := Some(at);
        message.updated := s.now;
        cells := cells[id := cells[id].(row := message.Snapshot())];
        todo := todo - {id};
      }
      assert forall id | id in s.cells ::
        cells[id] == if id in ids then s.cells[id].(row := Requeued(s.cells[id].row, at, s.now)) else s.cells[id];
    }

    /** The oldest due message, or none. */
    method OldestDueMessage() returns (found: Option<Id>)
      ensures found.Some? ==> OldestDue(s, found.value)
      ensures found.None? ==> forall j | j in s.cells :: !Due(s.cells[j].row, s.now)
    {
      found := None;
      var todo := s.cells.Keys;
      while todo != {}
        invariant todo <= s.cells.Keys
        invariant found.Some? ==> found.value in s.cells && Due(s.cells[found.value].row, s.now)
        invariant found.Some? ==> forall j | j in s.cells && j !in todo && Due(s.cells[j].row, s.now) ::
          s.cells[found.value].row.created <= s.cells[j].row.created
        invariant found.None? ==> forall j | j in s.cells && j !in todo :: !Due(s.cells[j].row, s.now)
        decreases todo
      {
        var id := PickId(todo);
        if Due(s.cells[id].row, s.now) && (found.None? || s.cells[id].row.created < s.cells[found.value].row.created) {
          found := Some(id);
        }
        todo := todo - {id};
      }
    }

    method ClaimNext(w: World) returns (found: Option<Id>, message: MessageRow?)
      requires Valid() && s.hand == Swept && w.OnlyOthers()
      modifies this`s, this`log, this`acts
      ensures Valid() && old(log) <= log && acts == old(acts) + ClaimScript(found, w.claimOk)
      ensures message != null <==> found.Some? && w.claimOk
      ensures message == null ==> s.hand == Top
      ensures found.None? && w.claimOk ==> forall j | j in s.cells :: !Due(s.cells[j].row, s.now)
      ensures message != null ==> fresh(message) && Holds(message, Held) && message.id == found.value
      ensures message != null ==> ClaimsSoFar() > old(ClaimsSoFar())
      ensures message != null ==> message.id in old(s.cells)
      ensures message != null ==>
        message.Snapshot() == old(s.cells)[message.id].row.(status := Sending, updated := old(s.now))
      ensures message != null ==> message.id in s.cells && s.cells[message.id].row == message.Snapshot()
    {
      message := null;
      found := OldestDueMessage();
      if found.None? && w.claimOk {
        Perform(ClaimNone, s.(hand := Top));
        return;
      }
      var at := s.now;
      ghost var before := log;
      if found.Some? {
        Perform(ClaimRead(found.value), s.(hand := Claiming(found.value, at)));
        AwaitOthers(w.claim);
      }
      if w.claimOk {
        ClaimsGrow(c, Init(start), before, log);
        message := MarkSending(found.value, at);
      } else {
        Abandon();
      }
    }

    method MarkSending(id: Id, at: int) returns (message: MessageRow)
      requires Valid() && s.hand == Claiming(id, at) && id in s.cells
      modifies this`s, this`log, this`acts
      ensures Valid() && old(log) <= log && fresh(message) && message.id == id && Holds(message, Held)
        && acts == old(acts) + [ClaimCommit]
      ensures ClaimsSoFar() > old(ClaimsSoFar())
      ensures message.Snapshot() == old(s.cells)[id].row.(status := Sending, updated := at)
      ensures id in s.cells && s.cells[id].row == message.Snapshot()
    {
      var x := s.cells[id];
      var claimed := new MessageRow(id, x.row);
      claimed.status := Sending;
      claimed.updated := at;
      var row := claimed.Snapshot();
      OneMoreClaim(c, Init(start), log);
      Perform(ClaimCommit, s.(cells := s.cells[id := x.(row := row).Log(Claim(at, x.row.attempts))],
        hand := Holding(id, row, row, Held)));
      message := new MessageRow(id, row);
    }

    /** `session.commit()`: the columns that differ from what was loaded are written to the row as it is now. What is
        left in the table is exactly the object. */
    method CommitMessage(message: MessageRow)
      requires Valid() && s.hand.Holding? && Dirty(s.hand.stage) && message.id == s.hand.id
      requires s.hand.base == message.base && s.hand.copy == message.Snapshot()
      modifies this`s, this`log, this`acts, message
      ensures Valid() && old(log) <= log && message.Snapshot() == old(message.Snapshot()).(updated := old(s.now))
      ensures acts == old(acts) + [Commit]
      ensures !old(s.hand.stage.FallbackChosen?) ==> s.hand == Top
      ensures old(s.hand.stage.FallbackChosen?) ==> s.hand == Holding(message.id, message.Snapshot(),
        message.Snapshot(), Held)
      ensures message.id in s.cells && s.cells[message.id].row == message.Snapshot() && s.now == old(s.now)
    {
      HandIsCommitted(c, start, log);
      var x := s.cells[message.id];
      var row := Flush(message.base, message.Snapshot(), x.row, s.now);
      message.updated := s.now;
      var y := x.(row := row);
      match s.hand.stage {
        case FallbackChosen =>
          Perform(Commit, s.(cells := s.cells[message.id := y.Log(Fallback)],
                             hand := Holding(message.id, row, message.Snapshot(), Held)));
        case PublicationMade =>
          Perform(Commit, s.(cells := s.cells[message.id := y.Log(Publication)], hand := Top));
        case Settled(ok, at) =>
          y := if ok then y.Log(Accept) else y.(errs := x.errs + [at]).Log(Reject);
          Perform(Commit, s.(cells := s.cells[message.id := y], hand := Top));
      }
    }

    /** An exception the loop does not expect: the session is closed, the row stays as committed. */
    method Abandon()
      requires Valid()
      modifies this`s, this`log, this`acts
      ensures Valid() && s.hand == Top && old(log) <= log && acts == old(acts) + [SendFault] && s.now == old(s.now)
      ensures s.cells.Keys == old(s.cells.Keys) && forall id | id in s.cells :: s.cells[id].row == old(s.cells[id].row)
    {
      Perform(SendFault, LetGo(s));
    }

    /** The commit, or the exception it raises. */
    method CommitOrAbandon(message: MessageRow, meanwhile: seq<Event>, ok: bool)
      requires Valid() && OnlyEnv(meanwhile) && s.hand.Holding? && Dirty(s.hand.stage) && Holds(message, s.hand.stage)
      modifies this`s, this`log, this`acts, message
      ensures Valid() && old(log) <= log && acts == old(acts) + [CommitOr(ok)]
      ensures !(ok && old(s.hand.stage.FallbackChosen?)) ==> s.hand == Top
      ensures ok && old(s.hand.stage.FallbackChosen?) ==>
        s.hand == Holding(message.id, message.Snapshot(), message.Snapshot(), Held)
          && message.transport == old(message.transport)
      ensures message.id in s.cells && old(s.now) <= s.now
      ensures s.cells[message.id].row == if ok then old(message.Snapshot()).(updated := s.now) else message.base
    {
      AwaitOthers(meanwhile);
      HandIsCommitted(c, start, log);
      if ok {
        CommitMessage(message);
      } else {
        Abandon();
      }
    }

    /** The ntfy branch. It ends the iteration when the publication is committed or the loop breaks; otherwise the
        fallback has been committed and the message is still held, now for SMS. */
    method PublishFirst(message: MessageRow, w: World) returns (sms: MessageRow?)
      requires Valid() && w.OnlyOthers() && message.transport.Ntfy? && Holds(message, Held)
      modifies this`s, this`log, this`acts, message
      ensures Valid() && old(log) <= log
      ensures acts == old(acts) + PublishScript(w)
      ensures sms == null <==> !FallsBack(w)
      ensures sms == null ==> s.hand == Top
      ensures sms != null ==> fresh(sms) && Holds(sms, Held) && !sms.transport.Ntfy?
    {
      CallNtfy(message);
      AwaitOthers(w.publishing);
      sms := SettleNtfy(message, w);
    }

    /** ntfy's answer, or the exception, decides what becomes of the row. */
    method SettleNtfy(message: MessageRow, w: World) returns (sms: MessageRow?)
      requires Valid() && w.OnlyOthers() && Holds(message, PublishOut)
      ensures message.id in old(s.cells) && message.base == old(s.cells)[message.id].row
      ensures message.id in s.cells && NtfySettled(w, message.base, s.cells[message.id].row, old(s.now))
      modifies this`s, this`log, this`acts, message
      ensures Valid() && old(log) <= log
      ensures acts == old(acts) + AnswerScript(w)
      ensures sms == null <==> !FallsBack(w)
      ensures sms == null ==> s.hand == Top
      ensures sms != null ==> fresh(sms) && Holds(sms, Held) && !sms.transport.Ntfy?
    {
      sms := null;
      HandIsCommitted(c, start, log);
      match w.publish {
        case PublishBroke =>
          Abandon();
        case Receipt(receipt) =>
          AssignPublished(message, receipt);
          CommitOrAbandon(message, w.settling, w.ntfyOk);
        case PublishFailed =>
          AssignFallback(message);
          CommitOrAbandon(message, w.settling, w.ntfyOk);
          if w.ntfyOk {
            sms := new MessageRow(message.id, message.Snapshot());
          }
      }
    }

    method CallNtfy(message: MessageRow)
      requires Valid() && message.transport.Ntfy? && Holds(message, Held)
      modifies this`s, this`log, this`acts
      ensures Valid() && old(log) <= log && Holds(message, PublishOut) && acts == old(acts) + [PublishCall]
    {
      HandIsCommitted(c, start, log);
      Perform(PublishCall, CallStep(s, Publish, true, PublishOut));
    }

    method CallProvider(message: MessageRow, clock: Clock)
      requires Valid() && !message.transport.Ntfy? && Holds(message, Held)
      modifies this`s, this`log, this`acts, this`calledAt
      ensures Valid() && old(log) <= log && Holds(message, SmsOut) && acts == old(acts) + [SmsGrant]
      ensures calledAt == old(calledAt) + [clock.now]
    {
      HandIsCommitted(c, start, log);
      Perform(SmsGrant, CallStep(s, SmsCall, false, SmsOut));
      calledAt := calledAt + [clock.now];
    }

    ghost predicate Holds(message: MessageRow, stage: Stage)
      reads this, message
    {
      s.hand == Holding(message.id, message.base, message.Snapshot(), stage)
    }

    method AssignPublished(message: MessageRow, receipt: string)
      requires Valid() && Holds(message, PublishOut)
      modifies this`s, this`log, this`acts, message
      ensures Valid() && old(log) <= log && Holds(message, PublicationMade) && acts == old(acts) + [PublishOk(receipt)]
      ensures AfterPublish(old(message.Snapshot()), message.Snapshot(), receipt, old(s.now)) && s.cells == old(s.cells)
    {
      message.status := Published;
      message.pid := Some("ntfy:" + receipt);
      message.sentAt := Some(s.now);
      Perform(PublishOk(receipt), s.(hand := s.hand.(copy := message.Snapshot(), stage := PublicationMade)));
    }

    method AssignFallback(message: MessageRow)
      requires Valid() && Holds(message, PublishOut)
      modifies this`s, this`log, this`acts, message
      ensures Valid() && old(log) <= log && Holds(message, FallbackChosen) && message.transport == SmsFallback
        && acts == old(acts) + [PublishFail]
      ensures AfterFallback(old(message.Snapshot()), message.Snapshot()) && s.cells == old(s.cells)
    {
      message.transport := SmsFallback;
      Perform(PublishFail, s.(hand := s.hand.(copy := message.Snapshot(), stage := FallbackChosen)));
    }

    /** The SMS branch: wait for the limiter, call the provider at the very time it granted, settle the row. */
    method SendSms(message: MessageRow, w: World, limiter: RateLimiter, clock: Clock) returns (ghost at: int)
      requires Valid() && w.OnlyOthers() && !message.transport.Ntfy? && Holds(message, Held) && limiter.Ready(clock)
      modifies this`s, this`log, this`acts, this`calledAt, message, limiter, clock
      ensures Valid() && s.hand == Top && old(log) <= log && acts == old(acts) + SmsScript(w) && limiter.Ready(clock)
      ensures calledAt == old(calledAt) + [limiter.mark] && limiter.granted == old(limiter.granted) + [limiter.mark]
      ensures message.id in s.cells && SmsSettled(c, w, message.base, s.cells[message.id].row, at)
    {
      AwaitOthers(w.waiting);
      var sleeps, asked, granted := limiter.Acquire(clock);
      CallProvider(message, clock);
      at := SettleSms(message, w);
    }

    /** The provider's answer, or the exception, decides what becomes of the row; `at` is when the answer came. */
    method SettleSms(message: MessageRow, w: World) returns (ghost at: int)
      requires Valid() && w.OnlyOthers() && Holds(message, SmsOut)
      modifies this`s, this`log, this`acts, message
      ensures Valid() && s.hand == Top && old(log) <= log && acts == old(acts) + SettleScript(w)
      ensures message.id in old(s.cells) && message.base == old(s.cells)[message.id].row && old(s.now) <= at <= s.now
      ensures message.id in s.cells && SmsSettled(c, w, message.base, s.cells[message.id].row, at)
    {
      HandIsCommitted(c, start, log);
      AwaitOthers(w.sending);
      at := s.now;
      match w.send {
        case SendBroke =>
          Abandon();
        case SendAccepted(pid) =>
          AssignSent(message, pid);
          CommitOrAbandon(message, w.committing, w.smsOk);
        case ProviderError(permanent) =>
          AssignError(message, permanent);
          CommitOrAbandon(message, w.committing, w.smsOk);
      }
    }

    method AssignSent(message: MessageRow, pid: Option<string>)
      requires Valid() && Holds(message, SmsOut)
      modifies this`s, this`log, this`acts, message
      ensures Valid() && old(log) <= log && s.hand.Holding? && s.hand.stage.Settled? && Holds(message, s.hand.stage)
      ensures acts == old(acts) + [SmsOk(pid)] && s.now == old(s.now)
      ensures AfterAccept(old(message.Snapshot()), message.Snapshot(), pid, s.now)
    {
      message.attempts := message.attempts + 1;
      message.status := Sent;
      message.pid := pid;
      message.sentAt := Some(s.now);
      Perform(SmsOk(pid), s.(hand := s.hand.(copy := message.Snapshot(), stage := Settled(true, s.now))));
    }

    method AssignError(message: MessageRow, permanent: bool)
      requires Valid() && Holds(message, SmsOut)
      modifies this`s, this`log, this`acts, message
      ensures Valid() && old(log) <= log && s.hand.Holding? && s.hand.stage.Settled? && Holds(message, s.hand.stage)
      ensures acts == old(acts) + [SmsError(permanent)] && s.now == old(s.now)
      ensures old(message.status) == Sending ==>
        AfterError(c, old(message.Snapshot()), message.Snapshot(), permanent, s.now)
    {
      message.attempts := message.attempts + 1;
      var exhausted := message.attempts >= c.maxAttempts;
      if permanent || exhausted {
        message.status := Failed;
      } else {
        message.status := Queued;
        message.next := Some(s.now + Backoff.SendSeconds(message.attempts));
      }
      Perform(SmsError(permanent), s.(hand := s.hand.(copy := message.Snapshot(), stage := Settled(false, s.now))));
    }

    method Sweep(w: World)
      requires Valid() && s.hand.Top? && w.OnlyOthers()
      modifies this`s, this`log, this`acts
      ensures Valid() && s.hand == (if w.sweepOk then Swept else Top) && old(log) <= log
      ensures acts == old(acts) + SweepScript(StuckIds(c, old(s)) != {}, w.sweepOk)
    {
      RequeueStuck(w);
      AwaitOthers(w.swept);
    }

    /** One pass of the send loop, from an empty hand to an empty hand. Its own events are exactly the ones the script
        of the pass lists, in that order: sweep, claim, then ntfy first for a routed message, then SMS, up to an
        exception. `found` is the message it read as the oldest due one, none only if none was due, and `routed` whether
        it went to ntfy first. The provider is called at the times the limiter grants. */
    method Iterate(w: World, limiter: RateLimiter, clock: Clock) returns (found: Option<Id>, routed: bool)
      requires Valid() && s.hand.Top? && w.OnlyOthers() && limiter.Ready(clock)
      modifies this`s, this`log, this`acts, this`calledAt, limiter, clock
      ensures Valid() && s.hand.Top? && old(log) <= log && limiter.Ready(clock)
      ensures acts == old(acts) + Script(StuckIds(c, old(s)) != {}, found, routed, w)
      ensures Claims(found, w) ==> ClaimsSoFar() > old(ClaimsSoFar())
      ensures found.None? && w.sweepOk && w.claimOk ==> forall j | j in s.cells :: !Due(s.cells[j].row, s.now)
      ensures Called(old(limiter.granted), limiter, old(calledAt), Claims(found, w) && ReachesSms(routed, w))
    {
      found, routed := None, false;
      ghost var before, stuck, log0 := acts, StuckIds(c, s) != {}, log;
      Sweep(w);
      if !w.sweepOk {
        return;
      }
      ClaimsGrow(c, Init(start), log0, log);
      var message: MessageRow?;
      found, message := ClaimNext(w);
      if message != null {
        routed := message.transport.Ntfy?;
        ghost var log1 := log;
        SendClaimed(message, w, limiter, clock);
        ClaimsGrow(c, Init(start), log1, log);
      }
      ScriptOf(before, acts, stuck, found, routed, w);
    }

    /** Exactly one grant, used for one call, or none. */
    ghost predicate Called(grants: seq<real>, limiter: RateLimiter, calls: seq<real>, once: bool)
      reads this, limiter
    {
      if once then limiter.granted == grants + [limiter.mark] && calledAt == calls + [limiter.mark]
      else limiter.granted == grants && calledAt == calls
    }

    method SendClaimed(message: MessageRow, w: World, limiter: RateLimiter, clock: Clock)
      requires Valid() && w.OnlyOthers() && Holds(message, Held) && limiter.Ready(clock)
      modifies this`s, this`log, this`acts, this`calledAt, message, limiter, clock
      ensures Valid() && s.hand == Top && old(log) <= log && limiter.Ready(clock)
      ensures acts == old(acts) + DeliveryScript(old(message.transport.Ntfy?), w)
      ensures Called(old(limiter.granted), limiter, old(calledAt), ReachesSms(old(message.transport.Ntfy?), w))
    {
      AwaitOthers(w.claimed);
      if message.transport.Ntfy? {
        SendRouted(message, w, limiter, clock);
      } else {
        ghost var at := SendSms(message, w, limiter, clock);
      }
    }

    /** ntfy first, and SMS only when that has failed and the fallback is committed. */
    method SendRouted(message: MessageRow, w: World, limiter: RateLimiter, clock: Clock)
      requires Valid() && w.OnlyOthers() && message.transport.Ntfy? && Holds(message, Held) && limiter.Ready(clock)
      modifies this`s, this`log, this`acts, this`calledAt, message, limiter, clock
      ensures Valid() && s.hand == Top && old(log) <= log && limiter.Ready(clock)
      ensures acts == old(acts) + DeliveryScript(true, w)
      ensures Called(old(limiter.granted), limiter, old(calledAt), ReachesSms(true, w))
    {
      ghost var before := acts;
      var sms := PublishFirst(message, w);
      if sms != null {
        ghost var at := SendSms(sms, w, limiter, clock);
      }
      Joined(before, PublishScript(w), FallbackScript(w));
    }

    // ---------- status loop, receipts, retention ----------

    /** One pass of the status loop: ask the provider about each row that was SENT when the table was read; `reported`
        is what it says (nothing, or a status). */
    method PollStatuses(meanwhile: seq<Event>, reported: map<Id, Status>) returns (ghost before: State)
      requires Valid() && s.poll.None?
      requires PollFree(meanwhile)
      requires forall id | id in reported :: reported[id].Sent? || reported[id].Delivered? || reported[id].Failed?
      modifies this`s, this`log, this`acts
      ensures Valid() && s.poll.None?
      ensures log == old(log) + [PollRead] + meanwhile + [PollCommit(Reports(Followed(old(s)), reported))]
      ensures before == Run(c, Step(c, old(s), PollRead), meanwhile) && PollWrote(old(s), before, s, reported)
    {
      ghost var read := s;
      var pending := Followed(s);
      Perform(PollRead, s.(poll := Some(pending)));
      ghost var waiting := s;
      Await(meanwhile);
      PollStays(c, waiting, meanwhile);
      before := s;
      FinishPoll(pending, reported);
      WroteNews(read, before, s, reported);
    }

    method FinishPoll(pending: set<Id>, reported: map<Id, Status>)
      requires Valid() && s.poll == Some(pending)
      requires forall id | id in reported :: reported[id].Sent? || reported[id].Delivered? || reported[id].Failed?
      modifies this`s, this`log, this`acts
      ensures Valid() && s.poll.None?
      ensures log == old(log) + [PollCommit(Reports(pending, reported))]
      ensures Wrote(old(s), s, Reports(pending, reported))
    {
      var updates := Changed(pending, reported);
      if !(updates.Keys <= s.cells.Keys) {
        Perform(PollCommit(updates), s.(poll := None));    // the flush finds a row gone and raises
        return;
      }
      Perform(PollCommit(updates), s.(poll := None, cells := map id | id in s.cells ::
                if id in updates then Overwrite(s.cells[id], updates[id], s.now) else s.cells[id]));
    }

    /** The rows whose reported status differs from the SENT they were read with. */
    method Changed(pending: set<Id>, reported: map<Id, Status>) returns (updates: map<Id, Status>)
      requires forall id | id in reported :: reported[id].Sent? || reported[id].Delivered? || reported[id].Failed?
      ensures updates == Reports(pending, reported)
    {
      updates := map[];
      var todo := pending;
      while todo != {}
        invariant todo <= pending
        invariant updates == Reports(pending - todo, reported)
        decreases todo
      {
        var id := PickId(todo);
        if id in reported && reported[id] != Sent {
          updates := updates[id := reported[id]];
        }
        todo := todo - {id};
      }
    }

    /** A delivery receipt: find the row by provider id, then mark it delivered. */
    method ApplyReceipt(rid: Rid, pid: string, meanwhile: seq<Event>)
      requires Valid() && rid !in s.receipts
      modifies this`s, this`log, this`acts
      ensures Valid()
      ensures (forall id | id in old(s.cells) :: !OnlyWithPid(old(s), pid, id)) ==> log == old(log)
      ensures forall id | id in old(s.cells) && OnlyWithPid(old(s), pid, id) ::
        log == old(log) + [ReceiptRead(rid, pid, id)] + meanwhile + [ReceiptCommit(rid)]
    {
      if pid == "" {
        return;
      }
      var matches := set id | id in s.cells && s.cells[id].row.pid == Some(pid);
      forall j | j in s.cells && OnlyWithPid(s, pid, j) ensures matches == {j} {
        SoleMatch(s, pid, j);
      }
      if matches == {} {
        return;
      }
      var id := PickId(matches);
      if matches != {id} {
        return;    // the query raises: more than one row
      }
      assert OnlyWithPid(s, pid, id) by {
        forall j | j in s.cells && s.cells[j].row.pid == Some(pid) ensures j == id { assert j in matches; }
      }
      Perform(ReceiptRead(rid, pid, id), s.(receipts := s.receipts[rid := Loaded(id, s.cells[id].row.status)]));
      Await(meanwhile);
      FinishReceipt(rid);
    }

    method FinishReceipt(rid: Rid)
      requires Valid()
      modifies this`s, this`log, this`acts
      ensures Valid() && log == old(log) + [ReceiptCommit(rid)]
    {
      if rid !in s.receipts {
        Perform(ReceiptCommit(rid), s);    // the process went down in between
        return;
      }
      var loaded := s.receipts[rid];
      var t := s.(receipts := s.receipts - {rid});
      if loaded.id in s.cells && loaded.status != Delivered {
        var message := new MessageRow(loaded.id, s.cells[loaded.id].row);
        message.status := Delivered;
        message.updated := s.now;
        t := t.(cells := s.cells[loaded.id := s.cells[loaded.id].(row := message.Snapshot())]);
      }
      Perform(ReceiptCommit(rid), t);
    }

    // ---------- send_message ----------

    /** The row with this service and key. */
    method ExistingByKey(service: string, key: Option<string>) returns (found: Option<Id>)
      ensures Answers(s, service, key, found)
    {
      found := None;
      var todo := s.cells.Keys;
      while todo != {} && found.None?
        invariant todo <= s.cells.Keys
        invariant found.None? ==> forall id | id in s.cells && id !in todo :: !SameKey(s.cells[id].row, service, key)
        invariant found.Some? ==> found.value in s.cells && SameKey(s.cells[found.value].row, service, key)
        decreases todo
      {
        var id := PickId(todo);
        if SameKey(s.cells[id].row, service, key) {
          found := Some(id);
        }
        todo := todo - {id};
      }
    }

    /** `send_message`: exactly one reply is given, always for the request's own service and key. `topics` has an
        entry for each recipient, `ids` are fresh ids for the rows; the last two parameters are what else runs at
        the awaits. */
    method SendMessage(rid: Rid, service: string, key: Option<string>, topics: seq<Option<string>>, ids: seq<Id>,
                       beforeInsert: seq<Event>, beforeRecover: seq<Event>)
      requires Valid() && rid !in s.requests && |ids| == |topics|
      requires OthersOnly(rid, beforeInsert) && OthersOnly(rid, beforeRecover)
      requires FreshIds(Run(c, s.(requests := s.requests[rid := Missed(service, key, topics)]), beforeInsert), ids)
      modifies this`s, this`log, this`acts
      ensures Valid() && rid !in s.requests && old(log) < log && Answered(service, key)
    {
      var goOn := Look(rid, service, key, topics);
      if goOn {
        ghost var before := s;
        Await(beforeInsert);
        RequestStaysRun(c, before, beforeInsert, rid);
        var lost := Insert(rid, service, key, topics, ids);
        if lost {
          before := s;
          Await(beforeRecover);
          RequestStaysRun(c, before, beforeRecover, rid);
          Recover(rid, service, key);
        }
      }
    }

    /** The very last event gave a reply, to this service and key. */
    ghost predicate Answered(service: string, key: Option<string>)
      reads this
    {
      log != [] &&
      var before := Run(c, Init(start), log[..|log| - 1]).replies;
      && |s.replies| == |before| + 1 && s.replies[..|before|] == before
      && s.replies[|before|].service == service && s.replies[|before|].key == key
    }

    method Look(rid: Rid, service: string, key: Option<string>, topics: seq<Option<string>>) returns (goOn: bool)
      requires Valid() && rid !in s.requests
      modifies this`s, this`log, this`acts
      ensures Valid() && old(log) < log
      ensures goOn ==> s == old(s).(requests := old(s).requests[rid := Missed(service, key, topics)])
      ensures !goOn ==> rid !in s.requests && Answered(service, key)
    {
      goOn := false;
      if topics == [] || (Truthy(key) && |topics| > 1) {
        Perform(SubmitLookup(rid, service, key, topics, None),
          s.(replies := s.replies + [Reply(service, key, [], Refused)]));
        return;
      }
      if Truthy(key) {
        var found := ExistingByKey(service, key);
        if found.Some? {
          Perform(SubmitLookup(rid, service, key, topics, found),
            s.(replies := s.replies + [Reply(service, key, [found.value], Replayed)]));
          return;
        }
      }
      Perform(SubmitLookup(rid, service, key, topics, None),
        s.(requests := s.requests[rid := Missed(service, key, topics)]));
      goOn := true;
    }

    method Insert(rid: Rid, service: string, key: Option<string>, topics: seq<Option<string>>,
                  ids: seq<Id>) returns (lost: bool)
      requires Valid() && rid in s.requests && s.requests[rid] == Missed(service, key, topics) && |ids| == |topics|
        && FreshIds(s, ids)
      modifies this`s, this`log, this`acts
      ensures Valid() && old(log) < log
      ensures lost ==>
        rid in s.requests && s.requests[rid].Conflict? && s.requests[rid].service == service
        && s.requests[rid].key == key
      ensures !lost ==> rid !in s.requests && Answered(service, key)
    {
      lost := false;
      var added := BuildRows(service, key, topics, ids);
      var clash := ExistingByKey(service, key);
      if clash.None? && !(key.Some? && |ids| > 1) {
        Perform(SubmitInsert(rid, ids, clash), s.(cells := s.cells + added, requests := s.requests - {rid},
                                                 replies := s.replies + [Reply(service, key, ids, Accepted)]));
      } else if clash.Some? && Truthy(key) {
        Perform(SubmitInsert(rid, ids, clash), s.(requests := s.requests[rid := Conflict(service, key, clash.value)]));
        lost := true;
      } else {
        Perform(SubmitInsert(rid, ids, clash), s.(requests := s.requests - {rid},
          replies := s.replies + [Reply(service, key, [], Crashed500)]));
      }
    }

    method Recover(rid: Rid, service: string, key: Option<string>)
      requires Valid() && rid in s.requests && s.requests[rid].Conflict? && s.requests[rid].service == service
        && s.requests[rid].key == key
      modifies this`s, this`log, this`acts
      ensures Valid() && old(log) < log && rid !in s.requests && Answered(service, key)
    {
      var found := ExistingByKey(service, key);
      var reply := if found.Some? then Reply(service, key, [found.value], Replayed)
        else Reply(service, key, [], Crashed500);
      Perform(SubmitRecover(rid, found), s.(requests := s.requests - {rid}, replies := s.replies + [reply]));
    }

    /** One new row per recipient, its transport chosen by its topic. */
    method BuildRows(service: string, key: Option<string>, topics: seq<Option<string>>,
                     ids: seq<Id>) returns (added: map<Id, Cell>)
      requires |ids| == |topics| && Distinct(ids)
      ensures added == NewCells(Missed(service, key, topics), ids, s.now)
    {
      added := map[];
      var i := 0;
      while i < |ids|
        invariant 0 <= i <= |ids|
        invariant forall j | 0 <= j < i ::
          ids[j] in added && added[ids[j]] == Cell(NewOutbound(service, key, topics[j], s.now), [], [])
        invariant forall id | id in added :: exists j :: 0 <= j < i && ids[j] == id
      {
        var message := new MessageRow(ids[i], NewOutbound(service, key, None, s.now).(topic := topics[i]));
        message.transport := if topics[i].Some? then Ntfy else Sms;
        added := added[ids[i] := Cell(message.Snapshot(), [], [])];
        i := i + 1;
      }
      var all := NewCells(Missed(service, key, topics), ids, s.now);
      forall id | id in added ensures id in all && added[id] == all[id] {}
      forall id | id in all ensures id in added {}
    }
  }

  /** `id` was SENT with an id less than a day before the read, and the provider reports something else about it. */
  predicate News(read: State, reported: map<Id, Status>, id: Id) {
    && id in read.cells && id in reported && reported[id] != Sent
    && var r := read.cells[id].row;
      r.status == Sent && r.pid.Some? && r.sentAt.Some? && read.now < r.sentAt.value + 86400
  }

  /** Unless one of them has been deleted, exactly the rows with news have the reported status; nothing else changes. */
  ghost predicate PollWrote(read: State, u: State, t: State, reported: map<Id, Status>) {
    && t.cells.Keys == u.cells.Keys
    && (if forall id | News(read, reported, id) :: id in u.cells then
          forall id | id in u.cells :: t.cells[id] ==
            if News(read, reported, id) then u.cells[id].(row := u.cells[id].row.(status := reported[id],
              updated := u.now))
            else u.cells[id]
        else t.cells == u.cells)
  }

  ghost predicate Wrote(u: State, t: State, updates: map<Id, Status>) {
    && t.cells.Keys == u.cells.Keys
    && (if updates.Keys <= u.cells.Keys then
          forall id | id in u.cells :: t.cells[id] ==
            if id in updates then u.cells[id].(row := u.cells[id].row.(status := updates[id], updated := u.now))
            else u.cells[id]
        else t.cells == u.cells)
  }

  lemma ReportsAreNews(read: State, reported: map<Id, Status>)
    ensures forall id :: id in Reports(Followed(read), reported) <==> News(read, reported, id)
    ensures forall id | News(read, reported, id) :: Reports(Followed(read), reported)[id] == reported[id]
  {
  }

  lemma WroteNews(read: State, u: State, t: State, reported: map<Id, Status>)
    requires Wrote(u, t, Reports(Followed(read), reported))
    ensures PollWrote(read, u, t, reported)
  {
    var updates := Reports(Followed(read), reported);
    ReportsAreNews(read, reported);
    assert updates.Keys <= u.cells.Keys <==> forall id | News(read, reported, id) :: id in u.cells by {
      if forall id | News(read, reported, id) :: id in u.cells {
        forall id | id in updates ensures id in u.cells { assert News(read, reported, id); }
      }
      if updates.Keys <= u.cells.Keys {
        forall id | News(read, reported, id) ensures id in u.cells { assert id in updates.Keys; }
      }
    }
    if updates.Keys <= u.cells.Keys {
      forall id | id in u.cells ensures id in updates <==> News(read, reported, id) {}
    }
  }

  /** What the ntfy branch leaves in the table, from the row before and the time of the answer. */
  predicate NtfySettled(w: World, before: Row, after: Row, at: int) {
    if w.publish.PublishBroke? || !w.ntfyOk then after == before
    else
      match w.publish
      case Receipt(receipt) => AfterPublish(before, after, receipt, at)
      case PublishFailed => AfterFallback(before, after) && after.status == Sending
      case PublishBroke => after == before
  }

  /** What the SMS branch leaves in the table, from the row before and the time of the answer. */
  ghost predicate SmsSettled(c: Config, w: World, before: Row, after: Row, at: int) {
    if w.send.SendBroke? || !w.smsOk then after == before
    else
      match w.send
      case SendAccepted(pid) => AfterAccept(before, after, pid, at)
      case ProviderError(permanent) => AfterError(c, before, after, permanent, at)
      case SendBroke => after == before
  }

  lemma SoleMatch(s: State, pid: string, id: Id)
    requires OnlyWithPid(s, pid, id)
    ensures (set j | j in s.cells && s.cells[j].row.pid == Some(pid)) == {id}
  {
    var m := set j | j in s.cells && s.cells[j].row.pid == Some(pid);
    forall j ensures j in m <==> j in {id} {}
  }

  /** Events of other requests and tasks, with the process staying up. */
  ghost predicate OthersOnly(rid: Rid, es: seq<Event>) {
    forall i | 0 <= i < |es| :: !es[i].Crash? && !(es[i].SubmitInsert? && es[i].rid == rid)
      && !(es[i].SubmitRecover? && es[i].rid == rid)
  }

  lemma RunSnoc(c: Config, s: State, es: seq<Event>, e: Event)
    ensures Run(c, s, es + [e]) == Step(c, Run(c, s, es), e)
  {
    RunAppend(c, s, es, [e]);
    assert [e][1..] == [];
    assert Run(c, Run(c, s, es), [e]) == Step(c, Run(c, s, es), e);
  }

  lemma OneMoreClaim(c: Config, s: State, es: seq<Event>)
    requires var t := Run(c, s, es); t.hand.Claiming? && t.hand.id in t.cells
    ensures ClaimsIn(c, s, es + [ClaimCommit]) == ClaimsIn(c, s, es) + 1
  {
    ClaimsAppend(c, s, es, [ClaimCommit]);
    assert [ClaimCommit][1..] == [];
    assert ClaimsIn(c, Run(c, s, es), [ClaimCommit]) == 1 + ClaimsIn(c, Step(c, Run(c, s, es), ClaimCommit), []);
  }

  lemma ClaimsGrow(c: Config, s: State, before: seq<Event>, after: seq<Event>)
    requires before <= after
    ensures ClaimsIn(c, s, before) <= ClaimsIn(c, s, after)
  {
    assert after == before + after[|before|..];
    ClaimsAppend(c, s, before, after[|before|..]);
  }

  lemma NextEvent(c: Config, s: State, es: seq<Event>, i: nat)
    requires i < |es|
    ensures es[..i + 1] == es[..i] + [es[i]]
    ensures Run(c, s, es[..i + 1]) == Step(c, Run(c, s, es[..i]), es[i])
    ensures Own(es[..i + 1]) == Own(es[..i]) + if OwnEvent(es[i]) then [es[i]] else []
  {
    assert es[..i + 1] == es[..i] + [es[i]];
    assert es[..i + 1][..i] == es[..i];
    RunSnoc(c, s, es[..i], es[i]);
  }

  lemma OthersTouchNothing(c: Config, start: int, log: seq<Event>, es: seq<Event>)
    requires OnlyEnv(es)
    ensures var s := Run(c, Init(start), log);
      var t := Run(c, s, es);
      && t.hand == s.hand && s.now <= t.now
      && forall id | id in s.cells && Pending(s.cells[id].row.status) :: id in t.cells && t.cells[id] == s.cells[id]
  {
    var s := Run(c, Init(start), log);
    InitInv(c, start);
    RunKeeps(c, Init(start), log);
    HandUntouched(c, s, es);
    RunAdvances(c, s, es);
    forall id | id in s.cells && Pending(s.cells[id].row.status)
      ensures id in Run(c, s, es).cells && Run(c, s, es).cells[id] == s.cells[id]
    {
      OnlySendLoopTouchesPending(c, s, es, id);
    }
  }

  /** In every state of a run, what the send loop holds is in the table, as it was loaded. */
  lemma HandIsCommitted(c: Config, start: int, log: seq<Event>)
    ensures var s := Run(c, Init(start), log);
      && (s.hand.Requeueing? ==> s.hand.ids <= s.cells.Keys)
      && (s.hand.Claiming? ==> s.hand.id in s.cells)
      && (s.hand.Holding? ==> s.hand.id in s.cells && s.cells[s.hand.id].row == s.hand.base)
      && (s.hand.Holding? ==> s.hand.base.status.Sending? && (!Dirty(s.hand.stage) ==> s.hand.copy == s.hand.base))
      && (s.hand.Holding? && Dirty(s.hand.stage) ==>
        CommittedCell(s.cells[s.hand.id], s.hand, s.now).row == s.hand.copy.(updated := s.now))
  {
    var s := Run(c, Init(start), log);
    InitInv(c, start);
    RunKeeps(c, Init(start), log);
    if s.hand.Holding? && Dirty(s.hand.stage) {
      CommittedCellKeeps(c, s);
    }
  }

  lemma {:induction false} HandUntouched(c: Config, s: State, es: seq<Event>)
    requires OnlyEnv(es)
    ensures Run(c, s, es).hand == s.hand
    decreases |es|
  {
    if es != [] {
      HandStays(c, s, es[0]);
      HandUntouched(c, Step(c, s, es[0]), es[1..]);
    }
  }

  lemma HandStays(c: Config, s: State, e: Event)
    requires EnvEvent(e)
    ensures Step(c, s, e).hand == s.hand
  {
  }

  /** The status loop is at its await and the process stays up. */
  ghost predicate PollFree(es: seq<Event>) {
    forall i | 0 <= i < |es| :: !es[i].PollRead? && !es[i].PollCommit? && !es[i].PollFault? && !es[i].Crash?
  }

  lemma {:induction false} PollStays(c: Config, s: State, es: seq<Event>)
    requires PollFree(es)
    ensures Run(c, s, es).poll == s.poll
    decreases |es|
  {
    if es != [] {
      PollStaysStep(c, s, es[0]);
      PollStays(c, Step(c, s, es[0]), es[1..]);
    }
  }

  lemma PollStaysStep(c: Config, s: State, e: Event)
    requires !e.PollRead? && !e.PollCommit? && !e.PollFault? && !e.Crash?
    ensures Step(c, s, e).poll == s.poll
  {
  }

  lemma {:induction false} RequestStaysRun(c: Config, s: State, es: seq<Event>, rid: Rid)
    requires rid in s.requests && OthersOnly(rid, es)
    ensures rid in Run(c, s, es).requests && Run(c, s, es).requests[rid] == s.requests[rid]
    decreases |es|
  {
    if es != [] {
      if es[0].SubmitInsert? {
        InsertLeavesRequest(s, es[0].rid, es[0].ids, es[0].clash, rid);
      } else {
        RequestsStay(c, s, es[0], rid);
      }
      RequestStaysRun(c, Step(c, s, es[0]), es[1..], rid);
    }
  }

  lemma InsertLeavesRequest(s: State, other: Rid, ids: seq<Id>, clash: Option<Id>, rid: Rid)
    requires rid in s.requests && other != rid
    ensures var t := InsertStep(s, other, ids, clash); rid in t.requests && t.requests[rid] == s.requests[rid]
  {
  }
}
