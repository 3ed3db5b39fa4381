/**
  The inbound handler and one pass of the fan-out loop as the program runs them, each delivery object changed in place.
  What is proved is that, with the rest of the system running at every await, they are a run of the fan-out machine.
 */
module FanoutCode {
  import opened Prelude
  import opened Webhooks
  import opened Fanout

  class Service {
    const subs: seq<Subscriber>
    var s: State
    ghost const start: int
    ghost var log: seq<Event>
    ghost var acts: seq<Event>    // the fan-out loop's own events in the log

    ghost predicate Valid()
      reads this
    {
      s == Run(subs, Init(start), log) && acts == Own(log)
    }

    constructor (subs: seq<Subscriber>, now: int)
      ensures Valid() && s == Init(now) && this.subs == subs && log == []
    {
      this.subs, start, s, log, acts := subs, now, Init(now), [], [];
    }

    /** The running code moves the system to `t`, which must be what the machine does on `e`. */
    method Perform(ghost e: Event, t: State)
      requires Valid() && t == Step(subs, s, e)
      modifies this
      ensures Valid() && s == t && log == old(log) + [e] && acts == old(acts) + (if LoopEvent(e) then [e] else [])
    {
      RunSnoc(subs, Init(start), log, e);
      OwnSnoc(log, e);
      s, log := t, log + [e];
      acts := acts + if LoopEvent(e) then [e] else [];
    }

    /** An await outside the loop: anything may run. */
    method Await(es: seq<Event>)
      requires Valid()
      modifies this
      ensures Valid() && s == Run(subs, old(s), es) && log == old(log) + es && (OthersOnly(es) ==> acts == old(acts))
    {
      var i := 0;
      while i < |es|
        invariant 0 <= i <= |es| && Valid()
        invariant s == Run(subs, old(s), es[..i]) && log == old(log) + es[..i] && (OthersOnly(es) ==> acts == old(acts))
      {
        NextEvent(subs, old(s), es, i);
        Perform(es[i], Step(subs, s, es[i]));
        i := i + 1;
      }
      assert es[..i] == es;
    }

    // ---------- the inbound handler ----------

    /** The stored message with this provider id: none, one, or a query that raises. */
    method FindByPid(pid: string) returns (found: Option<Id>, several: bool)
      ensures found.None? ==> forall j | j in s.messages :: !Holds(s, j, pid)
      ensures found.Some? ==> Holds(s, found.value, pid)
      ensures several <==> found.Some? && exists j :: j in s.messages && Holds(s, j, pid) && j != found.value
    {
      found, several := None, false;
      var todo := s.messages.Keys;
      while todo != {}
        invariant todo <= s.messages.Keys
        invariant found.None? ==> forall j | j in s.messages && j !in todo :: !Holds(s, j, pid)
        invariant found.Some? ==> Holds(s, found.value, pid) && found.value !in todo
        invariant several <==> found.Some? && exists j ::
          j in s.messages && j !in todo && Holds(s, j, pid) && j != found.value
        decreases todo
      {
        var id := PickId(todo);
        if Holds(s, id, pid) {
          several := found.Some?;
          found := if found.Some? then found else Some(id);
        }
        todo := todo - {id};
      }
    }

    /** `android_gateway_inbound` for a received message: a duplicate is answered with the stored id, anything else is
        stored with one delivery per interested subscriber, or not at all. `id` and `dids` are fresh; `meanwhile` is
        what runs before the insert, the wait for the write lock included. */
    method Receive(rid: Rid, pid: Option<string>, id: Id, dids: seq<Did>, meanwhile: seq<Event>)
      requires Valid() && rid !in s.requests && |dids| == |Wanting(subs, {})|
      requires forall i | 0 <= i < |meanwhile| ::
        !meanwhile[i].Fault? && !Ends(meanwhile[i], rid)
      requires var t := Run(subs, s.(requests := s.requests[rid := pid]), meanwhile);
        id !in t.messages && id !in t.gone && FreshDids(t, dids)
      modifies this
      ensures Valid() && rid !in s.requests
      ensures pid.Some? && (exists j :: j in old(s.messages) && Holds(old(s), j, pid.value)) ==>
        s.messages == old(s.messages) && s.cells == old(s.cells) && |s.replies| == |old(s.replies)| + 1
      ensures forall j | pid.Some? && SoleHolder(old(s), j, pid.value) ::
        s.replies == old(s.replies) + [Reply(pid, j, Duplicate)]
      ensures pid.None? || (forall j | j in old(s.messages) :: !Holds(old(s), j, pid.value)) ==>
        (id in s.messages <==> !Locked(s) && DistinctSubscribers(NewDeliveries(id, Wanting(subs, {}), s.now)))
    {
      var found: Option<Id> := None;
      if pid.Some? {
        var several: bool;
        found, several := FindByPid(pid.value);
        if found.Some? {
          Perform(InboundLookup(rid, pid, found),
                  s.(replies := s.replies + [Reply(pid, found.value, if several then Error500 else Duplicate)]));
          return;
        }
      }
      Perform(InboundLookup(rid, pid, None), s.(requests := s.requests[rid := pid]));
      ghost var before := s;
      Await(meanwhile);
      RequestStays(subs, before, meanwhile, rid);
      Store(rid, pid, id, dids);
    }

    method Store(rid: Rid, pid: Option<string>, id: Id, dids: seq<Did>)
      requires Valid() && rid in s.requests && s.requests[rid] == pid && id !in s.messages && id !in s.gone
      requires |dids| == |Wanting(subs, {})| && FreshDids(s, dids)
      modifies this
      ensures Valid() && rid !in s.requests && s.now == old(s.now)
      ensures id in s.messages <==> !Locked(s) && DistinctSubscribers(NewDeliveries(id, Wanting(subs, {}), s.now))
    {
      var rows, created := EnqueueFanout(subs, {}, id, s.now);
      if s.batch.Some? && s.batch.value.locked {
        Fail(rid);    // waited too long for the fan-out batch
      } else if DistinctSubscribers(rows) {
        StoreRows(rid, id, dids, rows);
      } else {
        Perform(InboundInsert(rid, id, dids), s.(requests := s.requests - {rid},
          replies := s.replies + [Reply(pid, id, Error500)]));
      }
    }

    method Fail(rid: Rid)
      requires Valid() && rid in s.requests
      modifies this
      ensures Valid() && s == old(s).(requests := old(s).requests - {rid}, replies := s.replies)
    {
      Perform(InboundFault(rid), s.(requests := s.requests - {rid},
        replies := s.replies + [Reply(s.requests[rid], 0, Error500)]));
    }

    method StoreRows(rid: Rid, id: Id, dids: seq<Did>, rows: seq<Delivery>)
      requires Valid() && rid in s.requests && id !in s.messages && id !in s.gone && FreshDids(s, dids) && !Locked(s)
      requires rows == NewDeliveries(id, Wanting(subs, {}), s.now) && |dids| == |rows| && DistinctSubscribers(rows)
      modifies this
      ensures Valid() && s.requests == old(s).requests - {rid} && s.now == old(s.now) && s.batch == old(s.batch)
      ensures s.messages == old(s).messages[id := old(s).requests[rid]]
    {
      var pid := s.requests[rid];
      Perform(InboundInsert(rid, id, dids),
              s.(requests := s.requests - {rid}, replies := s.replies + [Reply(pid, id, Stored)],
                 messages := s.messages[id := pid], cells := s.cells + NewCells(rows, dids),
                 used := s.used + set d | d in dids));
    }

    // ---------- the fan-out loop ----------

    /** One pass over the due rows `dids`: each has its turn, then all changes are committed together. The pass ends
        early when the write before a load finds a row deleted. `answers` are the subscribers' answers and `meanwhile`
        what else runs before each turn; `turns` is how many there were. */
    method FanOutOnce(dids: seq<Did>, answers: seq<Answer>, meanwhile: seq<seq<Event>>) returns (turns: nat)
      requires Valid() && s.batch.None? && Selects(s, dids) && |answers| == |meanwhile| == |dids|
      requires forall i | 0 <= i < |meanwhile| :: OthersOnly(meanwhile[i])
      modifies this
      ensures Valid() && s.batch.None? && turns <= |dids|
      ensures acts == old(acts) + [BatchRead(dids)] + Posts(answers[..turns])
        || (turns == |dids| && acts == old(acts) + [BatchRead(dids)] + Posts(answers) + [BatchCommit])
    {
      ReadBatch(dids);
      turns := PostAll(dids, answers, meanwhile);
      if s.batch.Some? {
        CommitBatch();
      }
    }

    method ReadBatch(dids: seq<Did>)
      requires Valid() && s.batch.None? && Selects(s, dids)
      modifies this
      ensures Valid() && acts == old(acts) + [BatchRead(dids)]
      ensures s.batch.Some? && s.batch.value.todo == dids && forall i | 0 <= i < |dids| :: dids[i] in s.batch.value.base
    {
      var base := map d | d in dids && d in s.cells :: s.cells[d].row;
      Perform(BatchRead(dids), s.(batch := Some(Batch(dids, base, map[], None, false))));
    }

    method CommitBatch()
      requires Valid() && s.batch.Some? && s.batch.value.todo == []
      modifies this
      ensures Valid() && s.batch.None? && acts == old(acts) + [BatchCommit]
    {
      Perform(BatchCommit, CommitStep(s));
    }

    method PostAll(dids: seq<Did>, answers: seq<Answer>, meanwhile: seq<seq<Event>>) returns (turns: nat)
      requires Valid() && |answers| == |meanwhile| == |dids|
        && forall i | 0 <= i < |meanwhile| :: OthersOnly(meanwhile[i])
      requires s.batch.Some? && s.batch.value.todo == dids
        && forall i | 0 <= i < |dids| :: dids[i] in s.batch.value.base
      modifies this
      ensures Valid() && turns <= |dids| && acts == old(acts) + Posts(answers[..turns])
      ensures s.batch.Some? ==> s.batch.value.todo == [] && turns == |dids| && answers[..turns] == answers
    {
      ghost var atRead, base := acts, s.batch.value.base;
      turns := 0;
      while turns < |dids| && s.batch.Some?
        invariant 0 <= turns <= |dids| && Valid()
        invariant s.batch.Some? ==> s.batch.value.todo == dids[turns..] && s.batch.value.base == base
        invariant acts == atRead + Posts(answers[..turns])
        decreases |dids| - turns
      {
        TakeTurn(answers[turns], meanwhile[turns]);
        assert dids[turns..][1..] == dids[turns + 1..];
        PostsStep(answers, turns);
        turns := turns + 1;
      }
      assert turns == |dids| ==> answers[..turns] == answers && dids[turns..] == [];
    }

    method TakeTurn(answer: Answer, meanwhile: seq<Event>)
      requires Valid() && Posting(s) && OthersOnly(meanwhile)
      modifies this
      ensures Valid() && acts == old(acts) + [Post(answer)]
      ensures s.batch.Some? ==>
        s.batch.value.todo == old(s.batch.value.todo)[1..] && s.batch.value.base == old(s.batch.value.base)
    {
      BatchStays(subs, s, meanwhile);
      Await(meanwhile);
      if s.batch.value.loaded != Some(s.batch.value.base[s.batch.value.todo[0]].message)
        && s.batch.value.done != map[] {
        WriteThenDeliver(answer);
      } else {
        DeliverNext(answer, s.batch.value.locked);
      }
    }

    /** The select of another message first writes the changed rows: if one is gone this raises and the batch is lost,
        otherwise the session holds the write lock from here on. */
    method WriteThenDeliver(answer: Answer)
      requires Valid() && Posting(s) && Flushes(s)
      modifies this
      ensures Valid() && acts == old(acts) + [Post(answer)]
      ensures s.batch.Some? ==>
        s.batch.value.todo == old(s.batch.value.todo)[1..] && s.batch.value.base == old(s.batch.value.base)
    {
      if s.batch.value.done.Keys <= s.cells.Keys {
        DeliverNext(answer, true);
      } else {
        Perform(Post(answer), Drop(s));
      }
    }

    /** `session.get`: what the session still holds, or the row. */
    function GetMessage(id: Id): Option<Id>
      reads this
    {
      if s.batch.Some? && s.batch.value.loaded == Some(id) then Some(id)
      else if id in s.messages then Some(id)
      else None
    }

    /** Loads the next delivery's message, delivers unless it is gone, and keeps the changed object. */
    method DeliverNext(answer: Answer, locked: bool)
      requires Valid() && Posting(s) && !FlushFails(s) && locked == (s.batch.value.locked || Flushes(s))
      modifies this
      ensures Valid() && acts == old(acts) + [Post(answer)]
      ensures s.batch.Some? && s.batch.value.todo == old(s.batch.value.todo)[1..]
        && s.batch.value.base == old(s.batch.value.base)
    {
      var b := s.batch.value;
      var message := GetMessage(b.base[b.todo[0]].message);
      var work := Attempt(b.base[b.todo[0]], message, answer);
      var cells := if work.posted then Noted(s, b.todo[0], work.acked) else s.cells;
      TurnIs(subs, s, answer, message, work, locked);
      Perform(Post(answer),
        s.(cells := cells, batch := Some(Batch(b.todo[1..], b.base, b.done[b.todo[0] := work], message, locked))));
    }

    /** The row object is delivered, or cancelled when its message is gone. */
    method Attempt(d: Delivery, message: Option<Id>, answer: Answer) returns (work: Work)
      ensures work == Attempted(subs, d, message, answer, s.now)
    {
      var delivery := new DeliveryRow(d);
      if message.Some? {
        delivery.Deliver(subs, answer, s.now);
      } else {
        delivery.status := Cancelled;
      }
      var posted := delivery.posts > 0;
      work := Work(delivery.Snapshot(), posted, posted && Acknowledges(answer), s.now);
    }
  }

  /** The one message stored under the id. */
  ghost predicate SoleHolder(s: State, j: Id, p: string) {
    Holds(s, j, p) && forall m | m in s.messages && Holds(s, m, p) :: m == j
  }

  function Attempted(subs: seq<Subscriber>, d: Delivery, message: Option<Id>, answer: Answer, now: int): Work {
    if message.Some? && Configured(subs, d.subscriber) then Work(After(d, true, answer, now), true,
      Acknowledges(answer), now)
    else Work(d.(status := Cancelled), false, false, now)
  }

  /** What the turn of the code leaves is what the machine's turn leaves. */
  lemma TurnIs(subs: seq<Subscriber>, s: State, answer: Answer, message: Option<Id>, work: Work, locked: bool)
    requires Posting(s) && !FlushFails(s) && locked == (s.batch.value.locked || Flushes(s))
    requires var d := s.batch.value.base[s.batch.value.todo[0]];
      message == Kept(s, d) && work == Attempted(subs, d, message, answer, s.now)
    ensures var b := s.batch.value;
      Step(subs, s, Post(answer)) == s.(cells := if work.posted then Noted(s, b.todo[0], work.acked) else s.cells,
        batch := Some(Batch(b.todo[1..], b.base, b.done[b.todo[0] := work], message, locked)))
  {
  }

  /** The event is the request's own insert or failure. */
  predicate Ends(e: Event, rid: Rid) { (e.InboundInsert? || e.InboundFault?) && e.rid == rid }

  /** Everything but the fan-out loop, with the process staying up. */
  ghost predicate OthersOnly(es: seq<Event>) { forall i | 0 <= i < |es| :: !LoopEvent(es[i]) }

  function Own(es: seq<Event>): seq<Event> {
    if es == [] then [] else Own(es[..|es| - 1]) + if LoopEvent(es[|es| - 1]) then [es[|es| - 1]] else []
  }

  lemma OwnSnoc(es: seq<Event>, e: Event)
    ensures Own(es + [e]) == Own(es) + if LoopEvent(e) then [e] else []
  {
    assert (es + [e])[..|es|] == es;
  }

  lemma {:induction false} BatchStays(subs: seq<Subscriber>, s: State, es: seq<Event>)
    requires OthersOnly(es)
    ensures Run(subs, s, es).batch == s.batch
    decreases |es|
  {
    if es != [] {
      BatchStaysStep(subs, s, es[0]);
      BatchStays(subs, Step(subs, s, es[0]), es[1..]);
    }
  }

  lemma BatchStaysStep(subs: seq<Subscriber>, s: State, e: Event)
    requires !LoopEvent(e)
    ensures Step(subs, s, e).batch == s.batch
  {
  }

  lemma {:induction false} RequestStays(subs: seq<Subscriber>, s: State, es: seq<Event>, rid: Rid)
    requires rid in s.requests
    requires forall i | 0 <= i < |es| :: !es[i].Fault? && !Ends(es[i], rid)
    ensures rid in Run(subs, s, es).requests && Run(subs, s, es).requests[rid] == s.requests[rid]
    decreases |es|
  {
    if es != [] {
      RequestStaysStep(subs, s, es[0], rid);
      RequestStays(subs, Step(subs, s, es[0]), es[1..], rid);
    }
  }

  lemma RequestStaysStep(subs: seq<Subscriber>, s: State, e: Event, rid: Rid)
    requires rid in s.requests && !e.Fault? && !Ends(e, rid)
    ensures rid in Step(subs, s, e).requests && Step(subs, s, e).requests[rid] == s.requests[rid]
  {
  }
}
