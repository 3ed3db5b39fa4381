/** What inbound storage and fan-out promise over every run, and where the promise stops. */
module FanoutSafety {
  import opened Prelude
  import opened Backoff
  import opened Webhooks
  import opened Fanout

  ghost predicate Reachable(subs: seq<Subscriber>, s: State) {
    exists start: int, es: seq<Event> :: s == Run(subs, Init(start), es)
  }

  lemma ReachableInv(subs: seq<Subscriber>, s: State)
    requires Reachable(subs, s)
    ensures Inv(subs, s)
  {
    var start, es :| s == Run(subs, Init(start), es);
    RunKeeps(subs, Init(start), es);
  }

  // ---------- one delivery per message and interested subscriber ----------

  /** `d` is the delivery of message `id` to the subscriber named `name`, and the only one. */
  ghost predicate SoleDelivery(s: State, id: Id, name: string, d: Did) {
    && d in s.cells && s.cells[d].row.message == id && s.cells[d].row.subscriber == name
    && forall e | e in s.cells && s.cells[e].row.message == id && s.cells[e].row.subscriber == name :: e == d
  }

  /** Every stored message has exactly one delivery for each interested subscriber and none for anyone else, and every
      delivery belongs to a stored message. */
  lemma ExactlyOneDelivery(subs: seq<Subscriber>, s: State)
    requires Reachable(subs, s)
    ensures forall id, sub | id in s.messages && sub in subs
      && sub.interested :: exists d :: SoleDelivery(s, id, sub.name, d)
    ensures forall d | d in s.cells :: s.cells[d].row.message in s.messages && Wants(subs, s.cells[d].row.subscriber)
  {
    ReachableInv(subs, s);
    forall id, sub | id in s.messages && sub in subs && sub.interested
      ensures exists d :: SoleDelivery(s, id, sub.name, d) {
      assert HasDelivery(s, id, sub.name);
      var d :| d in s.cells && s.cells[d].row.message == id && s.cells[d].row.subscriber == sub.name;
      assert SoleDelivery(s, id, sub.name, d);
    }
  }

  // ---------- attempts, acknowledgements, waits ----------

  /** Every call is a committed attempt, one of the present batch, or one whose batch was lost. At most six
      attempts are committed; the acknowledged calls beyond one are covered by lost or uncommitted ones; giving up
      takes all six attempts, the committed failures are a full backoff apart, and the five waits between them add
      up to 930 seconds. */
  lemma DeliveryAccounting(subs: seq<Subscriber>, s: State, d: Did)
    requires Reachable(subs, s) && d in s.cells
    ensures var x, w := s.cells[d], WorkOn(s, d);
      && x.posts == x.row.attempts + x.lostPosts + Posted(w) && x.row.attempts <= 6
      && x.acks == (if x.row.status.Delivered? then 1 else 0) + x.lostAcks + Acked(w)
      && x.acks <= 1 + x.lostAcks
      && (x.row.status.Failed? ==> |x.fails| == 6 && x.fails[5] - x.fails[0] >= 930)
      && TotalWait(Min(|x.fails|, 5), FANOUT_CAP) <= 930
  {
    ReachableInv(subs, s);
    var x := s.cells[d];
    assert CellInv(x, WorkOn(s, d));
    if s.batch.Some? && d in s.batch.value.done {
      assert WorkInv(s.now, s.batch.value.base[d], x.fails, WorkOn(s, d));
    }
    FanoutTotal(Min(|x.fails|, 5));
    if x.row.status.Failed? {
      SpacedTotal(x.fails, 5, FANOUT_CAP);
      FanoutTotal(5);
      Powers();
    }
  }

  /** A settled delivery is as it was, or gone for good. */
  ghost predicate StillSettled(s: State, d: Did, x: Cell) {
    d in s.used && !x.row.status.Waiting? && (d in s.cells ==> s.cells[d] == x)
  }

  lemma SettledStep(subs: seq<Subscriber>, s: State, e: Event, d: Did, x: Cell)
    requires LoopInv(s) && StillSettled(s, d, x)
    ensures StillSettled(Step(subs, s, e), d, x)
  {
    assert s.batch.Some? && d in s.cells ==> d !in s.batch.value.base;
    if e.InboundInsert? {
      InsertEffect(subs, s, e.rid, e.id, e.dids);
      InsertOthers(subs, s, e.rid, e.id, e.dids, d);
    } else if LoopEvent(e) {
      SettledLoopStep(subs, s, e, d, x);
    }
  }

  lemma SettledLoopStep(subs: seq<Subscriber>, s: State, e: Event, d: Did, x: Cell)
    requires BatchInv(s) && StillSettled(s, d, x) && LoopEvent(e)
    requires s.batch.Some? && d in s.cells ==> d !in s.batch.value.base
    ensures StillSettled(Step(subs, s, e), d, x)
  {
    if e.PostUnanswered? {
      SettledUnanswered(subs, s, e.acked, d, x);
    }
  }

  lemma SettledUnanswered(subs: seq<Subscriber>, s: State, acked: bool, d: Did, x: Cell)
    requires BatchInv(s) && StillSettled(s, d, x)
    requires s.batch.Some? && d in s.cells ==> d !in s.batch.value.base
    ensures StillSettled(UnansweredStep(subs, s, acked), d, x)
  {
  }

  lemma InsertOthers(subs: seq<Subscriber>, s: State, rid: Rid, id: Id, dids: seq<Did>, d: Did)
    requires d in s.used
    ensures var t := InsertStep(subs, s, rid, id, dids);
      d in t.used && (d in t.cells <==> d in s.cells) && (d in s.cells ==> t.cells[d] == s.cells[d])
  {
    InsertEffect(subs, s, rid, id, dids);
    var rows := NewDeliveries(id, Wanting(subs, {}), s.now);
    if |rows| == |dids| && FreshDids(s, dids) {
      NewCellsAre(rows, dids);
    }
  }

  /** A delivery committed as delivered, failed or cancelled is never posted or changed again: in every continuation the
      row and its history stay as they are until retention removes it. */
  lemma {:induction false} SettledNeverPostedAgain(subs: seq<Subscriber>, s: State, es: seq<Event>, d: Did, x: Cell)
    requires Inv(subs, s) && StillSettled(s, d, x)
    ensures StillSettled(Run(subs, s, es), d, x)
    decreases |es|
  {
    if es != [] {
      SettledStep(subs, s, es[0], d, x);
      StepKeeps(subs, s, es[0]);
      SettledNeverPostedAgain(subs, Step(subs, s, es[0]), es[1..], d, x);
    }
  }

  // ---------- inbound deduplication ----------

  ghost predicate Busy(s: State, pid: Option<string>) {
    pid.Some? && exists rid :: rid in s.requests && s.requests[rid] == pid
  }

  /** The gateway posts an event again only after the previous post of that event has been answered or has died. */
  ghost predicate Serial(subs: seq<Subscriber>, s: State, es: seq<Event>)
    decreases |es|
  {
    es == [] || ((es[0].InboundLookup? ==> !Busy(s, es[0].pid)) && Serial(subs, Step(subs, s, es[0]), es[1..]))
  }

  ghost predicate UniquePids(s: State) {
    forall i, j | i in s.messages && j in s.messages && s.messages[i].Some? && s.messages[i] == s.messages[j] :: i == j
  }

  ghost predicate Named(s: State, r: Reply) {
    r.outcome != Error500 ==>
      (r.id in s.messages && s.messages[r.id] == r.pid) || (r.id in s.gone && s.gone[r.id] == r.pid)
  }

  ghost predicate DedupInv(s: State) {
    && UniquePids(s) && s.messages.Keys !! s.gone.Keys
    && (forall rid | rid in s.requests && s.requests[rid].Some? :: forall id | id in s.messages ::
      s.messages[id] != s.requests[rid])
    && (forall a, b | a in s.requests && b in s.requests && s.requests[a].Some?
      && s.requests[a] == s.requests[b] :: a == b)
    && (forall i | 0 <= i < |s.replies| :: Named(s, s.replies[i]))
  }

  lemma DedupLookup(s: State, rid: Rid, pid: Option<string>, found: Option<Id>)
    requires DedupInv(s) && !Busy(s, pid)
    ensures DedupInv(LookupStep(s, rid, pid, found))
    ensures var t := LookupStep(s, rid, pid, found);
      t.replies == s.replies || t.replies == s.replies + [Reply(pid, found.GetOr(0), Duplicate)]
  {
  }

  lemma DedupInsert(subs: seq<Subscriber>, s: State, rid: Rid, id: Id, dids: seq<Did>)
    requires DedupInv(s)
    ensures DedupInv(InsertStep(subs, s, rid, id, dids))
  {
    var t := InsertStep(subs, s, rid, id, dids);
    if t != s {
      InsertMessages(subs, s, rid, id, dids);
      forall i | 0 <= i < |t.replies| ensures Named(t, t.replies[i]) {
        if i < |s.replies| { assert Named(s, s.replies[i]); }
      }
    }
  }

  lemma InsertMessages(subs: seq<Subscriber>, s: State, rid: Rid, id: Id, dids: seq<Did>)
    ensures var t := InsertStep(subs, s, rid, id, dids);
      t == s || (rid in s.requests && id !in s.messages && id !in s.gone && t.requests == s.requests - {rid}
        && t.gone == s.gone
                 && ((t.messages == s.messages && t.replies == s.replies + [Reply(s.requests[rid], id, Error500)]
                        && !DistinctSubscribers(NewDeliveries(id, Wanting(subs, {}), s.now)))
                     || (t.messages == s.messages[id := s.requests[rid]]
                       && t.replies == s.replies + [Reply(s.requests[rid], id, Stored)])))
  {
  }

  lemma DedupStep(subs: seq<Subscriber>, s: State, e: Event)
    requires DedupInv(s) && (e.InboundLookup? ==> !Busy(s, e.pid))
    ensures DedupInv(Step(subs, s, e))
  {
    if e.InboundLookup? {
      DedupLookup(s, e.rid, e.pid, e.found);
    } else if e.InboundInsert? {
      DedupInsert(subs, s, e.rid, e.id, e.dids);
    } else if e.Prune? {
      DedupPrune(s, e.ids);
    } else if e.InboundFault? {
      DedupFault(s, e.rid);
    } else {
      DedupOther(subs, s, e);
    }
  }

  lemma DedupPrune(s: State, ids: set<Id>)
    requires DedupInv(s)
    ensures DedupInv(PruneStep(s, ids))
  {
    var t := PruneStep(s, ids);
    forall i | 0 <= i < |t.replies| ensures Named(t, t.replies[i]) {
      assert Named(s, s.replies[i]);
    }
  }

  lemma DedupFault(s: State, rid: Rid)
    requires DedupInv(s)
    ensures DedupInv(InboundFaultStep(s, rid))
  {
    var t := InboundFaultStep(s, rid);
    forall i | 0 <= i < |t.replies| ensures Named(t, t.replies[i]) {
      if i < |s.replies| { assert Named(s, s.replies[i]); }
    }
  }

  lemma DedupOther(subs: seq<Subscriber>, s: State, e: Event)
    requires DedupInv(s) && !e.InboundLookup? && !e.InboundInsert? && !e.InboundFault? && !e.Prune?
    ensures DedupInv(Step(subs, s, e))
  {
    var t := Step(subs, s, e);
    OtherMessages(subs, s, e);
    forall i | 0 <= i < |t.replies| ensures Named(t, t.replies[i]) {
      assert Named(s, s.replies[i]);
    }
  }

  ghost predicate SameInbound(s: State, t: State) {
    t.messages == s.messages && t.gone == s.gone && t.replies == s.replies
      && (t.requests == s.requests || t.requests == map[])
  }

  lemma OtherMessages(subs: seq<Subscriber>, s: State, e: Event)
    requires !e.InboundLookup? && !e.InboundInsert? && !e.InboundFault? && !e.Prune?
    ensures SameInbound(s, Step(subs, s, e))
  {
    DropInbound(s);
    if e.PostUnanswered? {
      UnansweredInbound(subs, s, e.acked);
    } else if e.Post? {
      PostInbound(subs, s, e.answer);
    }
  }

  lemma DropInbound(s: State)
    ensures SameInbound(s, Drop(s))
  {
  }

  lemma PostInbound(subs: seq<Subscriber>, s: State, answer: Answer)
    ensures SameInbound(s, PostStep(subs, s, answer))
  {
    DropInbound(s);
  }

  lemma UnansweredInbound(subs: seq<Subscriber>, s: State, acked: bool)
    ensures SameInbound(s, UnansweredStep(subs, s, acked))
  {
    DropInbound(s);
  }

  lemma {:induction false} DedupRun(subs: seq<Subscriber>, s: State, es: seq<Event>)
    requires DedupInv(s) && Serial(subs, s, es)
    ensures DedupInv(Run(subs, s, es))
    decreases |es|
  {
    if es != [] {
      DedupStep(subs, s, es[0]);
      DedupRun(subs, Step(subs, s, es[0]), es[1..]);
    }
  }

  /** When posts of one event do not overlap, every successful answer for a provider id names the same message, and at
      most one stored message carries the id, unless retention has deleted a message with that id. */
  lemma RetriesYieldOneMessage(subs: seq<Subscriber>, start: int, es: seq<Event>, i: nat, j: nat)
    requires Serial(subs, Init(start), es)
    requires i < |Run(subs, Init(start), es).replies| && j < |Run(subs, Init(start), es).replies|
    ensures var s := Run(subs, Init(start), es);
      var p, q := s.replies[i], s.replies[j];
      p.pid.Some? && p.pid == q.pid && p.outcome != Error500 && q.outcome != Error500 ==>
        || (exists id :: id in s.gone && s.gone[id] == p.pid)
        || (p.id == q.id && p.id in s.messages && forall id | id in s.messages :: s.messages[id] == p.pid <==>
          id == p.id)
  {
    DedupRun(subs, Init(start), es);
    var s := Run(subs, Init(start), es);
    assert Named(s, s.replies[i]) && Named(s, s.replies[j]);
  }
}
