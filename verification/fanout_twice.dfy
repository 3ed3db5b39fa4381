/** Exactly when a provider id is stored twice: two requests for it missed, overlapped, and both inserted. */
module FanoutTwice {
  import opened Prelude
  import opened Webhooks
  import opened Fanout
  import opened FanoutSafety

  // ---------- one event ----------

  /** The insert of a request whose id is already stored. */
  ghost predicate Overtaken(subs: seq<Subscriber>, s: State, e: Event) {
    Stores(subs, s, e) && s.requests[e.rid].Some? && exists m :: m in s.messages && s.messages[m] == s.requests[e.rid]
  }

  /** The event commits the message of a waiting request. */
  ghost predicate Stores(subs: seq<Subscriber>, s: State, e: Event) {
    e.InboundInsert? && e.rid in s.requests && InsertStep(subs, s, e.rid, e.id, e.dids).messages != s.messages
  }

  lemma StepUniqueIff(subs: seq<Subscriber>, s: State, e: Event)
    requires UniquePids(s)
    ensures UniquePids(Step(subs, s, e)) <==> !Overtaken(subs, s, e)
  {
    var t := Step(subs, s, e);
    if e.InboundInsert? {
      InsertMessages(subs, s, e.rid, e.id, e.dids);
      if Overtaken(subs, s, e) {
        var m :| m in s.messages && s.messages[m] == s.requests[e.rid];
        assert t.messages[m] == t.messages[e.id] && m != e.id;
      }
    } else {
      OthersOnlyDelete(subs, s, e);
    }
  }

  lemma OthersOnlyDelete(subs: seq<Subscriber>, s: State, e: Event)
    requires !e.InboundInsert?
    ensures forall m | m in Step(subs, s, e).messages ::
      m in s.messages && Step(subs, s, e).messages[m] == s.messages[m]
  {
    if !e.InboundLookup? && !e.InboundFault? && !e.Prune? {
      OtherMessages(subs, s, e);
    }
  }

  /** A message is there that was not there before: this event stored it. */
  lemma StoredNow(subs: seq<Subscriber>, s: State, e: Event, m: Id, pid: Option<string>)
    requires var t := Step(subs, s, e); m in t.messages && t.messages[m] == pid
    ensures (m in s.messages && s.messages[m] == pid)
      || (Stores(subs, s, e) && e.id == m && s.requests[e.rid] == pid && e.rid !in Step(subs, s, e).requests)
  {
    if e.InboundInsert? {
      InsertMessages(subs, s, e.rid, e.id, e.dids);
    } else {
      OthersOnlyDelete(subs, s, e);
    }
  }

  /** A request waits that did not wait before: this event is its lookup, and it missed. */
  lemma MissedNow(subs: seq<Subscriber>, s: State, e: Event, rid: Rid, p: string)
    requires var t := Step(subs, s, e); rid in t.requests && t.requests[rid] == Some(p)
    ensures (rid in s.requests && s.requests[rid] == Some(p)) || Misses(s, e, rid, p)
  {
    if e.InboundInsert? {
      InsertMessages(subs, s, e.rid, e.id, e.dids);
    } else if !e.InboundLookup? && !e.InboundFault? && !e.Prune? {
      OtherMessages(subs, s, e);
    }
  }

  /** A lookup of id `p` that finds nothing. */
  ghost predicate Misses(s: State, e: Event, rid: Rid, p: string) {
    e == InboundLookup(rid, Some(p), None) && rid !in s.requests
      && forall m | m in s.messages :: s.messages[m] != Some(p)
  }

  // ---------- whole runs ----------

  /** The state after the first `k` events. */
  function After(subs: seq<Subscriber>, start: int, es: seq<Event>, k: nat): State
    requires k <= |es|
  {
    Run(subs, Init(start), es[..k])
  }

  lemma AfterNothing(subs: seq<Subscriber>, start: int, es: seq<Event>)
    ensures After(subs, start, es, 0) == Init(start)
  {
    assert es[..0] == [];
  }

  lemma AfterNext(subs: seq<Subscriber>, start: int, es: seq<Event>, k: nat)
    requires k < |es|
    ensures After(subs, start, es, k + 1) == Step(subs, After(subs, start, es, k), es[k])
  {
    assert es[..k + 1] == es[..k] + [es[k]];
    RunSnoc(subs, Init(start), es[..k], es[k]);
  }

  /** At no moment of the run is a provider id stored twice. */
  ghost predicate AlwaysUnique(subs: seq<Subscriber>, start: int, es: seq<Event>) {
    forall k | 0 <= k <= |es| :: UniquePids(After(subs, start, es, k))
  }

  /** Request `rid` looked `p` up at event `l`, missed, and was waiting ever since when event `k` came. */
  ghost predicate Waited(subs: seq<Subscriber>, start: int, es: seq<Event>, rid: Rid, p: string, l: nat, k: nat)
    requires k <= |es|
  {
    && l < k && Misses(After(subs, start, es, l), es[l], rid, p)
    && forall i | l < i <= k ::
      rid in After(subs, start, es, i).requests && After(subs, start, es, i).requests[rid] == Some(p)
  }

  lemma {:induction false} WaitingSince(subs: seq<Subscriber>, start: int, es: seq<Event>, rid: Rid, p: string, k: nat)
      returns (l: nat)
    requires k <= |es|
    requires rid in After(subs, start, es, k).requests && After(subs, start, es, k).requests[rid] == Some(p)
    ensures Waited(subs, start, es, rid, p, l, k)
  {
    AfterNothing(subs, start, es);
    assert k != 0;
    AfterNext(subs, start, es, k - 1);
    MissedNow(subs, After(subs, start, es, k - 1), es[k - 1], rid, p);
    l := k - 1;
    if !Misses(After(subs, start, es, k - 1), es[k - 1], rid, p) {
      l := WaitingSince(subs, start, es, rid, p, k - 1);
    }
  }

  /** Event `x` stored message `m` with id `p`, and it was still stored when event `k` came. */
  ghost predicate StoredAt(subs: seq<Subscriber>, start: int, es: seq<Event>, m: Id, p: string, x: nat, k: nat)
    requires k <= |es|
  {
    && x < k && Stores(subs, After(subs, start, es, x), es[x]) && es[x].id == m
    && After(subs, start, es, x).requests[es[x].rid] == Some(p) && es[x].rid !in After(subs, start, es, x + 1).requests
    && forall i | x < i <= k :: Holds(After(subs, start, es, i), m, p)
  }

  lemma StoredHere(subs: seq<Subscriber>, start: int, es: seq<Event>, m: Id, p: string, x: nat)
    requires x < |es| && !Holds(After(subs, start, es, x), m, p) && Holds(After(subs, start, es, x + 1), m, p)
    ensures StoredAt(subs, start, es, m, p, x, x + 1)
  {
    AfterNext(subs, start, es, x);
    StoredNow(subs, After(subs, start, es, x), es[x], m, Some(p));
  }

  lemma StillStored(subs: seq<Subscriber>, start: int, es: seq<Event>, m: Id, p: string, x: nat, k: nat)
    requires k < |es| && StoredAt(subs, start, es, m, p, x, k) && Holds(After(subs, start, es, k + 1), m, p)
    ensures StoredAt(subs, start, es, m, p, x, k + 1)
  {
  }

  lemma {:induction false} StoredSince(subs: seq<Subscriber>, start: int, es: seq<Event>, m: Id, p: string, l: nat,
                                       k: nat)
      returns (x: nat)
    requires l < k <= |es| && !Holds(After(subs, start, es, l), m, p) && Holds(After(subs, start, es, k), m, p)
    ensures l <= x && StoredAt(subs, start, es, m, p, x, k)
    decreases k
  {
    if Holds(After(subs, start, es, k - 1), m, p) {
      x := StoredSince(subs, start, es, m, p, l, k - 1);
      StillStored(subs, start, es, m, p, x, k - 1);
    } else {
      x := k - 1;
      StoredHere(subs, start, es, m, p, x);
    }
  }

  /** Two requests overlap and both store the id `p`: the first, `es[x].rid`, has waited since event `j` and stores at
      event `x`; the second, `es[y].rid`, looked the id up at event `l` before that, missed it, and stores at event `y`,
      when the first one's message is still there. */
  ghost predicate BothStore(subs: seq<Subscriber>, start: int, es: seq<Event>, p: string, j: nat, l: nat, x: nat,
                            y: nat) {
    && y < |es| && Stores(subs, After(subs, start, es, y), es[y]) && Waited(subs, start, es, es[y].rid, p, l, y)
    && l < x < y && es[x].InboundInsert? && StoredAt(subs, start, es, es[x].id, p, x, y)
    && Waited(subs, start, es, es[x].rid, p, j, x) && es[x].rid != es[y].rid
  }

  lemma BothStoreMakesTwo(subs: seq<Subscriber>, start: int, es: seq<Event>, p: string, j: nat, l: nat, x: nat, y: nat)
    requires BothStore(subs, start, es, p, j, l, x, y)
    ensures !UniquePids(After(subs, start, es, y)) || !UniquePids(After(subs, start, es, y + 1))
  {
    assert Holds(After(subs, start, es, y), es[x].id, p);
    assert Overtaken(subs, After(subs, start, es, y), es[y]);
    AfterNext(subs, start, es, y);
    if UniquePids(After(subs, start, es, y)) {
      StepUniqueIff(subs, After(subs, start, es, y), es[y]);
    }
  }

  lemma {:induction false} FirstTwice(subs: seq<Subscriber>, start: int, es: seq<Event>, k: nat) returns (y: nat)
    requires k <= |es| && !UniquePids(After(subs, start, es, k))
    ensures y < |es| && UniquePids(After(subs, start, es, y)) && !UniquePids(After(subs, start, es, y + 1))
  {
    AfterNothing(subs, start, es);
    assert k != 0;
    y := k - 1;
    if !UniquePids(After(subs, start, es, k - 1)) {
      y := FirstTwice(subs, start, es, k - 1);
    }
  }

  lemma TwiceMeansBothStored(subs: seq<Subscriber>, start: int, es: seq<Event>, y: nat)
      returns (p: string, j: nat, l: nat, x: nat)
    requires y < |es| && UniquePids(After(subs, start, es, y)) && !UniquePids(After(subs, start, es, y + 1))
    ensures BothStore(subs, start, es, p, j, l, x, y)
  {
    var s := After(subs, start, es, y);
    AfterNext(subs, start, es, y);
    StepUniqueIff(subs, s, es[y]);
    p := s.requests[es[y].rid].value;
    l := WaitingSince(subs, start, es, es[y].rid, p, y);
    var m :| m in s.messages && s.messages[m] == Some(p);
    x := StoredSince(subs, start, es, m, p, l, y);
    j := WaitingSince(subs, start, es, es[x].rid, p, x);
  }

  /** Over every run from the empty tables, some provider id is at some moment stored twice exactly when two requests
      for one id both missed in their lookups, overlapped, and both inserted, the first one's message still being
      stored. */
  lemma StoredTwiceIff(subs: seq<Subscriber>, start: int, es: seq<Event>)
    ensures !AlwaysUnique(subs, start, es) <==> exists p, j, l, x, y :: BothStore(subs, start, es, p, j, l, x, y)
  {
    if p, j, l, x, y :| BothStore(subs, start, es, p, j, l, x, y) {
      BothStoreMakesTwo(subs, start, es, p, j, l, x, y);
    }
    if !AlwaysUnique(subs, start, es) {
      var k :| 0 <= k <= |es| && !UniquePids(After(subs, start, es, k));
      var y := FirstTwice(subs, start, es, k);
      var p, j, l, x := TwiceMeansBothStored(subs, start, es, y);
    }
  }

  // ---------- it does happen ----------

  /** A message with these ids can be stored with its deliveries. */
  predicate Insertable(subs: seq<Subscriber>, s: State, id: Id, dids: seq<Did>) {
    && id !in s.messages && id !in s.gone && FreshDids(s, dids) && !Locked(s)
    && |dids| == |Wanting(subs, {})| && DistinctSubscribers(NewDeliveries(id, Wanting(subs, {}), s.now))
  }

  /** From any state in which two requests for one id wait to insert, inserting both stores it twice, and every further
      lookup of that id is then answered with an internal error. */
  lemma OverlapStoresTwice(subs: seq<Subscriber>, s: State, a: Rid, b: Rid, p: string, id: Id, jd: Id, dids: seq<Did>,
                           djds: seq<Did>, rid: Rid, found: Id)
    requires a != b && a in s.requests && b in s.requests && s.requests[a] == s.requests[b] == Some(p)
    requires Insertable(subs, s, id, dids)
    requires Insertable(subs, InsertStep(subs, s, a, id, dids), jd, djds)
    ensures var u := Step(subs, Step(subs, s, InboundInsert(a, id, dids)), InboundInsert(b, jd, djds));
      && id != jd && Holds(u, id, p) && Holds(u, jd, p)
      && (rid !in u.requests && Holds(u, found, p) ==>
            Step(subs, u, InboundLookup(rid, Some(p), Some(found))) ==
              u.(replies := u.replies + [Reply(Some(p), found, Error500)]))
  {
    var t := InsertStep(subs, s, a, id, dids);
    assert t.messages == s.messages[id := Some(p)] && t.requests == s.requests - {a};
    var u := InsertStep(subs, t, b, jd, djds);
    assert u.messages == t.messages[jd := Some(p)];
    assert Holds(u, id, p) && Holds(u, jd, p);
  }
}
