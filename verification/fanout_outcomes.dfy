/** What inbound storage and a batch leave in the table, in plain numbers, and which deliveries a batch takes. */
module FanoutOutcomes {
  import opened Prelude
  import opened Webhooks
  import opened Fanout
  import opened FanoutSafety
  import opened FanoutAcks

  // ---------- a stored message ----------

  /** A delivery as it is created: to this subscriber, not tried yet, and due at once. */
  predicate NewAndDue(d: Delivery, id: Id, sub: Subscriber, now: int) {
    && d.message == id && d.subscriber == sub.name && d.url == sub.url && d.status == Waiting && d.attempts == 0
    && (d.next == None || d.next.value <= now)
  }

  /** Storing a message adds deliveries for it that are new and due, one for each interested subscriber, and changes no
      other. */
  lemma StoredIsDue(subs: seq<Subscriber>, s: State, rid: Rid, id: Id, dids: seq<Did>)
    requires InsertStep(subs, s, rid, id, dids).messages != s.messages
    ensures var t := InsertStep(subs, s, rid, id, dids);
      && rid in s.requests && t.messages == s.messages[id := s.requests[rid]] && rid !in t.requests
      && (forall d | d in s.cells :: d in t.cells && t.cells[d] == s.cells[d])
      && (forall d | d in t.cells && d !in s.cells ::
            exists sub :: sub in subs && sub.interested && NewAndDue(t.cells[d].row, id, sub, t.now))
      && forall sub | sub in subs && sub.interested ::
            exists d :: d in t.cells && d !in s.cells && NewAndDue(t.cells[d].row, id, sub, t.now)
  {
    InsertEffect(subs, s, rid, id, dids);
    InsertMessages(subs, s, rid, id, dids);
    var t := InsertStep(subs, s, rid, id, dids);
    NewRowsAre(subs, s, t, id, dids);
    NewRowsFor(subs, s, t, id, dids);
  }

  lemma NewRowsAre(subs: seq<Subscriber>, s: State, t: State, id: Id, dids: seq<Did>)
    requires |dids| == |Wanting(subs, {})| && FreshDids(s, dids) && t.now == s.now
    requires t.cells == s.cells + NewCells(NewDeliveries(id, Wanting(subs, {}), s.now), dids)
    ensures forall d | d in s.cells :: d in t.cells && t.cells[d] == s.cells[d]
    ensures forall d | d in t.cells && d !in s.cells ::
      exists sub :: sub in subs && sub.interested && NewAndDue(t.cells[d].row, id, sub, t.now)
  {
    var wanting := Wanting(subs, {});
    var added := NewCells(NewDeliveries(id, wanting, s.now), dids);
    NewCellsAre(NewDeliveries(id, wanting, s.now), dids);
    forall d | d in s.cells ensures d !in added {}
    forall d | d in t.cells && d !in s.cells
      ensures exists sub :: sub in subs && sub.interested && NewAndDue(t.cells[d].row, id, sub, t.now)
    {
      assert d in added;
      var i :| 0 <= i < |dids| && dids[i] == d;
      assert wanting[i] in wanting;
      WantingIs(subs, {}, wanting[i]);
      assert NewAndDue(t.cells[d].row, id, wanting[i], t.now);
    }
  }

  lemma NewRowsFor(subs: seq<Subscriber>, s: State, t: State, id: Id, dids: seq<Did>)
    requires |dids| == |Wanting(subs, {})| && FreshDids(s, dids) && t.now == s.now
    requires t.cells == s.cells + NewCells(NewDeliveries(id, Wanting(subs, {}), s.now), dids)
    ensures forall sub | sub in subs && sub.interested ::
      exists d :: d in t.cells && d !in s.cells && NewAndDue(t.cells[d].row, id, sub, t.now)
  {
    var wanting := Wanting(subs, {});
    NewCellsAre(NewDeliveries(id, wanting, s.now), dids);
    forall sub | sub in subs && sub.interested
      ensures exists d :: d in t.cells && d !in s.cells && NewAndDue(t.cells[d].row, id, sub, t.now)
    {
      WantingIs(subs, {}, sub);
      var i :| 0 <= i < |wanting| && wanting[i] == sub;
      assert dids[i] in t.cells && dids[i] !in s.cells && NewAndDue(t.cells[dids[i]].row, id, sub, t.now);
    }
  }

  /** What a lookup is told: nothing stored under the id, and the request goes on; one message, and it is a duplicate of
      that one; several, and the request fails. */
  lemma LookupOutcome(s: State, rid: Rid, p: string, found: Option<Id>)
    requires rid !in s.requests
    requires if found.Some? then found.value in s.messages && s.messages[found.value] == Some(p)
             else forall m | m in s.messages :: s.messages[m] != Some(p)
    ensures var t := LookupStep(s, rid, Some(p), found);
      && t.messages == s.messages && t.cells == s.cells
      && (found.None? ==> t.replies == s.replies && t.requests == s.requests[rid := Some(p)])
      && (found.Some? ==> t.requests == s.requests && t.replies == s.replies + [Reply(Some(p), found.value,
            if forall m | m in s.messages && s.messages[m] == Some(p) ::
              m == found.value then Duplicate else Error500)])
  {
  }

  // ---------- a batch ----------

  /** A batch in which nothing is deleted and nothing fails leaves every one of its deliveries as its answer says, and
      no other delivery changed. */
  lemma BatchOutcome(subs: seq<Subscriber>, s: State, dids: seq<Did>, answers: seq<Answer>)
    requires Reachable(subs, s) && s.batch.None? && Selects(s, dids) && |answers| == |dids|
    ensures var t := Run(subs, s, Part(dids, answers, |answers|) + [BatchCommit]);
      t.batch.None? && AllAsAnswered(s, t, dids, answers)
  {
    ReachableInv(subs, s);
    BatchRuns(subs, s, dids, answers, |dids|);
    RunSnoc(subs, s, Part(dids, answers, |answers|), BatchCommit);
    CommitOutcome(s, Run(subs, s, Part(dids, answers, |answers|)), dids, answers);
  }

  ghost predicate AllAsAnswered(s: State, t: State, dids: seq<Did>, answers: seq<Answer>)
    requires |answers| == |dids|
  {
    && t.cells.Keys == s.cells.Keys
    && (forall i | 0 <= i < |dids| :: dids[i] in s.cells && dids[i] in t.cells
          && AfterAttempt(s.cells[dids[i]].row, t.cells[dids[i]].row, answers[i], s.now))
    && forall d | d in s.cells && d !in dids :: t.cells[d] == s.cells[d]
  }

  lemma CommitOutcome(s: State, t: State, dids: seq<Did>, answers: seq<Answer>)
    requires |answers| == |dids| && Underway(s, t, dids, answers, |dids|)
    ensures CommitStep(t).batch.None? && AllAsAnswered(s, CommitStep(t), dids, answers)
  {
    var u := CommitStep(t);
    assert t.batch.value.todo == [];
    forall d | d in t.batch.value.done ensures d in t.cells {
      var i :| 0 <= i < |dids| && dids[i] == d;
    }
    assert t.batch.value.done.Keys <= t.cells.Keys;
    forall i | 0 <= i < |dids|
      ensures dids[i] in u.cells && AfterAttempt(s.cells[dids[i]].row, u.cells[dids[i]].row, answers[i], s.now)
    {
      assert u.cells[dids[i]] == Committed(t.cells[dids[i]], t.batch.value.done[dids[i]]);
      AfterIsAfterAttempt(s.cells[dids[i]].row, answers[i], s.now);
    }
  }

  // ---------- which deliveries a batch takes ----------

  /** The deliveries that are waiting and whose time has come. */
  function DueSet(s: State): set<Did> {
    set d | d in s.cells && s.cells[d].row.status == Waiting
      && (s.cells[d].row.next == None || s.cells[d].row.next.value <= s.now)
  }

  function Members(dids: seq<Did>): set<Did> { set d | d in dids }

  lemma {:induction false} DistinctSize(dids: seq<Did>)
    requires Distinct(dids)
    ensures |Members(dids)| == |dids|
  {
    if dids == [] {
      NoMembers(Members(dids));
    } else {
      var rest := dids[1..];
      DistinctSize(rest);
      assert dids == [dids[0]] + rest;
      assert Members(dids) == {dids[0]} + Members(rest);
    }
  }

  /** A batch takes as many as are due, at most 20, and the oldest. */
  lemma BatchIsOldestTwenty(s: State, dids: seq<Did>)
    requires Selects(s, dids)
    ensures |dids| == Min(20, |DueSet(s)|) && Members(dids) <= DueSet(s)
    ensures forall d, e | d in dids && e in DueSet(s) && e !in dids :: s.cells[d].row.created <= s.cells[e].row.created
  {
    DistinctSize(dids);
    SmallerSet(Members(dids), DueSet(s));
    if |dids| < 20 {
      forall d | d in DueSet(s) ensures d in Members(dids) {}
      assert Members(dids) == DueSet(s);
    }
  }

  /** The `n` oldest of `ids`, or all of them. */
  lemma {:induction false} TakeOldest(s: State, ids: set<Did>, n: nat) returns (dids: seq<Did>)
    requires forall d | d in ids :: d in s.cells
    ensures |dids| <= n && Distinct(dids) && (forall d | d in dids :: d in ids)
    ensures forall i, j | 0 <= i < j < |dids| :: s.cells[dids[i]].row.created <= s.cells[dids[j]].row.created
    ensures forall d, e | d in dids && e in ids && e !in dids :: s.cells[d].row.created <= s.cells[e].row.created
    ensures forall e | e in ids && e !in dids :: |dids| == n
    decreases n
  {
    dids := [];
    if n > 0 {
      if d0: Did :| d0 in ids {
        var d := OldestOf(s, ids, d0);
        var rest := TakeOldest(s, ids - {d}, n - 1);
        dids := [d] + rest;
        assert forall e | e in dids :: e == d || e in rest;
      }
    }
  }

  lemma {:induction false} OldestOf(s: State, ids: set<Did>, x: Did) returns (d: Did)
    requires x in ids && forall e | e in ids :: e in s.cells
    ensures d in ids && forall e | e in ids :: s.cells[d].row.created <= s.cells[e].row.created
    decreases |ids|
  {
    d := x;
    if y0: Did :| y0 in ids - {x} {
      var y := OldestOf(s, ids - {x}, y0);
      assert ids == (ids - {x}) + {x};
      d := if s.cells[x].row.created <= s.cells[y].row.created then x else y;
    } else {
      forall e | e in ids ensures e == x { assert e != x ==> e in ids - {x}; }
    }
  }

  /** Whenever something is due there is a batch to take. */
  lemma BatchExists(s: State, d: Did) returns (dids: seq<Did>)
    requires d in DueSet(s)
    ensures Selects(s, dids)
  {
    dids := TakeOldest(s, DueSet(s), 20);
    assert forall i | 0 <= i < |dids| :: dids[i] in DueSet(s);
    assert d in dids || |dids| == 20;
    forall e | e in s.cells && Due(s.cells[e].row, s.now) && e !in dids
      ensures |dids| == 20 && forall i | 0 <= i < |dids| :: s.cells[dids[i]].row.created <= s.cells[e].row.created
    {
      assert e in DueSet(s);
      assert forall i | 0 <= i < |dids| :: dids[i] in dids;
    }
  }
}
