/** One run of the queue in full, event by event: submit, sweep, claim, send, and then the two writers that disagree. */
module QueueExample {
  import opened Prelude
  import opened Messages
  import opened Queue
  import opened QueueInvariant
  import opened QueueSafety

  const FRESH := NewOutbound("svc", None, None, 0)
  const CLAIMED := Claimed(FRESH, 0)
  const SENT := MarkedSent(CLAIMED, Some("g"), 0)

  function Table(row: Row, trace: seq<Act>, hand: Hand): State {
    Init(0).(cells := map[7 := Cell(row, trace, [])], hand := hand, replies := [Reply("svc", None, [7], Accepted)])
  }

  lemma Submitted(c: Config)
    ensures Step(c, Step(c, Init(0), SubmitLookup(1, "svc", None, [None], None)),
      SubmitInsert(1, [7], None)) == Table(FRESH, [], Top)
  {
    var q := Missed("svc", None, [None]);
    var s := Init(0).(requests := map[1 := q]);
    assert Step(c, Init(0), SubmitLookup(1, "svc", None, [None], None)) == s;
    assert FreshIds(s, [7]) && Answers(s, "svc", None, None);
    assert [7][0] == 7 && [7][0] in NewCells(q, [7], 0);
    assert NewCells(q, [7], 0) == map[7 := Cell(FRESH, [], [])];
    assert s.cells + NewCells(q, [7], 0) == map[7 := Cell(FRESH, [], [])];
    assert s.requests - {1} == map[];
  }

  lemma ClaimedNext(c: Config)
    ensures Step(c, Table(FRESH, [], Top), RequeueRead) == Table(FRESH, [], Swept)
    ensures Step(c, Table(FRESH, [], Swept), ClaimRead(7)) == Table(FRESH, [], Claiming(7, 0))
    ensures Step(c, Table(FRESH, [], Claiming(7, 0)), ClaimCommit) == Table(CLAIMED, [Claim(0, 0)],
      Holding(7, CLAIMED, CLAIMED, Held))
  {
    assert StuckIds(c, Table(FRESH, [], Top)) == {};
    assert OldestDue(Table(FRESH, [], Swept), 7);
    assert [] + [Claim(0, 0)] == [Claim(0, 0)];
    assert map[7 := Cell(FRESH, [], [])][7 := Cell(CLAIMED, [Claim(0, 0)], [])] ==
      map[7 := Cell(CLAIMED, [Claim(0, 0)], [])];
  }

  lemma Called(c: Config)
    ensures Step(c, Table(CLAIMED, [Claim(0, 0)], Holding(7, CLAIMED, CLAIMED, Held)), SmsGrant)
      == Table(CLAIMED, [Claim(0, 0), SmsCall], Holding(7, CLAIMED, CLAIMED, SmsOut))
  {
    assert [Claim(0, 0)] + [SmsCall] == [Claim(0, 0), SmsCall];
    assert map[7 := Cell(CLAIMED, [Claim(0, 0)], [])][7 := Cell(CLAIMED, [Claim(0, 0), SmsCall], [])]
      == map[7 := Cell(CLAIMED, [Claim(0, 0), SmsCall], [])];
  }

  lemma Answered(c: Config)
    ensures Step(c, Table(CLAIMED, [Claim(0, 0), SmsCall], Holding(7, CLAIMED, CLAIMED, SmsOut)), SmsOk(Some("g")))
      == Table(CLAIMED, [Claim(0, 0), SmsCall], Holding(7, CLAIMED, SENT, Settled(true, 0)))
  {
  }

  lemma Committed(c: Config)
    ensures Step(c, Table(CLAIMED, [Claim(0, 0), SmsCall], Holding(7, CLAIMED, SENT, Settled(true, 0))), Commit)
      == Table(SENT, [Claim(0, 0), SmsCall, Accept], Top)
  {
    assert [Claim(0, 0), SmsCall] + [Accept] == [Claim(0, 0), SmsCall, Accept];
    assert Flush(CLAIMED, SENT, CLAIMED, 0) == SENT;
    assert map[7 := Cell(CLAIMED, [Claim(0, 0), SmsCall], [])][7 := Cell(SENT, [Claim(0, 0), SmsCall, Accept], [])]
      == map[7 := Cell(SENT, [Claim(0, 0), SmsCall, Accept], [])];
  }

  const UNTIL_SENT := [SubmitLookup(1, "svc", None, [None], None), SubmitInsert(1, [7], None), RequeueRead]
    + [ClaimRead(7), ClaimCommit, SmsGrant] + [SmsOk(Some("g"))] + [Commit]

  lemma SentAtLast(c: Config)
    ensures Run(c, Init(0), UNTIL_SENT) == Table(SENT, [Claim(0, 0), SmsCall, Accept], Top)
  {
    Submitted(c);
    ClaimedNext(c);
    Called(c);
    Answered(c);
    Committed(c);
    var a, b := [SubmitLookup(1, "svc", None, [None], None), SubmitInsert(1, [7], None), RequeueRead],
      [ClaimRead(7), ClaimCommit, SmsGrant];
    RunThree(c, Init(0), a[0], a[1], a[2]);
    RunThree(c, Table(FRESH, [], Swept), b[0], b[1], b[2]);
    RunAppend(c, Init(0), a, b);
    RunAppend(c, Init(0), a + b, [SmsOk(Some("g"))]);
    RunOne(c, Run(c, Init(0), a + b), SmsOk(Some("g")));
    RunAppend(c, Init(0), a + b + [SmsOk(Some("g"))], [Commit]);
    RunOne(c, Run(c, Init(0), a + b + [SmsOk(Some("g"))]), Commit);
  }

  /** The comment beside the terminal statuses says a message can never leave one. It can: under every configuration
      there is a run from the empty table after which a message is DELIVERED and, one event later, FAILED. */
  lemma DeliveredThenFailed(c: Config)
    ensures exists es: seq<Event>, e: Event ::
      var t, u := Run(c, Init(0), es), Run(c, Init(0), es + [e]);
      7 in t.cells && t.cells[7].row.status == Delivered && 7 in u.cells && u.cells[7].row.status == Failed
  {
    var s := Table(SENT, [Claim(0, 0), SmsCall, Accept], Top);
    SentAtLast(c);
    assert Pollable(s, 7, "g");
    TerminalStatusNotAbsorbing(c, s, 1, 7, "g");
    var first, last := [PollRead, ReceiptRead(1, "g", 7), ReceiptCommit(1)], PollCommit(map[7 := Failed]);
    RunAppend(c, Init(0), UNTIL_SENT, first);
    RunAppend(c, Init(0), UNTIL_SENT, first + [last]);
    assert UNTIL_SENT + first + [last] == UNTIL_SENT + (first + [last]);
  }
}
