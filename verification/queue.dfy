/**
  The durable queue as a step machine. `cells` is the committed `messages` table (each row with its history) and
  `tombs` the rows retention has deleted; everything else is memory that a crash wipes. One event is one stretch of code
  between two awaits, so events of the send loop, the status loop, the prune loop and the HTTP handlers interleave
  freely. An event whose guard does not hold changes nothing.
 */
module Queue {
  import opened Prelude
  import opened Backoff
  import opened Messages

  type Id = int
  type Rid = int

  const DAY := 86400

  /** Where the send loop stands. */
  datatype Hand =
    | Top
    | Requeueing(ids: set<Id>, at: int)
    | Swept
    | Claiming(id: Id, at: int)
    | Holding(id: Id, base: Row, copy: Row, stage: Stage)

  /** A `send_message` request between two awaits: its lookup missed, or its insert lost the race to `winner`. */
  datatype Request =
    | Missed(service: string, key: Option<string>, topics: seq<Option<string>>)
    | Conflict(service: string, key: Option<string>, winner: Id)

  datatype Outcome = Accepted | Replayed | Refused | Crashed500

  datatype Reply = Reply(service: string, key: Option<string>, ids: seq<Id>, outcome: Outcome)

  /** What a receipt handler remembers of the row it loaded. */
  datatype Loaded = Loaded(id: Id, status: Status)

  datatype Tomb = Tomb(cell: Cell, at: int)

  datatype State = State(
    now: int, cells: map<Id, Cell>, tombs: map<Id, Tomb>,
    hand: Hand, poll: Option<set<Id>>, receipts: map<Rid, Loaded>, requests: map<Rid, Request>, replies: seq<Reply>)

  datatype Event =
    | Tick(d: nat)
    | SubmitLookup(rid: Rid, service: string, key: Option<string>, topics: seq<Option<string>>, found: Option<Id>)
    | SubmitInsert(rid: Rid, ids: seq<Id>, clash: Option<Id>)
    | SubmitRecover(rid: Rid, found: Option<Id>)
    | RequeueRead | RequeueCommit
    | ClaimRead(id: Id) | ClaimNone | ClaimCommit
    | PublishCall | PublishOk(receipt: string) | PublishFail
    | SmsGrant | SmsOk(pid: Option<string>) | SmsError(permanent: bool)
    | Commit
    | SendFault
    | PollRead | PollCommit(updates: map<Id, Status>) | PollFault
    | ReceiptRead(rid: Rid, receiptFor: string, target: Id) | ReceiptCommit(rid: Rid)
    | InboundArrive(id: Id, pid: Option<string>, created: int)
    | Prune
    | Crash

  function Init(now: int): State {
    State(now, map[], map[], Top, None, map[], map[], [])
  }

  // ---------- send_message ----------

  /** The key counts for the lookup only when it is a non-empty string. */
  predicate Truthy(key: Option<string>) { key.Some? && key.value != "" }

  predicate SameKey(r: Row, service: string, key: Option<string>) {
    key.Some? && r.service == service && r.key == key
  }

  /** What a lookup by (service, key) may return. */
  predicate Answers(s: State, service: string, key: Option<string>, found: Option<Id>) {
    match found
    case Some(id) => id in s.cells && SameKey(s.cells[id].row, service, key)
    case None => forall id | id in s.cells :: !SameKey(s.cells[id].row, service, key)
  }

  function LookupStep(s: State, rid: Rid, service: string, key: Option<string>, topics: seq<Option<string>>,
                      found: Option<Id>): State {
    if rid in s.requests then s
    else if topics == [] || (Truthy(key) && |topics| > 1) then
      s.(replies := s.replies + [Reply(service, key, [], Refused)])
    else if !Truthy(key) then s.(requests := s.requests[rid := Missed(service, key, topics)])
    else if !Answers(s, service, key, found) then s
    else match found
      case Some(id) => s.(replies := s.replies + [Reply(service, key, [id], Replayed)])
      case None => s.(requests := s.requests[rid := Missed(service, key, topics)])
  }

  predicate FreshIds(s: State, ids: seq<Id>) {
    && (forall i | 0 <= i < |ids| :: ids[i] !in s.cells && ids[i] !in s.tombs)
    && Distinct(ids)
  }

  function NewCells(q: Request, ids: seq<Id>, now: int): map<Id, Cell>
    requires q.Missed? && |ids| == |q.topics| && Distinct(ids)
  {
    map i | 0 <= i < |ids| :: ids[i] := Cell(NewOutbound(q.service, q.key, q.topics[i], now), [], [])
  }

  /** The insert and its commit: all rows or, when UNIQUE(service, idempotency_key) is violated, none. `clash` is a row
      already in the table with the same key, if there is one. */
  function InsertStep(s: State, rid: Rid, ids: seq<Id>, clash: Option<Id>): State {
    if rid !in s.requests || !s.requests[rid].Missed? then s
    else
      var q := s.requests[rid];
      if |ids| != |q.topics| || !FreshIds(s, ids) || !Answers(s, q.service, q.key, clash) then s
      else if clash.Some? && Truthy(q.key) then
        s.(requests := s.requests[rid := Conflict(q.service, q.key, clash.value)])
      else if clash.Some? || (q.key.Some? && |ids| > 1) then
        s.(requests := s.requests - {rid}, replies := s.replies + [Reply(q.service, q.key, [], Crashed500)])
      else
        s.(cells := s.cells + NewCells(q, ids, s.now), requests := s.requests - {rid},
           replies := s.replies + [Reply(q.service, q.key, ids, Accepted)])
  }

  function RecoverStep(s: State, rid: Rid, found: Option<Id>): State {
    if rid !in s.requests || !s.requests[rid].Conflict? then s
    else
      var q := s.requests[rid];
      if !Answers(s, q.service, q.key, found) then s
      else s.(requests := s.requests - {rid},
              replies := s.replies + [if found.Some? then Reply(q.service, q.key, [found.value], Replayed)
                                      else Reply(q.service, q.key, [], Crashed500)])
  }

  // ---------- the send loop ----------

  function StuckIds(c: Config, s: State): set<Id> {
    set id | id in s.cells && Stuck(c, s.cells[id].row, s.now)
  }

  function RequeueReadStep(c: Config, s: State): State {
    if !s.hand.Top? then s
    else if StuckIds(c, s) == {} then s.(hand := Swept)
    else s.(hand := Requeueing(StuckIds(c, s), s.now))
  }

  function RequeueCommitStep(s: State): State {
    if !s.hand.Requeueing? then s
    else if !(s.hand.ids <= s.cells.Keys) then s.(hand := Top)
    else s.(hand := Swept, cells := map id | id in s.cells ::
              if id !in s.hand.ids then s.cells[id]
              else s.cells[id].(row := Requeued(s.cells[id].row, s.hand.at, s.now)))
  }

  /** `id` is a due row and no due row is older. */
  predicate OldestDue(s: State, id: Id) {
    && id in s.cells && Due(s.cells[id].row, s.now)
    && forall j | j in s.cells && Due(s.cells[j].row, s.now) :: s.cells[id].row.created <= s.cells[j].row.created
  }

  function ClaimReadStep(s: State, id: Id): State {
    if s.hand.Swept? && OldestDue(s, id) then s.(hand := Claiming(id, s.now)) else s
  }

  function ClaimNoneStep(s: State): State {
    if s.hand.Swept? && (forall j | j in s.cells :: !Due(s.cells[j].row, s.now)) then s.(hand := Top) else s
  }

  function ClaimCommitStep(s: State): State {
    if !s.hand.Claiming? then s
    else if s.hand.id !in s.cells then s.(hand := Top)
    else
      var x := s.cells[s.hand.id];
      var row := Claimed(x.row, s.hand.at);
      s.(cells := s.cells[s.hand.id := x.(row := row).Log(Claim(s.hand.at, x.row.attempts))],
         hand := Holding(s.hand.id, row, row, Held))
  }

  /** The send loop calls out on behalf of the message it holds. */
  function CallStep(s: State, act: Act, ntfy: bool, next: Stage): State {
    if s.hand.Holding? && s.hand.stage.Held? && s.hand.copy.transport.Ntfy? == ntfy && s.hand.id in s.cells then
      s.(cells := s.cells[s.hand.id := s.cells[s.hand.id].Log(act)], hand := s.hand.(stage := next))
    else s
  }

  /** An answer arrives and is assigned to the in-memory copy. */
  function AnswerStep(s: State, awaited: Stage, copy: Row, next: Stage): State {
    if s.hand.Holding? && s.hand.stage == awaited then s.(hand := s.hand.(copy := copy, stage := next)) else s
  }

  function HandCopy(s: State): Row {
    if s.hand.Holding? then s.hand.copy else NewInbound(None, 0, 0)
  }

  predicate Dirty(g: Stage) { g.FallbackChosen? || g.PublicationMade? || g.Settled? }

  /** What committing the copy in hand leaves behind. */
  function CommittedCell(x: Cell, h: Hand, now: int): Cell
    requires h.Holding? && Dirty(h.stage)
  {
    var y := x.(row := Flush(h.base, h.copy, x.row, now));
    match h.stage
    case FallbackChosen => y.Log(Fallback)
    case PublicationMade => y.Log(Publication)
    case Settled(ok, at) => if ok then y.Log(Accept) else y.(errs := x.errs + [at]).Log(Reject)
  }

  /** A commit that finds its row deleted raises, and the iteration is abandoned. */
  function CommitStep(s: State): State {
    if !s.hand.Holding? || !Dirty(s.hand.stage) then s
    else if s.hand.id !in s.cells then s.(hand := Top)
    else
      var y := CommittedCell(s.cells[s.hand.id], s.hand, s.now);
      s.(cells := s.cells[s.hand.id := y],
         hand := if s.hand.stage.FallbackChosen? then
                   Holding(s.hand.id, y.row, s.hand.copy.(updated := s.now), Held)
                 else Top)
  }

  /** The send loop's memory is lost: a crash, a cancellation, or an exception it does not expect. */
  function LetGo(s: State): State {
    if s.hand.Holding? && s.hand.id in s.cells then
      s.(hand := Top,
         cells := s.cells[s.hand.id := s.cells[s.hand.id].Log(LossAt(s.hand.stage))])
    else s.(hand := Top)
  }

  // ---------- status loop, receipts, inbound, prune ----------

  predicate Polled(r: Row, now: int) {
    r.status.Sent? && r.pid.Some? && r.sentAt.Some? && r.sentAt.value > now - DAY
  }

  function PollReadStep(s: State): State {
    if s.poll.Some? then s
    else s.(poll := Some(set id | id in s.cells && Polled(s.cells[id].row, s.now)))
  }

  function Overwrite(x: Cell, status: Status, now: int): Cell {
    x.(row := x.row.(status := status, updated := now))
  }

  predicate Legal(s: State, updates: map<Id, Status>) {
    s.poll.Some? && updates.Keys <= s.poll.value
    && forall id | id in updates :: updates[id].Delivered? || updates[id].Failed?
  }

  /** Writes what the provider reported for rows that were SENT when they were read; all of them or none. */
  function PollCommitStep(s: State, updates: map<Id, Status>): State {
    if !Legal(s, updates) then s
    else if !(updates.Keys <= s.cells.Keys) then s.(poll := None)
    else s.(poll := None, cells := map id | id in s.cells ::
              if id in updates then Overwrite(s.cells[id], updates[id], s.now) else s.cells[id])
  }

  /** The receipt handler finds the one row, of either direction, with this non-empty provider id. */
  predicate OnlyWithPid(s: State, pid: string, id: Id) {
    && pid != "" && id in s.cells && s.cells[id].row.pid == Some(pid)
    && forall j | j in s.cells && s.cells[j].row.pid == Some(pid) :: j == id
  }

  function ReceiptReadStep(s: State, rid: Rid, pid: string, found: Id): State {
    if rid !in s.receipts && OnlyWithPid(s, pid, found) then 
      s.(receipts := s.receipts[rid := Loaded(found, s.cells[found].row.status)])
    else s
  }

  function ReceiptCommitStep(s: State, rid: Rid): State {
    if rid !in s.receipts then s
    else
      var id := s.receipts[rid].id;
      var t := s.(receipts := s.receipts - {rid});
      if id in s.cells && !s.receipts[rid].status.Delivered? then
        t.(cells := s.cells[id := Overwrite(s.cells[id], Delivered, s.now)])
      else t
  }

  function InboundStep(s: State, id: Id, pid: Option<string>, created: int): State {
    if id !in s.cells && id !in s.tombs then s.(cells := s.cells[id := Cell(NewInbound(pid, created, s.now), [], [])])
      else s
  }

  predicate Expired(c: Config, r: Row, now: int) {
    Terminal(r.status) && r.created < now - c.retention
  }

  function ExpiredIds(c: Config, s: State): set<Id> {
    set id | id in s.cells && Expired(c, s.cells[id].row, s.now)
  }

  function PruneStep(c: Config, s: State): State {
    var dead := ExpiredIds(c, s);
    s.(cells := s.cells - dead, tombs := s.tombs + map id | id in dead :: Tomb(s.cells[id], s.now))
  }

  function CrashStep(s: State): State {
    LetGo(s).(poll := None, receipts := map[], requests := map[])
  }

  // ---------- the machine ----------

  function Step(c: Config, s: State, e: Event): State {
    match e
    case Tick(d) => s.(now := s.now + d)
    case SubmitLookup(rid, service, key, topics, found) => LookupStep(s, rid, service, key, topics, found)
    case SubmitInsert(rid, ids, clash) => InsertStep(s, rid, ids, clash)
    case SubmitRecover(rid, found) => RecoverStep(s, rid, found)
    case RequeueRead => RequeueReadStep(c, s)
    case RequeueCommit => RequeueCommitStep(s)
    case ClaimRead(id) => ClaimReadStep(s, id)
    case ClaimNone => ClaimNoneStep(s)
    case ClaimCommit => ClaimCommitStep(s)
    case PublishCall => CallStep(s, Publish, true, PublishOut)
    case PublishOk(receipt) => AnswerStep(s, PublishOut, MarkedPublished(HandCopy(s), receipt, s.now), PublicationMade)
    case PublishFail => AnswerStep(s, PublishOut, FallenBack(HandCopy(s)), FallbackChosen)
    case SmsGrant => CallStep(s, SmsCall, false, SmsOut)
    case SmsOk(pid) => AnswerStep(s, SmsOut, MarkedSent(HandCopy(s), pid, s.now), Settled(true, s.now))
    case SmsError(permanent) => AnswerStep(s, SmsOut, MarkedError(c, HandCopy(s), permanent, s.now),
      Settled(false, s.now))
    case Commit => CommitStep(s)
    case SendFault => LetGo(s)
    case PollRead => PollReadStep(s)
    case PollCommit(updates) => PollCommitStep(s, updates)
    case PollFault => s.(poll := None)
    case ReceiptRead(rid, pid, found) => ReceiptReadStep(s, rid, pid, found)
    case ReceiptCommit(rid) => ReceiptCommitStep(s, rid)
    case InboundArrive(id, pid, created) => InboundStep(s, id, pid, created)
    case Prune => PruneStep(c, s)
    case Crash => CrashStep(s)
  }

  function Run(c: Config, s: State, es: seq<Event>): State
    decreases |es|
  {
    if es == [] then s else Run(c, Step(c, s, es[0]), es[1..])
  }
}
