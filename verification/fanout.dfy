/**
  Inbound messages and their fan-out as a step machine: the two tables (deliveries with their history), the inbound
  requests between lookup and insert, and the batch the fan-out loop has in memory. A crash wipes the memory.
 */
module Fanout {
  import opened Prelude
  import opened Backoff
  import opened Webhooks

  type Did = int
  type Rid = int

  const BATCH := 20

  /** A delivery row with its history: calls made, calls acknowledged, how many of each were never committed, and the
      times of committed failures. */
  datatype Cell = Cell(row: Delivery, posts: nat, acks: nat, lostPosts: nat, lostAcks: nat, fails: seq<int>)

  /** What the loop has done with one delivery of its batch. */
  datatype Work = Work(row: Delivery, posted: bool, acked: bool, at: int)

  /** `loaded` is the message object of the previous turn, which the session still holds; `locked` means that the
      session has already written changed rows, uncommitted, and with them holds the database's one write lock. */
  datatype Batch = Batch(todo: seq<Did>, base: map<Did, Delivery>, done: map<Did, Work>, loaded: Option<Id>,
    locked: bool)

  datatype Outcome = Stored | Duplicate | Error500
  datatype Reply = Reply(pid: Option<string>, id: Id, outcome: Outcome)

  datatype State = State(
    now: int, messages: map<Id, Option<string>>, gone: map<Id, Option<string>>, cells: map<Did, Cell>,
    requests: map<Rid, Option<string>>, batch: Option<Batch>, replies: seq<Reply>, used: set<Did>)

  datatype Event =
    | Tick(d: nat)
    | InboundLookup(rid: Rid, pid: Option<string>, found: Option<Id>)
    | InboundInsert(rid: Rid, id: Id, dids: seq<Did>)
    | InboundFault(rid: Rid)
    | BatchRead(dids: seq<Did>)
    | Post(answer: Answer)
    | PostUnanswered(acked: bool)
    | BatchCommit
    | Fault
    | Prune(ids: set<Id>)

  function Init(now: int): State { State(now, map[], map[], map[], map[], None, [], {}) }

  // ---------- inbound ----------

  predicate Holds(s: State, id: Id, pid: string) { id in s.messages && s.messages[id] == Some(pid) }

  /** The duplicate check. With two rows for one provider id the query itself raises. */
  function LookupStep(s: State, rid: Rid, pid: Option<string>, found: Option<Id>): State {
    if rid in s.requests then s
    else if pid.None? then s.(requests := s.requests[rid := pid])
    else match found
      case Some(id) =>
        if !Holds(s, id, pid.value) then s
        else if forall j | j in s.messages && Holds(s, j, pid.value) :: j == id then
          s.(replies := s.replies + [Reply(pid, id, Duplicate)])
        else s.(replies := s.replies + [Reply(pid, id, Error500)])
      case None =>
        if exists j | j in s.messages :: Holds(s, j, pid.value) then s
        else s.(requests := s.requests[rid := pid])
  }

  function NewCells(rows: seq<Delivery>, dids: seq<Did>): map<Did, Cell>
    requires |rows| == |dids| && Distinct(dids)
  {
    map i | 0 <= i < |dids| :: dids[i] := Cell(rows[i], 0, 0, 0, 0, [])
  }

  /** Delivery ids are never reused. */
  predicate FreshDids(s: State, dids: seq<Did>) {
    Distinct(dids) && forall i | 0 <= i < |dids| :: 
      dids[i] !in s.used && dids[i] !in s.cells && (s.batch.Some? ==> dids[i] !in s.batch.value.base)
  }

  /** No other task can write until the batch commits or rolls back. */
  predicate Locked(s: State) { s.batch.Some? && s.batch.value.locked }

  /** The message and its deliveries are committed together, or, when two rows would share message and subscriber, not
      at all. While the batch holds the write lock the insert waits. */
  function InsertStep(subs: seq<Subscriber>, s: State, rid: Rid, id: Id, dids: seq<Did>): State {
    if rid !in s.requests || id in s.messages || id in s.gone || Locked(s) then s
    else
      var pid := s.requests[rid];
      var rows := NewDeliveries(id, Wanting(subs, {}), s.now);
      if |dids| != |rows| || !FreshDids(s, dids) then s
      else if !DistinctSubscribers(rows) then
        s.(requests := s.requests - {rid}, replies := s.replies + [Reply(pid, id, Error500)])
      else
        s.(requests := s.requests - {rid}, replies := s.replies + [Reply(pid, id, Stored)],
           messages := s.messages[id := pid], cells := s.cells + NewCells(rows, dids),
           used := s.used + set d | d in dids)
  }

  /** The handler ends in an exception, as when it has waited too long for the write lock. */
  function InboundFaultStep(s: State, rid: Rid): State {
    if rid !in s.requests then s
    else s.(requests := s.requests - {rid}, replies := s.replies + [Reply(s.requests[rid], 0, Error500)])
  }

  // ---------- the fan-out loop ----------

  predicate Due(d: Delivery, now: int) { d.status.Waiting? && (d.next.None? || d.next.value <= now) }

  /** The batch: due rows, oldest first, as many as there are up to the limit. */
  predicate Selects(s: State, dids: seq<Did>) {
    && 0 < |dids| <= BATCH && Distinct(dids)
    && (forall i | 0 <= i < |dids| :: dids[i] in s.cells && Due(s.cells[dids[i]].row, s.now))
    && (forall i, j | 0 <= i < j < |dids| :: s.cells[dids[i]].row.created <= s.cells[dids[j]].row.created)
    && (forall d | d in s.cells && Due(s.cells[d].row, s.now) && d !in dids ::
          |dids| == BATCH && forall i | 0 <= i < |dids| :: s.cells[dids[i]].row.created <= s.cells[d].row.created)
  }

  function ReadStep(s: State, dids: seq<Did>): State {
    if s.batch.None? && Selects(s, dids) then
      s.(batch := Some(Batch(dids, map d | d in dids && d in s.cells :: s.cells[d].row, map[], None, false)))
    else s
  }

  predicate Posting(s: State) {
    s.batch.Some? && s.batch.value.todo != [] && s.batch.value.todo[0] in s.batch.value.base
  }

  /** `session.get`: the message object the session still holds, or else the row as it is now. */
  predicate Loads(s: State, id: Id) { (s.batch.Some? && s.batch.value.loaded == Some(id)) || id in s.messages }

  function Kept(s: State, d: Delivery): Option<Id> { if Loads(s, d.message) then Some(d.message) else None }

  /** The call is made only for a message that loads and a subscriber still configured. */
  predicate Calls(subs: seq<Subscriber>, s: State, d: Delivery) {
    Loads(s, d.message) && Configured(subs, d.subscriber)
  }

  function Noted(s: State, did: Did, acked: bool): map<Did, Cell> {
    if did in s.cells then
      var x := s.cells[did];
      s.cells[did := x.(posts := x.posts + 1, acks := x.acks + if acked then 1 else 0)]
    else s.cells
  }

  /** A message the session does not hold is selected from the table, and before a select the session writes out the
      rows changed so far. */
  predicate Flushes(s: State)
    requires Posting(s)
  {
    var b := s.batch.value;
    b.loaded != Some(b.base[b.todo[0]].message) && b.done != map[]
  }

  /** One of those rows has been deleted: the write raises. */
  predicate FlushFails(s: State)
    requires Posting(s)
  {
    Flushes(s) && !(s.batch.value.done.Keys <= s.cells.Keys)
  }

  /** One turn: load the message, call, judge. When the load's write fails, the whole batch is lost. */
  function PostStep(subs: seq<Subscriber>, s: State, answer: Answer): State {
    if !Posting(s) then s else if FlushFails(s) then Drop(s) else TurnStep(subs, s, answer)
  }

  function TurnStep(subs: seq<Subscriber>, s: State, answer: Answer): State {
    if !Posting(s) then s
    else
      var b := s.batch.value;
      var did := b.todo[0];
      var d := b.base[did];
      if Calls(subs, s, d) then
        var acked := Acknowledges(answer);
        s.(cells := Noted(s, did, acked),
           batch := Some(Batch(b.todo[1..], b.base,
                               b.done[did := Work(After(d, true, answer, s.now), true, acked, s.now)],
                               Kept(s, d), b.locked || Flushes(s))))
      else
        s.(batch := Some(Batch(b.todo[1..], b.base,
                               b.done[did := Work(d.(status := Cancelled), false, false, s.now)],
                               Kept(s, d), b.locked || Flushes(s))))
  }

  /** The batch is lost: what was posted in it is not remembered. */
  function Drop(s: State): State {
    if s.batch.None? then s
    else
      var done := s.batch.value.done;
      s.(batch := None, cells := map d | d in s.cells ::
           if d in done then Forgotten(s.cells[d], done[d]) else s.cells[d])
  }

  function Forgotten(x: Cell, w: Work): Cell {
    x.(lostPosts := x.lostPosts + if w.posted then 1 else 0, lostAcks := x.lostAcks + if w.acked then 1 else 0)
  }

  /** A crash, or an unexpected exception, while a call is out: the subscriber may or may not have accepted it. */
  function UnansweredStep(subs: seq<Subscriber>, s: State, acked: bool): State {
    if Posting(s) && !FlushFails(s) && Calls(subs, s, s.batch.value.base[s.batch.value.todo[0]])
      && s.batch.value.todo[0] in s.cells
    then
      Drop(s.(cells := s.cells[s.batch.value.todo[0] := OneLost(s.cells[s.batch.value.todo[0]], acked)]))
    else Drop(s)
  }

  function OneLost(x: Cell, acked: bool): Cell {
    var n := if acked then 1 else 0;
    x.(posts := x.posts + 1, acks := x.acks + n, lostPosts := x.lostPosts + 1, lostAcks := x.lostAcks + n)
  }

  function Committed(x: Cell, w: Work): Cell {
    x.(row := w.row, fails := if w.posted && !w.acked then x.fails + [w.at] else x.fails)
  }

  /** All rows of the batch are written, or, when one of them has been deleted meanwhile, none. */
  function CommitStep(s: State): State {
    if s.batch.None? || s.batch.value.todo != [] then s
    else
      var done := s.batch.value.done;
      if done.Keys <= s.cells.Keys then
        s.(batch := None, cells := map d | d in s.cells ::
             if d in done then Committed(s.cells[d], done[d]) else s.cells[d])
      else Drop(s)
  }

  /** Retention deletes messages, and their deliveries with them, unless the batch holds the write lock. */
  function PruneStep(s: State, ids: set<Id>): State {
    if Locked(s) then s
    else s.(messages := s.messages - ids, gone := s.gone + map id | id in ids && id in s.messages :: s.messages[id],
            cells := map d | d in s.cells && s.cells[d].row.message !in ids :: s.cells[d])
  }

  function Step(subs: seq<Subscriber>, s: State, e: Event): State {
    match e
    case Tick(d) => s.(now := s.now + d)
    case InboundLookup(rid, pid, found) => LookupStep(s, rid, pid, found)
    case InboundInsert(rid, id, dids) => InsertStep(subs, s, rid, id, dids)
    case InboundFault(rid) => InboundFaultStep(s, rid)
    case BatchRead(dids) => ReadStep(s, dids)
    case Post(answer) => PostStep(subs, s, answer)
    case PostUnanswered(acked) => UnansweredStep(subs, s, acked)
    case BatchCommit => CommitStep(s)
    case Fault => Drop(s).(requests := map[])
    case Prune(ids) => PruneStep(s, ids)
  }

  function Run(subs: seq<Subscriber>, s: State, es: seq<Event>): State
    decreases |es|
  {
    if es == [] then s else Run(subs, Step(subs, s, es[0]), es[1..])
  }

  // ---------- the invariant ----------

  function WorkOn(s: State, did: Did): Option<Work> {
    if s.batch.Some? && did in s.batch.value.done then Some(s.batch.value.done[did]) else None
  }

  function Posted(w: Option<Work>): nat { if w.Some? && w.value.posted then 1 else 0 }

  function Acked(w: Option<Work>): nat { if w.Some? && w.value.acked then 1 else 0 }

  ghost predicate CellInv(x: Cell, w: Option<Work>) {
    && x.row.attempts <= MAX_ATTEMPTS
    && (x.row.status.Waiting? ==> x.row.attempts < MAX_ATTEMPTS)
    && (x.row.status.Failed? ==> x.row.attempts == MAX_ATTEMPTS)
    && x.posts == x.row.attempts + x.lostPosts + Posted(w)
    && x.acks == (if x.row.status.Delivered? then 1 else 0) + x.lostAcks + Acked(w)
    && |x.fails| + (if x.row.status.Delivered? then 1 else 0) == x.row.attempts
    && Spaced(x.fails, FANOUT_CAP)
    && (x.row.status.Waiting? && |x.fails| > 0 ==> x.row.next.Some? && Rested(x.fails, x.row.next.value, FANOUT_CAP))
  }

  /** A delivery in the batch is waiting and rested; what was done with it is one judged attempt or a cancellation. */
  ghost predicate WorkInv(now: int, d: Delivery, fails: seq<int>, w: Option<Work>) {
    && d.status.Waiting? && Rested(fails, now, FANOUT_CAP)
    && (w.Some? && w.value.posted ==> Rested(fails, w.value.at, FANOUT_CAP) && Judged(d, w.value))
    && (w.Some? && !w.value.posted ==> w.value.row == d.(status := Cancelled) && !w.value.acked)
  }

  ghost predicate Judged(d: Delivery, w: Work) {
    exists answer :: w.acked == Acknowledges(answer) && w.row == After(d, true, answer, w.at)
  }

  ghost predicate CellsInv(s: State) {
    forall d | d in s.cells :: CellInv(s.cells[d], WorkOn(s, d))
  }

  /** The loop's copies are as the table has them: nobody else writes deliveries. */
  ghost predicate BatchInv(s: State) {
    s.batch.Some? ==>
      var b := s.batch.value;
      && b.done.Keys <= b.base.Keys && Distinct(b.todo)
      && (forall i | 0 <= i < |b.todo| :: b.todo[i] in b.base && b.todo[i] !in b.done)
      && (forall d | d in b.base && d in s.cells ::
        s.cells[d].row == b.base[d] && WorkInv(s.now, b.base[d], s.cells[d].fails, WorkOn(s, d)))
  }

  ghost predicate LoopInv(s: State) { CellsInv(s) && BatchInv(s) }

  ghost predicate Wants(subs: seq<Subscriber>, name: string) {
    exists sub :: sub in subs && sub.interested && sub.name == name
  }

  ghost predicate HasDelivery(s: State, id: Id, name: string) {
    exists d :: d in s.cells && s.cells[d].row.message == id && s.cells[d].row.subscriber == name
  }

  /** UNIQUE(message_id, subscriber) and the foreign key. */
  ghost predicate OnePerSubscriber(s: State) {
    forall a, b | a in s.cells && b in s.cells && s.cells[a].row.message == s.cells[b].row.message
      && s.cells[a].row.subscriber == s.cells[b].row.subscriber :: a == b
  }

  ghost predicate TablesInv(subs: seq<Subscriber>, s: State) {
    && s.messages.Keys !! s.gone.Keys
    && Owned(subs, s)
    && OnePerSubscriber(s)
    && AllServed(subs, s)
  }

  /** No delivery points at a missing message or at someone who did not ask for it. */
  ghost predicate Owned(subs: seq<Subscriber>, s: State) {
    forall d | d in s.cells :: s.cells[d].row.message in s.messages && Wants(subs, s.cells[d].row.subscriber)
  }

  ghost predicate AllServed(subs: seq<Subscriber>, s: State) {
    forall id, sub | id in s.messages && sub in subs && sub.interested :: HasDelivery(s, id, sub.name)
  }

  ghost predicate Inv(subs: seq<Subscriber>, s: State) { LoopInv(s) && TablesInv(subs, s) }

  // ---------- the tables ----------

  lemma SameTables(subs: seq<Subscriber>, s: State, t: State)
    requires TablesInv(subs, s) && t.messages == s.messages && t.gone == s.gone && t.cells.Keys == s.cells.Keys
    requires forall d | d in s.cells ::
      t.cells[d].row.message == s.cells[d].row.message && t.cells[d].row.subscriber == s.cells[d].row.subscriber
    ensures TablesInv(subs, t)
  {
    forall id, sub | id in t.messages && sub in subs && sub.interested ensures HasDelivery(t, id, sub.name) {
      assert HasDelivery(s, id, sub.name);
      var d :| d in s.cells && s.cells[d].row.message == id && s.cells[d].row.subscriber == sub.name;
      assert d in t.cells;
    }
  }

  lemma NewCellsAre(rows: seq<Delivery>, dids: seq<Did>)
    requires |rows| == |dids| && Distinct(dids)
    ensures forall i | 0 <= i < |dids| ::
      dids[i] in NewCells(rows, dids) && NewCells(rows, dids)[dids[i]] == Cell(rows[i], 0, 0, 0, 0, [])
    ensures forall d | d in NewCells(rows, dids) :: exists i :: 0 <= i < |dids| && dids[i] == d
  {
  }

  lemma InsertedUnique(s: State, t: State, id: Id, rows: seq<Delivery>, dids: seq<Did>)
    requires OnePerSubscriber(s) && DistinctSubscribers(rows) && |rows| == |dids| && FreshDids(s, dids)
    requires forall d | d in s.cells :: s.cells[d].row.message != id
    requires forall i | 0 <= i < |rows| :: rows[i].message == id
    requires t.cells == s.cells + NewCells(rows, dids)
    ensures OnePerSubscriber(t)
  {
    NewCellsAre(rows, dids);
    forall a, b | a in t.cells && b in t.cells && t.cells[a].row.message == t.cells[b].row.message
        && t.cells[a].row.subscriber == t.cells[b].row.subscriber ensures a == b
    {
      if a in s.cells {
        assert b in s.cells;
      } else {
        var i :| 0 <= i < |dids| && dids[i] == a;
        var j :| 0 <= j < |dids| && dids[j] == b;
        assert rows[i].subscriber == rows[j].subscriber;
      }
    }
  }

  lemma InsertedTables(subs: seq<Subscriber>, s: State, t: State, id: Id, pid: Option<string>, dids: seq<Did>)
    requires TablesInv(subs, s) && id !in s.messages && id !in s.gone && FreshDids(s, dids)
    requires |dids| == |Wanting(subs, {})| && DistinctSubscribers(NewDeliveries(id, Wanting(subs, {}), s.now))
    requires t.cells == s.cells + NewCells(NewDeliveries(id, Wanting(subs, {}), s.now), dids)
    requires t.messages == s.messages[id := pid] && t.gone == s.gone
    ensures TablesInv(subs, t)
  {
    InsertedUnique(s, t, id, NewDeliveries(id, Wanting(subs, {}), s.now), dids);
    InsertedOwners(subs, s, t, id, pid, dids);
    InsertedAll(subs, s, t, id, pid, dids);
  }

  lemma InsertedOwners(subs: seq<Subscriber>, s: State, t: State, id: Id, pid: Option<string>, dids: seq<Did>)
    requires Owned(subs, s) && |dids| == |Wanting(subs, {})| && Distinct(dids)
    requires t.cells == s.cells + NewCells(NewDeliveries(id, Wanting(subs, {}), s.now), dids)
    requires t.messages == s.messages[id := pid]
    ensures Owned(subs, t)
  {
    forall d | d in t.cells ensures t.cells[d].row.message in t.messages && Wants(subs, t.cells[d].row.subscriber) {
      InsertedRow(subs, s, t, id, dids, d);
    }
  }

  lemma InsertedAll(subs: seq<Subscriber>, s: State, t: State, id: Id, pid: Option<string>, dids: seq<Did>)
    requires AllServed(subs, s) && |dids| == |Wanting(subs, {})| && FreshDids(s, dids)
    requires t.cells == s.cells + NewCells(NewDeliveries(id, Wanting(subs, {}), s.now), dids)
    requires t.messages == s.messages[id := pid]
    ensures AllServed(subs, t)
  {
    forall m, sub | m in t.messages && sub in subs && sub.interested ensures HasDelivery(t, m, sub.name) {
      InsertedOrOld(subs, s, t, id, dids, m, sub);
    }
  }

  lemma InsertedOrOld(subs: seq<Subscriber>, s: State, t: State, id: Id, dids: seq<Did>, m: Id, sub: Subscriber)
    requires |dids| == |Wanting(subs, {})| && FreshDids(s, dids) && sub in subs && sub.interested
    requires t.cells == s.cells + NewCells(NewDeliveries(id, Wanting(subs, {}), s.now), dids)
    requires m == id || HasDelivery(s, m, sub.name)
    ensures HasDelivery(t, m, sub.name)
  {
    if m == id {
      InsertedFor(subs, s, t, id, dids, sub);
    } else {
      NewCellsAre(NewDeliveries(id, Wanting(subs, {}), s.now), dids);
      OldDelivery(s, t, m, sub.name, NewCells(NewDeliveries(id, Wanting(subs, {}), s.now), dids));
    }
  }

  lemma InsertedRow(subs: seq<Subscriber>, s: State, t: State, id: Id, dids: seq<Did>, d: Did)
    requires |dids| == |Wanting(subs, {})| && Distinct(dids) && d in t.cells
    requires t.cells == s.cells + NewCells(NewDeliveries(id, Wanting(subs, {}), s.now), dids)
    ensures (t.cells[d].row.message == id && Wants(subs, t.cells[d].row.subscriber))
      || (d in s.cells && t.cells[d] == s.cells[d])
  {
    var wanting := Wanting(subs, {});
    NewCellsAre(NewDeliveries(id, wanting, s.now), dids);
    if d in NewCells(NewDeliveries(id, wanting, s.now), dids) {
      var i :| 0 <= i < |dids| && dids[i] == d;
      assert wanting[i] in wanting;
      WantingIs(subs, {}, wanting[i]);
    }
  }

  lemma InsertedFor(subs: seq<Subscriber>, s: State, t: State, id: Id, dids: seq<Did>, sub: Subscriber)
    requires |dids| == |Wanting(subs, {})| && Distinct(dids) && sub in subs && sub.interested
    requires t.cells == s.cells + NewCells(NewDeliveries(id, Wanting(subs, {}), s.now), dids)
    ensures HasDelivery(t, id, sub.name)
  {
    var wanting := Wanting(subs, {});
    WantingIs(subs, {}, sub);
    var i :| 0 <= i < |wanting| && wanting[i] == sub;
    var rows := NewDeliveries(id, wanting, s.now);
    NewCellsAre(rows, dids);
    assert rows[i] == NewDelivery(id, sub, s.now);
    DeliveryThere(s, t, NewCells(rows, dids), dids[i], id, sub.name);
  }

  lemma DeliveryThere(s: State, t: State, added: map<Did, Cell>, d: Did, id: Id, name: string)
    requires t.cells == s.cells + added && d in added && added[d].row.message == id && added[d].row.subscriber == name
    ensures HasDelivery(t, id, name)
  {
    assert d in t.cells && t.cells[d] == added[d];
  }

  lemma OldDelivery(s: State, t: State, m: Id, name: string, added: map<Did, Cell>)
    requires HasDelivery(s, m, name) && t.cells == s.cells + added && added.Keys !! s.cells.Keys
    ensures HasDelivery(t, m, name)
  {
    var d :| d in s.cells && s.cells[d].row.message == m && s.cells[d].row.subscriber == name;
    assert d in t.cells && t.cells[d] == s.cells[d];
  }

  lemma InsertKeeps(subs: seq<Subscriber>, s: State, rid: Rid, id: Id, dids: seq<Did>)
    requires Inv(subs, s)
    ensures Inv(subs, InsertStep(subs, s, rid, id, dids))
  {
    var t := InsertStep(subs, s, rid, id, dids);
    if t.messages == s.messages {
      SameTables(subs, s, t);
      SameLoop(s, t);
    } else {
      InsertEffect(subs, s, rid, id, dids);
      InsertedTables(subs, s, t, id, s.requests[rid], dids);
      InsertedLoop(s, t, NewDeliveries(id, Wanting(subs, {}), s.now), dids);
    }
  }

  lemma InsertEffect(subs: seq<Subscriber>, s: State, rid: Rid, id: Id, dids: seq<Did>)
    ensures var t := InsertStep(subs, s, rid, id, dids);
      var rows := NewDeliveries(id, Wanting(subs, {}), s.now);
      && t.batch == s.batch && t.now == s.now && t.gone == s.gone
      && (t.messages == s.messages ==> t.cells == s.cells)
      && (t.messages != s.messages ==>
            && rid in s.requests && id !in s.messages && id !in s.gone && |dids| == |rows| && FreshDids(s, dids)
            && DistinctSubscribers(rows) && t.messages == s.messages[id := s.requests[rid]]
            && t.cells == s.cells + NewCells(rows, dids))
  {
  }

  lemma InsertedLoop(s: State, t: State, rows: seq<Delivery>, dids: seq<Did>)
    requires LoopInv(s) && |rows| == |dids| && FreshDids(s, dids)
    requires forall i | 0 <= i < |rows| :: rows[i].status.Waiting? && rows[i].attempts == 0
    requires t.cells == s.cells + NewCells(rows, dids) && t.batch == s.batch && t.now == s.now
    ensures LoopInv(t)
  {
    NewCellsAre(rows, dids);
    forall d | d in t.cells ensures CellInv(t.cells[d], WorkOn(t, d)) {
      if d in NewCells(rows, dids) {
        var i :| 0 <= i < |dids| && dids[i] == d;
        assert WorkOn(t, d) == None;
      } else {
        assert WorkOn(t, d) == WorkOn(s, d);
      }
    }
    if s.batch.Some? {
      forall d | d in s.batch.value.base && d in t.cells ensures d in s.cells && t.cells[d] == s.cells[d]
        && WorkOn(t, d) == WorkOn(s, d) {}
    }
  }

  lemma PruneKeeps(subs: seq<Subscriber>, s: State, ids: set<Id>)
    requires Inv(subs, s)
    ensures Inv(subs, PruneStep(s, ids))
  {
    var t := PruneStep(s, ids);
    forall id, sub | id in t.messages && sub in subs && sub.interested ensures HasDelivery(t, id, sub.name) {
      assert HasDelivery(s, id, sub.name);
      var d :| d in s.cells && s.cells[d].row.message == id && s.cells[d].row.subscriber == sub.name;
      assert d in t.cells;
    }
    forall d | d in t.cells ensures WorkOn(t, d) == WorkOn(s, d) && t.cells[d] == s.cells[d] {}
  }

  // ---------- the fan-out loop ----------

  lemma ReadKeeps(s: State, dids: seq<Did>)
    requires LoopInv(s)
    ensures LoopInv(ReadStep(s, dids))
  {
    var t := ReadStep(s, dids);
    if t != s {
      forall d | d in t.cells ensures WorkOn(t, d) == None && WorkOn(s, d) == None {}
      forall d | d in t.batch.value.base
        ensures d in s.cells && t.cells[d].row == t.batch.value.base[d]
          && WorkInv(t.now, t.batch.value.base[d], t.cells[d].fails, None)
      {
        var i :| 0 <= i < |dids| && dids[i] == d;
        assert CellInv(s.cells[d], None);
      }
    }
  }

  lemma PostedCell(now: int, x: Cell, answer: Answer)
    requires CellInv(x, None) && WorkInv(now, x.row, x.fails, None)
    ensures var w := Work(After(x.row, true, answer, now), true, Acknowledges(answer), now);
      && CellInv(x.(posts := x.posts + 1, acks := x.acks + if Acknowledges(answer) then 1 else 0), Some(w))
      && WorkInv(now, x.row, x.fails, Some(w))
  {
  }

  predicate SameRow(x: Cell, y: Cell) { x.row == y.row && x.fails == y.fails }

  /** The batch moves on by one delivery; the others are as before. */
  lemma Advance(s: State, t: State, w: Work)
    requires LoopInv(s) && Posting(s)
    requires t.batch.Some?
    requires var b := s.batch.value;
      && t == s.(cells := t.cells, batch := Some(Batch(b.todo[1..], b.base, b.done[b.todo[0] := w],
        t.batch.value.loaded, t.batch.value.locked)))
      && t.cells.Keys == s.cells.Keys && (forall d | d in s.cells && d != b.todo[0] :: t.cells[d] == s.cells[d])
      && (b.todo[0] in s.cells ==>
        SameRow(s.cells[b.todo[0]], t.cells[b.todo[0]]) && CellInv(t.cells[b.todo[0]], Some(w)))
      && (b.todo[0] in s.cells ==> WorkInv(s.now, s.cells[b.todo[0]].row, s.cells[b.todo[0]].fails, Some(w)))
    ensures LoopInv(t)
  {
    var b := s.batch.value;
    assert forall i | 0 <= i < |b.todo[1..]| :: b.todo[1..][i] == b.todo[i + 1];
    forall d | d in s.cells ensures WorkOn(t, d) == if d == b.todo[0] then Some(w) else WorkOn(s, d) {}
  }

  lemma PostKeeps(subs: seq<Subscriber>, s: State, answer: Answer)
    requires LoopInv(s)
    ensures LoopInv(PostStep(subs, s, answer))
  {
    DropKeeps(s);
    TurnKeeps(subs, s, answer);
  }

  lemma TurnKeeps(subs: seq<Subscriber>, s: State, answer: Answer)
    requires LoopInv(s)
    ensures LoopInv(TurnStep(subs, s, answer))
  {
    if Posting(s) {
      TurnShape(subs, s, answer);
      TurnCell(subs, s, answer);
      var t := TurnStep(subs, s, answer);
      Advance(s, t, t.batch.value.done[s.batch.value.todo[0]]);
    }
  }

  lemma TurnShape(subs: seq<Subscriber>, s: State, answer: Answer)
    requires Posting(s)
    ensures var t, b := TurnStep(subs, s, answer), s.batch.value;
      && t.batch.Some? && b.todo[0] in t.batch.value.done && t.cells.Keys == s.cells.Keys
      && t == s.(cells := t.cells, batch := Some(Batch(b.todo[1..], b.base,
           b.done[b.todo[0] := t.batch.value.done[b.todo[0]]], t.batch.value.loaded, t.batch.value.locked)))
      && forall d | d in s.cells && d != b.todo[0] :: t.cells[d] == s.cells[d]
  {
  }

  lemma TurnCell(subs: seq<Subscriber>, s: State, answer: Answer)
    requires LoopInv(s) && Posting(s)
    ensures var t, did := TurnStep(subs, s, answer), s.batch.value.todo[0];
      did in s.cells ==>
        && t.batch.Some? && did in t.batch.value.done && did in t.cells && SameRow(s.cells[did], t.cells[did])
        && CellInv(t.cells[did], Some(t.batch.value.done[did]))
        && WorkInv(s.now, s.cells[did].row, s.cells[did].fails, Some(t.batch.value.done[did]))
  {
    var did := s.batch.value.todo[0];
    if did in s.cells {
      assert WorkOn(s, did) == None;
      PostedCell(s.now, s.cells[did], answer);
    }
  }

  lemma ForgottenCell(x: Cell, w: Work)
    requires CellInv(x, Some(w))
    ensures CellInv(Forgotten(x, w), None)
  {
  }

  lemma DropKeeps(s: State)
    requires CellsInv(s)
    ensures LoopInv(Drop(s))
  {
    var t := Drop(s);
    forall d | d in t.cells ensures CellInv(t.cells[d], None) && WorkOn(t, d) == None {
      assert CellInv(s.cells[d], WorkOn(s, d));
      if s.batch.Some? && d in s.batch.value.done { ForgottenCell(s.cells[d], s.batch.value.done[d]); }
    }
  }

  lemma OneMoreLost(s: State, did: Did, acked: bool)
    requires CellsInv(s) && did in s.cells
    ensures CellsInv(s.(cells := s.cells[did := OneLost(s.cells[did], acked)]))
  {
    var u := s.(cells := s.cells[did := OneLost(s.cells[did], acked)]);
    forall d | d in u.cells ensures CellInv(u.cells[d], WorkOn(u, d)) {
      assert WorkOn(u, d) == WorkOn(s, d) && CellInv(s.cells[d], WorkOn(s, d));
    }
  }

  lemma UnansweredKeeps(subs: seq<Subscriber>, s: State, acked: bool)
    requires CellsInv(s)
    ensures LoopInv(UnansweredStep(subs, s, acked))
  {
    DropKeeps(s);
    if Posting(s) && s.batch.value.todo[0] in s.cells {
      OneMoreLost(s, s.batch.value.todo[0], acked);
      DropKeeps(s.(cells := s.cells[s.batch.value.todo[0] := OneLost(s.cells[s.batch.value.todo[0]], acked)]));
    }
  }

  lemma CommittedCell(now: int, x: Cell, w: Work)
    requires CellInv(x, Some(w)) && WorkInv(now, x.row, x.fails, Some(w))
    ensures CellInv(Committed(x, w), None)
  {
  }

  lemma CommitKeeps(s: State)
    requires LoopInv(s)
    ensures LoopInv(CommitStep(s))
  {
    var t := CommitStep(s);
    if s.batch.Some? && s.batch.value.todo == [] {
      var done := s.batch.value.done;
      if done.Keys <= s.cells.Keys {
        forall d | d in t.cells ensures CellInv(t.cells[d], None) && WorkOn(t, d) == None {
          assert CellInv(s.cells[d], WorkOn(s, d));
          if d in done { CommittedCell(s.now, s.cells[d], done[d]); }
        }
      } else {
        DropKeeps(s);
      }
    }
  }

  // ---------- every event, every run ----------

  predicate LoopEvent(e: Event) { e.BatchRead? || e.Post? || e.PostUnanswered? || e.BatchCommit? || e.Fault? }

  lemma LoopEventTables(subs: seq<Subscriber>, s: State, e: Event)
    requires LoopEvent(e)
    ensures var t := Step(subs, s, e);
      && t.messages == s.messages && t.gone == s.gone && t.cells.Keys == s.cells.Keys
  {
    DropTables(s);
    if e.PostUnanswered? {
      UnansweredTables(subs, s, e.acked);
    } else if e.BatchCommit? {
      CommitTables(s);
    } else if e.Post? {
      TurnTables(subs, s, e.answer);
    }
  }

  lemma TurnTables(subs: seq<Subscriber>, s: State, answer: Answer)
    ensures var t := TurnStep(subs, s, answer);
      t.messages == s.messages && t.gone == s.gone && t.cells.Keys == s.cells.Keys
  {
  }

  lemma UnansweredTables(subs: seq<Subscriber>, s: State, acked: bool)
    ensures var t := UnansweredStep(subs, s, acked);
      t.messages == s.messages && t.gone == s.gone && t.cells.Keys == s.cells.Keys
  {
    DropTables(s);
    if Posting(s) && s.batch.value.todo[0] in s.cells {
      DropTables(s.(cells := s.cells[s.batch.value.todo[0] := OneLost(s.cells[s.batch.value.todo[0]], acked)]));
    }
  }

  lemma DropTables(s: State)
    ensures Drop(s).messages == s.messages && Drop(s).gone == s.gone && Drop(s).cells.Keys == s.cells.Keys
  {
  }

  lemma CommitTables(s: State)
    ensures CommitStep(s).messages == s.messages && CommitStep(s).gone == s.gone
      && CommitStep(s).cells.Keys == s.cells.Keys
  {
    DropTables(s);
  }

  /** What is in both tables is about the same message and subscriber in both. */
  ghost predicate SameIdentities(s: State, t: State) {
    forall d | d in s.cells && d in t.cells ::
      t.cells[d].row.message == s.cells[d].row.message && t.cells[d].row.subscriber == s.cells[d].row.subscriber
  }

  lemma LoopEventIdentity(subs: seq<Subscriber>, s: State, e: Event)
    requires LoopInv(s) && LoopEvent(e)
    ensures SameIdentities(s, Step(subs, s, e))
  {
    DropIdentity(s);
    if e.BatchCommit? {
      CommitIdentity(s);
    } else if e.PostUnanswered? {
      if Posting(s) && s.batch.value.todo[0] in s.cells {
        var did := s.batch.value.todo[0];
        DropIdentity(s.(cells := s.cells[did := OneLost(s.cells[did], e.acked)]));
      }
    }
  }

  lemma DropIdentity(s: State)
    ensures SameIdentities(s, Drop(s))
  {
  }

  lemma CommitIdentity(s: State)
    requires LoopInv(s)
    ensures SameIdentities(s, CommitStep(s))
  {
    DropIdentity(s);
    if s.batch.Some? {
      forall d | d in s.cells && d in s.batch.value.done
        ensures s.batch.value.done[d].row.message == s.cells[d].row.message
        ensures s.batch.value.done[d].row.subscriber == s.cells[d].row.subscriber
      {
        assert WorkInv(s.now, s.cells[d].row, s.cells[d].fails, WorkOn(s, d));
      }
    }
  }

  lemma LoopEventLoop(subs: seq<Subscriber>, s: State, e: Event)
    requires LoopInv(s) && LoopEvent(e)
    ensures LoopInv(Step(subs, s, e))
  {
    match e
    case BatchRead(dids) => ReadKeeps(s, dids);
    case Post(answer) => PostKeeps(subs, s, answer);
    case PostUnanswered(acked) => UnansweredKeeps(subs, s, acked);
    case BatchCommit => CommitKeeps(s);
    case Fault => DropKeeps(s);
  }

  lemma SameLoop(s: State, t: State)
    requires LoopInv(s) && t.cells == s.cells && t.batch == s.batch && s.now <= t.now
    ensures LoopInv(t)
  {
    forall d | d in t.cells ensures WorkOn(t, d) == WorkOn(s, d) {}
  }

  lemma QuietKeeps(subs: seq<Subscriber>, s: State, e: Event)
    requires Inv(subs, s) && (e.Tick? || e.InboundLookup? || e.InboundFault?)
    ensures Inv(subs, Step(subs, s, e))
  {
    var t := Step(subs, s, e);
    QuietFrame(subs, s, e);
    SameTables(subs, s, t);
    SameLoop(s, t);
  }

  lemma QuietFrame(subs: seq<Subscriber>, s: State, e: Event)
    requires e.Tick? || e.InboundLookup? || e.InboundFault?
    ensures var t := Step(subs, s, e);
      t.cells == s.cells && t.batch == s.batch && t.messages == s.messages && t.gone == s.gone && s.now <= t.now
  {
  }

  lemma StepKeeps(subs: seq<Subscriber>, s: State, e: Event)
    requires Inv(subs, s)
    ensures Inv(subs, Step(subs, s, e))
  {
    if LoopEvent(e) {
      LoopEventLoop(subs, s, e);
      LoopEventTables(subs, s, e);
      LoopEventIdentity(subs, s, e);
      SameTables(subs, s, Step(subs, s, e));
    } else if e.InboundInsert? {
      InsertKeeps(subs, s, e.rid, e.id, e.dids);
    } else if e.Prune? {
      PruneKeeps(subs, s, e.ids);
    } else {
      QuietKeeps(subs, s, e);
    }
  }

  lemma {:induction false} RunKeeps(subs: seq<Subscriber>, s: State, es: seq<Event>)
    requires Inv(subs, s)
    ensures Inv(subs, Run(subs, s, es))
    decreases |es|
  {
    if es != [] {
      StepKeeps(subs, s, es[0]);
      RunKeeps(subs, Step(subs, s, es[0]), es[1..]);
    }
  }

  // ---------- runs in pieces ----------

  lemma {:induction false} RunSnoc(subs: seq<Subscriber>, s: State, es: seq<Event>, e: Event)
    ensures Run(subs, s, es + [e]) == Step(subs, Run(subs, s, es), e)
    decreases |es|
  {
    if es == [] {
      assert [] + [e] == [e] && [e][1..] == [];
    } else {
      assert (es + [e])[0] == es[0] && (es + [e])[1..] == es[1..] + [e];
      RunSnoc(subs, Step(subs, s, es[0]), es[1..], e);
    }
  }

  lemma NextEvent(subs: seq<Subscriber>, s: State, es: seq<Event>, i: nat)
    requires i < |es|
    ensures es[..i + 1] == es[..i] + [es[i]]
    ensures Run(subs, s, es[..i + 1]) == Step(subs, Run(subs, s, es[..i]), es[i])
  {
    assert es[..i + 1] == es[..i] + [es[i]];
    RunSnoc(subs, s, es[..i], es[i]);
  }

  function Posts(answers: seq<Answer>): seq<Event> {
    if answers == [] then [] else Posts(answers[..|answers| - 1]) + [Post(answers[|answers| - 1])]
  }

  lemma PostsStep(answers: seq<Answer>, i: nat)
    requires i < |answers|
    ensures Posts(answers[..i + 1]) == Posts(answers[..i]) + [Post(answers[i])]
  {
    assert answers[..i + 1][..i] == answers[..i];
  }
}
