/**
  One outbound message as the worker sees it: the columns of a `messages` row, what each atomic stretch of
  code between two awaits does to them, and the history of everything done on the message's behalf.
 */
module Messages {
  import opened Prelude
  import opened Backoff

  datatype Config = Config(maxAttempts: int, stuckAfter: int, retention: int)
  {
    /** The attempt limit in force: the comparison happens after the increment, so at least one attempt is made. */
    function Limit(): nat { Max(1, maxAttempts) }
  }

  datatype Direction = Outbound | Inbound
  datatype Status = Queued | Sending | Sent | Delivered | Failed | Published | Received
  datatype Transport = Ntfy | Sms | SmsFallback

  predicate Pending(s: Status) { s.Queued? || s.Sending? }

  predicate Terminal(s: Status) { s.Delivered? || s.Failed? || s.Received? || s.Published? }

  function Phase(s: Status): nat {
    if Pending(s) then 0 else if s.Sent? then 1 else 2
  }

  datatype Row = Row(
    direction: Direction, status: Status, service: string, key: Option<string>,
    transport: Transport, topic: Option<string>, attempts: nat, next: Option<int>,
    pid: Option<string>, created: int, updated: int, sentAt: Option<int>)

  /** What is done for a message, in order. The last three mark a crash or an unexpected exception: `Lose` when an SMS
      call had been made whose outcome was not committed, `LosePublish` when an ntfy call had been, `Drop` otherwise. */
  datatype Act =
    | Claim(at: int, failures: nat)
    | Publish | Fallback | SmsCall
    | Accept | Reject | Publication
    | Lose | LosePublish | Drop

  datatype Tally = Tally(claims: nat, publishes: nat, fallbacks: nat, calls: nat,
                         accepts: nat, rejects: nat, publications: nat, loses: nat, lostPublishes: nat, drops: nat)

  function Bump(t: Tally, a: Act): Tally {
    match a
    case Claim(_, _) => t.(claims := t.claims + 1)
    case Publish => t.(publishes := t.publishes + 1)
    case Fallback => t.(fallbacks := t.fallbacks + 1)
    case SmsCall => t.(calls := t.calls + 1)
    case Accept => t.(accepts := t.accepts + 1)
    case Reject => t.(rejects := t.rejects + 1)
    case Publication => t.(publications := t.publications + 1)
    case Lose => t.(loses := t.loses + 1)
    case LosePublish => t.(lostPublishes := t.lostPublishes + 1)
    case Drop => t.(drops := t.drops + 1)
  }

  function Count(trace: seq<Act>): Tally {
    if trace == [] then Tally(0, 0, 0, 0, 0, 0, 0, 0, 0, 0)
    else Bump(Count(trace[..|trace| - 1]), trace[|trace| - 1])
  }

  lemma CountAppend(trace: seq<Act>, a: Act)
    ensures Count(trace + [a]) == Bump(Count(trace), a)
  {
    assert (trace + [a])[..|trace|] == trace;
  }

  /** A committed row with its history: the acts, and the times at which its committed failures happened. */
  datatype Cell = Cell(row: Row, trace: seq<Act>, errs: seq<int>)
  {
    function Log(a: Act): Cell { this.(trace := trace + [a]) }
  }

  // ---------- what the code does to a row ----------

  function NewOutbound(service: string, key: Option<string>, topic: Option<string>, now: int): Row {
    Row(Outbound, Queued, service, key, if topic.Some? then Ntfy else Sms, topic, 0, Some(now), None, now, now, None)
  }

  function NewInbound(pid: Option<string>, created: int, now: int): Row {
    Row(Inbound, Received, "inbound", None, Sms, None, 0, None, pid, created, now, None)
  }

  predicate Due(r: Row, now: int) {
    r.direction.Outbound? && r.status.Queued? && (r.next.None? || r.next.value <= now)
  }

  predicate Stuck(c: Config, r: Row, now: int) {
    r.status.Sending? && r.updated < now - c.stuckAfter
  }

  /** `_requeue_stuck` read the clock at `at` and committed at `now`. */
  function Requeued(r: Row, at: int, now: int): Row {
    r.(status := Queued, next := Some(at), updated := now)
  }

  function Claimed(r: Row, at: int): Row {
    r.(status := Sending, updated := at)
  }

  function FallenBack(r: Row): Row {
    r.(transport := SmsFallback)
  }

  function MarkedPublished(r: Row, receipt: string, now: int): Row {
    r.(status := Published, pid := Some("ntfy:" + receipt), sentAt := Some(now))
  }

  function MarkedSent(r: Row, pid: Option<string>, now: int): Row {
    r.(attempts := r.attempts + 1, status := Sent, pid := pid, sentAt := Some(now))
  }

  function MarkedError(c: Config, r: Row, permanent: bool, now: int): Row {
    var attempts := r.attempts + 1;
    if permanent || attempts >= c.maxAttempts then r.(attempts := attempts, status := Failed)
    else r.(attempts := attempts, status := Queued, next := Some(now + SendSeconds(attempts)))
  }

  /** An ORM flush: only the columns in which the in-memory copy differs from what was loaded are written, on top of
      whatever the table holds by then; `updated_at` is refreshed. */
  function Flush(base: Row, copy: Row, current: Row, now: int): Row {
    current.(
      status := if copy.status != base.status then copy.status else current.status,
      transport := if copy.transport != base.transport then copy.transport else current.transport,
      attempts := if copy.attempts != base.attempts then copy.attempts else current.attempts,
      next := if copy.next != base.next then copy.next else current.next,
      pid := if copy.pid != base.pid then copy.pid else current.pid,
      sentAt := if copy.sentAt != base.sentAt then copy.sentAt else current.sentAt,
      updated := now)
  }

  // ---------- where the send loop stands with a message ----------

  datatype Stage =
    | Free                            // the send loop does not hold it
    | Held                            // claim (or fallback) committed, next call not made
    | PublishOut                      // ntfy call out
    | FallbackChosen                  // ntfy failed, fallback not yet committed
    | PublicationMade                 // ntfy acknowledged, not yet committed
    | SmsOut                          // provider call out
    | Settled(ok: bool, at: int)      // provider answered at time `at`, not yet committed

  function InFlight(g: Stage): nat { if g.SmsOut? || g.Settled? then 1 else 0 }

  function PublishInFlight(g: Stage): nat {
    if g.PublishOut? || g.FallbackChosen? || g.PublicationMade? then 1 else 0
  }

  /** How losing the message at this stage is recorded. */
  function LossAt(g: Stage): Act {
    if InFlight(g) == 1 then Lose else if PublishInFlight(g) == 1 then LosePublish else Drop
  }

  function InHand(g: Stage): nat { if g.Free? then 0 else 1 }

  // ---------- what stays true of one message ----------

  predicate RowInv(c: Config, now: int, r: Row) {
    && r.updated <= now
    && (r.direction.Inbound? ==> r.status.Received? || r.status.Delivered?)
    && (r.direction.Outbound? ==> !r.status.Received? && r.created <= now)
    && r.attempts <= c.Limit()
    && (Pending(r.status) ==> r.pid.None? && r.attempts < c.Limit())
    && (r.topic.Some? <==> !r.transport.Sms?)
    && (r.status.Published? ==> r.transport.Ntfy?)
    && (r.transport.Ntfy? ==> r.attempts == 0)
  }

  predicate Blocks(a: Act, b: Act) {
    || (a.SmsCall? && (b.Publish? || b.Fallback?))
    || (a.Fallback? && (b.Publish? || b.Fallback?))
  }

  /** Nothing is published after the fallback, and the fallback is not chosen after an SMS call. */
  predicate Ordered(trace: seq<Act>) {
    forall i, j | 0 <= i < j < |trace| :: !Blocks(trace[i], trace[j])
  }

  predicate ChannelInv(x: Cell) {
    && Ordered(x.trace)
    && (x.row.transport.Ntfy? ==> Fallback !in x.trace && SmsCall !in x.trace)
    && (x.row.transport.Sms? ==> Publish !in x.trace && Fallback !in x.trace)
    && (x.row.transport.SmsFallback? ==> Fallback in x.trace)
  }

  predicate TallyInv(x: Cell, g: Stage) {
    var t := Count(x.trace);
    && t.calls == x.row.attempts + t.loses + InFlight(g)
    && x.row.attempts == t.accepts + t.rejects
    && |x.errs| == t.rejects
    && t.publishes == t.publications + t.fallbacks + t.lostPublishes + PublishInFlight(g)
    && t.claims == x.row.attempts + t.publications + t.loses + t.lostPublishes + t.drops + InHand(g)
    && t.accepts + t.publications <= 1
    && (t.publications > 0 ==> x.row.transport.Ntfy?)
    && (Pending(x.row.status) ==> t.accepts == 0 && t.publications == 0)
    && (x.row.direction.Inbound? ==> x.trace == [])
  }

  predicate ClaimRested(a: Act, errs: seq<int>) {
    a.Claim? && a.failures > 0 ==>
      a.failures <= |errs| && a.at >= errs[a.failures - 1] + SendSeconds(a.failures)
  }

  ghost predicate SpacingInv(now: int, x: Cell) {
    && Spaced(x.errs, SEND_CAP)
    && (forall i | 0 <= i < |x.errs| :: x.errs[i] <= now)
    && (forall i | 0 <= i < |x.trace| :: ClaimRested(x.trace[i], x.errs))
    && (x.row.status.Queued? && |x.errs| > 0 ==> x.row.next.Some? && Rested(x.errs, x.row.next.value, SEND_CAP))
    && (x.row.status.Sending? ==> Rested(x.errs, now, SEND_CAP))
  }

  /** When the message was last claimed. */
  function LastClaim(trace: seq<Act>): Option<int> {
    if trace == [] then None
    else
      var last := trace[|trace| - 1];
      if last.Claim? then Some(last.at) else LastClaim(trace[..|trace| - 1])
  }

  /** Whether a fallback has been committed since then. */
  function FellBackSinceClaim(trace: seq<Act>): bool {
    if trace == [] then false
    else
      var last := trace[|trace| - 1];
      !last.Claim? && (last.Fallback? || FellBackSinceClaim(trace[..|trace| - 1]))
  }

  lemma LastClaimAppend(trace: seq<Act>, a: Act)
    ensures LastClaim(trace + [a]) == if a.Claim? then Some(a.at) else LastClaim(trace)
    ensures FellBackSinceClaim(trace + [a]) <==> !a.Claim? && (a.Fallback? || FellBackSinceClaim(trace))
  {
    assert (trace + [a])[..|trace|] == trace;
  }

  /** A SENDING row is as old as its last claim, or as the fallback committed since. */
  predicate ClaimInv(x: Cell) {
    x.row.status.Sending? ==>
      && LastClaim(x.trace).Some? && LastClaim(x.trace).value <= x.row.updated
      && (!FellBackSinceClaim(x.trace) ==> x.row.updated == LastClaim(x.trace).value)
  }

  ghost predicate CellInv(c: Config, now: int, x: Cell, g: Stage) {
    && RowInv(c, now, x.row)
    && ChannelInv(x)
    && TallyInv(x, g)
    && SpacingInv(now, x)
    && ClaimInv(x)
    && (!g.Free? ==> x.row.status.Sending?)
  }

  /** How the copy in the send loop's hand relates to the row it was loaded from. */
  ghost predicate CopyInv(c: Config, now: int, base: Row, copy: Row, g: Stage, errs: seq<int>) {
    && !g.Free?
    && (g.Held? || g.PublishOut? || g.SmsOut? ==> copy == base)
    && (g.PublishOut? || g.FallbackChosen? || g.PublicationMade? ==> base.transport.Ntfy?)
    && (g.SmsOut? || g.Settled? ==> !base.transport.Ntfy?)
    && (g.FallbackChosen? ==> copy == FallenBack(base))
    && (g.PublicationMade? ==> copy == base.(status := Published, pid := copy.pid, sentAt := copy.sentAt))
    && (g.Settled? ==> g.at <= now && Rested(errs, g.at, SEND_CAP))
    && (g.Settled? && g.ok ==> copy == MarkedSent(base, copy.pid, g.at))
    && (g.Settled? && !g.ok ==> copy == MarkedError(c, base, true, g.at) || copy == MarkedError(c, base, false, g.at))
  }

  // ---------- each act keeps the invariant of the message it touches ----------

  lemma OrderedAppend(trace: seq<Act>, a: Act)
    requires Ordered(trace) && (forall i | 0 <= i < |trace| :: !Blocks(trace[i], a))
    ensures Ordered(trace + [a])
  {
  }

  lemma TimePasses(c: Config, now: int, later: int, x: Cell, g: Stage)
    requires CellInv(c, now, x, g) && now <= later
    ensures CellInv(c, later, x, g)
  {
  }

  lemma RequeueKeeps(c: Config, now: int, x: Cell, at: int)
    requires CellInv(c, now, x, Free) && x.row.status.Sending? && Rested(x.errs, at, SEND_CAP)
    ensures CellInv(c, now, x.(row := Requeued(x.row, at, now)), Free)
  {
  }

  lemma ClaimKeeps(c: Config, now: int, x: Cell, at: int)
    requires CellInv(c, now, x, Free) && Due(x.row, at) && at <= now
    ensures CellInv(c, now, x.(row := Claimed(x.row, at)).Log(Claim(at, x.row.attempts)), Held)
  {
    CountAppend(x.trace, Claim(at, x.row.attempts));
    LastClaimAppend(x.trace, Claim(at, x.row.attempts));
  }

  lemma PublishKeeps(c: Config, now: int, x: Cell)
    requires CellInv(c, now, x, Held) && x.row.transport.Ntfy?
    ensures CellInv(c, now, x.Log(Publish), PublishOut)
  {
    CountAppend(x.trace, Publish);
    LastClaimAppend(x.trace, Publish);
  }

  lemma SmsCallKeeps(c: Config, now: int, x: Cell)
    requires CellInv(c, now, x, Held) && !x.row.transport.Ntfy?
    ensures CellInv(c, now, x.Log(SmsCall), SmsOut)
  {
    CountAppend(x.trace, SmsCall);
    LastClaimAppend(x.trace, SmsCall);
  }

  lemma FallbackKeeps(c: Config, now: int, x: Cell, copy: Row)
    requires CellInv(c, now, x, FallbackChosen) && CopyInv(c, now, x.row, copy, FallbackChosen, x.errs)
    ensures CellInv(c, now, x.(row := Flush(x.row, copy, x.row, now)).Log(Fallback), Held)
  {
    CountAppend(x.trace, Fallback);
    LastClaimAppend(x.trace, Fallback);
    OrderedAppend(x.trace, Fallback);
  }

  lemma PublicationKeeps(c: Config, now: int, x: Cell, copy: Row)
    requires CellInv(c, now, x, PublicationMade) && CopyInv(c, now, x.row, copy, PublicationMade, x.errs)
    ensures CellInv(c, now, x.(row := Flush(x.row, copy, x.row, now)).Log(Publication), Free)
  {
    CountAppend(x.trace, Publication);
    LastClaimAppend(x.trace, Publication);
  }

  lemma AcceptKeeps(c: Config, now: int, x: Cell, copy: Row, g: Stage)
    requires g.Settled? && g.ok && CellInv(c, now, x, g) && CopyInv(c, now, x.row, copy, g, x.errs)
    ensures CellInv(c, now, x.(row := Flush(x.row, copy, x.row, now)).Log(Accept), Free)
  {
    CountAppend(x.trace, Accept);
    LastClaimAppend(x.trace, Accept);
  }

  /** The cell that a committed error leaves. */
  function Rejected(x: Cell, copy: Row, at: int, now: int): Cell {
    x.(row := Flush(x.row, copy, x.row, now), errs := x.errs + [at]).Log(Reject)
  }

  lemma RejectKeeps(c: Config, now: int, x: Cell, copy: Row, g: Stage)
    requires g.Settled? && !g.ok && CellInv(c, now, x, g) && CopyInv(c, now, x.row, copy, g, x.errs)
    ensures CellInv(c, now, Rejected(x, copy, g.at, now), Free)
  {
    CountAppend(x.trace, Reject);
    LastClaimAppend(x.trace, Reject);
    RejectSpacing(c, now, x, copy, g);
  }

  lemma RejectSpacing(c: Config, now: int, x: Cell, copy: Row, g: Stage)
    requires g.Settled? && !g.ok && CellInv(c, now, x, g) && CopyInv(c, now, x.row, copy, g, x.errs)
    ensures SpacingInv(now, Rejected(x, copy, g.at, now))
  {
    SecondsMonotoneAndCapped(0, |x.errs| + 1, SEND_CAP);
    var y := Rejected(x, copy, g.at, now);
    assert Spaced(y.errs, SEND_CAP);
    assert forall i | 0 <= i < |y.trace| :: ClaimRested(y.trace[i], y.errs);
  }

  lemma DropKeeps(c: Config, now: int, x: Cell, g: Stage)
    requires CellInv(c, now, x, g) && !g.Free?
    ensures CellInv(c, now, x.Log(LossAt(g)), Free)
  {
    CountAppend(x.trace, LossAt(g));
    LastClaimAppend(x.trace, LossAt(g));
  }

  /** A receipt or a status poll may overwrite the status of a row that has left the queue. */
  lemma OverwriteKeeps(c: Config, now: int, x: Cell, status: Status)
    requires CellInv(c, now, x, Free) && Phase(x.row.status) >= 1
      && (status.Delivered? || (status.Failed? && x.row.direction.Outbound?))
    ensures CellInv(c, now, x.(row := x.row.(status := status, updated := now)), Free)
  {
  }
}
