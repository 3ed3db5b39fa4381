/** Webhook deliveries: creating one per interested subscriber, and one delivery attempt. */
module Webhooks {
  import opened Prelude
  import opened Backoff

  type Id = int

  const MAX_ATTEMPTS := 6

  /** `interested`: the subscriber's events include "message.received". */
  datatype Subscriber = Subscriber(name: string, url: string, interested: bool)

  datatype Status = Waiting | Delivered | Failed | Cancelled

  datatype Delivery = Delivery(message: Id, subscriber: string, url: string, status: Status, attempts: nat,
    next: Option<int>, created: int)

  /** What the subscriber answers: an HTTP status code, or a transport failure. */
  datatype Answer = Code(code: int) | HttpFailure

  predicate Acknowledges(a: Answer) { a.Code? && a.code < 300 }

  predicate Configured(subs: seq<Subscriber>, name: string) {
    exists i :: 0 <= i < |subs| && subs[i].name == name
  }

  function NewDelivery(message: Id, sub: Subscriber, now: int): Delivery {
    Delivery(message, sub.name, sub.url, Waiting, 0, Some(now), now)
  }

  /** The subscribers that get a delivery, in order: interested and without a row yet. */
  function Wanting(subs: seq<Subscriber>, existing: set<string>): seq<Subscriber> {
    if subs == [] then []
    else
      var before, last := Wanting(subs[..|subs| - 1], existing), subs[|subs| - 1];
      if last.interested && last.name !in existing then before + [last] else before
  }

  function NewDeliveries(message: Id, subs: seq<Subscriber>, now: int): (r: seq<Delivery>)
    ensures |r| == |subs| && forall i | 0 <= i < |subs| :: r[i] == NewDelivery(message, subs[i], now)
  {
    if subs == [] then []
      else NewDeliveries(message, subs[..|subs| - 1], now) + [NewDelivery(message, subs[|subs| - 1], now)]
  }

  lemma NextSubscriber(subs: seq<Subscriber>, existing: set<string>, i: nat, message: Id, now: int)
    requires i < |subs|
    ensures NewDeliveries(message, Wanting(subs[..i + 1], existing), now)
      == NewDeliveries(message, Wanting(subs[..i], existing), now)
         + if subs[i].interested && subs[i].name !in existing then [NewDelivery(message, subs[i], now)] else []
  {
    var before := Wanting(subs[..i], existing);
    assert subs[..i + 1][..i] == subs[..i];
    assert (before + [subs[i]])[..|before|] == before;
  }

  /** `enqueue_fanout`: the rows added to the session and their number. */
  method EnqueueFanout(subs: seq<Subscriber>, existing: set<string>, message: Id,
                       now: int) returns (added: seq<Delivery>, created: nat)
    ensures added == NewDeliveries(message, Wanting(subs, existing), now) && created == |Wanting(subs, existing)|
  {
    added, created := [], 0;
    var i := 0;
    while i < |subs|
      invariant 0 <= i <= |subs|
      invariant added == NewDeliveries(message, Wanting(subs[..i], existing), now) && created == |added|
    {
      NextSubscriber(subs, existing, i, message, now);
      if subs[i].interested && subs[i].name !in existing {
        added := added + [NewDelivery(message, subs[i], now)];
        created := created + 1;
      }
      i := i + 1;
    }
    assert subs[..i] == subs;
  }

  /** One row per message and subscriber: what the unique constraint demands of the rows just added. */
  predicate DistinctSubscribers(rows: seq<Delivery>) {
    forall i, j | 0 <= i < j < |rows| :: rows[i].subscriber != rows[j].subscriber
  }

  ghost predicate DistinctNames(subs: seq<Subscriber>) {
    forall i, j | 0 <= i < j < |subs| && subs[i].interested && subs[j].interested :: subs[i].name != subs[j].name
  }

  lemma {:induction false} WantingIs(subs: seq<Subscriber>, existing: set<string>, x: Subscriber)
    ensures x in Wanting(subs, existing) <==> x in subs && x.interested && x.name !in existing
  {
    if subs != [] {
      WantingIs(subs[..|subs| - 1], existing, x);
      assert subs == subs[..|subs| - 1] + [subs[|subs| - 1]];
    }
  }

  lemma DistinctNamesSnoc(subs: seq<Subscriber>, last: Subscriber)
    ensures DistinctNames(subs + [last]) <==>
      DistinctNames(subs) && (last.interested ==> forall x | x in subs && x.interested :: x.name != last.name)
  {
    var all := subs + [last];
    if DistinctNames(all) {
      forall i, j | 0 <= i < j < |subs| && subs[i].interested && subs[j].interested
        ensures subs[i].name != subs[j].name {
        assert all[i] == subs[i] && all[j] == subs[j];
      }
      forall x | last.interested && x in subs && x.interested ensures x.name != last.name {
        var i :| 0 <= i < |subs| && subs[i] == x;
        assert all[i] == x && all[|subs|] == last;
      }
    }
  }

  /** The rows for a new message satisfy the unique constraint exactly when no two interested subscribers share a name;
      otherwise the commit fails and the message itself is not stored. */
  lemma {:induction false} FanoutCommitsIff(subs: seq<Subscriber>, message: Id, now: int)
    ensures DistinctSubscribers(NewDeliveries(message, Wanting(subs, {}), now)) <==> DistinctNames(subs)
  {
    if subs != [] {
      var n := |subs| - 1;
      var before, wanting := Wanting(subs[..n], {}), Wanting(subs, {});
      FanoutCommitsIff(subs[..n], message, now);
      assert subs == subs[..n] + [subs[n]];
      DistinctNamesSnoc(subs[..n], subs[n]);
      if subs[n].interested {
        assert wanting == before + [subs[n]];
        forall x ensures x in before <==> x in subs[..n] && x.interested { WantingIs(subs[..n], {}, x); }
        RowsSnoc(before, subs[n], message, now);
      }
    }
  }

  lemma RowsSnoc(before: seq<Subscriber>, last: Subscriber, message: Id, now: int)
    ensures DistinctSubscribers(NewDeliveries(message, before + [last], now)) <==>
      DistinctSubscribers(NewDeliveries(message, before, now)) && forall x | x in before :: x.name != last.name
  {
    var rows, all := NewDeliveries(message, before, now), NewDeliveries(message, before + [last], now);
    assert forall k | 0 <= k < |before| :: all[k] == rows[k] == NewDelivery(message, before[k], now);
    assert all[|before|].subscriber == last.name;
    if DistinctSubscribers(all) {
      forall x | x in before ensures x.name != last.name {
        var k :| 0 <= k < |before| && before[k] == x;
        assert all[k].subscriber != all[|before|].subscriber;
      }
    }
  }

  // ---------- one attempt ----------

  /** `deliver` on a row: cancelled when its subscriber is gone, else one attempt counted and judged. */
  function After(d: Delivery, configured: bool, answer: Answer, now: int): Delivery {
    if !configured then d.(status := Cancelled)
    else
      var tried := d.(attempts := d.attempts + 1);
      if Acknowledges(answer) then tried.(status := Delivered)
      else if tried.attempts >= MAX_ATTEMPTS then tried.(status := Failed)
      else tried.(status := Waiting, next := Some(now + FanoutSeconds(tried.attempts)))
  }

  /** What one answered attempt makes of a delivery, in plain numbers. */
  predicate AfterAttempt(before: Delivery, after: Delivery, answer: Answer, now: int) {
    && after.message == before.message && after.subscriber == before.subscriber && after.url == before.url
    && after.created == before.created && after.attempts == before.attempts + 1
    && (after.status == Delivered <==> answer.Code? && answer.code < 300)
    && (after.status == Failed <==> !(answer.Code? && answer.code < 300) && before.attempts + 1 >= 6)
    && (after.status != Delivered && after.status != Failed ==>
          after.status == Waiting && after.next == Some(now + 30 * Pow2(before.attempts)))
  }

  lemma AfterIsAfterAttempt(d: Delivery, answer: Answer, now: int)
    ensures AfterAttempt(d, After(d, true, answer, now), answer, now)
  {
    Powers();
  }

  /** The delivery object the handler mutates. */
  class DeliveryRow {
    const message: Id
    const subscriber: string
    const url: string
    const created: int
    var status: Status
    var attempts: nat
    var next: Option<int>
    var responseCode: Option<int>
    var posts: nat    // calls made through this object

    constructor (d: Delivery)
      ensures Snapshot() == d && posts == 0
    {
      message, subscriber, url, created := d.message, d.subscriber, d.url, d.created;
      status, attempts, next := d.status, d.attempts, d.next;
      responseCode := None;
      posts := 0;
    }

    function Snapshot(): Delivery
      reads this
    {
      Delivery(message, subscriber, url, status, attempts, next, created)
    }

    /** The row is changed in place and exactly one call is made, unless the subscriber is no longer configured. A code
        below 300 settles the delivery, the sixth attempt gives it up, and otherwise it waits 30 seconds doubled with
        each attempt. */
    method Deliver(subs: seq<Subscriber>, answer: Answer, now: int)
      modifies this
      ensures Snapshot() == After(old(Snapshot()), Configured(subs, subscriber), answer, now)
      ensures posts == old(posts) + if Configured(subs, subscriber) then 1 else 0
      ensures Configured(subs, subscriber) && answer.Code? ==> responseCode == Some(answer.code)
      ensures Configured(subs, subscriber) ==> AfterAttempt(old(Snapshot()), Snapshot(), answer, now)
      ensures !Configured(subs, subscriber) ==> Snapshot() == old(Snapshot()).(status := Cancelled)
    {
      var found := false;
      var i := 0;
      while i < |subs| && !found
        invariant 0 <= i <= |subs|
        invariant found <==> exists k :: 0 <= k < i && subs[k].name == subscriber
      {
        found := subs[i].name == subscriber;
        i := i + 1;
      }
      if !found {
        status := Cancelled;
        return;
      }
      AfterIsAfterAttempt(Snapshot(), answer, now);
      attempts := attempts + 1;
      posts := posts + 1;
      if answer.Code? {
        responseCode := Some(answer.code);
        if answer.code < 300 {
          status := Delivered;
          return;
        }
      }
      if attempts >= MAX_ATTEMPTS {
        status := Failed;
      } else {
        status := Waiting;
        next := Some(now + FanoutSeconds(attempts));
      }
    }
  }
}
