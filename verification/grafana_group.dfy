/** What the group notification promises: an order-independent key, reminders, and a body that fits its schema. */
module GrafanaGroup {
  import opened Prelude
  import opened StableSort
  import opened Grafana

  // ---------- all or nothing ----------

  lemma {:induction false} ParsedAll(raws: seq<RawAlert>, iso: string -> Option<int>)
    ensures ParseAll(raws, iso).Some? <==> forall i | 0 <= i < |raws| :: Parse(raws[i], iso).Some?
    ensures ParseAll(raws, iso).Some? ==> |ParseAll(raws, iso).value| == |raws|
    ensures ParseAll(raws, iso).Some? ==> forall i | 0 <= i < |raws| ::
      Parse(raws[i], iso) == Some(ParseAll(raws, iso).value[i])
  {
    if raws != [] {
      var n := |raws| - 1;
      ParsedAll(raws[..n], iso);
      assert forall i | 0 <= i < n :: raws[..n][i] == raws[i];
    }
  }

  /** What the handler accepts as an alert: labels with a name, a known status, a fingerprint and a start that is a time
      with a zone; annotations may be missing, and a summary may be missing but not empty. */
  predicate ValidRaw(raw: RawAlert, iso: string -> Option<int>) {
    && raw.Raw? && raw.labels.Some? && (raw.annotations.Absent? || raw.annotations.Dict?)
    && (raw.status == Some("firing") || raw.status == Some("resolved"))
    && "alertname" in raw.labels.value && raw.labels.value["alertname"] != ""
    && (raw.annotations.Dict? && "summary" in raw.annotations.entries ==> raw.annotations.entries["summary"] != "")
    && raw.fingerprint.Some? && raw.fingerprint.value != ""
    && raw.startsAt.Some? && raw.startsAt.value != "" && iso(raw.startsAt.value).Some?
  }

  /** Exactly the valid alerts are parsed, each into its own fields. */
  lemma ParsedIffValid(raw: RawAlert, iso: string -> Option<int>)
    ensures Parse(raw, iso).Some? <==> ValidRaw(raw, iso)
    ensures ValidRaw(raw, iso) ==>
      var a, labels := Parse(raw, iso).value, raw.labels.value;
      && a.name == labels["alertname"] && a.labels == labels && a.fingerprint == raw.fingerprint.value
      && a.startsAt == raw.startsAt.value && Some(a.started) == iso(raw.startsAt.value)
      && (a.firing <==> raw.status == Some("firing"))
      && (a.critical <==> "severity" in labels && labels["severity"] == "critical")
      && a.summary == (if raw.annotations.Dict? && "summary" in raw.annotations.entries
                       then raw.annotations.entries["summary"] else labels["alertname"])
  {
  }

  /** A payload yields its one notification exactly when it has 1 to 100 alerts and every one of them is valid; the
      notification is about all of them, in one message. */
  lemma OneNotificationIffAllValid(raws: seq<RawAlert>, iso: string -> Option<int>, now: int)
    ensures Notify(raws, iso, now).Some? <==> 1 <= |raws| <= 100 && forall i | 0 <= i < |raws| :: ValidRaw(raws[i], iso)
    ensures Notify(raws, iso, now).Some? ==> |Notify(raws, iso, now).value.key| == |raws|
  {
    ParsedAll(raws, iso);
    forall i | 0 <= i < |raws| ensures Parse(raws[i], iso).Some? <==> ValidRaw(raws[i], iso) {
      ParsedIffValid(raws[i], iso);
    }
  }

  predicate RawCritical(raw: RawAlert) {
    raw.Raw? && raw.labels.Some? && "severity" in raw.labels.value && raw.labels.value["severity"] == "critical"
  }

  predicate RawFiring(raw: RawAlert) { raw.Raw? && raw.status == Some("firing") }

  /** The group's priority: 4 exactly with a critical firing alert, else 3 with any firing or critical one, else 1. */
  lemma PriorityOfGroup(raws: seq<RawAlert>, iso: string -> Option<int>, now: int)
    requires Notify(raws, iso, now).Some?
    ensures Notify(raws, iso, now).value.priority ==
      if exists r :: r in raws && RawCritical(r) && RawFiring(r) then 4
      else if exists r :: r in raws && (RawCritical(r) || RawFiring(r)) then 3
      else 1
  {
    NotificationOf(raws, iso, now);
    EntryPriorities(raws, iso, now);
    var es := Entries(ParseAll(raws, iso).value, now);
    var k := MaxPriorityIs(es);
    forall r | r in raws ensures RawPriority(r) <= MaxPriority(es) {
      var i :| 0 <= i < |raws| && raws[i] == r;
      assert es[i].priority <= MaxPriority(es);
    }
    assert raws[k] in raws && RawPriority(raws[k]) == MaxPriority(es);
  }

  function RawPriority(r: RawAlert): int {
    if RawCritical(r) && RawFiring(r) then 4 else if RawCritical(r) || RawFiring(r) then 3 else 1
  }

  lemma EntryPriorities(raws: seq<RawAlert>, iso: string -> Option<int>, now: int)
    requires ParseAll(raws, iso).Some?
    ensures var es := Entries(ParseAll(raws, iso).value, now);
      |es| == |raws| && forall i | 0 <= i < |raws| :: es[i].priority == RawPriority(raws[i])
  {
    ParsedAll(raws, iso);
    forall i | 0 <= i < |raws|
      ensures Entries(ParseAll(raws, iso).value, now)[i].priority == RawPriority(raws[i])
    {
      EntryPriority(raws[i], iso, now);
    }
  }

  lemma EntryPriority(raw: RawAlert, iso: string -> Option<int>, now: int)
    requires Parse(raw, iso).Some?
    ensures EntryOf(Parse(raw, iso).value, now).priority == RawPriority(raw)
  {
  }

  // ---------- the key and the order of alerts ----------

  lemma ImageWithoutOne<T, K>(s: seq<T>, k: nat, f: T -> K)
    requires k < |s|
    ensures Map(f, Without(s, k)) == Without(Map(f, s), k)
  {
    var l, r := Map(f, Without(s, k)), Without(Map(f, s), k);
    assert |l| == |r|;
    forall i | 0 <= i < |l| ensures l[i] == r[i] {
      assert l[i] == f(Without(s, k)[i]);
      assert r[i] == Map(f, s)[if i < k then i else i + 1];
    }
  }

  lemma {:induction false} ImageOfPermutation<T, K>(a: seq<T>, b: seq<T>, f: T -> K)
    requires multiset(a) == multiset(b)
    ensures multiset(Map(f, a)) == multiset(Map(f, b))
  {
    if a == [] {
      BothEmpty(a, b);
    } else {
      var k := MatchFirst(a, b);
      ImageOfPermutation(a[1..], Without(b, k), f);
      ImageWithoutOne(b, k, f);
      ImageWithoutOne(a, 0, f);
      assert Without(a, 0) == a[1..];
      WithoutOne(Map(f, a), 0);
      WithoutOne(Map(f, b), k);
    }
  }

  /** What the order looks at: identity and priority, not the text. */
  function Rank(e: Entry): Entry { e.(text := "") }

  function Ranks(entries: seq<Entry>): seq<Entry> { Map(Rank, entries) }

  lemma KeyOfRanks(entries: seq<Entry>)
    ensures Key(Ranks(entries)) == Key(entries)
  {
    SortOfMap(entries, Rank, EntryLe, EntryLe);
    assert Ids(Map(Rank, Sort(entries, EntryLe))) == Ids(Sort(entries, EntryLe));
  }

  /** The key depends on nothing but which identities come with which priorities, how often: not on the order, not on
      the texts. */
  lemma KeyOrderIndependent(es: seq<Entry>, fs: seq<Entry>)
    requires multiset(Ranks(es)) == multiset(Ranks(fs))
    ensures Key(es) == Key(fs)
  {
    var f := (e: Entry) => e.id;
    KeyOfRanks(es);
    KeyOfRanks(fs);
    EntryLeIsOrder();
    OrderIrrelevantIfTiesAgree(Ranks(es), Ranks(fs), EntryLe, f);
    assert Key(Ranks(es)) == Map(f, Sort(Ranks(es), EntryLe)) && Key(Ranks(fs)) == Map(f, Sort(Ranks(fs), EntryLe));
  }

  function EntryOfRaw(raw: RawAlert, iso: string -> Option<int>, now: int): Option<Entry> {
    match Parse(raw, iso)
    case None => None
    case Some(a) => Some(EntryOf(a, now))
  }

  function Wrapped(entries: seq<Entry>): seq<Option<Entry>> { Map((e: Entry) => Some(e), entries) }

  lemma EntriesOfRaws(raws: seq<RawAlert>, iso: string -> Option<int>, now: int, f: RawAlert -> Option<Entry>)
    requires ParseAll(raws, iso).Some? && forall r: RawAlert :: f(r) == EntryOfRaw(r, iso, now)
    ensures Wrapped(Entries(ParseAll(raws, iso).value, now)) == Map(f, raws)
  {
    ParsedAll(raws, iso);
  }

  lemma UnwrapMultiset(a: seq<Entry>, b: seq<Entry>)
    requires multiset(Wrapped(a)) == multiset(Wrapped(b))
    ensures multiset(a) == multiset(b)
  {
    var get := (o: Option<Entry>) => o.GetOr(Entry(AlertId("", "", "", 0), "", 0));
    ImageOfPermutation(Wrapped(a), Wrapped(b), get);
    assert Map(get, Wrapped(a)) == a && Map(get, Wrapped(b)) == b;
  }

  lemma SameMembers<T>(a: seq<T>, b: seq<T>)
    requires multiset(a) == multiset(b)
    ensures |a| == |b| && forall x :: x in a <==> x in b
  {
    assert |a| == |multiset(a)| == |multiset(b)| == |b|;
    forall x ensures x in a <==> x in b { assert x in multiset(a) <==> x in multiset(b); }
  }

  /** The webhook itself: whatever the order of the alerts in the payload, it is accepted or refused alike, and the
      notification has the same key and the same priority. */
  lemma NotifyOrderIndependent(raws: seq<RawAlert>, p: seq<RawAlert>, iso: string -> Option<int>, now: int)
    requires multiset(p) == multiset(raws)
    ensures Notify(p, iso, now).Some? <==> Notify(raws, iso, now).Some?
    ensures Notify(p, iso, now).Some? ==>
      var n, m := Notify(p, iso, now).value, Notify(raws, iso, now).value; n.key == m.key && n.priority == m.priority
  {
    SameMembers(p, raws);
    AcceptedByMembers(p, iso, now);
    AcceptedByMembers(raws, iso, now);
    if Notify(p, iso, now).Some? {
      NotificationOf(p, iso, now);
      NotificationOf(raws, iso, now);
      SameEntries(p, raws, iso, now);
      SameEntriesSameKey(Entries(ParseAll(p, iso).value, now), Entries(ParseAll(raws, iso).value, now));
    }
  }

  lemma NotificationOf(raws: seq<RawAlert>, iso: string -> Option<int>, now: int)
    requires Notify(raws, iso, now).Some?
    ensures ParseAll(raws, iso).Some? && ParseAll(raws, iso).value != []
    ensures var es := Entries(ParseAll(raws, iso).value, now);
      Notify(raws, iso, now).value == Notification(Key(es), Body(es), MaxPriority(es))
  {
  }

  lemma SameEntriesSameKey(es: seq<Entry>, fs: seq<Entry>)
    requires multiset(es) == multiset(fs) && es != [] && fs != []
    ensures Key(es) == Key(fs) && MaxPriority(es) == MaxPriority(fs)
  {
    ImageOfPermutation(es, fs, Rank);
    KeyOrderIndependent(es, fs);
    SameMaximum(es, fs);
  }

  lemma SameEntries(p: seq<RawAlert>, raws: seq<RawAlert>, iso: string -> Option<int>, now: int)
    requires multiset(p) == multiset(raws) && ParseAll(p, iso).Some? && ParseAll(raws, iso).Some?
    ensures multiset(Entries(ParseAll(p, iso).value, now)) == multiset(Entries(ParseAll(raws, iso).value, now))
  {
    var f := (r: RawAlert) => EntryOfRaw(r, iso, now);
    EntriesOfRaws(p, iso, now, f);
    EntriesOfRaws(raws, iso, now, f);
    ImageOfPermutation(p, raws, f);
    UnwrapMultiset(Entries(ParseAll(p, iso).value, now), Entries(ParseAll(raws, iso).value, now));
  }

  lemma AcceptedByMembers(raws: seq<RawAlert>, iso: string -> Option<int>, now: int)
    ensures Notify(raws, iso, now).Some? <==> 1 <= |raws| <= 100 && forall r | r in raws :: Parse(r, iso).Some?
  {
    ParsedAll(raws, iso);
  }

  lemma SameMaximum(es: seq<Entry>, fs: seq<Entry>)
    requires multiset(es) == multiset(fs) && es != [] && fs != []
    ensures MaxPriority(es) == MaxPriority(fs)
  {
    var i := MaxPriorityIs(es);
    var j := MaxPriorityIs(fs);
    assert es[i] in multiset(fs) && fs[j] in multiset(es);
  }

  lemma {:induction false} InsertImage<T(!new), K>(x: T, s: seq<T>, le: (T, T) -> bool, f: T -> K)
    ensures multiset(Map(f, Insert(x, s, le))) == multiset(Map(f, s)) + multiset{f(x)}
  {
    if s == [] || le(x, s[0]) {
      assert Map(f, [x] + s) == [f(x)] + Map(f, s);
    } else {
      InsertImage(x, s[1..], le, f);
      assert Map(f, Insert(x, s, le)) == [f(s[0])] + Map(f, Insert(x, s[1..], le));
      assert Map(f, s) == [f(s[0])] + Map(f, s[1..]);
    }
  }

  lemma {:induction false} SortImage<T(!new), K>(s: seq<T>, le: (T, T) -> bool, f: T -> K)
    ensures multiset(Map(f, Sort(s, le))) == multiset(Map(f, s))
  {
    if s != [] {
      SortImage(s[1..], le, f);
      InsertImage(s[0], Sort(s[1..], le), le, f);
      assert Map(f, s) == [f(s[0])] + Map(f, s[1..]);
    }
  }

  /** The key is exact: equal keys come from the same fingerprints, starts, states and reminder windows, equally
      often. */
  lemma KeyIsExact(es: seq<Entry>, fs: seq<Entry>)
    requires Key(es) == Key(fs)
    ensures multiset(Ids(es)) == multiset(Ids(fs))
  {
    var f := (e: Entry) => e.id;
    SortImage(es, EntryLe, f);
    SortImage(fs, EntryLe, f);
    assert Key(es) == Map(f, Sort(es, EntryLe)) && Key(fs) == Map(f, Sort(fs, EntryLe));
    assert Ids(es) == Map(f, es) && Ids(fs) == Map(f, fs);
  }

  /** An alert keeps its priority: within and across the two groups, one identity means one priority. */
  ghost predicate OnePriorityEach(es: seq<Entry>, fs: seq<Entry>) {
    forall a, b | a in es + fs && b in es + fs && a.id == b.id :: a.priority == b.priority
  }

  /** While no alert changes severity, two groups have the same key exactly when they are the same incidents. */
  lemma SameKeyIffSameIncidents(es: seq<Entry>, fs: seq<Entry>)
    requires OnePriorityEach(es, fs)
    ensures Key(es) == Key(fs) <==> multiset(Ids(es)) == multiset(Ids(fs))
  {
    if Key(es) == Key(fs) {
      KeyIsExact(es, fs);
    }
    if multiset(Ids(es)) == multiset(Ids(fs)) {
      var f := (id: AlertId) => Entry(id, "", PriorityOf(es + fs, id));
      ImageOfPermutation(Ids(es), Ids(fs), f);
      forall e | e in es + fs ensures f(e.id) == Rank(e) { PriorityFound(es + fs, e); }
      assert Map(f, Ids(es)) == Ranks(es) by { assert forall i | 0 <= i < |es| :: es[i] in es + fs; }
      assert Map(f, Ids(fs)) == Ranks(fs) by { assert forall i | 0 <= i < |fs| :: fs[i] in es + fs; }
      KeyOrderIndependent(es, fs);
    }
  }

  function PriorityOf(entries: seq<Entry>, id: AlertId): int {
    if entries == [] then 0 else if entries[0].id == id then entries[0].priority else PriorityOf(entries[1..], id)
  }

  lemma {:induction false} PriorityFound(entries: seq<Entry>, e: Entry)
    requires e in entries && forall a, b | a in entries && b in entries && a.id == b.id :: a.priority == b.priority
    ensures PriorityOf(entries, e.id) == e.priority
  {
    if entries[0].id != e.id {
      PriorityFound(entries[1..], e);
    }
  }

  // ---------- the body and the order of alerts ----------

  /** Entries with one identity and one priority read the same. */
  ghost predicate TwinsReadAlike(entries: seq<Entry>) {
    forall a, b | a in entries && b in entries && a.id == b.id && a.priority == b.priority :: a.text == b.text
  }

  /** The full list of texts is the same for every order of the payload exactly when entries of one identity and
      priority read the same; otherwise such twins stay in payload order. */
  lemma ListOrderIndependentIff(entries: seq<Entry>)
    ensures (forall p: seq<Entry> :: multiset(p) == multiset(entries) ==>
      Texts(Sort(p, EntryLe)) == Texts(Sort(entries, EntryLe)))
      <==> TwinsReadAlike(entries)
  {
    var f := (e: Entry) => e.text;
    EntryLeIsOrder();
    if TwinsReadAlike(entries) {
      forall p: seq<Entry> | multiset(p) == multiset(entries)
        ensures Texts(Sort(p, EntryLe)) == Texts(Sort(entries, EntryLe)) {
        OrderIrrelevantIfTiesAgree(entries, p, EntryLe, f);
        TextsAre(Sort(p, EntryLe), f);
        TextsAre(Sort(entries, EntryLe), f);
      }
    } else {
      assert !TiesAgree(entries, EntryLe, f);
      var p := OrderMattersIfTiesDiffer(entries, EntryLe, f);
      TextsAre(Sort(p, EntryLe), f);
      TextsAre(Sort(entries, EntryLe), f);
    }
  }

  lemma TextsAre(entries: seq<Entry>, f: Entry -> string)
    requires forall e: Entry :: f(e) == e.text
    ensures Texts(entries) == Map(f, entries)
  {
  }

  /** So the body, which shows as much of that list as fits, does not depend on the order of the payload either. */
  lemma BodyOrderIndependent(entries: seq<Entry>, p: seq<Entry>)
    requires multiset(p) == multiset(entries) && TwinsReadAlike(entries)
    ensures Body(p) == Body(entries)
  {
    SameSorted(entries, p);
    SameMembers(p, entries);
  }

  lemma SameSorted(entries: seq<Entry>, p: seq<Entry>)
    requires multiset(p) == multiset(entries) && TwinsReadAlike(entries)
    ensures Sort(p, EntryLe) == Sort(entries, EntryLe)
  {
    var f := (e: Entry) => e;
    EntryLeIsOrder();
    OrderIrrelevantIfTiesAgree(entries, p, EntryLe, f);
    MapOfSame(Sort(p, EntryLe), f);
    MapOfSame(Sort(entries, EntryLe), f);
  }

  lemma {:induction false} MapOfSame<T>(s: seq<T>, f: T -> T)
    requires forall x :: f(x) == x
    ensures Map(f, s) == s
  {
  }

  // ---------- reminders ----------

  /** Windows entered so far, over all alerts. */
  function Level(alerts: seq<Alert>, now: int): nat {
    if alerts == [] then 0 else Bucket(alerts[0], now) + Level(alerts[1..], now)
  }

  function FiringCount(alerts: seq<Alert>): nat {
    if alerts == [] then 0 else (if alerts[0].firing then 1 else 0) + FiringCount(alerts[1..])
  }

  lemma BucketGrows(a: Alert, t: int, u: int)
    requires t <= u
    ensures Bucket(a, t) <= Bucket(a, u) <= Bucket(a, t) + if a.firing then (u - t) / REMINDER + 1 else 0
  {
    var x, y := (t - a.started) / REMINDER, (u - a.started) / REMINDER;
    assert x <= y <= x + (u - t) / REMINDER + 1;
  }

  lemma {:induction false} LevelGrows(alerts: seq<Alert>, t: int, u: int)
    requires t <= u
    ensures Level(alerts, t) <= Level(alerts, u) <= Level(alerts, t) + FiringCount(alerts) * ((u - t) / REMINDER + 1)
    ensures Level(alerts, t) == Level(alerts, u) ==> forall a | a in alerts :: Bucket(a, t) == Bucket(a, u)
  {
    if alerts != [] {
      BucketGrows(alerts[0], t, u);
      LevelGrows(alerts[1..], t, u);
      var d := (u - t) / REMINDER + 1;
      assert FiringCount(alerts) * d == (if alerts[0].firing then d else 0) + FiringCount(alerts[1..]) * d by {
        if alerts[0].firing { assert (1 + FiringCount(alerts[1..])) * d == d + FiringCount(alerts[1..]) * d; }
      }
    }
  }

  function Reminders(ids: seq<AlertId>): nat {
    if ids == [] then 0 else ids[0].reminder + Reminders(ids[1..])
  }

  lemma {:induction false} RemindersConcat(a: seq<AlertId>, b: seq<AlertId>)
    ensures Reminders(a + b) == Reminders(a) + Reminders(b)
  {
    if a == [] {
      assert a + b == b;
    } else {
      assert (a + b)[1..] == a[1..] + b;
      RemindersConcat(a[1..], b);
    }
  }

  lemma RemindersWithoutOne(b: seq<AlertId>, k: nat)
    requires k < |b|
    ensures Reminders(b) == Reminders(Without(b, k)) + b[k].reminder
  {
    assert b == b[..k] + b[k..];
    RemindersConcat(b[..k], b[k + 1..]);
    RemindersConcat(b[..k], b[k..]);
  }

  lemma {:induction false} RemindersOfPermutation(a: seq<AlertId>, b: seq<AlertId>)
    requires multiset(a) == multiset(b)
    ensures Reminders(a) == Reminders(b)
  {
    if a == [] {
      BothEmpty(a, b);
    } else {
      var k := MatchFirst(a, b);
      RemindersWithoutOne(b, k);
      RemindersOfPermutation(a[1..], Without(b, k));
    }
  }

  lemma {:induction false} LevelIsReminders(alerts: seq<Alert>, now: int)
    ensures Level(alerts, now) == Reminders(Ids(Entries(alerts, now)))
  {
    if alerts != [] {
      LevelIsReminders(alerts[1..], now);
      assert Ids(Entries(alerts, now))[1..] == Ids(Entries(alerts[1..], now));
    }
  }

  /** Posting the same alerts again gives the same key exactly when every alert is still in the same window. */
  lemma SameKeyIffSameWindows(alerts: seq<Alert>, t: int, u: int)
    requires t <= u
    ensures Key(Entries(alerts, t)) == Key(Entries(alerts, u)) <==> forall a | a in alerts ::
      Bucket(a, t) == Bucket(a, u)
  {
    var es, fs := Entries(alerts, t), Entries(alerts, u);
    if Key(es) == Key(fs) {
      KeyIsExact(es, fs);
      RemindersOfPermutation(Ids(es), Ids(fs));
      LevelIsReminders(alerts, t);
      LevelIsReminders(alerts, u);
      LevelGrows(alerts, t, u);
    }
    if forall a | a in alerts :: Bucket(a, t) == Bucket(a, u) {
      assert es == fs;
    }
  }

  /** The n-th reminder of the alert falls due after `t` and by `u`. */
  predicate ReminderDue(a: Alert, n: int, t: int, u: int) { a.firing && n >= 1 && t < a.started + 14400 * n <= u }

  lemma WindowChangesIff(a: Alert, t: int, u: int)
    requires t <= u
    ensures Bucket(a, t) != Bucket(a, u) <==> exists n :: ReminderDue(a, n, t, u)
  {
    if n :| ReminderDue(a, n, t, u) {
      assert (t - a.started) / 14400 < n <= (u - a.started) / 14400;
    }
    if Bucket(a, t) != Bucket(a, u) {
      var n := (u - a.started) / 14400;
      assert ReminderDue(a, n, t, u);
    }
  }

  /** Posting the same alerts again later gives the same key exactly when no firing alert has passed a multiple of four
      hours since its own start. */
  lemma RepostKeyIff(alerts: seq<Alert>, t: int, u: int)
    requires t <= u
    ensures Key(Entries(alerts, t)) == Key(Entries(alerts, u))
      <==> forall a, n | a in alerts :: !ReminderDue(a, n, t, u)
  {
    SameKeyIffSameWindows(alerts, t, u);
    forall a | a in alerts ensures Bucket(a, t) == Bucket(a, u) <==> forall n :: !ReminderDue(a, n, t, u) {
      WindowChangesIff(a, t, u);
    }
  }

  /** So a group with a firing alert that has started is announced again after four hours at the latest. */
  lemma RemindedWithinFourHours(alerts: seq<Alert>, a: Alert, t: int, u: int)
    requires a in alerts && a.firing && a.started <= t && t + 14400 <= u
    ensures Key(Entries(alerts, t)) != Key(Entries(alerts, u))
  {
    RepostKeyIff(alerts, t, u);
    var n := (t - a.started) / 14400 + 1;
    assert ReminderDue(a, n, t, u);
  }

  ghost predicate Nondecreasing(times: seq<int>) {
    forall i, j | 0 <= i < j < |times| :: times[i] <= times[j]
  }

  /** The keys of one alert group posted at the given times. */
  function KeysAt(alerts: seq<Alert>, times: seq<int>): set<seq<AlertId>> {
    set t | t in times :: Key(Entries(alerts, t))
  }

  /** Once the key has changed it never comes back. */
  lemma KeyNeverReturns(alerts: seq<Alert>, t: int, u: int, v: int)
    requires t <= u <= v && Key(Entries(alerts, t)) == Key(Entries(alerts, v))
    ensures Key(Entries(alerts, u)) == Key(Entries(alerts, t))
  {
    SameKeyIffSameWindows(alerts, t, v);
    forall a | a in alerts ensures Bucket(a, t) == Bucket(a, u) {
      BucketGrows(a, t, u);
      BucketGrows(a, u, v);
    }
    SameKeyIffSameWindows(alerts, t, u);
  }

  lemma {:induction false} KeysByLevel(alerts: seq<Alert>, times: seq<int>)
    requires times != [] && Nondecreasing(times)
    ensures |KeysAt(alerts, times)| <= 1 + Level(alerts, times[|times| - 1]) - Level(alerts, times[0])
  {
    var n := |times| - 1;
    assert times == times[..n] + [times[n]];
    if n == 0 {
      KeysGrow(alerts, [], times[0]);
      assert KeysAt(alerts, []) == {};
    } else {
      KeysByLevel(alerts, times[..n]);
      OneMoreKey(alerts, times[..n], times[n]);
    }
  }

  lemma OneMoreKey(alerts: seq<Alert>, before: seq<int>, t: int)
    requires before != [] && before[|before| - 1] <= t
    ensures |KeysAt(alerts, before + [t])| <= |KeysAt(alerts, before)|
      + Level(alerts, t) - Level(alerts, before[|before| - 1])
  {
    KeysGrow(alerts, before, t);
    LevelGrows(alerts, before[|before| - 1], t);
    if Level(alerts, before[|before| - 1]) == Level(alerts, t) {
      KeyStays(alerts, before, t);
      assert KeysAt(alerts, before + [t]) == KeysAt(alerts, before);
    }
  }

  lemma KeysGrow(alerts: seq<Alert>, before: seq<int>, t: int)
    ensures KeysAt(alerts, before + [t]) == KeysAt(alerts, before) + {Key(Entries(alerts, t))}
  {
    forall u | u in before + [t] ensures u in before || u == t {}
    forall u | u in before ensures u in before + [t] {}
    assert t in before + [t];
  }

  lemma KeyStays(alerts: seq<Alert>, before: seq<int>, t: int)
    requires before != [] && before[|before| - 1] <= t && Level(alerts, before[|before| - 1]) == Level(alerts, t)
    ensures Key(Entries(alerts, t)) in KeysAt(alerts, before)
  {
    var u := before[|before| - 1];
    LevelGrows(alerts, u, t);
    SameKeyIffSameWindows(alerts, u, t);
    assert u in before;
  }

  /** Re-posting one group over a period of length L with k firing alerts uses at most 1 + k(floor(L / 14400) + 1)
      keys. */
  lemma ReminderBound(alerts: seq<Alert>, times: seq<int>)
    requires times != [] && Nondecreasing(times)
    ensures |KeysAt(alerts, times)| <= 1 + FiringCount(alerts) * ((times[|times| - 1] - times[0]) / REMINDER + 1)
  {
    KeysByLevel(alerts, times);
    LevelGrows(alerts, times[0], times[|times| - 1]);
  }

  // ---------- the body fits ----------

  /** What fits, fits: the taken lines stay within the limit, and the next one would not. */
  lemma {:induction false} FittingFits(entries: seq<Entry>, n: nat, used: nat)
    requires n <= |entries| && used == Width(entries, n) && used <= BODY_LIMIT + 2
    ensures var k := Fitting(entries, n, used);
      && Width(entries, k) <= BODY_LIMIT + 2
      && (k < |entries| ==> Width(entries, k) + |entries[k].text| > BODY_LIMIT)
    decreases |entries| - n
  {
    if n < |entries| && used + |entries[n].text| <= BODY_LIMIT {
      FittingFits(entries, n + 1, used + |entries[n].text| + 2);
    }
  }

  lemma {:induction false} JoinLength(entries: seq<Entry>, n: nat)
    requires 0 < n <= |entries|
    ensures |Join(Texts(entries[..n]))| == Width(entries, n) - 2
  {
    var lines := Texts(entries[..n]);
    assert lines[n - 1] == entries[n - 1].text;
    if n > 1 {
      JoinLength(entries, n - 1);
      assert lines[..n - 1] == Texts(entries[..n - 1]);
    } else {
      assert Width(entries, 0) == 0;
    }
  }

  lemma {:induction false} MaxPriorityIs(entries: seq<Entry>) returns (k: nat)
    requires entries != []
    ensures k < |entries| && MaxPriority(entries) == entries[k].priority
    ensures forall i | 0 <= i < |entries| :: entries[i].priority <= MaxPriority(entries)
  {
    k := 0;
    if |entries| > 1 {
      var j := MaxPriorityIs(entries[1..]);
      assert forall i | 0 < i < |entries| :: entries[i] == entries[1..][i - 1];
      if entries[0].priority < MaxPriority(entries[1..]) {
        k := j + 1;
      }
    }
  }

  /** Entries as the handler builds them: a non-empty text of at most 1800 characters and a priority from 1 to 4. */
  predicate WellFormed(entries: seq<Entry>) {
    forall e | e in entries :: 1 <= |e.text| <= ENTRY_LIMIT && 1 <= e.priority <= 4
  }

  lemma EntriesWellFormed(alerts: seq<Alert>, now: int)
    ensures WellFormed(Entries(alerts, now))
  {
    forall e | e in Entries(alerts, now) ensures 1 <= |e.text| <= ENTRY_LIMIT && 1 <= e.priority <= 4 {
      var i :| 0 <= i < |alerts| && e == EntryOf(alerts[i], now);
    }
  }

  lemma TwoFit(sorted: seq<Entry>)
    requires WellFormed(sorted)
    ensures Fitting(sorted, 0, 0) >= Min(2, |sorted|)
  {
    if |sorted| > 0 { assert sorted[0] in sorted; }
    if |sorted| > 1 { assert sorted[1] in sorted; }
  }

  /** For 1 to 100 valid alerts the body and priority satisfy the message schema with room to spare, at least two alerts
      (or all) are shown, as many as fit are shown, no omitted alert outranks a shown one, and the first shown alert has
      the message's priority, which is the group's highest. */
  lemma BodyFits(alerts: seq<Alert>, now: int)
    requires 1 <= |alerts| <= 100
    ensures var entries := Entries(alerts, now);
      var sorted, shown := Sort(entries, EntryLe), Shown(entries);
      && 1 <= |Body(entries)| <= 3836
      && Min(2, |entries|) <= shown <= |entries|
      && (shown < |entries| ==> Width(sorted, shown) + |sorted[shown].text| > 3800)
      && (forall i, j | 0 <= i < shown <= j < |entries| :: sorted[j].priority <= sorted[i].priority)
      && MaxPriority(entries) == sorted[0].priority && 1 <= MaxPriority(entries) <= 4
      && multiset(sorted) == multiset(entries)
  {
    var entries := Entries(alerts, now);
    EntryLeIsOrder();
    SortSorts(entries, EntryLe);
    var sorted, shown := Sort(entries, EntryLe), Shown(entries);
    EntriesWellFormed(alerts, now);
    forall e | e in sorted ensures e in entries { assert e in multiset(entries); }
    assert WellFormed(sorted);
    TwoFit(sorted);
    FittingFits(sorted, 0, 0);
    BodyLength(entries, sorted, shown);
    SamePriority(entries, sorted);
  }

  lemma BodyLength(entries: seq<Entry>, sorted: seq<Entry>, shown: nat)
    requires sorted == Sort(entries, EntryLe) && shown == Shown(entries) && 1 <= |entries| <= 100 && WellFormed(sorted)
    requires Min(2, |entries|) <= shown && Width(sorted, shown) <= BODY_LIMIT + 2
    ensures 1 <= |Body(entries)| <= 3836
  {
    JoinLength(sorted, shown);
    assert sorted[shown - 1] in sorted;
    assert Width(sorted, shown) >= 3;
    if shown < |entries| {
      TwoDigits(|entries| - shown);
      assert |" additional alerts; see Grafana."| == 32;
    }
  }

  lemma TwoDigits(n: nat)
    requires n < 100
    ensures 1 <= |Digits(n)| <= 2
  {
  }

  lemma SamePriority(entries: seq<Entry>, sorted: seq<Entry>)
    requires entries != [] && sorted != [] && SortedBy(sorted, EntryLe) && multiset(sorted) == multiset(entries)
      && WellFormed(sorted)
    ensures MaxPriority(entries) == sorted[0].priority && 1 <= MaxPriority(entries) <= 4
  {
    var i := MaxPriorityIs(entries);
    assert entries[i] in multiset(sorted);
    var j :| 0 <= j < |sorted| && sorted[j] == entries[i];
    assert sorted[0] in multiset(entries);
    var k :| 0 <= k < |entries| && entries[k] == sorted[0];
    assert j > 0 ==> EntryLe(sorted[0], sorted[j]);
    assert sorted[0] in sorted;
  }
}
