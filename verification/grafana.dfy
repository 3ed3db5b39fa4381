/** The Grafana webhook: validation, one notification per alert group, its deduplication key and its bounded body. */
module Grafana {
  import opened Prelude
  import opened StableSort

  const REMINDER := 14400
  const ENTRY_LIMIT := 1800
  const BODY_LIMIT := 3800

  // ---------- validation ----------

  datatype Annotations = Absent | NotADict | Dict(entries: map<string, string>)

  datatype RawAlert =
    | NotADictAlert
    | Raw(labels: Option<map<string, string>>, annotations: Annotations,
          status: Option<string>, fingerprint: Option<string>, startsAt: Option<string>)

  datatype Alert = Alert(name: string, summary: string, fingerprint: string, startsAt: string, started: int,
                         firing: bool, critical: bool, labels: map<string, string>)

  function Lookup(m: map<string, string>, k: string): Option<string> {
    if k in m then Some(m[k]) else None
  }

  predicate NonEmpty(s: Option<string>) { s.Some? && s.value != "" }

  /** One alert, or nothing when the handler would answer 400. `iso` parses a timestamp with a zone, None otherwise. */
  function Parse(raw: RawAlert, iso: string -> Option<int>): Option<Alert> {
    if raw.NotADictAlert? || raw.labels.None? || raw.annotations.NotADict? then None
    else if raw.status != Some("firing") && raw.status != Some("resolved") then None
    else
      var name := Lookup(raw.labels.value, "alertname");
      var given := if raw.annotations.Dict? then Lookup(raw.annotations.entries, "summary") else None;
      var summary := if given.Some? then given else name;
      if !NonEmpty(name) || !NonEmpty(summary) || !NonEmpty(raw.fingerprint) || !NonEmpty(raw.startsAt) then None
      else
        var started := iso(raw.startsAt.value);
        if started.None? then None
        else Some(Alert(name.value, summary.value, raw.fingerprint.value, raw.startsAt.value, started.value,
                        raw.status == Some("firing"), Lookup(raw.labels.value, "severity") == Some("critical"),
                          raw.labels.value))
  }

  // ---------- one alert ----------

  /** The identity list of an alert; `state` is "firing" or "resolved". */
  datatype AlertId = AlertId(fingerprint: string, startsAt: string, state: string, reminder: nat)

  datatype Entry = Entry(id: AlertId, text: string, priority: int)

  /** Four-hour reminder window since the incident started (floor division); resolved alerts have none. */
  function Bucket(a: Alert, now: int): nat {
    if a.firing then Max(0, (now - a.started) / REMINDER) else 0
  }

  function Priority(a: Alert): int {
    if a.critical then (if a.firing then 4 else 3) else (if a.firing then 3 else 1)
  }

  const MAIN_LABELS := ["app", "checks", "node", "namespace", "persistentvolumeclaim", "job_name", "cronjob", "service"]
  const SPARE_LABELS := ["instance", "pod"]

  function Affected(labels: map<string, string>, names: seq<string>): string {
    if names == [] then ""
    else
      var rest := Affected(labels, names[1..]);
      if NonEmpty(Lookup(labels, names[0])) then
        names[0] + "=" + labels[names[0]] + (if rest == "" then "" else ", " + rest)
      else rest
  }

  function Text(a: Alert): (t: string)
    ensures |t| > 0
  {
    var description := if a.firing then a.summary else "Alert condition cleared.";
    var main := Affected(a.labels, MAIN_LABELS);
    var affected := if main != "" then main else Affected(a.labels, SPARE_LABELS);
    (if a.firing then "[FIRING] " else "[RESOLVED] ") + a.name + ": " + description + (if affected == "" then ""
      else "\n" + affected)
  }

  function Cut(s: string, n: nat): string { if |s| <= n then s else s[..n] }

  function StateName(a: Alert): string { if a.firing then "firing" else "resolved" }

  function EntryOf(a: Alert, now: int): Entry {
    Entry(AlertId(a.fingerprint, a.startsAt, StateName(a), Bucket(a, now)), Cut(Text(a), ENTRY_LIMIT), Priority(a))
  }

  function Entries(alerts: seq<Alert>, now: int): seq<Entry> {
    Map((a: Alert) => EntryOf(a, now), alerts)
  }

  // ---------- the order of a group ----------

  predicate StringLe(s: string, t: string) {
    s == "" || (t != "" && (s[0] < t[0] || (s[0] == t[0] && StringLe(s[1..], t[1..]))))
  }

  /** Identity lists compare element by element: the first difference decides. */
  predicate IdLe(a: AlertId, b: AlertId) {
    if a.fingerprint != b.fingerprint then StringLe(a.fingerprint, b.fingerprint)
    else if a.startsAt != b.startsAt then StringLe(a.startsAt, b.startsAt)
    else if a.state != b.state then StringLe(a.state, b.state)
    else a.reminder <= b.reminder
  }

  /** Higher priority first, then by the whole identity. */
  predicate EntryLe(a: Entry, b: Entry) {
    a.priority > b.priority || (a.priority == b.priority && IdLe(a.id, b.id))
  }

  lemma {:induction false} StringLeTotal(s: string, t: string)
    ensures StringLe(s, t) || StringLe(t, s)
    ensures StringLe(s, t) && StringLe(t, s) ==> s == t
  {
    if s != "" && t != "" {
      StringLeTotal(s[1..], t[1..]);
      if s[0] == t[0] {
        assert s == [s[0]] + s[1..] && t == [t[0]] + t[1..];
      }
    }
  }

  lemma {:induction false} StringLeTransitive(s: string, t: string, u: string)
    requires StringLe(s, t) && StringLe(t, u)
    ensures StringLe(s, u)
  {
    if s != "" && s[0] == t[0] && t[0] == u[0] {
      StringLeTransitive(s[1..], t[1..], u[1..]);
    }
  }

  lemma IdLeTotal(a: AlertId, b: AlertId)
    ensures IdLe(a, b) || IdLe(b, a)
    ensures IdLe(a, b) && IdLe(b, a) ==> a == b
  {
    StringLeTotal(a.fingerprint, b.fingerprint);
    StringLeTotal(a.startsAt, b.startsAt);
    StringLeTotal(a.state, b.state);
  }

  lemma IdLeTransitive(a: AlertId, b: AlertId, d: AlertId)
    requires IdLe(a, b) && IdLe(b, d)
    ensures IdLe(a, d)
  {
    if a.fingerprint != b.fingerprint || b.fingerprint != d.fingerprint {
      Between(a.fingerprint, b.fingerprint, d.fingerprint);
    } else if a.startsAt != b.startsAt || b.startsAt != d.startsAt {
      Between(a.startsAt, b.startsAt, d.startsAt);
    } else if a.state != b.state || b.state != d.state {
      Between(a.state, b.state, d.state);
    }
  }

  lemma Between(s: string, t: string, u: string)
    requires s == t || StringLe(s, t)
    requires t == u || StringLe(t, u)
    ensures (s == u ==> s == t == u) && (s != u ==> StringLe(s, u))
  {
    if s != t && t != u {
      StringLeTransitive(s, t, u);
    }
    StringLeTotal(s, t);
    StringLeTotal(t, u);
  }

  /** The order is total, and only entries with one identity and one priority tie in it. */
  lemma EntryLeIsOrder()
    ensures TotalPreorder(EntryLe)
    ensures forall a: Entry, b: Entry :: Ties(EntryLe, a, b) <==> a.priority == b.priority && a.id == b.id
  {
    forall a: Entry, b: Entry ensures EntryLe(a, b) || EntryLe(b, a) {
      IdLeTotal(a.id, b.id);
    }
    forall a: Entry, b: Entry, d: Entry | EntryLe(a, b) && EntryLe(b, d) ensures EntryLe(a, d) {
      if a.priority == b.priority == d.priority {
        IdLeTransitive(a.id, b.id, d.id);
      }
    }
    forall a: Entry, b: Entry ensures Ties(EntryLe, a, b) <==> a.priority == b.priority && a.id == b.id {
      IdLeTotal(a.id, b.id);
    }
  }

  // ---------- the notification ----------

  function Ids(entries: seq<Entry>): seq<AlertId> { Map((e: Entry) => e.id, entries) }

  /** What is hashed into the idempotency key: the identities of the whole group, in the group's order. */
  function Key(entries: seq<Entry>): seq<AlertId> {
    Ids(Sort(entries, EntryLe))
  }

  /** The first `n` texts, counted with their separators. */
  function Width(entries: seq<Entry>, n: nat): nat
    requires n <= |entries|
  {
    if n == 0 then 0 else Width(entries, n - 1) + |entries[n - 1].text| + 2
  }

  /** How many of the sorted entries fit, given that the first `n` do. */
  function Fitting(entries: seq<Entry>, n: nat, used: nat): (k: nat)
    requires n <= |entries|
    ensures n <= k <= |entries|
    decreases |entries| - n
  {
    if n == |entries| || used + |entries[n].text| > BODY_LIMIT then n
    else Fitting(entries, n + 1, used + |entries[n].text| + 2)
  }

  function Join(lines: seq<string>): string {
    if lines == [] then "" else if |lines| == 1 then lines[0]
      else Join(lines[..|lines| - 1]) + "\n\n" + lines[|lines| - 1]
  }

  function Digits(n: nat): string {
    if n < 10 then [('0' as int + n) as char] else Digits(n / 10) + [('0' as int + n % 10) as char]
  }

  function Shown(entries: seq<Entry>): nat { Fitting(Sort(entries, EntryLe), 0, 0) }

  function Texts(entries: seq<Entry>): seq<string> { Map((e: Entry) => e.text, entries) }

  function Omission(omitted: nat): string {
    if omitted == 0 then "" else "\n\n" + Digits(omitted) + " additional alerts; see Grafana."
  }

  function Body(entries: seq<Entry>): string {
    var sorted := Sort(entries, EntryLe);
    var shown := Shown(entries);
    Join(Texts(sorted[..shown])) + Omission(|entries| - shown)
  }

  function MaxPriority(entries: seq<Entry>): int
    requires entries != []
  {
    if |entries| == 1 then entries[0].priority else Max(entries[0].priority, MaxPriority(entries[1..]))
  }

  datatype Notification = Notification(key: seq<AlertId>, body: string, priority: int)

  /** The alerts of a payload if every one of them is valid. */
  function ParseAll(raws: seq<RawAlert>, iso: string -> Option<int>): Option<seq<Alert>> {
    if raws == [] then Some([])
    else
      var rest := ParseAll(raws[..|raws| - 1], iso);
      var last := Parse(raws[|raws| - 1], iso);
      if rest.None? || last.None? then None else Some(rest.value + [last.value])
  }

  /** None stands for the 400 answer, which queues nothing. */
  function Notify(raws: seq<RawAlert>, iso: string -> Option<int>, now: int): Option<Notification> {
    if !(1 <= |raws| <= 100) then None
    else match ParseAll(raws, iso)
      case None => None
      case Some(alerts) =>
        if alerts == [] then None
        else Some(Notification(Key(Entries(alerts, now)), Body(Entries(alerts, now)),
          MaxPriority(Entries(alerts, now))))
  }

  /** The handler: one pass validates every alert and collects its entry, then the group is sorted, keyed and cut. */
  method Handle(raws: seq<RawAlert>, iso: string -> Option<int>, now: int) returns (r: Option<Notification>)
    ensures r == Notify(raws, iso, now)
  {
    if !(1 <= |raws| <= 100) {
      return None;
    }
    var entries: seq<Entry> := [];
    ghost var alerts: seq<Alert> := [];
    var i := 0;
    while i < |raws|
      invariant 0 <= i <= |raws| && |alerts| == i
      invariant ParseAll(raws[..i], iso) == Some(alerts)
      invariant entries == Entries(alerts, now)
    {
      NextAlert(raws, iso, i, now);
      var a := Parse(raws[i], iso);
      if a.None? {
        RejectedPrefix(raws, iso, i + 1);
        return None;
      }
      entries := entries + [EntryOf(a.value, now)];
      alerts := alerts + [a.value];
      i := i + 1;
    }
    assert raws[..i] == raws;
    var group := Summarize(entries);
    r := Some(group);
  }

  method Summarize(entries: seq<Entry>) returns (r: Notification)
    requires entries != []
    ensures r == Notification(Key(entries), Body(entries), MaxPriority(entries))
  {
    var sorted := Sort(entries, EntryLe);
    var body := Fill(sorted, |entries|);
    var highest := Highest(entries);
    r := Notification(Ids(sorted), body, highest);
  }

  lemma NextAlert(raws: seq<RawAlert>, iso: string -> Option<int>, n: nat, now: int)
    requires n < |raws| && ParseAll(raws[..n], iso).Some?
    ensures Parse(raws[n], iso).None? ==> ParseAll(raws[..n + 1], iso).None?
    ensures Parse(raws[n], iso).Some? ==>
      var alerts, a := ParseAll(raws[..n], iso).value, Parse(raws[n], iso).value;
      && ParseAll(raws[..n + 1], iso) == Some(alerts + [a])
      && Entries(alerts + [a], now) == Entries(alerts, now) + [EntryOf(a, now)]
  {
    assert raws[..n + 1][..n] == raws[..n];
    if Parse(raws[n], iso).Some? {
      MapAppend((a: Alert) => EntryOf(a, now), ParseAll(raws[..n], iso).value, Parse(raws[n], iso).value);
    }
  }

  method Highest(entries: seq<Entry>) returns (p: int)
    requires entries != []
    ensures p == MaxPriority(entries)
  {
    var i := |entries| - 1;
    p := entries[i].priority;
    while i > 0
      invariant 0 <= i < |entries| && p == MaxPriority(entries[i..])
    {
      i := i - 1;
      assert entries[i..][1..] == entries[i + 1..];
      p := Max(entries[i].priority, p);
    }
    assert entries[0..] == entries;
  }

  /** Takes lines while they fit, then says how many were left out. */
  method Fill(sorted: seq<Entry>, total: nat) returns (text: string)
    requires total == |sorted|
    ensures var shown := Fitting(sorted, 0, 0);
      text == Join(Texts(sorted[..shown])) + Omission(total - shown)
  {
    var lines: seq<string> := [];
    var used := 0;
    var n := 0;
    while n < |sorted| && used + |sorted[n].text| <= BODY_LIMIT
      invariant 0 <= n <= |sorted| == total && |lines| == n
      invariant lines == Texts(sorted[..n])
      invariant used == Width(sorted, n)
      invariant Fitting(sorted, 0, 0) == Fitting(sorted, n, used)
    {
      NextLine(sorted, n);
      lines := lines + [sorted[n].text];
      used := used + |sorted[n].text| + 2;
      n := n + 1;
    }
    text := Join(lines) + Omission(total - n);
  }

  lemma NextLine(sorted: seq<Entry>, n: nat)
    requires n < |sorted|
    ensures Texts(sorted[..n]) + [sorted[n].text] == Texts(sorted[..n + 1])
  {
    assert sorted[..n + 1] == sorted[..n] + [sorted[n]];
    MapAppend((e: Entry) => e.text, sorted[..n], sorted[n]);
  }

  lemma {:induction false} MapAppend<T, K>(f: T -> K, s: seq<T>, x: T)
    ensures Map(f, s + [x]) == Map(f, s) + [f(x)]
  {
  }

  lemma {:induction false} RejectedPrefix(raws: seq<RawAlert>, iso: string -> Option<int>, n: nat)
    requires n <= |raws| && ParseAll(raws[..n], iso).None?
    ensures ParseAll(raws, iso).None?
    decreases |raws| - n
  {
    if n < |raws| {
      assert raws[..n + 1][..n] == raws[..n];
      RejectedPrefix(raws, iso, n + 1);
    } else {
      assert raws[..n] == raws;
    }
  }
}
