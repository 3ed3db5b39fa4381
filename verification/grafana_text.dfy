/** What the group's message says: each alert's own text, cut at 1800 characters, and the count of those left out. */
module GrafanaText {
  import opened Prelude
  import opened StableSort
  import opened Grafana

  predicate OccursAt(part: string, s: string, i: int) { 0 <= i && i + |part| <= |s| && s[i..i + |part|] == part }

  ghost predicate Within(part: string, s: string) { exists i :: OccursAt(part, s, i) }

  lemma WithinConcat(part: string, a: string, b: string)
    requires Within(part, a) || Within(part, b)
    ensures Within(part, a + b)
  {
    if Within(part, a) {
      var i :| OccursAt(part, a, i);
      assert (a + b)[i..i + |part|] == part;
      assert OccursAt(part, a + b, i);
    } else {
      var i :| OccursAt(part, b, i);
      assert (a + b)[|a| + i..|a| + i + |part|] == part;
      assert OccursAt(part, a + b, |a| + i);
    }
  }

  lemma WithinItself(s: string)
    ensures Within(s, s)
  {
    assert OccursAt(s, s, 0);
  }

  lemma WithinNothing(part: string)
    requires Within(part, "")
    ensures part == ""
  {
    var i :| OccursAt(part, "", i);
  }

  // ---------- one alert ----------

  /** Every non-empty one of the labels is shown as name=value. */
  lemma {:induction false} AffectedShows(labels: map<string, string>, names: seq<string>, k: nat)
    requires k < |names| && names[k] in labels && labels[names[k]] != ""
    ensures Within(names[k] + "=" + labels[names[k]], Affected(labels, names))
  {
    var rest := Affected(labels, names[1..]);
    if k == 0 {
      var shown := names[0] + "=" + labels[names[0]];
      WithinItself(shown);
      WithinConcat(shown, shown, if rest == "" then "" else ", " + rest);
    } else {
      AffectedShows(labels, names[1..], k - 1);
      AffectedTail(labels, names, names[k] + "=" + labels[names[k]]);
    }
  }

  lemma AffectedTail(labels: map<string, string>, names: seq<string>, part: string)
    requires names != [] && part != "" && Within(part, Affected(labels, names[1..]))
    ensures Within(part, Affected(labels, names))
  {
    var rest := Affected(labels, names[1..]);
    if NonEmpty(Lookup(labels, names[0])) {
      if rest == "" { WithinNothing(part); }
      WithinConcat(part, ", ", rest);
      WithinConcat(part, names[0] + "=" + labels[names[0]], ", " + rest);
    }
  }

  /** App and check identifiers, and the other main labels, are in the text when present. */
  lemma IdentifiersIncluded(a: Alert, name: string)
    requires name in ["app", "checks", "node", "namespace", "persistentvolumeclaim", "job_name", "cronjob", "service"]
    requires name in a.labels && a.labels[name] != ""
    ensures Within(name + "=" + a.labels[name], Text(a))
  {
    var k :| 0 <= k < |MAIN_LABELS| && MAIN_LABELS[k] == name;
    var part, main := name + "=" + a.labels[name], Affected(a.labels, MAIN_LABELS);
    AffectedShows(a.labels, MAIN_LABELS, k);
    if main == "" { WithinNothing(part); }
    WithinConcat(part, "\n", main);
    TextEnds(a, main);
    WithinConcat(part, Heading(a), "\n" + main);
  }

  /** State and name first, then the summary, or for a recovery the fixed words, whatever its summary says. */
  function Heading(a: Alert): string {
    if a.firing then "[FIRING] " + a.name + ": " + a.summary else "[RESOLVED] " + a.name + ": Alert condition cleared."
  }

  lemma TextEnds(a: Alert, main: string)
    requires main == Affected(a.labels, MAIN_LABELS)
    ensures Text(a) == Heading(a) + (if main != "" then "\n" + main
      else if Affected(a.labels, ["instance", "pod"]) != "" then "\n" + Affected(a.labels, ["instance", "pod"]) else "")
  {
    assert "[RESOLVED] " + a.name + ": " + "Alert condition cleared." == "[RESOLVED] " + a.name
      + ": Alert condition cleared.";
  }

  /** An alert's text begins with its heading, and a recovery does not repeat the firing summary. */
  lemma TextBegins(a: Alert, summary: string)
    ensures Heading(a) <= Text(a)
    ensures !a.firing ==> Text(a.(summary := summary)) == Text(a)
  {
    TextEnds(a, Affected(a.labels, MAIN_LABELS));
    if !a.firing {
      TextEnds(a.(summary := summary), Affected(a.labels, MAIN_LABELS));
    }
  }

  /** An entry shows the whole text when it has at most 1800 characters, else its first 1800, under the alert's own
      identity. */
  lemma EntryShows(a: Alert, now: int)
    ensures var e := EntryOf(a, now);
      && e.text <= Text(a) && |e.text| == Min(|Text(a)|, 1800)
      && e.id.fingerprint == a.fingerprint && e.id.startsAt == a.startsAt
      && e.id.state == (if a.firing then "firing" else "resolved")
  {
  }

  // ---------- the order ----------

  /** `s` comes before `t` in a dictionary, or is it. */
  ghost predicate InOrder(s: string, t: string) { s <= t || exists k :: DiffersAt(s, t, k) }

  predicate DiffersAt(s: string, t: string, k: int) {
    0 <= k < |s| && k < |t| && s[..k] == t[..k] && s[k] < t[k]
  }

  lemma {:induction false} StringLeInOrder(s: string, t: string)
    requires StringLe(s, t)
    ensures InOrder(s, t)
  {
    if s != "" {
      if s[0] < t[0] {
        assert DiffersAt(s, t, 0);
      } else {
        StringLeInOrder(s[1..], t[1..]);
        assert s == [s[0]] + s[1..] && t == [t[0]] + t[1..];
        if k :| DiffersAt(s[1..], t[1..], k) {
          assert s[..k + 1] == [s[0]] + s[1..][..k] && t[..k + 1] == [t[0]] + t[1..][..k];
          assert DiffersAt(s, t, k + 1);
        }
      }
    }
  }

  /** The group is listed by falling priority; with equal priority by fingerprint, then start, state and window. */
  lemma GroupInOrder(entries: seq<Entry>, i: nat, j: nat)
    requires i < j < |entries|
    ensures |Sort(entries, EntryLe)| == |entries|
    ensures var a, b := Sort(entries, EntryLe)[i], Sort(entries, EntryLe)[j];
      && a.priority >= b.priority
      && (a.priority == b.priority ==> InOrder(a.id.fingerprint, b.id.fingerprint))
      && (a.priority == b.priority && a.id.fingerprint == b.id.fingerprint ==> InOrder(a.id.startsAt, b.id.startsAt))
      && (a.priority == b.priority && a.id.fingerprint == b.id.fingerprint && a.id.startsAt == b.id.startsAt ==>
            InOrder(a.id.state, b.id.state) && (a.id.state == b.id.state ==> a.id.reminder <= b.id.reminder))
  {
    EntryLeIsOrder();
    SortSorts(entries, EntryLe);
    var a, b := Sort(entries, EntryLe)[i].id, Sort(entries, EntryLe)[j].id;
    if StringLe(a.fingerprint, b.fingerprint) { StringLeInOrder(a.fingerprint, b.fingerprint); }
    if StringLe(a.startsAt, b.startsAt) { StringLeInOrder(a.startsAt, b.startsAt); }
    if StringLe(a.state, b.state) { StringLeInOrder(a.state, b.state); }
  }

  // ---------- the group ----------

  /** The shown texts stand one after the other, a blank line between them. */
  lemma {:induction false} JoinFront(lines: seq<string>)
    requires |lines| > 1
    ensures Join(lines) == lines[0] + "\n\n" + Join(lines[1..])
  {
    var n := |lines| - 1;
    if n == 1 {
      assert lines[..1] == [lines[0]] && lines[1..] == [lines[1]];
    } else {
      JoinFront(lines[..n]);
      assert lines[..n][0] == lines[0] && lines[..n][1..] == lines[1..n];
      assert lines[1..][..n - 1] == lines[1..n] && lines[1..][n - 1] == lines[n];
      assert lines[0] + "\n\n" + Join(lines[1..n]) + "\n\n" + lines[n] == lines[0] + "\n\n"
        + (Join(lines[1..n]) + "\n\n" + lines[n]);
    }
  }

  /** The number that a string of digits denotes. */
  function Denotes(s: string): int {
    if s == "" then 0 else 10 * Denotes(s[..|s| - 1]) + (s[|s| - 1] as int - '0' as int)
  }

  lemma {:induction false} DigitsDenote(n: nat)
    ensures Denotes(Digits(n)) == n && |Digits(n)| > 0
    ensures forall i | 0 <= i < |Digits(n)| :: '0' <= Digits(n)[i] <= '9'
  {
    if n >= 10 {
      DigitsDenote(n / 10);
      assert Digits(n)[..|Digits(n)| - 1] == Digits(n / 10);
    } else {
      assert Digits(n)[..0] == "";
    }
  }

  /** The body is the shown texts, and if alerts were left out, exactly then, a note with their number: shown and
      reported together are all. */
  lemma BodySays(entries: seq<Entry>) returns (note: string)
    ensures Body(entries) == Join(Texts(Sort(entries, EntryLe)[..Shown(entries)])) + note
    ensures note == "" <==> Shown(entries) == |entries|
    ensures note != "" ==> exists count: string ::
      note == "\n\n" + count + " additional alerts; see Grafana." && Denotes(count) + Shown(entries) == |entries|
  {
    note := Omission(|entries| - Shown(entries));
    DigitsDenote(|entries| - Shown(entries));
  }
}
