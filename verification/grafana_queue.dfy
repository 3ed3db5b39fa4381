/** The grouped webhook and the queue together: how many messages re-posting one alert group can create. */
module GrafanaQueue {
  import opened Prelude
  import Messages
  import opened Queue
  import opened QueueInvariant
  import opened QueueSafety
  import Grafana
  import opened GrafanaGroup

  /** The idempotency key of a group; `digest` stands for the hash of the encoded identities. */
  function KeyName(digest: seq<Grafana.AlertId> -> string, key: seq<Grafana.AlertId>): string {
    "grafana-group-" + digest(key)
  }

  ghost function RowsFor(s: State, digest: seq<Grafana.AlertId> -> string, keys: set<seq<Grafana.AlertId>>): set<Id> {
    set id | id in s.cells && s.cells[id].row.service == "grafana"
      && exists key :: key in keys && s.cells[id].row.key == Some(KeyName(digest, key))
  }

  /** There are at most as many rows as keys, because one key is never on two rows. */
  lemma {:induction false} OneRowPerKey(s: State, digest: seq<Grafana.AlertId> -> string,
                                        keys: set<seq<Grafana.AlertId>>)
    requires UniqueKeys(s)
    ensures |RowsFor(s, digest, keys)| <= |keys|
    decreases |keys|
  {
    var rows := RowsFor(s, digest, keys);
    if id :| id in rows {
      var key :| key in keys && s.cells[id].row.key == Some(KeyName(digest, key));
      OneRowPerKey(s, digest, keys - {key});
      var rest := RowsFor(s, digest, keys - {key});
      forall j | j in rows ensures j in rest + {id} {
        var k :| k in keys && s.cells[j].row.key == Some(KeyName(digest, k));
        if k == key {
          assert SameKey(s.cells[j].row, s.cells[id].row.service, s.cells[id].row.key);
        } else {
          assert k in keys - {key};
        }
      }
      Within(rows, rest, id);
    } else {
      NoMembers(rows);
    }
  }

  lemma Within(rows: set<Id>, rest: set<Id>, id: Id)
    requires rows <= rest + {id}
    ensures |rows| <= |rest| + 1
  {
    SmallerSet(rows, rest + {id});
  }

  /** The group's rows created within the last retention period, whether or not they have been deleted since. */
  ghost function RowsMade(c: Messages.Config, s: State, digest: seq<Grafana.AlertId> -> string,
                          keys: set<seq<Grafana.AlertId>>): set<Id> {
    set id | id in s.cells.Keys + s.tombs.Keys && MadeFor(c, s, digest, keys, id)
  }

  ghost predicate MadeFor(c: Messages.Config, s: State, digest: seq<Grafana.AlertId> -> string,
                          keys: set<seq<Grafana.AlertId>>, id: Id)
    requires id in s.cells || id in s.tombs
  {
    var r := if id in s.cells then s.cells[id].row else s.tombs[id].cell.row;
    r.service == "grafana" && r.created >= s.now - c.retention && exists key ::
      key in keys && r.key == Some(KeyName(digest, key))
  }

  /** What retention deleted was older than that. */
  lemma MadeAreThere(c: Messages.Config, s: State, digest: seq<Grafana.AlertId> -> string,
                     keys: set<seq<Grafana.AlertId>>)
    requires TombsInv(c, s)
    ensures RowsMade(c, s, digest, keys) <= RowsFor(s, digest, keys)
  {
    forall id | id in RowsMade(c, s, digest, keys) ensures id in RowsFor(s, digest, keys) {
      assert id !in s.tombs;
    }
  }

  /** In every reachable state of the queue, however often one alert group was posted at the given times, the rows it
      has in the table, and also the rows created for it within the last retention period even if deleted since, number
      at most 1 + k(floor(L / 14400) + 1), where k is the number of firing alerts and L the span. */
  lemma ReminderRowsBounded(c: Messages.Config, s: State, digest: seq<Grafana.AlertId> -> string,
                            alerts: seq<Grafana.Alert>, times: seq<int>)
    requires Reachable(c, s) && times != [] && Nondecreasing(times)
    ensures var bound := 1 + FiringCount(alerts) * ((times[|times| - 1] - times[0]) / Grafana.REMINDER + 1);
      |RowsFor(s, digest, KeysAt(alerts, times))| <= bound && |RowsMade(c, s, digest, KeysAt(alerts, times))| <= bound
  {
    var keys := KeysAt(alerts, times);
    ReachableInv(c, s);
    OneRowPerKey(s, digest, keys);
    ReminderBound(alerts, times);
    MadeAreThere(c, s, digest, keys);
    SmallerSet(RowsMade(c, s, digest, keys), RowsFor(s, digest, keys));
  }
}
