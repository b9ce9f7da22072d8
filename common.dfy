/** The optional value used for every field of the issue payload that may be
    null or undefined, and for values that are set lazily. */
module Wrappers {

  datatype Option<+T> = None | Some(value: T)
}

/** The dashboard's configuration constants (the `CONFIG` object). */
module Config {

  /** Statuses that count as resolved; matched exactly and case-sensitively. */
  const DONE_STATUSES: seq<string> := ["Done", "Closed", "Verified", "Resolved"]

  /** Points awarded for a resolved issue, by severity label, in the order
      the configuration object lists them. */
  const POINTS_BY_SEVERITY: seq<(string, nat)> :=
    [("Critical", 25), ("Very High", 20), ("High", 15), ("Medium", 10), ("Low", 5)]

  /** Points for a resolved issue whose severity label is not in the table. */
  const DEFAULT_POINTS: nat := 10

  /** The largest value in POINTS_BY_SEVERITY. */
  const MAX_POINTS: nat := 25

  /** How many people a leaderboard shows. */
  const LEADERBOARD_LIMIT: nat := 5

  const TIMER_DURATION_MINUTES: nat := 90

  /** The full countdown, in milliseconds. */
  const TIMER_DURATION_MS: nat := TIMER_DURATION_MINUTES * 60 * 1000

  predicate IsDone(status: string) {
    status in DONE_STATUSES
  }

  predicate Labelled(table: seq<(string, nat)>, key: string) {
    exists i :: 0 <= i < |table| && table[i].0 == key
  }

  /** The points of the first entry for `key`, else DEFAULT_POINTS. */
  function Lookup(table: seq<(string, nat)>, key: string): (p: nat)
    ensures !Labelled(table, key) ==> p == DEFAULT_POINTS
    ensures Labelled(table, key) ==> (key, p) in table
  {
    if table == [] then DEFAULT_POINTS
    else if table[0].0 == key then table[0].1
    else
      assert Labelled(table, key) ==> Labelled(table[1..], key) by {
        if Labelled(table, key) {
          var i :| 0 <= i < |table| && table[i].0 == key;
          assert table[1..][i - 1] == table[i];
        }
      }
      Lookup(table[1..], key)
  }

  /** `POINTS_BY_SEVERITY[priority] || DEFAULT_POINTS`: every table value is
      non-zero, so the fallback applies exactly to labels outside the table. */
  function PointsFor(priority: string): (p: nat)
    ensures !Labelled(POINTS_BY_SEVERITY, priority) ==> p == DEFAULT_POINTS
    ensures Labelled(POINTS_BY_SEVERITY, priority) ==> (priority, p) in POINTS_BY_SEVERITY
    ensures 0 < p <= MAX_POINTS
  {
    Lookup(POINTS_BY_SEVERITY, priority)
  }
}
