/** The change detector: the map from issue key to last observed status, and
    the "newly resolved" events computed against it. The map itself lives in
    `DashboardApp.knownIssues`; this module gives the value-level meaning of
    one `detectAndNotify` call and the lemmas about it. */
module ChangeDetector {
  import opened Wrappers
  import opened Config
  import opened Issues

  /** What a victory toast shows: the key, the summary, the assignee's name
      and the QA owner's name ("Unknown" when the person is missing). */
  datatype Victory = Victory(key: string, summary: Option<string>, dev: Option<string>, qa: Option<string>)

  /** The result of one call: the events it reports and the new map. */
  datatype Detection = Detection(victories: seq<Victory>, known: map<string, string>)

  /** `knownIssues.get(key)` */
  function Get(known: map<string, string>, key: string): Option<string> {
    if key in known then Some(known[key]) else None
  }

  /** `isDoneNow && !wasDoneBefore && oldStatus`: the old status is present,
      non-empty and not done, and the new status is done. */
  predicate Fires(oldStatus: Option<string>, newStatus: string)
    ensures oldStatus.None? ==> !Fires(oldStatus, newStatus)
    ensures Fires(oldStatus, newStatus) ==> oldStatus.value != newStatus
  {
    && IsDone(newStatus)
    && !(oldStatus.Some? && IsDone(oldStatus.value))
    && Truthy(oldStatus)
  }

  /** `assignee ? assignee.displayName : 'Unknown'` */
  function NameOrUnknown(p: Option<PersonRef>): Option<string> {
    if p.Some? then p.value.displayName else Some("Unknown")
  }

  /** The toast of an issue that has just been resolved. */
  function VictoryOf(issue: Issue): (v: Victory)
    ensures v.key == issue.key && v.summary == issue.summary
    ensures issue.assignee.Some? ==> v.dev == issue.assignee.value.displayName
    ensures issue.assignee.None? ==> v.dev == Some("Unknown")
    ensures issue.qaOwner.Some? ==> v.qa == issue.qaOwner.value.displayName
    ensures issue.qaOwner.None? ==> v.qa == Some("Unknown")
  {
    Victory(issue.key, issue.summary, NameOrUnknown(issue.assignee), NameOrUnknown(issue.qaOwner))
  }

  /** The map after `knownIssues.set(key, status)` for each issue in order. */
  function Observe(known: map<string, string>, issues: seq<Issue>): (m: map<string, string>)
    ensures known.Keys <= m.Keys
    ensures issues != [] ==> Get(m, issues[|issues| - 1].key) == Some(issues[|issues| - 1].status)
  {
    if issues == [] then known
    else
      var last := issues[|issues| - 1];
      Observe(known, issues[..|issues| - 1])[last.key := last.status]
  }

  /** The events of the non-baseline pass: each issue is judged against the
      map as updated by the issues before it in the batch. */
  function Victories(known: map<string, string>, issues: seq<Issue>): (r: seq<Victory>)
    ensures |r| <= |issues|
  {
    if issues == [] then []
    else
      var prev := issues[..|issues| - 1];
      var last := issues[|issues| - 1];
      Victories(known, prev) + if Fires(Get(Observe(known, prev), last.key), last.status) then [VictoryOf(last)] else []
  }

  /** `detectAndNotify`: an empty map is only seeded (the baseline); otherwise
      the batch's events are reported. Either way the batch is recorded. */
  function Detect(known: map<string, string>, issues: seq<Issue>): (r: Detection)
    ensures |known| == 0 ==> r.victories == []
    ensures |r.victories| <= |issues|
    ensures known.Keys <= r.known.Keys
  {
    if |known| == 0 then Detection([], Observe(known, issues))
    else Detection(Victories(known, issues), Observe(known, issues))
  }

  // ---------------------------------------------------------------------
  // Reference definitions

  function Keys(issues: seq<Issue>): seq<string> {
    if issues == [] then [] else Keys(issues[..|issues| - 1]) + [issues[|issues| - 1].key]
  }

  /** Position `i` holds the last occurrence of its key in the batch. */
  predicate LastOccurrence(issues: seq<Issue>, i: int) {
    0 <= i < |issues| && forall j :: i < j < |issues| ==> issues[j].key != issues[i].key
  }

  predicate DistinctKeys(issues: seq<Issue>) {
    forall i, j :: 0 <= i < j < |issues| ==> issues[i].key != issues[j].key
  }

  /** The events judged against the map as it was before the call. */
  function FiringAgainst(known: map<string, string>, issues: seq<Issue>): seq<Victory> {
    if issues == [] then []
    else
      var last := issues[|issues| - 1];
      FiringAgainst(known, issues[..|issues| - 1]) + if Fires(Get(known, last.key), last.status) then [VictoryOf(last)] else []
  }

  // ---------------------------------------------------------------------
  // Lemmas

  lemma {:induction false} KeysOf(issues: seq<Issue>)
    ensures |Keys(issues)| == |issues|
    ensures forall i :: 0 <= i < |issues| ==> Keys(issues)[i] == issues[i].key
  {
    if issues != [] {
      var prev := issues[..|issues| - 1];
      KeysOf(prev);
    }
  }

  /** Recording a batch never removes a key, records every batch key, and
      leaves keys outside the batch as they were. */
  lemma {:induction false} ObserveKeys(known: map<string, string>, issues: seq<Issue>)
    ensures forall k :: k in Observe(known, issues) <==> k in known || k in Keys(issues)
    ensures forall k :: k !in Keys(issues) ==> Get(Observe(known, issues), k) == Get(known, k)
  {
    if issues != [] {
      ObserveKeys(known, issues[..|issues| - 1]);
    }
  }

  /** After the call, each key of the batch maps to the status of its last
      occurrence in the batch. */
  lemma {:induction false} ObserveLastStatus(known: map<string, string>, issues: seq<Issue>, i: nat)
    requires LastOccurrence(issues, i)
    ensures Get(Observe(known, issues), issues[i].key) == Some(issues[i].status)
  {
    var prev := issues[..|issues| - 1];
    if i < |prev| {
      ObserveLastStatus(known, prev, i);
    }
  }

  /** In a batch without repeated keys, every key maps to its batch status. */
  lemma ObserveBatch(known: map<string, string>, issues: seq<Issue>)
    requires DistinctKeys(issues)
    ensures forall i :: 0 <= i < |issues| ==> Get(Observe(known, issues), issues[i].key) == Some(issues[i].status)
  {
    forall i | 0 <= i < |issues|
      ensures Get(Observe(known, issues), issues[i].key) == Some(issues[i].status)
    {
      ObserveLastStatus(known, issues, i);
    }
  }

  /** The baseline: a call on an empty map reports nothing and records every
      issue of the batch. */
  lemma BaselineIsSilent(issues: seq<Issue>)
    ensures Detect(map[], issues).victories == []
    ensures forall k :: k in Detect(map[], issues).known <==> k in Keys(issues)
    ensures forall i :: LastOccurrence(issues, i) ==> Get(Detect(map[], issues).known, issues[i].key) == Some(issues[i].status)
  {
    ObserveKeys(map[], issues);
    forall i | LastOccurrence(issues, i)
      ensures Get(Observe(map[], issues), issues[i].key) == Some(issues[i].status)
    {
      ObserveLastStatus(map[], issues, i);
    }
  }

  lemma {:induction false} ObservePrefixUnseen(known: map<string, string>, issues: seq<Issue>, key: string)
    requires forall i :: 0 <= i < |issues| ==> issues[i].key != key
    ensures Get(Observe(known, issues), key) == Get(known, key)
  {
    if issues != [] {
      ObservePrefixUnseen(known, issues[..|issues| - 1], key);
    }
  }

  /** Without repeated keys, judging against the evolving map is the same as
      judging against the map before the call. */
  lemma {:induction false} VictoriesAgainstOld(known: map<string, string>, issues: seq<Issue>)
    requires DistinctKeys(issues)
    ensures Victories(known, issues) == FiringAgainst(known, issues)
  {
    if issues != [] {
      var prev := issues[..|issues| - 1];
      VictoriesAgainstOld(known, prev);
      ObservePrefixUnseen(known, prev, issues[|issues| - 1].key);
    }
  }

  lemma {:induction false} FiringMembers(known: map<string, string>, issues: seq<Issue>, v: Victory)
    ensures v in FiringAgainst(known, issues) <==>
      exists i :: 0 <= i < |issues| && v == VictoryOf(issues[i]) && Fires(Get(known, issues[i].key), issues[i].status)
  {
    if issues != [] {
      var prev := issues[..|issues| - 1];
      FiringMembers(known, prev, v);
      if v in FiringAgainst(known, issues) && v !in FiringAgainst(known, prev) {
        assert v == VictoryOf(issues[|issues| - 1]);
      }
      if exists i :: 0 <= i < |issues| && v == VictoryOf(issues[i]) && Fires(Get(known, issues[i].key), issues[i].status) {
        var i :| 0 <= i < |issues| && v == VictoryOf(issues[i]) && Fires(Get(known, issues[i].key), issues[i].status);
        if i < |prev| {
          assert prev[i] == issues[i];
        }
      }
    }
  }

  /** The transition rule: on a non-empty map and a batch without repeated
      keys, an issue is reported iff its old status is present, non-empty and
      not done and its new status is done. */
  lemma TransitionRule(known: map<string, string>, issues: seq<Issue>, i: nat)
    requires |known| > 0 && DistinctKeys(issues) && i < |issues|
    ensures VictoryOf(issues[i]) in Detect(known, issues).victories <==> Fires(Get(known, issues[i].key), issues[i].status)
  {
    VictoriesAgainstOld(known, issues);
    FiringMembers(known, issues, VictoryOf(issues[i]));
  }

  lemma {:induction false} NothingFiresAgainstSelf(known: map<string, string>, issues: seq<Issue>)
    requires forall i :: 0 <= i < |issues| ==> Get(known, issues[i].key) == Some(issues[i].status)
    ensures FiringAgainst(known, issues) == []
  {
    if issues != [] {
      NothingFiresAgainstSelf(known, issues[..|issues| - 1]);
    }
  }

  /** Re-observing a batch reports nothing the second time: a status only
      fires on the call that first sees it become done. */
  lemma ReobserveIsSilent(known: map<string, string>, issues: seq<Issue>)
    requires DistinctKeys(issues)
    ensures var first := Detect(known, issues);
      Detect(first.known, issues).victories == []
  {
    var after := Observe(known, issues);
    ObserveBatch(known, issues);
    if |after| > 0 {
      VictoriesAgainstOld(after, issues);
      NothingFiresAgainstSelf(after, issues);
    }
  }

  /** The two-batch scenario: A seen "Open", then "Done". */
  lemma OpenThenDone(a: Issue, b: Issue)
    requires a.key == "A" && a.status == "Open"
    requires b.key == "A" && b.status == "Done"
    ensures Detect(map[], [a]) == Detection([], map["A" := "Open"])
    ensures Detect(map["A" := "Open"], [b]) == Detection([VictoryOf(b)], map["A" := "Done"])
  {
    assert [a][..0] == [];
    assert Observe(map[], [a]) == map["A" := "Open"];
    assert [b][..0] == [];
    assert Observe(map["A" := "Open"], [b]) == map["A" := "Done"];
    assert Get(map["A" := "Open"], "A") == Some("Open");
    assert !IsDone("Open");
    assert Fires(Some("Open"), "Done");
    assert Victories(map["A" := "Open"], [b]) == [VictoryOf(b)];
  }
}
