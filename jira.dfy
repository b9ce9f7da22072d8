/** `JiraService`: holds the last payload and the statistics object, which
    `processData` resets and then fills in place one issue at a time. */
module Jira {
  import opened Wrappers
  import opened Config
  import opened Issues
  import opened Aggregation

  class JiraService {
    var rawData: Option<Payload>
    var total: nat
    var done: nat
    var statusBreakdown: seq<StatusCount>
    var developers: seq<Person>
    var testers: seq<Person>

    /** The current value of `this.stats`. */
    function Snapshot(): Stats
      reads this
    {
      Stats(total, done, statusBreakdown, developers, testers)
    }

    constructor ()
      ensures rawData == None && Snapshot() == EMPTY_STATS
    {
      rawData := None;
      total, done := 0, 0;
      statusBreakdown, developers, testers := [], [], [];
    }

    /** `processData`: reset the statistics with the batch size as total,
        analyse every issue in order, and return the statistics. */
    method ProcessData(json: Payload) returns (stats: Stats)
      modifies this
      ensures rawData == Some(json)
      ensures stats == Snapshot() == Aggregate(IssuesOf(json))
    {
      rawData := Some(json);
      var issues := IssuesOf(json);
      total := |issues|;
      done := 0;
      statusBreakdown := [];
      developers := [];
      testers := [];
      var i := 0;
      while i < |issues|
        invariant 0 <= i <= |issues|
        invariant rawData == Some(json)
        invariant Snapshot() == Accumulate(|issues|, issues[..i])
      {
        assert issues[..i + 1][..i] == issues[..i];
        AnalyzeIssue(issues[i]);
        i := i + 1;
      }
      assert issues[..i] == issues;
      stats := Snapshot();
    }

    /** `_analyzeIssue`: count the status, the done state, and credit the
        reporter and (unless "Unassigned") the developer. */
    method AnalyzeIssue(issue: Issue)
      modifies this
      ensures rawData == old(rawData)
      ensures Snapshot() == Analyze(old(Snapshot()), issue)
    {
      var status := issue.status;
      var priority := EffectivePriority(issue);
      statusBreakdown := BumpStatus(statusBreakdown, status);
      if IsDone(status) {
        done := done + 1;
      }
      var isDone := IsDone(status);
      var reporterName := ReporterName(issue);
      var reporterAvatar := AvatarOf(issue.reporter);
      testers := UpdatePerson(testers, reporterName, reporterAvatar, priority, isDone);
      assert CreditOf(issue, Tester) == Some(Credit(reporterName, reporterAvatar));
      var devName := DeveloperName(issue);
      if devName != "Unassigned" {
        var devAvatar := DeveloperAvatar(issue);
        developers := UpdatePerson(developers, devName, devAvatar, priority, isDone);
        assert CreditOf(issue, Developer) == Some(Credit(devName, devAvatar));
      } else {
        assert CreditOf(issue, Developer) == None;
      }
    }
  }
}
