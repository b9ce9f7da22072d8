/** `DashboardApp`, the controller: it feeds payloads to the `JiraService`,
    keeps the map of known issue statuses for the change detector, owns the
    countdown timer record and its saved copy, and renders the selections the
    page shows. Clock readings are parameters; the page itself is the `view`
    value `render` would draw. */
module Dashboard {
  import opened Wrappers
  import opened Config
  import opened Issues
  import opened Aggregation
  import opened Jira
  import opened ChangeDetector
  import opened Timers
  import opened TimeFormat
  import opened Leaderboard
  import opened StatusGrid

  /** What `render` puts on the page: the hero numbers, the status cards and
      the two leaderboards. */
  datatype View = View(total: nat, done: nat, grid: seq<Card>, developerBoard: seq<Person>, testerBoard: seq<Person>)

  function ViewOf(s: Stats): (v: View)
    ensures v.total == s.total && v.done == s.done
    ensures forall c :: c in v.grid <==> exists e :: e in s.statusBreakdown && !IsHidden(e.status) && c == CardOf(e)
    ensures |v.developerBoard| <= LEADERBOARD_LIMIT && |v.testerBoard| <= LEADERBOARD_LIMIT
  {
    GridCards(s.statusBreakdown);
    View(s.total, s.done, Grid(s.statusBreakdown), Select(s.developers), Select(s.testers))
  }

  /** The hero numbers after a batch count the batch, and the cards show no
      more issues than are open. */
  lemma RenderedCounts(issues: seq<Issue>)
    ensures var v := ViewOf(Aggregate(issues));
      && v.total == |issues| && v.done == CountDone(issues)
      && CardTotal(v.grid) <= v.total - v.done
  {
    AggregateCounts(issues);
    GridWithinOpen(issues);
  }

  /** Each board after a batch holds at most five scoring people, highest
      first; the developer board never shows "Unassigned". */
  lemma RenderedBoards(issues: seq<Issue>)
    ensures var v := ViewOf(Aggregate(issues));
      && |v.developerBoard| <= LEADERBOARD_LIMIT && |v.testerBoard| <= LEADERBOARD_LIMIT
      && SortedDescending(v.developerBoard) && SortedDescending(v.testerBoard)
      && (forall p :: p in v.developerBoard ==> p.points > 0 && p.name != "Unassigned")
      && (forall p :: p in v.testerBoard ==> p.points > 0)
  {
    var s := Aggregate(issues);
    SelectShowsScoringSorted(s.developers);
    SelectShowsScoringSorted(s.testers);
    UnassignedNeverDeveloper(issues);
    forall p | p in Select(s.developers) ensures p.name != "Unassigned" {
      NamesListed(s.developers, p);
    }
  }

  class DashboardApp {
    const jira: JiraService
    /** Issue key to the status last seen for it. */
    var knownIssues: map<string, string>
    /** `this.state.timer` */
    var timer: Timer
    /** The timer record last written to storage under the timer key. */
    var savedTimer: Option<Timer>
    /** `this.state.lastRenderedJson`, with payload equality standing for
        equality of the serialised text. */
    var lastRenderedJson: Option<Payload>
    /** The page as last rendered; nothing before the first render. */
    var view: Option<View>

    predicate Valid()
      reads this
    {
      Timers.Valid(timer)
    }

    /** The constructor and `init`: a fresh service, an empty map, the
        initial timer, then `loadState` from what storage holds. Fetching and
        the two intervals are left to the caller. */
    constructor (cachedData: Option<Payload>, cachedTimer: Option<Timer>)
      ensures fresh(jira) && Valid()
      ensures knownIssues == map[] && lastRenderedJson == None && savedTimer == None
      ensures timer == if cachedTimer.Some? then Restore(cachedTimer.value) else INITIAL
      ensures cachedData.Some? ==>
        && jira.rawData == cachedData
        && jira.Snapshot() == Aggregate(IssuesOf(cachedData.value))
        && view == Some(ViewOf(Aggregate(IssuesOf(cachedData.value))))
      ensures cachedData.None? ==> jira.rawData == None && jira.Snapshot() == EMPTY_STATS && view == None
    {
      jira := new JiraService();
      knownIssues := map[];
      timer := INITIAL;
      savedTimer := None;
      lastRenderedJson := None;
      view := None;
      new;
      LoadState(cachedData, cachedTimer);
    }

    /** `loadState`: cached data is processed and rendered, without the change
        detector and without marking it as rendered; a cached timer is
        restored stopped. */
    method LoadState(cachedData: Option<Payload>, cachedTimer: Option<Timer>)
      modifies this, jira
      ensures cachedData.Some? ==>
        && jira.rawData == cachedData
        && jira.Snapshot() == Aggregate(IssuesOf(cachedData.value))
        && view == Some(ViewOf(jira.Snapshot()))
      ensures cachedData.None? ==> jira.rawData == old(jira.rawData) && jira.Snapshot() == old(jira.Snapshot()) && view == old(view)
      ensures timer == if cachedTimer.Some? then Restore(cachedTimer.value) else old(timer)
      ensures old(Valid()) ==> Valid()
      ensures knownIssues == old(knownIssues) && lastRenderedJson == old(lastRenderedJson) && savedTimer == old(savedTimer)
    {
      if cachedData.Some? {
        var _ := jira.ProcessData(cachedData.value);
        Render();
      }
      if cachedTimer.Some? {
        timer := cachedTimer.value;
        if timer.isRunning {
          timer := timer.(isRunning := false);
        }
      }
    }

    /** `render`: draw the service's current statistics. */
    method Render()
      modifies this
      ensures view == Some(ViewOf(jira.Snapshot()))
      ensures knownIssues == old(knownIssues) && timer == old(timer)
      ensures savedTimer == old(savedTimer) && lastRenderedJson == old(lastRenderedJson)
    {
      view := Some(ViewOf(jira.Snapshot()));
    }

    /** `updateData`: a payload equal to the last one rendered is skipped;
        otherwise it is marked, processed, run through the change detector
        when it has an issue list, and rendered. */
    method UpdateData(json: Payload) returns (processed: bool, victories: seq<Victory>)
      modifies this, jira
      ensures processed <==> old(lastRenderedJson) != Some(json)
      ensures !processed ==>
        && victories == [] && view == old(view) && knownIssues == old(knownIssues)
        && lastRenderedJson == old(lastRenderedJson)
        && jira.rawData == old(jira.rawData) && jira.Snapshot() == old(jira.Snapshot())
      ensures processed ==>
        && lastRenderedJson == Some(json)
        && jira.rawData == Some(json)
        && jira.Snapshot() == Aggregate(IssuesOf(json))
        && view == Some(ViewOf(Aggregate(IssuesOf(json))))
      ensures processed && json.issues.Some? ==>
        Detection(victories, knownIssues) == Detect(old(knownIssues), json.issues.value)
      ensures processed && json.issues.None? ==> victories == [] && knownIssues == old(knownIssues)
      ensures timer == old(timer) && savedTimer == old(savedTimer)
    {
      if lastRenderedJson == Some(json) {
        return false, [];
      }
      lastRenderedJson := Some(json);
      var _ := jira.ProcessData(json);
      victories := [];
      if json.issues.Some? {
        victories := DetectAndNotify(json.issues.value);
      }
      Render();
      processed := true;
    }

    /** `detectAndNotify`: on an empty map only record the batch; otherwise
        record each issue and report it when it has just become done. The
        reports are returned instead of shown. */
    method DetectAndNotify(currentIssues: seq<Issue>) returns (victories: seq<Victory>)
      modifies this
      ensures Detection(victories, knownIssues) == Detect(old(knownIssues), currentIssues)
      ensures timer == old(timer) && savedTimer == old(savedTimer)
      ensures lastRenderedJson == old(lastRenderedJson) && view == old(view)
    {
      victories := [];
      if |knownIssues| == 0 {
        var i := 0;
        while i < |currentIssues|
          invariant 0 <= i <= |currentIssues|
          invariant knownIssues == Observe(old(knownIssues), currentIssues[..i])
          invariant timer == old(timer) && savedTimer == old(savedTimer)
          invariant lastRenderedJson == old(lastRenderedJson) && view == old(view)
        {
          assert currentIssues[..i + 1][..i] == currentIssues[..i];
          assert Observe(old(knownIssues), currentIssues[..i + 1]) ==
            Observe(old(knownIssues), currentIssues[..i])[currentIssues[i].key := currentIssues[i].status];
          knownIssues := knownIssues[currentIssues[i].key := currentIssues[i].status];
          i := i + 1;
        }
        assert currentIssues[..i] == currentIssues;
        return;
      }
      var i := 0;
      while i < |currentIssues|
        invariant 0 <= i <= |currentIssues|
        invariant knownIssues == Observe(old(knownIssues), currentIssues[..i])
        invariant victories == Victories(old(knownIssues), currentIssues[..i])
        invariant timer == old(timer) && savedTimer == old(savedTimer)
        invariant lastRenderedJson == old(lastRenderedJson) && view == old(view)
      {
        var issue := currentIssues[i];
        assert currentIssues[..i + 1][..i] == currentIssues[..i];
        assert Observe(old(knownIssues), currentIssues[..i + 1]) ==
          Observe(old(knownIssues), currentIssues[..i])[issue.key := issue.status];
        assert Victories(old(knownIssues), currentIssues[..i + 1]) ==
          Victories(old(knownIssues), currentIssues[..i]) +
          if Fires(Get(knownIssues, issue.key), issue.status) then [VictoryOf(issue)] else [];
        var oldStatus := Get(knownIssues, issue.key);
        knownIssues := knownIssues[issue.key := issue.status];
        if Fires(oldStatus, issue.status) {
          victories := victories + [VictoryOf(issue)];
        }
        i := i + 1;
      }
      assert currentIssues[..i] == currentIssues;
    }

    /** `updateTimerUI`: refresh the timer and the display; a running timer is
        saved on every refresh. Returns the text shown and whether "Time's Up"
        fired. */
    method UpdateTimerUI(now: int) returns (display: string, timesUp: bool)
      requires Valid()
      modifies this
      ensures var r := Timers.UpdateTimerUI(old(timer), now);
        timer == r.timer && timesUp == r.timesUp && display == FormatTime(r.shown)
      ensures savedTimer == if old(timer).isRunning then Some(timer) else old(savedTimer)
      ensures Valid()
      ensures knownIssues == old(knownIssues) && lastRenderedJson == old(lastRenderedJson) && view == old(view)
    {
      var remaining := 0;
      timesUp := false;
      if timer.isRunning {
        remaining := Max0(TargetValue(timer.targetTime) - now);
        if remaining == 0 {
          timer := timer.(isRunning := false);
          timer := timer.(isFinished := true);
          timesUp := true;
        }
        timer := timer.(remaining := Some(remaining));
        savedTimer := Some(timer);
      } else {
        remaining := RemainingOrFull(timer.remaining);
      }
      assert Timers.UpdateTimerUI(old(timer), now) == Refresh(timer, timesUp, remaining);
      display := FormatTime(remaining);
    }

    /** `toggleTimer`: pause, or start towards `now` plus the remaining time;
        save; then refresh at `uiNow`. The saved copy always ends equal to the
        timer. */
    method ToggleTimer(now: int, uiNow: int) returns (display: string, timesUp: bool)
      requires Valid()
      modifies this
      ensures var r := Toggle(old(timer), now, uiNow);
        timer == r.timer && timesUp == r.timesUp && display == FormatTime(r.shown)
      ensures savedTimer == Some(timer)
      ensures Valid()
      ensures knownIssues == old(knownIssues) && lastRenderedJson == old(lastRenderedJson) && view == old(view)
    {
      if timer.isRunning {
        timer := timer.(isRunning := false);
      } else {
        timer := timer.(isRunning := true);
        var currentRemaining := RemainingOrFull(timer.remaining);
        timer := timer.(targetTime := Some(now + currentRemaining));
      }
      savedTimer := Some(timer);
      display, timesUp := UpdateTimerUI(uiNow);
    }

    /** `resetTimer`: stopped, not finished, full duration, no target; the
        display reads 01:30:00 and the reset record is saved. */
    method ResetTimer() returns (display: string)
      modifies this
      ensures timer == Reset(old(timer)) && savedTimer == Some(timer)
      ensures display == "01:30:00"
      ensures Valid()
      ensures knownIssues == old(knownIssues) && lastRenderedJson == old(lastRenderedJson) && view == old(view)
    {
      timer := timer.(isRunning := false, isFinished := false);
      timer := timer.(remaining := Some(TIMER_DURATION_MS), targetTime := None);
      // The timer is stopped, so the refresh reads no clock.
      var fired;
      display, fired := UpdateTimerUI(0);
      FullDurationDisplay();
      savedTimer := Some(timer);
    }
  }
}
