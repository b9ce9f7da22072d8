# BugHaton dashboard engine in Dafny

This project models the logic of the BugHaton bug-bash dashboard (`script.js`)
and proves properties of it. The model covers:

- **The aggregation engine of `JiraService`** (`processData`, `_analyzeIssue`,
  `_updatePerson`). It folds a batch of Jira issues into a statistics record:
  - the number of issues and how many of them are done;
  - a status histogram in first-seen order;
  - two person registries, testers keyed by reporter and developers keyed by
    the resolved developer.

  Points come from the severity table. `JiraService` is a class whose
  `ProcessData` loop fills the statistics fields in place. The loop is proved
  equal to the pure fold `Aggregation.Aggregate`. Independent counting
  definitions and lemmas say what the fold computes.
- **The change detector** (`detectAndNotify`). It keeps a map from issue key to
  the last status seen. The first batch only seeds the map. A later batch
  reports the issues that have just become done. The reports are returned as
  `Victory` values instead of being shown as toasts.
- **The countdown timer.** The record is `isRunning`, `remaining`,
  `targetTime` and `isFinished`. The model covers pause, start, reset, the
  one-second refresh and the restore rule of `loadState`. Each clock reading is
  a parameter.
- **The small pure helpers:**
  - `formatTime`, with JavaScript's `Math.floor`, `%` and `padStart`, together
    with a parser that reads the display back;
  - the leaderboard selection: filter, stable sort by points and take five;
  - the status-grid filter and the "reopen" highlight.
- **The `DashboardApp` controller.** It is a class holding:
  - the known-issues map;
  - the timer record and the copy of it last written to storage;
  - the de-duplication marker of `updateData`;
  - the view that `render` draws: hero numbers, status cards and the two
    leaderboards.

Files:
- `common.dfy`: `Wrappers` (Option) and `Config` (the constants).
- `issues.dfy`: the issue payload and the fallback rules.
- `aggregation.dfy`: the fold and the lemmas about it.
- `jira.dfy`: the `JiraService` class.
- `detector.dfy`: the change detector.
- `timer.dfy`: the timer record.
- `timeformat.dfy`: `formatTime`.
- `leaderboard.dfy` and `statusgrid.dfy`: the render selections.
- `dashboard.dfy`: the `DashboardApp` controller.

Three behaviours of the code are easy to misread:
- **Pausing does not recompute the remaining time.** Pausing only clears
  `isRunning` (script.js:436-438), so `remaining` keeps the value the last
  one-second refresh stored. See `Timers.PauseKeepsLastRefresh`.
- **An issue without a status is not representable.** The code reads
  `fields.status.name` without a guard (script.js:90, script.js:471,
  script.js:478), so such an issue makes it throw. The model makes the status a
  required string.
- **Starting with a stored 0 fires "Time's Up" again at once.** The default
  applies only to null or undefined (script.js:444-446), so a stored 0 is kept.
  `isFinished` is not cleared on start either. See
  `Timers.RestartAtZeroFiresAgain`.

## Model

| member | source | states |
|---|---|---|
| Config.Lookup | script.js:135 | a label listed in the severity table gets a listed value for it; any other label gets the default 10 |
| Config.PointsFor | script.js:135 | a done issue scores its severity's points, 10 for a label outside the table; every award is between 1 and 25 |
| Issues.EffectivePriority | script.js:91 | the scoring label is the custom severity value, else the priority name, else "Medium"; an empty label falls through; never empty |
| Issues.IssuesOf | script.js:73 | the batch is the payload's issue list, or empty when there is none |
| Issues.ReporterName | script.js:108 | the tester is the reporter's display name, else "Unknown" |
| Issues.DeveloperName | script.js:113-115 | the developer is the custom developer field's name, else the assignee's, else "Unassigned" |
| Issues.DeveloperAvatar | script.js:118-119 | the developer's avatar is the custom developer field's when it has one, else the assignee's |
| Issues.CreditOf | script.js:107-121 | every issue credits a tester; it credits a developer exactly when the developer name is not "Unassigned", with the custom field's avatar first |
| Aggregation.BumpStatus | script.js:94-97 | counting a status adds one to that status only, adds one to the sum, and appends the status when it is new |
| Aggregation.Find | script.js:125 | a lookup finds an entry with that name in the registry, and finds nothing exactly when the name is absent |
| Aggregation.Award | script.js:134-136 | a done issue scores its severity's table points, any other issue 0; at most 25, and positive exactly when done |
| Aggregation.AddBug | script.js:124-133 | counting a bug appends the name when it is new, keeps names otherwise, and adds one bug in total |
| Aggregation.UpdatePerson | script.js:124-137 | an update appends the name when it is new, keeps names otherwise, and adds one bug in total |
| Aggregation.FindAfterUpdate | script.js:124-137 | after an update the name holds its old entry (or a new one with the given avatar) with one more bug and the award added; every other name is unchanged |
| Aggregation.Analyze | script.js:88-122 | one issue keeps the total, adds one to done exactly when its status is done, adds one to the histogram and one tester bug, and one developer bug exactly when the developer is not "Unassigned" |
| Aggregation.Aggregate | script.js:71-86 | the snapshot's total is the number of issues loaded |
| Aggregation.Accumulate | script.js:77-83 | the fold keeps the total it was reset with |
| Aggregation.FirstSeenDistinct | script.js:94-96 | the first-seen status list has no repeats |
| Aggregation.BreakdownCounts | script.js:93-97 | the histogram lists each status once in first-seen order, counts each status's issues, and sums to the batch size |
| Aggregation.DoneCounts | script.js:99-102 | `done` counts exactly the issues whose status is a done status |
| Aggregation.AggregateCounts | script.js:71-102 | total is the batch size, the histogram sums to total, done counts the done issues, and done is at most total |
| Aggregation.RegistryEntries | script.js:104-137 | a registry has an entry for a name exactly when some issue is credited to it; the entry holds the number of credited issues, the points of the done ones, and the avatar of the first |
| Aggregation.CreditPointsBound | script.js:132-136 | a person's points are at most 25 per credited issue |
| Aggregation.AddBugBounded | script.js:124-137 | an update adding at most 25 points keeps every entry at no more than 25 points per bug |
| Aggregation.RegistriesBounded | script.js:124-137 | in both registries every entry has at most 25 points per bug |
| Aggregation.RegistryNamesDistinct | script.js:125-127 | registry names are distinct: one entry per person |
| Aggregation.NoUnassignedCredit | script.js:117 | no issue is credited to a developer named "Unassigned" |
| Aggregation.UnassignedNeverDeveloper | script.js:113-121 | "Unassigned" never becomes a developer entry |
| Aggregation.TesterBugsTotal | script.js:107-110 | every issue is credited to exactly one tester, so the testers' bugs add up to the batch size |
| Jira.JiraService.constructor | script.js:60-69 | a new service has no payload and zero statistics |
| Jira.JiraService.ProcessData | script.js:71-86 | the service keeps the payload and its statistics become, and are returned as, the fold of the batch (no issue list reads as empty) |
| Jira.JiraService.AnalyzeIssue | script.js:88-122 | one issue moves the statistics one step of the fold |
| ChangeDetector.Fires | script.js:482-485 | an issue with no recorded status never fires, and a firing issue's status has changed |
| ChangeDetector.VictoryOf | script.js:487-490 | the toast copies key and summary, and shows the assignee's and the QA owner's display names, "Unknown" for a missing one |
| ChangeDetector.Observe | script.js:476-480 | recording keeps every known key, and the batch's last issue maps to its status |
| ChangeDetector.Victories | script.js:476-491 | at most one report per issue of the batch |
| ChangeDetector.Detect | script.js:467-497 | an empty map reports nothing; at most one report per issue; no known key is dropped |
| ChangeDetector.ObserveKeys | script.js:471-480 | recording a batch never removes a key, adds every batch key, and leaves other keys as they were |
| ChangeDetector.ObserveLastStatus | script.js:471-480 | after a call, each batch key maps to the status of its last occurrence |
| ChangeDetector.ObserveBatch | script.js:476-480 | with distinct keys, every batch key maps to its batch status |
| ChangeDetector.BaselineIsSilent | script.js:468-474 | on an empty map nothing is reported, exactly the batch keys are recorded, each with the status of its last occurrence |
| ChangeDetector.VictoriesAgainstOld | script.js:476-496 | with distinct keys, judging each issue against the map as the loop updates it equals judging against the map before the call |
| ChangeDetector.TransitionRule | script.js:476-496 | on a non-empty map and a batch without repeated keys, an issue is reported iff its old status is present, non-empty and not done and its new status is done |
| ChangeDetector.ReobserveIsSilent | script.js:467-497 | feeding the same batch without repeated keys twice reports nothing the second time |
| ChangeDetector.OpenThenDone | script.js:467-497 | "A" seen Open and then Done: the first call only seeds, the second reports A and records Done |
| Timers.Toggle | script.js:435-452 | toggling a running timer pauses it with its remaining time and no alarm; toggling a stopped one targets now plus the stored (or full) time, and "Time's Up" fires exactly when that target is already reached at the refresh |
| Timers.Reset | script.js:455-459 | reset leaves the timer stopped, not finished, with no target and the full 90 minutes |
| Timers.Start | script.js:439-449 | start sets running and the target to now plus the stored remaining time, or plus 90 minutes only when none is stored |
| Timers.Pause | script.js:436-438 | pause clears the running flag and changes nothing else |
| Timers.Restore | script.js:283-290 | a restored timer is never running and keeps the stored fields |
| Timers.UpdateTimerUI | script.js:387-419 | while running, remaining becomes max(0, target - now) and "Time's Up" fires exactly when it reaches 0, stopping and finishing the timer; a stopped timer is shown from its stored time or the full duration |
| Timers.ValidPreserved | script.js:387-463 | every control and the refresh keep a running timer's target set |
| Timers.NonNegativePreserved | script.js:391-393 | no control and no refresh stores a negative remaining time |
| Timers.TimesUpAtMostOnce | script.js:391-404 | over any sequence of refreshes "Time's Up" fires at most once, and never for a stopped timer |
| Timers.StartThenPause | script.js:435-452 | starting and pausing with no time elapsed keeps the remaining time |
| Timers.PauseKeepsLastRefresh | script.js:436-438 | pausing stores the last refreshed remaining time, whatever the clock says |
| Timers.RestartAtZeroFiresAgain | script.js:440-447 | starting with 0 remaining fires "Time's Up" on the immediate refresh |
| TimeFormat.PadStart2 | script.js:428-430 | padding yields two characters, or the input's length when longer |
| TimeFormat.FormatTime | script.js:426-432 | the display has at least eight characters, with colons three and six from the end for a non-negative time |
| TimeFormat.JsRem | script.js:428-429 | JavaScript's remainder: Euclidean for non-negative operands, below the divisor in magnitude |
| TimeFormat.ClockOf | script.js:427-429 | for a non-negative time, minutes and seconds are in 0..59 and h·3600 + m·60 + s = floor(ms/1000) |
| TimeFormat.NatToString | script.js:428-429 | a number's decimal text is non-empty digits, one for 0..9 and two for 10..99 |
| TimeFormat.PaddedField | script.js:428-429 | a padded field has at least two digits, exactly two below 100, and denotes the field's value |
| TimeFormat.FormatTimeShape | script.js:426-431 | the display is HH:MM:SS with at least two hour digits and exactly two minute and second digits |
| TimeFormat.FormatTimeRoundTrip | script.js:426-431 | reading the display back gives floor(ms/1000) |
| TimeFormat.FullDurationDisplay | script.js:426-431 | the full 90-minute countdown reads 01:30:00 |
| Leaderboard.Scoring | script.js:349 | the filter keeps exactly the people with points |
| Leaderboard.Insert | script.js:350 | insertion adds exactly one person |
| Leaderboard.SortByPoints | script.js:350 | the sort is a permutation |
| Leaderboard.Take | script.js:351 | the slice is the prefix of length min(length, n) |
| Leaderboard.Select | script.js:348-351 | a board shows min(5, number of scoring people) people |
| Leaderboard.SortIsSorted | script.js:350 | the sort orders by points, highest first |
| Leaderboard.SortIsStable | script.js:350 | people with equal points keep their registry order |
| Leaderboard.SelectShowsScoringSorted | script.js:348-351 | everyone shown is from the registry with positive points, highest first |
| Leaderboard.SelectIsTop | script.js:348-351 | a scoring person left out has no more points than anyone shown |
| Leaderboard.ScoringKeepsOrder | script.js:349 | for any positive score, the filter keeps the registry's people with that score, in registry order |
| Leaderboard.SelectKeepsTieOrder | script.js:349-351 | for any positive score, those shown with it are the first ones in the registry with it, in registry order |
| Leaderboard.ZeroPointsHidden | script.js:349 | with X at 0 and Y at 10 points, only Y is shown |
| StatusGrid.HiddenIgnoresCase | script.js:328 | a status is hidden exactly when, lower-cased letter by letter, it equals one of the hidden names |
| StatusGrid.CardOf | script.js:334-336 | a card copies status and count, and is highlighted only when the count is positive |
| StatusGrid.Grid | script.js:326-343 | at most one card per histogram entry |
| StatusGrid.Lower | script.js:328 | lower-casing maps A-Z to a-z and leaves other characters alone |
| StatusGrid.LowerString | script.js:328 | lower-casing a string lower-cases each character and keeps the length |
| StatusGrid.DoneIsHidden | script.js:328 | every done status is hidden from the grid |
| StatusGrid.LowercaseDoneIsUncounted | script.js:328 | "done" in lower case is hidden from the grid but not counted as done |
| StatusGrid.ContainsOccurs | script.js:334 | `includes` holds exactly when the substring occurs at some position of the string |
| StatusGrid.GridCards | script.js:326-343 | the cards are exactly the histogram entries with a visible status |
| StatusGrid.GridSplit | script.js:326-328 | the visible cards and the hidden entries add up to the histogram's sum |
| StatusGrid.BumpShown | script.js:94-97 | counting an issue adds one to the cards exactly when its status is visible |
| StatusGrid.GridCountsIssues | script.js:326-343 | for a batch, the cards add up to the issues with a visible status, and every count is positive |
| StatusGrid.GridWithinOpen | script.js:326-343 | the cards add up to at most total - done |
| StatusGrid.ReopenHighlight | script.js:334-336 | for a batch, a card is highlighted exactly when its status contains "reopen" |
| StatusGrid.GridConcat | script.js:326-343 | the cards follow breakdown order: the cards of a breakdown split in two are those of the first part followed by those of the second |
| StatusGrid.ToDoCard | script.js:328-336 | "To Do" with 2 issues is shown as an ordinary card |
| StatusGrid.ReopenedCard | script.js:328-336 | "Reopened" with 1 issue is shown as a highlighted card |
| Dashboard.ViewOf | script.js:294-320 | the view copies total and done, shows a card exactly for each histogram entry with a visible status, and at most five people per board |
| Dashboard.RenderedCounts | script.js:295-316 | the hero numbers count the batch and its done issues; the cards show no more than the open issues |
| Dashboard.RenderedBoards | script.js:319-320 | each board shows at most five scoring people, highest first, and the developer board never shows "Unassigned" |
| Dashboard.DashboardApp.constructor | script.js:144-187 | a new controller has an empty map and no marker; the service holds the fold of cached data and renders it, or zero statistics and no view without it; a cached timer is restored stopped |
| Dashboard.DashboardApp.LoadState | script.js:273-291 | cached data is processed and rendered without the change detector or the marker; a cached timer is restored stopped |
| Dashboard.DashboardApp.Render | script.js:295-321 | the view becomes the hero numbers, cards and boards of the current statistics |
| Dashboard.DashboardApp.UpdateData | script.js:243-265 | a payload equal to the last rendered one changes nothing, the marker included; any other is marked, processed, detected when it has issues, and rendered |
| Dashboard.DashboardApp.DetectAndNotify | script.js:467-497 | the reports and the new map are those of the detector on the old map |
| Dashboard.DashboardApp.UpdateTimerUI | script.js:387-424 | the timer takes its refreshed value, the display is formatTime of the time shown, a running timer is saved, and a running timer keeps its target |
| Dashboard.DashboardApp.ToggleTimer | script.js:435-452 | the timer is paused or started, then refreshed; the saved copy equals the timer, and a running timer keeps its target |
| Dashboard.DashboardApp.ResetTimer | script.js:455-463 | the timer is reset and saved, and the display reads 01:30:00 |

## Left out

- The DOM is left out. So are the toast and card HTML, the play/pause icon,
  confetti (`Math.random`) and the beep (Web Audio). The model returns the
  victories and the "Time's Up" flag instead.
- The percentage `Math.round(done / total * 100)` is left out, because it is
  floating-point arithmetic.
- `fetchData`, `poll` and the two `setInterval` loops are left out. They are
  network and scheduling. Payloads and clock readings are parameters instead.
- `syncFromStorage` and `renderZeroState` are left out. Nothing in the code
  calls either of them.
- `StorageService` is reduced to what it observably does:
  - a cached payload and a cached timer are constructor parameters;
  - timer saves are the field `savedTimer`.
  
  The code never saves the data, so cached data only comes from outside.
- `JSON.stringify` in the de-duplication guard is modelled as payload
  equality. Payload fields outside the issue list are not modelled. Neither
  are differences in key order or in fields this model drops, which would make
  the serialised texts differ.
- JavaScript objects keyed by status and by person name are modelled as
  sequences in insertion order. Two kinds of key are not modelled:
  - integer-like keys, which JavaScript enumerates first;
  - inherited names such as "constructor", which `!store[name]` would see as
    present.

  The severity table has the same gap. `CONFIG.POINTS_BY_SEVERITY[priority]`
  (script.js:135) finds an inherited name such as "constructor" or "toString"
  and adds a function to `points`. `Config.Lookup` gives such labels the
  default 10.
- An issue whose `fields` or `fields.status` is missing makes the code throw.
  The model does not represent such issues.
- `StatusGrid.Lower` lower-cases ASCII only, where `toLowerCase` uses full
  Unicode. This is exact for the five words the grid tests ("done",
  "closed", "verified", "resolved", "reopen"). No other character lower-cases
  to an ASCII letter of those words.
- Number-to-text conversion covers integers only. A NaN
  target time (an undefined target on a running timer) is excluded:
  `Timers.ValidPreserved` shows that a running timer always has a target. A
  null target reads as 0, as in JavaScript.
- `server.js` and `Program.cs` are not part of this model. They are HTTP
  proxies that forward requests with credentials.
