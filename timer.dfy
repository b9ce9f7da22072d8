/** The countdown timer record (`this.state.timer`) and what the three
    controls and the one-second UI refresh do to it. The clock (`Date.now()`)
    is a parameter. */
module Timers {
  import opened Wrappers
  import opened Config

  /** `remaining` and `targetTime` are null/undefined until first set. */
  datatype Timer = Timer(isRunning: bool, remaining: Option<int>, targetTime: Option<int>, isFinished: bool)

  /** The record the controller starts with, `{ startTime: null, elapsed: 0,
      isRunning: false }`: no remaining time and no target yet. */
  const INITIAL := Timer(false, None, None, false)

  /** A running timer always has a target instant. */
  predicate Valid(t: Timer) {
    t.isRunning ==> t.targetTime.Some?
  }

  /** No negative remaining time is stored. */
  predicate NonNegative(t: Timer) {
    t.remaining.Some? ==> t.remaining.value >= 0
  }

  /** The stored remaining time, or the full duration when it is null or
      undefined; a stored 0 is kept. */
  function RemainingOrFull(remaining: Option<int>): int {
    if remaining.Some? then remaining.value else TIMER_DURATION_MS
  }

  /** `resetTimer`: stopped, not finished, full duration, no target. */
  function Reset(t: Timer): (r: Timer)
    ensures !r.isRunning && !r.isFinished && r.targetTime.None?
    ensures r.remaining == Some(TIMER_DURATION_MS)
  {
    t.(isRunning := false, isFinished := false, remaining := Some(TIMER_DURATION_MS), targetTime := None)
  }

  /** The start half of `toggleTimer`. */
  function Start(t: Timer, now: int): (r: Timer)
    ensures r.isRunning && r.remaining == t.remaining && r.isFinished == t.isFinished
    ensures t.remaining.Some? ==> r.targetTime == Some(now + t.remaining.value)
    ensures t.remaining.None? ==> r.targetTime == Some(now + TIMER_DURATION_MS)
  {
    t.(isRunning := true, targetTime := Some(now + RemainingOrFull(t.remaining)))
  }

  /** The pause half of `toggleTimer`: only the running flag changes; the
      remaining time is whatever the last refresh stored. */
  function Pause(t: Timer): (r: Timer)
    ensures !r.isRunning
    ensures r.remaining == t.remaining && r.targetTime == t.targetTime && r.isFinished == t.isFinished
  {
    t.(isRunning := false)
  }

  /** `loadState`: a restored timer is never running. */
  function Restore(cached: Timer): (r: Timer)
    ensures !r.isRunning && Valid(r)
    ensures r.remaining == cached.remaining && r.targetTime == cached.targetTime && r.isFinished == cached.isFinished
  {
    if cached.isRunning then cached.(isRunning := false) else cached
  }

  /** The result of one `updateTimerUI`: the new record, whether "Time's Up"
      fired, and the milliseconds shown. */
  datatype Refresh = Refresh(timer: Timer, timesUp: bool, shown: int)

  function Max0(x: int): int {
    if x > 0 then x else 0
  }

  /** `targetTime - now` reads a null target as 0. */
  function TargetValue(target: Option<int>): int {
    if target.Some? then target.value else 0
  }

  /** `updateTimerUI`: while running, recompute the remaining time from the
      target instant and stop, marked finished, when it reaches 0; otherwise
      leave the record alone and show the stored time or the full duration. */
  function UpdateTimerUI(t: Timer, now: int): (r: Refresh)
    ensures !t.isRunning ==> r == Refresh(t, false, RemainingOrFull(t.remaining))
    ensures t.isRunning ==> r.shown >= 0 && r.timer.remaining == Some(r.shown)
    ensures t.isRunning ==> r.shown == if TargetValue(t.targetTime) > now then TargetValue(t.targetTime) - now else 0
    ensures r.timesUp <==> t.isRunning && r.shown == 0
    ensures r.timesUp ==> !r.timer.isRunning && r.timer.isFinished
    ensures t.isRunning && !r.timesUp ==> r.timer.isRunning && r.timer.isFinished == t.isFinished
    ensures r.timer.targetTime == t.targetTime
  {
    if t.isRunning then
      var remaining := Max0(TargetValue(t.targetTime) - now);
      if remaining == 0 then Refresh(t.(isRunning := false, isFinished := true, remaining := Some(0)), true, 0)
      else Refresh(t.(remaining := Some(remaining)), false, remaining)
    else Refresh(t, false, RemainingOrFull(t.remaining))
  }

  /** `toggleTimer`: pause or start, then the immediate refresh at `uiNow`. */
  function Toggle(t: Timer, now: int, uiNow: int): (r: Refresh)
    ensures t.isRunning ==> !r.timer.isRunning && !r.timesUp && r.timer.remaining == t.remaining
    ensures !t.isRunning ==> r.timer.targetTime == Some(now + RemainingOrFull(t.remaining))
    ensures !t.isRunning ==> (r.timesUp <==> now + RemainingOrFull(t.remaining) <= uiNow)
  {
    UpdateTimerUI(if t.isRunning then Pause(t) else Start(t, now), uiNow)
  }

  // ---------------------------------------------------------------------
  // Lemmas

  /** Every control and the refresh keep a running timer's target set. */
  lemma ValidPreserved(t: Timer, now: int, uiNow: int)
    requires Valid(t)
    ensures Valid(UpdateTimerUI(t, now).timer)
    ensures Valid(Toggle(t, now, uiNow).timer)
    ensures Valid(Reset(t))
  {
  }

  /** Every control and the refresh keep the stored remaining time non-negative. */
  lemma NonNegativePreserved(t: Timer, now: int, uiNow: int)
    requires NonNegative(t)
    ensures NonNegative(UpdateTimerUI(t, now).timer)
    ensures NonNegative(Toggle(t, now, uiNow).timer)
    ensures NonNegative(Reset(t))
  {
  }

  /** How many refreshes in a row, at the given instants, fire "Time's Up". */
  function TimesUpCount(t: Timer, nows: seq<int>): nat
    decreases |nows|
  {
    if nows == [] then 0
    else
      var r := UpdateTimerUI(t, nows[0]);
      (if r.timesUp then 1 else 0) + TimesUpCount(r.timer, nows[1..])
  }

  /** Between two presses of the toggle, "Time's Up" fires at most once,
      and never on a stopped timer. */
  lemma {:induction false} TimesUpAtMostOnce(t: Timer, nows: seq<int>)
    ensures TimesUpCount(t, nows) <= 1
    ensures !t.isRunning ==> TimesUpCount(t, nows) == 0
    decreases |nows|
  {
    if nows != [] {
      var r := UpdateTimerUI(t, nows[0]);
      TimesUpAtMostOnce(r.timer, nows[1..]);
    }
  }

  /** Starting and pausing with no time elapsed leaves a positive remaining
      time as it was and the timer stopped. */
  lemma StartThenPause(t: Timer, now: int, later: int)
    requires !t.isRunning && RemainingOrFull(t.remaining) > 0
    ensures var started := Toggle(t, now, now).timer;
      var paused := Toggle(started, later, later).timer;
      && started.isRunning
      && !paused.isRunning
      && paused.remaining == Some(RemainingOrFull(t.remaining))
      && paused.isFinished == t.isFinished
  {
  }

  /** Pausing does not read the clock: the remaining time is the one the last
      refresh stored, whenever the pause happens. */
  lemma PauseKeepsLastRefresh(t: Timer, now: int, uiNow: int)
    requires t.isRunning
    ensures Toggle(t, now, uiNow).timer == t.(isRunning := false)
  {
  }

  /** Starting with 0 remaining (as after "Time's Up") fires again at once. */
  lemma RestartAtZeroFiresAgain(t: Timer, now: int, uiNow: int)
    requires !t.isRunning && t.remaining == Some(0) && uiNow >= now
    ensures Toggle(t, now, uiNow).timesUp
  {
  }
}
