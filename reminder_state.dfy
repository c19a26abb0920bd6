/** The state of the reminder view as a value, and what starting, stopping and one
    pass of the timer job do to it. The class in module DrinkReminder keeps this
    state in fields and is specified by the functions here. */
module ReminderState {
  import opened Durations
  import opened Schedule

  datatype Option<T> = None | Some(value: T)

  /** A text property of the view: never set (null), cleared to "", or showing a value. */
  datatype Label<T> = Unset | Blank | Shows(value: T)

  /** The view's timer fields, plus the two variables of the current job's loop.
      `jobs` lists every timer job ever installed, oldest first, true while it has
      not been cancelled; `timerJob` is its last element. `notifications` counts the
      notifications shown. */
  datatype ViewState = ViewState(
    timerRunning: bool,
    nextReminderTime: Label<int>,
    remainingTime: Label<Countdown>,
    jobs: seq<bool>,
    lastReminderTime: Option<int>,
    scheduled: int,
    interval: int,
    notifications: nat)
  {
    /** `timerJob` holds a job that has not been cancelled. */
    predicate JobLive() {
      |jobs| > 0 && jobs[|jobs| - 1]
    }

    /** Every job except the one `timerJob` holds has been cancelled. */
    predicate Valid() {
      forall i :: 0 <= i < |jobs| - 1 ==> !jobs[i]
    }
  }

  /** The view as constructed: not running, labels never set, no job. */
  const Initial: ViewState := ViewState(false, Unset, Unset, [], None, 0, 0, 0)

  /** The number of jobs that have not been cancelled. */
  function LiveJobs(jobs: seq<bool>): (n: nat)
    ensures n <= |jobs|
    decreases |jobs|
  {
    if jobs == [] then 0 else LiveJobs(jobs[..|jobs| - 1]) + (if jobs[|jobs| - 1] then 1 else 0)
  }

  /** A valid state has at most one live job, and it is the one `timerJob` holds. */
  lemma {:induction false} AtMostOneLiveJob(s: ViewState)
    requires s.Valid()
    ensures LiveJobs(s.jobs) == (if s.JobLive() then 1 else 0)
  {
    if s.jobs != [] {
      NoLiveJobs(s.jobs[..|s.jobs| - 1]);
    }
  }

  lemma {:induction false} NoLiveJobs(jobs: seq<bool>)
    requires forall i :: 0 <= i < |jobs| ==> !jobs[i]
    ensures LiveJobs(jobs) == 0
    decreases |jobs|
  {
    if jobs != [] {
      NoLiveJobs(jobs[..|jobs| - 1]);
    }
  }

  /** `timerJob?.cancel()`: the job `timerJob` holds, if any, is cancelled; no other
      job is touched. */
  function Cancelled(jobs: seq<bool>): (r: seq<bool>)
    ensures |r| == |jobs|
    ensures forall i :: 0 <= i < |jobs| - 1 ==> r[i] == jobs[i]
    ensures jobs != [] ==> !r[|jobs| - 1]
  {
    if jobs == [] then [] else jobs[..|jobs| - 1] + [false]
  }

  /** `startTimer` with the outcome of parsing the interval text, the unit toggle and
      the clock reading. */
  function StartState(s: ViewState, parsed: Option<int>, unitIsSeconds: bool, now: int): (r: ViewState)
    ensures r.timerRunning
    // Unparseable text: the running flag is already set, nothing else changes.
    ensures parsed.None? ==> r == s.(timerRunning := true)
    // Any number is accepted; the previous job is cancelled and one new job installed.
    ensures parsed.Some? ==>
      && r.interval == IntervalOf(parsed.value, unitIsSeconds)
      && r.scheduled == now + r.interval
      && r.nextReminderTime == Shows(r.scheduled)
      && |r.jobs| == |s.jobs| + 1
      && r.jobs == Cancelled(s.jobs) + [true]
      && r.JobLive()
      && (s.Valid() ==> r.Valid() && LiveJobs(r.jobs) == 1)
    ensures s.Valid() ==> r.Valid()
    ensures r.remainingTime == s.remainingTime
    ensures r.lastReminderTime == s.lastReminderTime
    ensures r.notifications == s.notifications
  {
    var running := s.(timerRunning := true);
    match parsed
    case None => running
    case Some(magnitude) =>
      var interval := IntervalOf(magnitude, unitIsSeconds);
      var scheduled := now + interval;
      var r := running.(nextReminderTime := Shows(scheduled),
                        jobs := Cancelled(s.jobs) + [true],
                        scheduled := scheduled,
                        interval := interval);
      assert s.Valid() ==> r.Valid() && LiveJobs(r.jobs) == 1 by {
        if s.Valid() {
          AtMostOneLiveJob(r);
        }
      }
      r
  }

  /** `stopTimer`: cancels the job, clears `lastReminderTime` and both labels and
      lowers the running flag. The loop's variables stay as they were. */
  function StopState(s: ViewState): (r: ViewState)
    ensures !r.timerRunning && !r.JobLive()
    ensures r.nextReminderTime == Blank && r.remainingTime == Blank
    ensures r.lastReminderTime == None
    ensures r.jobs == Cancelled(s.jobs)
    ensures s.Valid() ==> r.Valid() && LiveJobs(r.jobs) == 0
    ensures r.scheduled == s.scheduled && r.interval == s.interval
    ensures r.notifications == s.notifications
  {
    var r := s.(jobs := Cancelled(s.jobs),
                 lastReminderTime := None,
                 nextReminderTime := Blank,
                 remainingTime := Blank,
                 timerRunning := false);
    assert s.Valid() ==> r.Valid() && LiveJobs(r.jobs) == 0 by {
      if s.Valid() {
        AtMostOneLiveJob(r);
      }
    }
    r
  }

  /** Whether a pass of the loop at `now` shows a notification. */
  predicate TickFires(s: ViewState, now: int): (b: bool)
    ensures b <==> s.JobLive() && s.scheduled - now < 0
  {
    s.JobLive() && TickStep(s.scheduled, s.interval, now).fired
  }

  /** One pass of the current job's loop at clock reading `now`: decide whether to
      fire and advance, then publish the countdown and the scheduled time. A
      cancelled job runs no pass. */
  function TickState(s: ViewState, now: int): (r: ViewState)
    ensures !s.JobLive() ==> r == s
    ensures r.notifications == s.notifications + (if TickFires(s, now) then 1 else 0)
    ensures r.scheduled == s.scheduled + (if TickFires(s, now) then s.interval else 0)
    // The published labels always describe the schedule after this pass's decision.
    ensures s.JobLive() ==>
      r.remainingTime == Shows(CountdownOf(r.scheduled - now)) &&
      r.nextReminderTime == Shows(r.scheduled)
    ensures r.timerRunning == s.timerRunning && r.jobs == s.jobs && r.interval == s.interval
    ensures r.lastReminderTime == s.lastReminderTime
  {
    if !s.JobLive() then s
    else
      var t := TickStep(s.scheduled, s.interval, now);
      s.(scheduled := t.scheduled,
         notifications := s.notifications + (if t.fired then 1 else 0),
         remainingTime := Shows(CountdownOf(t.remaining)),
         nextReminderTime := Shows(t.scheduled))
  }

  /** Successive passes of the loop at the clock readings `nows`. */
  function Ticks(s: ViewState, nows: seq<int>): (r: ViewState)
    ensures s.notifications <= r.notifications <= s.notifications + |nows|
    ensures r.timerRunning == s.timerRunning && r.jobs == s.jobs && r.interval == s.interval
    ensures r.lastReminderTime == s.lastReminderTime
    ensures !s.JobLive() ==> r == s
    decreases |nows|
  {
    if nows == [] then s else Ticks(TickState(s, nows[0]), nows[1..])
  }

  /** The view follows the schedule of its live job: its notifications and its
      scheduled time after a run of passes are those of Schedule.Run. */
  lemma {:induction false} TicksFollowRun(s: ViewState, nows: seq<int>)
    requires s.JobLive()
    ensures var r := Ticks(s, nows);
      var o := Run(s.scheduled, s.interval, nows);
      r.notifications == s.notifications + o.fires &&
      r.scheduled == o.scheduled &&
      r.jobs == s.jobs && r.timerRunning == s.timerRunning
    decreases |nows|
  {
    if nows != [] {
      TicksFollowRun(TickState(s, nows[0]), nows[1..]);
    }
  }

  /** Stopping twice is stopping once. */
  lemma StopIdempotent(s: ViewState)
    ensures StopState(StopState(s)) == StopState(s)
  {
    var j := Cancelled(s.jobs);
    assert Cancelled(j) == j;
  }

  /** After `stopTimer` no pass of any job fires or changes anything. */
  lemma {:induction false} NothingAfterStop(s: ViewState, nows: seq<int>)
    ensures Ticks(StopState(s), nows) == StopState(s)
    decreases |nows|
  {
    if nows != [] {
      NothingAfterStop(s, nows[1..]);
    }
  }

  /** Start with a number, then regular polling: the notifications shown are one per
      interval boundary `start + k * interval` (k >= 1) strictly before the last
      clock reading. */
  lemma StartThenPoll(s: ViewState, magnitude: int, unitIsSeconds: bool, start: int, nows: seq<int>)
    requires Regular(start, IntervalOf(magnitude, unitIsSeconds), nows)
    requires nows != []
    ensures var d := IntervalOf(magnitude, unitIsSeconds);
      var n := Ticks(StartState(s, Some(magnitude), unitIsSeconds, start), nows).notifications - s.notifications;
      var last := nows[|nows| - 1];
      n >= 0 && last <= start + (n + 1) * d && (n > 0 ==> start + n * d < last)
  {
    var started := StartState(s, Some(magnitude), unitIsSeconds, start);
    TicksFollowRun(started, nows);
    OneFirePerBoundary(start, started.interval, nows);
  }

  /** An interval of two seconds, polled regularly for five seconds after the start,
      shows exactly two notifications. */
  lemma TwoSecondsForFiveSeconds(s: ViewState, start: int, nows: seq<int>)
    requires Regular(start, IntervalOf(2, true), nows)
    requires nows != [] && nows[|nows| - 1] == start + 5 * NanosPerSecond
    ensures Ticks(StartState(s, Some(2), true, start), nows).notifications == s.notifications + 2
  {
    StartThenPoll(s, 2, true, start, nows);
  }

  /** Zero and negative numbers are accepted: the job starts with a schedule that is
      not in the future. */
  lemma NonPositiveIntervalStarts(s: ViewState, magnitude: int, unitIsSeconds: bool, now: int)
    requires magnitude <= 0
    ensures var r := StartState(s, Some(magnitude), unitIsSeconds, now);
      r.JobLive() && r.scheduled <= now
  {
  }
}
