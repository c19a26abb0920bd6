/** The reminder view's timer: its fields and the operations that change them. */
module DrinkReminder {
  import opened Durations
  import opened ReminderState

  class DrinkReminderView {
    var timerRunning: bool
    var nextReminderTime: Label<int>
    var remainingTime: Label<Countdown>
    /** Every job installed so far, true while not cancelled; `timerJob` is the last. */
    var timerJobs: seq<bool>
    var lastReminderTime: Option<int>
    /** The loop variables the current job captured: `scheduledReminderTime` and
        `intervalDuration`. */
    var scheduledReminderTime: int
    var intervalDuration: int
    var notificationsShown: nat

    /** The fields as a ViewState value. */
    function State(): ViewState
      reads this
    {
      ViewState(timerRunning, nextReminderTime, remainingTime, timerJobs, lastReminderTime,
                scheduledReminderTime, intervalDuration, notificationsShown)
    }

    constructor ()
      ensures State() == Initial
      ensures State().Valid()
    {
      timerRunning := false;
      nextReminderTime := Unset;
      remainingTime := Unset;
      timerJobs := [];
      lastReminderTime := None;
      scheduledReminderTime := 0;
      intervalDuration := 0;
      notificationsShown := 0;
    }

    /** `timerJob?.cancel()` */
    method CancelTimerJob()
      modifies this
      ensures timerJobs == Cancelled(old(timerJobs))
      ensures State() == old(State()).(jobs := timerJobs)
    {
      if timerJobs != [] {
        timerJobs := timerJobs[..|timerJobs| - 1] + [false];
      }
    }

    /** `startTimer`, given the outcome of parsing the interval text, the unit toggle
        and the clock reading. */
    method StartTimer(parsed: Option<int>, unitIsSeconds: bool, now: int)
      modifies this
      ensures State() == StartState(old(State()), parsed, unitIsSeconds, now)
    {
      timerRunning := true;
      if parsed.None? {
        return;
      }
      var interval := IntervalOf(parsed.value, unitIsSeconds);
      var scheduled := now + interval;
      nextReminderTime := Shows(scheduled);
      CancelTimerJob();
      timerJobs := timerJobs + [true];
      scheduledReminderTime, intervalDuration := scheduled, interval;
    }

    /** `stopTimer` */
    method StopTimer()
      modifies this
      ensures State() == StopState(old(State()))
    {
      CancelTimerJob();
      lastReminderTime := None;
      nextReminderTime := Blank;
      remainingTime := Blank;
      timerRunning := false;
    }

    /** One pass of the current job's loop at clock reading `now`; `fired` tells
        whether it showed a notification. */
    method Tick(now: int) returns (fired: bool)
      modifies this
      ensures fired == TickFires(old(State()), now)
      ensures State() == TickState(old(State()), now)
    {
      fired := false;
      if timerJobs == [] || !timerJobs[|timerJobs| - 1] {
        return;
      }
      var remaining := scheduledReminderTime - now;
      if remaining < 0 {
        var advanced := scheduledReminderTime + intervalDuration;
        notificationsShown := notificationsShown + 1;
        fired := true;
        scheduledReminderTime := advanced;
        remaining := scheduledReminderTime - now;
      }
      remainingTime := Shows(CountdownOf(remaining));
      nextReminderTime := Shows(scheduledReminderTime);
    }

    /** The job's `while (true)` loop, one pass per clock reading in `nows`;
        `fires` counts the notifications it showed. */
    method RunTimerJob(nows: seq<int>) returns (fires: nat)
      modifies this
      ensures State() == Ticks(old(State()), nows)
      ensures notificationsShown == old(notificationsShown) + fires
    {
      fires := 0;
      var i := 0;
      while i < |nows|
        invariant 0 <= i <= |nows|
        invariant Ticks(State(), nows[i..]) == Ticks(old(State()), nows)
        invariant notificationsShown == old(notificationsShown) + fires
      {
        assert nows[i..][1..] == nows[i + 1..];
        var fired := Tick(nows[i]);
        if fired {
          fires := fires + 1;
        }
        i := i + 1;
      }
    }
  }
}
