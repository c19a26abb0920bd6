# DrinkO reminder timer, modelled in Dafny

DrinkO is a desktop utility that reminds its user to drink water. Its one piece
of logic is the timer inside `DrinkReminderView`. `startTimer` turns the
interval field and the Seconds/Minutes toggle into a duration. It schedules the
first reminder one interval from now and replaces the timer job. That job polls
the clock in a loop. When the remaining time to the scheduled reminder is
negative, it shows a notification and moves the schedule forward by one
interval. On every pass it publishes the countdown as "<min> min <sec> sec".
`stopTimer` cancels the job and clears the readouts.

The model has four modules:

- `Durations` (durations.dfy): the interval conversion, `Duration.getSeconds`
  (rounds down), `Duration.toMinutes` and Kotlin's `%` (both round toward zero),
  and the countdown pair built from them. Instants and durations are integer
  nanoseconds, the resolution of `LocalDateTime` and `Duration`.
- `Schedule` (schedule.dfy): one pass of the loop on its two variables (the
  scheduled time and the interval), a run of passes over a sequence of clock
  readings, and the cadence theorems.
- `ReminderState` (reminder_state.dfy): the view's timer fields as a value, with
  the start, stop and pass transitions as functions and lemmas about them.
- `DrinkReminder` (drink_reminder_view.dfy): the class `DrinkReminderView`. Its
  fields are the view's fields, and its methods update them in place. Each method
  is proved to leave the state its `ReminderState` function describes.

The clock reading is a parameter (`now`, or a sequence `nows` for the loop). So
is the outcome of parsing the interval text (`Option<int>`, where `None` means
`toLongOrNull` gave null). `timerJob` is a sequence of every job ever installed,
each flagged live or cancelled, and the last one is the job `timerJob` holds.
With it, "only the current job can be live" becomes a checked invariant
(`ViewState.Valid`). A notification is a counter increment.

One order is fixed for each pass: decide whether to fire and advance, then
publish the labels.

A reminder timer would be expected to reject a zero, negative or unparseable
interval without changing anything, to fire once the deadline is reached, and to
keep the next reminder in the future. The Kotlin code does not do all of that,
and the model follows the code:

- The running flag is set before the text is parsed, so unparseable text leaves
  `timerRunning` true.
- There is no positivity check, so zero and negative numbers start a job
  (`NonPositiveIntervalStarts`).
- A pass fires only on a strictly negative remaining time. A remaining time of
  exactly zero does not fire.
- After a gap of several intervals, the first pass moves the schedule by one
  interval only, and the remaining time it publishes can still be negative
  (`LongGapFiresOnce`). Each later pass then fires again until the schedule is
  ahead of the clock, so a gap of k intervals brings k notifications on k
  back-to-back passes (`CatchUpBurst`). For example, readings 45, 46, 47 and 48
  against a schedule at 10 with interval 10 show four notifications and leave
  the schedule at 50 (`CatchUpBurstExample`). When
  readings are ordered and at most one interval apart, the schedule is never
  behind the last reading, so the remaining time is zero or more
  (`RegularRunKeepsPace`). It is not always strictly in the future: with
  scheduled time 10, interval 10 and readings 5 then 10, the run ends with the
  schedule at 10, exactly at the last reading (`RegularRunCanEndOnTheReading`).
- `stopTimer` does not reset the scheduled time. That time is a local of the
  cancelled job, and the model keeps it but never uses it again.
- The countdown shown exceeds the remaining time by up to one whole second
  (`CountdownOvershoot`). It is not within one polling period of 500 ms.

## Model

| member | source | states |
|---|---|---|
| Durations.IntervalOf | src/main/kotlin/com/jratil/drinko/DrinkReminderView.kt:81-83 | magnitude n gives n seconds under Seconds and 60·n seconds under Minutes; the interval is positive, zero or negative exactly as n is (no positivity check) |
| Durations.WholeSeconds | src/main/kotlin/com/jratil/drinko/DrinkReminderView.kt:110 | `getSeconds` is the whole seconds rounded down: s seconds ≤ d < s + 1 seconds |
| Durations.WholeMinutes | src/main/kotlin/com/jratil/drinko/DrinkReminderView.kt:108-109 | `toMinutes` divides whole seconds by 60 rounding toward zero: bounds on m·60 for both signs |
| Durations.MinuteRemainder | src/main/kotlin/com/jratil/drinko/DrinkReminderView.kt:110 | Kotlin `% 60` is the remainder of the truncating division, with the dividend's sign, magnitude below 60 |
| Durations.CountdownOf | src/main/kotlin/com/jratil/drinko/DrinkReminderView.kt:108-111 | minutes·60 + (seconds − 1) equals the whole seconds; for d ≥ 0 minutes ≥ 0 and seconds in 1..60; for d < 0 minutes ≤ 0 and seconds in −58..1 (fully determines the pair) |
| Durations.CountdownOvershoot | src/main/kotlin/com/jratil/drinko/DrinkReminderView.kt:108-111 | the readout read back as seconds exceeds the remaining time by more than 0 and at most 1 second |
| Durations.CountdownAtMinuteBoundary | src/main/kotlin/com/jratil/drinko/DrinkReminderView.kt:108-110 | 59 s reads "0 min 60 sec", 60 s reads "1 min 1 sec", half a second overdue reads "0 min 0 sec" |
| Schedule.TickStep | src/main/kotlin/com/jratil/drinko/DrinkReminderView.kt:95-105 | a pass fires iff now is strictly after the scheduled time; firing advances by exactly one interval; the new remaining time is the old one plus the interval against the same now |
| Schedule.Run | src/main/kotlin/com/jratil/drinko/DrinkReminderView.kt:94-117 | over any readings, at most one notification per pass and the schedule moved by exactly fires × interval |
| Schedule.RegularRunKeepsPace | src/main/kotlin/com/jratil/drinko/DrinkReminderView.kt:94-117 | with ordered readings at most one interval apart, the schedule is never behind the last reading, and the last fired boundary lies strictly before it |
| Schedule.RegularRunCanEndOnTheReading | src/main/kotlin/com/jratil/drinko/DrinkReminderView.kt:96-103 | regular readings 5 and 10 against a schedule at 10 with interval 10 fire nothing and leave the schedule exactly at the last reading: remaining time 0, not in the future |
| Schedule.OneFirePerBoundary | src/main/kotlin/com/jratil/drinko/DrinkReminderView.kt:86-103 | with regular readings, n notifications exactly when start + n·interval < last ≤ start + (n+1)·interval |
| Schedule.LongGapFiresOnce | src/main/kotlin/com/jratil/drinko/DrinkReminderView.kt:99-103 | a pass more than one interval late fires once, advances one interval, and publishes a still-negative remaining time |
| Schedule.CatchUpBurst | src/main/kotlin/com/jratil/drinko/DrinkReminderView.kt:94-117 | while the k-th reading is after scheduled + k·interval, every pass fires: n readings give n notifications and the schedule ends at scheduled + n·interval (a gap of k intervals gives k back-to-back notifications) |
| Schedule.CatchUpBurstExample | src/main/kotlin/com/jratil/drinko/DrinkReminderView.kt:94-117 | readings 45, 46, 47, 48 against schedule 10 and interval 10 give 4 notifications and schedule 50 |
| Schedule.ZeroIntervalFiresEveryPass | src/main/kotlin/com/jratil/drinko/DrinkReminderView.kt:99-103 | with a zero interval the schedule never moves and every pass after it fires |
| ReminderState.AtMostOneLiveJob | src/main/kotlin/com/jratil/drinko/DrinkReminderView.kt:92-93 | in a valid state the number of live jobs is 1 if `timerJob` is live and 0 otherwise |
| ReminderState.Cancelled | src/main/kotlin/com/jratil/drinko/DrinkReminderView.kt:92 | `timerJob?.cancel()` cancels the job `timerJob` holds and leaves every other job as it was |
| ReminderState.StartState | src/main/kotlin/com/jratil/drinko/DrinkReminderView.kt:78-93 | running is set; unparseable text changes nothing else; a number gives interval = IntervalOf, scheduled = now + interval, the label shows it, jobs = the old jobs with the held one cancelled plus one new live job, exactly one live job when the old state was valid; validity kept; countdown, lastReminderTime and notifications untouched |
| ReminderState.StopState | src/main/kotlin/com/jratil/drinko/DrinkReminderView.kt:121-127 | not running, jobs = the old jobs with the held one cancelled, both labels "", lastReminderTime null, validity kept with zero live jobs, the loop variables and notifications untouched |
| ReminderState.TickFires | src/main/kotlin/com/jratil/drinko/DrinkReminderView.kt:99 | a pass fires iff the held job is live and the remaining time `scheduled - now` is strictly negative |
| ReminderState.TickState | src/main/kotlin/com/jratil/drinko/DrinkReminderView.kt:95-113 | a cancelled job changes nothing; otherwise one notification iff fired, scheduled advanced by the interval iff fired, labels show the countdown and time of the schedule after the decision; control fields untouched |
| ReminderState.Ticks | src/main/kotlin/com/jratil/drinko/DrinkReminderView.kt:94-117 | successive passes add between 0 and one notification per reading, never touch the running flag, the jobs, the interval or lastReminderTime, and change nothing when the held job is cancelled |
| ReminderState.TicksFollowRun | src/main/kotlin/com/jratil/drinko/DrinkReminderView.kt:94-117 | passes of a live job add exactly the notifications of Schedule.Run and end at its scheduled time |
| ReminderState.StopIdempotent | src/main/kotlin/com/jratil/drinko/DrinkReminderView.kt:121-127 | stopping twice gives the same state as stopping once |
| ReminderState.NothingAfterStop | src/main/kotlin/com/jratil/drinko/DrinkReminderView.kt:121-127 | after a stop, any number of passes fire nothing and change nothing |
| ReminderState.StartThenPoll | src/main/kotlin/com/jratil/drinko/DrinkReminderView.kt:81-117 | start with a number, then regular polling: one notification per interval boundary strictly before the last reading |
| ReminderState.TwoSecondsForFiveSeconds | src/main/kotlin/com/jratil/drinko/DrinkReminderView.kt:81-103 | a 2-second interval polled regularly for 5 seconds shows exactly 2 notifications |
| ReminderState.NonPositiveIntervalStarts | src/main/kotlin/com/jratil/drinko/DrinkReminderView.kt:81-86 | zero or negative numbers start a live job whose schedule is not in the future |
| DrinkReminder.DrinkReminderView.constructor | src/main/kotlin/com/jratil/drinko/DrinkReminderView.kt:20-26 | the view starts not running, labels null, no job, lastReminderTime null, and satisfies the one-live-job invariant |
| DrinkReminder.DrinkReminderView.CancelTimerJob | src/main/kotlin/com/jratil/drinko/DrinkReminderView.kt:92 | cancels the held job and changes no other field |
| DrinkReminder.DrinkReminderView.StartTimer | src/main/kotlin/com/jratil/drinko/DrinkReminderView.kt:78-93 | the fields afterwards are StartState of the fields before |
| DrinkReminder.DrinkReminderView.StopTimer | src/main/kotlin/com/jratil/drinko/DrinkReminderView.kt:121-127 | the fields afterwards are StopState of the fields before |
| DrinkReminder.DrinkReminderView.Tick | src/main/kotlin/com/jratil/drinko/DrinkReminderView.kt:95-113 | `fired` is TickFires and the fields afterwards are TickState of the fields before |
| DrinkReminder.DrinkReminderView.RunTimerJob | src/main/kotlin/com/jratil/drinko/DrinkReminderView.kt:93-117 | the loop over the readings leaves the fields at Ticks of the fields before, and `fires` counts the notifications shown |

## Left out

- Parsing the interval text (`toLongOrNull`, line 81) is a library call. `StartTimer` receives its outcome as `Option<int>`.
- Overflow at start: `Duration.multipliedBy` (line 83) and `LocalDateTime.plus` (line 86) throw on out-of-range values. The model uses unbounded integers, so it has no such exception. In the source, either exception leaves the same state as unparseable text: the running flag is set and nothing else changes.
- ReminderState.TickState: does not model the overflow of `LocalDateTime.plus` at line 100. That call runs inside the nested `runAsync` of a job that is already installed, for example after a start with magnitude -19000000000000000 and Seconds. In the source the exception ends only that nested task. No notification is shown, the schedule does not move, the job stays live, every later pass throws again, and `runLater` keeps showing a negative countdown. The model, with unbounded integers, fires on every such pass and moves the schedule by the interval.
- `LocalDateTime.now()` is the wall clock. It becomes the `now` parameter, or the `nows` sequence for the loop.
- Formatting: the `nextReminderTime` label holds the scheduled instant, not the formatted string. The start uses the pattern "yyyy-MM-dd HH:mm:ss" (line 89) and the loop uses "yyyy-dd-MM HH:mm:ss" (line 112). The remaining-time label holds the two numbers, not the text "<min> min <sec> sec".
- Threading: `runAsync`, `runLater`, `Thread.sleep(500)` and interruption by `Task.cancel` (lines 93-116) are left out. In the source, the fire/advance decision (nested `runAsync`, line 98) races with the display update (`runLater`, line 107). The model fixes the order: decide, then display. The race is not modelled. Cancellation is treated as stopping the loop at once.
- `RunTimerJob` runs the `while (true)` loop over a finite sequence of clock readings. The real loop runs until its job is cancelled.
- The ControlsFX notification (lines 129-136) becomes a counter increment.
- The JavaFX/TornadoFX layout, the toggle binding in `onDock` and the button bindings (lines 30-76) are UI. Line 57 disables Start while the timer runs. The model does not rely on that, so `StartTimer` may be called in any state.
- `lastReminderTime` is only ever set to null (line 123). It is kept as a field and nothing reads it.
