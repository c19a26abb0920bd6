/** The polling loop of a timer job, on its own two variables: the scheduled
    reminder time and the interval it captured when the job was started. */
module Schedule {

  /** What one pass of the loop leaves: whether it showed a notification, the
      scheduled time afterwards, and the remaining duration it publishes. */
  datatype Step = Step(fired: bool, scheduled: int, remaining: int)

  /** One pass of the loop at clock reading `now`. The remaining duration is
      `scheduled - now`; only a strictly negative one fires, and a firing pass
      moves the scheduled time forward by exactly one interval and measures the
      remaining duration again against the same `now`. */
  function TickStep(scheduled: int, interval: int, now: int): (t: Step)
    ensures t.fired <==> now > scheduled
    ensures t.fired ==> t.scheduled == scheduled + interval
    ensures !t.fired ==> t.scheduled == scheduled
    ensures t.remaining == (scheduled - now) + (if t.fired then interval else 0)
  {
    var remaining := scheduled - now;
    if remaining < 0 then
      var advanced := scheduled + interval;
      Step(true, advanced, advanced - now)
    else
      Step(false, scheduled, remaining)
  }

  /** What a run of the loop leaves: the notifications shown and the scheduled time. */
  datatype Outcome = Outcome(fires: nat, scheduled: int)

  /** The loop run over successive clock readings `nows`, one pass per reading.
      Each notification moves the schedule by one interval, and nothing else moves it. */
  function Run(scheduled: int, interval: int, nows: seq<int>): (o: Outcome)
    ensures o.fires <= |nows|
    ensures o.scheduled == scheduled + o.fires * interval
    decreases |nows|
  {
    if nows == [] then Outcome(0, scheduled)
    else
      var t := TickStep(scheduled, interval, nows[0]);
      var rest := Run(t.scheduled, interval, nows[1..]);
      var fires := rest.fires + (if t.fired then 1 else 0);
      assert rest.scheduled == scheduled + fires * interval by {
        if t.fired {
          assert fires * interval == rest.fires * interval + interval;
        }
      }
      Outcome(fires, rest.scheduled)
  }

  /** Clock readings taken in order after `prev`, never further apart than one
      interval: the loop keeps polling, nothing suspends it for longer. */
  predicate Regular(prev: int, interval: int, nows: seq<int>)
    decreases |nows|
  {
    nows == [] || (prev <= nows[0] <= prev + interval && Regular(nows[0], interval, nows[1..]))
  }

  /** Under regular polling the schedule keeps pace with the clock: after the last
      reading the scheduled time is not behind it, and if anything fired, the last
      boundary that fired lies strictly before it. */
  lemma {:induction false} RegularRunKeepsPace(scheduled: int, interval: int, prev: int, nows: seq<int>)
    requires prev <= scheduled
    requires Regular(prev, interval, nows)
    requires nows != []
    ensures var o := Run(scheduled, interval, nows);
      nows[|nows| - 1] <= o.scheduled &&
      (o.fires > 0 ==> o.scheduled - interval < nows[|nows| - 1])
    decreases |nows|
  {
    var t := TickStep(scheduled, interval, nows[0]);
    if |nows| > 1 {
      assert nows[0] <= t.scheduled;
      RegularRunKeepsPace(t.scheduled, interval, nows[0], nows[1..]);
      assert nows[1..][|nows[1..]| - 1] == nows[|nows| - 1];
      var rest := Run(t.scheduled, interval, nows[1..]);
      if rest.fires == 0 {
        assert rest.scheduled == t.scheduled;
        RegularReadingsAreOrdered(nows[0], interval, nows[1..]);
      }
    }
  }

  /** Regular readings never go backwards, so the last one is the latest. */
  lemma {:induction false} RegularReadingsAreOrdered(prev: int, interval: int, nows: seq<int>)
    requires Regular(prev, interval, nows)
    requires nows != []
    ensures prev <= nows[|nows| - 1]
    decreases |nows|
  {
    if |nows| > 1 {
      RegularReadingsAreOrdered(nows[0], interval, nows[1..]);
      assert nows[1..][|nows[1..]| - 1] == nows[|nows| - 1];
    }
  }

  /** Keeping pace does not mean staying ahead: readings 5 and 10 after a start at 0
      with interval 10 are regular, nothing fires, and the run ends with the
      schedule exactly at the last reading, a remaining time of zero. */
  lemma RegularRunCanEndOnTheReading()
    ensures Regular(0, 10, [5, 10])
    ensures Run(10, 10, [5, 10]) == Outcome(0, 10)
  {
    assert [5, 10][1..] == [10];
    assert [10][1..] == [];
  }

  /** One notification per interval boundary: a job started at `start` with interval
      `interval` and polled regularly up to the reading `last` shows `n`
      notifications exactly when the boundaries `start + interval`, ...,
      `start + n * interval` lie strictly before `last` and `start + (n + 1) * interval`
      does not. */
  lemma OneFirePerBoundary(start: int, interval: int, nows: seq<int>)
    requires Regular(start, interval, nows)
    requires nows != []
    ensures var n := Run(start + interval, interval, nows).fires;
      var last := nows[|nows| - 1];
      last <= start + (n + 1) * interval && (n > 0 ==> start + n * interval < last)
  {
    RegularRunKeepsPace(start + interval, interval, start, nows);
  }

  /** A pass that comes more than one interval after the scheduled time (the loop was
      suspended) fires only once, advances by one interval only, and the remaining
      duration it publishes is still negative. */
  lemma LongGapFiresOnce(scheduled: int, interval: int, now: int)
    requires 0 <= interval < now - scheduled
    ensures var t := TickStep(scheduled, interval, now);
      t.fired && t.scheduled == scheduled + interval && t.remaining < 0
  {
  }

  /** After a gap the loop catches up in a burst: while each pass still finds the
      schedule behind its reading (the k-th reading after `scheduled + k * interval`),
      every pass fires and moves the schedule by one interval, so a gap of k
      intervals brings k notifications on k back-to-back passes. */
  lemma {:induction false} CatchUpBurst(scheduled: int, interval: int, nows: seq<int>)
    requires forall k :: 0 <= k < |nows| ==> nows[k] > scheduled + k * interval
    ensures Run(scheduled, interval, nows) == Outcome(|nows|, scheduled + |nows| * interval)
    decreases |nows|
  {
    if nows != [] {
      var rest := nows[1..];
      forall k | 0 <= k < |rest|
        ensures rest[k] > (scheduled + interval) + k * interval
      {
        assert rest[k] == nows[k + 1];
        assert (k + 1) * interval == k * interval + interval;
      }
      CatchUpBurst(scheduled + interval, interval, rest);
      assert (|rest| + 1) * interval == |rest| * interval + interval;
    }
  }

  /** Four readings 35 to 38 nanoseconds past a schedule at 10 with interval 10: four
      notifications in a row, and the schedule ends at 50. */
  lemma CatchUpBurstExample()
    ensures Run(10, 10, [45, 46, 47, 48]) == Outcome(4, 50)
  {
    CatchUpBurst(10, 10, [45, 46, 47, 48]);
  }

  /** A zero interval never moves the schedule, so once the clock has passed the
      scheduled time every later pass fires. */
  lemma {:induction false} ZeroIntervalFiresEveryPass(scheduled: int, nows: seq<int>)
    requires forall i :: 0 <= i < |nows| ==> nows[i] > scheduled
    ensures Run(scheduled, 0, nows) == Outcome(|nows|, scheduled)
    decreases |nows|
  {
    if nows != [] {
      ZeroIntervalFiresEveryPass(scheduled, nows[1..]);
    }
  }
}
