/** The daily stand-up alarm (SomethingsWrong.Lib/TimeCheckAction.cs) and when it starts alerts.
    Times are in DateTime ticks. */
module StandupAlarm {
  import opened Wrappers
  import opened AlarmLight

  const SECOND := 10_000_000
  const HOUR := 3600 * SECOND
  const DAY := 24 * HOUR

  function TimeOfDay(time: nat): nat { time % DAY }

  predicate InWindow(standup: nat, time: nat)
  {
    -30 * SECOND < TimeOfDay(time) - standup < 30 * SECOND
  }

  /** One GetStatus call: the three clock readings it can take, in order, within a minute. */
  datatype Poll = Poll(first: nat, second: nat, third: nat)
  {
    predicate Valid() { first <= second <= third < first + 60 * SECOND }
  }

  // ---- GetStatus ----

  class TimeCheckAction {
    const time: nat
    var nextAlarmNoEarlierThan: Option<int>

    constructor (time: nat)
      ensures this.time == time && nextAlarmNoEarlierThan == None
    {
      this.time, nextAlarmNoEarlierThan := time, None;
    }

    method PassedNextAlarmTime(now: nat) returns (passed: bool)
      ensures passed == MayAlarm(nextAlarmNoEarlierThan, now)
    {
      if nextAlarmNoEarlierThan == None { return true; }
      return now >= nextAlarmNoEarlierThan.value;
    }

    /** False runs the alarm. */
    method GetStatus(clock: Poll) returns (status: bool)
      modifies this
      ensures status == !(MayAlarm(old(nextAlarmNoEarlierThan), clock.first) && InWindow(time, clock.second))
      ensures nextAlarmNoEarlierThan == if status then old(nextAlarmNoEarlierThan) else Some(clock.third + HOUR)
    {
      var passed := PassedNextAlarmTime(clock.first);
      if !passed { return true; }
      var diff := TimeOfDay(clock.second) - time;
      if -30 * SECOND < diff && diff < 30 * SECOND {
        nextAlarmNoEarlierThan := Some(clock.third + HOUR);
        return false;
      }
      return true;
    }
  }

  predicate MayAlarm(next: Option<int>, now: nat) { next == None || now >= next.value }

  /** nextAlarmNoEarlierThan before poll k. */
  function NextAlarm(standup: nat, polls: seq<Poll>, k: nat): Option<int>
    requires k <= |polls|
    decreases k, 0
  {
    if k == 0 then None
    else if Fails(standup, polls, k - 1) then Some(polls[k - 1].third + HOUR)
    else NextAlarm(standup, polls, k - 1)
  }

  /** Poll k reports a failure. */
  predicate Fails(standup: nat, polls: seq<Poll>, k: nat)
    requires k < |polls|
    decreases k, 1
  {
    MayAlarm(NextAlarm(standup, polls, k), polls[k].first) && InWindow(standup, polls[k].second)
  }

  /** Alerts start with poll k: it is the first failing one since the last good one. */
  predicate Starts(standup: nat, polls: seq<Poll>, k: nat)
    requires k < |polls|
  {
    Fails(standup, polls, k) && (k == 0 || !Fails(standup, polls, k - 1))
  }

  /** Polls by one thread, one after another. */
  predicate Ordered(polls: seq<Poll>)
  {
    && (forall k :: 0 <= k < |polls| ==> polls[k].Valid())
    && (forall j, k :: 0 <= j < k < |polls| ==> polls[j].third <= polls[k].first)
  }

  // ---- An hour apart ----

  lemma {:induction false} NextAlarmGrows(standup: nat, polls: seq<Poll>, j: nat, k: nat)
    requires Ordered(polls) && j < k <= |polls| && Fails(standup, polls, j)
    ensures var next := NextAlarm(standup, polls, k); next.Some? && next.value >= polls[j].third + HOUR
    decreases k
  {
    hide InWindow;
    if k > j + 1 { NextAlarmGrows(standup, polls, j, k - 1); }
  }

  /** Any two failing polls are at least an hour apart. */
  lemma AnHourApart(standup: nat, polls: seq<Poll>, j: nat, k: nat)
    requires Ordered(polls) && j < k < |polls| && Fails(standup, polls, j) && Fails(standup, polls, k)
    ensures polls[k].first >= polls[j].third + HOUR
  {
    NextAlarmGrows(standup, polls, j, k);
  }

  // ---- Once a day ----

  /** The last tick before a day's window, and the first one after it. */
  function Opens(standup: nat, day: nat): int
  {
    day * DAY + (if standup - 30 * SECOND < -1 then -1 else standup - 30 * SECOND)
  }

  function Closes(standup: nat, day: nat): int
  {
    day * DAY + (if standup + 30 * SECOND > DAY then DAY else standup + 30 * SECOND)
  }

  lemma WindowOfDay(standup: nat, day: nat, time: nat)
    requires standup < DAY
    ensures Opens(standup, day) < time < Closes(standup, day) <==> InWindow(standup, time) && time / DAY == day
  {}

  /** Around the window of the day, one poll follows another in less than a minute. */
  predicate Continues(standup: nat, day: nat, before: Poll, poll: Poll)
  {
    before.second < Closes(standup, day) && Opens(standup, day) < poll.second ==>
      poll.second < before.second + 60 * SECOND
  }

  /** Polls that go on through the window of a day, never a minute apart. */
  predicate Covers(standup: nat, day: nat, polls: seq<Poll>)
  {
    && Ordered(polls) && |polls| > 0
    && polls[0].second <= Opens(standup, day) && polls[|polls| - 1].second >= Closes(standup, day)
    && forall k :: 0 < k < |polls| ==> Continues(standup, day, polls[k - 1], polls[k])
  }

  predicate FailsOn(standup: nat, day: nat, polls: seq<Poll>, k: nat)
    requires k < |polls|
  {
    Fails(standup, polls, k) && polls[k].second / DAY == day
  }

  /** The day has exactly one failing poll, and alerts start with it. */
  predicate OneAlarm(standup: nat, day: nat, polls: seq<Poll>)
  {
    exists k :: 0 <= k < |polls| && FailsOn(standup, day, polls, k) && Starts(standup, polls, k)
             && forall j :: 0 <= j < |polls| && FailsOn(standup, day, polls, j) ==> j == k
  }

  /** Every tick of the window is on the same day. */
  predicate WholeWindow(standup: nat)
  {
    30 * SECOND - 1 <= standup <= DAY - 30 * SECOND
  }

  lemma {:induction false} SecondsGrow(polls: seq<Poll>, j: nat, k: nat)
    requires Ordered(polls) && j < k < |polls|
    ensures polls[j].second <= polls[j].third <= polls[k].first <= polls[k].second
  {
    assert polls[j].Valid() && polls[k].Valid();
  }

  /** The first poll after a time. */
  lemma {:induction false} FirstAfter(polls: seq<Poll>, time: int, n: nat) returns (k: nat)
    requires Ordered(polls) && n < |polls| && polls[0].second <= time < polls[n].second
    ensures 0 < k <= n && polls[k - 1].second <= time < polls[k].second
  {
    if polls[n - 1].second <= time {
      k := n;
    } else {
      k := FirstAfter(polls, time, n - 1);
    }
  }

  lemma {:induction false} NextAlarmIsFromAFailure(standup: nat, polls: seq<Poll>, k: nat) returns (j: nat)
    requires k <= |polls|
    ensures NextAlarm(standup, polls, k).Some? ==>
      j < k && Fails(standup, polls, j) && NextAlarm(standup, polls, k).value == polls[j].third + HOUR
    decreases k
  {
    hide InWindow;
    j := 0;
    if k > 0 {
      if Fails(standup, polls, k - 1) {
        j := k - 1;
      } else {
        j := NextAlarmIsFromAFailure(standup, polls, k - 1);
      }
    }
  }

  /** The first poll after the window opens finds the way clear, and is still inside it. */
  lemma FirstPollFails(standup: nat, day: nat, polls: seq<Poll>, k: nat)
    requires WholeWindow(standup) && Covers(standup, day, polls) && 0 < k < |polls|
    requires polls[k - 1].second <= Opens(standup, day) < polls[k].second
    ensures FailsOn(standup, day, polls, k)
    ensures polls[k].second < polls[k - 1].second + 60 * SECOND
  {
    hide InWindow, Opens, Closes, WholeWindow;
    WindowIsAMinute(standup, day);
    WindowOfDay(standup, day, polls[k].second);
    assert polls[k].Valid();
    var j := NextAlarmIsFromAFailure(standup, polls, k);
    if NextAlarm(standup, polls, k).Some? {
      if j < k - 1 { SecondsGrow(polls, j, k - 1); }
      assert polls[j].Valid() && InWindow(standup, polls[j].second);
      EarlierDay(standup, day, polls[j].second);
    }
  }

  lemma WindowIsAMinute(standup: nat, day: nat)
    requires WholeWindow(standup)
    ensures standup < DAY && Opens(standup, day) + 60 * SECOND == Closes(standup, day)
  {}

  /** A failure before the window opens is a day old, near enough. */
  lemma EarlierDay(standup: nat, day: nat, time: nat)
    requires WholeWindow(standup) && InWindow(standup, time) && time <= Opens(standup, day)
    ensures time + 60 * SECOND + HOUR < Opens(standup, day) - 60 * SECOND
  {
    var d := time / DAY;
    assert time == d * DAY + TimeOfDay(time);
  }

  lemma OnceADay(standup: nat, day: nat, polls: seq<Poll>)
    requires WholeWindow(standup) && Covers(standup, day, polls)
    ensures OneAlarm(standup, day, polls)
  {
    hide InWindow;
    var k := FirstAfter(polls, Opens(standup, day), |polls| - 1);
    FirstPollFails(standup, day, polls, k);
    assert polls[k].Valid() && polls[k - 1].Valid();
    if Fails(standup, polls, k - 1) { AnHourApart(standup, polls, k - 1, k); }
    forall j | 0 <= j < |polls| && FailsOn(standup, day, polls, j) ensures j == k {
      WindowOfDay(standup, day, polls[j].second);
      if j > k { AnHourApart(standup, polls, k, j); }
    }
  }

  /** If midnight cuts the window, two polls less than a minute apart can miss it. */
  lemma Missed(standup: nat, day: nat) returns (polls: seq<Poll>)
    requires standup < DAY && !WholeWindow(standup) && day > 0
    ensures Covers(standup, day, polls) && !OneAlarm(standup, day, polls)
  {
    var a, b := Opens(standup, day), Closes(standup, day);
    polls := [Poll(a, a, a), Poll(b, b, b)];
    WindowOfDay(standup, day, a);
    WindowOfDay(standup, day, b);
  }

  /** One alarm on a day, however the polls fall, exactly if midnight does not cut the
      window. */
  lemma OneAlarmIffWhole(standup: nat, day: nat)
    requires standup < DAY && day > 0
    ensures (forall polls :: Covers(standup, day, polls) ==> OneAlarm(standup, day, polls)) <==> WholeWindow(standup)
  {
    if WholeWindow(standup) {
      forall polls | Covers(standup, day, polls) ensures OneAlarm(standup, day, polls) {
        OnceADay(standup, day, polls);
      }
    } else {
      var polls := Missed(standup, day);
    }
  }

  // ---- The detector watching the clock ----

  /** Polls by the detector, one after another: alerts start exactly at the polls that Starts
      names. */
  method Watch(detector: WrongnessDetector, monitor: MonitorAction, time: nat, polls: seq<Poll>)
    returns (ghost starts: seq<bool>)
    requires detector.light.LockFree() && !monitor.MarkedAsFailing
    modifies detector, detector.light, monitor
    ensures |starts| == |polls| && forall k :: 0 <= k < |polls| ==> starts[k] == Starts(time, polls, k)
  {
    hide InWindow;
    var check := new TimeCheckAction(time);
    starts := [];
    for k := 0 to |polls|
      invariant detector.light.LockFree() && check.time == time
      invariant check.nextAlarmNoEarlierThan == NextAlarm(time, polls, k)
      invariant monitor.MarkedAsFailing == (k > 0 && Fails(time, polls, k - 1))
      invariant |starts| == k && forall j :: 0 <= j < k ==> starts[j] == Starts(time, polls, j)
    {
      ghost var before := |detector.started|;
      var status := check.GetStatus(polls[k]);
      var passed := detector.PerformMonitorAction(monitor, if status then Outcome.Passed else Outcome.Failed);
      starts := starts + [|detector.started| > before];
    }
  }

  /** What was seen of the light at one check: its clock before and after, and when it is due to
      go out. */
  datatype Check = Check(before: int, after: int, until: Option<int>)

  /** Lit for at least the duration from the beginning of the check on, and for no more than
      that from its end. */
  predicate LitFor(check: Check, duration: nat)
  {
    if check.until.Some? then check.before + duration <= check.until.value <= check.after + duration
    else check.after >= check.before + duration
  }

  /** One check by a detector with no other monitor. */
  method CheckAlone(detector: WrongnessDetector, monitor: MonitorAction, status: bool) returns (ghost check: Check)
    requires detector.light.LockFree() && (detector.light.lamp ==> monitor.MarkedAsFailing)
    requires detector.monitorActions == [monitor] && Light in detector.alertActions
    modifies detector, detector.light, monitor
    ensures detector.light.LockFree() && (detector.light.lamp ==> monitor.MarkedAsFailing)
    ensures monitor.MarkedAsFailing == !status && (status ==> check.until == None)
    ensures !status && !old(monitor.MarkedAsFailing) ==> LitFor(check, monitor.LightAlarmDurationInSeconds)
  {
    ghost var before := detector.light.now;
    detector.CheckAll([if status then Outcome.Passed else Outcome.Failed]);
    check := Check(before, detector.light.now, detector.light.Until());
  }

  /** The detector with no other monitor.  The light is lit with the poll that starts alerts,
      for the duration if nothing puts it out; but the next check that passes puts it out, and
      that is the next one of all if it comes within the hour. */
  method WatchAlone(detector: WrongnessDetector, monitor: MonitorAction, time: nat, polls: seq<Poll>)
    returns (ghost checks: seq<Check>)
    requires detector.light.LockFree() && !detector.light.lamp && !monitor.MarkedAsFailing
    requires detector.monitorActions == [monitor] && Light in detector.alertActions && Ordered(polls)
    modifies detector, detector.light, monitor
    ensures |checks| == |polls|
    ensures forall k :: 0 <= k < |polls| && Starts(time, polls, k) ==>
      LitFor(checks[k], monitor.LightAlarmDurationInSeconds)
    ensures forall k :: 0 <= k < |polls| && !Fails(time, polls, k) ==> checks[k].until == None
    ensures forall k :: 0 < k < |polls| && Fails(time, polls, k - 1) && polls[k].first < polls[k - 1].third + HOUR ==>
      checks[k].until == None
  {
    hide InWindow, LitFor, Ordered;
    var alarm := new TimeCheckAction(time);
    checks := [];
    for k := 0 to |polls|
      invariant detector.light.LockFree() && (detector.light.lamp ==> monitor.MarkedAsFailing)
      invariant alarm.time == time && alarm.nextAlarmNoEarlierThan == NextAlarm(time, polls, k)
      invariant monitor.MarkedAsFailing == (k > 0 && Fails(time, polls, k - 1))
      invariant |checks| == k
      invariant forall j :: 0 <= j < k && Starts(time, polls, j) ==>
        LitFor(checks[j], monitor.LightAlarmDurationInSeconds)
      invariant forall j :: 0 <= j < k && !Fails(time, polls, j) ==> checks[j].until == None
    {
      var status := alarm.GetStatus(polls[k]);
      ghost var check := CheckAlone(detector, monitor, status);
      checks := checks + [check];
    }
    forall k | 0 < k < |polls| && Fails(time, polls, k - 1) && polls[k].first < polls[k - 1].third + HOUR
      ensures !Fails(time, polls, k)
    {
      if Fails(time, polls, k) { AnHourApart(time, polls, k - 1, k); }
    }
  }
}
