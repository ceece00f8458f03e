/** The alarm light and its timer thread (SomethingsWrong/Hardware/FlashLightAction.cs), and the
    detector that switches it (SomethingsWrong.Lib/WrongnessDetector.cs). */
module AlarmLight {
  import opened Wrappers

  datatype AlertType = Light | Sound

  /** What became of one GetStatus call. */
  datatype Outcome = Passed | Failed | WebException | OtherException

  /** How often a thread takes a step. */
  function Count(steps: seq<nat>, t: nat): nat
  {
    if steps == [] then 0 else Count(steps[..|steps| - 1], t) + (if steps[|steps| - 1] == t then 1 else 0)
  }

  lemma OneStep(steps: seq<nat>, i: nat)
    requires i < |steps|
    ensures forall t :: Count(steps[..i + 1], t) == Count(steps[..i], t) + if steps[i] == t then 1 else 0
  {
    assert steps[..i + 1][..i] == steps[..i];
  }

  /** Everything that the alarm threads share.  A timer thread is first asleep, then past its
      stop time and waiting for the lock, then gone. */
  class FlashLight {
    var lamp: bool                  // what the controller program has switched
    var isRunning: bool
    var alarmThread: Option<nat>

    var threads: nat                // threads created so far
    var alive: set<nat>
    var waiting: set<nat>
    var stopTime: map<nat, int>
    var now: int

    /** Which timer threads take a step, and how much time passes, at each point where the
        scheduler may switch. */
    const schedule: nat -> seq<nat>
    const passes: nat -> nat
    var point: nat

    ghost predicate Threads()
      reads `threads, `alive, `waiting, `stopTime, `now
    {
      && waiting <= alive && alive <= stopTime.Keys
      && (forall t :: t in stopTime ==> t < threads)
      && (forall t :: t in waiting ==> now >= stopTime[t])
    }

    /** Whenever the lock is free: the lamp is lit exactly when the alarm is running, and a lit
        lamp has exactly one timer that will put it out. */
    ghost predicate LockFree()
      reads `lamp, `isRunning, `alarmThread, `threads, `alive, `waiting, `stopTime, `now
    {
      && Threads() && lamp == isRunning
      && (isRunning ==> alarmThread.Some? && alive == {alarmThread.value})
      && (!isRunning ==> alive == {})
    }

    /** When a lit lamp goes out by itself. */
    ghost function Deadline(): int
      requires LockFree() && lamp
      reads `lamp, `isRunning, `alarmThread, `threads, `alive, `waiting, `stopTime, `now
    {
      stopTime[alarmThread.value]
    }

    /** The stop time of a lamp that is lit. */
    ghost function Until(): Option<int>
      requires LockFree()
      reads `lamp, `isRunning, `alarmThread, `threads, `alive, `waiting, `stopTime, `now
    {
      if lamp then Some(Deadline()) else None
    }

    /** An alarm that was due to end at `until` has not been cut short. */
    ghost predicate Kept(until: Option<int>)
      requires LockFree()
      reads `lamp, `isRunning, `alarmThread, `threads, `alive, `waiting, `stopTime, `now
    {
      until.Some? ==> (Until() == until || now >= until.value) && (lamp ==> Deadline() >= until.value)
    }

    /** An alarm has been started since `since`, or prolongs one that was on until `until`:
        it still lasts, or it has lasted its time. */
    ghost predicate Lasts(since: int, duration: nat, until: Option<int>)
      requires LockFree()
      reads `lamp, `isRunning, `alarmThread, `threads, `alive, `waiting, `stopTime, `now
    {
      var end := if lamp then Deadline() else now;
      end >= since + duration || (until.Some? && (if lamp then end == until.value else end >= until.value))
    }

    /** What is left of that when other alarms may have begun and ended since. */
    ghost predicate NotCutShort(since: int, duration: nat, until: Option<int>)
      requires LockFree()
      reads `lamp, `isRunning, `alarmThread, `threads, `alive, `waiting, `stopTime, `now
    {
      var end := if lamp then Deadline() else now;
      end >= since + duration || (until.Some? && end >= until.value)
    }

    /** A lamp that is lit has kept its stop time, or is to go out within the duration. */
    ghost predicate EndsWithin(duration: nat, until: Option<int>)
      requires LockFree()
      reads `lamp, `isRunning, `alarmThread, `threads, `alive, `waiting, `stopTime, `now
    {
      lamp ==> Until() == until || Deadline() <= now + duration
    }

    constructor (schedule: nat -> seq<nat>, passes: nat -> nat, now: int)
      ensures LockFree() && !lamp && this.now == now
    {
      lamp, isRunning, alarmThread := false, false, None;
      threads, alive, waiting, stopTime := 0, {}, {}, map[];
      this.schedule, this.passes, this.now, point := schedule, passes, now, 0;
    }

    /** One step of StopAlarmAtGivenTime in thread t. */
    method StopAlarmAtGivenTime(t: nat, lockIsFree: bool)
      requires Threads() && (lockIsFree ==> LockFree())
      modifies `waiting, `alive, `lamp, `isRunning
      ensures Threads() && (lockIsFree ==> LockFree())
      ensures !lockIsFree ==> lamp == old(lamp) && isRunning == old(isRunning) && alive == old(alive)
      ensures lamp ==> old(lamp)
      ensures lockIsFree && old(lamp) && !lamp ==> now >= old(Deadline())
      ensures t in old(alive) && t !in old(waiting) ==> (t in waiting <==> now >= stopTime[t])
      ensures lockIsFree && t in old(waiting) ==> !lamp && !isRunning && t !in alive
      ensures !lockIsFree && t in old(waiting) ==> t in waiting
      ensures forall u :: u != t ==> (u in alive <==> u in old(alive)) && (u in waiting <==> u in old(waiting))
    {
      if t !in alive { return; }
      if t !in waiting {
        if now >= stopTime[t] { waiting := waiting + {t}; }
      } else if lockIsFree {
        lamp := false;                // Exec("off")
        isRunning := false;
        alive, waiting := alive - {t}, waiting - {t};
      }
    }

    /** After so many steps since its time has come, a timer waits for the lock or is done; after
        two of them with the lock free it is done. */
    ghost predicate Progress(t: nat, steps: nat, lockIsFree: bool)
      reads `alive, `waiting
    {
      && (steps >= 1 ==> t in waiting || t !in alive)
      && (steps >= 2 && lockIsFree ==> t !in alive)
    }

    /** That for all timers whose time had come, given which were alive and waiting before. */
    ghost predicate Ran(wereAlive: set<nat>, wereWaiting: set<nat>, steps: seq<nat>, lockIsFree: bool)
      requires wereAlive <= stopTime.Keys
      reads `alive, `waiting, `now, `stopTime
    {
      forall t :: t in wereAlive && now >= stopTime[t] ==>
        Progress(t, (if t in wereWaiting then 1 else 0) + Count(steps, t), lockIsFree)
    }

    method OneTimer(steps: seq<nat>, i: nat, lockIsFree: bool, ghost wereAlive: set<nat>, ghost wereWaiting: set<nat>)
      requires i < |steps| && wereAlive <= stopTime.Keys && Threads() && (lockIsFree ==> LockFree())
      requires Ran(wereAlive, wereWaiting, steps[..i], lockIsFree)
      modifies `waiting, `alive, `lamp, `isRunning
      ensures Threads() && (lockIsFree ==> LockFree())
      ensures !lockIsFree ==> lamp == old(lamp) && isRunning == old(isRunning) && alive == old(alive)
      ensures lamp ==> old(lamp)
      ensures lockIsFree && old(lamp) && !lamp ==> now >= old(Deadline())
      ensures Ran(wereAlive, wereWaiting, steps[..i + 1], lockIsFree)
    {
      hide Count;
      OneStep(steps, i);
      StopAlarmAtGivenTime(steps[i], lockIsFree);
    }

    /** Time passes, and the timer threads do what the lock allows.  Two steps of the timer are
        enough once its time has come: one to see it, and one with the lock. */
    method OtherThreads(lockIsFree: bool)
      requires Threads() && (lockIsFree ==> LockFree())
      modifies `waiting, `alive, `lamp, `isRunning, `now, `point
      ensures Threads() && (lockIsFree ==> LockFree())
      ensures point == old(point) + 1 && now == old(now) + passes(old(point))
      ensures !lockIsFree ==> lamp == old(lamp) && isRunning == old(isRunning) && alive == old(alive)
      ensures lamp ==> old(lamp)
      ensures lockIsFree && old(lamp) && !lamp ==> now >= old(Deadline())
      ensures Ran(old(alive), old(waiting), schedule(old(point)), lockIsFree)
    {
      hide Ran;
      now := now + passes(point);
      var steps := schedule(point);
      NoneRan(lockIsFree);
      assert steps[..0] == [];
      for i := 0 to |steps|
        invariant point == old(point) && now == old(now) + passes(point)
        invariant Threads() && (lockIsFree ==> LockFree())
        invariant !lockIsFree ==> lamp == old(lamp) && isRunning == old(isRunning) && alive == old(alive)
        invariant lamp ==> old(lamp)
        invariant lockIsFree && old(lamp) && !lamp ==> now >= old(Deadline())
        invariant Ran(old(alive), old(waiting), steps[..i], lockIsFree)
      {
        OneTimer(steps, i, lockIsFree, old(alive), old(waiting));
      }
      assert steps[..|steps|] == steps;
      point := point + 1;
    }

    lemma NoneRan(lockIsFree: bool)
      requires Threads()
      ensures Ran(alive, waiting, [], lockIsFree)
    {}

    /** A lamp whose time has come goes out as soon as its timer has taken two steps. */
    method LetRun(points: nat)
      requires LockFree()
      modifies `waiting, `alive, `lamp, `isRunning, `now, `point
      ensures LockFree() && point == old(point) + points && now >= old(now) && (lamp ==> old(lamp))
      ensures old(lamp) && lamp ==> Deadline() == old(Deadline()) && alarmThread == old(alarmThread)
      ensures old(lamp) && !lamp ==> now >= old(Deadline())
      ensures old(lamp) && old(now) >= old(Deadline()) && StepsIn(old(point), point, old(alarmThread.value)) >= 2 ==>
        !lamp
    {
      hide Count, Ran;
      ghost var t := if lamp then alarmThread.value else 0;
      for i := 0 to points
        invariant LockFree() && point == old(point) + i && now >= old(now) && (lamp ==> old(lamp))
        invariant lamp ==> alarmThread == old(alarmThread) && t in alive
        invariant old(lamp) && !lamp ==> now >= old(Deadline())
        invariant old(lamp) && old(now) >= old(Deadline()) ==>
          (StepsIn(old(point), point, t) >= 1 ==> t in waiting || !lamp) &&
          (StepsIn(old(point), point, t) >= 2 ==> !lamp)
      {
        ghost var p, wereAlive, wereWaiting := point, alive, waiting;
        OtherThreads(true);
        RanMeans(t, wereAlive, wereWaiting, schedule(p));
      }
    }

    lemma RanMeans(t: nat, wereAlive: set<nat>, wereWaiting: set<nat>, steps: seq<nat>)
      requires wereAlive <= stopTime.Keys && Ran(wereAlive, wereWaiting, steps, true)
      ensures t in wereAlive && now >= stopTime[t] ==>
        Progress(t, (if t in wereWaiting then 1 else 0) + Count(steps, t), true)
    {}

    /** How many steps a thread takes from one point to another. */
    ghost function StepsIn(from: nat, to: nat, t: nat): nat
    {
      if to <= from then 0 else StepsIn(from, to - 1, t) + Count(schedule(to - 1), t)
    }

    /** The other threads run while this one holds the lock. */
    method Switch()
      requires Threads()
      modifies `waiting, `alive, `lamp, `isRunning, `now, `point
      ensures Threads() && now >= old(now) && point == old(point) + 1
      ensures lamp == old(lamp) && isRunning == old(isRunning) && alive == old(alive)
    {
      OtherThreads(false);
    }

    /** The branch of Start for a light that is off, with the lock held: a timer thread, and
        then the lamp. */
    method Launch(stop: int)
      requires LockFree() && !isRunning
      modifies this
      ensures LockFree() && lamp && Deadline() == stop && now >= old(now)
      ensures point == old(point) + 4
    {
      hide Ran;
      Switch();
      var thread := threads;
      threads, stopTime := threads + 1, stopTime[thread := stop];
      alarmThread := Some(thread);
      Switch();
      alive := alive + {thread};
      Switch();
      isRunning := true;
      Switch();
      lamp := true;                 // Exec("on")
    }

    /** Start.  A running alarm keeps its stop time; a new one is to stop after exactly the
        duration, from some moment during the call. */
    method Start(lightAlarmDurationInSeconds: nat)
      requires LockFree()
      modifies this
      ensures LockFree() && lamp && now >= old(now)
      ensures Until() == old(Until())
           || old(now) + lightAlarmDurationInSeconds <= Deadline() <= now + lightAlarmDurationInSeconds
      ensures Kept(old(Until()))
      ensures point == old(point) + 1 || point == old(point) + 5
    {
      hide Ran;
      OtherThreads(true);
      if !isRunning { Launch(now + lightAlarmDurationInSeconds); }
    }

    /** Stop */
    method Stop()
      requires LockFree()
      modifies this
      ensures LockFree() && !lamp && !isRunning && now >= old(now)
      ensures if point == old(point) + 1 then alarmThread == old(alarmThread)
        else point == old(point) + 3 && alarmThread == None
    {
      hide Ran;
      OtherThreads(true);
      if isRunning {
        isRunning := false;
        Switch();
        if alarmThread.Some? && alarmThread.value in alive {
          alive, waiting := alive - {alarmThread.value}, waiting - {alarmThread.value};   // Abort
        }
        alarmThread := None;
        Switch();
        lamp := false;                // Exec("off")
      }
    }

    method IsRunning() returns (running: bool)
      requires LockFree()
      modifies this
      ensures LockFree() && running == lamp && (lamp ==> old(lamp))
      ensures point == old(point) + 1
    {
      hide Ran;
      OtherThreads(true);
      running := isRunning;
    }
  }

  class MonitorAction {
    const FailAtNetworkException: bool
    const LightAlarmDurationInSeconds: nat
    var MarkedAsFailing: bool

    constructor (failAtNetworkException: bool, lightAlarmDurationInSeconds: nat)
      ensures !MarkedAsFailing
    {
      FailAtNetworkException, LightAlarmDurationInSeconds := failAtNetworkException, lightAlarmDurationInSeconds;
      MarkedAsFailing := false;
    }

    predicate Fails(outcome: Outcome)
    {
      outcome == Failed || outcome == OtherException || (outcome == WebException && FailAtNetworkException)
    }
  }

  class WrongnessDetector {
    const monitorActions: seq<MonitorAction>
    const alertActions: seq<AlertType>
    const light: FlashLight

    /** The monitors for which alerts were started, in order. */
    ghost var started: seq<MonitorAction>

    constructor (monitorActions: seq<MonitorAction>, alertActions: seq<AlertType>, light: FlashLight)
      ensures this.monitorActions == monitorActions && this.alertActions == alertActions
      ensures this.light == light && started == []
    {
      this.monitorActions, this.alertActions, this.light := monitorActions, alertActions, light;
      started := [];
    }

    /** Timer threads run on behind each alert, so a short alarm may be over when the last
        alert has been started. */
    method StartAlerts(action: MonitorAction)
      requires light.LockFree()
      modifies light, `started
      ensures light.LockFree() && started == old(started) + [action] && light.now >= old(light.now)
      ensures light.lamp ==> light.Until() == old(light.Until()) || Light in alertActions
      ensures light.Kept(old(light.Until()))
      ensures light.EndsWithin(action.LightAlarmDurationInSeconds, old(light.Until()))
      ensures Light in alertActions ==>
        light.Lasts(old(light.now), action.LightAlarmDurationInSeconds, old(light.Until()))
      ensures light.point >= old(light.point) + |alertActions|
    {
      hide light.Ran;
      for i := 0 to |alertActions|
        invariant light.LockFree() && started == old(started) && light.now >= old(light.now)
        invariant light.point >= old(light.point) + i
        invariant light.lamp ==> old(light.lamp) || Light in alertActions[..i]
        invariant light.Kept(old(light.Until()))
        invariant light.EndsWithin(action.LightAlarmDurationInSeconds, old(light.Until()))
        invariant Light !in alertActions[..i] && light.lamp ==> light.Until() == old(light.Until())
        invariant Light in alertActions[..i] ==>
          light.Lasts(old(light.now), action.LightAlarmDurationInSeconds, old(light.Until()))
      {
        if alertActions[i] == Light { light.Start(action.LightAlarmDurationInSeconds); }
        light.OtherThreads(true);
      }
      started := started + [action];
    }

    /** StopRunningAlerts.  _isRunning is shared by all alerts; stopping a sound does nothing. */
    method StopRunningAlerts()
      requires light.LockFree()
      modifies light
      ensures light.LockFree() && (light.lamp ==> old(light.lamp))
      ensures Light in alertActions ==> !light.lamp
    {
      for i := 0 to |alertActions|
        invariant light.LockFree() && (light.lamp ==> old(light.lamp))
        invariant Light in alertActions[..i] ==> !light.lamp
      {
        var running := light.IsRunning();
        if running {
          if alertActions[i] == Light { light.Stop(); }
        }
      }
    }

    /** PerformMonitorAction: alerts start at the first failure only.  GetStatus may take any
        time, and the timer threads run on meanwhile. */
    method PerformMonitorAction(action: MonitorAction, outcome: Outcome) returns (passed: bool)
      requires light.LockFree()
      modifies light, action`MarkedAsFailing, `started
      ensures light.LockFree() && light.now >= old(light.now)
      ensures passed == !action.Fails(outcome) && action.MarkedAsFailing == !passed
      ensures passed <==> outcome == Passed || (outcome == WebException && !action.FailAtNetworkException)
      ensures started == if !passed && !old(action.MarkedAsFailing) then old(started) + [action] else old(started)
      ensures light.lamp ==>
        light.Until() == old(light.Until()) || (!passed && !old(action.MarkedAsFailing) && Light in alertActions)
      ensures light.Kept(old(light.Until()))
      ensures light.EndsWithin(action.LightAlarmDurationInSeconds, old(light.Until()))
      ensures !passed && !old(action.MarkedAsFailing) && Light in alertActions ==>
        light.Lasts(old(light.now), action.LightAlarmDurationInSeconds, old(light.Until()))
      ensures light.point > old(light.point)
    {
      hide light.Ran;
      light.OtherThreads(true);
      passed := true;
      match outcome {
        case Passed =>
        case Failed => passed := false;
        case WebException => passed := !action.FailAtNetworkException;
        case OtherException => passed := false;
      }
      if !passed {
        if !action.MarkedAsFailing {
          action.MarkedAsFailing := true;
          StartAlerts(action);
        }
        return false;
      }
      if action.MarkedAsFailing { action.MarkedAsFailing := false; }
      return true;
    }

    /** The lamp is due to go out within the duration for one of these monitors. */
    ghost predicate DueFor(failures: seq<MonitorAction>)
      requires light.LockFree() && light.lamp
      reads light`lamp, light`isRunning, light`alarmThread, light`threads, light`alive, light`waiting
      reads light`stopTime, light`now
    {
      exists m :: m in failures && light.Deadline() <= light.now + m.LightAlarmDurationInSeconds
    }

    /** The light while monitors report, of which the ones in `failures` are failing newly: it is
        lit only as it was before or for one of them, an alarm that was on is not cut short, and
        neither is the one for the first of them. */
    ghost predicate LightSince(since: int, until: Option<int>, failures: seq<MonitorAction>)
      reads light`lamp, light`isRunning, light`alarmThread, light`threads, light`alive, light`waiting
      reads light`stopTime, light`now
    {
      && light.LockFree() && light.now >= since && light.Kept(until)
      && (light.lamp ==> light.Until() == until || (Light in alertActions && DueFor(failures)))
      && (failures != [] && Light in alertActions ==>
            light.NotCutShort(since, failures[0].LightAlarmDurationInSeconds, until))
    }

    lemma Untouched()
      requires light.LockFree()
      ensures LightSince(light.now, light.Until(), [])
    {}

    /** One round of the loop in CheckAll. */
    method OneMonitor(action: MonitorAction, outcome: Outcome, ghost since: int, ghost until: Option<int>,
                      ghost failures: seq<MonitorAction>)
      returns (passed: bool)
      requires LightSince(since, until, failures)
      modifies light, action`MarkedAsFailing, `started
      ensures passed == !action.Fails(outcome) && action.MarkedAsFailing == !passed
      ensures started == if !passed && !old(action.MarkedAsFailing) then old(started) + [action] else old(started)
      ensures LightSince(since, until,
                         if !passed && !old(action.MarkedAsFailing) then failures + [action] else failures)
    {
      passed := PerformMonitorAction(action, outcome);
    }

    /** Everything has passed, but for network errors of monitors that skip them. */
    ghost predicate NetworkTroubleOnly(outcomes: seq<Outcome>)
      requires |outcomes| == |monitorActions|
    {
      forall i :: 0 <= i < |outcomes| ==>
        outcomes[i] == Passed || (outcomes[i] == WebException && !monitorActions[i].FailAtNetworkException)
    }

    lemma {:induction false} NoNewFailures(outcomes: seq<Outcome>, n: nat)
      requires n <= |outcomes| == |monitorActions| && NetworkTroubleOnly(outcomes)
      ensures NewFailures(outcomes, n) == []
    {
      if n > 0 { NoNewFailures(outcomes, n - 1); }
    }

    ghost predicate Distinct()
    {
      forall i, j :: 0 <= i < j < |monitorActions| ==> monitorActions[i] != monitorActions[j]
    }

    /** The loop of CheckAll. */
    method CheckEach(outcomes: seq<Outcome>) returns (allActionsPassed: bool)
      requires light.LockFree() && Distinct() && |outcomes| == |monitorActions|
      modifies light, `started, set m | m in monitorActions
      ensures light.LockFree()
      ensures forall i :: 0 <= i < |outcomes| ==>
        monitorActions[i].MarkedAsFailing == monitorActions[i].Fails(outcomes[i])
      ensures allActionsPassed == forall i :: 0 <= i < |outcomes| ==> !monitorActions[i].Fails(outcomes[i])
      ensures started == old(started + NewFailures(outcomes, |outcomes|))
      ensures LightSince(old(light.now), old(light.Until()), old(NewFailures(outcomes, |outcomes|)))
    {
      hide LightSince, MonitorAction.Fails;
      Untouched();
      allActionsPassed := true;
      for i := 0 to |monitorActions|
        invariant light.LockFree()
        invariant forall j :: 0 <= j < i ==> monitorActions[j].MarkedAsFailing == monitorActions[j].Fails(outcomes[j])
        invariant forall j :: i <= j < |monitorActions| ==>
          monitorActions[j].MarkedAsFailing == old(monitorActions[j].MarkedAsFailing)
        invariant allActionsPassed == forall j :: 0 <= j < i ==> !monitorActions[j].Fails(outcomes[j])
        invariant started == old(started + NewFailures(outcomes, i))
        invariant LightSince(old(light.now), old(light.Until()), old(NewFailures(outcomes, i)))
      {
        ghost var failures := old(NewFailures(outcomes, i));
        var result := OneMonitor(monitorActions[i], outcomes[i], old(light.now), old(light.Until()), failures);
        assert failures + [] == failures;
        if !result { allActionsPassed := false; }
      }
    }

    /** CheckAll, given what each GetStatus call does. */
    method CheckAll(outcomes: seq<Outcome>)
      requires light.LockFree() && Distinct() && |outcomes| == |monitorActions|
      modifies light, `started, set m | m in monitorActions
      ensures light.LockFree()
      ensures forall i :: 0 <= i < |outcomes| ==>
        monitorActions[i].MarkedAsFailing == monitorActions[i].Fails(outcomes[i])
      ensures (forall i :: 0 <= i < |outcomes| ==> !monitorActions[i].Fails(outcomes[i])) && Light in alertActions ==>
        !light.lamp && !light.isRunning && light.alive == {}
      ensures started == old(started + NewFailures(outcomes, |outcomes|))
      ensures NetworkTroubleOnly(outcomes) ==>
        started == old(started) && (Light in alertActions ==> !light.lamp) &&
        forall i :: 0 <= i < |outcomes| ==> !monitorActions[i].MarkedAsFailing
      ensures (exists i :: 0 <= i < |outcomes| && monitorActions[i].Fails(outcomes[i])) ==>
        LightSince(old(light.now), old(light.Until()), old(NewFailures(outcomes, |outcomes|)))
    {
      hide LightSince;
      if NetworkTroubleOnly(outcomes) { NoNewFailures(outcomes, |outcomes|); }
      hide MonitorAction.Fails;
      var allActionsPassed := CheckEach(outcomes);
      if allActionsPassed { StopRunningAlerts(); }
    }

    /** The monitors that fail now and did not fail before. */
    ghost function NewFailures(outcomes: seq<Outcome>, n: nat): seq<MonitorAction>
      requires n <= |outcomes| == |monitorActions|
      reads set m | m in monitorActions
    {
      if n == 0 then [] else
        NewFailures(outcomes, n - 1) +
        (if monitorActions[n - 1].Fails(outcomes[n - 1]) && !monitorActions[n - 1].MarkedAsFailing
         then [monitorActions[n - 1]] else [])
    }
  }
}
