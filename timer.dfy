// engine/scene/main/timer.py: a countdown that fires its timeout signal when it runs out,
// then either stops (one-shot) or winds itself up again by its wait time.
module Timers {
  import opened Wrappers

  /** ProcessMode, engine/scene/main/process_mode.py. */
  const Disabled: int := 0
  const Idle: int := 1
  const Inherit: int := 2
  const Physics: int := 3

  /** What one _advance leaves of the countdown: the time left, whether it still runs,
      and whether timeout was emitted. */
  datatype Tick = Tick(timeLeft: real, running: bool, fired: bool)

  /** _advance, lines 45-59, on the countdown's values; `paused` is what is_paused()
      answers. */
  function Ticked(waitTime: real, oneShot: bool, timeLeft: real, running: bool, paused: bool, delta: real): Tick {
    if !running || paused then Tick(timeLeft, running, false)
    else
      var left := timeLeft - delta;
      if left > 0.0 then Tick(left, true, false)
      else if oneShot then Tick(0.0, false, true)
      else Tick(left + waitTime, true, true)
  }

  class Timer {
    var waitTime: real
    var oneShot: bool
    var autostart: bool
    var timeLeft: real
    var running: bool
    /** process_callback: which loop advances the timer. */
    var processCallback: int
    /** The node's own process mode, as set_process and set_physics_process leave it. */
    var processMode: int
    /** How many times timeout has been emitted. */
    var timeouts: nat

    /** Lines 7-18: a one-second repeating timer, not running, advanced by the idle loop. */
    constructor()
      ensures waitTime == 1.0 && !oneShot && !autostart && timeLeft == 0.0 && !running
      ensures processCallback == Idle && processMode == Inherit && timeouts == 0
    {
      waitTime, oneShot, autostart, timeLeft, running := 1.0, false, false, 0.0, false;
      processCallback, processMode, timeouts := Idle, Inherit, 0;
    }

    /** start, lines 24-34: an explicit time, clamped to be non-negative, becomes the wait
        time; the countdown restarts from the wait time; the timer registers with the loop
        its process_callback names. */
    method Start(timeSec: Option<real>)
      modifies this
      ensures waitTime == (if timeSec.Some? then (if timeSec.value > 0.0 then timeSec.value else 0.0)
                           else old(waitTime))
      ensures timeLeft == waitTime && running
      ensures processMode == (if processCallback == Idle then Idle
                              else if processCallback == Physics then Physics else old(processMode))
      ensures oneShot == old(oneShot) && autostart == old(autostart) && processCallback == old(processCallback)
      ensures timeouts == old(timeouts)
    {
      if timeSec.Some? {
        waitTime := if 0.0 >= timeSec.value then 0.0 else timeSec.value;
      }
      timeLeft := waitTime;
      running := true;
      if processCallback == Idle {
        processMode := Idle;
      } else if processCallback == Physics {
        processMode := Physics;
      }
    }

    /** stop, lines 36-40: not running, nothing left, and unregistered from both loops. */
    method Stop()
      modifies this
      ensures !running && timeLeft == 0.0 && processMode == Disabled
      ensures waitTime == old(waitTime) && oneShot == old(oneShot) && autostart == old(autostart)
      ensures processCallback == old(processCallback) && timeouts == old(timeouts)
    {
      running := false;
      timeLeft := 0.0;
      processMode := Disabled;
    }

    /** is_stopped, lines 42-43. */
    function IsStopped(): (r: bool)
      reads this
      ensures r <==> !running
    {
      !running
    }

    /** _ready, lines 20-22: an autostart timer starts with its own wait time. */
    method Ready()
      modifies this
      ensures autostart ==> running && timeLeft == waitTime && waitTime == old(waitTime)
      ensures !autostart ==> running == old(running) && timeLeft == old(timeLeft)
      ensures timeouts == old(timeouts)
    {
      if autostart {
        Start(None);
      }
    }

    /** _advance: the countdown moves as Ticked says, timeout is counted when it fires,
        and a one-shot timer that fires is stopped. */
    method Advance(delta: real, paused: bool) returns (fired: bool)
      modifies this
      ensures Ticked(old(waitTime), oneShot, old(timeLeft), old(running), paused, delta) == Tick(timeLeft, running, fired)
      ensures timeouts == old(timeouts) + (if fired then 1 else 0)
      ensures processMode == (if fired && oneShot then Disabled else old(processMode))
      ensures waitTime == old(waitTime) && oneShot == old(oneShot) && autostart == old(autostart)
      ensures processCallback == old(processCallback)
    {
      if !running || paused {
        return false;
      }
      timeLeft := timeLeft - delta;
      if timeLeft > 0.0 {
        return false;
      }
      timeouts := timeouts + 1;
      fired := true;
      if oneShot {
        Stop();
      } else {
        timeLeft := timeLeft + waitTime;
      }
    }
  }

  /** Lines 46-47: a stopped or paused timer does not move and does not fire. */
  lemma StoppedOrPausedIsInert(waitTime: real, oneShot: bool, timeLeft: real, running: bool, paused: bool,
                               delta: real)
    requires !running || paused
    ensures Ticked(waitTime, oneShot, timeLeft, running, paused, delta) == Tick(timeLeft, running, false)
  {
  }

  /** Lines 49-57: a running timer fires exactly when the time left, less delta, is no longer
      positive; a one-shot timer that fires ends stopped with nothing left. */
  lemma FiresWhenRunOut(waitTime: real, oneShot: bool, timeLeft: real, delta: real)
    ensures Ticked(waitTime, oneShot, timeLeft, true, false, delta).fired <==> timeLeft - delta <= 0.0
    ensures oneShot && timeLeft - delta <= 0.0 ==> Ticked(waitTime, oneShot, timeLeft, true, false, delta) == Tick(0.0, false, true)
    ensures !Ticked(waitTime, oneShot, timeLeft, true, false, delta).fired ==>
              Ticked(waitTime, oneShot, timeLeft, true, false, delta) == Tick(timeLeft - delta, true, false)
  {
  }

  /** Lines 54-59: a repeating timer never stops by itself, and it winds up by one wait
      time only, however large delta is: a step that runs past several periods still fires
      once, and what is owed stays in the time left. */
  lemma RepeatingFiresOnce(waitTime: real, timeLeft: real, running: bool, paused: bool, delta: real)
    ensures var t := Ticked(waitTime, false, timeLeft, running, paused, delta);
            && t.running == running
            && (t.fired ==> t.timeLeft == timeLeft - delta + waitTime && t.timeLeft <= waitTime)
  {
  }

  /** A repeating timer started with a positive wait time keeps at most that much left,
      at every step that does not run time backwards. */
  lemma {:induction false} RepeatingStaysWound(waitTime: real, timeLeft: real, running: bool, paused: bool,
                                               delta: real)
    requires 0.0 < waitTime && timeLeft <= waitTime && delta >= 0.0
    ensures Ticked(waitTime, false, timeLeft, running, paused, delta).timeLeft <= waitTime
  {
    RepeatingFiresOnce(waitTime, timeLeft, running, paused, delta);
  }

  /** Once a one-shot timer has fired, no later step fires it again until it is restarted. */
  lemma {:induction false} OneShotFiresOnce(waitTime: real, timeLeft: real, paused: bool, delta: real,
                                            later: seq<(bool, real)>)
    requires Ticked(waitTime, true, timeLeft, true, paused, delta).fired
    ensures var t := Ticked(waitTime, true, timeLeft, true, paused, delta);
            forall k :: 0 <= k < |later| ==>
              !Ticked(waitTime, true, t.timeLeft, t.running, later[k].0, later[k].1).fired
  {
    var t := Ticked(waitTime, true, timeLeft, true, paused, delta);
    FiresWhenRunOut(waitTime, true, timeLeft, delta);
    forall k | 0 <= k < |later|
      ensures !Ticked(waitTime, true, t.timeLeft, t.running, later[k].0, later[k].1).fired
    {
      StoppedOrPausedIsInert(waitTime, true, t.timeLeft, t.running, later[k].0, later[k].1);
    }
  }
}
