// game/components/stamina_component.py: a stamina meter that sprinting drains, that
// refills once a cool-down timer has run out, and that locks sprinting out from the
// moment it is empty until it is full again.
module Stamina {
  import opened Wrappers
  import opened Timers

  /** The signals the component emits, in order: changed(current, max),
      exhausted(on) and recovered(). */
  datatype Event = Changed(current: real, maxStamina: real) | Exhausted(on: bool) | Recovered

  /** The part of the meter a step changes. */
  datatype Gauge = Gauge(current: real, exhausted: bool)

  /** A step's new gauge and what it emitted. */
  datatype Step = Step(gauge: Gauge, events: seq<Event>)

  /** _deplete, lines 73-83: drain by decay_rate * delta but not below 0; changed is
      emitted when the value moved, and exhausted(true) once it reaches 0. */
  function Depleted(g: Gauge, maxStamina: real, decayRate: real, delta: real): Step {
    var drained := g.current - decayRate * delta;
    var current := if 0.0 >= drained then 0.0 else drained;
    var changed := if g.current != current then [Changed(current, maxStamina)] else [];
    if current <= 0.0 && !g.exhausted then Step(Gauge(current, true), changed + [Exhausted(true)])
    else Step(Gauge(current, g.exhausted), changed)
  }

  /** _regenerate, lines 85-97: refill by refill_rate * delta but not above max_stamina;
      changed is emitted when the value moved; at max, exhausted(false) is emitted if it
      was exhausted, and recovered every time. */
  function Regenerated(g: Gauge, maxStamina: real, refillRate: real, delta: real): Step {
    var filled := g.current + refillRate * delta;
    var current := if maxStamina <= filled then maxStamina else filled;
    var changed := if g.current != current then [Changed(current, maxStamina)] else [];
    if current >= maxStamina then
      if g.exhausted then Step(Gauge(current, false), changed + [Exhausted(false), Recovered])
      else Step(Gauge(current, false), changed + [Recovered])
    else Step(Gauge(current, g.exhausted), changed)
  }

  /** _process, lines 39-52: drain while sprinting with stamina left and not exhausted;
      otherwise refill when not sprinting, allowed to, and below max; else nothing. */
  function Processed(g: Gauge, maxStamina: real, decayRate: real, refillRate: real, sprinting: bool,
                     canRegenerate: bool, delta: real): Step
  {
    if sprinting && g.current > 0.0 && !g.exhausted then Depleted(g, maxStamina, decayRate, delta)
    else if !sprinting && canRegenerate && g.current < maxStamina then Regenerated(g, maxStamina, refillRate, delta)
    else Step(g, [])
  }

  /** can_sprint, lines 69-71. */
  predicate CanSprint(g: Gauge) {
    g.current > 0.0 && !g.exhausted
  }

  class StaminaComponent {
    var maxStamina: real
    var current: real
    var decayRate: real
    var refillRate: real
    var sprinting: bool
    var exhausted: bool
    var canRegenerate: bool
    /** Every signal emitted so far. */
    var events: seq<Event>
    /** The cool-down before refilling starts again; a child node of the component. */
    const regenTimer: Timer

    function GaugeOf(): (g: Gauge)
      reads this
      ensures g.current == current && g.exhausted == exhausted
    {
      Gauge(current, exhausted)
    }

    /** The meter lies between empty and full, and neither rate is negative. */
    predicate Bounded()
      reads this
    {
      0.0 <= current <= maxStamina && decayRate >= 0.0 && refillRate >= 0.0
    }

    /** Lines 11-33: a full meter of 100 draining at 20 and refilling at 15 per second, and a
        1.5-second one-shot cool-down timer. */
    constructor()
      ensures maxStamina == 100.0 && current == 100.0 && decayRate == 20.0 && refillRate == 15.0
      ensures !sprinting && !exhausted && canRegenerate && events == []
      ensures fresh(regenTimer) && regenTimer.waitTime == 1.5 && regenTimer.oneShot && !regenTimer.running
      ensures Bounded()
    {
      maxStamina, current, decayRate, refillRate := 100.0, 100.0, 20.0, 15.0;
      sprinting, exhausted, canRegenerate := false, false, true;
      events := [];
      var t := new Timer();
      t.waitTime := 1.5;
      t.oneShot := true;
      regenTimer := t;
    }

    /** _ready, lines 35-37: the current value is announced. */
    method Ready()
      modifies this
      ensures events == old(events) + [Changed(current, maxStamina)]
      ensures GaugeOf() == old(GaugeOf()) && sprinting == old(sprinting) && canRegenerate == old(canRegenerate)
      ensures maxStamina == old(maxStamina) && decayRate == old(decayRate) && refillRate == old(refillRate)
    {
      events := events + [Changed(current, maxStamina)];
    }

    method Deplete(delta: real)
      modifies this
      ensures var e := Depleted(old(GaugeOf()), maxStamina, decayRate, delta);
              GaugeOf() == e.gauge && events == old(events) + e.events
      ensures maxStamina == old(maxStamina) && decayRate == old(decayRate) && refillRate == old(refillRate)
      ensures sprinting == old(sprinting) && canRegenerate == old(canRegenerate)
    {
      var prev := current;
      current := current - decayRate * delta;
      current := if 0.0 >= current then 0.0 else current;
      if prev != current {
        events := events + [Changed(current, maxStamina)];
      }
      if current <= 0.0 && !exhausted {
        exhausted := true;
        events := events + [Exhausted(true)];
      }
    }

    method Regenerate(delta: real)
      modifies this
      ensures var e := Regenerated(old(GaugeOf()), maxStamina, refillRate, delta);
              GaugeOf() == e.gauge && events == old(events) + e.events
      ensures maxStamina == old(maxStamina) && decayRate == old(decayRate) && refillRate == old(refillRate)
      ensures sprinting == old(sprinting) && canRegenerate == old(canRegenerate)
    {
      var prev := current;
      current := current + refillRate * delta;
      current := if maxStamina <= current then maxStamina else current;
      if prev != current {
        events := events + [Changed(current, maxStamina)];
      }
      if current >= maxStamina {
        if exhausted {
          exhausted := false;
          events := events + [Exhausted(false)];
        }
        events := events + [Recovered];
      }
    }

    /** _process: the gauge and the signals are those of Processed; a bounded meter stays
        bounded for every delta that does not run time backwards. */
    method Process(delta: real)
      modifies this
      ensures var e := Processed(old(GaugeOf()), maxStamina, decayRate, refillRate, sprinting, canRegenerate, delta);
              GaugeOf() == e.gauge && events == old(events) + e.events
      ensures maxStamina == old(maxStamina) && decayRate == old(decayRate) && refillRate == old(refillRate)
      ensures sprinting == old(sprinting) && canRegenerate == old(canRegenerate)
      ensures old(Bounded()) && delta >= 0.0 ==> Bounded()
    {
      ProcessedStaysBounded(GaugeOf(), maxStamina, decayRate, refillRate, sprinting, canRegenerate, delta);
      if sprinting && current > 0.0 && !exhausted {
        Deplete(delta);
      } else if !sprinting && canRegenerate && current < maxStamina {
        Regenerate(delta);
      }
    }

    /** request_sprint, lines 54-67: trying to sprint blocks refilling and stops a running
        cool-down; letting go after a sprint restarts the cool-down from its wait time. */
    method RequestSprint(tryingToMove: bool)
      modifies this, regenTimer
      ensures tryingToMove ==> sprinting && !canRegenerate && !regenTimer.running
      ensures tryingToMove && old(regenTimer.running) ==> regenTimer.timeLeft == 0.0
      ensures tryingToMove && !old(regenTimer.running) ==> regenTimer.timeLeft == old(regenTimer.timeLeft)
      ensures !tryingToMove ==> !sprinting && canRegenerate == old(canRegenerate)
      ensures !tryingToMove && old(sprinting) ==> regenTimer.running && regenTimer.timeLeft == regenTimer.waitTime
      ensures !tryingToMove && !old(sprinting) ==>
                regenTimer.running == old(regenTimer.running) && regenTimer.timeLeft == old(regenTimer.timeLeft)
      ensures regenTimer.waitTime == old(regenTimer.waitTime) && regenTimer.oneShot == old(regenTimer.oneShot)
      ensures regenTimer.timeouts == old(regenTimer.timeouts)
      ensures GaugeOf() == old(GaugeOf()) && events == old(events)
      ensures maxStamina == old(maxStamina) && decayRate == old(decayRate) && refillRate == old(refillRate)
    {
      if tryingToMove {
        sprinting := true;
        canRegenerate := false;
        if !regenTimer.IsStopped() {
          regenTimer.Stop();
        }
      } else if sprinting {
        sprinting := false;
        regenTimer.Start(None);
      }
    }

    /** _on_regen_timer_timeout, lines 99-101: refilling is allowed again. */
    method OnRegenTimerTimeout()
      modifies this
      ensures canRegenerate
      ensures GaugeOf() == old(GaugeOf()) && events == old(events) && sprinting == old(sprinting)
      ensures maxStamina == old(maxStamina) && decayRate == old(decayRate) && refillRate == old(refillRate)
    {
      canRegenerate := true;
    }

    /** The cool-down timer advanced by the loop it is registered with; its timeout is
        connected to OnRegenTimerTimeout in _ready (line 36). */
    method AdvanceRegenTimer(delta: real, paused: bool) returns (fired: bool)
      modifies this, regenTimer
      ensures Ticked(old(regenTimer.waitTime), regenTimer.oneShot, old(regenTimer.timeLeft), old(regenTimer.running),
                     paused, delta) == Tick(regenTimer.timeLeft, regenTimer.running, fired)
      ensures canRegenerate == (old(canRegenerate) || fired)
      ensures GaugeOf() == old(GaugeOf()) && events == old(events) && sprinting == old(sprinting)
      ensures maxStamina == old(maxStamina) && decayRate == old(decayRate) && refillRate == old(refillRate)
    {
      fired := regenTimer.Advance(delta, paused);
      if fired {
        OnRegenTimerTimeout();
      }
    }
  }

  /** Lines 73-92: for non-negative rates and delta, a step keeps the meter between empty
      and full. */
  lemma {:induction false} ProcessedStaysBounded(g: Gauge, maxStamina: real, decayRate: real, refillRate: real,
                                                 sprinting: bool, canRegenerate: bool, delta: real)
    ensures 0.0 <= g.current <= maxStamina && decayRate >= 0.0 && refillRate >= 0.0 && delta >= 0.0 ==>
              0.0 <= Processed(g, maxStamina, decayRate, refillRate, sprinting, canRegenerate, delta).gauge.current
                  <= maxStamina
  {
    if 0.0 <= g.current <= maxStamina && decayRate >= 0.0 && refillRate >= 0.0 && delta >= 0.0 {
      assert decayRate * delta >= 0.0 && refillRate * delta >= 0.0;
    }
  }

  /** Lines 81-96: the exhausted flag is raised only on an empty meter and lowered only on a
      full one, and each change is announced by exactly one exhausted signal. */
  lemma ExhaustedOnlyAtEnds(g: Gauge, maxStamina: real, decayRate: real, refillRate: real, sprinting: bool,
                            canRegenerate: bool, delta: real)
    ensures var e := Processed(g, maxStamina, decayRate, refillRate, sprinting, canRegenerate, delta);
            && (!g.exhausted && e.gauge.exhausted ==> e.gauge.current == 0.0 && Exhausted(true) in e.events)
            && (g.exhausted && !e.gauge.exhausted ==> e.gauge.current == maxStamina && Exhausted(false) in e.events)
            && (e.gauge.exhausted == g.exhausted ==> Exhausted(true) !in e.events && Exhausted(false) !in e.events)
  {
  }

  /** Lines 39-52: an exhausted meter is never drained, so it can only stay where it is or
      refill; and it moves at all only while sprinting with stamina left and not exhausted,
      or while not sprinting, allowed to refill, and below max. */
  lemma {:induction false} ProcessGuards(g: Gauge, maxStamina: real, decayRate: real, refillRate: real,
                                         sprinting: bool, canRegenerate: bool, delta: real)
    requires decayRate >= 0.0 && refillRate >= 0.0 && delta >= 0.0
    ensures var e := Processed(g, maxStamina, decayRate, refillRate, sprinting, canRegenerate, delta);
            && (g.exhausted ==> e.gauge.current >= g.current)
            && (e.gauge.current > g.current ==> !sprinting && canRegenerate)
            && (e.gauge.current < g.current ==> sprinting && CanSprint(g))
            && (e.gauge.current != g.current <==> e.events != [] && e.events[0] == Changed(e.gauge.current, maxStamina))
  {
    assert decayRate * delta >= 0.0 && refillRate * delta >= 0.0;
  }
}
