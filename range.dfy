// engine/ui/widgets/range.py: a bounded numeric value that snaps to a step and announces
// each change through its value_changed signal.
module Ranges {

  /** Python's round() on a float: the nearest integer, ties going to the even one. */
  function RoundHalfEven(x: real): (k: int)
    ensures k as real - 0.5 <= x <= k as real + 0.5
    ensures x - x.Floor as real < 0.5 ==> k == x.Floor
    ensures x - x.Floor as real > 0.5 ==> k == x.Floor + 1
    ensures x - x.Floor as real == 0.5 ==> k % 2 == 0
  {
    var f := x.Floor;
    var frac := x - f as real;
    if frac < 0.5 then f
    else if frac > 0.5 then f + 1
    else if f % 2 == 0 then f else f + 1
  }

  /** The two clamps of set_value, lines 49-52, each skipped when its allow flag is set. */
  function Clamped(value: real, minValue: real, maxValue: real, allowLesser: bool, allowGreater: bool): (c: real)
    ensures !allowLesser && value < minValue && minValue <= maxValue ==> c == minValue
    ensures !allowGreater && value > maxValue ==> c == maxValue
    ensures !allowLesser && !allowGreater && minValue <= maxValue ==> minValue <= c <= maxValue
    ensures allowLesser && allowGreater ==> c == value
  {
    var low := if !allowLesser then (if value > minValue then value else minValue) else value;
    if !allowGreater then (if maxValue < low then maxValue else low) else low
  }

  /** The value set_value settles on, lines 46-55: clamped, then snapped to the nearest
      multiple of a positive step. */
  function Adjusted(value: real, minValue: real, maxValue: real, step: real, allowLesser: bool,
                    allowGreater: bool): real
  {
    var c := Clamped(value, minValue, maxValue, allowLesser, allowGreater);
    if step > 0.0 then Snap(c, step) else c
  }

  /** round(value / step) * step, line 55. */
  function Snap(c: real, step: real): real
    requires step > 0.0
  {
    RoundHalfEven(c / step) as real * step
  }

  /** Where a value sits between two bounds, as get_ratio computes it: 0 when the bounds
      coincide. */
  function RatioOf(value: real, minValue: real, maxValue: real): (r: real)
    ensures maxValue == minValue ==> r == 0.0
    ensures maxValue != minValue ==> r * (maxValue - minValue) == value - minValue
  {
    if maxValue == minValue then 0.0 else (value - minValue) / (maxValue - minValue)
  }

  class Range {
    var minValue: real
    var maxValue: real
    var value: real
    var step: real
    var allowGreater: bool
    var allowLesser: bool
    /** Every value value_changed has been emitted with. */
    var emitted: seq<real>

    /** set_step never lets the step become zero or negative. */
    predicate Valid()
      reads this
    {
      step > 0.0
    }

    /** Lines 7-17: 0 to 100 in steps of 1, at 0, both clamps on. */
    constructor()
      ensures minValue == 0.0 && maxValue == 100.0 && value == 0.0 && step == 1.0
      ensures !allowGreater && !allowLesser && emitted == []
      ensures Valid()
    {
      minValue, maxValue, value, step := 0.0, 100.0, 0.0, 1.0;
      allowGreater, allowLesser := false, false;
      emitted := [];
    }

    /** set_value, lines 46-62: the adjusted value is stored and emitted, unless it equals
        the value already held, in which case nothing happens at all. */
    method SetValue(v: real)
      modifies this
      ensures var a := Adjusted(v, minValue, maxValue, step, allowLesser, allowGreater);
              if a == old(value) then value == old(value) && emitted == old(emitted)
              else value == a && emitted == old(emitted) + [a]
      ensures minValue == old(minValue) && maxValue == old(maxValue) && step == old(step)
      ensures allowGreater == old(allowGreater) && allowLesser == old(allowLesser)
    {
      var original := value;
      var x := v;
      if !allowLesser {
        x := if x > minValue then x else minValue;
      }
      if !allowGreater {
        x := if maxValue < x then maxValue else x;
      }
      assert x == Clamped(v, minValue, maxValue, allowLesser, allowGreater);
      if step > 0.0 {
        x := Snap(x, step);
      }
      if x == original {
        return;
      }
      value := x;
      emitted := emitted + [value];
    }

    /** set_min, lines 19-21: the new bound, then the held value set again against it. */
    method SetMin(v: real)
      modifies this
      ensures minValue == v && maxValue == old(maxValue) && step == old(step)
      ensures var a := Adjusted(old(value), v, maxValue, step, allowLesser, allowGreater);
              if a == old(value) then value == old(value) && emitted == old(emitted)
              else value == a && emitted == old(emitted) + [a]
      ensures allowGreater == old(allowGreater) && allowLesser == old(allowLesser)
    {
      minValue := v;
      SetValue(value);
    }

    /** set_max, lines 26-28. */
    method SetMax(v: real)
      modifies this
      ensures maxValue == v && minValue == old(minValue) && step == old(step)
      ensures var a := Adjusted(old(value), minValue, v, step, allowLesser, allowGreater);
              if a == old(value) then value == old(value) && emitted == old(emitted)
              else value == a && emitted == old(emitted) + [a]
      ensures allowGreater == old(allowGreater) && allowLesser == old(allowLesser)
    {
      maxValue := v;
      SetValue(value);
    }

    /** set_step, lines 33-37: a step that is not positive is refused (with a warning) and
        the old one kept; the held value is not re-snapped. */
    method SetStep(v: real)
      modifies this
      ensures step == (if v <= 0.0 then old(step) else v)
      ensures old(Valid()) ==> Valid()
      ensures value == old(value) && emitted == old(emitted)
      ensures minValue == old(minValue) && maxValue == old(maxValue)
      ensures allowGreater == old(allowGreater) && allowLesser == old(allowLesser)
    {
      if v <= 0.0 {
        return;
      }
      step := v;
    }

    method SetAllowGreater(enable: bool)
      modifies this
      ensures allowGreater == enable && allowLesser == old(allowLesser)
      ensures value == old(value) && emitted == old(emitted) && step == old(step)
      ensures minValue == old(minValue) && maxValue == old(maxValue)
    {
      allowGreater := enable;
    }

    method SetAllowLesser(enable: bool)
      modifies this
      ensures allowLesser == enable && allowGreater == old(allowGreater)
      ensures value == old(value) && emitted == old(emitted) && step == old(step)
      ensures minValue == old(minValue) && maxValue == old(maxValue)
    {
      allowLesser := enable;
    }

    /** get_ratio, lines 67-70. */
    function Ratio(): (r: real)
      reads this
      ensures r == RatioOf(value, minValue, maxValue)
    {
      if maxValue == minValue then 0.0 else (value - minValue) / (maxValue - minValue)
    }
  }

  /** Lines 54-55: snapping moves the clamped value by at most half a step. */
  lemma {:induction false} SnapIsNear(c: real, step: real)
    requires step > 0.0
    ensures c - step / 2.0 <= Snap(c, step) <= c + step / 2.0
  {
    NearMultiple(c, step, RoundHalfEven(c / step) as real);
  }

  /** Lines 49-55: with both clamps on, the settled value leaves [min, max] by at most half
      a step, because snapping comes after clamping. */
  lemma {:induction false} SettledNearBounds(value: real, minValue: real, maxValue: real, step: real)
    requires step > 0.0 && minValue <= maxValue
    ensures minValue - step / 2.0 <= Adjusted(value, minValue, maxValue, step, false, false) <= maxValue + step / 2.0
  {
    SnapIsNear(Clamped(value, minValue, maxValue, false, false), step);
  }

  /** The snapped value is a whole number of steps. */
  lemma {:induction false} SnapOnStep(c: real, step: real)
    requires step > 0.0
    ensures var q := Snap(c, step) / step;
            q == q.Floor as real
  {
    var k := RoundHalfEven(c / step);
    DivideBack(k as real, step);
    assert Snap(c, step) / step == k as real;
  }

  /** Setting a range to the value it settled on settles on it again, so the second
      set_value emits nothing. */
  lemma {:induction false} AdjustedIdempotent(value: real, minValue: real, maxValue: real, step: real,
                                              allowLesser: bool, allowGreater: bool)
    requires step > 0.0 && minValue <= maxValue
    ensures var a := Adjusted(value, minValue, maxValue, step, allowLesser, allowGreater);
            Adjusted(a, minValue, maxValue, step, allowLesser, allowGreater) == a
  {
    var c := Clamped(value, minValue, maxValue, allowLesser, allowGreater);
    var a := Snap(c, step);
    var c2 := Clamped(a, minValue, maxValue, allowLesser, allowGreater);
    ClampedBetween(value, a, minValue, maxValue, allowLesser, allowGreater);
    SnapBetween(c, c2, step);
  }

  /** A point between c and its snapped value snaps to the same value. */
  lemma {:induction false} SnapBetween(c: real, c2: real, step: real)
    requires step > 0.0
    requires var a := Snap(c, step); (a <= c ==> a <= c2 <= c) && (c <= a ==> c <= c2 <= a)
    ensures Snap(c2, step) == Snap(c, step)
  {
    var k := RoundHalfEven(c / step);
    ScaledBetween(Snap(c, step), c2, c, k, step);
    RoundBetween(c / step, c2 / step, k);
  }

  /** Dividing by the step keeps a point that lies between a whole number k of steps and c
      between k and c / step. */
  lemma {:induction false} ScaledBetween(a: real, c2: real, c: real, k: int, step: real)
    requires step > 0.0 && a == k as real * step
    requires (a <= c ==> a <= c2 <= c) && (c <= a ==> c <= c2 <= a)
    ensures (k as real <= c2 / step <= c / step) || (c / step <= c2 / step <= k as real)
  {
    DivideBack(k as real, step);
    if a <= c {
      DivideMonotone(a, c2, step);
      DivideMonotone(c2, c, step);
    } else {
      DivideMonotone(c, c2, step);
      DivideMonotone(c2, a, step);
    }
  }

  /** Clamping the snapped value lands between it and the clamped original: what the
      clamps let through for the one they let through for the other. */
  lemma {:induction false} ClampedBetween(value: real, a: real, minValue: real, maxValue: real, allowLesser: bool,
                                          allowGreater: bool)
    requires minValue <= maxValue
    ensures var c := Clamped(value, minValue, maxValue, allowLesser, allowGreater);
            var c2 := Clamped(a, minValue, maxValue, allowLesser, allowGreater);
            (a <= c ==> a <= c2 <= c) && (c <= a ==> c <= c2 <= a)
  {
  }

  /** A point between x and the integer x rounds to rounds to the same integer. */
  lemma {:induction false} RoundBetween(x: real, y: real, k: int)
    requires RoundHalfEven(x) == k
    requires (k as real <= y <= x) || (x <= y <= k as real)
    ensures RoundHalfEven(y) == k
  {
    if y == x {
    } else if k as real <= y {
      // y < x <= k + 1/2, so y - k < 1/2.
      assert y - k as real < 0.5;
      assert y.Floor == k;
    } else {
      // k - 1/2 <= x < y < k, so k - y < 1/2.
      assert k as real - y < 0.5;
      assert y.Floor == k - 1;
    }
  }

  /** k within half of c / step: k * step within half a step of c. */
  lemma {:induction false} NearMultiple(c: real, step: real, k: real)
    requires step > 0.0 && k - 0.5 <= c / step <= k + 0.5
    ensures c - step / 2.0 <= k * step <= c + step / 2.0
  {
    var q := c / step;
    assert q * step == c;
    ProductNonNegative(q - k + 0.5, step);
    assert (q - k + 0.5) * step == q * step - k * step + step / 2.0;
    ProductNonNegative(k + 0.5 - q, step);
    assert (k + 0.5 - q) * step == k * step - q * step + step / 2.0;
  }

  lemma ProductNonNegative(x: real, y: real)
    requires x >= 0.0 && y > 0.0
    ensures x * y >= 0.0
  {
  }

  lemma QuotientInUnit(a: real, w: real)
    requires 0.0 <= a <= w && w > 0.0
    ensures 0.0 <= a / w <= 1.0
  {
  }

  lemma DivideBack(k: real, step: real)
    requires step > 0.0
    ensures (k * step) / step == k
  {
  }

  lemma DivideMonotone(x: real, y: real, step: real)
    requires x <= y && step > 0.0
    ensures x / step <= y / step
  {
  }

  /** A value within the bounds has a ratio within [0, 1], 0 at min and 1 at max. */
  lemma {:induction false} RatioInUnit(value: real, minValue: real, maxValue: real)
    requires minValue < maxValue && minValue <= value <= maxValue
    ensures 0.0 <= RatioOf(value, minValue, maxValue) <= 1.0
    ensures value == minValue ==> RatioOf(value, minValue, maxValue) == 0.0
    ensures value == maxValue ==> RatioOf(value, minValue, maxValue) == 1.0
  {
    QuotientInUnit(value - minValue, maxValue - minValue);
  }
}
