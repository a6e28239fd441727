/**
 * `MonetaryLabel.animateUp` / `animateDown`: the odometer roll of one digit
 * label. Each planner turns a (from, to) digit pair into the ordered list of
 * steps it schedules: step k fires `k * duration / steps` after the update
 * and shows one digit. The CoreAnimation push transition that accompanies
 * each step is cosmetic and not modelled.
 */
module Rolls {
  import opened Text

  /** One scheduled step of a roll: when it fires and which digit it shows. */
  datatype Step = Step(delay: real, digit: Digit)

  /** `x mod 10` for the values a roll passes through (the diff of two digits, lifted by at most 10). */
  function Mod10(x: int): (r: Digit)
    requires -10 <= x < 20
  {
    if x < 0 then x + 10 else if x < 10 then x else x - 10
  }

  /** Mod10 agrees with Euclidean `%`, so the roll counts are `(to - from) mod 10` and `(from - to) mod 10`. */
  lemma Mod10IsRemainder(x: int, from: Digit, to: Digit)
    requires -10 <= x < 20
    ensures Mod10(x) == x % 10
    ensures UpCount(from, to) == (to - from) % 10
    ensures DownCount(from, to) == (from - to) % 10
  {
  }

  /** Number of upward steps: the cyclic distance from `from` up to `to`. */
  function UpCount(from: Digit, to: Digit): (n: nat)
    ensures n < 10 && (from + n == to || from + n == to + 10)
    ensures n == 0 <==> from == to
  {
    Mod10(to - from)
  }

  /** Number of downward steps: the cyclic distance from `from` down to `to`. */
  function DownCount(from: Digit, to: Digit): (n: nat)
    ensures n < 10 && (to + n == from || to + n == from + 10)
    ensures n == 0 <==> from == to
  {
    Mod10(from - to)
  }

  /** Reference plan of an upward roll: step k shows `(from + k + 1) mod 10`. */
  function RollUp(duration: real, from: Digit, to: Digit): seq<Step>
  {
    var n := UpCount(from, to);
    seq(n, k requires 0 <= k < n => Step(duration / n as real * k as real, Mod10(from + k + 1)))
  }

  /** Reference plan of a downward roll: step k shows `(from - 1 - k) mod 10`. */
  function RollDown(duration: real, from: Digit, to: Digit): seq<Step>
  {
    var n := DownCount(from, to);
    seq(n, k requires 0 <= k < n => Step(duration / n as real * k as real, Mod10(from - 1 - k)))
  }

  /**
   * animateUp: `to` is lifted by 10 when it is below `from`; equal digits
   * schedule nothing and answer false; otherwise one step per digit passed,
   * each showing the last decimal digit of the value reached.
   */
  method AnimateUp(duration: real, from: Digit, to: Digit) returns (animated: bool, steps: seq<Step>)
    ensures animated <==> from != to
    ensures |steps| == UpCount(from, to)
    ensures animated ==> 1 <= |steps| <= 9 && steps[|steps| - 1].digit == to
    ensures steps == RollUp(duration, from, to)
  {
    var finalTo := to;
    if to < from {
      finalTo := finalTo + 10;
    }
    if finalTo == from {
      return false, [];
    }
    ghost var plan := RollUp(duration, from, to);
    assert finalTo - from == |plan|;
    var singleDelay := duration / (finalTo - from) as real;
    assert singleDelay == duration / |plan| as real;
    var currentIteration := 0;
    steps := [];
    for i: int := from to finalTo
      invariant currentIteration == i - from
      invariant steps == plan[..currentIteration]
    {
      var current := i + 1;
      // String(current).last! is the last decimal digit of current
      var step := Step(singleDelay * currentIteration as real, Mod10(current));
      assert step == plan[currentIteration];
      steps := steps + [step];
      currentIteration := currentIteration + 1;
    }
    animated := true;
    assert steps == plan;
    RollUpReachesTarget(duration, from, to);
  }

  /**
   * animateDown: `from` is lifted by 10 when it is below `to`; equal digits
   * schedule nothing and answer false; otherwise the values from the lifted
   * `from` minus one down to `to` are shown in descending order.
   */
  method AnimateDown(duration: real, from: Digit, to: Digit) returns (animated: bool, steps: seq<Step>)
    ensures animated <==> from != to
    ensures |steps| == DownCount(from, to)
    ensures animated ==> 1 <= |steps| <= 9 && steps[|steps| - 1].digit == to
    ensures steps == RollDown(duration, from, to)
  {
    var finalFrom := from;
    if finalFrom < to {
      finalFrom := finalFrom + 10;
    }
    if finalFrom == to {
      return false, [];
    }
    ghost var plan := RollDown(duration, from, to);
    assert finalFrom - to == |plan|;
    var singleDelay := duration / (finalFrom - to) as real;
    assert singleDelay == duration / |plan| as real;
    var currentIteration := 0;
    steps := [];
    for i: int := finalFrom downto to
      invariant currentIteration == finalFrom - i
      invariant steps == plan[..currentIteration]
    {
      // String(i).last! is the last decimal digit of i
      var step := Step(singleDelay * currentIteration as real, Mod10(i));
      assert i == from - 1 - currentIteration || i == from + 9 - currentIteration;
      assert Mod10(i) == Mod10(from - 1 - currentIteration);
      assert step == plan[currentIteration];
      steps := steps + [step];
      currentIteration := currentIteration + 1;
    }
    animated := true;
    assert steps == plan;
    RollDownReachesTarget(duration, from, to);
  }

  /**
   * An upward roll moves one digit up per step, never shows `to` before its
   * last step, and ends on `to`.
   */
  lemma RollUpReachesTarget(duration: real, from: Digit, to: Digit)
    ensures var steps := RollUp(duration, from, to);
      && (steps == [] <==> from == to)
      && (steps != [] ==> steps[0].digit == Mod10(from + 1) && steps[|steps| - 1].digit == to)
      && (forall k :: 0 <= k < |steps| - 1 ==> steps[k + 1].digit == Mod10(steps[k].digit + 1))
      && (forall k :: 0 <= k < |steps| - 1 ==> steps[k].digit != to)
  {
    var steps := RollUp(duration, from, to);
    var n := |steps|;
    forall k | 0 <= k < n
      ensures steps[k].digit == Mod10(from + k + 1)
      ensures k < n - 1 ==> steps[k].digit != to
      ensures k < n - 1 ==> steps[k + 1].digit == Mod10(steps[k].digit + 1)
    {
      if k < n - 1 {
        assert steps[k + 1].digit == Mod10(from + k + 2);
      }
    }
  }

  /** A downward roll moves one digit down per step, never shows `to` early, and ends on `to`. */
  lemma RollDownReachesTarget(duration: real, from: Digit, to: Digit)
    ensures var steps := RollDown(duration, from, to);
      && (steps == [] <==> from == to)
      && (steps != [] ==> steps[0].digit == Mod10(from + 9) && steps[|steps| - 1].digit == to)
      && (forall k :: 0 <= k < |steps| - 1 ==> steps[k + 1].digit == Mod10(steps[k].digit + 9))
      && (forall k :: 0 <= k < |steps| - 1 ==> steps[k].digit != to)
  {
    var steps := RollDown(duration, from, to);
    var n := |steps|;
    forall k | 0 <= k < n
      ensures steps[k].digit == Mod10(from - 1 - k)
      ensures k < n - 1 ==> steps[k].digit != to
      ensures k < n - 1 ==> steps[k + 1].digit == Mod10(steps[k].digit + 9)
    {
      if k < n - 1 {
        assert steps[k + 1].digit == Mod10(from - 2 - k);
      }
    }
  }

  /**
   * The steps of any plan fire in increasing order, the first at once, all
   * strictly within a positive duration, and the last one sub-interval
   * before the duration ends.
   */
  lemma {:induction false} StepsWithinDuration(duration: real, steps: seq<Step>)
    requires duration > 0.0
    requires forall k :: 0 <= k < |steps| ==> steps[k].delay == duration / |steps| as real * k as real
    ensures steps != [] ==> steps[0].delay == 0.0
    ensures steps != [] ==> steps[|steps| - 1].delay + duration / |steps| as real == duration
    ensures forall k :: 0 <= k < |steps| ==> 0.0 <= steps[k].delay < duration
    ensures forall k, l :: 0 <= k < l < |steps| ==> steps[k].delay < steps[l].delay
  {
    forall k | 0 <= k < |steps|
      ensures 0.0 <= steps[k].delay < duration
    {
      StepWithin(duration, steps, k);
    }
    forall k, l | 0 <= k < l < |steps|
      ensures steps[k].delay < steps[l].delay
    {
      StepOrder(duration, steps, k, l);
    }
    if steps != [] {
      StepEnds(duration, steps);
    }
  }

  /** Step k of a plan fires within the duration. */
  lemma StepWithin(duration: real, steps: seq<Step>, k: nat)
    requires duration > 0.0 && k < |steps|
    requires steps[k].delay == duration / |steps| as real * k as real
    ensures 0.0 <= steps[k].delay < duration
  {
    DelayWithin(duration, |steps|, k);
  }

  /** Step k of a plan fires before step l when k < l. */
  lemma StepOrder(duration: real, steps: seq<Step>, k: nat, l: nat)
    requires duration > 0.0 && k < l < |steps|
    requires steps[k].delay == duration / |steps| as real * k as real
    requires steps[l].delay == duration / |steps| as real * l as real
    ensures steps[k].delay < steps[l].delay
  {
    DelayOrder(duration, |steps|, k, l);
  }

  /** The first step of a plan fires at once, the last one sub-interval before the end. */
  lemma StepEnds(duration: real, steps: seq<Step>)
    requires steps != []
    requires steps[0].delay == duration / |steps| as real * 0 as real
    requires steps[|steps| - 1].delay == duration / |steps| as real * (|steps| - 1) as real
    ensures steps[0].delay == 0.0
    ensures steps[|steps| - 1].delay + duration / |steps| as real == duration
  {
    DelayEnd(duration, |steps|);
  }

  /** The k-th of n equal sub-intervals of a duration starts no later than the l-th, and strictly earlier when k < l. */
  lemma DelayOrder(duration: real, n: nat, k: nat, l: nat)
    requires duration > 0.0 && n > 0 && k <= l
    ensures duration / n as real * k as real <= duration / n as real * l as real
    ensures k < l ==> duration / n as real * k as real < duration / n as real * l as real
  {
    var single := duration / n as real;
    assert single > 0.0;
    ScaledOrder(single, k as real, l as real);
  }

  /** The k-th of n equal sub-intervals of a positive duration starts within it. */
  lemma DelayWithin(duration: real, n: nat, k: nat)
    requires duration > 0.0 && k < n
    ensures 0.0 <= duration / n as real * k as real < duration
  {
    DelayOrder(duration, n, 0, k);
    DelayOrder(duration, n, k, n);
    DelayEnd(duration, n);
  }

  /** Scaling by a positive factor keeps the order of two reals. */
  lemma ScaledOrder(c: real, a: real, b: real)
    requires c > 0.0
    ensures a < b ==> c * a < c * b
    ensures a <= b ==> c * a <= c * b
  {
  }

  /** n sub-intervals make up the duration: the first starts at 0, the last one sub-interval before the end. */
  lemma DelayEnd(duration: real, n: nat)
    requires n > 0
    ensures duration / n as real * 0 as real == 0.0
    ensures duration / n as real * n as real == duration
    ensures duration / n as real * (n - 1) as real + duration / n as real == duration
  {
    var single := duration / n as real;
    assert single * n as real == duration;
    assert single * (n - 1) as real + single == single * n as real;
  }

  /** An upward roll's steps fire in order, all within a positive duration. */
  lemma RollUpWithinDuration(duration: real, from: Digit, to: Digit)
    requires duration > 0.0
    ensures var steps := RollUp(duration, from, to);
      && (forall k :: 0 <= k < |steps| ==> 0.0 <= steps[k].delay < duration)
      && (forall k, l :: 0 <= k < l < |steps| ==> steps[k].delay < steps[l].delay)
  {
    var steps := RollUp(duration, from, to);
    assert forall k :: 0 <= k < |steps| ==> steps[k].delay == duration / |steps| as real * k as real;
    StepsWithinDuration(duration, steps);
  }

  /** A downward roll's steps fire in order, all within a positive duration. */
  lemma RollDownWithinDuration(duration: real, from: Digit, to: Digit)
    requires duration > 0.0
    ensures var steps := RollDown(duration, from, to);
      && (forall k :: 0 <= k < |steps| ==> 0.0 <= steps[k].delay < duration)
      && (forall k, l :: 0 <= k < l < |steps| ==> steps[k].delay < steps[l].delay)
  {
    var steps := RollDown(duration, from, to);
    assert forall k :: 0 <= k < |steps| ==> steps[k].delay == duration / |steps| as real * k as real;
    StepsWithinDuration(duration, steps);
  }
}
