/** The pie-chart overlay: each frame recomputes the cumulative target angle
    of every team from the live scores and moves every displayed angle toward
    its target by at most 5 degrees. Angles are exact rationals here. */
module PieChart {
  import opened Python
  import opened Teams

  /** Degrees an angle may move in one frame. */
  const AnimationSpeed: real := 5.0

  /** The share of team k of the full circle, in degrees. */
  function ShareAngle(teams: seq<Team>, k: nat): real
    requires k < |teams|
  {
    Share(teams, k) * 360.0
  }

  /** The end angle of team k's slice: teams 0..k's clamped scores as a
      fraction of the whole circle, which never leaves [0, 360]. */
  function TargetAngle(teams: seq<Team>, k: nat): (r: real)
    requires k < |teams|
    ensures 0.0 <= r <= 360.0
  {
    ClampedSumPrefixMonotone(teams, k + 1, |teams|);
    assert teams[..|teams|] == teams;
    FractionOfCircle(ClampedSum(teams[..k + 1]), ShareDivisor(teams));
    ClampedSum(teams[..k + 1]) as real * 360.0 / ShareDivisor(teams) as real
  }

  /** A part of a whole, scaled to the circle, lies in [0, 360]. */
  lemma FractionOfCircle(part: int, whole: int)
    requires 0 <= part <= whole && whole >= 1
    ensures 0.0 <= part as real * 360.0 / whole as real <= 360.0
  {
    var x := part as real * 360.0 / whole as real;
    assert x * whole as real == part as real * 360.0;
    if x < 0.0 {
      MulPositive(-x, whole as real);
    }
    if x > 360.0 {
      MulPositive(x - 360.0, whole as real);
    }
  }

  lemma {:induction false} ShareAdd(a: int, b: int, d: int)
    requires d >= 1
    ensures a as real * 360.0 / d as real + (b as real / d as real) * 360.0 == (a + b) as real * 360.0 / d as real
  {
    var x, y := a as real / d as real, b as real / d as real;
    assert x * d as real == a as real;
    assert y * d as real == b as real;
    assert (x + y) * d as real == (a + b) as real;
  }

  lemma {:induction false} ScaleMonotone(a: int, b: int, d: int)
    requires d >= 1 && a <= b
    ensures a as real * 360.0 / d as real <= b as real * 360.0 / d as real
  {
    var x, y := a as real * 360.0 / d as real, b as real * 360.0 / d as real;
    assert x * d as real == a as real * 360.0;
    assert y * d as real == b as real * 360.0;
    assert (y - x) * d as real >= 0.0;
  }

  /** The next target adds the next team's share to the previous one. */
  lemma {:induction false} TargetStep(teams: seq<Team>, k: nat)
    requires k < |teams|
    ensures TargetAngle(teams, k) ==
      (if k == 0 then 0.0 else TargetAngle(teams, k - 1)) + ShareAngle(teams, k)
  {
    assert teams[..k + 1][..k] == teams[..k];
    assert ClampedSum(teams[..k + 1]) == ClampedSum(teams[..k]) + Clamp(teams[k].score);
    if k == 0 {
      assert teams[..0] == [];
    }
    ShareAdd(ClampedSum(teams[..k]), Clamp(teams[k].score), ShareDivisor(teams));
  }

  /** Target angles never decrease along the team list. */
  lemma {:induction false} TargetsNondecreasing(teams: seq<Team>, j: nat, k: nat)
    requires j <= k < |teams|
    ensures TargetAngle(teams, j) <= TargetAngle(teams, k)
  {
    ClampedSumPrefixMonotone(teams, j + 1, k + 1);
    ScaleMonotone(ClampedSum(teams[..j + 1]), ClampedSum(teams[..k + 1]), ShareDivisor(teams));
  }

  /** The last slice closes the circle at 360 degrees when some clamped score
      is positive, and stays at 0 otherwise. */
  lemma {:induction false} LastTarget(teams: seq<Team>)
    requires |teams| > 0
    ensures TargetAngle(teams, |teams| - 1) == if ClampedSum(teams) > 0 then 360.0 else 0.0
  {
    assert teams[..|teams|] == teams;
    var s := ClampedSum(teams) as real;
    if ClampedSum(teams) > 0 {
      assert s * 360.0 / s == 360.0;
    }
  }

  /** One frame of movement: toward the target by at most the animation
      speed, never past it. */
  function Step(current: real, target: real): (r: real)
    ensures current < target ==> current < r <= target
    ensures current > target ==> target <= r < current
    ensures current == target ==> r == current
    ensures r == target || r - current == AnimationSpeed || current - r == AnimationSpeed
  {
    if current < target then (if current + AnimationSpeed < target then current + AnimationSpeed else target)
    else if current > target then (if current - AnimationSpeed > target then current - AnimationSpeed else target)
    else current
  }

  /** The angle after n frames toward a fixed target. */
  function Steps(current: real, target: real, n: nat): real {
    if n == 0 then current else Step(Steps(current, target, n - 1), target)
  }

  /** While the target is at least 5n degrees ahead, n frames advance the
      angle by exactly 5n. */
  lemma {:induction false} StepsAdvance(current: real, target: real, n: nat)
    requires current + AnimationSpeed * n as real <= target
    ensures Steps(current, target, n) == current + AnimationSpeed * n as real
  {
    if n > 0 {
      StepsAdvance(current, target, n - 1);
    }
  }

  /** A target 90 degrees ahead is reached in exactly 18 frames, through
      strictly increasing angles that never pass it. */
  lemma {:induction false} NinetyDegreesInEighteenFrames(current: real, target: real)
    requires target == current + 90.0
    ensures Steps(current, target, 18) == target
    ensures forall n :: 0 <= n < 18 ==> Steps(current, target, n) == current + 5.0 * n as real
  {
    StepsAdvance(current, target, 18);
    forall n | 0 <= n < 18
      ensures Steps(current, target, n) == current + 5.0 * n as real
    {
      StepsAdvance(current, target, n);
    }
  }

  /** The overlay's animation state: displayed and target end angles, one per
      team of the first read. */
  class PieChart {
    var current: seq<real>
    var target: seq<real>

    ghost predicate Valid()
      reads this
    {
      |current| == |target|
    }

    /** Both lists start as n zeros. */
    constructor (n: nat)
      ensures Valid() && |current| == n
      ensures forall i :: 0 <= i < n ==> current[i] == 0.0 && target[i] == 0.0
    {
      current := seq(n, _ => 0.0);
      target := seq(n, _ => 0.0);
    }

    /** One frame. A failed read skips the frame. Otherwise the target of
        every polled team is recomputed in order; fewer teams than the first
        read leave the remaining targets as they were, while more raise
        IndexError once the targets run out, which ends the overlay with the
        angles not stepped. Without that, every displayed angle takes one step
        toward its target. */
    method Frame(polled: Option<seq<Team>>) returns (ended: bool)
      requires Valid()
      modifies this
      ensures Valid() && |target| == |old(target)| && |current| == |old(current)|
      ensures ended <==> polled.Some? && |polled.value| > |old(target)|
      ensures polled.None? ==> current == old(current) && target == old(target)
      ensures polled.Some? ==>
                forall k :: 0 <= k < |polled.value| && k < |target| ==> target[k] == TargetAngle(polled.value, k)
      ensures polled.Some? ==> forall k :: |polled.value| <= k < |target| ==> target[k] == old(target)[k]
      ensures ended ==> current == old(current)
      ensures polled.Some? && !ended ==> forall k :: 0 <= k < |current| ==> current[k] == Step(old(current)[k], target[k])
    {
      if polled.None? {
        return false;
      }
      var teams := polled.value;
      var total := ShareDivisor(teams);
      var start := 0.0;
      var i := 0;
      while i < |teams|
        invariant 0 <= i <= |teams| && i <= |target| == |old(target)| && current == old(current)
        invariant i > 0 ==> start == TargetAngle(teams, i - 1)
        invariant i == 0 ==> start == 0.0
        invariant forall k :: 0 <= k < i ==> target[k] == TargetAngle(teams, k)
        invariant forall k :: i <= k < |target| ==> target[k] == old(target)[k]
      {
        var percentage := Clamp(teams[i].score) as real / total as real;
        assert percentage == Share(teams, i);
        TargetStep(teams, i);
        if i == |target| {
          return true;
        }
        target := target[i := start + percentage * 360.0];
        start := target[i];
        i := i + 1;
      }
      i := 0;
      ghost var targets := target;
      while i < |current|
        invariant 0 <= i <= |current| == |old(current)| == |target| && target == targets
        invariant forall k :: 0 <= k < i ==> current[k] == Step(old(current)[k], target[k])
        invariant forall k :: i <= k < |current| ==> current[k] == old(current)[k]
      {
        current := current[i := Step(current[i], target[i])];
        i := i + 1;
      }
      ended := false;
    }
  }
}
