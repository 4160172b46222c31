/** The one-second animation shared by the main window and the team windows:
    progress from the clock, and linear interpolation between two snapshots. */
module Animation {
  import opened Python

  /** Seconds an animation lasts. */
  const AnimationDuration: real := 1.0

  /** Animation progress `min(elapsed / duration, 1)`. */
  function Progress(start: real, now: real): (t: real)
    ensures t <= 1.0
    ensures now >= start ==> 0.0 <= t
    ensures now == start ==> t == 0.0
    ensures now - start >= AnimationDuration ==> t == 1.0
    ensures now - start < AnimationDuration ==> t < 1.0
  {
    var elapsed := (now - start) / AnimationDuration;
    if elapsed < 1.0 then elapsed else 1.0
  }

  /** Progress of a frame: 1 when no animation is running. */
  function FrameProgress(start: Option<real>, now: real): (t: real)
    ensures t <= 1.0
    ensures start.None? ==> t == 1.0
    ensures start.Some? && now >= start.value ==> 0.0 <= t
  {
    if start.Some? then Progress(start.value, now) else 1.0
  }

  /** Linear interpolation from a (t = 0) to b (t = 1). */
  function Interp(a: real, b: real, t: real): real {
    a + (b - a) * t
  }

  /** Interpolation at progress in [0, 1] stays between its two ends. */
  lemma {:induction false} InterpBetween(a: real, b: real, t: real)
    requires 0.0 <= t <= 1.0
    ensures a <= b ==> a <= Interp(a, b, t) <= b
    ensures b <= a ==> b <= Interp(a, b, t) <= a
  {
    MulNonNegative(if a <= b then b - a else a - b, t);
    MulNonNegative(if a <= b then b - a else a - b, 1.0 - t);
    assert Interp(a, b, t) == b - (b - a) * (1.0 - t);
  }
}
