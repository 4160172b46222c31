/** One per-team window: a column filled from the bottom to the team's share
    of the clamped total, animated over one second whenever the team's
    record changes. */
module TeamWindow {
  import opened Python
  import opened Teams
  import opened Animation

  /** What one frame draws: the filled fraction of the window height and the
      caption. */
  datatype Fill = Fill(fraction: real, caption: string, color: Rgb)

  class TeamWindow {
    /** Position of the shown team in teams.json. */
    const index: nat
    /** The record seen last, None before the first successful read. */
    var team: Option<Team>
    /** The share the running animation starts from. */
    var prevPercentage: real
    /** Start of the running animation, None when none runs. */
    var start: Option<real>

    /** Every share a window keeps lies in [0, 1]. */
    ghost predicate Valid()
      reads this
    {
      0.0 <= prevPercentage <= 1.0
    }

    constructor (index: nat)
      ensures this.index == index && team.None? && prevPercentage == 0.0 && start.None? && Valid()
    {
      this.index := index;
      team := None;
      prevPercentage := 0.0;
      start := None;
    }

    /** One frame. A failed read, or a file with no team at this window's
        position, skips the frame. A record different from the last one
        restarts the animation from the kept share (from the current share on
        the very first record); the column shows the interpolated share; a
        finished animation makes the current share the new starting point. */
    method Frame(polled: Option<seq<Team>>, now: real) returns (fill: Option<Fill>)
      requires Valid()
      modifies this
      ensures Valid()
      ensures polled.None? || index >= |polled.value| ==>
                fill.None? && team == old(team) && prevPercentage == old(prevPercentage) && start == old(start)
      ensures polled.Some? && index < |polled.value| ==>
                var teams := polled.value;
                var current := Share(teams, index);
                var changed := old(team) != Some(teams[index]);
                var from := if changed && old(team).None? then current else old(prevPercentage);
                var clock := if changed then Some(now) else old(start);
                var t := FrameProgress(clock, now);
                && team == Some(teams[index])
                && fill == Some(Fill(if clock.Some? then Interp(from, current, t) else current,
                                     LabelText(teams[index]), teams[index].color))
                && (clock.Some? && t >= 1.0 ==> start.None? && prevPercentage == current)
                && (!(clock.Some? && t >= 1.0) ==> start == clock && prevPercentage == from)
      ensures fill.Some? && (old(start).Some? ==> now >= old(start).value) ==> 0.0 <= fill.value.fraction <= 1.0
    {
      if polled.None? || index >= |polled.value| {
        return None;
      }
      var teams := polled.value;
      var currentTeam := teams[index];
      var total := ShareDivisor(teams);
      var currentScore := Clamp(currentTeam.score);
      var currentPercentage := currentScore as real / total as real;
      ShareBounds(teams, index);
      if team != Some(currentTeam) {
        prevPercentage := if team.Some? then prevPercentage else currentPercentage;
        team := Some(currentTeam);
        start := Some(now);
      }
      var t := 1.0;
      var interp := currentPercentage;
      if start.Some? {
        t := Progress(start.value, now);
        interp := Interp(prevPercentage, currentPercentage, t);
        if now >= start.value {
          InterpBetween(prevPercentage, currentPercentage, t);
        }
      }
      fill := Some(Fill(interp, LabelText(currentTeam), currentTeam.color));
      if start.Some? && t >= 1.0 {
        start := None;
        prevPercentage := currentPercentage;
      }
    }
  }
}
