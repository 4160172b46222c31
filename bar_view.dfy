/** The main projector window: a stacked bar of team widths proportional to
    the scores, animated over one second from the previous snapshot to the
    current one, with each label shrunk until it fits its bar. */
module BarView {
  import opened Python
  import opened Teams
  import opened Animation

  const MaxFontSize: int := 100
  const MinFontSize: int := 10

  /** Width of one bar: the interpolated clamped score over the interpolated
      total, times the screen width; 0 when the interpolated total is 0. The
      two totals are each snapshot's clamped total floored to 1, interpolated
      on their own rather than summed from the interpolated scores. */
  function BarWidth(prevScore: real, curScore: real, prevTotal: real, curTotal: real, t: real, screenWidth: int): real {
    var total := Interp(prevTotal, curTotal, t);
    if total == 0.0 then 0.0 else Interp(prevScore, curScore, t) / total * screenWidth as real
  }

  /** Interpolating between two values of at least 1 stays at least 1. */
  lemma {:induction false} InterpAtLeastOne(p: real, c: real, t: real)
    requires p >= 1.0 && c >= 1.0 && 0.0 <= t <= 1.0
    ensures Interp(p, c, t) >= 1.0
  {
    if c >= p {
      MulNonNegative(c - p, t);
    } else {
      var d, u := p - c, 1.0 - t;
      MulNonNegative(d, u);
      assert (c - p) * t == d * u - d;
      assert Interp(p, c, t) == c + d * u;
    }
  }

  /** Within the animation the zero guard never fires, and the width is the
      interpolated score times the pixels per point of interpolated total. */
  lemma {:induction false} BarWidthScaled(prevScore: real, curScore: real, prevTotal: real, curTotal: real, t: real, screenWidth: int)
    requires prevTotal >= 1.0 && curTotal >= 1.0 && 0.0 <= t <= 1.0
    ensures Interp(prevTotal, curTotal, t) >= 1.0
    ensures BarWidth(prevScore, curScore, prevTotal, curTotal, t, screenWidth) ==
              Interp(prevScore, curScore, t) * (screenWidth as real / Interp(prevTotal, curTotal, t))
  {
    InterpAtLeastOne(prevTotal, curTotal, t);
    var total, w := Interp(prevTotal, curTotal, t), screenWidth as real;
    var x := Interp(prevScore, curScore, t);
    var q := x / total;
    assert q * total == x;
    assert (w / total) * total == w;
    assert q * w == x * (w / total) by {
      assert q * w * total == x * w;
      assert x * (w / total) * total == x * w;
    }
  }

  /** At the end of the animation a bar's width is the current share of the
      screen; at its start, the previous share. */
  lemma {:induction false} WidthAtEnds(prevScore: real, curScore: real, prevTotal: real, curTotal: real, screenWidth: int)
    requires prevTotal >= 1.0 && curTotal >= 1.0
    ensures BarWidth(prevScore, curScore, prevTotal, curTotal, 1.0, screenWidth) == curScore / curTotal * screenWidth as real
    ensures BarWidth(prevScore, curScore, prevTotal, curTotal, 0.0, screenWidth) == prevScore / prevTotal * screenWidth as real
  {
    assert Interp(prevTotal, curTotal, 1.0) == curTotal;
    assert Interp(prevScore, curScore, 1.0) == curScore;
  }

  /** The width of bar i of a frame, from the snapshots' floored totals. */
  function TeamWidth(prev: seq<Team>, cur: seq<Team>, i: nat, t: real, screenWidth: int): real
    requires i < |cur| && i < |prev|
  {
    BarWidth(Clamp(prev[i].score) as real, Clamp(cur[i].score) as real,
             ShareDivisor(prev) as real, ShareDivisor(cur) as real, t, screenWidth)
  }

  /** The clamped scores of a snapshot, as the drawing loop reads them. */
  function Scores(teams: seq<Team>): (r: seq<real>)
    ensures |r| == |teams|
    ensures forall i :: 0 <= i < |teams| ==> r[i] == Clamp(teams[i].score) as real
  {
    seq(|teams|, i requires 0 <= i < |teams| => Clamp(teams[i].score) as real)
  }

  function PrefixSum(s: seq<real>, n: nat): real
    requires n <= |s|
  {
    if n == 0 then 0.0 else PrefixSum(s, n - 1) + s[n - 1]
  }

  /** The first n clamped scores add up to the clamped total of the first n
      teams. */
  lemma {:induction false} PrefixSumOfScores(teams: seq<Team>, n: nat)
    requires n <= |teams|
    ensures PrefixSum(Scores(teams), n) == ClampedSum(teams[..n]) as real
  {
    if n == 0 {
      assert teams[..0] == [];
    } else {
      PrefixSumOfScores(teams, n - 1);
      ClampedSumLast(teams, n);
    }
  }

  /** The sum of the first n bar widths for given scores and floored totals:
      the `x_offset` of bar n. */
  function Offset(prevScores: seq<real>, curScores: seq<real>, prevTotal: real, curTotal: real,
                  t: real, screenWidth: int, n: nat): real
    requires n <= |curScores| && n <= |prevScores|
  {
    if n == 0 then 0.0
    else Offset(prevScores, curScores, prevTotal, curTotal, t, screenWidth, n - 1) +
         BarWidth(prevScores[n - 1], curScores[n - 1], prevTotal, curTotal, t, screenWidth)
  }

  /** The offset of bar n of a frame. */
  function WidthsUpTo(prev: seq<Team>, cur: seq<Team>, t: real, screenWidth: int, n: nat): real
    requires n <= |cur| && n <= |prev|
  {
    Offset(Scores(prev), Scores(cur), ShareDivisor(prev) as real, ShareDivisor(cur) as real, t, screenWidth, n)
  }

  /** Interpolation commutes with adding up scores. */
  lemma InterpAdd(p0: real, c0: real, p1: real, c1: real, t: real, k: real)
    ensures Interp(p0, c0, t) * k + Interp(p1, c1, t) * k == Interp(p0 + p1, c0 + c1, t) * k
  {
    assert Interp(p0, c0, t) + Interp(p1, c1, t) == Interp(p0 + p1, c0 + c1, t);
  }

  /** The first n widths together are the interpolated prefix totals times
      the pixels per point of interpolated total. */
  lemma {:induction false} OffsetIsShare(prevScores: seq<real>, curScores: seq<real>, prevTotal: real, curTotal: real,
                                         t: real, screenWidth: int, n: nat)
    requires n <= |curScores| && n <= |prevScores| && prevTotal >= 1.0 && curTotal >= 1.0 && 0.0 <= t <= 1.0
    ensures Interp(prevTotal, curTotal, t) >= 1.0
    ensures Offset(prevScores, curScores, prevTotal, curTotal, t, screenWidth, n) ==
              Interp(PrefixSum(prevScores, n), PrefixSum(curScores, n), t) *
              (screenWidth as real / Interp(prevTotal, curTotal, t))
  {
    InterpAtLeastOne(prevTotal, curTotal, t);
    if n == 0 {
      assert Interp(0.0, 0.0, t) == 0.0;
    } else {
      OffsetIsShare(prevScores, curScores, prevTotal, curTotal, t, screenWidth, n - 1);
      BarWidthScaled(prevScores[n - 1], curScores[n - 1], prevTotal, curTotal, t, screenWidth);
      InterpAdd(PrefixSum(prevScores, n - 1), PrefixSum(curScores, n - 1), prevScores[n - 1], curScores[n - 1], t,
                screenWidth as real / Interp(prevTotal, curTotal, t));
    }
  }

  /** When both snapshots have a positive clamped total and the same number
      of teams, the bars fill the screen width exactly at every point of the
      animation. */
  lemma {:induction false} WidthsFillScreen(prev: seq<Team>, cur: seq<Team>, t: real, screenWidth: int)
    requires |prev| == |cur| && 0.0 <= t <= 1.0
    requires ClampedSum(prev) > 0 && ClampedSum(cur) > 0
    ensures WidthsUpTo(prev, cur, t, screenWidth, |cur|) == screenWidth as real
  {
    var pt, ct := ShareDivisor(prev) as real, ShareDivisor(cur) as real;
    var n, ps, cs := |cur|, Scores(prev), Scores(cur);
    OffsetIsShare(ps, cs, pt, ct, t, screenWidth, n);
    ScoresAddUpToDivisor(prev);
    ScoresAddUpToDivisor(cur);
    ScaleBack(Interp(pt, ct, t), screenWidth as real);
  }

  /** With a positive clamped total, all the clamped scores add up to the
      divisor of the shares. */
  lemma ScoresAddUpToDivisor(teams: seq<Team>)
    requires ClampedSum(teams) > 0
    ensures PrefixSum(Scores(teams), |teams|) == ShareDivisor(teams) as real
  {
    PrefixSumOfScores(teams, |teams|);
    assert teams[..|teams|] == teams;
  }

  lemma ScaleBack(total: real, w: real)
    requires total >= 1.0
    ensures total * (w / total) == w
  {
  }

  /** Measured size `(width, height)` of a text rendered at a font size; an
      abstraction of the font renderer. */
  type Measure = (string, int) -> (int, int)

  predicate Fits(measure: Measure, text: string, size: int, width: real, height: int) {
    measure(text, size).0 as real <= width && measure(text, size).1 <= height
  }

  /** The largest font size from 100 down to 10 at which the text fits the
      rectangle, or None when none does. */
  method FitFont(measure: Measure, text: string, width: real, height: int) returns (size: Option<int>)
    ensures size.Some? ==> MinFontSize <= size.value <= MaxFontSize && Fits(measure, text, size.value, width, height)
    ensures size.Some? ==> forall s :: size.value < s <= MaxFontSize ==> !Fits(measure, text, s, width, height)
    ensures size.None? ==> forall s :: MinFontSize <= s <= MaxFontSize ==> !Fits(measure, text, s, width, height)
  {
    var fontSize := MaxFontSize;
    while fontSize >= MinFontSize
      invariant MinFontSize - 1 <= fontSize <= MaxFontSize
      invariant forall s :: fontSize < s <= MaxFontSize ==> !Fits(measure, text, s, width, height)
    {
      if Fits(measure, text, fontSize, width, height) {
        return Some(fontSize);
      }
      fontSize := fontSize - 1;
    }
    return None;
  }

  datatype Caption = Drawn(size: int, x: real, y: real) | TooSmall
  datatype Bar = Bar(x: real, width: real, caption: Caption)
  /** An entry of the side list for labels that fit nowhere. */
  datatype SmallArea = SmallArea(name: string, score: int)

  /** `caption` is the outcome of the shrink-to-fit search for a bar at `x` of
      the given width: the largest fitting size with the text centred, or
      TooSmall when no size in 10..100 fits. */
  ghost predicate BestCaption(caption: Caption, measure: Measure, text: string, x: real, width: real, height: int) {
    match caption
    case Drawn(size, lx, ly) =>
      && MinFontSize <= size <= MaxFontSize && Fits(measure, text, size, width, height)
      && (forall s :: size < s <= MaxFontSize ==> !Fits(measure, text, s, width, height))
      && lx == x + (width - measure(text, size).0 as real) / 2.0
      && ly == (height - measure(text, size).1) as real / 2.0
    case TooSmall =>
      forall s :: MinFontSize <= s <= MaxFontSize ==> !Fits(measure, text, s, width, height)
  }

  /** The shrink-to-fit search for one bar and the centred placement of the
      text when a size fits. */
  method PlaceCaption(measure: Measure, text: string, x: real, width: real, height: int) returns (caption: Caption)
    ensures BestCaption(caption, measure, text, x, width, height)
  {
    var size := FitFont(measure, text, width, height);
    if size.Some? {
      var (w, h) := measure(text, size.value);
      caption := Drawn(size.value, x + (width - w as real) / 2.0, (height - h) as real / 2.0);
    } else {
      caption := TooSmall;
    }
  }

  /** The side-list entries of the first n bars, in bar order. */
  function SmallAreas(cur: seq<Team>, bars: seq<Bar>, n: nat): seq<SmallArea>
    requires n <= |cur| && n <= |bars|
  {
    if n == 0 then []
    else SmallAreas(cur, bars, n - 1) +
         (if bars[n - 1].caption.TooSmall? then [SmallArea(cur[n - 1].name, Clamp(cur[n - 1].score))] else [])
  }

  /** Adding bar n to the offset of bar n gives the offset of bar n + 1. */
  lemma WidthsUpToStep(prev: seq<Team>, cur: seq<Team>, t: real, screenWidth: int, n: nat)
    requires n < |cur| && n < |prev|
    ensures WidthsUpTo(prev, cur, t, screenWidth, n + 1) ==
              WidthsUpTo(prev, cur, t, screenWidth, n) + TeamWidth(prev, cur, n, t, screenWidth)
  {
  }

  /** Bar k of a layout has its frame's offset, its frame's width and the
      best caption for that rectangle. */
  ghost predicate BarPlaced(prev: seq<Team>, cur: seq<Team>, t: real, screenWidth: int, screenHeight: int,
                            measure: Measure, bar: Bar, k: nat)
    requires k < |cur| && k < |prev|
  {
    && bar.width == TeamWidth(prev, cur, k, t, screenWidth)
    && bar.x == WidthsUpTo(prev, cur, t, screenWidth, k)
    && BestCaption(bar.caption, measure, LabelText(cur[k]), bar.x, bar.width, screenHeight)
  }

  /** The drawing loop of one frame: each bar's offset and width, its label
      or its side-list entry, and the final `x_offset`. Previous teams are
      indexed by the current teams' positions (fewer would raise
      IndexError). */
  method BarLayout(prev: seq<Team>, cur: seq<Team>, t: real, screenWidth: int, screenHeight: int, measure: Measure)
    returns (bars: seq<Bar>, small: seq<SmallArea>, xEnd: real)
    requires |cur| <= |prev|
    ensures |bars| == |cur|
    ensures AllPlaced(prev, cur, t, screenWidth, screenHeight, measure, bars)
    ensures small == SmallAreas(cur, bars, |cur|)
    ensures xEnd == WidthsUpTo(prev, cur, t, screenWidth, |cur|)
  {
    var prevTotal, curTotal := ShareDivisor(prev) as real, ShareDivisor(cur) as real;
    bars, small, xEnd := [], [], 0.0;
    var i := 0;
    while i < |cur|
      invariant 0 <= i <= |cur| && |bars| == i
      invariant xEnd == WidthsUpTo(prev, cur, t, screenWidth, i)
      invariant AllPlaced(prev, cur, t, screenWidth, screenHeight, measure, bars)
      invariant small == SmallAreas(cur, bars, i)
    {
      var bar := PlaceBar(prev, cur, t, screenWidth, screenHeight, measure, prevTotal, curTotal, bars, xEnd);
      if bar.caption.TooSmall? {
        small := small + [SmallArea(cur[i].name, Clamp(cur[i].score))];
      }
      SmallAreasStep(cur, bars, bar);
      WidthsUpToStep(prev, cur, t, screenWidth, i);
      bars := bars + [bar];
      xEnd := xEnd + bar.width;
      i := i + 1;
    }
  }

  /** Every bar of a partial layout is placed. */
  ghost predicate AllPlaced(prev: seq<Team>, cur: seq<Team>, t: real, screenWidth: int, screenHeight: int,
                            measure: Measure, bars: seq<Bar>)
    requires |bars| <= |cur| <= |prev|
  {
    forall k :: 0 <= k < |bars| ==> BarPlaced(prev, cur, t, screenWidth, screenHeight, measure, bars[k], k)
  }

  /** Appending the next placed bar keeps every bar placed. */
  lemma BarsExtend(prev: seq<Team>, cur: seq<Team>, t: real, screenWidth: int, screenHeight: int, measure: Measure,
                   bars: seq<Bar>, bar: Bar)
    requires |bars| < |cur| <= |prev|
    requires AllPlaced(prev, cur, t, screenWidth, screenHeight, measure, bars)
    requires BarPlaced(prev, cur, t, screenWidth, screenHeight, measure, bar, |bars|)
    ensures AllPlaced(prev, cur, t, screenWidth, screenHeight, measure, bars + [bar])
  {
    forall k | 0 <= k <= |bars|
      ensures BarPlaced(prev, cur, t, screenWidth, screenHeight, measure, (bars + [bar])[k], k)
    {
      if k < |bars| {
        assert (bars + [bar])[k] == bars[k];
      }
    }
  }

  /** One pass of the drawing loop: the bar after the placed `bars`, at
      offset `x`, with its interpolated width and its caption. */
  method PlaceBar(prev: seq<Team>, cur: seq<Team>, t: real, screenWidth: int, screenHeight: int, measure: Measure,
                  prevTotal: real, curTotal: real, bars: seq<Bar>, x: real) returns (bar: Bar)
    requires |bars| < |cur| <= |prev|
    requires prevTotal == ShareDivisor(prev) as real && curTotal == ShareDivisor(cur) as real
    requires AllPlaced(prev, cur, t, screenWidth, screenHeight, measure, bars)
    requires x == WidthsUpTo(prev, cur, t, screenWidth, |bars|)
    ensures BarPlaced(prev, cur, t, screenWidth, screenHeight, measure, bar, |bars|)
    ensures AllPlaced(prev, cur, t, screenWidth, screenHeight, measure, bars + [bar])
  {
    var i := |bars|;
    var width := BarWidth(Clamp(prev[i].score) as real, Clamp(cur[i].score) as real, prevTotal, curTotal, t, screenWidth);
    var caption := PlaceCaption(measure, LabelText(cur[i]), x, width, screenHeight);
    bar := Bar(x, width, caption);
    BarsExtend(prev, cur, t, screenWidth, screenHeight, measure, bars, bar);
  }

  /** The side list of the first n bars depends only on those bars. */
  /** Appending a bar extends the side list by that bar's entry, if any. */
  lemma SmallAreasStep(cur: seq<Team>, bars: seq<Bar>, bar: Bar)
    requires |bars| < |cur|
    ensures SmallAreas(cur, bars + [bar], |bars| + 1) == SmallAreas(cur, bars, |bars|) +
              (if bar.caption.TooSmall? then [SmallArea(cur[|bars|].name, Clamp(cur[|bars|].score))] else [])
  {
    assert (bars + [bar])[..|bars|] == bars[..|bars|];
    SmallAreasPrefix(cur, bars, bars + [bar], |bars|);
    assert (bars + [bar])[|bars|] == bar;
  }

  lemma {:induction false} SmallAreasPrefix(cur: seq<Team>, a: seq<Bar>, b: seq<Bar>, n: nat)
    requires n <= |cur| && n <= |a| && n <= |b| && a[..n] == b[..n]
    ensures SmallAreas(cur, a, n) == SmallAreas(cur, b, n)
  {
    if n > 0 {
      assert a[..n - 1] == a[..n][..n - 1] && b[..n - 1] == b[..n][..n - 1];
      assert a[n - 1] == a[..n][n - 1];
      assert b[n - 1] == b[..n][n - 1];
      SmallAreasPrefix(cur, a, b, n - 1);
    }
  }

  datatype Drawing = Drawing(bars: seq<Bar>, small: seq<SmallArea>)

  /** The main window's state between frames: the last polled teams, the
      snapshot the animation starts from, and the animation start time (None
      when no animation runs). */
  class MainWindow {
    var teams: seq<Team>
    var prevTeams: seq<Team>
    var start: Option<real>

    ghost predicate Valid()
      reads this
    {
      |teams| <= |prevTeams|
    }

    /** Both snapshots start as the first read, with no animation. */
    constructor (initial: seq<Team>)
      ensures Valid() && teams == initial && prevTeams == initial && start.None?
    {
      teams := initial;
      prevTeams := initial;
      start := None;
    }

    /** One frame. A failed read skips the frame. A poll that differs from
        the last one makes the old `teams` the new baseline, restarts the
        clock and calls `update_sacn`, which raises IndexError for fewer than
        four teams; otherwise the strip is relit. The bars are then drawn at
        the frame's progress, which raises IndexError when the poll has more
        teams than the baseline. Either exception is outside any `try` and
        ends the window. A finished animation clears the clock and makes the
        current teams the baseline. The change test compares team records;
        hs.py:254 as written also compares the `width` keys of hs.py:302,
        which `UnchangedPollStillChangesAsWritten` exhibits. */
    method Frame(polled: Option<seq<Team>>, now: real, screenWidth: int, screenHeight: int, measure: Measure)
      returns (drawing: Option<Drawing>, relight: bool, ended: bool)
      requires Valid()
      modifies this
      ensures !ended ==> Valid()
      ensures polled.None? ==>
                && drawing.None? && !relight && !ended
                && teams == old(teams) && prevTeams == old(prevTeams) && start == old(start)
      ensures polled.Some? ==> teams == polled.value
      ensures relight <==> polled.Some? && polled.value != old(teams) && |polled.value| >= 4
      ensures ended <==>
                polled.Some? && polled.value != old(teams) && (|polled.value| < 4 || |polled.value| > |old(teams)|)
      ensures ended ==> drawing.None?
      ensures polled.Some? && polled.value != old(teams) ==> prevTeams == old(teams) && start == Some(now)
      ensures polled.Some? && polled.value == old(teams) && old(start).Some? && Progress(old(start).value, now) >= 1.0 ==>
                start.None? && prevTeams == teams
      ensures polled.Some? && polled.value == old(teams) && !(old(start).Some? && Progress(old(start).value, now) >= 1.0) ==>
                start == old(start) && prevTeams == old(prevTeams)
      ensures polled.Some? && !ended ==>
                var changed := polled.value != old(teams);
                var base := if changed then old(teams) else old(prevTeams);
                var t := FrameProgress(if changed then Some(now) else old(start), now);
                && drawing.Some? && |drawing.value.bars| == |teams|
                && (forall i :: 0 <= i < |teams| ==>
                      BarPlaced(base, teams, t, screenWidth, screenHeight, measure, drawing.value.bars[i], i))
                && drawing.value.small == SmallAreas(teams, drawing.value.bars, |teams|)
    {
      if polled.None? {
        return None, false, false;
      }
      var current := polled.value;
      relight, ended := false, false;
      if current != teams {
        prevTeams := teams;
        teams := current;
        start := Some(now);
        if |current| < 4 {
          return None, false, true;
        }
        relight := true;
        if |current| > |prevTeams| {
          return None, true, true;
        }
      }
      var t := FrameProgress(start, now);
      var bars, small, xEnd := BarLayout(prevTeams, teams, t, screenWidth, screenHeight, measure);
      drawing := Some(Drawing(bars, small));
      if start.Some? && t >= 1.0 {
        start := None;
        prevTeams := teams;
      }
    }
  }

  /** The snapshot as the loop at hs.py:283-302 keeps it: each polled team
      with the `width` key the loop adds (None before the first drawing). */
  datatype KeptTeam = KeptTeam(team: Team, width: Option<real>)

  /** Teams as `read_teams` returns them: no `width` key. */
  function AsRead(teams: seq<Team>): (r: seq<KeptTeam>)
    ensures |r| == |teams|
    ensures forall i :: 0 <= i < |teams| ==> r[i] == KeptTeam(teams[i], None)
  {
    seq(|teams|, i requires 0 <= i < |teams| => KeptTeam(teams[i], None))
  }

  /** The snapshot after the drawing loop wrote `team['width']`. */
  function AfterDrawing(kept: seq<KeptTeam>, widths: seq<real>): (r: seq<KeptTeam>)
    requires |widths| == |kept|
    ensures |r| == |kept|
    ensures forall i :: 0 <= i < |kept| ==> r[i] == kept[i].(width := Some(widths[i]))
  {
    seq(|kept|, i requires 0 <= i < |kept| => kept[i].(width := Some(widths[i])))
  }

  /** The change test of hs.py:254 as written: the fresh read against the
      kept snapshot, `width` keys included. */
  predicate ChangedAsWritten(polled: seq<Team>, kept: seq<KeptTeam>): (r: bool)
    ensures |polled| != |kept| ==> r
    ensures (exists i :: 0 <= i < |kept| && kept[i].width.Some?) ==> r
  {
    AsRead(polled) != kept
  }

  /** As written, the change test fires on every frame after the first
      drawing even when teams.json has not changed, because the kept dicts
      carry a `width` key the file does not have. */
  lemma {:induction false} UnchangedPollStillChangesAsWritten(teams: seq<Team>, widths: seq<real>)
    requires |teams| > 0 && |widths| == |teams|
    ensures ChangedAsWritten(teams, AfterDrawing(AsRead(teams), widths))
  {
    assert AsRead(teams)[0].width.None?;
    assert AfterDrawing(AsRead(teams), widths)[0].width.Some?;
  }
}
