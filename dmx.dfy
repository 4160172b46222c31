/** The sACN frame that `update_sacn` pushes to the LED strip: 133 RGB pixels,
    split into four fixed segments, one per team, each lit from its start in
    proportion to the team's share of the total score. */
module Dmx {
  import opened Python
  import opened Teams

  const PixelCount: nat := 133
  /** Three channels per pixel. */
  const FrameLength: nat := 399

  /** A strip segment with 1-based `start` and `stop`; its length is
      `stop - start`. */
  datatype Segment = Segment(start: int, stop: int)

  const Segments: seq<Segment> := [Segment(1, 36), Segment(37, 65), Segment(66, 90), Segment(91, 133)]

  function SegmentLength(i: nat): (r: nat)
    requires i < 4
    ensures r == Segments[i].stop - Segments[i].start
  {
    Segments[i].stop - Segments[i].start
  }

  /** Sum of the raw scores; unlike the display windows the frame does not
      clamp negative scores before summing. */
  function RawSum(teams: seq<Team>): (r: int)
    ensures NonNegative(teams) ==> r == ClampedSum(teams)
  {
    if teams == [] then 0
    else
      var front := teams[..|teams| - 1];
      assert NonNegative(teams) ==> NonNegative(front) by {
        assert forall i :: 0 <= i < |front| ==> front[i] == teams[i];
      }
      RawSum(front) + teams[|teams| - 1].score
  }

  /** `sum(scores) or 1`: the raw total with 0 replaced by 1. */
  function Total(teams: seq<Team>): (r: int)
    ensures r != 0
    ensures RawSum(teams) != 0 ==> r == RawSum(teams)
  {
    if RawSum(teams) == 0 then 1 else RawSum(teams)
  }

  /** `score / total > 0.50`, decided on integers. */
  predicate MoreThanHalf(score: int, total: int): (r: bool)
    requires total != 0
    ensures r <==> score as real / total as real > 0.5
  {
    if total > 0 then
      HalfTest(score, total);
      2 * score > total
    else
      HalfTest(-score, -total);
      assert score as real / total as real == (-score) as real / (-total) as real;
      2 * score < total
  }

  lemma HalfTest(score: int, total: int)
    requires total > 0
    ensures score as real / total as real > 0.5 <==> 2 * score > total
  {
    var x, t := score as real / total as real, total as real;
    assert x * t == score as real;
    if x > 0.5 {
      MulPositive(x - 0.5, t);
      assert (x - 0.5) * t == score as real - 0.5 * t;
    } else {
      MulNonNegative(0.5 - x, t);
      assert (0.5 - x) * t == 0.5 * t - score as real;
    }
  }

  /** `percent_on`: 1 when the team holds more than half of the total, twice
      its share otherwise, in exact arithmetic. */
  function PercentOn(score: int, total: int): real
    requires total != 0
  {
    var share := score as real / total as real;
    if share > 0.5 then 1.0 else share * 2.0
  }

  /** The lit pixels of segment i, computed on integers. */
  function LitCount(teams: seq<Team>, i: nat): int
    requires |teams| >= 4 && i < 4
  {
    LitOnIntegers(teams[i].score, Total(teams), SegmentLength(i))
  }

  /** The integer lit count is `int(percent_on * (stop - start))` of
      hs.py:617 in exact arithmetic. */
  lemma LitCountIsPercentOn(teams: seq<Team>, i: nat)
    requires |teams| >= 4 && i < 4
    ensures LitCount(teams, i) == Trunc(PercentOn(teams[i].score, Total(teams)) * SegmentLength(i) as real)
  {
    PercentOnFormula(teams[i].score, Total(teams), SegmentLength(i));
  }

  /** The lit count of a segment of length len as hs.py:609-617 compute it,
      with the float division replaced by an integer `int(a / b)`. */
  function LitOnIntegers(score: int, total: int, len: nat): int
    requires total != 0
  {
    if MoreThanHalf(score, total) then len else TruncDiv(2 * score * len, total)
  }

  /** The integer computation of the lit count agrees with the exact
      `int(percent_on * len)`. */
  lemma PercentOnFormula(score: int, total: int, len: nat)
    requires total != 0
    ensures LitOnIntegers(score, total, len) == Trunc(PercentOn(score, total) * len as real)
  {
    if MoreThanHalf(score, total) {
      assert PercentOn(score, total) * len as real == len as real;
      assert Trunc(len as real) == len;
    } else {
      AtMostHalfScaled(score, total, len, 2 * score * len);
    }
  }

  lemma AtMostHalfScaled(score: int, total: int, len: nat, n: int)
    requires total != 0 && !MoreThanHalf(score, total) && n == 2 * score * len
    ensures TruncDiv(n, total) == Trunc(PercentOn(score, total) * len as real)
  {
    var twice := PercentOn(score, total);
    assert twice == (score as real / total as real) * 2.0;
    TwiceShareScaled(score, total, len, twice);
    var x := twice * len as real;
    TruncDivOfEqual(n, total, x);
    assert x == PercentOn(score, total) * len as real;
  }

  lemma TruncDivOfEqual(n: int, total: int, x: real)
    requires total != 0 && x == n as real / total as real
    ensures TruncDiv(n, total) == Trunc(x)
  {
    TruncDivIsTrunc(n, total);
  }

  lemma TwiceShareScaled(score: int, total: int, len: nat, twice: real)
    requires total != 0 && twice == (score as real / total as real) * 2.0
    ensures twice * len as real == (2 * score * len) as real / total as real
  {
    var x, y, t := score as real / total as real, (2 * score * len) as real / total as real, total as real;
    assert x * t == score as real;
    assert y * t == (2 * score * len) as real;
    assert (twice * len as real) * t == (2 * score * len) as real;
  }

  /** Pixel p (0-based) takes the colour of segment i. */
  predicate Lit(teams: seq<Team>, i: nat, p: int)
    requires |teams| >= 4 && i < 4
  {
    Segments[i].start - 1 <= p < Segments[i].start - 1 + LitCount(teams, i)
  }

  function Channel(c: Rgb, k: int): int {
    if k == 0 then c.r else if k == 1 then c.g else c.b
  }

  lemma DivAtMost(x: nat, y: int, c: nat)
    requires y > 0 && x <= y * c
    ensures x / y <= c
  {
    var q := x / y;
    assert y * q <= x;
    assert y * (q - c) <= 0;
  }

  /** Truncation never exceeds a bound the exact quotient respects. */
  lemma TruncDivAtMost(a: int, b: int, c: nat)
    requires b != 0
    requires b > 0 ==> a <= b * c
    requires b < 0 ==> a >= b * c
    ensures TruncDiv(a, b) <= c
  {
    if b > 0 && a >= 0 {
      DivAtMost(a, b, c);
    } else if b < 0 && a < 0 {
      assert -a <= (-b) * c;
      DivAtMost(-a, -b, c);
      assert TruncDiv(a, b) == (-a) / (-b);
    } else if b > 0 {
      assert TruncDiv(a, b) == -((-a) / b);
    } else {
      assert TruncDiv(a, b) == -(a / (-b));
    }
  }

  /** No segment lights more pixels than it has. */
  lemma {:induction false} LitCountAtMostLength(teams: seq<Team>, i: nat)
    requires |teams| >= 4 && i < 4
    ensures LitCount(teams, i) <= SegmentLength(i)
  {
    var total, s, len := Total(teams), teams[i].score, SegmentLength(i);
    if !MoreThanHalf(s, total) {
      if total > 0 {
        assert 2 * s * len <= total * len by {
          assert (total - 2 * s) * len >= 0;
        }
      } else {
        assert 2 * s * len >= total * len by {
          assert (2 * s - total) * len >= 0;
        }
      }
      TruncDivAtMost(2 * s * len, total, len);
    }
  }

  /** For a positive total and a non-negative score the lit count is the
      whole segment above half the total and `floor(2 * score * len / total)`
      otherwise; so exactly half the total lights the whole segment. */
  lemma {:induction false} LitCountRule(teams: seq<Team>, i: nat)
    requires |teams| >= 4 && i < 4
    requires RawSum(teams) > 0 && teams[i].score >= 0
    ensures LitCount(teams, i) ==
      if 2 * teams[i].score > RawSum(teams) then SegmentLength(i)
      else 2 * teams[i].score * SegmentLength(i) / RawSum(teams)
    ensures 2 * teams[i].score == RawSum(teams) ==> LitCount(teams, i) == SegmentLength(i)
    ensures teams[i].score == 0 ==> LitCount(teams, i) == 0
  {
    var s, len, total := teams[i].score, SegmentLength(i), RawSum(teams);
    assert Total(teams) == total;
    if 2 * s <= total {
      assert LitCount(teams, i) == TruncDiv(2 * s * len, total);
      assert 2 * s * len >= 0;
      assert TruncDiv(2 * s * len, total) == 2 * s * len / total;
      if 2 * s == total {
        DivUnique(2 * s * len, total, len, 0);
      }
    }
  }

  /** A lit pixel lies inside its segment and before the segment's last
      pixel `stop - 1`. */
  lemma {:induction false} LitWithinSegment(teams: seq<Team>, i: nat, p: int)
    requires |teams| >= 4 && i < 4 && Lit(teams, i, p)
    ensures Segments[i].start - 1 <= p < Segments[i].stop - 1
  {
    LitCountAtMostLength(teams, i);
  }

  /** Pixel `stop - 1` (0-based) of every segment is never lit: the length
      `stop - start` is one short of the `start..stop` span. */
  lemma {:induction false} SegmentEndDark(teams: seq<Team>, i: nat, k: nat)
    requires |teams| >= 4 && i < 4 && k < 4
    ensures !Lit(teams, k, Segments[i].stop - 1)
  {
    if Lit(teams, k, Segments[i].stop - 1) {
      LitWithinSegment(teams, k, Segments[i].stop - 1);
    }
  }

  /** Channel j of the buffer after the first n segments were written, as the
      loop at hs.py:607-620 leaves it. */
  function ByteAfter(teams: seq<Team>, n: nat, j: int): int
    requires |teams| >= 4 && n <= 4
  {
    if n == 0 then 0
    else if Lit(teams, n - 1, j / 3) then Channel(teams[n - 1].color, j % 3)
    else ByteAfter(teams, n - 1, j)
  }

  /** Segments never share a pixel, so the bytes written by the first n
      segments are those of the one segment lighting the pixel, else 0. */
  lemma {:induction false} ByteAfterMeaning(teams: seq<Team>, n: nat, j: int)
    requires |teams| >= 4 && n <= 4
    ensures forall i :: 0 <= i < n && Lit(teams, i, j / 3) ==> ByteAfter(teams, n, j) == Channel(teams[i].color, j % 3)
    ensures (forall i :: 0 <= i < n ==> !Lit(teams, i, j / 3)) ==> ByteAfter(teams, n, j) == 0
  {
    if n > 0 {
      ByteAfterMeaning(teams, n - 1, j);
      forall i | 0 <= i < n - 1 && Lit(teams, i, j / 3)
        ensures !Lit(teams, n - 1, j / 3)
      {
        LitWithinSegment(teams, i, j / 3);
      }
    }
  }

  /** Some segment lights pixel p. */
  predicate LitAny(teams: seq<Team>, p: int)
    requires |teams| >= 4
  {
    exists i :: 0 <= i < 4 && Lit(teams, i, p)
  }

  /** `frame` is the 399-entry buffer for `teams`: every pixel a segment
      lights holds that team's colour and every other byte is 0. */
  ghost predicate IsFrameOf(teams: seq<Team>, frame: seq<int>)
    requires |teams| >= 4
  {
    && |frame| == FrameLength
    && (forall i, p :: 0 <= i < 4 && Lit(teams, i, p) ==>
          0 <= p < PixelCount && frame[3 * p] == teams[i].color.r &&
          frame[3 * p + 1] == teams[i].color.g && frame[3 * p + 2] == teams[i].color.b)
    && (forall j :: 0 <= j < FrameLength && !LitAny(teams, j / 3) ==> frame[j] == 0)
  }

  /** The inner loop of hs.py:619-620: colour the first `LitCount` pixels
      of segment i, three channels per pixel. */
  method LightSegment(dmx: array<int>, teams: seq<Team>, i: nat)
    requires |teams| >= 4 && i < 4 && dmx.Length == FrameLength
    requires forall j :: 0 <= j < FrameLength ==> dmx[j] == ByteAfter(teams, i, j)
    modifies dmx
    ensures forall j :: 0 <= j < FrameLength ==> dmx[j] == ByteAfter(teams, i + 1, j)
  {
    var seg := Segments[i];
    var count := LitCount(teams, i);
    LitCountAtMostLength(teams, i);
    var color := teams[i].color;
    var pixel := seg.start - 1;
    while pixel < seg.start - 1 + count
      invariant seg.start - 1 <= pixel
      invariant count >= 0 ==> pixel <= seg.start - 1 + count
      invariant count < 0 ==> pixel == seg.start - 1
      invariant forall j :: 0 <= j < FrameLength ==>
                  dmx[j] == if seg.start - 1 <= j / 3 < pixel then Channel(color, j % 3) else ByteAfter(teams, i, j)
    {
      dmx[3 * pixel] := color.r;
      dmx[3 * pixel + 1] := color.g;
      dmx[3 * pixel + 2] := color.b;
      pixel := pixel + 1;
    }
    forall j | 0 <= j < FrameLength
      ensures dmx[j] == ByteAfter(teams, i + 1, j)
    {
      assert Lit(teams, i, j / 3) <==> seg.start - 1 <= j / 3 < pixel;
    }
  }

  /** The frame of `update_sacn`: a zeroed 133-pixel buffer in which, for each
      segment in turn, the first `LitCount` pixels from the segment start take
      the team's colour. Needs four teams (fewer raise IndexError). */
  method BuildFrame(teams: seq<Team>) returns (frame: seq<int>)
    requires |teams| >= 4
    ensures IsFrameOf(teams, frame)
  {
    var dmx := new int[FrameLength](_ => 0);
    var i := 0;
    while i < 4
      invariant 0 <= i <= 4
      invariant forall j :: 0 <= j < FrameLength ==> dmx[j] == ByteAfter(teams, i, j)
    {
      LightSegment(dmx, teams, i);
      i := i + 1;
    }
    frame := dmx[..];
    forall j | 0 <= j < FrameLength
      ensures forall i :: 0 <= i < 4 && Lit(teams, i, j / 3) ==> frame[j] == Channel(teams[i].color, j % 3)
      ensures !LitAny(teams, j / 3) ==> frame[j] == 0
    {
      ByteAfterMeaning(teams, 4, j);
    }
    forall i, p | 0 <= i < 4 && Lit(teams, i, p)
      ensures 0 <= p < PixelCount && frame[3 * p] == teams[i].color.r &&
              frame[3 * p + 1] == teams[i].color.g && frame[3 * p + 2] == teams[i].color.b
    {
      LitWithinSegment(teams, i, p);
      assert (3 * p) / 3 == p && (3 * p + 1) / 3 == p && (3 * p + 2) / 3 == p;
      assert (3 * p) % 3 == 0 && (3 * p + 1) % 3 == 1 && (3 * p + 2) % 3 == 2;
    }
  }

  /** Red holding the whole total lights all 35 pixels of its segment and
      the other teams nothing. */
  lemma {:induction false} OnlyLeaderLit(teams: seq<Team>)
    requires |teams| == 4 && teams[0].score == 10
    requires teams[1].score == 0 && teams[2].score == 0 && teams[3].score == 0
    ensures LitCount(teams, 0) == 35
    ensures LitCount(teams, 1) == 0 && LitCount(teams, 2) == 0 && LitCount(teams, 3) == 0
  {
    assert teams[..3][..2] == teams[..2] && teams[..2][..1] == teams[..1] && teams[..1][..0] == [];
    assert RawSum(teams[..1]) == 10;
    assert RawSum(teams[..2]) == 10;
    assert RawSum(teams[..3]) == 10;
    assert RawSum(teams) == 10;
  }

  /** A quarter of the total lights half of a segment (rounded down). */
  lemma {:induction false} QuarterLightsHalf(teams: seq<Team>, i: nat)
    requires |teams| >= 4 && i < 4
    requires RawSum(teams) > 0 && 4 * teams[i].score == RawSum(teams)
    ensures LitCount(teams, i) == SegmentLength(i) / 2
  {
    LitCountRule(teams, i);
    var s, len := teams[i].score, SegmentLength(i);
    assert 2 * s * len == (4 * s) * (len / 2) + 2 * s * (len % 2);
    DivUnique(2 * s * len, 4 * s, len / 2, 2 * s * (len % 2));
  }

  lemma DivUnique(a: int, d: int, q: int, r: int)
    requires d > 0 && 0 <= r < d && a == d * q + r
    ensures a / d == q
  {
    var k := q - a / d;
    assert d * k == a % d - r;
    assert k >= 1 ==> d * k >= d;
    assert k <= -1 ==> d * k <= -d;
  }
}
