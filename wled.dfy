/** The WLED client: the cached segment list loaded from preset 1, and the
    state requests that light a percentage of a segment or turn it white.
    Requests are values; sending them is left to the transport. */
module Wled {
  import opened Python

  /** The colour used when a segment has none, and by the white setter. */
  const White: seq<int> := [255, 255, 255]

  /** One entry of the device's `seg` list: first LED, end LED, LED count
      and, when the device reports one, its colour list. */
  datatype SegmentInfo = SegmentInfo(start: int, stop: int, len: int, col: Option<seq<seq<int>>>)

  /** Outcome of the two requests of the initialisation: the preset load
      failed, the state read failed, or the state was read, with or without a
      `seg` list. */
  datatype InitReply = PresetFailed | StateFailed | StateRead(seg: Option<seq<SegmentInfo>>)

  /** The `rng` entry of a request: LEDs from `start` up to `stop`. */
  datatype Range = Range(start: int, stop: int)

  /** One entry of the `seg` list of a state request. Keys the white setter
      does not send are None. */
  datatype SegmentRequest = SegmentRequest(
    id: int, on: bool, fx: int, sx: Option<int>, ix: Option<int>,
    start: int, stop: int, col: seq<seq<int>>, rng: Option<Range>)

  /** Why a setter sends nothing: segment 0, no segments loaded, a segment
      outside 1..n, or (percentage setter only) a colour list that is present
      but empty, which raises IndexError. */
  datatype WledError = SegmentZero | NotLoaded | OutOfRange | NoColor

  datatype Result<T> = Success(value: T) | Failure(error: WledError)

  /** LEDs to light for a percentage of a segment of `len` LEDs. */
  function LedCount(percentage: real, len: int): (r: int)
    ensures percentage >= 0.0 && len >= 0 ==> r == (percentage / 100.0 * len as real).Floor
  {
    if percentage >= 0.0 && len >= 0 then
      MulNonNegative(percentage / 100.0, len as real);
      Trunc(percentage / 100.0 * len as real)
    else
      Trunc(percentage / 100.0 * len as real)
  }

  /** A percentage between 0 and 100 lights between none and all of the
      segment's LEDs. */
  lemma {:induction false} LedCountBounds(percentage: real, len: int)
    requires 0.0 <= percentage <= 100.0 && len >= 0
    ensures 0 <= LedCount(percentage, len) <= len
  {
    var f, l := percentage / 100.0, len as real;
    assert 0.0 <= f <= 1.0;
    assert f * l <= l by {
      assert (1.0 - f) * l >= 0.0 by { MulNonNegative(1.0 - f, l); }
    }
    assert f * l >= 0.0 by { MulNonNegative(f, l); }
    var r := Trunc(f * l);
    assert r as real <= f * l < r as real + 1.0;
    assert r as real <= l;
  }

  /** A larger percentage never lights fewer LEDs. */
  lemma {:induction false} LedCountMonotone(p: real, q: real, len: int)
    requires 0.0 <= p <= q && len >= 0
    ensures LedCount(p, len) <= LedCount(q, len)
  {
    var l := len as real;
    assert q / 100.0 * l - p / 100.0 * l == (q - p) / 100.0 * l;
    MulNonNegative((q - p) / 100.0, l);
    MulNonNegative(p / 100.0, l);
  }

  /** The whole segment at 100 percent, nothing at 0. */
  lemma LedCountEnds(len: int)
    ensures LedCount(100.0, len) == len
    ensures LedCount(0.0, len) == 0
  {
  }

  /** The colour list of a percentage request: the segment's first colour;
      white when it has no colour list; IndexError on an empty one. */
  function FirstColor(info: SegmentInfo): (r: Option<seq<int>>)
    ensures info.col.None? ==> r == Some(White)
    ensures info.col.Some? ==> (r.None? <==> info.col.value == []) && (r.Some? ==> r.value == info.col.value[0])
  {
    match info.col
    case None => Some(White)
    case Some(colors) => if colors == [] then None else Some(colors[0])
  }

  /** `wled_setpercentage`: the request lighting `percentage` percent of
      segment `segment` (1-based) in the static effect with its preset
      colour, or why none is sent. */
  function SetPercentage(segments: seq<SegmentInfo>, segment: int, percentage: real): (r: Result<SegmentRequest>)
    ensures r == Failure(SegmentZero) <==> segment == 0
    ensures r == Failure(NotLoaded) <==> segment != 0 && segments == []
    ensures r == Failure(OutOfRange) <==> segment != 0 && segments != [] && !(1 <= segment <= |segments|)
    ensures r == Failure(NoColor) <==>
              1 <= segment <= |segments| && segments[segment - 1].col == Some([])
    ensures r.Success? ==>
              && 1 <= segment <= |segments|
              && var info := segments[segment - 1];
                 var count := LedCount(percentage, info.len);
                 r.value == SegmentRequest(segment - 1, true, 0, Some(0), Some(255), info.start, info.stop,
                                           [if info.col.Some? then info.col.value[0] else White],
                                           Some(Range(info.start, info.start + count)))
  {
    if segment == 0 then Failure(SegmentZero)
    else if segments == [] then Failure(NotLoaded)
    else if segment > |segments| || segment < 1 then Failure(OutOfRange)
    else
      var info := segments[segment - 1];
      var count := LedCount(percentage, info.len);
      match FirstColor(info)
      case None => Failure(NoColor)
      case Some(color) =>
        Success(SegmentRequest(segment - 1, true, 0, Some(0), Some(255), info.start, info.stop, [color],
                               Some(Range(info.start, info.start + count))))
  }

  /** A successful percentage request between 0 and 100 lights a range that
      starts at the segment's first LED and is at most the segment long. */
  lemma PercentageRangeWithinSegment(segments: seq<SegmentInfo>, segment: int, percentage: real)
    requires 0.0 <= percentage <= 100.0
    requires SetPercentage(segments, segment, percentage).Success?
    requires segments[segment - 1].len >= 0
    ensures var req := SetPercentage(segments, segment, percentage).value;
            && req.rng.Some? && req.rng.value.start == segments[segment - 1].start
            && req.rng.value.start <= req.rng.value.stop <= req.rng.value.start + segments[segment - 1].len
  {
    LedCountBounds(percentage, segments[segment - 1].len);
  }

  /** `wled_setwhite`: the request turning segment `segment` (1-based) white,
      or why none is sent. Segment 0 is rejected by the range check. */
  function SetWhite(segments: seq<SegmentInfo>, segment: int): (r: Result<SegmentRequest>)
    ensures r == Failure(NotLoaded) <==> segments == []
    ensures r == Failure(OutOfRange) <==> segments != [] && !(1 <= segment <= |segments|)
    ensures r.Success? <==> segments != [] && 1 <= segment <= |segments|
    ensures r.Success? ==>
              r.value == SegmentRequest(segment - 1, true, 0, None, None,
                                        segments[segment - 1].start, segments[segment - 1].stop, [White], None)
  {
    if segments == [] then Failure(NotLoaded)
    else if segment > |segments| || segment < 1 then Failure(OutOfRange)
    else Success(SegmentRequest(segment - 1, true, 0, None, None,
                                segments[segment - 1].start, segments[segment - 1].stop, [White], None))
  }

  /** The module's cached segment list. */
  class WledClient {
    var segments: seq<SegmentInfo>

    constructor ()
      ensures segments == []
    {
      segments := [];
    }

    /** `wled_init`: when both the preset load and the state read succeed
        the cache becomes the state's `seg` list (empty when absent); a
        failed request leaves it as it was. */
    method Init(reply: InitReply)
      modifies this
      ensures reply.StateRead? && reply.seg.Some? ==> segments == reply.seg.value
      ensures reply.StateRead? && reply.seg.None? ==> segments == []
      ensures !reply.StateRead? ==> segments == old(segments)
    {
      match reply
      case PresetFailed =>
      case StateFailed =>
      case StateRead(seg) =>
        segments := if seg.Some? then seg.value else [];
    }
  }
}
