# House score tool — a Dafny model

House score tool is a scoreboard for a house competition. `teams.json` holds a list of teams. Each team has a name, an integer score and an RGB colour. Three things share that file:

- A web control panel adds or removes points, sets names and scores by hand, resets every score, and changes the lighting address kept in `config.json`. After a change it pushes a frame to a 133-pixel LED strip over sACN (streaming ACN, the DMX-over-IP protocol).
- Several windows poll the file and redraw on every frame:
  - the main projector window, a horizontal stacked bar of team widths that animates over one second when the scores change;
  - one window per team, a column filled to that team's share;
  - a pie-chart overlay whose slice ends move 5 degrees per frame toward their targets.
- A separate WLED client loads preset 1 from a WLED LED controller, caches its segment list, and builds the requests that light a percentage of a segment or turn it white.

The model has nine modules:

| file | module | what it models |
|---|---|---|
| `python.dfy` | `Python` | the pieces of Python's value semantics the program relies on: `None`, list indexing with negative positions, and `int()` truncating toward zero on quotients and on reals |
| `animation.dfy` | `Animation` | the one-second animation progress and the linear interpolation shared by the main window and the team windows |
| `teams.dfy` | `Teams` | the team record, the initial teams, the clamp to 0, the clamped total and its "0 becomes 1" divisor, a team's share, the `"name score"` caption, and the two score mutations |
| `dmx.dfy` | `Dmx` | the 399-byte frame of `update_sacn`: four fixed segments, the lit count per segment, and the frame-building loops over an `array` |
| `control_server.dfy` | `ControlServer` | a `Server` class holding the two files and the list of pushed frames; its methods are the handlers of the score page and the configuration page |
| `bar_view.dfy` | `BarView` | the main window: interpolated bar widths and offsets, the shrink-to-fit label search, the side list, and a `MainWindow` class for the per-frame state |
| `team_window.dfy` | `TeamWindow` | a `TeamWindow` class: the per-team column and its animation state |
| `pie_chart.dfy` | `PieChart` | cumulative target angles, the 5-degree step, and a `PieChart` class holding the two angle lists |
| `wled.dfy` | `Wled` | the request values of `wled_setpercentage` and `wled_setwhite`, with their error cases, and a `WledClient` class caching the segment list |

How the model represents the program:

- Files are fields of `Server`. A window's poll of `teams.json` is an `Option<seq<Team>>` parameter, where `None` means the read failed. The wall clock is a `now: real` parameter.
- Fonts are an abstract `Measure` function from (text, size) to the rendered (width, height).
- Reals are exact.
- Python's `int()` truncates toward zero. It is written out as `Python.TruncDiv` on integers and as `Python.Trunc` on reals, and `Python.TruncDivIsTrunc` proves the two agree.
- A negative team index counts from the end of the list, as in Python (`Python.ListIndex`).

Where the code and its description disagree, the model follows the code. The one exception is the main window's change test: as written it fires on every frame, and `BarView.MainWindow.Frame` models the evidently intended test instead (see Findings).

- The strip's frame divides by the sum of the RAW scores, not the clamped ones (`Dmx.Total`).
- The comment at hs.py:611 speaks of 25%, but the code tests more than half the total. Below that it doubles the share.
- A segment lights `int(percent_on * (stop - start))` pixels from `start - 1`. So pixel `stop - 1` of every segment is never lit (`Dmx.SegmentEndDark`).
- When a team's record changes during a running animation, its window restarts from the share that animation started from, not from the share currently shown (hs.py:431). Only a finished animation moves that starting share to the current share.

## Model

| member | source | states |
|---|---|---|
| Teams.Clamp | hs.py:72-73 | the result is never negative; it equals the input when the input is non-negative and is 0 otherwise |
| Teams.ClampedSum | hs.py:263-264 | the sum of `max(0, score)` over a list is never negative |
| Teams.ShareDivisor | hs.py:263-268 | the divisor of every share is at least 1, and it equals the clamped total whenever that total is positive |
| Teams.ClampedScoreAtMostSum | hs.py:420-426 | one team's clamped score never exceeds the clamped total of its list |
| Teams.ShareBounds | hs.py:420-426 | every team's share `max(0, score) / total` lies between 0 and 1 |
| Teams.ClampedSumPrefixMonotone | hs.py:523-527 | the clamped sum of a shorter prefix of the team list is at most that of a longer prefix |
| Python.ListIndex | hs.py:66-71 | `teams[i]` succeeds exactly for `-n <= i < n`; a negative index selects `i + n`, and a non-negative index selects `i` |
| Teams.Adjusted | hs.py:71-73 | adding points changes only the addressed team's score, to `max(0, old + points)`; names, colours, the other teams and non-negativity of all scores are kept |
| Teams.Reset | hs.py:146-148 | the reset list has the same teams, every score 0, and a clamped total of 0 |
| Teams.NatToString | hs.py:310 | `str()` of a clamped score is a non-empty run of decimal digits, without a leading zero, that reads back as the number |
| Teams.LabelText | hs.py:460 | the caption `f"{name} {int(score)}"` of both window kinds (also hs.py:310) for the clamped score; its shape is stated by `Teams.LabelTextParts` |
| Teams.LabelTextParts | hs.py:310 | a caption is the team's name, one space, then digits only, which read back as the clamped score |
| Python.Trunc | wled_control.py:56 | `int()` on a real truncates toward zero: the largest integer at most x for x >= 0, the smallest integer at least x for x < 0 |
| Python.TruncDiv | hs.py:617 | for a non-negative numerator and a positive divisor, truncation agrees with the floor quotient |
| Python.TruncDivIsTrunc | hs.py:617 | truncating the integer quotient of the magnitudes and restoring the sign gives `int(a / b)` of the exact quotient, for every sign of numerator and divisor |
| Dmx.RawSum | hs.py:606 | the sum of the raw scores; when no score is negative it equals the clamped total the windows use |
| Dmx.Total | hs.py:606 | the divisor is the raw score sum, or 1 when that sum is 0; it is never 0 |
| Dmx.MoreThanHalf | hs.py:608-611 | the integer test holds exactly when the exact share `score / total` exceeds 0.5, for either sign of the total |
| Dmx.PercentOnFormula | hs.py:608-617 | the integer computation (whole segment above half, otherwise `int(2 * score * len / total)`) equals `int(percent_on * len)` with `percent_on` computed on exact reals |
| Dmx.LitCount | hs.py:607-617 | the lit count of segment i on integers; `Dmx.LitCountIsPercentOn` and `Dmx.LitCountRule` state what it is |
| Dmx.LitCountIsPercentOn | hs.py:607-617 | the lit count of segment i is `int(percent_on * (stop - start))` of the source, in exact arithmetic, for any scores |
| Dmx.LitCountAtMostLength | hs.py:611-617 | no segment lights more pixels than `stop - start`, for any scores, negative ones included |
| Dmx.LitCountRule | hs.py:609-617 | for a positive total and a non-negative score, a segment lights fully above half the total and `floor(2 * score * len / total)` pixels otherwise; exactly half the total lights it fully; a score of 0 lights nothing |
| Dmx.LitWithinSegment | hs.py:617-620 | every lit pixel lies in `start - 1 .. stop - 2` of its own segment |
| Dmx.SegmentEndDark | hs.py:599-620 | pixel `stop - 1` of any segment is lit by no segment |
| Dmx.ByteAfterMeaning | hs.py:607-620 | after the first n segments are written, a byte holds the colour channel of the one segment lighting its pixel, or 0 when none does |
| Dmx.LightSegment | hs.py:619-620 | the inner loop writes the team's three colour channels into exactly the lit pixels of its segment and leaves every other byte as it was |
| Dmx.BuildFrame | hs.py:596-620 | the frame has 399 bytes; every lit pixel holds its team's colour, and every byte of an unlit pixel is 0 |
| Dmx.OnlyLeaderLit | hs.py:606-617 | scores 10, 0, 0, 0 light all 35 pixels of Red's segment and none of the others |
| Dmx.QuarterLightsHalf | hs.py:609-617 | a team holding a quarter of a positive total lights half its segment, rounded down |
| ControlServer.Server.Destination | hs.py:40-45 | the sACN destination: the stored address, or 10.0.0.162 when config.json does not exist; `ControlServer.Server.UpdateSacn` states its use |
| ControlServer.Server.InitializeTeams | hs.py:24-29 | teams.json becomes the four initial teams only when it does not exist; otherwise it is untouched |
| ControlServer.Server.UpdateSacn | hs.py:592-625 | with at least four teams, exactly one frame is appended, addressed to the configured destination (default 10.0.0.162) and equal to the frame of the file's teams; with fewer, nothing is sent |
| ControlServer.Server.PostIndex | hs.py:55-87 | a read failure answers 500; a form without `adjust` answers 400; a missing or non-integer index answers 500; an empty action answers 400; a non-integer action or an index out of range answers 500, with nothing written; otherwise the adjusted list is written, and then the strip is relit (redirect) or the relight fails (500, nothing pushed) |
| ControlServer.Server.PostConfig | hs.py:120-165 | the manual form writes every team's name and clamped score, keeping colours, only when every field is present and parses, and does not relight; reset writes all-zero scores and relights; an address change rewrites only the configuration; anything else answers 400 |
| PieChart.TargetAngle | hs.py:523-527 | a target angle, the clamped prefix total up to team k as a fraction of 360 degrees, lies between 0 and 360 |
| PieChart.TargetStep | hs.py:523-527 | each target angle is the previous one plus the team's share of 360 degrees |
| PieChart.TargetsNondecreasing | hs.py:523-527 | target angles never decrease along the team list |
| PieChart.LastTarget | hs.py:518-527 | the last target is 360 degrees when some clamped score is positive and 0 otherwise |
| PieChart.Step | hs.py:530-534 | one frame moves an angle toward its target, never past it, by exactly 5 degrees unless it lands on the target; an angle at its target stays |
| PieChart.StepsAdvance | hs.py:497-534 | while the target is at least 5n degrees ahead, n frames advance the angle by exactly 5n degrees |
| PieChart.NinetyDegreesInEighteenFrames | hs.py:497-534 | a target 90 degrees ahead is reached after exactly 18 frames, through every multiple of 5 degrees in between |
| PieChart.PieChart.constructor | hs.py:495-496 | both angle lists start as n zeros |
| PieChart.PieChart.Frame | hs.py:510-534 | a failed read changes nothing; a poll with more teams than the first read ends the chart (IndexError at hs.py:526) before any angle moves; otherwise every polled team's target is its cumulative angle, targets beyond the polled teams are kept, and every displayed angle takes one step |
| Animation.Progress | hs.py:270-273 | progress is at most 1, not negative once the clock has started, 0 at the start, below 1 during the first second and exactly 1 from one second on |
| Animation.FrameProgress | hs.py:270-275 | progress is 1 when no animation runs; while one runs it is at most 1, and not negative from its start on |
| Animation.Interp | hs.py:293-296 | linear interpolation `a + (b - a) * t`; `Animation.InterpBetween` and `BarView.InterpAtLeastOne` state its bounds |
| Animation.InterpBetween | hs.py:442 | interpolation at progress in [0, 1] stays between its two ends |
| BarView.BarWidth | hs.py:292-300 | a bar's width with the zero-total guard; `BarView.BarWidthScaled` and `BarView.WidthAtEnds` state what it is |
| BarView.InterpAtLeastOne | hs.py:296-298 | interpolating two floored totals never reaches 0, so the zero-width guard cannot fire during the animation |
| BarView.BarWidthScaled | hs.py:292-300 | a bar's width is the interpolated clamped score times the screen width per point of interpolated total |
| BarView.WidthAtEnds | hs.py:292-300 | at t = 1 a bar is its current share of the screen width, and at t = 0 its previous share |
| BarView.PrefixSumOfScores | hs.py:263-264 | the first n clamped scores add up to the clamped total of the first n teams |
| BarView.OffsetIsShare | hs.py:280-340 | the offset of bar n is the interpolated clamped prefix total times the screen width per point of interpolated total |
| BarView.WidthsFillScreen | hs.py:280-340 | when both snapshots have the same teams and positive totals, the bars exactly fill the screen width at every point of the animation |
| BarView.FitFont | hs.py:308-326 | the search returns the largest size in 10..100 at which the label fits the bar's width and the screen height, or none when no size fits |
| BarView.PlaceCaption | hs.py:308-335 | a fitting label is drawn at the largest fitting size and centred in its bar; otherwise the bar is marked for the side list |
| BarView.BarLayout | hs.py:280-340 | bar i sits at the sum of the widths before it, with its interpolated width and best caption; the side list holds, in bar order, the name and clamped score of every bar whose label fits at no size; the final offset is the sum of all widths |
| BarView.MainWindow.constructor | hs.py:221-228 | both snapshots start as the first read, with no animation running |
| BarView.MainWindow.Frame | hs.py:246-358 | with the CORRECTED change test of Findings (team records only, not the `width` keys of hs.py:302): a failed read skips the frame; a poll different from the last one makes the last poll the baseline and restarts the clock; then fewer than four teams end the window before anything is sent (IndexError in `update_sacn`, hs.py:600-603), otherwise the strip is relit; more teams than the baseline end the window after the relight (IndexError at hs.py:288); an unchanged poll with no finished animation keeps the state; the drawing is the layout from the baseline to the poll at the frame's progress; a finished animation clears the clock and rebases |
| BarView.ChangedAsWritten | hs.py:254 | the change test as written fires whenever the list lengths differ or any kept team carries a `width` key |
| BarView.UnchangedPollStillChangesAsWritten | hs.py:254 | as written, an unchanged non-empty teams.json compares unequal to the snapshot after it was drawn once |
| TeamWindow.TeamWindow.constructor | hs.py:389-392 | a window starts with no team, a share of 0 and no animation |
| TeamWindow.TeamWindow.Frame | hs.py:411-473 | a failed read or a missing team skips the frame and keeps the state; a changed record restarts the clock from the kept share (from the current share on the first record); the column shows the interpolated share, which lies between 0 and 1 whenever the clock has not gone backwards; a finished animation makes the current share the kept one |
| Wled.LedCount | wled_control.py:54-56 | for a non-negative percentage and length, `int(percentage / 100 * len)` is the floor of the exact product |
| Wled.LedCountBounds | wled_control.py:54-56 | a percentage between 0 and 100 lights between none and all of the segment's LEDs |
| Wled.LedCountMonotone | wled_control.py:54-56 | a larger percentage never lights fewer LEDs |
| Wled.LedCountEnds | wled_control.py:54-56 | 100 percent lights the whole segment and 0 percent none of it |
| Wled.FirstColor | wled_control.py:69 | the colour is the segment's first colour, white when the segment has no colour list, and an error when that list is empty |
| Wled.SetPercentage | wled_control.py:36-73 | each rejection happens exactly when its condition holds, in order: segment 0, no segments loaded, segment outside 1..n, empty colour list; otherwise the request addresses segment id n - 1, static effect, speed 0, full intensity, and the segment's bounds and first colour, with range `start .. start + count` |
| Wled.PercentageRangeWithinSegment | wled_control.py:54-70 | a successful request for 0..100 percent lights a range starting at the segment's first LED and at most the segment long |
| Wled.SetWhite | wled_control.py:85-109 | no segments loaded and a segment outside 1..n are rejected exactly when they hold; otherwise the request addresses segment n - 1 with its bounds and the single colour white, and without speed, intensity or range |
| Wled.WledClient.constructor | wled_control.py:5 | the cache starts empty |
| Wled.WledClient.Init | wled_control.py:7-33 | when both requests succeed the cache becomes the device's `seg` list, or empty when it has none; when either fails the cache is kept |

## Left out

- Page rendering: the GET branches, the HTML templates and the text of error responses. Only the status kind (redirect, 400, 500) is modelled.
- File locking, lock timeouts and JSON parsing. A window's poll either yields the list or fails.
- `Server` cannot represent a teams.json that exists but is malformed: its `teamsFile` is either a list or absent. So the 500 answers a malformed file causes are not modelled, and `InitializeTeams` would seed such a file, where `open('teams.json', 'x')` never overwrites an existing one.
- `update_sacn` reads teams.json again (hs.py:594). The model lights the list the caller just wrote or polled.
- A failing read of config.json other than a missing file is not modelled. It raises before the POST branches run.
- A `set_sacn_ip` form without the `sacn_ip` field stores `None` as the address. The model always carries a string.
- The sACN transport: starting and stopping the sender, unicast mode, universe 1 and the 50 ms sleep. A push is recorded as (destination, frame).
- The WLED device address and preset number 1 (wled_control.py:4, wled_control.py:16) belong to the HTTP transport and are not modelled.
- The WLED HTTP requests, their status checks and the printed messages. `Init` takes the outcome of the two requests as an `InitReply`. The setters return the request instead of posting it.
- Wled.SetPercentage: a segment record missing `start`, `stop` or `len` (a KeyError) is not modelled. Segment records are typed.
- pygame drawing itself: rectangles, text outlines, the colour fill, screen resizing and the event loop. Fonts are abstracted as `Measure`.
- The pie chart's slice drawing and label placement (hs.py:536-576), including the condition that shows a label only for a positive score. It is trigonometry on floats.
- The pixel positions of the main window's side list (hs.py:342-350). The model keeps its entries and their order.
- TeamWindow.TeamWindow.Frame: it returns the filled fraction of the window height, not the pixel height `fraction * window_height`.
- Floating point. Shares, widths, angles and percentages are exact reals, so rounding in `/`, `*` and `int()` of floats is not modelled.
- Time: each frame reads the clock twice (change check, then progress). The model uses one `now` per frame.
- A failing first read makes the main window and the pie chart return at start-up. The constructors take the list that was read.
- Exceptions while rendering a label (hs.py:336-337) are not modelled. Rendering is taken to succeed.
- Threads and processes: the Flask thread, the per-team processes, the pie-chart process and their termination. Concurrent writes to teams.json are covered only as far as a failed read is.
- The text of the IndexError tracebacks. A window that ends raises out of its loop; the model reports this as `ended`.

## Findings

| source | as written | input that shows it | evidently intended | confidence | as-written member | corrected member |
|---|---|---|---|---|---|---|
| hs.py:254, hs.py:302 | the drawing loop stores `team['width']` into the kept snapshot, so the change test `current_teams != teams` compares a fresh read without `width` keys against dicts that have them | any non-empty teams.json left unchanged after the first drawn frame: every later frame restarts the animation and calls `update_sacn` again | restart the animation and relight the strip only when teams.json actually changed | not executed | BarView.UnchangedPollStillChangesAsWritten | BarView.MainWindow.Frame |
