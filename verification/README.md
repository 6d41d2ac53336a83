# A verified model of the body's pure cores

The repository drives a small body: sensor daemons report to a cortex, the cortex feeds an OLED
face, a light ring and a console, and a vault keeps a journal.  Under the hardware and the sockets
lie small cores of logic.  This project models those cores in Dafny and proves what they promise.
`dafny verify dfyconfig.toml` checks all of it.

| file | what it models |
|---|---|
| Baro | the BMP180 compensation (section 3.5 of the Bosch BMP180 datasheet) and its Python reference |
| Bresenham, Raster, Bits | the 1-bit framebuffer, changed in place, its line loop and its text; its meaning is a set of lit points |
| Marquee | row-major fonts drawn into a frame, and packed into a strip |
| FaceArt | the console's half-block view of a frame |
| Wire, Motion, Cortex, Glass, Replication | PIR daemon, cortex merge and display as three machines with two queues, init answers and restarts |
| Weather, AirLink | the air daemon's news gates, and how far the cortex may lag, through a queue and restarts |
| Trend | the pressure window and its least-squares slope |
| Dither, Tells, Ring | error diffusion and the colour conversion; the frames of the tells; the renderer with its one-shot scheduler |
| Vault | the journal and its keys, file operation by file operation, with a crash or a failure at every one |
| Numerals, Report, ReportRoundTrip, JsonText | the fault report's printer and parser, and a JSON string reader |
| Flusher | the Python cortex's two threads over pending settings and records |
| Dht, WsEncode | the humidity frame search and the LED pulse code |
| Arith, Seqs | facts about products, quotients and sequences |

An object whose methods update fields is a class here, with the same fields; each method is proved
equal to a function on its state, and the lemmas are about whole runs of those functions.  `f64` is
`real` throughout, and integers are unbounded; where machine width matters (`Baro`, the line's
error term) that every value fits is proved.

Several of the results are exact conditions, because the promise in a comment or a test does not
hold everywhere:

- `fdiv` is documented as floor division; `div_euclid` is that only for a positive divisor or an
  exact quotient.  On the chip domain the divisors are positive, so the port is right there.
- Pressure can drop as the raw reading climbs over 2^31, at legal chip words on the domain: exactly
  when the corrected pressures on the two sides are out of order and the 16 bits reach both; no
  divisor up to 100000 puts them so.
- Drawn from its other end, a line with a half-way tie lights other pixels.
- A PIR daemon that seeds on a high pin and never polls it high stays high in memory.
- A restarted PIR daemon's `full()` leaves the old daemon's last_ts and last_hold in the cortex until
  it has its own to tell.
- A vault whose vault.enc is missing when key.bin goes comes back, empty, at the next `ensure` that
  gets through.
- The report parser never undoes an escape, and stops at the first `]`, `}` or quote; a JSON reader
  would get every escaped string back.
- A record call that fails with some of its hand stored makes the flusher write records twice; a
  setting changed while it is being flushed is un-pended without reaching the store; a hand put
  back ignores the cap, and only that passes it.
- The humidity decoder's header says a misaligned read never decodes to a wrong temperature; with
  one short stray pulse in front, 44 % and 12.2 degrees are heard as 22 % and 6.1.  When a frame
  survives its stray pulses is arithmetic on its five bytes.
- `hsv` leaves the displayable range at some negative hues.  The ring never asks for one: every
  frame of every tell is proved to be in range.

## Model

| member | source | states |
|---|---|---|
| Baro.EuclidIsFloor | crates/loa-weather/src/baro.rs:109-111 | `div_euclid` is floor division exactly when the divisor is positive or divides; otherwise it is one more |
| Baro.FloorDivIsTheFloor | loa/weather/baro.py:93-118 | the floor used for the Python's `//` and `>>` is the greatest integer not above the quotient, for divisors of either sign |
| Baro.SameOnPositiveDivisors | loa/weather/baro.py:93-118 | the Rust reading equals the Python bignum reading, written out step by step on its own, wherever both divisors are positive, whatever the words and the raw readings |
| Baro.CompensateIsTheReference | loa/weather/baro.py:93-118 | on the chip domain the Rust reading equals the Python bignum reading, for every raw word, and both exist |
| Baro.ReferencePartsOffDomain | crates/loa-weather/src/baro.rs:120-144 | legal chip words outside the domain for which the two readings differ, both readings given |
| Baro.DivisorsArePositive | crates/loa-weather/src/baro.rs:124-138 | on the chip domain the pressure divisor is at least 2048 |
| Baro.WidthIsExactlyTheSquare | crates/loa-weather/src/baro.rs:120-144 | over all 16-bit words every intermediate fits a signed 64-bit word if and only if the one product (p/256)^2 * 3038 does |
| Baro.DomainFitsI64 | crates/loa-weather/src/baro.rs:120-144 | on the chip domain every intermediate fits |
| Baro.BranchFormsWithinOne | crates/loa-weather/src/baro.rs:138 | at equal b7 the two forms of the branch differ by 0 or 1, the lower form above |
| Baro.ClimbsExactlyWhen | crates/loa-weather/src/baro.rs:137-138 | the uncorrected pressure never drops as the raw reading climbs if and only if it does not drop at the single step over 2^31 |
| Baro.SmallDivisorsClimb | crates/loa-weather/src/baro.rs:137-138 | every divisor up to 100000 climbs |
| Baro.ALargerDivisorDrops | crates/loa-weather/src/baro.rs:137-138 | divisor 100388 does not |
| Baro.PressureDropsOverTheBranch | crates/loa-weather/src/baro.rs:120-144 | legal chip words, on the chip domain, at which the pressure falls from 41333 to 41332 Pa as the raw reading climbs by one |
| Baro.CorrectedMonotone | crates/loa-weather/src/baro.rs:139-142 | the final quadratic correction keeps order from -48128 Pa up |
| Baro.KeepsOrderExactlyFromTheTurn | crates/loa-weather/src/baro.rs:139-142 | the correction keeps order from t up if and only if t is at least -48128 |
| Baro.CorrectionDropsBelowTheTurn | crates/loa-weather/src/baro.rs:139-142 | the pair at -48129 and -48128 Pa is swapped |
| Baro.PressureClimbs | crates/loa-weather/src/baro.rs:120-144 | a higher raw reading is never a lower pressure, for one calibration and temperature and an uncorrected pressure from -48128 up, unless the two readings straddle a branch whose two pressures are out of order |
| Baro.PressureClimbsExactlyWhen | crates/loa-weather/src/baro.rs:120-144 | over all 16-bit raw readings from there up the pressure never drops if and only if the corrected pressures on the two sides of 2^31 are in order, or the 16 bits do not reach both sides |
| Baro.ClimbingIsInOrder | crates/loa-weather/src/baro.rs:137-142 | where the uncorrected pressure climbs the pressure does |
| Baro.CorrectionHidesADrop | crates/loa-weather/src/baro.rs:120-144 | not the other way: legal chip words on the domain whose uncorrected pressure drops and whose pressure never does |
| Baro.PinnedRoom | crates/loa-weather/src/baro.rs:165-169 | the room-temperature vector, end to end |
| Baro.PinnedBelowFreezing | crates/loa-weather/src/baro.rs:179-183 | the below-freezing vector, where truncation would differ |
| Baro.PinnedWarm | crates/loa-weather/src/baro.rs:185-191 | the warm vector, end to end |
| Bresenham.LongAxisSteps | crates/loa-oled/src/frame.rs:72-80 | one iteration: the long axis steps always, the short one just when its rounded position moves |
| Bresenham.StepsAgree | crates/loa-oled/src/frame.rs:72-80 | the loop's two tests take exactly the steps from the k-th ideal pixel to the next |
| Bresenham.NextPixel | crates/loa-oled/src/frame.rs:66-80 | position and error term together move to the closed form's next values |
| Bresenham.LastPixel | crates/loa-oled/src/frame.rs:69-71 | the exit test holds at step max(dx, dy) and at no other |
| Bresenham.Ends | crates/loa-oled/src/frame.rs:61-69 | the closed form starts and ends at the two endpoints, with the loop's starting error |
| Bresenham.NearTheSegment | crates/loa-oled/src/frame.rs:61-82 | neither axis is overshot and every pixel is within half a pixel of the ideal segment, exact on the longer axis |
| Bresenham.Distinct | crates/loa-oled/src/frame.rs:61-82 | no pixel is plotted at two steps |
| Bresenham.PixelCount | crates/loa-oled/src/frame.rs:61-82 | exactly max(dx, dy) + 1 pixels |
| Bresenham.ErrorFits | crates/loa-oled/src/frame.rs:66-80 | twice the error stays within three times the line's length |
| Bresenham.SameFromBothEnds | crates/loa-oled/src/frame.rs:61-82 | a line and its reverse light the same pixels if and only if no pixel is a tie |
| Bresenham.ATieDiffers | crates/loa-oled/src/frame.rs:61-82 | the line from (0,0) to (2,1) and the line back: both drawn out, and different |
| Raster.ImageDecides | crates/loa-oled/src/frame.rs:50-56 | the buffer is its picture: same lit points, same bytes |
| Raster.PageMajor | crates/loa-oled/src/frame.rs:45-57 | point (x, y) is bit y % 8, lowest at the top, of byte 128 * (y / 8) + x |
| Raster.OneByte | crates/loa-oled/src/frame.rs:45-57 | setting one bit of one byte changes one point of the picture |
| Raster.InText | crates/loa-oled/src/frame.rs:85-100 | a point of a drawn string comes from one bit of one column of one glyph, six columns a glyph |
| Raster.Frame.Clear | crates/loa-oled/src/frame.rs:38-42 | no point is lit |
| Raster.Frame.Px | crates/loa-oled/src/frame.rs:45-57 | exactly that point is lit or put out; off-screen it changes nothing |
| Raster.Frame.Line | crates/loa-oled/src/frame.rs:61-82 | terminates, and paints exactly the closed form's pixels, endpoints included |
| Raster.Frame.Advance | crates/loa-oled/src/frame.rs:72-80 | the body's two tests, on the three loop variables |
| Raster.Frame.Text | crates/loa-oled/src/frame.rs:85-100 | paints exactly the string's points |
| Raster.Frame.DrawGlyph | crates/loa-oled/src/frame.rs:87-98 | paints exactly one glyph's points |
| Raster.Frame.Column | crates/loa-oled/src/frame.rs:92-96 | paints exactly one column's points |
| Marquee.Draw | crates/loa-oled/src/fonts_draw.rs:57-70 | `topaz` (and `amiga8`, lines 24-37) paints exactly the string's points at their advances |
| Marquee.DrawCell | crates/loa-oled/src/fonts_draw.rs:61-67 | paints exactly one glyph's points |
| Marquee.Row | crates/loa-oled/src/fonts_draw.rs:62-66 | paints exactly one row's points |
| Marquee.TopazStrip | crates/loa-oled/src/fonts_draw.rs:75-101 | sixteen packed rows, each the packing of the glyph rows with one gap each, and the width |
| Marquee.Pack | crates/loa-oled/src/fonts_draw.rs:91-97 | bit i of the packing is bit i of the row, and the tail of the last byte is dark |
| Marquee.StripWidth | crates/loa-oled/src/fonts_draw.rs:75-101 | each row of the strip is as wide as the glyph widths and one gap each |
| Marquee.InString | crates/loa-oled/src/fonts_draw.rs:57-70 | a point of a drawn string is a set bit of a glyph that stands as far right as the widths before it and one column for each |
| Marquee.DrawnIffInStrip | crates/loa-oled/src/fonts_draw.rs:57-101 | a point is drawn exactly when the unpacked strip has it |
| Marquee.TopazIsTheStrip | crates/loa-oled/src/fonts_draw.rs:57-105 | on a clear frame exactly the on-screen points whose `strip_bit` is set are lit, for every string |
| FaceArt.Art | crates/ripperdoc/src/view.rs:241-258 | each cell is the half block of its two pixels |
| FaceArt.ArtLosesNothing | crates/ripperdoc/src/view.rs:241-266 | the buffer can be rebuilt from the cells alone, short and long buffers included |
| FaceArt.ArtShowsTheImage | crates/ripperdoc/src/view.rs:241-266 | a pixel is on the page exactly when it is lit in the frame |
| FaceArt.ArtCells | crates/ripperdoc/src/view.rs:241-258 | the character of each cell from the two lit points it shows |
| Motion.Pir.ResetPending | crates/loa-motion/src/state.rs:90-92 | the streak is forgotten and nothing else |
| Motion.Pir.Seed | crates/loa-motion/src/state.rs:101-112 | new memory and the boot message |
| Motion.Pir.Tick | crates/loa-motion/src/state.rs:117-167 | the whole new state and the news, edge before fire |
| Motion.StreakIsTrailingHighs | crates/loa-motion/src/state.rs:147-165 | the streak counter is the trailing run of high polls since the last low or read error |
| Motion.FiresByTheLaw | crates/loa-motion/src/state.rs:149-161 | count is the number of fires; last_fire and last_ts are the last one's time |
| Motion.FiresExactlyWhen | crates/loa-motion/src/state.rs:147-161 | a poll fires if and only if the trailing run reaches two and the cooldown has passed since the last fire |
| Motion.FireSays | crates/loa-motion/src/state.rs:149-161 | a fire's news carries its own number among all fires of the history and its own time |
| Motion.EdgeSays | crates/loa-motion/src/state.rs:119-146 | after any history a poll makes news of the level if and only if it differs from the poll before it, and the news is that level with the time of a rise |
| Motion.FiresAreSpaced | crates/loa-motion/src/state.rs:149-161 | the i-th and j-th fires are (j - i) cooldowns apart |
| Motion.FireRate | crates/loa-motion/src/state.rs:149-161 | an interval of length L holds at most 1 + L / cooldown fires |
| Motion.EdgesAlternate | crates/loa-motion/src/state.rs:119-146 | rises and falls alternate and every hold is its fall's time minus its rise's |
| Motion.MemoryHoldsThePin | crates/loa-motion/src/state.rs:101-146 | after a boot seed and any polls and read errors the memory holds the last polled level, except exactly when the seed saw high and no poll ever did |
| CortexState.Cortex.Merge | crates/loa-cortex/src/state.rs:136-230 | the whole new state, body by body, with the pressure window |
| CortexState.Cortex.MergePirFields | crates/loa-cortex/src/state.rs:138-162 | present fields land, absent ones are kept |
| CortexState.Cortex.MergeSonarFields | crates/loa-cortex/src/state.rs:163-173 | the same for the sonar |
| CortexState.Cortex.MergeWeatherFields | crates/loa-cortex/src/state.rs:174-203 | the same for the weather, and a pressure is pushed |
| CortexState.Cortex.PushBaro | crates/loa-cortex/src/state.rs:234-243 | append, then drop the stale front |
| CortexState.PruningIsExact | crates/loa-cortex/src/state.rs:235-242 | front pruning keeps exactly the recent samples if and only if no stale sample sits behind a recent one |
| CortexState.WindowIsTheLastThreeHours | crates/loa-cortex/src/state.rs:234-243 | for timestamps that never go back the window is exactly the pushes at most three hours behind the newest |
| CortexState.WindowIsOfTheSamples | crates/loa-cortex/src/state.rs:136-243 | over every run of messages the window is that of the pressures they carried, whatever rode with them, stamped by their ts or 0 |
| CortexState.MergedWindowIsTheLastThreeHours | crates/loa-cortex/src/state.rs:136-243 | with ordered stamps it is exactly the pressures merged at most 10800 seconds before the newest |
| CortexState.NewestStays | crates/loa-cortex/src/state.rs:234-243 | a pressure pushed is the newest sample, whatever the window held |
| CortexState.PirIsTheLastHeard | crates/loa-cortex/src/state.rs:138-162 | over every run of messages of any kind each PIR field is the last value a message carried of it, or its first value |
| CortexState.SonarIsTheLastHeard | crates/loa-cortex/src/state.rs:163-173 | the same for the sonar |
| CortexState.AirIsTheLastHeard | crates/loa-cortex/src/state.rs:174-203 | the same for temperature and humidity |
| CortexState.BaroIsTheLastHeard | crates/loa-cortex/src/state.rs:174-203 | the pressure's stamp and count are the last that rode with a pressure |
| CortexState.FaultIsTheLastHeard | crates/loa-cortex/src/state.rs:204-226 | the rows of the last fault message, its stamp or time of arrival, and the last condition said |
| Trend.BaroTrend | crates/loa-cortex/src/state.rs:250-283 | the direction of the window's slope, and the last sixty pressures in order |
| Trend.NumeratorIsPairs | crates/loa-cortex/src/state.rs:255-266 | n*sum(tp) - sum(t)*sum(p) is the sum over all pairs of the products of differences |
| Trend.DenominatorIsPairs | crates/loa-cortex/src/state.rs:255-266 | the denominator is the sum over all pairs of squared time differences |
| Trend.GuardFailsOnlyAtOneInstant | crates/loa-cortex/src/state.rs:261-266 | the denominator is never negative, and 0 if and only if all timestamps are equal |
| Trend.RisingTogetherIsNeverFalling | crates/loa-cortex/src/state.rs:261-273 | pressure rising together with time is never "falling" |
| Trend.DirectionByPairs | crates/loa-cortex/src/state.rs:250-273 | for every window: rising or falling by the sums over its pairs against 0.3 hPa in 3600 seconds, and steady at a single instant |
| Trend.DirectionOnALine | crates/loa-cortex/src/state.rs:261-273 | on samples of a line of slope b at two instants or more: rising if and only if 3600 b > 0.3, falling if and only if 3600 b < -0.3, else steady |
| Trend.NegatingTurnsItRound | crates/loa-cortex/src/state.rs:250-273 | negating every pressure turns rising into falling and falling into rising |
| Trend.SlopeIsExactOnALine | crates/loa-cortex/src/state.rs:261-266 | on samples of a line the slope is the line's |
| Trend.TrendIsShiftInvariant | crates/loa-cortex/src/state.rs:250-283 | a constant added to the clock or to the pressure changes nothing |
| Trend.SlopeIsLeastSquares | crates/loa-cortex/src/state.rs:245-266 | no line has a smaller squared error over the window than the one of the reported slope through the mean |
| Glass.RenderState.Hold | crates/loa-oled/src/rstate.rs:212-265 | a PIR body on its own topic is taken whole; any other pair leaves the view alone |
| Replication.OneFullRestoresAll | crates/loa-motion/src/state.rs:28-39 | one full() merged into an empty cortex restores every field, on_ts included |
| Replication.FullRestoresExactlyWhen | crates/loa-cortex/src/state.rs:138-162 | into any cortex: the daemon is told in full, and agreement is restored if and only if the cortex holds no last_ts or last_hold the daemon never had |
| Replication.SentKeepsTelling | crates/loa-motion/src/state.rs:101-167 | each step's messages, merged, bring what the daemon has told over the step |
| Replication.SentKeepsAgreement | crates/loa-motion/src/state.rs:101-167 | and carry agreement over it |
| Replication.NextKeeps | crates/loa-motion/src/state.rs:101-167 | every step of the three-machine system, restarts of either end among them, keeps the invariant |
| Replication.RunKeeps | crates/loa-motion/src/state.rs:101-167 | and so does every run |
| Replication.EveryRunAgrees | crates/loa-cortex/src/build.rs:74-83 | in every run an answered cortex that has merged its queue is told all the daemon has to tell, and agrees with it, as does the glass once both queues are drained, if and only if nothing stale of an earlier daemon is left in it |
| Replication.OneDaemonAgrees | crates/loa-cortex/src/build.rs:74-83 | in every run in which the daemon does not restart nothing stale ever is: cortex and glass agree |
| Replication.RestartRecovers | crates/loa-cortex/src/state.rs:136-162 | after a cortex restart one delivered answer alone restores agreement, on_ts included |
| Replication.DaemonRestartLeavesItStale | crates/loa-motion/src/state.rs:28-39 | from any state that knows of a fire, a restarted daemon's delivered full() leaves the old last_ts and no agreement |
| Replication.Drain | crates/loa-cortex/src/state.rs:136-162 | delivering all that is queued leaves the cortex as it was to settle |
| Replication.RestartedDaemonLeavesStaleFacts | crates/loa-motion/src/state.rs:28-39 | a run from the start that ends so |
| Weather.Air.Dht | crates/loa-weather/src/state.rs:57-81 | the whole new state and the news |
| Weather.Air.Baro | crates/loa-weather/src/state.rs:88-110 | the whole new state and the news |
| Weather.MemoryIsTheHistory | crates/loa-weather/src/state.rs:57-124 | over every run the count is the number of frames, the readings are the last measured, and the gates remember what was last said |
| Weather.DhtNewsExactly | crates/loa-weather/src/state.rs:57-81 | after any history: a frame is news exactly when a number moved from what was last said, with the moved ones, its stamp and the count |
| Weather.BaroNewsExactly | crates/loa-weather/src/state.rs:88-110 | the same for a pressure, which never carries a temperature |
| Weather.AnswerSaysTheLast | crates/loa-weather/src/state.rs:114-124 | an answer is what was last measured of everything and the stamp of the last news |
| Weather.BaroNewsIsTheNewestSample | crates/loa-cortex/src/state.rs:174-203 | a published pressure, once merged, is the newest sample of the window at its own time |
| Weather.FullLevelsExactlyWhen | crates/loa-weather/src/state.rs:114-124 | one answer brings any cortex level with every number of the daemon if and only if the cortex holds nothing the daemon never measured |
| Weather.GateHolds | crates/loa-weather/src/state.rs:29-110 | in every run the gate's memory is within a step of the measurement and the cortex within a step of the gate's memory; counts never exceed the daemon's |
| Weather.CortexStaysClose | crates/loa-cortex/src/state.rs:174-203 | the cortex is strictly within 0.05 of the latest measurement without init answers, within 0.1 with them |
| Weather.AnAnswerWidensTheGap | crates/loa-weather/src/state.rs:114-124 | a run with an answer where the gap is 0.08: the wider bound is needed |
| Weather.CountCatchesUp | crates/loa-weather/src/state.rs:57-110 | each message that carries the count brings the cortex's count up to the daemon's |
| AirLink.NextKeeps | crates/loa-weather/src/state.rs:57-124 | every step of daemon, queue and restarting cortex keeps the invariant |
| AirLink.EveryAirRunStaysClose | crates/loa-cortex/src/state.rs:174-203 | in every run, with messages in flight and restarts, an answered cortex that has merged its queue is within 0.05 without init answers and 0.1 with them, and no count is ahead |
| AirLink.RestartLevels | crates/loa-weather/src/state.rs:114-124 | after a restart that loses the queue one delivered answer makes the cortex level |
| Dither.Dither.Render | crates/loa-ring/src/render.rs:38-50 | every code and every remainder of a frame, LED by LED and channel by channel |
| Dither.Dither.Led | crates/loa-ring/src/render.rs:41-47 | the same for one LED, the others untouched |
| Dither.ThreeBytesALight | crates/loa-ring/src/render.rs:38-50 | light i is bytes 3i to 3i + 2: red, green, blue |
| Dither.LightIsConserved | crates/loa-ring/src/render.rs:38-50 | over any run of values in [0, 255]: remainder in [0, 1), the clamp never bites, codes and remainder sum to the input |
| Dither.NeverACodeBehind | crates/loa-ring/src/render.rs:38-50 | the light put out is always less than one code short |
| Dither.HsvMax | crates/loa-ring/src/tells.rs:134-152 | the brightest channel is 255 v at every hue |
| Dither.HsvIsTheHexcone | crates/loa-ring/src/tells.rs:134-152 | at every hue of the circle the three channels are those of the hexcone formula v - v s max(0, min(k, 4 - k, 1)), k = (n + h/60) mod 6, n = 5, 3, 1 |
| Dither.HsvDisplayable | crates/loa-ring/src/tells.rs:134-152 | all channels lie in [0, 255] if and only if the hue is not negative, or the value is 0, or the saturation is low enough for how far the hue sinks one channel |
| Dither.ANegativeHueSinks | crates/loa-ring/src/tells.rs:134-152 | hue -30 at full saturation and value: one channel at -127.5 |
| Dither.ScalarIsTheFramesLevel | crates/loa-ring/src/render.rs:257-264 | keeping a breath's scalar and applying the hue later gives the level of the sampled coloured frame |
| Tells.SampleWraps | crates/loa-ring/src/tells.rs:207-219 | within one turn the index is the floor of the share and the clamp never bites; at its very end the sequence is back at its start |
| Tells.BreathBetween | crates/loa-ring/src/tells.rs:161-186 | a breath curve stays between its base and its peak, for any easing with values in [0, 1] |
| Tells.SamplingTheScalarIsSamplingTheFrame | crates/loa-ring/src/render.rs:257-264 | sampling the scalar curve is sampling coloured frames and taking the brightest channel over 255, at every time |
| Tells.AroundInRange | crates/loa-ring/src/tells.rs:244 | the distance behind the head lies in [0, 24), for heads of either sign |
| Tells.CometFrame | crates/loa-ring/src/tells.rs:241-251 | each LED by its distance behind the head, around the ring |
| Tells.LapFrames | crates/loa-ring/src/tells.rs:225-232 | the lap, frame by frame |
| Tells.FadeFrames | crates/loa-ring/src/tells.rs:233-238 | the fade where the lap stopped |
| Tells.ScanFrames | crates/loa-ring/src/tells.rs:221-239 | lap, then fade |
| Tells.ScanDisplayable | crates/loa-ring/src/tells.rs:221-251 | every frame of a scan is within the codes |
| Tells.HomeDisplayable | crates/loa-ring/src/render.rs:241-264 | every home frame is, breath or niggle |
| Tells.BusyDisplayable | crates/loa-ring/src/render.rs:233-236 | every busy frame is |
| Tells.HurtsDisplayable | crates/loa-ring/src/render.rs:217-221 | every hurts frame is, and its step index stays in the table |
| Tells.HomeFrame | crates/loa-ring/src/render.rs:248-264 | the frame of home, tick or breath |
| Tells.ScanShot | crates/loa-ring/src/render.rs:269-288 | the sampled frame of a scan |
| Tells.AlarmLight | crates/loa-ring/src/render.rs:203-213 | full red in three flashes of 0.4 and 0.3 apart, every 4.1 seconds, else black |
| Tells.HurtsLight | crates/loa-ring/src/render.rs:217-221 | red alone, 216.75 for 0.84 seconds of every 1.96 and 45.9 for the rest |
| Tells.MuteLight | crates/loa-ring/src/render.rs:226-230 | black, and white at 15.3 for the last 0.4 of every 10 seconds |
| Tells.HomeCurveIs | crates/loa-ring/src/tells.rs:161-192 | the home breath frame by frame: 90 in, 24 held, 126 out, 15 at rest |
| Tells.BusyCurveIs | crates/loa-ring/src/tells.rs:161-198 | the busy breath: 72, 15, 102, 12 |
| Tells.BusyLight | crates/loa-ring/src/render.rs:233-236 | that breath in amber, every 6.7 seconds |
| Tells.BreathLight | crates/loa-ring/src/render.rs:260-264 | that breath without red, in green with a drifting share in blue, every 8.5 seconds |
| Tells.NiggleLight | crates/loa-ring/src/render.rs:241-255 | a due niggle: 0.18 seconds of bright and 0.18 of dim amber, next due 20 seconds after it began, and otherwise the breath |
| Tells.NotDue | crates/loa-ring/src/render.rs:241-247 | a niggle that is not due leaves the schedule alone |
| Tells.CometLight | crates/loa-ring/src/tells.rs:241-251 | each LED of a comet by how far it is behind the head, black from six on |
| Tells.SlowScanLight | crates/loa-ring/src/render.rs:269-288 | a scan at every moment: half an LED a frame for 48 frames, then 15 of fade |
| Tells.FastScanLight | crates/loa-ring/src/render.rs:269-288 | with the console on, 27 frames of lap and 9 of fade |
| Tells.GlitchLight | crates/loa-ring/src/render.rs:290-314 | red or cyan by the coin for nine tenths of the 0.3 seconds, then black |
| Ring.Renderer.NoteOneshot | crates/loa-ring/src/render.rs:134-148 | the whole new state |
| Ring.Renderer.Render | crates/loa-ring/src/render.rs:162-200 | the whole new state, the codes put out, and a fresh dither exactly when the spoken tell changes |
| Ring.Renderer.Decide | crates/loa-ring/src/render.rs:163-190 | the tell that speaks, its frame, and the record and schedule after it |
| Ring.Renderer.HomeFrame | crates/loa-ring/src/render.rs:241-255 | the niggle's schedule after it, and home's frame |
| Ring.Renderer.ScanFrame | crates/loa-ring/src/render.rs:269-288 | the record spent past its length, else the sampled frame |
| Ring.Renderer.GlitchFrame | crates/loa-ring/src/render.rs:290-314 | the record spent past its length, else noise or the dark tail |
| Ring.TicksAreRare | crates/loa-ring/src/render.rs:241-247 | over every run niggle ticks start at least twenty seconds apart |
| Ring.SpokenLadder | crates/loa-ring/src/tells.rs:108-125 | after any history: alarm exactly when the state word is "alarm", hurts exactly when not and the body hurts, then mute, then busy, then a record not past its 0.3, 1.2 or 2.1 seconds, else home |
| Ring.HeldIsTheLastAccepted | crates/loa-ring/src/render.rs:134-148 | a held record is the last note accepted, a scan if its word is "scan" and a glitch if it is "glitch" |
| Ring.HeldIsShown | crates/loa-ring/src/render.rs:163-190 | which frame is seen after any history, for any looks of the tells |
| Ring.ShotIsShown | crates/loa-ring/src/render.rs:163-190 | a playing record is shown as far along as its last accepted note or gated render is ago |
| Ring.AlarmIsShown | crates/loa-ring/src/render.rs:162-213 | after any history, in alarm: full red in its lit phases and black in the others |
| Ring.HurtsIsShown | crates/loa-ring/src/render.rs:162-221 | hurt and not in alarm: never green or blue |
| Ring.MuteIsShown | crates/loa-ring/src/render.rs:162-230 | mute and not in alarm: black but for the blink |
| Ring.BusyIsShown | crates/loa-ring/src/render.rs:162-236 | busy and neither hurt nor mute: the amber breath |
| Ring.HomeIsShown | crates/loa-ring/src/render.rs:162-264 | well, with nothing to do: the home breath |
| Ring.EveryFrameIsDisplayable | crates/loa-ring/src/render.rs:175-183 | whatever speaks, at any clock reading, every channel of its frame is in [0, 255] |
| Ring.BrightRunsConserveLight | crates/loa-ring/src/render.rs:38-200 | over every run of notes and renders, of any tells within the codes: no code is clamped, and since the tell began each channel is less than one code short of the light asked for |
| Ring.RunConservesLight | crates/loa-ring/src/render.rs:38-200 | so in every run of the renderer's own tells, whatever the coins |
| Ring.PlaysExactlyWhen | crates/loa-ring/src/tells.rs:108-125 | a record plays if and only if one is held, the ring is home with nothing higher, and its length is not over |
| Ring.GatedIsKept | crates/loa-ring/src/render.rs:165-174 | a gated record is kept and its length starts again |
| Ring.SeenIsHistory | crates/loa-ring/src/render.rs:134-148 | what the renderer has seen is exactly the noted history |
| Ring.AcceptedExactlyOnce | crates/loa-ring/src/render.rs:134-148 | over a whole run a (kind, timestamp) is accepted at its first note and never again |
| Ring.StartIsLastAnchor | crates/loa-ring/src/render.rs:134-174 | the held record's clock started at the last accepted note or gated render |
| Ring.SpentExactlyWhen | crates/loa-ring/src/render.rs:269-314 | a render spends the record if and only if it is playable and more than its length has passed since that moment |
| Vault.ConstantTimeEq | crates/loa-cortex/src/vault.rs:161-172 | equality of the two byte strings, lengths included |
| Vault.StripPad | crates/loa-cortex/src/vault.rs:183-189 | exactly the trailing padding is cut |
| Vault.Vault.WriteMode | crates/loa-cortex/src/vault.rs:149-159 | the old content or all of the new, and no other file |
| Vault.Vault.LogAccess | crates/loa-cortex/src/vault.rs:338-348 | one line at the end of the log, or nothing |
| Vault.Vault.WriteStatus | crates/loa-cortex/src/vault.rs:352-375 | the status of the present files |
| Vault.Vault.Ensure | crates/loa-cortex/src/vault.rs:65-84 | each missing file is made or not at every point of failure, key before token before journal; nothing present is touched |
| Vault.Vault.Append | crates/loa-cortex/src/vault.rs:281-290 | the old list or the old list and one entry, at every point of failure |
| Vault.Vault.Read | crates/loa-cortex/src/vault.rs:295-310 | the log line first; the list and the last thirty lines |
| Vault.Vault.Wipe | crates/loa-cortex/src/vault.rs:315-334 | keys first, then journal, marker and log, at every point of failure |
| Vault.Vault.CheckToken | crates/loa-cortex/src/vault.rs:100-106 | granted if and only if the presented bytes are the seal and not empty |
| Vault.Vault.DoorAppend | crates/loa-cortex/src/http.rs:132-141 | no entry, nothing; no seal, the wipe; the seal, the append and never a wipe |
| Vault.Vault.DoorRead | crates/loa-cortex/src/http.rs:142-148 | no seal, the wipe; the seal, the read |
| Vault.DeadStaysDead | crates/loa-cortex/src/vault.rs:65-84 | a journal the present key cannot open stays closed over any operation, whole or cut short |
| Vault.WipedIsWiped | crates/loa-cortex/src/vault.rs:315-334 | from the moment key.bin is gone and a journal file is there, no run makes `load` return a list |
| Vault.AfterTheUnlink | crates/loa-cortex/src/vault.rs:315-334 | a wipe that got past the unlink leaves exactly that state, finished or not |
| Vault.GoneForGoodExactlyWhen | crates/loa-cortex/src/vault.rs:65-84 | without a key, no run ever loads again if and only if the journal file exists |
| Vault.NextEnsureStartsEmpty | crates/loa-cortex/src/vault.rs:65-84 | with neither, an `ensure` that gets through leaves an empty list under a key of its own |
| Vault.JournalIsTheAppends | crates/loa-cortex/src/vault.rs:275-290 | while nothing wipes, the journal is the landed appends in order, every answered one among them |
| Vault.LogOnlyGrows | crates/loa-cortex/src/vault.rs:275-348 | the access log only grows, and every answered append, read and wipe left its own line right behind what was there |
| Vault.ReadAnswersTheLastThirty | crates/loa-cortex/src/vault.rs:295-310 | the lines that ride out are the last min(30, n) of the log, this read's own the last |
| Vault.StatusTellsTheTruth | crates/loa-cortex/src/vault.rs:352-375 | after any operation that got through the public status is sealed exactly when the journal opens, with its length, the log's and the marker |
| Vault.AWipeTakesTheKeyFirst | crates/loa-cortex/src/vault.rs:315-334 | a wipe that stopped before the key went took nothing, and no marker is written over a journal that stands |
| Numerals.ReadsBack | crates/loa-fault/src/main.rs:365-408 | a printed count parses back |
| Report.Escape | crates/loa-fault/src/main.rs:366-380 | the escaped text, character by character |
| JsonText.EscapedSaysItself | crates/loa-fault/src/main.rs:366-380 | every escaped string is a well-formed JSON string body (section 7 of RFC 8259) that says what was printed |
| JsonText.EscapedOnlyWhenItMust | crates/loa-fault/src/main.rs:366-380 | a character is escaped if and only if it is a quote, a backslash or below U+0020 |
| JsonText.RowLayout | crates/loa-fault/src/main.rs:381-395 | a row as it stands in the file, key by key |
| JsonText.FileLayout | crates/loa-fault/src/main.rs:396-408 | the file around the rows |
| Report.ParseRows | crates/loa-fault/src/main.rs:580-601 | the rows of the area, object by object |
| Report.ParsedIsPlain | crates/loa-fault/src/main.rs:549-611 | whatever text is parsed, no string that comes out holds a quote, and no row's a closer |
| ReportRoundTrip.RowReadsBack | crates/loa-fault/src/main.rs:381-395 | one printed row gives back its four fields |
| ReportRoundTrip.RowsReadBack | crates/loa-fault/src/main.rs:580-601 | any number of printed rows read back in order |
| ReportRoundTrip.FileReadsBack | crates/loa-fault/src/main.rs:549-611 | a whole printed file reads back |
| ReportRoundTrip.EscapesNothing | crates/loa-fault/src/main.rs:366-380 | escaping leaves a text alone if and only if it has no quote, backslash or control character |
| ReportRoundTrip.ParsesBackEscaped | crates/loa-fault/src/main.rs:365-408 | every report without quotes or closers comes back with each string as it was escaped |
| ReportRoundTrip.RoundTripsExactlyWhenClean | crates/loa-fault/src/main.rs:549-611 | a report comes back unchanged if and only if it is clean |
| Flusher.Cortex.SetState | loa/cortex/state.py:215-236 | the new state and pending map; only persisted keys are queued |
| Flusher.Cortex.LogEvent | loa/cortex/state.py:239-254 | the new queue, its oldest dropped past the cap |
| Flusher.Cortex.TakeAll | loa/cortex/state.py:157-167 | the flusher's first lock section |
| Flusher.Cortex.Save | loa/cortex/state.py:169-170 | the settings call, whole or raising part way |
| Flusher.Cortex.Add | loa/cortex/state.py:171-172 | one record call, whole or raising before or after it stored |
| Flusher.Cortex.PutBack | loa/cortex/state.py:173-179 | the failure section: the hand goes back in front |
| Flusher.Cortex.Finish | loa/cortex/state.py:180-183 | the success section: the flushed keys are un-pended |
| Flusher.StepKeepsRecords | loa/cortex/state.py:147-183 | every step keeps each record accounted for and the log order |
| Flusher.NoRecordIsLost | loa/cortex/state.py:147-254 | over every interleaving and every failure each record is stored, in hand, queued or dropped |
| Flusher.RecordsAreAsLogged | loa/cortex/state.py:147-254 | over every run what is queued, in hand or stored says word for word what was logged under its number, or was stored before the run |
| Flusher.StoredIsPutBackExactlyWhen | loa/cortex/state.py:169-178 | a failing record call puts a stored record back into the hand if and only if a call before it in the hand stored one, or it stored its own |
| Flusher.LineIsKeptExactlyWhen | loa/cortex/state.py:147-254 | a step keeps each record once, in its place, if and only if it is not such a failure |
| Flusher.CleanRunsStoreOnce | loa/cortex/state.py:147-254 | in every run without such a failure, whatever else fails, each undropped record is on the line store-hand-queue exactly once, in log order |
| Flusher.CalmRunsStoreOnce | loa/cortex/state.py:147-254 | in particular in a run in which no store call fails |
| Flusher.FailureWritesTwice | loa/cortex/state.py:169-178 | after a failure half way the next record call stores the first record of the hand again, settings pending or not |
| Flusher.TwiceFromBoot | loa/cortex/state.py:147-254 | a run from boot after which the store holds one record twice |
| Flusher.NoBoundOnTheQueue | loa/cortex/state.py:173-179 | a hand put back ignores the cap: during an outage the queue passes every bound |
| Flusher.CapIsKeptExactlyWhen | loa/cortex/state.py:173-179 | a step keeps a queue under the cap under it if and only if it does not put back more than fits |
| Flusher.LogRestoresTheCap | loa/cortex/state.py:248-253 | whatever was put back, the next record logged brings the queue under the cap |
| Flusher.TheNewestAreKept | loa/cortex/state.py:248-253 | a log keeps the newest 5000, the new record last, and counts as dropped exactly what was older |
| Flusher.DownExactlyWhen | loa/cortex/state.py:173-183 | over every run the store is held to be down if and only if the flush that ended last failed |
| Flusher.OverTheCapExactlyWhen | loa/cortex/state.py:147-254 | over every run from a boot the queue is over the cap if and only if the action that last touched it put back more than fits |
| Flusher.InterleavedRunsStayBounded | loa/cortex/state.py:147-254 | where a record is logged between every put-back and the next hand, hand and queue together never hold more than twice the cap |
| Flusher.StepKeepsSettings | loa/cortex/state.py:147-236 | every step keeps pending map, snapshot, store and state in agreement |
| Flusher.StepKeepsHistory | loa/cortex/state.py:147-236 | and what they owe to the history of the settings calls |
| Flusher.SettledSettings | loa/cortex/state.py:147-236 | over every run: a persisted setting that was set and is no longer pending was stored by a finished flush, and the store has the state's value if and only if the value last set before that flush took it is the value last set before it was done |
| Flusher.QuietSettings | loa/cortex/state.py:147-236 | where no caller sets it while a snapshot holding it is being written, the store has the value last set, whatever fails |
| Flusher.LostUpdate | loa/cortex/state.py:180-183 | a run in which a value set during the flush is un-pended without reaching the store |
| Dht.ReadByte | crates/loa-weather/src/dht.rs:66-69 | eight widths, most significant first, without loss in the narrowing |
| Dht.ReadFrame | crates/loa-weather/src/dht.rs:63-70 | the five bytes of an alignment |
| Dht.Decode | crates/loa-weather/src/dht.rs:57-81 | the reading of the least sound alignment, and None if and only if there is none |
| Dht.SaysOneThing | crates/loa-weather/src/dht.rs:57-81 | that specification has one answer |
| Dht.CarriedIsRead | crates/loa-weather/src/dht.rs:63-70 | widths that carry five bytes, whatever their lengths, are read as those bytes |
| Dht.SentIsRead | crates/loa-weather/src/dht.rs:57-81 | forty widths carrying a frame say its reading if and only if checksum and range hold, and nothing otherwise |
| Dht.HeardByIntegers | crates/loa-weather/src/dht.rs:57-81 | forty widths of five bytes are heard if and only if the first four sum to the fifth modulo 256, 10 temp + tenths <= 800 and 10 hum + tenths <= 1000; and heard as those tenths |
| Dht.OneSpoiltByteSaysNothing | crates/loa-weather/src/dht.rs:71-73 | in a sound train of exactly forty, any damage confined to one byte says nothing |
| Dht.LongPulseInFrontIsSkipped | crates/loa-weather/src/dht.rs:62-79 | a long pulse in front, such as the sensor's answer, never changes what a train says |
| Dht.StrayPulsesAreHeard | crates/loa-weather/src/dht.rs:62-79 | any number of stray pulses in front of a sound frame: which reading is heard, by arithmetic on its five bytes |
| Dht.ShortPulseIsHarmlessExactlyWhen | crates/loa-weather/src/dht.rs:62-79 | with one short pulse in front a sound frame is heard right if and only if its bytes read one bit early are unsound or say the same |
| Dht.ShortPulseInFrontHalves | crates/loa-weather/src/dht.rs:62-79 | in particular an even frame without overflow reads as half its humidity and temperature |
| Dht.MisreadRoom | crates/loa-weather/src/dht.rs:62-79 | the sensor's own widths for 44 % and 12.2 degrees, and the same train with a 30 us pulse in front: 22 % and 6.1 |
| Dht.HighsFromEdges | crates/loa-weather/src/dht.rs:88-100 | the widths of the paired edges |
| Dht.HighsOfTrain | crates/loa-weather/src/dht.rs:88-100 | pairing gives back the widths of every pulse train, with or without a stray leading fall |
| Dht.MissedFallMispairs | crates/loa-weather/src/dht.rs:88-100 | after a missed fall the width is rise to rise |
| Dht.EdgesAreRead | crates/loa-weather/src/dht.rs:57-100 | from edges to reading, through the start fall and the sensor's answer, at any spacing |
| WsEncode.WsByte | crates/loa-ring/src/encode.rs:43-47 | eight pulses that a receiver reads as the byte, taking a pulse for a one when the line is high for more than half of it |
| WsEncode.BytesOnTheWire | crates/loa-ring/src/encode.rs:33-47 | each of the eight bytes: 0b1110 if the bit of that weight, 128 first, is set, and 0b1000 if not |
| WsEncode.PinnedBytes | crates/loa-ring/src/encode.rs:161-177 | the pinned vectors of 200 and 3 |
| WsEncode.EncodeFrame | crates/loa-ring/src/encode.rs:52-61 | every whole light in its place, green first, then 24 zero bytes |
| WsEncode.ShownIsSent | crates/loa-ring/src/encode.rs:52-61 | a receiver that stops at the latch shows every whole light and nothing more |
| WsEncode.InvertibleExactlyWhenWhole | crates/loa-ring/src/encode.rs:52-61 | the frame comes back if and only if its length is a multiple of three |
| WsEncode.SameWireSameLights | crates/loa-ring/src/encode.rs:52-61 | two frames of any lengths share a wire form if and only if their whole lights are the same |
| WsEncode.LowExactlyInTheLatch | crates/loa-ring/src/encode.rs:52-61 | a byte of the wire is zero if and only if it is one of the last 24 |

## Left out

- Sockets, async loops, GPIO, I2C and SPI calls, subprocess probes, the database: foreign calls.  Queues are lossless and unbounded, so the high-water mark that drops messages is not modelled; lost messages appear only as part of a restart at either end.
- Float rounding: `f64` is `real`.  The report's `ts` is carried as the text it is displayed as; the parser's acceptance of other float spellings is not modelled.
- Wrap-around of counters (`u32`, `usize`) and of `i32` coordinates: unbounded integers, with `Bresenham.ErrorFits` and `Baro.WidthIsExactlyTheSquare` saying when the source's width suffices.
- Fernet, HMAC-SHA256 and base64: an ideal cipher (a token opens under its own key only; a drawn key is never drawn again) and an abstract `mac`.  Tampering with the directory from outside, file modes, and loss of a rename after a power cut are not modelled.
- Vault.Vault.Ensure: a key file that exists but holds no key makes it fail, as in the source; how base64 damage is reported is not modelled.
- Vault.Vault.WriteStatus: the status is a record of its five values; the hash of the journal file is the content itself, the marker's text is its reason without the stamp, and the JSON of health and public status is not modelled.
- Vault.Vault.LogAccess: a line is written whole or not at all; a crash in the middle of the write, which leaves part of a line for the next one to join, is not modelled.
- Fonts and glyph tables: any glyphs of the stated width.  `amiga10` (16-bit rows) and `text3x5` add only easier members of the same kind.
- The values of `sin`, `cos`, `exp` and of the random coins: they are parameters, and only the ranges of the first three are used.  The sequences the renderer builds once are built at each use.
- `Ring.Renderer.Render` takes the clock's reading as a parameter, and the one-shot's timestamp is compared as a number, not by its bits.
- `device_condition`, `condition_from`, `renderer_condition`, `ring_dark`, `face_state`, `build_fault`, `build_weather`, `Model::apply`, settings verbs and HTTP dispatch: thin branching.
- The sonar, weather and fault arms of the display's `hold`, and the caching of the last face and ring.
- Flusher: `PERSISTED` is a parameter (a set of keys), each lock section and each store call is one step, and replacing the store while the thread runs is not modelled.
- Dht.HighsFromEdges: the spin that collects edges, its 84-edge limit and its deadline are not modelled; any list of edges is.
- The boards' pixel mapping and rotation, loa.conf parsing, page layouts, and the Python renderers that the Rust crates replace.
