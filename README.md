# Eclipse Hunter: the simulator's state machine in Dafny

Eclipse Hunter is a pygame demo. It shows a sun, four planets on circular
orbits and a moon around Earth. It reports an "eclipse" when the moon is
nearer the sun than Earth is and within 50 pixels of Earth. This project
models the deterministic logic under the drawing and proves properties of it:

- **Eclipse counter** (`Stats`). The statistics panel counts frames and
  eclipses and remembers the frame of the last counted eclipse. A detection
  counts only when more than 60 frames have passed since that frame.
  `Counter`, `Step`, `Run` and `Accepted` give the panel's behaviour as
  values. The class `StatsPanel` changes its three fields in place and is
  proved against `Step`. The module also holds the day/year/month breakdown
  of the elapsed frames.
- **Geometry** (`Geometry`). The eclipse predicate and the click hit-test,
  over the reals. They compare squared distances, and lemmas show that this
  agrees with the program's square-root comparisons.
- **Controls** (`Controls`). The speed multiplier, kept as a count of
  halves from 1 to 20 (0.5 to 10). Also the selection change on a click and
  the countdown of the "ECLIPSE!" banner, all as functions with lemmas.
- **Main loop** (`Simulation`). The classes `Planet` and `Moon` hold their
  orbital angle, and `Planet` also holds its selection flag. The class `Sim`
  holds what the main loop changes in place: pause, speed, the
  instructions toggle, the selected planet, the banner timer and the
  statistics panel. It has one method per input event and `Tick` for the
  rest of a frame. `Sim.Valid` is the loop's invariant:
  - at most one planet is flagged as selected, and it is the selected planet;
  - the speed stays in range;
  - the banner timer always runs out before the debounce accepts the next
    eclipse.

Where the design description and the code differ, the model follows the
code:

- The description says an eclipse is accepted once "at least 60 ticks" have
  passed. The code requires `total_frames - last_eclipse_frame > 60`, that is
  at least 61 (`Stats.Step`).
- The description says a continuous alignment is counted only once. In the
  code, a detection that never stops is counted again every 61 frames
  (`Stats.ContinuousDetection`).
- The banner's comment says it shows "for 1 second". The timer is set to 60
  and decremented in the same frame, so it is drawn on 59 frames
  (`Controls.BannerShownAfterEclipse`).

## Model

| member | source | states |
|---|---|---|
| `Geometry.SqDist` | eclipse_sim.py:210-215 | a squared distance is never negative |
| `Geometry.SqDistSymmetric` | eclipse_sim.py:214-215 | moon-to-planet and planet-to-moon are the same distance |
| `Geometry.SquareLess` | eclipse_sim.py:210-217 | comparing non-negative distances is the same as comparing their squares, so no square root is needed |
| `Geometry.CheckEclipseMatchesDistances` | eclipse_sim.py:209-219 | for the true distances, the eclipse predicate holds iff sun-to-moon < sun-to-planet and moon-to-planet < 50 |
| `Geometry.IsClickedMatchesDistance` | eclipse_sim.py:89-91 | for the true distance, a click hits iff the distance is at most size + 5 |
| `Geometry.NoEclipseAtPlanet` | eclipse_sim.py:217 | a moon at the planet's own position is not nearer the sun, so there is no eclipse |
| `Geometry.CentreIsClicked` | eclipse_sim.py:89-91 | a click at a planet's centre always hits it |
| `Stats.Fresh` | eclipse_sim.py:154-157 | a new panel has zero frames, zero eclipses, last eclipse frame -1000, and satisfies the counter invariant |
| `Stats.Step` | eclipse_sim.py:159-165 | every update adds exactly one frame; it reports a new eclipse iff one is detected and more than 60 frames have passed since the last one; then the count grows by one and the last-eclipse frame becomes the current frame; otherwise both are unchanged |
| `Stats.FirstDetectionAccepted` | eclipse_sim.py:157-164 | a fresh panel accepts its first detection, at frame 1 |
| `Stats.StepKeepsInv` | eclipse_sim.py:159-165 | every update keeps the invariant: k counted eclipses need a last-eclipse frame of at least 61(k-1)+1, and it is within the frames seen |
| `Stats.CountBounded` | eclipse_sim.py:161-163 | the eclipse count never exceeds the frame count, nor ceil(frames / 61) |
| `Stats.Run` | eclipse_sim.py:159-165 | a sequence of updates adds one frame per update, adds at most one eclipse per update, and keeps the invariant |
| `Stats.RunRecordsAccepted` | eclipse_sim.py:161-163 | after a sequence of updates, the count has grown by the number of accepted frames, and the last-eclipse frame is the last of them |
| `Stats.AcceptedWithinRun` | eclipse_sim.py:160-163 | every accepted frame is one of the frames of the run |
| `Stats.AcceptedSpacing` | eclipse_sim.py:161-163 | each accepted eclipse is more than 60 frames after the one before it |
| `Stats.QuietWithinWindow` | eclipse_sim.py:161 | within 60 frames of the last eclipse nothing is accepted, whatever is detected |
| `Stats.DebounceAfterAccept` | eclipse_sim.py:161-164 | after an accepted eclipse, the next 60 updates accept nothing, even when every one reports a detection |
| `Stats.ContinuousDetection` | eclipse_sim.py:161-164 | a detection on every frame is counted ceil(n / 61) times in n frames, the last time at frame 61 * floor((n - 1) / 61) + 1 |
| `Stats.ElapsedTime` | eclipse_sim.py:169-171 | days is the number of whole 60-frame days; years * 365 + days mod 365 == days; months is the number of whole 30-day months in the rest of the year, at most 12 |
| `Stats.ElapsedMonotone` | eclipse_sim.py:169-171 | more frames never show fewer days, nor an earlier year and month |
| `Stats.StatsPanel.constructor` | eclipse_sim.py:154-157 | a new panel holds the fresh counter |
| `Stats.StatsPanel.Update` | eclipse_sim.py:159-165 | updates the three fields in place exactly as `Step`, returns whether the eclipse is new, and keeps the invariant |
| `Stats.StatsPanel.Time` | eclipse_sim.py:168-171 | the time shown has at most 12 months, and its days are the whole 60-frame days of the frames counted |
| `Controls.SpeedUp` | eclipse_sim.py:316 | UP adds one half below 10 and stays at 10 at the top, so the speed stays in range |
| `Controls.SpeedDown` | eclipse_sim.py:318 | DOWN removes one half above 0.5 and stays at 0.5 at the bottom, so the speed stays in range |
| `Controls.SpeedUpMatchesMultiplier` | eclipse_sim.py:316 | on the multiplier, UP is exactly min(10, multiplier + 0.5) |
| `Controls.SpeedDownMatchesMultiplier` | eclipse_sim.py:318 | on the multiplier, DOWN is exactly max(0.5, multiplier - 0.5) |
| `Controls.MultiplierBounds` | eclipse_sim.py:298 | a speed in range is a multiplier in [0.5, 10] |
| `Controls.UpDownInverse` | eclipse_sim.py:315-318 | away from the ends of the range, UP then DOWN, and DOWN then UP, restore the speed |
| `Controls.SpeedClampsAtEnds` | eclipse_sim.py:316-318 | UP at 10 and DOWN at 0.5 leave the speed unchanged |
| `Controls.PressAllInRange` | eclipse_sim.py:312-318 | any sequence of UP/DOWN presses from a speed in range keeps the multiplier within [0.5, 10] |
| `Controls.EnoughUpsReachTop` | eclipse_sim.py:316 | enough UP presses reach speed 10 and stay there |
| `Controls.NextSelection` | eclipse_sim.py:324-340 | after a click the selection is either empty or the planet hit; clicking a planet clears the selection iff that planet was the selected one |
| `Controls.ClickTwiceFromNothing` | eclipse_sim.py:324-334 | from no selection, two clicks on the same planet (or on empty space) end with no selection |
| `Controls.BannerTick` | eclipse_sim.py:362-367 | a new eclipse leaves the banner timer at 59; otherwise the timer counts down by one and stops at 0 |
| `Controls.BannerAfter` | eclipse_sim.py:366-367 | with no new eclipse the banner timer never grows |
| `Controls.BannerCountdown` | eclipse_sim.py:366-367 | after n frames with no new eclipse the timer is t - n, or 0 once n reaches t |
| `Controls.BannerShownAfterEclipse` | eclipse_sim.py:362-367 | after a new eclipse, the banner is still drawn on the next n frames iff n < 59 |
| `Simulation.BannerFitsAfterStep` | eclipse_sim.py:359-367 | an unpaused frame keeps the banner timer within the debounce window, and a new eclipse is only accepted after the previous banner is gone |
| `Simulation.BannerFitsWhilePaused` | eclipse_sim.py:349-367 | a paused frame, where only the banner counts down, keeps the timer within the debounce window |
| `Simulation.Planet.constructor` | eclipse_sim.py:42-52 | a planet starts unselected, with the given orbit, size, speed and starting angle |
| `Simulation.Planet.Update` | eclipse_sim.py:54-55 | the angle advances by speed times the multiplier, and nothing else changes |
| `Simulation.Moon.constructor` | eclipse_sim.py:95-102 | the moon starts at angle 0 around its planet |
| `Simulation.Moon.Update` | eclipse_sim.py:104-105 | the angle advances by speed times the multiplier, and nothing else changes |
| `Simulation.Sim.OneSelected` | eclipse_sim.py:324-340 | at most one planet is flagged as selected, and it is the selected planet |
| `Simulation.Sim.constructor` | eclipse_sim.py:271-303 | Mercury, Venus, Earth and Mars with their orbits, sizes and speeds; the moon around Earth; speed 1, not paused, instructions shown, nothing selected, no banner, a fresh panel |
| `Simulation.Sim.TogglePause` | eclipse_sim.py:313-314 | SPACE flips the pause flag and changes nothing else |
| `Simulation.Sim.PressUp` | eclipse_sim.py:315-316 | UP applies `SpeedUp` and changes nothing else |
| `Simulation.Sim.PressDown` | eclipse_sim.py:317-318 | DOWN applies `SpeedDown` and changes nothing else |
| `Simulation.Sim.ToggleInstructions` | eclipse_sim.py:319-320 | H flips the instructions flag and changes nothing else |
| `Simulation.Sim.FindClicked` | eclipse_sim.py:324-336 | returns the first planet, in list order, that the click hits, or nothing when it hits none |
| `Simulation.Sim.Click` | eclipse_sim.py:324-340 | changes the selection as `NextSelection` says, keeps the planets' flags in step, and moves nothing |
| `Simulation.Sim.MouseDown` | eclipse_sim.py:321-340 | hit-tests the click as `FindClicked`, then changes the selection as `Click` |
| `Simulation.Sim.AdvancePlanets` | eclipse_sim.py:351-352 | every planet advances by its speed times the multiplier, and no selection flag changes |
| `Simulation.Sim.Advance` | eclipse_sim.py:349-361 | planets and moon advance, the panel takes one `Step`, and the selection stays consistent |
| `Simulation.Sim.Tick` | eclipse_sim.py:349-367 | paused: nothing moves, the panel is untouched and no eclipse is new; unpaused: everything advances by the current multiplier and the panel takes one `Step`; either way the banner follows `BannerTick`, and a new eclipse finds the previous banner gone |

## Left out

- Drawing: the `draw` methods, `InfoPanel`, the instructions and statistics panel layout, glow effects, fonts, blitting and the pulsing banner. These are rendering with no logic.
- `Star` and the random starting angles of the planets. The angles are parameters of `Sim`'s constructor.
- `play_eclipse_sound`. It is audio synthesis whose failures are swallowed.
- Screen positions. `Planet.update` and `Moon.update` derive x and y from the angle with cosine and sine, which is not modelled. So `Sim.Tick` takes the eclipse predicate's value for the frame as a parameter (it is ignored while paused). `Sim.FindClicked` takes the planets' current positions as a parameter.
- Floating point. Distances, speeds and angles are modelled over the reals, with no rounding. The square roots are replaced by comparisons of squares.
- The average interval `avg_days`, a float division used only for display.
- Event polling, `clock.tick`, the QUIT event that ends the loop, and display set-up and teardown. These are I/O plumbing.
