# ISS tracker core in Dafny

A Dafny model of the non-visual core of the ISS tracker web app. It covers three pieces:

- **Astronomy** (`src/utils/astronomy.ts`). `LatLonToVector3` places a latitude/longitude on a
  sphere of a given radius, with north up (+y) and latitude 0, longitude 0 on +x.
  `SubSolarPoint` approximates the point where the sun is overhead. Its latitude is the solar
  declination `-23.45·cos((360/365)·(dayOfYear+10)·π/180)`. Its longitude is
  `(12 − UTC hours)·15`, normalised with JavaScript's truncating `%`.
- **Telemetry poller** (`src/services/issService.ts`). The hook `useISSData` keeps two cells,
  `data` and `error`. `fetchData` writes them when a fetch settles. It runs once at mount and
  then every 5000 ms until the effect's cleanup clears the interval. The model is the class
  `IssService.Poller`, plus a pure fold `Run` over the outcomes of settled fetches.
- **Health view** (`src/components/Dashboard.tsx`). `SelectView` picks SIGNAL LOST, ACQUIRING or
  LIVE from `(data, error)`.

Module `Scene` adds how `App`, `ISSMarker` and `Sun` use the transform. The marker sits at radius
5 + 0.2 and exists only while a sample is held. The light sits at radius 50 over the sub-solar
point.

Numbers are modelled as `real`. `Math.sin`, `Math.cos` and `Math.PI` have no Dafny counterpart,
so they are a parameter `t: Trig`. The ghost predicate `Trigonometry.Valid` lists the facts the
proofs use: sin² + cos² = 1, sin 0 = 0, cos 0 = 1, sin(π/2) = 1, cos(π/2) = 0, cos π = −1 and
sin π = 0. Every lemma that relies on one of these facts requires `Valid(t)`, and every function
contract that does states it under `Valid(t) ==>`. Facts that hold for any sine and cosine, such
as `HeightIgnoresLongitude`, carry no such requirement. `Trigonometry.WitnessIsValid` shows the
facts are consistent. The bound |cos| ≤ 1 is derived from them (`CosBounded`).

Instants are integers counting milliseconds since the Unix epoch. The UTC clock reading is
derived from the instant as ECMAScript defines `getUTCHours`, `getUTCMinutes` and
`getUTCSeconds`: floor division, then a non-negative modulo. Dafny's `/` and `%` on `int` do
exactly this for positive divisors. The start of the year (`new Date(year, 0, 0)`, local
midnight of 31 December) is a parameter.

### Behaviour of the code that the model keeps

- After a failure the code keeps the last sample in `data` and only sets `error`. The sample is
  not discarded. SIGNAL LOST still wins because `Dashboard` tests `error` first.
- The code has no in-flight guard and skips no tick. `Tick` starts a fetch whenever the interval
  is registered, however many fetches are pending.
- The cleanup only calls `clearInterval`. It does not cancel fetches in flight: a fetch that
  settles after `Stop` still calls `setData`/`setError` (`StopThenSettle`), so the last fetch to
  settle wins. That write is visible only while the component instance outlives the cleanup, as
  when React re-runs an effect on the same instance (StrictMode's mount, cleanup, mount), which
  the model expresses as `Mount` called again after `Stop` on the same `Poller`. After a real
  unmount React discards the update, and nothing reads the state again.
- Every failure cause ends in the same `catch` and shows one fixed message. Causes are not
  told apart.
- `NormalizeLongitude` maps an arbitrary real into [−180, 180], not (−180, 180]: −180 stays −180.
  For the value the code actually normalises (from a UTC clock reading) the result lies in
  (−180, 180] (`SubSolarLongitudeOfClock`).
- `if (error)` is a JavaScript truthiness test, so an empty error string counts as no error
  (`Dashboard.Truthy`). The poller only ever writes the non-empty fixed message.

## Model

| member | source | states |
|---|---|---|
| Astronomy.LatLonToVector3 | src/utils/astronomy.ts:13-22 | radius 0 maps every latitude and longitude to the origin |
| Astronomy.NormIsRadius | src/utils/astronomy.ts:14-19 | for every latitude, longitude and radius the result's squared length is radius² |
| Astronomy.HeightIgnoresLongitude | src/utils/astronomy.ts:14-19 | the y component is the same for any two longitudes at the same latitude and radius |
| Astronomy.NorthPoleIsUp | src/utils/astronomy.ts:14-19 | latitude 90 yields (0, radius, 0) for every longitude |
| Astronomy.SouthPoleIsDown | src/utils/astronomy.ts:14-19 | latitude −90 yields (0, −radius, 0) for every longitude |
| Astronomy.ReferenceAxis | src/utils/astronomy.ts:14-19 | latitude 0, longitude 0 yields (radius, 0, 0) |
| Astronomy.DayOfYear | src/utils/astronomy.ts:34-37 | the day index d is the floor of elapsed days: start + d·86400000 ≤ now < start + (d+1)·86400000 |
| Astronomy.NewYearIsDayOne | src/utils/astronomy.ts:34-37 | with the start at day 0 of January, the first instant of 1 January is day 1 and the instant before it day 0 |
| Astronomy.Declination | src/utils/astronomy.ts:41 | for a valid sine and cosine the declination lies in [−23.45, 23.45] for every day index |
| Astronomy.UtcClockOf | src/utils/astronomy.ts:48 | UTC hours lie in [0, 24), minutes and seconds in [0, 60), for every instant, including instants before 1970 |
| Astronomy.ClockIsSecondOfDay | src/utils/astronomy.ts:48 | the clock reading depends only on the whole second of the UTC day |
| Astronomy.UtcHours | src/utils/astronomy.ts:48 | a reading within the clock's ranges gives fractional hours in [0, 24); a whole hour gives exactly that hour |
| Astronomy.SolarNoonLongitude | src/utils/astronomy.ts:48-54 | `(12 − utcHours)·15` lies in (−180, 180] at every instant, before any normalisation |
| Astronomy.Trunc | src/utils/astronomy.ts:57 | rounding toward zero: n ≤ x < n+1 for x ≥ 0 and n−1 < x ≤ n for x < 0 |
| Astronomy.Rem360 | src/utils/astronomy.ts:57 | JavaScript `% 360` keeps the sign of its operand, stays within (−360, 360), is the identity there, and differs from its operand by a whole number of 360° turns |
| Astronomy.NormalizeLongitude | src/utils/astronomy.ts:57-59 | any real is mapped into [−180, 180], to a value that differs from it by a whole number of 360° turns; a non-negative input never gives −180 and a negative one never gives 180, which fixes the result uniquely |
| Astronomy.NormalizeFixesRange | src/utils/astronomy.ts:57-59 | a longitude already in [−180, 180] is left unchanged |
| Astronomy.NormalizeIdempotent | src/utils/astronomy.ts:57-59 | normalising twice gives the same as normalising once |
| Astronomy.SubSolarPoint | src/utils/astronomy.ts:31-62 | the longitude lies in (−180, 180] at every instant; for a valid sine and cosine the latitude lies in [−23.45, 23.45] |
| Astronomy.SubSolarLongitudeOfClock | src/utils/astronomy.ts:48-59 | the sub-solar longitude is (12 − h − m/60 − s/3600)·15 for the UTC reading h:m:s and lies in (−180, 180] |
| Astronomy.LongitudeIgnoresDateAndMillis | src/utils/astronomy.ts:48-59 | neither the calendar day nor the milliseconds change the sub-solar longitude |
| Astronomy.SubSolarLongitudeExamples | src/utils/astronomy.ts:50-59 | 12:00:00 UTC gives longitude 0, 00:00:00 gives 180 and 13:00:00 gives −15, on any day |
| IssService.OutcomeOf | src/services/issService.ts:24-36 | a settled fetch succeeds exactly when the response is ok and its body parses, and the success carries that body unchanged |
| IssService.BadStatusIsNetworkError | src/services/issService.ts:26-35 | a non-ok status ends in the same branch as a network error, whatever the body |
| IssService.Initial | src/services/issService.ts:20-21 | both `data` and `error` start null |
| IssService.Step | src/services/issService.ts:30-35 | `error` is cleared exactly by a success and otherwise holds the fixed message; a success stores its payload, a failure keeps the previous `data` |
| IssService.Run | src/services/issService.ts:24-37 | no outcome leaves the state as it is; otherwise `error` is null iff the last outcome is a success, and a last success leaves its payload in `data` whatever came before |
| IssService.RunSnoc | src/services/issService.ts:24-37 | one more settled fetch applies one more step to the state reached so far |
| IssService.RunPrefix | src/services/issService.ts:24-37 | settling two runs of fetches in turn is settling their concatenation |
| IssService.RunFromInitial | src/services/issService.ts:20-36 | after any outcome sequence, `data` is the last successful payload (null if none); `error` is null iff the sequence is empty or ends in a success, and otherwise holds the fixed message |
| IssService.NoDataWithoutSuccess | src/services/issService.ts:20-36 | the last-success payload is null iff no outcome in the sequence is a success |
| IssService.DataNeverCleared | src/services/issService.ts:31 | from a state that holds a sample, every outcome sequence leaves a sample held |
| IssService.AttemptTimes | src/services/issService.ts:39-42 | fetches start at mount and every 5000 ms after it; none after the first starts at or after the cleanup, and the next period would end at or after it |
| IssService.Poller.constructor | src/services/issService.ts:20-21 | the hook starts with both cells null, no interval and no fetch |
| IssService.Poller.Mount | src/services/issService.ts:39-40 | the effect, which runs only while no interval is registered (its dependency list is empty), starts one fetch at once and registers the interval, leaving the cells unchanged |
| IssService.Poller.Tick | src/services/issService.ts:40 | a registered interval starts a fetch even while others are pending; a cleared one starts none; the cells are unchanged |
| IssService.Poller.OnSuccess | src/services/issService.ts:30-32 | the payload is stored verbatim, `error` is cleared, and the state stays equal to the fold over all settled outcomes |
| IssService.Poller.OnFailure | src/services/issService.ts:33-36 | `error` becomes the fixed message and `data` keeps its sample, and the state stays equal to the fold over all settled outcomes |
| IssService.Poller.Settle | src/services/issService.ts:24-37 | a settling fetch applies the step of its outcome to the state, after `Stop` as well as before |
| IssService.Poller.Stop | src/services/issService.ts:42 | the cleanup deregisters the interval and changes nothing else; pending fetches stay pending |
| IssService.StopThenSettle | src/services/issService.ts:39-42 | after mount and cleanup, a later tick starts nothing, yet the fetch started at mount still writes its payload to the hook's cells (seen only if the instance outlives the cleanup) |
| Dashboard.Truthy | src/components/Dashboard.tsx:11 | defines JavaScript's `if (error)`: false for `null` and for the empty string, true for every other string; `SelectView`'s contract states the behaviour in its terms |
| Dashboard.SelectView | src/components/Dashboard.tsx:10-30 | SIGNAL LOST with the error text iff the error is truthy, whatever `data` is; otherwise ACQUIRING iff `data` is null, LIVE with that sample iff it is not (the three conditions are disjoint and cover every pair, so exactly one view is chosen) |
| Dashboard.ViewAfterOutcomes | src/components/Dashboard.tsx:11-30 | over the poller's life the view is ACQUIRING iff nothing has settled; LIVE with the last sample when the last fetch succeeded; SIGNAL LOST with the fixed message when it failed |
| Dashboard.NeverAcquiringAfterSuccess | src/components/Dashboard.tsx:11-28 | after a success the view is never ACQUIRING again; a sample stays held; a later failure shows SIGNAL LOST while the stale sample is held |
| Dashboard.RecoveryScenario | src/services/issService.ts:30-35 | success, failure, success gives ACQUIRING, LIVE, SIGNAL LOST (with the first sample still held), LIVE with the second sample |
| Scene.MarkerPosition | src/App.tsx:31 | the marker exists iff `data` is non-null |
| Scene.MarkerOnSphere | src/components/ISSMarker.tsx:17-18 | the marker lies on the sphere of radius 5.2 |
| Scene.MarkerAtReferencePoint | src/components/ISSMarker.tsx:17-18 | a sample at latitude 0, longitude 0 puts the marker at (5.2, 0, 0) |
| Scene.SunPosition | src/components/Sun.tsx:11-15 | for a valid sine and cosine the light lies at distance 50 from the centre, at every instant |
| Scene.MarkerPresentAfterSuccess | src/App.tsx:31 | the marker is drawn iff some settled fetch has succeeded |

## Left out

- Floating point: numbers are reals, so `Math.sin`, `Math.cos` and double rounding are idealised.
  NaN, infinities and the `Infinity % 360` case are not modelled.
- Time zones and DST: `new Date(year, 0, 0)` is read in local time. The model takes that instant
  as a given integer.
- The default argument `radius = EARTH_RADIUS` of `latLonToVector3` is not modelled. Every
  caller passes a radius.
- HTTP and JSON: `fetch` and `response.json()` are seen only through the `Response` a fetch
  settles with. The body is stored as it is. `IssData` declares all thirteen fields of
  `ISSData`; the consumers read only `id`, `latitude`, `longitude`, `altitude`, `velocity` and
  `visibility`.
- A body that parses to something other than an object: the model assumes that a successful
  `response.json()` yields an `ISSData` value. A `200` response whose body is `null` would make
  the code call `setData(null)`, which returns the view to ACQUIRING and removes the marker.
  `DataNeverCleared`, `Run`'s guarantee about `data`, `NeverAcquiringAfterSuccess` and
  `MarkerPresentAfterSuccess` hold only under that assumption. Bodies of other shapes (numbers,
  objects missing fields) are not modelled either.
- `console.error` logging is left out.
- React: each `setData`/`setError` pair is one atomic step. Re-renders are not modelled. An
  effect re-run on the same instance (as under StrictMode) is `Mount` after `Stop`; only a
  remount's fresh state, a new instance with both cells `null` again, is left out.
- Timer and event-loop timing: the methods of `Poller` are the events, in any order the
  environment chooses. `AttemptTimes` assumes a tick due at the very instant of the cleanup
  does not fire.
- Rendering: meshes, textures, lights, camera controls, `lookAt`, bloom, Tailwind classes and the
  `toFixed` formatting of the LIVE panel's numbers.
