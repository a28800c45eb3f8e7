# Qibla compass: heading pipeline

A Dafny model of the heading pipeline of the Qibla-direction web app
(`app.js`). Each orientation event from the phone is turned into a heading in
degrees. That heading moves the compass needle one step of a circular
low-pass filter toward the Qibla bearing. It also feeds an alignment
detector, which decides whether the phone points at the Qibla (within 5
degrees) and whether to fire the vibrate-and-tick feedback. The feedback
fires only on a not-aligned to aligned edge, and at most once per 4000 ms.

Angles are Dafny `real`s. Time is an `int` of milliseconds passed in by the
caller, standing in for `Date.now()`.

Modules:

- `Wrappers` (wrappers.dfy): `Option`, used for JavaScript's `null` and for optional event fields.
- `Angles` (angles.dfy): JavaScript's `%` on degrees (`Rem360`, which truncates toward zero), `normalize360`, `shortestAngleDiff` and `smoothRotation`, with lemmas. `SameAngle` ("they differ by a whole number of turns"), `FloorMod360` and `ArcDistance` are independent reference definitions. `Smoothed` and `Remaining` describe repeated smoothing steps with the factor 0.18.
- `Heading` (heading.dfy): `getDeviceHeading`. An event is a record of optional numeric fields. The accuracy label is one of three variants: degrees, `"iOS"` or `"relative"`.
- `Alignment` (alignment.dfy): the turn direction shown by `setText` (`"0°"`, right, left); the aligned test; the feedback detector as a pure transition `Detect`; and `Firings`, the list of firing times over a run of events.
- `Compass` (compass.dfy): a `Session` class holding the module state of app.js (`qiblaBearing`, `lastRotation`, `wasAligned`, `lastAlignedAt`). Its methods model `updateCompass`, the alignment part of `setText`, and the orientation handler. Each method's postcondition ties the new state to `SmoothRotation` and `Detect`.

Points where the code's behaviour is easy to misread:

- An exact half-turn gives a signed turn of -180, never +180, so the turn lies in `[-180,180)`.
- The "never fired" state is the initial value `lastAlignedAt = 0`, so the first feedback needs `now > 4000`.
- A sample carries no separate source-kind field. The accuracy label tells an absolute sample from a relative one.

## Model

| member | source | states |
|---|---|---|
| `Angles.Trunc` | app.js:43-51 | the whole number of turns JavaScript's `%` removes is rounded toward zero: the floor of a non-negative quotient and the ceiling of a negative one |
| `Angles.Rem360` | app.js:44 | JavaScript `x % 360`: the result has the sign of `x`, its magnitude is below 360, and it differs from `x` by whole turns |
| `Angles.Normalize360` | app.js:43-47 | the result lies in `[0,360)` and differs from the input by a whole number of turns |
| `Angles.Normalize360IsFloorMod` | app.js:43-47 | for every input, negative ones and multiples of 360 included, `normalize360` equals the floor-based modulus `x - 360*floor(x/360)` |
| `Angles.Normalize360Fixes` | app.js:43-47 | an angle already in `[0,360)` comes back unchanged |
| `Angles.Normalize360Idempotent` | app.js:43-47 | normalizing twice is the same as normalizing once |
| `Angles.Normalize360Canonical` | app.js:43-47 | two angles normalize to the same value if and only if they differ by whole turns |
| `Angles.ShortestAngleDiff` | app.js:49-51 | for any inputs, `current + diff` names the same direction as `target` |
| `Angles.ShortestAngleDiffRange` | app.js:49-51 | for arguments in `[0,360)`, the turn lies in `[-180,180)` |
| `Angles.ShortestAngleDiffUnique` | app.js:49-51 | for arguments in `[0,360)`, the turn is the only value in `[-180,180)` that carries `current` onto `target` |
| `Angles.ShortestAngleDiffHalfTurn` | app.js:49-51 | an exact half-turn, in either direction, gives -180 and never +180 |
| `Angles.ShortestAngleDiffAntisymmetric` | app.js:49-51 | swapping the arguments negates the turn, except when the turn is -180 |
| `Angles.ShortestAngleDiffIsArc` | app.js:49-51 | the size of the turn is the length of the shorter arc between the two directions |
| `Angles.SmoothRotation` | app.js:53-56 | the new rotation lies in `[0,360)`; the factor defaults to 0.18; what the step means is `SmoothRotationGap` |
| `Angles.SmoothRotationAtTarget` | app.js:53-56 | a rotation already at the target stays there, whatever the factor |
| `Angles.SmoothRotationFullStep` | app.js:53-56 | with factor 1 the step lands exactly on a target in `[0,360)` |
| `Angles.SmoothRotationGap` | app.js:53-56 | for factor in `[0,1]`, the shortest turn left after one step is exactly `(1 - factor)` times the turn before it; this keeps the sign, never overshoots and never takes the longer arc |
| `Angles.SmoothedGap` | app.js:119-120 | after n steps with factor 0.18, the turn left is the first turn scaled by 0.82 n times |
| `Angles.RemainingShrinks` | app.js:119-120 | the turn left keeps its sign and never grows, and it shrinks strictly while it is non-zero: convergence is monotone |
| `Angles.SmoothedToNinety` | app.js:119-120 | starting at 0 and turning toward 90, the needle stays in `[0,90)` (the short arc) and is within 0.1 degree of 90 from step 40 on |
| `Heading.GetDeviceHeading` | app.js:93-113 | a sample exists if and only if the event has a compass heading or an alpha, and its heading lies in `[0,360)` |
| `Heading.CompassHeadingWins` | app.js:95-102 | a numeric `webkitCompassHeading` takes priority over alpha and gives the same direction; the label is the accuracy when one is reported, and "iOS" otherwise |
| `Heading.CompassHeadingInRange` | app.js:95-97 | a compass heading already in `[0,360)` is passed through unchanged |
| `Heading.RelativeHeading` | app.js:105-110 | with no compass heading, alpha gives the heading `-alpha` modulo 360, labelled "relative" |
| `Heading.RelativeHeadingExample` | app.js:105-110 | alpha 90 gives heading 270, labelled "relative" |
| `Heading.CompassHeadingExample` | app.js:95-101 | compass heading 270.4 with accuracy 5 gives heading 270.4 and a label carrying 5, even when alpha is present |
| `Alignment.Direction` | app.js:130-133 | "0°" exactly when the turn is strictly inside `(-0.5,0.5)`, "right" exactly when it is at least 0.5, "left" exactly when it is at most -0.5; its meaning in arcs is `DirectionMeaning` |
| `Alignment.DirectionMeaning` | app.js:127-133 | the read-out is "0°" if and only if the shorter arc to the bearing is under 0.5 degree; "right" means that turning clockwise by that arc, less than a half-turn, reaches the bearing; "left" means that turning counter-clockwise by it reaches the bearing |
| `Alignment.IsAligned` | app.js:147 | aligned exactly when the turn lies in the closed band `[-5,5]`; its meaning in arcs is `AlignedMeaning` |
| `Alignment.AlignedMeaning` | app.js:147 | aligned holds if and only if the shorter arc between heading and bearing is at most 5 degrees |
| `Alignment.AlignedBoundary` | app.js:33 | 5.0 degrees off is aligned, 5.1 is not, and 5 degrees across north (357 to 2) is aligned |
| `Alignment.Detect` | app.js:149-164 | the aligned flag is `IsAligned(turn)`; a firing needs an aligned event after a non-aligned one, more than 4000 ms after `lastAlignedAt`; the new `wasAligned` is the aligned flag, and `lastAlignedAt` ends either at now or where it was; the converse is `DetectFiring` and the property over a run is `FiringsSpaced` |
| `Alignment.DetectFiring` | app.js:149-164 | the feedback fires if and only if the device is aligned, was not aligned before, and more than 4000 ms have passed since `lastAlignedAt`; a firing sets `lastAlignedAt` to now, otherwise it is kept, so it never decreases; `wasAligned` becomes the new aligned flag |
| `Alignment.StayingAlignedIsSilent` | app.js:149-158 | once aligned, staying aligned never fires again, however much time passes |
| `Alignment.NoConsecutiveFirings` | app.js:149-164 | two consecutive events never both fire |
| `Alignment.FiringsSpaced` | app.js:153-154 | over any run, every firing comes more than 4000 ms after the initial `lastAlignedAt`, and any two firings are more than 4000 ms apart; this needs no assumption that the clock is monotone |
| `Alignment.RunState` | app.js:153-164 | after a run, `lastAlignedAt` is the time of the latest firing (or its start value if none fired), and `wasAligned` is the alignment of the latest event |
| `Alignment.TwoEdgesWithinCooldown` | app.js:149-164 | two edges into alignment 2000 ms apart fire the feedback exactly once |
| `Compass.NeedleAgreesWithTurn` | app.js:119-127 | the rotation the needle is steered toward and the turn the text reports name the same direction |
| `Compass.Session.constructor` | app.js:26-32 | initial state: no bearing, rotation 0, not aligned, `lastAlignedAt` 0 |
| `Compass.Session.EstablishBearing` | app.js:248 | stores the great-circle direction wrapped into `[0,360)`, and changes nothing else |
| `Compass.Session.UpdateCompass` | app.js:116-122 | with no bearing nothing changes; otherwise the rotation takes one 0.18 smoothing step toward `normalize360(bearing - heading)`, the turn left is 0.82 times the old one, and the alignment state is untouched |
| `Compass.Session.SetText` | app.js:124-165 | with no bearing nothing changes and nothing is reported; otherwise it reports the turn direction, the aligned flag and the firing, moves the detector state exactly as `Detect` does, and leaves the rotation alone |
| `Compass.Session.OnHeading` | app.js:226-227 | `updateCompass` followed by `setText`: both updates, and nothing at all while no bearing is set |
| `Compass.Session.OnEvent` | app.js:222-228 | an event with no usable heading changes nothing; otherwise it acts as `OnHeading` on the normalized heading |

## Left out

- `calculateQiblaBearing` (app.js:58-69) and `haversineDistance` (app.js:71-84) use floating-point trigonometry (`atan2`, `sin`, `cos`, `tan`, `sqrt`). `EstablishBearing` takes the `atan2` result in degrees as its input and models only the final `normalize360` and the assignment at app.js:248. So the New York bearing (about 58.7 degrees) and the distance (about 10,200 km) are not modelled.
- IEEE-754 doubles: angles are exact reals. The model has no NaN and no infinities. It also misses one rounding effect: in JavaScript, `normalize360` of a tiny negative number rounds up to 360, but in the model the result is always below 360.
- `OrientationEvent`: a field counts as present when `typeof` reports `"number"` for it. NaN is not modelled.
- `toFixed` formatting and all `textContent`/`classList` DOM writes (app.js:121, 130-143, 150-151, 160-161, 253-257) are rendering. The model keeps the turn direction, the aligned and fired flags, and the raw accuracy value inside `Degrees`.
- `playTick` and `navigator.vibrate` (app.js:86-90, 156-157) call foreign playback code. They are reduced to the `fired` output.
- `Date.now()` (app.js:146) reads the clock. It becomes the `now` parameter.
- The Leaflet map (app.js:189-216), the permission request and geolocation promise (app.js:168-187), listener registration (app.js:230-231) and the async click handler with its `started` guard and error messages (app.js:234-279) are I/O and asynchronous plumbing.
- sw.js is not part of this model. It is a service-worker cache over the browser Cache API, with no logic to verify.
- `Angles.SmoothedGap`: the multi-step statement fixes the factor at 0.18, the only value the app uses. The one-step `SmoothRotationGap` covers every factor in `[0,1]`.
