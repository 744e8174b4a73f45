# Commuter current: time-of-day arithmetic of the transit-map animation

The program draws a decorative "transit map" on a canvas. Three routes are glowing
polylines and two hubs are pulsing circles, and their look follows the hour of the day.
Every frame, `animate()` does five things. It picks one of four colour palettes from the
hour. It computes each route's "activity", a peak around the 8:00 and 17:00 rush hours
plus a small random jitter, floored at 0.2. It turns that activity into stroke width, dash
speed and opacity by linear interpolation. It colours route `i` with palette colour
`i mod 3`. Finally it sums, for each hub, the weighted base frequencies of the routes that
pass through it, clamps the sum at 1.5 and turns it into a circle radius. The normalised
coordinates of routes and hubs are multiplied by the canvas size before drawing.

This project models that arithmetic and proves its properties. The model is pure data and
functions, plus the two hub loops, which are kept as loops (`Hubs.HubActivity`, `Hubs.HubRadii`).
The hour is an `int`, and the functions are defined on every integer. Numbers are `real`.
The value of `Math.random()` for a route is the parameter `noise`, so the jitter is
`noise * 0.1`. The pulse `|sin(...)|` of a hub is the parameter `pulse`.

Modules:

- `Geometry`: points, the `points.map` scaling to pixels and its inverse.
- `Palettes`: the four palettes, a reference definition of the hour bands, and `getPalette`.
- `Activity`: `lerp`, rush distance, peak weight, route activity, thickness/speed/alpha, colour index.
- `Routes`: the configured routes and the per-frame style of each route.
- `Hubs`: the configured hubs, the `some` test, the accumulation method and the radius.

Points where the code may surprise a reader; the model follows the code:

- A route matches a hub when any of its points, endpoint or not, is within 0.02 of the
  hub on both axes (`points.some(...)`, line 113).
- Route activity does not depend on the base frequency. Only the stroke width does
  (lines 73-75).
- Opacity `lerp(0.3, 1, act)` goes above 1 exactly when activity does. That happens at
  every frame at 8:00 and 17:00, and one hour from either anchor (7, 9, 16, 18) whenever
  `Math.random()` is above 0.25 (`Activity.Alpha`, `Activity.DrawingRanges`).
- At noon the rush distance is measured to 17 (5 hours), although 8 is nearer (4 hours).
  The peak weight is 0 either way, so the frame does not change
  (`Activity.RushDistanceIsNearest`, `Activity.PeakWeightUsesNearestAnchor`).

## Model

| member | source | states |
|---|---|---|
| `Palettes.GetPalette` | commuter-current_Version2.js:16-46 | every integer hour gets a palette with 3 colours, and it is the palette of band `b` exactly when the hour lies in `b` (6-9 morning, 10-15 midday, 16-19 evening, any other integer night) |
| `Palettes.BandsPartition` | commuter-current_Version2.js:17-45 | the four hour bands cover every integer and no integer lies in two of them |
| `Palettes.PalettesDistinct` | commuter-current_Version2.js:18-44 | the four palette records are pairwise different, so a palette identifies its band |
| `Palettes.PaletteDeterminesBand` | commuter-current_Version2.js:16-46 | two hours get the same palette if and only if they lie in the same band |
| `Activity.Lerp` | commuter-current_Version2.js:48 | computes `a + (b - a) * t`; its properties are `Activity.LerpEndpoints`, `Activity.LerpBetween` and `Activity.LerpMonotone` |
| `Activity.LerpBetween` | commuter-current_Version2.js:48 | for `t` in [0, 1] and `a <= b`, `lerp(a, b, t)` lies in [a, b] |
| `Activity.LerpEndpoints` | commuter-current_Version2.js:48 | `lerp(a, b, 0) = a` and `lerp(a, b, 1) = b` |
| `Activity.LerpMonotone` | commuter-current_Version2.js:48 | for `a <= b`, `lerp(a, b, t)` is non-decreasing in `t` |
| `Activity.RushDistance` | commuter-current_Version2.js:72 | the distance is 0 exactly at hours 8 and 17, and at most 8 for hours 0-23 |
| `Activity.RushDistanceIsNearest` | commuter-current_Version2.js:71-72 | the distance equals the distance to the nearer anchor (8 or 17) for every hour except 12 |
| `Activity.PeakWeight` | commuter-current_Version2.js:73 | `max(0, 1 - t/4)` lies in [0, 1]; it is 0 exactly when `t >= 4` and 1 exactly when `t = 0` |
| `Activity.PeakWeightAntitone` | commuter-current_Version2.js:73 | the weight never grows with the distance |
| `Activity.PeakWeightUsesNearestAnchor` | commuter-current_Version2.js:72-73 | the weight is the same as if the nearer anchor were always used, noon included |
| `Activity.PeakTerm` | commuter-current_Version2.js:73 | the peak term `max(0, 1 - t/4) * 1.3` lies in [0, 1.3]; it is 0 exactly when the distance is at least 4, and 1.3 exactly at hours 8 and 17 |
| `Activity.RouteActivity` | commuter-current_Version2.js:73-74 | activity is at least 0.2; with `Math.random()` in [0, 1) it is below 1.4, and exactly 0.2 when the distance is at least 4 |
| `Activity.ActivityAntitoneInDistance` | commuter-current_Version2.js:71-74 | with the same jitter, an hour nearer its anchor is at least as active |
| `Activity.ActivityPeaksAtRushHour` | commuter-current_Version2.js:71-74 | no hour is more active than 8:00; 8:00 and 17:00 are equally active, at `max(1.3 + jitter, 0.2)` |
| `Activity.Thickness` | commuter-current_Version2.js:75 | stroke width `lerp(2, 18, act * baseFreq)` lies in [2, 18] while `act * baseFreq` is in [0, 1] |
| `Activity.Speed` | commuter-current_Version2.js:76 | dash speed `lerp(0.2, 2.0, act)` lies in [0.2, 2.0] for activity in [0, 1], and is above 2.0 exactly when activity is above 1 |
| `Activity.Alpha` | commuter-current_Version2.js:85 | opacity `lerp(0.3, 1, act)` lies in [0.3, 1] for activity in [0, 1], and is above 1 exactly when activity is above 1 |
| `Activity.ThicknessMonotone` | commuter-current_Version2.js:75 | stroke width `lerp(2, 18, act * baseFreq)` is non-decreasing in activity for a non-negative base frequency |
| `Activity.SpeedAlphaMonotone` | commuter-current_Version2.js:76-85 | speed `lerp(0.2, 2.0, act)` and opacity `lerp(0.3, 1, act)` are non-decreasing in activity |
| `Activity.DrawingRanges` | commuter-current_Version2.js:73-85 | with `Math.random()` in [0, 1), speed lies in [0.56, 2.72) and opacity in [0.44, 1.28); opacity is above 1 exactly when peak term plus jitter is, so always at 8:00 and 17:00, and one hour from an anchor exactly when `Math.random()` is above 0.25 |
| `Activity.ColorIndex` | commuter-current_Version2.js:77 | `idx % colors.length` is a valid index into a non-empty colour list |
| `Activity.ColorsCycle` | commuter-current_Version2.js:77 | the first `n` routes take colours 0 to n-1 in order; each next route takes the next colour, wrapping round, and the pattern repeats every `n` routes |
| `Geometry.ScalePoint` | commuter-current_Version2.js:89-90 | computes `(x * width, y * height)`; its properties are `Geometry.ScaleInBounds`, `Geometry.UnscaleScale` and `Geometry.ScaleResize` |
| `Geometry.ScalePoints` | commuter-current_Version2.js:88-91 | scaling keeps the number and order of points; point `i` becomes `(x * width, y * height)` |
| `Geometry.UnscaleScale` | commuter-current_Version2.js:88-91 | on a non-empty canvas the normalised points come back unchanged from their pixel image |
| `Geometry.ScaleAppend` | commuter-current_Version2.js:88-91 | scaling a concatenated path gives the concatenation of the scaled parts |
| `Geometry.ScaleInBounds` | commuter-current_Version2.js:88-91 | a point of the unit square lands inside the canvas |
| `Geometry.ScaleResize` | commuter-current_Version2.js:88-91 | after a resize, each pixel coordinate changes in proportion to its side of the canvas |
| `Routes.StyleRoute` | commuter-current_Version2.js:70-102 | a route's stroke colour comes from the hour's palette, its glow colour is the palette's line glow, and its pixel path is the scaled route, one point per route point |
| `Routes.FrameRouteStyles` | commuter-current_Version2.js:70-105 | one style per route, in route order; style `i` is computed from route `i`, index `i` and that route's random sample |
| `Routes.StyleBounds` | commuter-current_Version2.js:73-85 | with `Math.random()` in [0, 1), speed is in [0.56, 2.72) and opacity in [0.44, 1.28); the glow blur is twice the width, and the width is at least 2 for a non-negative base frequency |
| `Routes.OffPeakStyle` | commuter-current_Version2.js:72-85 | at 4 or more hours from the anchor, every route is drawn at the activity floor: width `lerp(2, 18, 0.2 * baseFreq)`, speed 0.56, opacity 0.44 |
| `Routes.FrameColorsCycle` | commuter-current_Version2.js:70-77 | route `i` of a frame gets palette colour `i mod 3`, so the three configured routes show the three colours in order |
| `Routes.ConfiguredRoutesWellFormed` | commuter-current_Version2.js:2-7 | every configured route has a first point, all points lie in the unit square, and all base frequencies lie in (0, 1] |
| `Routes.ConfiguredThicknessRange` | commuter-current_Version2.js:75 | with the configured base frequencies and `Math.random()` in [0, 1), the stroke width lies in [3.28, 19.92) |
| `Hubs.AnyPointNear` | commuter-current_Version2.js:113 | `points.some(...)` is true exactly when some point is within 0.02 of the hub on both axes |
| `Hubs.NearHub` | commuter-current_Version2.js:113 | the `some` test of one point: true exactly when the point lies strictly inside the 0.04-wide square centred on the hub |
| `Hubs.RouteWeight` | commuter-current_Version2.js:115 | `max(0, 1 - t/4) * baseFreq` is the full base frequency at 8:00 and 17:00 and 0 from four hours off the anchor |
| `Hubs.Contribution` | commuter-current_Version2.js:113-116 | a route with some point at the hub adds its weight; a route with none adds 0 |
| `Hubs.HubSum` | commuter-current_Version2.js:111-117 | computes the in-order sum of the routes' contributions; its properties are `Hubs.HubActivity`, `Hubs.HubSumNoMatch` and `Hubs.HubSumBounds` |
| `Hubs.ContributionIgnoresRepeats` | commuter-current_Version2.js:113-115 | a matching route adds its weighted base frequency once; a further matching point changes nothing |
| `Hubs.HubActivity` | commuter-current_Version2.js:111-118 | the accumulation loop returns the sum of the passing routes' contributions, clamped at 1.5 |
| `Hubs.HubSumNoMatch` | commuter-current_Version2.js:111-117 | a hub that no route passes through has activity exactly 0 |
| `Hubs.HubSumBounds` | commuter-current_Version2.js:111-117 | with non-negative base frequencies, the sum is at least 0 and at most the total of the routes' weighted frequencies, each taken once |
| `Hubs.ContributionBounds` | commuter-current_Version2.js:113-116 | one route adds between 0 and its weight, and its weight is at most its base frequency |
| `Hubs.ClampedActivityRange` | commuter-current_Version2.js:118 | with non-negative base frequencies, the clamped hub activity lies in [0, 1.5] |
| `Hubs.HubRadius` | commuter-current_Version2.js:120 | computes `lerp(10, 70, act) + pulse * 10`; its bounds are `Hubs.HubRadiusRange` |
| `Hubs.HubRadiusRange` | commuter-current_Version2.js:119-120 | for activity in [0, 1.5] the base radius `lerp(10, 70, act)` lies in [10, 100]; with pulse in [0, 1] the radius lies in [10, 110]; an idle hub has radius `10 + pulse * 10` |
| `Hubs.HubRadii` | commuter-current_Version2.js:108-120 | one centre and one radius per hub, in hub order: the centre is the hub scaled to the canvas, and lies on the canvas for a hub of the unit square; the radius comes from that hub's clamped activity and pulse, and lies in [10, 110] for pulses in [0, 1] and non-negative base frequencies |
| `Hubs.ConfiguredHubSums` | commuter-current_Version2.js:2-13 | the first hub lies on all three routes (sum 1.8 times the weight), the second only on the feeder (0.4 times the weight) |
| `Hubs.ConfiguredHubsAtRushHour` | commuter-current_Version2.js:111-120 | at 8:00 and 17:00 the first hub is clamped at 1.5 (base radius 100) and the second is at 0.4; 4 or more hours from the anchor both sums are 0 |
| `Hubs.ConfiguredHubRadiusRange` | commuter-current_Version2.js:2-13 | the configured routes have no negative base frequency and the hubs lie in the unit square, so each configured hub is drawn with a radius in [10, 110] for a pulse in [0, 1] |

## Left out

- Canvas drawing is not modelled: `fillRect`, paths, `stroke`, `arc`, `fill`, shadows,
  dashes, alpha, `save`/`restore` (lines 65-67, 80-104, 110, 121-128). These are side
  effects on a host object. The model stops at the values handed to these calls.
- The frame loop is not modelled: `requestAnimationFrame`, the `resize` listener and the
  DOM `window`/`canvas` lookups (lines 50-58, 131, 134). The canvas size is a parameter
  instead.
- The clocks are not modelled: `new Date().getHours()` and `performance.now()` (lines
  62-63, 98, 119). The hour is a parameter.
- `Math.random()` (line 73) is the parameter `noise`. The bounds that need its range
  [0, 1) state it as a hypothesis.
- The pulse `Math.abs(Math.sin(performance.now()/500 + x + y))` (line 119) is the
  parameter `pulse`. Sine is transcendental; the radius bounds assume a pulse in [0, 1].
  Its dependence on the hub's pixel centre `x + y` is therefore not modelled, although
  `Hubs.HubRadii` returns that centre.
- The dash offset `(performance.now() * speed/40) % 40` (line 98) is not modelled. It is
  floating-point timer arithmetic, so its 40-unit period is not stated.
- IEEE-754 rounding is not modelled. All arithmetic is over `real`, so the properties are
  about the real-valued formulas.
- The canvas ignores a `globalAlpha` outside [0, 1]. That is host behaviour and is not
  modelled. The model only shows when opacity passes 1 (`Activity.Alpha`, `Activity.DrawingRanges`).
- `pts[0]` of a route without points (line 92) would fail at run time. This is not
  modelled. `Routes.ConfiguredRoutesWellFormed` shows that every configured route has
  points.
- The constant drawing values of a hub are not returned by `Hubs.HubRadii`: the fill
  colour `palette.hub`, the fixed opacity 0.7 and the glow `r * 1.2` (lines 121-126).
  They are a palette field and fixed functions of the modelled radius.
- The fallback `color` of a route is kept in `Routes.Route`, but the code never reads it.
