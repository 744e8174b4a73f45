/** The configured transit routes and the per-frame styling of each: the values the route
    loop of `animate()` computes before it strokes the route's polyline. */
module Routes {
  import opened Geometry
  import opened Palettes
  import opened Activity

  /** A route: its polyline in normalised coordinates, its base frequency (scales the
      stroke width) and a fallback colour that the drawing code never reads. */
  datatype Route = Route(points: seq<Point>, baseFreq: real, color: string)

  /** The three routes of the demo configuration: main route, another, feeder. */
  const ConfiguredRoutes: seq<Route> := [
    Route([Point(0.1, 0.2), Point(0.5, 0.3), Point(0.8, 0.5)], 0.8, "orange"),
    Route([Point(0.2, 0.7), Point(0.5, 0.3), Point(0.7, 0.1)], 0.6, "cyan"),
    Route([Point(0.3, 0.8), Point(0.5, 0.6), Point(0.5, 0.3)], 0.4, "magenta")
  ]

  /** How one route is stroked in one frame. */
  datatype RouteStyle = RouteStyle(
    thickness: real,     // lineWidth
    speed: real,         // dash speed, drives the dash offset
    alpha: real,         // globalAlpha
    shadowBlur: real,    // glow radius
    shadowColor: string, // glow colour
    color: string,       // strokeStyle
    path: seq<Point>)    // the polyline in canvas pixels

  /** The style of route number `idx` at `hour`, with `noise` the frame's `Math.random()`
      sample for this route and `width` x `height` the canvas size. */
  function StyleRoute(route: Route, idx: nat, hour: int, noise: real, width: nat, height: nat): (s: RouteStyle)
    ensures s.color in GetPalette(hour).colors
    ensures s.shadowColor == GetPalette(hour).lineGlow
    ensures s.path == ScalePoints(route.points, width, height) && |s.path| == |route.points|
  {
    var palette := GetPalette(hour);
    var act := RouteActivity(hour, noise);
    var thickness := Thickness(act, route.baseFreq);
    RouteStyle(thickness, Speed(act), Alpha(act), thickness * 2.0, palette.lineGlow,
               palette.colors[ColorIndex(idx, |palette.colors|)],
               ScalePoints(route.points, width, height))
  }

  /** The styles of all routes of a frame, in route order; `noises[i]` is the random sample
      drawn for route `i`. */
  function FrameRouteStyles(routes: seq<Route>, hour: int, noises: seq<real>, width: nat, height: nat): (r: seq<RouteStyle>)
    requires |noises| == |routes|
    ensures |r| == |routes|
    ensures forall i :: 0 <= i < |routes| ==> r[i] == StyleRoute(routes[i], i, hour, noises[i], width, height)
  {
    if routes == [] then []
    else
      var n := |routes| - 1;
      FrameRouteStyles(routes[..n], hour, noises[..n], width, height)
        + [StyleRoute(routes[n], n, hour, noises[n], width, height)]
  }

  /** On any jitter `Math.random()` can produce, a route's speed lies in [0.56, 2.72), its
      opacity in [0.44, 1.28), its glow is twice its width, and for a non-negative base
      frequency its width is at least the 2-pixel start of the range. */
  lemma StyleBounds(route: Route, idx: nat, hour: int, noise: real, width: nat, height: nat)
    requires 0.0 <= noise < 1.0
    ensures var s := StyleRoute(route, idx, hour, noise, width, height);
      && 0.56 <= s.speed < 2.72
      && 0.44 <= s.alpha < 1.28
      && s.shadowBlur == 2.0 * s.thickness
      && (route.baseFreq >= 0.0 ==> s.thickness >= 2.0)
  {
    DrawingRanges(hour, noise);
    var act := RouteActivity(hour, noise);
    if route.baseFreq >= 0.0 {
      ThicknessMonotone(0.0, act, route.baseFreq);
    }
  }

  /** Four or more hours from the rush-hour anchor every route is drawn at the activity
      floor 0.2, whatever the jitter: the slowest speed and faintest opacity it can get. */
  lemma OffPeakStyle(route: Route, idx: nat, hour: int, noise: real, width: nat, height: nat)
    requires 0.0 <= noise < 1.0 && RushDistance(hour) >= 4
    ensures var s := StyleRoute(route, idx, hour, noise, width, height);
      && s.thickness == Thickness(0.2, route.baseFreq)
      && s.speed == 0.56
      && s.alpha == 0.44
  {
  }

  /** Route `i` of a frame is drawn in colour slot `i mod 3` of the hour's palette, so the
      three configured routes show the palette's three colours in order. */
  lemma FrameColorsCycle(routes: seq<Route>, hour: int, noises: seq<real>, width: nat, height: nat, i: nat)
    requires |noises| == |routes| && i < |routes|
    ensures FrameRouteStyles(routes, hour, noises, width, height)[i].color == GetPalette(hour).colors[i % 3]
    ensures i < 3 ==> FrameRouteStyles(routes, hour, noises, width, height)[i].color == GetPalette(hour).colors[i]
  {
    ColorsCycle(i, 3);
  }

  /** The configuration is what the drawing code relies on: every route has a first
      point for `moveTo`, every point lies in the unit square, and the base frequencies
      lie in (0, 1], keeping the width lerp's parameter below the activity itself. */
  lemma ConfiguredRoutesWellFormed()
    ensures forall r :: r in ConfiguredRoutes ==> |r.points| > 0 && 0.0 < r.baseFreq <= 1.0
    ensures forall r, p :: r in ConfiguredRoutes && p in r.points ==> InUnitSquare(p)
  {
  }

  /** With the configured base frequencies (0.4 to 0.8), the stroke width of every
      configured route lies in [3.28, 19.92) on any jitter. */
  lemma ConfiguredThicknessRange(i: nat, hour: int, noise: real)
    requires i < |ConfiguredRoutes| && 0.0 <= noise < 1.0
    ensures 3.28 <= Thickness(RouteActivity(hour, noise), ConfiguredRoutes[i].baseFreq) < 19.92
  {
    var act, bf := RouteActivity(hour, noise), ConfiguredRoutes[i].baseFreq;
    assert 0.4 <= bf <= 0.8;
    ProductBounds(act, bf);
  }

  lemma ProductBounds(act: real, bf: real)
    requires 0.2 <= act < 1.4 && 0.4 <= bf <= 0.8
    ensures 0.08 <= act * bf < 1.12
  {
    MulLe(act, 0.4, bf);
    MulLe(act, bf, 0.8);
    assert act * 0.4 >= 0.08 && act * 0.8 < 1.12;
  }
}
