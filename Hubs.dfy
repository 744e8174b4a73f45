/** The pulsing hubs: each hub's activity is accumulated over the routes that pass
    through it, clamped, and turned into a circle radius. */
module Hubs {
  import opened Geometry
  import opened Activity
  import opened Routes

  /** The two configured hubs, at route intersections, in normalised coordinates. */
  const ConfiguredHubs: seq<Point> := [Point(0.5, 0.3), Point(0.5, 0.6)]

  /** Matching tolerance in normalised units, on each axis separately. */
  const Tolerance: real := 0.02

  /** Upper clamp of a hub's accumulated activity. */
  const MaxHubActivity: real := 1.5

  /** A point is at the hub when it is strictly within the tolerance on both axes, that
      is, inside the open 0.04-wide square centred on the hub. */
  predicate NearHub(p: Point, hub: Point): (b: bool)
    ensures b <==> hub.x - Tolerance < p.x < hub.x + Tolerance && hub.y - Tolerance < p.y < hub.y + Tolerance
  {
    Abs(p.x - hub.x) < Tolerance && Abs(p.y - hub.y) < Tolerance
  }

  /** `points.some(...)`: scans the points in order and stops at the first one at the hub;
      true exactly when some point is at the hub. */
  function AnyPointNear(points: seq<Point>, hub: Point): (b: bool)
    ensures b <==> exists i :: 0 <= i < |points| && NearHub(points[i], hub)
  {
    if points == [] then false
    else if NearHub(points[0], hub) then true
    else
      var rest := AnyPointNear(points[1..], hub);
      assert forall i :: 1 <= i < |points| ==> points[i] == points[1..][i - 1];
      rest
  }

  /** What one route adds to a hub: `max(0, 1 - t/4) * baseFreq` if one of its points is
      at the hub, nothing otherwise. */
  function Contribution(route: Route, hub: Point, hour: int): (c: real)
    ensures (exists i :: 0 <= i < |route.points| && NearHub(route.points[i], hub)) ==> c == RouteWeight(route, hour)
    ensures (forall i :: 0 <= i < |route.points| ==> !NearHub(route.points[i], hub)) ==> c == 0.0
  {
    if AnyPointNear(route.points, hub) then RouteWeight(route, hour) else 0.0
  }

  /** `max(0, 1 - t/4) * baseFreq`: a route's weight at the hour, its full base frequency
      at rush hour and 0 from four hours off the anchor. */
  function RouteWeight(route: Route, hour: int): (w: real)
    ensures hour == 8 || hour == 17 ==> w == route.baseFreq
    ensures RushDistance(hour) >= 4 ==> w == 0.0
  {
    PeakWeight(RushDistance(hour)) * route.baseFreq
  }

  /** Because of `some`, a route's contribution does not grow with the number of its points
      at the hub: appending another point changes nothing once one point already matches. */
  lemma ContributionIgnoresRepeats(route: Route, p: Point, hub: Point, hour: int)
    requires AnyPointNear(route.points, hub)
    ensures Contribution(route.(points := route.points + [p]), hub, hour) == Contribution(route, hub, hour)
    ensures Contribution(route, hub, hour) == PeakWeight(RushDistance(hour)) * route.baseFreq
  {
    var i :| 0 <= i < |route.points| && NearHub(route.points[i], hub);
    assert (route.points + [p])[i] == route.points[i];
  }

  /** The unclamped sum of the contributions of `routes`, taken in order. */
  function HubSum(routes: seq<Route>, hub: Point, hour: int): real
  {
    if routes == [] then 0.0
    else HubSum(routes[..|routes| - 1], hub, hour) + Contribution(routes[|routes| - 1], hub, hour)
  }

  /** The accumulation loop of a hub: start at 0, add each passing route's weighted base
      frequency, then clamp at 1.5. */
  method HubActivity(routes: seq<Route>, hub: Point, hour: int) returns (act: real)
    ensures act == Min(HubSum(routes, hub, hour), MaxHubActivity)
  {
    act := 0.0;
    var i := 0;
    while i < |routes|
      invariant 0 <= i <= |routes|
      invariant act == HubSum(routes[..i], hub, hour)
    {
      var route := routes[i];
      if AnyPointNear(route.points, hub) {
        var t := RushDistance(hour);
        act := act + PeakWeight(t) * route.baseFreq;
      }
      assert routes[..i + 1][..i] == routes[..i];
      i := i + 1;
    }
    assert routes[..i] == routes;
    act := Min(act, MaxHubActivity);
  }

  /** A hub that no route passes through has activity exactly 0. */
  lemma {:induction false} HubSumNoMatch(routes: seq<Route>, hub: Point, hour: int)
    requires forall r :: r in routes ==> !AnyPointNear(r.points, hub)
    ensures HubSum(routes, hub, hour) == 0.0
  {
    if routes != [] {
      var n := |routes| - 1;
      assert routes[n] in routes;
      assert forall r :: r in routes[..n] ==> r in routes;
      HubSumNoMatch(routes[..n], hub, hour);
    }
  }

  /** Non-negative base frequency in every route. */
  predicate NonNegativeFrequencies(routes: seq<Route>)
  {
    forall i :: 0 <= i < |routes| ==> routes[i].baseFreq >= 0.0
  }

  /** What the routes would add if every one of them passed through the hub, once each. */
  function WeightedFrequency(routes: seq<Route>, hour: int): real
  {
    if routes == [] then 0.0
    else WeightedFrequency(routes[..|routes| - 1], hour) + RouteWeight(routes[|routes| - 1], hour)
  }

  /** Each route counts at most once however many of its points are at the hub: the sum is
      never negative and never more than every route's weighted frequency taken once. */
  lemma {:induction false} HubSumBounds(routes: seq<Route>, hub: Point, hour: int)
    requires NonNegativeFrequencies(routes)
    ensures 0.0 <= HubSum(routes, hub, hour) <= WeightedFrequency(routes, hour)
  {
    if routes != [] {
      var n := |routes| - 1;
      assert NonNegativeFrequencies(routes[..n]) by {
        forall i | 0 <= i < n ensures routes[..n][i].baseFreq >= 0.0 { assert routes[..n][i] == routes[i]; }
      }
      HubSumBounds(routes[..n], hub, hour);
      ContributionBounds(routes[n], hub, hour);
      assert HubSum(routes, hub, hour) == HubSum(routes[..n], hub, hour) + Contribution(routes[n], hub, hour);
      assert WeightedFrequency(routes, hour) == WeightedFrequency(routes[..n], hour) + RouteWeight(routes[n], hour);
    }
  }

  /** One route adds between 0 and its weight, and its weight is at most its base
      frequency. */
  lemma ContributionBounds(route: Route, hub: Point, hour: int)
    requires route.baseFreq >= 0.0
    ensures 0.0 <= Contribution(route, hub, hour) <= RouteWeight(route, hour) <= route.baseFreq
  {
    WeightAtMost(PeakWeight(RushDistance(hour)), route.baseFreq, RouteWeight(route, hour));
  }

  lemma WeightAtMost(k: real, f: real, w: real)
    requires 0.0 <= k <= 1.0 && f >= 0.0 && w == k * f
    ensures 0.0 <= w <= f
  {
    MulNonNegative(k, f);
    FractionAtMost(k, f);
  }

  lemma FractionAtMost(k: real, f: real)
    requires 0.0 <= k <= 1.0 && f >= 0.0
    ensures k * f <= f
  {
    assert f - k * f == (1.0 - k) * f;
    MulNonNegative(1.0 - k, f);
  }

  lemma MulNonNegative(a: real, b: real)
    requires a >= 0.0 && b >= 0.0
    ensures a * b >= 0.0
  {
  }

  /** The clamped activity of a hub lies in [0, 1.5] when no base frequency is negative. */
  lemma ClampedActivityRange(routes: seq<Route>, hub: Point, hour: int)
    requires NonNegativeFrequencies(routes)
    ensures 0.0 <= Min(HubSum(routes, hub, hour), MaxHubActivity) <= MaxHubActivity
  {
    HubSumBounds(routes, hub, hour);
  }

  /** `lerp(10, 70, act) + pulse * 10`: the circle radius of a hub, from its clamped activity
      and its pulse `|sin(...)|`. */
  function HubRadius(act: real, pulse: real): real
  {
    Lerp(10.0, 70.0, act) + pulse * 10.0
  }

  /** The base radius lies in [10, 100] and, with a pulse in [0, 1], the drawn radius
      in [10, 110]; an idle hub is the 10-pixel circle plus its pulse. */
  lemma HubRadiusRange(act: real, pulse: real)
    requires 0.0 <= act <= MaxHubActivity && 0.0 <= pulse <= 1.0
    ensures 10.0 <= Lerp(10.0, 70.0, act) <= 100.0
    ensures 10.0 <= HubRadius(act, pulse) <= 110.0
    ensures act == 0.0 ==> HubRadius(act, pulse) == 10.0 + pulse * 10.0
  {
  }

  /** The `HUBS.forEach` loop: for every hub, in hub order, its centre in canvas pixels
      and its radius, with `pulses[j]` the pulse of hub `j`. A hub of the unit square is
      centred on the canvas, and each radius lies in [10, 110] for pulses in [0, 1] and
      non-negative base frequencies. */
  method HubRadii(hubs: seq<Point>, routes: seq<Route>, hour: int, pulses: seq<real>, width: nat, height: nat)
    returns (centres: seq<Point>, radii: seq<real>)
    requires |pulses| == |hubs|
    ensures |centres| == |hubs| && |radii| == |hubs|
    ensures forall j :: 0 <= j < |hubs| ==> centres[j] == ScalePoint(hubs[j], width, height)
    ensures forall j :: 0 <= j < |hubs| && InUnitSquare(hubs[j]) ==>
      0.0 <= centres[j].x <= width as real && 0.0 <= centres[j].y <= height as real
    ensures forall j :: 0 <= j < |hubs| ==>
      radii[j] == HubRadius(Min(HubSum(routes, hubs[j], hour), MaxHubActivity), pulses[j])
    ensures NonNegativeFrequencies(routes) && (forall j :: 0 <= j < |pulses| ==> 0.0 <= pulses[j] <= 1.0) ==>
      forall j :: 0 <= j < |radii| ==> 10.0 <= radii[j] <= 110.0
  {
    centres, radii := [], [];
    var j := 0;
    while j < |hubs|
      invariant 0 <= j <= |hubs| && |centres| == j && |radii| == j
      invariant forall k :: 0 <= k < j ==> centres[k] == ScalePoint(hubs[k], width, height)
      invariant forall k :: 0 <= k < j ==>
        radii[k] == HubRadius(Min(HubSum(routes, hubs[k], hour), MaxHubActivity), pulses[k])
    {
      var hub := hubs[j];
      var centre := Point(hub.x * width as real, hub.y * height as real);
      var act := HubActivity(routes, hub, hour);
      centres := centres + [centre];
      radii := radii + [HubRadius(act, pulses[j])];
      j := j + 1;
    }
    forall k | 0 <= k < |hubs| && InUnitSquare(hubs[k])
      ensures 0.0 <= centres[k].x <= width as real && 0.0 <= centres[k].y <= height as real
    {
      ScaleInBounds(hubs[k], width, height);
    }
    if NonNegativeFrequencies(routes) && (forall j :: 0 <= j < |pulses| ==> 0.0 <= pulses[j] <= 1.0) {
      forall k | 0 <= k < |radii| ensures 10.0 <= radii[k] <= 110.0 {
        ClampedActivityRange(routes, hubs[k], hour);
        HubRadiusRange(Min(HubSum(routes, hubs[k], hour), MaxHubActivity), pulses[k]);
      }
    }
  }

  /** In the configuration the first hub (0.5, 0.3) lies on all three routes and the second
      (0.5, 0.6) only on the feeder, so hub activity is 1.8 and 0.4 times the hour's weight. */
  lemma ConfiguredHubSums(hour: int)
    ensures HubSum(ConfiguredRoutes, ConfiguredHubs[0], hour) == PeakWeight(RushDistance(hour)) * 1.8
    ensures HubSum(ConfiguredRoutes, ConfiguredHubs[1], hour) == PeakWeight(RushDistance(hour)) * 0.4
  {
    var rs, h0, h1 := ConfiguredRoutes, ConfiguredHubs[0], ConfiguredHubs[1];
    var w := PeakWeight(RushDistance(hour));
    assert NearHub(rs[0].points[1], h0) && NearHub(rs[1].points[1], h0) && NearHub(rs[2].points[2], h0);
    assert NearHub(rs[2].points[1], h1);
    assert !NearHub(rs[0].points[0], h1) && !NearHub(rs[0].points[1], h1) && !NearHub(rs[0].points[2], h1);
    assert !NearHub(rs[1].points[0], h1) && !NearHub(rs[1].points[1], h1) && !NearHub(rs[1].points[2], h1);
    assert Contribution(rs[0], h0, hour) == w * 0.8 && Contribution(rs[1], h0, hour) == w * 0.6;
    assert Contribution(rs[2], h0, hour) == w * 0.4 && Contribution(rs[2], h1, hour) == w * 0.4;
    assert Contribution(rs[0], h1, hour) == 0.0 && Contribution(rs[1], h1, hour) == 0.0;
    assert rs[..3] == rs && rs[..3][..2] == rs[..2] && rs[..2][..1] == rs[..1] && rs[..1][..0] == [];
    assert HubSum(rs[..1], h0, hour) == w * 0.8;
    assert HubSum(rs[..2], h0, hour) == w * 0.8 + w * 0.6;
    assert HubSum(rs[..1], h1, hour) == 0.0;
    assert HubSum(rs[..2], h1, hour) == 0.0;
  }

  /** At 8:00 and 17:00 the first hub is clamped at 1.5, its base radius the full 100
      pixels, while the second stays at 0.4; from four hours off the anchor both hubs are
      idle at the 10-pixel base. */
  lemma ConfiguredHubsAtRushHour(hour: int)
    ensures (hour == 8 || hour == 17) ==>
      Min(HubSum(ConfiguredRoutes, ConfiguredHubs[0], hour), MaxHubActivity) == 1.5 &&
      Lerp(10.0, 70.0, 1.5) == 100.0 &&
      Min(HubSum(ConfiguredRoutes, ConfiguredHubs[1], hour), MaxHubActivity) == 0.4
    ensures RushDistance(hour) >= 4 ==>
      HubSum(ConfiguredRoutes, ConfiguredHubs[0], hour) == 0.0 &&
      HubSum(ConfiguredRoutes, ConfiguredHubs[1], hour) == 0.0
  {
    ConfiguredHubSums(hour);
  }

  /** The configured scene meets the hypotheses of the bounds: no base frequency is
      negative and both hubs lie in the unit square, so each hub is centred on the canvas
      and drawn with a radius in [10, 110] for a pulse in [0, 1]. */
  lemma ConfiguredHubRadiusRange(j: nat, hour: int, pulse: real)
    requires j < |ConfiguredHubs| && 0.0 <= pulse <= 1.0
    ensures NonNegativeFrequencies(ConfiguredRoutes) && InUnitSquare(ConfiguredHubs[j])
    ensures 10.0 <= HubRadius(Min(HubSum(ConfiguredRoutes, ConfiguredHubs[j], hour), MaxHubActivity), pulse) <= 110.0
  {
    ClampedActivityRange(ConfiguredRoutes, ConfiguredHubs[j], hour);
    HubRadiusRange(Min(HubSum(ConfiguredRoutes, ConfiguredHubs[j], hour), MaxHubActivity), pulse);
  }
}
