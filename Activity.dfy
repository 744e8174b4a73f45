/** The synthetic traffic "activity" of a route and the drawing parameters derived from it:
    a peak around the 8:00 and 17:00 rush hours, a small random jitter, and linear
    interpolation into fixed thickness, speed and opacity ranges. All arithmetic is over
    `real`; the hour is an `int` and the value of `Math.random()` is the parameter `noise`. */
module Activity {

  function Max(a: real, b: real): (m: real)
    ensures m >= a && m >= b && (m == a || m == b)
  {
    if a >= b then a else b
  }

  function Min(a: real, b: real): (m: real)
    ensures m <= a && m <= b && (m == a || m == b)
  {
    if a <= b then a else b
  }

  function AbsInt(n: int): (r: nat)
    ensures r == n || r == -n
  {
    if n < 0 then -n else n
  }

  /** `lerp(a, b, t)`: linear interpolation, `a` at `t = 0` and `b` at `t = 1`. */
  function Lerp(a: real, b: real, t: real): real
  {
    a + (b - a) * t
  }

  /** For `t` in [0, 1] the value lies between the two ends of an increasing range. */
  lemma LerpBetween(a: real, b: real, t: real)
    requires 0.0 <= t <= 1.0 && a <= b
    ensures a <= Lerp(a, b, t) <= b
  {
    MulLe(b - a, 0.0, t);
    MulLe(b - a, t, 1.0);
    assert (b - a) * 1.0 == b - a;
  }

  lemma LerpEndpoints(a: real, b: real)
    ensures Lerp(a, b, 0.0) == a && Lerp(a, b, 1.0) == b
  {
  }

  /** For an increasing range, a larger `t` never gives a smaller value. */
  lemma LerpMonotone(a: real, b: real, t1: real, t2: real)
    requires a <= b && t1 <= t2
    ensures Lerp(a, b, t1) <= Lerp(a, b, t2)
  {
    MulLe(b - a, t1, t2);
  }

  lemma MulLe(k: real, t1: real, t2: real)
    requires k >= 0.0 && t1 <= t2
    ensures k * t1 <= k * t2
  {
    assert k * t2 - k * t1 == k * (t2 - t1);
  }

  /** Hours from the rush-hour anchor of the half day: 8 before noon, 17 from noon on. */
  function RushDistance(hour: int): (t: nat)
    ensures t == 0 <==> hour == 8 || hour == 17
    ensures 0 <= hour <= 23 ==> t <= 8
  {
    if hour < 12 then AbsInt(8 - hour) else AbsInt(17 - hour)
  }

  /** Independent reference: distance to whichever anchor is nearer. */
  function NearestAnchorDistance(hour: int): nat
  {
    var d8, d17 := AbsInt(8 - hour), AbsInt(17 - hour);
    if d8 <= d17 then d8 else d17
  }

  /** Splitting the day at noon picks the nearer anchor for every hour except noon itself,
      where 8 is 4 hours away and the code measures 5 hours to 17. */
  lemma RushDistanceIsNearest(hour: int)
    ensures hour != 12 <==> RushDistance(hour) == NearestAnchorDistance(hour)
  {
  }

  /** `max(0, 1 - t/4)`: 1 at the anchor, falling by a quarter per hour, 0 from 4 hours on. */
  function PeakWeight(t: nat): (w: real)
    ensures 0.0 <= w <= 1.0
    ensures w == 0.0 <==> t >= 4
    ensures w == 1.0 <==> t == 0
  {
    Max(0.0, 1.0 - (t as real) / 4.0)
  }

  /** The further from the anchor, the smaller the weight. */
  lemma PeakWeightAntitone(t1: nat, t2: nat)
    requires t1 <= t2
    ensures PeakWeight(t2) <= PeakWeight(t1)
  {
  }

  /** The noon anomaly of the distance has no effect on the weight. */
  lemma PeakWeightUsesNearestAnchor(hour: int)
    ensures PeakWeight(RushDistance(hour)) == PeakWeight(NearestAnchorDistance(hour))
  {
    RushDistanceIsNearest(hour);
    if hour == 12 {
      assert RushDistance(hour) == 5 && NearestAnchorDistance(hour) == 4;
    }
  }

  /** The rush-hour term of a route's activity, `max(0, 1 - t/4) * 1.3`, within the
      `0~1.3` range the code's comment gives, 0 off-peak and 1.3 exactly at 8 and 17. */
  function PeakTerm(hour: int): (p: real)
    ensures 0.0 <= p <= 1.3
    ensures p == 0.0 <==> RushDistance(hour) >= 4
    ensures p == 1.3 <==> hour == 8 || hour == 17
  {
    PeakWeight(RushDistance(hour)) * 1.3
  }

  /** Route activity: the peak term plus `Math.random() * 0.1` (here `noise * 0.1`),
      floored at 0.2. With `noise` in [0, 1) the activity lies in [0.2, 1.4) and is
      exactly the floor 0.2 whenever the hour is 4 or more hours from its anchor. */
  function RouteActivity(hour: int, noise: real): (act: real)
    ensures act >= 0.2
    ensures 0.0 <= noise < 1.0 ==> act < 1.4
    ensures 0.0 <= noise < 1.0 && RushDistance(hour) >= 4 ==> act == 0.2
  {
    Max(PeakTerm(hour) + noise * 0.1, 0.2)
  }

  /** With the same jitter, an hour nearer its anchor is at least as active. */
  lemma ActivityAntitoneInDistance(h1: int, h2: int, noise: real)
    requires RushDistance(h1) <= RushDistance(h2)
    ensures RouteActivity(h2, noise) <= RouteActivity(h1, noise)
  {
    PeakWeightAntitone(RushDistance(h1), RushDistance(h2));
  }

  /** Activity peaks at 8:00 and at 17:00, with the same value at both. */
  lemma ActivityPeaksAtRushHour(hour: int, noise: real)
    ensures RouteActivity(hour, noise) <= RouteActivity(8, noise) == RouteActivity(17, noise)
    ensures RouteActivity(8, noise) == Max(1.3 + noise * 0.1, 0.2)
  {
    ActivityAntitoneInDistance(8, hour, noise);
  }

  /** Stroke width `lerp(2, 18, act * baseFreq)`: inside [2, 18] while the product of
      activity and base frequency stays in [0, 1]. */
  function Thickness(act: real, baseFreq: real): (w: real)
    ensures 0.0 <= act * baseFreq <= 1.0 ==> 2.0 <= w <= 18.0
  {
    Lerp(2.0, 18.0, act * baseFreq)
  }

  /** Dash speed `lerp(0.2, 2.0, act)`, in pixels per millisecond: inside [0.2, 2.0] for
      activity in [0, 1], and faster than 2.0 exactly when activity passes 1. */
  function Speed(act: real): (v: real)
    ensures 0.0 <= act <= 1.0 ==> 0.2 <= v <= 2.0
    ensures v > 2.0 <==> act > 1.0
  {
    Lerp(0.2, 2.0, act)
  }

  /** Stroke opacity `lerp(0.3, 1, act)`: a valid opacity in [0.3, 1] for activity in
      [0, 1], and above 1 exactly when activity passes 1. */
  function Alpha(act: real): (o: real)
    ensures 0.0 <= act <= 1.0 ==> 0.3 <= o <= 1.0
    ensures o > 1.0 <==> act > 1.0
  {
    Lerp(0.3, 1.0, act)
  }

  /** Thickness grows with activity for a non-negative base frequency. */
  lemma ThicknessMonotone(act1: real, act2: real, baseFreq: real)
    requires act1 <= act2 && baseFreq >= 0.0
    ensures Thickness(act1, baseFreq) <= Thickness(act2, baseFreq)
  {
    MulLe(baseFreq, act1, act2);
    assert act1 * baseFreq <= act2 * baseFreq;
    LerpMonotone(2.0, 18.0, act1 * baseFreq, act2 * baseFreq);
  }

  /** Speed and opacity grow with activity. */
  lemma SpeedAlphaMonotone(act1: real, act2: real)
    requires act1 <= act2
    ensures Speed(act1) <= Speed(act2) && Alpha(act1) <= Alpha(act2)
  {
    LerpMonotone(0.2, 2.0, act1, act2);
    LerpMonotone(0.3, 1.0, act1, act2);
  }

  /** On the activities a frame can produce, speed lies in [0.56, 2.72) and opacity in
      [0.44, 1.28). The opacity passes 1 exactly when the peak term plus the jitter does:
      always at 8:00 and 17:00, where the peak term alone is 1.3, and one hour from the
      anchor (peak term 0.975) whenever `Math.random()` is above 0.25. */
  lemma DrawingRanges(hour: int, noise: real)
    requires 0.0 <= noise < 1.0
    ensures 0.56 <= Speed(RouteActivity(hour, noise)) < 2.72
    ensures 0.44 <= Alpha(RouteActivity(hour, noise)) < 1.28
    ensures Alpha(RouteActivity(hour, noise)) > 1.0 <==> PeakTerm(hour) + noise * 0.1 > 1.0
    ensures hour == 8 || hour == 17 ==> Alpha(RouteActivity(hour, noise)) > 1.0
    ensures RushDistance(hour) == 1 ==> (Alpha(RouteActivity(hour, noise)) > 1.0 <==> noise > 0.25)
  {
    if RushDistance(hour) == 1 {
      assert PeakWeight(1) == 0.75;
    }
  }

  /** `idx % colors.length`: the colour slot of the route with index `idx`, always a valid
      index into a colour list of length `n`. */
  function ColorIndex(idx: nat, n: nat): (k: nat)
    requires n > 0
    ensures k < n
  {
    idx % n
  }

  /** Routes take the colours in order: the first `n` routes get slots 0 .. n-1, each next
      route the next slot, wrapping round after `n` routes. */
  lemma ColorsCycle(idx: nat, n: nat)
    requires n > 0
    ensures idx < n ==> ColorIndex(idx, n) == idx
    ensures ColorIndex(idx + 1, n) == (ColorIndex(idx, n) + 1) % n
    ensures ColorIndex(idx + n, n) == ColorIndex(idx, n)
  {
    var q, r := idx / n, idx % n;
    assert idx == q * n + r;
    if idx < n { ModUnique(idx, 0, idx, n); }
    if r + 1 < n {
      ModUnique(idx + 1, q, r + 1, n);
      ModUnique(r + 1, 0, r + 1, n);
    } else {
      ModUnique(idx + 1, q + 1, 0, n);
      ModUnique(r + 1, 1, 0, n);
    }
    ModUnique(idx + n, q + 1, r, n);
  }

  /** Euclidean division has one remainder: `a = q * n + r` with `0 <= r < n` fixes `a % n`. */
  lemma ModUnique(a: int, q: int, r: int, n: int)
    requires n > 0 && 0 <= r < n && a == q * n + r
    ensures a % n == r
  {
    var q', r' := a / n, a % n;
    assert a == q' * n + r';
    assert (q - q') * n == r' - r;
    if q - q' >= 1 {
      MulAtLeast(q - q', n);
    } else if q' - q >= 1 {
      assert (q' - q) * n == r - r';
      MulAtLeast(q' - q, n);
    }
    assert q == q';
  }

  lemma MulAtLeast(d: int, n: int)
    requires d >= 1 && n > 0
    ensures d * n >= n
  {
    assert d * n == (d - 1) * n + n;
  }
}
