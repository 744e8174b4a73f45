/** Points of the transit map, in normalised unit-square coordinates or in canvas pixels,
    and the scaling from one to the other that every frame applies before drawing. */
module Geometry {

  /** A 2D point; route and hub data use coordinates in [0,1], drawing uses pixels. */
  datatype Point = Point(x: real, y: real)

  function Abs(v: real): (r: real)
    ensures r >= 0.0
    ensures r == v || r == -v
  {
    if v < 0.0 then -v else v
  }

  /** Both coordinates lie in the unit square the configuration is written in. */
  predicate InUnitSquare(p: Point)
  {
    0.0 <= p.x <= 1.0 && 0.0 <= p.y <= 1.0
  }

  /** One normalised point in canvas pixels: `x * width`, `y * height`. */
  function ScalePoint(p: Point, width: nat, height: nat): Point
  {
    Point(p.x * width as real, p.y * height as real)
  }

  /** A point of the unit square lands on the canvas. */
  lemma ScaleInBounds(p: Point, width: nat, height: nat)
    requires InUnitSquare(p)
    ensures 0.0 <= ScalePoint(p, width, height).x <= width as real
    ensures 0.0 <= ScalePoint(p, width, height).y <= height as real
  {
    var q, w, h := ScalePoint(p, width, height), width as real, height as real;
    assert q.x == p.x * w && q.y == p.y * h;
    UnitScale(q.x, p.x, w);
    UnitScale(q.y, p.y, h);
  }

  lemma UnitScale(s: real, a: real, w: real)
    requires 0.0 <= a <= 1.0 && 0.0 <= w && s == a * w
    ensures 0.0 <= s <= w
  {
    assert w - s == (1.0 - a) * w;
  }

  /** The `points.map(...)` of a route: each point scaled, in the same order. */
  function ScalePoints(ps: seq<Point>, width: nat, height: nat): (r: seq<Point>)
    ensures |r| == |ps|
    ensures forall i :: 0 <= i < |ps| ==> r[i] == ScalePoint(ps[i], width, height)
  {
    if ps == [] then [] else [ScalePoint(ps[0], width, height)] + ScalePoints(ps[1..], width, height)
  }

  /** One pixel point back in normalised coordinates, on a canvas that is not empty. */
  function UnscalePoint(q: Point, width: nat, height: nat): (p: Point)
    requires width > 0 && height > 0
    ensures p.x * width as real == q.x && p.y * height as real == q.y
  {
    Point(q.x / width as real, q.y / height as real)
  }

  /** Pixel coordinates back to normalised ones: the inverse of scaling. */
  function UnscalePoints(qs: seq<Point>, width: nat, height: nat): (r: seq<Point>)
    requires width > 0 && height > 0
    ensures |r| == |qs|
    ensures forall i :: 0 <= i < |qs| ==> r[i] == UnscalePoint(qs[i], width, height)
  {
    if qs == [] then [] else [UnscalePoint(qs[0], width, height)] + UnscalePoints(qs[1..], width, height)
  }

  lemma UnscaleScalePoint(p: Point, width: nat, height: nat)
    requires width > 0 && height > 0
    ensures UnscalePoint(ScalePoint(p, width, height), width, height) == p
  {
    var s := ScalePoint(p, width, height);
    assert s.x == p.x * (width as real) && s.y == p.y * (height as real);
    var q := UnscalePoint(s, width, height);
    assert q.x * (width as real) == s.x && q.y * (height as real) == s.y;
    assert width as real > 0.0 && height as real > 0.0;
    DivCancel(q.x, p.x, width as real);
    DivCancel(q.y, p.y, height as real);
  }

  /** Scaling loses nothing: the normalised route is recovered from its pixel image. */
  lemma UnscaleScale(ps: seq<Point>, width: nat, height: nat)
    requires width > 0 && height > 0
    ensures UnscalePoints(ScalePoints(ps, width, height), width, height) == ps
  {
    var qs := ScalePoints(ps, width, height);
    var back := UnscalePoints(qs, width, height);
    forall i | 0 <= i < |ps| ensures back[i] == ps[i] {
      assert back[i] == UnscalePoint(qs[i], width, height);
      UnscaleScalePoint(ps[i], width, height);
    }
  }

  lemma DivCancel(a: real, b: real, w: real)
    requires w > 0.0 && a * w == b * w
    ensures a == b
  {
    assert (a - b) * w == 0.0;
  }

  /** Scaling is applied point by point, so it keeps the order of concatenated paths. */
  lemma {:induction false} ScaleAppend(a: seq<Point>, b: seq<Point>, width: nat, height: nat)
    ensures ScalePoints(a + b, width, height) == ScalePoints(a, width, height) + ScalePoints(b, width, height)
  {
    if a != [] {
      assert (a + b)[1..] == a[1..] + b;
      ScaleAppend(a[1..], b, width, height);
    }
  }

  /** Resizing the canvas from `width` x `height` to `width2` x `height2` moves the pixel
      image of point `i` in proportion to the change of each side; the normalised points
      themselves are not involved. */
  lemma ScaleResize(ps: seq<Point>, width: nat, height: nat, width2: nat, height2: nat, i: nat)
    requires i < |ps|
    ensures ScalePoints(ps, width2, height2)[i].x * width as real == ScalePoints(ps, width, height)[i].x * width2 as real
    ensures ScalePoints(ps, width2, height2)[i].y * height as real == ScalePoints(ps, width, height)[i].y * height2 as real
  {
    assert ScalePoints(ps, width, height)[i] == ScalePoint(ps[i], width, height);
    assert ScalePoints(ps, width2, height2)[i] == ScalePoint(ps[i], width2, height2);
    ScalePointResize(ps[i], width, height, width2, height2);
  }

  lemma ScalePointResize(p: Point, width: nat, height: nat, width2: nat, height2: nat)
    ensures ScalePoint(p, width2, height2).x * width as real == ScalePoint(p, width, height).x * width2 as real
    ensures ScalePoint(p, width2, height2).y * height as real == ScalePoint(p, width, height).y * height2 as real
  {
    var before, after := ScalePoint(p, width, height), ScalePoint(p, width2, height2);
    Proportional(after.x, before.x, p.x, width as real, width2 as real);
    Proportional(after.y, before.y, p.y, height as real, height2 as real);
  }

  lemma Proportional(after: real, before: real, a: real, w: real, w2: real)
    requires after == a * w2 && before == a * w
    ensures after * w == before * w2
  {
  }
}
