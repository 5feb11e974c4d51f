/** Nearest points on a route and the precise hit test, over exact reals. */
module HitTesting {
  import opened Prelude
  import opened Records
  import opened Routing
  import opened RealFacts

  datatype Nearest = Nearest(point: Point, distanceSquared: real)

  datatype EdgeGeometry = EdgeGeometry(path: Route, bounds: Bounds, hitRadius: real)

  const EPSILON := 1.0 / 8388608.0
  const STEPS := 24

  function DistanceSquared(p: Point, q: Point): real {
    Square(p.x - q.x) + Square(p.y - q.y)
  }

  function LengthSquared(from: Point, to: Point): real {
    Square(to.x - from.x) + Square(to.y - from.y)
  }

  function Along(from: Point, to: Point, t: real): Point {
    Point(Mix(from.x, to.x, t), Mix(from.y, to.y, t))
  }

  function Dot(p: Point, from: Point, to: Point): real {
    Times(p.x - from.x, to.x - from.x) + Times(p.y - from.y, to.y - from.y)
  }

  /** Where along the segment the nearest point is; vanishingly short segments use their start. */
  function Foot(p: Point, from: Point, to: Point): (t: real)
    ensures 0.0 <= t <= 1.0
  {
    if LengthSquared(from, to) <= EPSILON then 0.0 else Clamp(Dot(p, from, to) / LengthSquared(from, to))
  }

  function NearestOnLine(p: Point, from: Point, to: Point): Nearest {
    var q := Along(from, to, Foot(p, from, to));
    Nearest(q, DistanceSquared(p, q))
  }

  function Bernstein(a: real, b: real, c: real, d: real, t: real): real {
    var mt := 1.0 - t;
    mt * mt * mt * a + 3.0 * mt * mt * t * b + 3.0 * mt * t * t * c + t * t * t * d
  }

  function CubicPoint(s: Segment, t: real): Point
    requires s.Cubic?
  {
    Point(Bernstein(s.from.x, s.control1.x, s.control2.x, s.to.x, t),
          Bernstein(s.from.y, s.control1.y, s.control2.y, s.to.y, t))
  }

  function Sample(s: Segment, step: nat): Point
    requires s.Cubic?
  {
    if step == 0 then s.from else CubicPoint(s, step as real / STEPS as real)
  }

  function Closer(a: Nearest, b: Nearest): Nearest {
    if b.distanceSquared < a.distanceSquared then b else a
  }

  /** The nearest point over the first `n` chords. */
  function NearestOnChords(p: Point, s: Segment, n: nat): Nearest
    requires s.Cubic? && n >= 1
  {
    var here := NearestOnLine(p, Sample(s, n - 1), Sample(s, n));
    if n == 1 then here else Closer(NearestOnChords(p, s, n - 1), here)
  }

  /** It is the nearest point of some chord, and no chord comes nearer. */
  lemma {:induction false} ChordMinimum(p: Point, s: Segment, n: nat)
    requires s.Cubic? && n >= 1
    ensures exists k: nat :: 1 <= k <= n && NearestOnChords(p, s, n) == OnChord(p, s, k)
    ensures forall k: nat :: 1 <= k <= n ==>
            NearestOnChords(p, s, n).distanceSquared <= OnChord(p, s, k).distanceSquared
  {
    hide NearestOnLine, CubicPoint;
    assert OnChord(p, s, n) == NearestOnLine(p, Sample(s, n - 1), Sample(s, n));
    if n > 1 {
      ChordMinimum(p, s, n - 1);
    }
  }

  function OnChord(p: Point, s: Segment, k: nat): Nearest
    requires s.Cubic? && k >= 1
  {
    NearestOnLine(p, Sample(s, k - 1), Sample(s, k))
  }

  /** The sampling loop with its running minimum: the nearest of the chord minima. */
  method NearestOnCubic(p: Point, s: Segment) returns (closest: Nearest)
    requires s.Cubic?
    ensures closest == NearestOnChords(p, s, STEPS)
    ensures exists k: nat :: 1 <= k <= STEPS && closest == OnChord(p, s, k)
    ensures forall k: nat :: 1 <= k <= STEPS ==> closest.distanceSquared <= OnChord(p, s, k).distanceSquared
  {
    hide NearestOnLine, CubicPoint;
    ChordMinimum(p, s, STEPS);
    var found: Option<Nearest> := None;
    var previous := s.from;
    for step := 1 to STEPS + 1
      invariant previous == Sample(s, step - 1)
      invariant found == if step == 1 then None else Some(NearestOnChords(p, s, step - 1))
    {
      var current := CubicPoint(s, step as real / STEPS as real);
      var nearest := NearestOnLine(p, previous, current);
      if found.None? || nearest.distanceSquared < found.value.distanceSquared {
        found := Some(nearest);
      }
      previous := current;
    }
    closest := found.value;
  }

  function NearestOnSegment(p: Point, s: Segment): Nearest {
    match s
    case Line(from, to) => NearestOnLine(p, from, to)
    case Cubic(_, _, _, _) => NearestOnChords(p, s, STEPS)
  }

  function NearestOnRoute(p: Point, route: Route): Option<Nearest> {
    if route == [] then None
    else
      var last := |route| - 1;
      var here := NearestOnSegment(p, route[last]);
      match NearestOnRoute(p, route[..last])
      case None => Some(here)
      case Some(best) => Some(Closer(best, here))
  }

  predicate ContainsPoint(g: EdgeGeometry, p: Point, margin: real) {
    var radius := Max(g.hitRadius + margin, 0.0);
    match NearestOnRoute(p, g.path)
    case None => false
    case Some(nearest) => nearest.distanceSquared <= radius * radius
  }

  // Curve samples and chords stay in the box of the control points.

  lemma Weights(a: real, b: real, t: real)
    ensures Mix(a, b, t) == (1.0 - t) * a + t * b
  {
  }

  lemma Quadratic(u: real, t: real, a: real, b: real, c: real)
    ensures u * (u * a + t * b) + t * (u * b + t * c) == u * u * a + 2.0 * u * t * b + t * t * c
  {
  }

  lemma Cubic(u: real, t: real, a: real, b: real, c: real, d: real)
    ensures u * (u * u * a + 2.0 * u * t * b + t * t * c) + t * (u * u * b + 2.0 * u * t * c + t * t * d) ==
            u * u * u * a + 3.0 * u * u * t * b + 3.0 * u * t * t * c + t * t * t * d
  {
  }

  /** The Bernstein form is repeated interpolation. */
  lemma DeCasteljau(a: real, b: real, c: real, d: real, t: real)
    ensures Bernstein(a, b, c, d, t) ==
            Mix(Mix(Mix(a, b, t), Mix(b, c, t), t), Mix(Mix(b, c, t), Mix(c, d, t), t), t)
  {
    var u := 1.0 - t;
    Weights(a, b, t);
    Weights(b, c, t);
    Weights(c, d, t);
    Quadratic(u, t, a, b, c);
    Quadratic(u, t, b, c, d);
    Cubic(u, t, a, b, c, d);
    Weights(Mix(a, b, t), Mix(b, c, t), t);
    Weights(Mix(b, c, t), Mix(c, d, t), t);
    Weights(Mix(Mix(a, b, t), Mix(b, c, t), t), Mix(Mix(b, c, t), Mix(c, d, t), t), t);
  }

  lemma BernsteinBetween(a: real, b: real, c: real, d: real, t: real, lo: real, hi: real)
    requires 0.0 <= t <= 1.0
    requires lo <= a <= hi && lo <= b <= hi && lo <= c <= hi && lo <= d <= hi
    ensures lo <= Bernstein(a, b, c, d, t) <= hi
  {
    Between(a, b, t, lo, hi);
    Between(b, c, t, lo, hi);
    Between(c, d, t, lo, hi);
    var ab, bc, cd := Mix(a, b, t), Mix(b, c, t), Mix(c, d, t);
    Between(ab, bc, t, lo, hi);
    Between(bc, cd, t, lo, hi);
    Between(Mix(ab, bc, t), Mix(bc, cd, t), t, lo, hi);
    DeCasteljau(a, b, c, d, t);
  }

  lemma NearestOnLineCovered(p: Point, from: Point, to: Point, b: Bounds)
    requires Covers(b, from) && Covers(b, to)
    ensures var q := NearestOnLine(p, from, to);
            Covers(b, q.point) && q.distanceSquared == DistanceSquared(p, q.point)
  {
    var t := Foot(p, from, to);
    Between(from.x, to.x, t, b.origin.x, b.origin.x + b.size.width);
    Between(from.y, to.y, t, b.origin.y, b.origin.y + b.size.height);
  }

  ghost predicate ControlsCovered(s: Segment, b: Bounds) {
    forall p :: p in BoundsPoints(s) ==> Covers(b, p)
  }

  lemma SampleCovered(s: Segment, step: nat, b: Bounds)
    requires s.Cubic? && step <= STEPS && ControlsCovered(s, b)
    ensures Covers(b, Sample(s, step))
  {
    var points := BoundsPoints(s);
    assert points[0] in points && points[1] in points && points[2] in points && points[3] in points;
    if step > 0 {
      var t := step as real / STEPS as real;
      BernsteinBetween(s.from.x, s.control1.x, s.control2.x, s.to.x, t, b.origin.x, b.origin.x + b.size.width);
      BernsteinBetween(s.from.y, s.control1.y, s.control2.y, s.to.y, t, b.origin.y, b.origin.y + b.size.height);
    }
  }

  lemma {:induction false} ChordsCovered(p: Point, s: Segment, n: nat, b: Bounds)
    requires s.Cubic? && 1 <= n <= STEPS && ControlsCovered(s, b)
    ensures var q := NearestOnChords(p, s, n);
            Covers(b, q.point) && q.distanceSquared == DistanceSquared(p, q.point)
  {
    SampleCovered(s, n - 1, b);
    SampleCovered(s, n, b);
    NearestOnLineCovered(p, Sample(s, n - 1), Sample(s, n), b);
    if n > 1 {
      ChordsCovered(p, s, n - 1, b);
    }
  }

  lemma {:induction false} NearestOnRouteCovered(p: Point, route: Route, b: Bounds)
    requires forall s :: s in route ==> ControlsCovered(s, b)
    requires route != []
    ensures var q := NearestOnRoute(p, route);
            q.Some? && Covers(b, q.value.point) && q.value.distanceSquared == DistanceSquared(p, q.value.point)
  {
    var last := |route| - 1;
    var s := route[last];
    assert s in route;
    match s {
      case Line(from, to) =>
        assert BoundsPoints(s)[0] in BoundsPoints(s) && BoundsPoints(s)[1] in BoundsPoints(s);
        NearestOnLineCovered(p, from, to, b);
      case Cubic(_, _, _, _) =>
        ChordsCovered(p, s, STEPS, b);
    }
    if last > 0 {
      NearestOnRouteCovered(p, route[..last], b);
    }
  }

  lemma CloseInBothAxes(p: Point, q: Point, radius: real)
    requires radius >= 0.0 && DistanceSquared(p, q) <= radius * radius
    ensures -radius <= p.x - q.x <= radius && -radius <= p.y - q.y <= radius
  {
    WithinSquare(p.x - q.x, p.y - q.y, radius);
    WithinSquare(p.y - q.y, p.x - q.x, radius);
  }

  // The geometry of an edge, and its bounds.

  datatype Policy = Policy(nodeBounds: Node -> Option<Bounds>, handlePosition: (Node, HandleId) -> Option<Point>)

  function NodeBounds(policy: Option<Policy>, node: Node): Bounds {
    match policy
    case None => Bounds(node.position, node.size)
    case Some(rules) =>
      match rules.nodeBounds(node)
      case None => Bounds(node.position, node.size)
      case Some(b) => b
  }

  function Center(b: Bounds): Point {
    Point(b.origin.x + b.size.width * 0.5, b.origin.y + b.size.height * 0.5)
  }

  function HandlePosition(policy: Option<Policy>, node: Node, handle: Handle): Point {
    var own := Point(node.position.x + handle.position.x, node.position.y + handle.position.y);
    match policy
    case None => own
    case Some(rules) =>
      match rules.handlePosition(node, handle.id)
      case None => own
      case Some(p) => p
  }

  function InteractionRadius(edge: Edge): (r: real)
    ensures r >= 0.0
    ensures r >= edge.route.interactionWidth * 0.5 && r >= edge.style.strokeWidth * 0.5
    ensures r == 0.0 || r == edge.route.interactionWidth * 0.5 || r == edge.style.strokeWidth * 0.5
  {
    var stroke := if edge.style.strokeWidth > 0.0 then edge.style.strokeWidth else 0.0;
    (if edge.route.interactionWidth > stroke then edge.route.interactionWidth else stroke) * 0.5
  }

  function GeometryOf(edge: Edge, path: Route, source: Point, target: Point): EdgeGeometry {
    var tight :=
      match RouteBounds(path)
      case Some(b) => b
      case None => FromBox(Box(Min(source.x, target.x), Min(source.y, target.y), Max(source.x, target.x),
        Max(source.y, target.y)));
    var radius := InteractionRadius(edge);
    EdgeGeometry(path, Dilate(tight, radius), radius)
  }

  /**
   * The bounds are the smallest box around the route, or around the two ends if there is no route,
   * extended by the hit radius on every side.
   */
  lemma GeometryBoundsTight(edge: Edge, path: Route, source: Point, target: Point)
    ensures GeometryOf(edge, path, source, target).path == path
    ensures GeometryOf(edge, path, source, target).hitRadius == InteractionRadius(edge)
    ensures TightBox(GeometryOf(edge, path, source, target).bounds, InteractionRadius(edge),
                     p => if path == [] then p == source || p == target else OnControls(path, p))
  {
    hide InteractionRadius, OnControls;
    var has := p => if path == [] then p == source || p == target else OnControls(path, p);
    if path != [] {
      RouteBoundsTight(path);
      hide RouteBounds;
      var b := RouteBounds(path).value;
      DilatedTight(b, InteractionRadius(edge), p => OnControls(path, p), has);
    } else {
      assert has(source) && has(target) && RouteBounds(path).None?;
    }
  }

  lemma DilatedTight(b: Bounds, r: real, has: Point -> bool, has': Point -> bool)
    requires TightBox(b, 0.0, has) && forall p :: has(p) == has'(p)
    ensures TightBox(Dilate(b, r), r, has')
  {
  }

  /**
   * Every precise hit lies in the stored bounds dilated by the margin, for every router.  A margin
   * that would make the hit radius negative counts as the one that makes it zero, as in the hit test.
   */
  lemma HitInsideBounds(edge: Edge, path: Route, source: Point, target: Point, p: Point, margin: real)
    requires ContainsPoint(GeometryOf(edge, path, source, target), p, margin)
    ensures Covers(Dilate(GeometryOf(edge, path, source, target).bounds, Max(margin, -InteractionRadius(edge))), p)
  {
    hide NearestOnRoute, DistanceSquared, RouteBounds;
    var radius := Max(InteractionRadius(edge) + margin, 0.0);
    RouteMinimum(p, path);
    RouteBoundsCover(path, path[0]);
    forall s | s in path ensures ControlsCovered(s, RouteBounds(path).value) {
      RouteBoundsCover(path, s);
    }
    var b := RouteBounds(path).value;
    NearestOnRouteCovered(p, path, b);
    CloseInBothAxes(p, NearestOnRoute(p, path).value.point, radius);
  }

  /** The coarse test of the program leaves out the far borders. */
  predicate CoarseContains(b: Bounds, p: Point) {
    && b.origin.x <= p.x < b.origin.x + b.size.width
    && b.origin.y <= p.y < b.origin.y + b.size.height
  }

  /**
   * So it lets a precise hit through exactly when the hit is not on the right or bottom border and,
   * if the margin makes the hit radius negative, when the shrunk bounds still cover the hit.
   */
  lemma CoarseTestPassesIff(edge: Edge, path: Route, source: Point, target: Point, p: Point, margin: real)
    requires ContainsPoint(GeometryOf(edge, path, source, target), p, margin)
    ensures var b := Dilate(GeometryOf(edge, path, source, target).bounds, margin);
            CoarseContains(b, p) <==>
            && (InteractionRadius(edge) + margin >= 0.0 || Covers(b, p))
            && p.x != b.origin.x + b.size.width && p.y != b.origin.y + b.size.height
  {
    HitInsideBounds(edge, path, source, target, p, margin);
  }

  /** A precise hit that the coarse test drops: the tip beyond the right end of a horizontal line. */
  lemma CoarseTestDropsTip(edge: Edge)
    requires edge.route.interactionWidth == 12.0 && edge.style.strokeWidth == 0.0
    ensures var path := [Line(Point(0.0, 0.0), Point(10.0, 0.0))];
            var g := GeometryOf(edge, path, path[0].from, path[0].to);
            ContainsPoint(g, Point(16.0, 0.0), 0.0) && !CoarseContains(Dilate(g.bounds, 0.0), Point(16.0, 0.0))
  {
    hide NearestOnRoute, NearestOnLine, RouteBounds;
    var s := Line(Point(0.0, 0.0), Point(10.0, 0.0));
    TipDistance(s, Point(16.0, 0.0));
    OneLineBounds(s);
  }

  /** With a margin below minus the hit radius, the start of a line is a precise hit outside the shrunk bounds. */
  lemma ShrunkBoundsDropStart(edge: Edge, margin: real)
    requires InteractionRadius(edge) + margin < 0.0
    ensures var path := [Line(Point(0.0, 0.0), Point(10.0, 0.0))];
            var g := GeometryOf(edge, path, path[0].from, path[0].to);
            ContainsPoint(g, Point(0.0, 0.0), margin) && !Covers(Dilate(g.bounds, margin), Point(0.0, 0.0))
  {
    hide NearestOnRoute, NearestOnLine, RouteBounds, InteractionRadius;
    var s := Line(Point(0.0, 0.0), Point(10.0, 0.0));
    StartDistance(s);
    OneLineBounds(s);
  }

  lemma StartDistance(s: Segment)
    requires s == Line(Point(0.0, 0.0), Point(10.0, 0.0))
    ensures NearestOnRoute(s.from, [s]) == Some(Nearest(s.from, 0.0))
  {
    hide NearestOnLine;
    assert [s][..0] == [];
    StartOnLine(s.from, s.to);
  }

  lemma StartOnLine(from: Point, to: Point)
    ensures NearestOnLine(from, from, to) == Nearest(from, 0.0)
  {
    hide Along, Foot, Dot, DistanceSquared;
    DotAtStart(from, to);
    FootAtZero(from, from, to);
    AlongAtStart(from, to);
    NoDistance(from);
  }

  lemma DotAtStart(from: Point, to: Point)
    ensures Dot(from, from, to) == 0.0
  {
    hide Times;
    ZeroTimes(to.x - from.x);
    ZeroTimes(to.y - from.y);
  }

  lemma AlongAtStart(from: Point, to: Point)
    ensures Along(from, to, 0.0) == from
  {
  }

  lemma NoDistance(p: Point)
    ensures DistanceSquared(p, p) == 0.0
  {
  }

  lemma ZeroTimes(x: real)
    ensures Times(0.0, x) == 0.0
  {
  }

  lemma FootAtZero(p: Point, from: Point, to: Point)
    requires Dot(p, from, to) == 0.0
    ensures Foot(p, from, to) == 0.0
  {
    hide Dot, LengthSquared;
    if LengthSquared(from, to) > EPSILON {
      ZeroOver(LengthSquared(from, to));
    }
  }

  lemma ZeroOver(x: real)
    requires x != 0.0
    ensures 0.0 / x == 0.0
  {
  }

  lemma TipDistance(s: Segment, p: Point)
    requires s == Line(Point(0.0, 0.0), Point(10.0, 0.0)) && p == Point(16.0, 0.0)
    ensures NearestOnRoute(p, [s]) == Some(Nearest(s.to, 36.0))
  {
    hide NearestOnLine;
    assert [s][..0] == [];
    TipOnLine(p, s.from, s.to);
  }

  lemma TipOnLine(p: Point, from: Point, to: Point)
    requires from == Point(0.0, 0.0) && to == Point(10.0, 0.0) && p == Point(16.0, 0.0)
    ensures NearestOnLine(p, from, to) == Nearest(to, 36.0)
  {
    hide Square, Times, Mix;
    SmallProducts();
    assert Foot(p, from, to) == 1.0;
  }

  lemma SmallProducts()
    ensures Square(0.0) == 0.0 && Square(6.0) == 36.0 && Square(10.0) == 100.0
    ensures Times(16.0, 10.0) == 160.0 && Times(0.0, 0.0) == 0.0
    ensures Mix(0.0, 10.0, 1.0) == 10.0 && Mix(0.0, 0.0, 1.0) == 0.0
  {
  }

  lemma OneLineBounds(s: Segment)
    requires s == Line(Point(0.0, 0.0), Point(10.0, 0.0))
    ensures RouteBounds([s]) == Some(Bounds(Point(0.0, 0.0), Size(10.0, 0.0)))
  {
    var a, b := s.from, s.to;
    assert [s][1..] == [];
    assert AllBoundsPoints([s]) == [a, b, a, b];
    assert [a, b, a, b][1..] == [b, a, b] && [b, a, b][1..] == [a, b] && [a, b][1..] == [b] && [b][1..] == [];
    var box := Box(0.0, 0.0, 10.0, 0.0);
    assert GrowAll(box, [b]) == GrowAll(box, []) == box;
    assert GrowAll(box, [a, b]) == box;
  }

  // On straight routes the test is exact.

  /** For a segment that is not vanishingly short, no point of it is nearer. */
  lemma NearestOnLineIsNearest(p: Point, from: Point, to: Point, s: real)
    requires LengthSquared(from, to) > EPSILON && 0.0 <= s <= 1.0
    ensures NearestOnLine(p, from, to).distanceSquared <= DistanceSquared(p, Along(from, to, s))
  {
    hide Times, Square, Mix, Dot, LengthSquared, DistanceSquared, Clamp;
    var l, dot := LengthSquared(from, to), Dot(p, from, to);
    var u := dot / l;
    assert u * l == dot;
    ClampIsCloser(u, s);
    NearerToVertex(Clamp(u), s, u, l, dot, DistanceSquared(p, from));
    DistanceAlong(p, from, to, s);
    DistanceAlong(p, from, to, Clamp(u));
  }

  lemma DistanceAlong(p: Point, from: Point, to: Point, t: real)
    ensures DistanceSquared(p, Along(from, to, t)) ==
            DistanceSquared(p, from) - 2.0 * t * Dot(p, from, to) + t * t * LengthSquared(from, to)
  {
    hide Times, Square, Mix;
    var q := Along(from, to, t);
    var dot1, dot2 := Times(p.x - from.x, to.x - from.x), Times(p.y - from.y, to.y - from.y);
    var length1, length2 := Square(to.x - from.x), Square(to.y - from.y);
    AxisAlong(p.x, from.x, to.x, q.x, t, dot1, length1);
    AxisAlong(p.y, from.y, to.y, q.y, t, dot2, length2);
    AddAxes(t, Square(p.x - q.x), Square(p.y - q.y), Square(p.x - from.x), Square(p.y - from.y),
            dot1, dot2, length1, length2, Dot(p, from, to), LengthSquared(from, to));
  }

  /**
   * The nearest point lies on the segment and comes with its squared distance.  On a segment no longer than
   * the threshold it is the start; on any other no point of the segment is nearer.
   */
  lemma NearestPointIs(p: Point, from: Point, to: Point)
    ensures var q := NearestOnLine(p, from, to);
            var dx, dy := to.x - from.x, to.y - from.y;
            && q.distanceSquared == (p.x - q.point.x) * (p.x - q.point.x) + (p.y - q.point.y) * (p.y - q.point.y)
            && (exists t :: LiesAt(q.point, from, to, t))
            && (dx * dx + dy * dy <= 1.0 / 8388608.0 ==> q.point == from)
            && (dx * dx + dy * dy > 1.0 / 8388608.0 ==>
                  forall s :: 0.0 <= s <= 1.0 ==> q.distanceSquared <= GapSquared(p, from, to, s))
  {
    hide NearestOnLine;
    LengthSquaredIs(from, to);
    NearestOnLineIs(p, from, to);
    forall s | LengthSquared(from, to) > EPSILON && 0.0 <= s <= 1.0
      ensures NearestOnLine(p, from, to).distanceSquared <= GapSquared(p, from, to, s)
    {
      NearestOnLineIsNearest(p, from, to, s);
      GapIs(p, from, to, s);
    }
  }

  ghost function GapSquared(p: Point, from: Point, to: Point, s: real): real {
    var x, y := p.x - (from.x + s * (to.x - from.x)), p.y - (from.y + s * (to.y - from.y));
    x * x + y * y
  }

  lemma GapIs(p: Point, from: Point, to: Point, s: real)
    ensures DistanceSquared(p, Along(from, to, s)) == GapSquared(p, from, to, s)
  {
  }

  lemma LengthSquaredIs(from: Point, to: Point)
    ensures LengthSquared(from, to) == (to.x - from.x) * (to.x - from.x) + (to.y - from.y) * (to.y - from.y)
  {
  }

  lemma NearestOnLineIs(p: Point, from: Point, to: Point)
    ensures var q := NearestOnLine(p, from, to);
            && q.distanceSquared == (p.x - q.point.x) * (p.x - q.point.x) + (p.y - q.point.y) * (p.y - q.point.y)
            && (exists t :: LiesAt(q.point, from, to, t))
            && (LengthSquared(from, to) <= EPSILON ==> q.point == from)
  {
    hide Foot;
    var t := Foot(p, from, to);
    assert LiesAt(NearestOnLine(p, from, to).point, from, to, t);
    if LengthSquared(from, to) <= EPSILON {
      NoFoot(p, from, to);
    }
  }

  lemma NoFoot(p: Point, from: Point, to: Point)
    requires LengthSquared(from, to) <= EPSILON
    ensures Foot(p, from, to) == 0.0
  {
  }

  ghost predicate LiesAt(q: Point, from: Point, to: Point, t: real) {
    0.0 <= t <= 1.0 && q.x == from.x + t * (to.x - from.x) && q.y == from.y + t * (to.y - from.y)
  }

  /** The sampled points: the ends of the curve, and between them repeated interpolation at every 24th. */
  lemma SamplesAre(s: Segment, k: nat)
    requires s.Cubic? && k <= 24
    ensures Sample(s, 0) == s.from && Sample(s, STEPS) == s.to && STEPS == 24
    ensures Sample(s, k) == Point(Interpolated(s.from.x, s.control1.x, s.control2.x, s.to.x, k as real / 24.0),
                                  Interpolated(s.from.y, s.control1.y, s.control2.y, s.to.y, k as real / 24.0))
  {
    hide Mix, Bernstein;
    var t := k as real / 24.0;
    DeCasteljau(s.from.x, s.control1.x, s.control2.x, s.to.x, t);
    DeCasteljau(s.from.y, s.control1.y, s.control2.y, s.to.y, t);
    AtStart(s.from.x, s.control1.x, s.control2.x, s.to.x);
    AtStart(s.from.y, s.control1.y, s.control2.y, s.to.y);
    AtEnd(s.from.x, s.control1.x, s.control2.x, s.to.x);
    AtEnd(s.from.y, s.control1.y, s.control2.y, s.to.y);
  }

  ghost function Interpolated(a: real, b: real, c: real, d: real, t: real): real {
    Mix(Mix(Mix(a, b, t), Mix(b, c, t), t), Mix(Mix(b, c, t), Mix(c, d, t), t), t)
  }

  lemma AtStart(a: real, b: real, c: real, d: real)
    ensures Interpolated(a, b, c, d, 0.0) == a
  {
  }

  lemma AtEnd(a: real, b: real, c: real, d: real)
    ensures Bernstein(a, b, c, d, 1.0) == d
  {
  }

  /** The first of the segments that come nearest is the `i`th. */
  ghost predicate FirstNearestAt(p: Point, route: Route, i: nat) {
    && i < |route|
    && (forall j :: 0 <= j < i ==>
          NearestOnSegment(p, route[j]).distanceSquared > NearestOnSegment(p, route[i]).distanceSquared)
    && (forall j :: i < j < |route| ==>
          NearestOnSegment(p, route[j]).distanceSquared >= NearestOnSegment(p, route[i]).distanceSquared)
  }

  /** Of several nearest segments the first one counts. */
  lemma {:induction false} FirstNearest(p: Point, route: Route)
    requires route != []
    ensures exists i: nat ::
              FirstNearestAt(p, route, i) && NearestOnRoute(p, route) == Some(NearestOnSegment(p, route[i]))
  {
    hide NearestOnSegment;
    var last: nat := |route| - 1;
    var front := route[..last];
    if last > 0 {
      FirstNearest(p, front);
      var i: nat :| FirstNearestAt(p, front, i) && NearestOnRoute(p, front) == Some(NearestOnSegment(p, front[i]));
      assert forall j :: 0 <= j < last ==> front[j] == route[j];
      if NearestOnSegment(p, route[last]).distanceSquared < NearestOnSegment(p, route[i]).distanceSquared {
        LastIsFirstNearest(p, route, i);
        assert NearestOnRoute(p, route) == Some(NearestOnSegment(p, route[last]));
      } else {
        assert FirstNearestAt(p, route, i);
      }
    } else {
      assert front == [] && FirstNearestAt(p, route, 0);
      assert NearestOnRoute(p, route) == Some(NearestOnSegment(p, route[0]));
    }
  }

  lemma LastIsFirstNearest(p: Point, route: Route, i: nat)
    requires i + 1 < |route| && FirstNearestAt(p, route[..|route| - 1], i)
    requires NearestOnSegment(p, route[|route| - 1]).distanceSquared < NearestOnSegment(p, route[i]).distanceSquared
    ensures FirstNearestAt(p, route, |route| - 1)
  {
    hide NearestOnSegment;
    assert forall j :: 0 <= j < |route| - 1 ==> route[..|route| - 1][j] == route[j];
  }

  /** Some point of the route is within `radius` of `p`. */
  ghost predicate Near(p: Point, route: Route, radius: real) {
    exists i, t :: 0 <= i < |route| && route[i].Line? && 0.0 <= t <= 1.0 && WithinOf(p, route[i], t, radius)
  }

  ghost predicate WithinOf(p: Point, s: Segment, t: real, radius: real)
    requires s.Line?
  {
    DistanceSquared(p, Along(s.from, s.to, t)) <= radius * radius
  }

  /** A straight route without vanishingly short segments is hit exactly when some point of it is in reach. */
  lemma StraightHitIff(g: EdgeGeometry, p: Point, margin: real)
    requires forall s :: s in g.path ==> s.Line? && LengthSquared(s.from, s.to) > EPSILON
    ensures ContainsPoint(g, p, margin) <==> Near(p, g.path, Max(g.hitRadius + margin, 0.0))
  {
    hide NearestOnRoute, NearestOnLine, Square, Times, Mix, DistanceSquared, LengthSquared, Along;
    var radius := Max(g.hitRadius + margin, 0.0);
    RouteMinimum(p, g.path);
    if ContainsPoint(g, p, margin) {
      var i :| 0 <= i < |g.path| && NearestOnRoute(p, g.path).value == NearestOnSegment(p, g.path[i]);
      assert g.path[i] in g.path;
      FootIsNear(p, g.path[i], radius);
    }
    if Near(p, g.path, radius) {
      var i, t :| 0 <= i < |g.path| && g.path[i].Line? && 0.0 <= t <= 1.0 && WithinOf(p, g.path[i], t, radius);
      assert g.path[i] in g.path;
      NearestOnLineIsNearest(p, g.path[i].from, g.path[i].to, t);
    }
  }

  lemma FootIsNear(p: Point, s: Segment, radius: real)
    requires s.Line? && NearestOnSegment(p, s).distanceSquared <= radius * radius
    ensures WithinOf(p, s, Foot(p, s.from, s.to), radius)
  {
  }

  lemma {:induction false} RouteMinimum(p: Point, route: Route)
    ensures NearestOnRoute(p, route).None? <==> route == []
    ensures route != [] ==>
              && (exists i :: 0 <= i < |route| && NearestOnRoute(p, route).value == NearestOnSegment(p, route[i]))
              && (forall i :: 0 <= i < |route| ==>
                 NearestOnRoute(p, route).value.distanceSquared <= NearestOnSegment(p, route[i]).distanceSquared)
  {
    if route != [] {
      var last := |route| - 1;
      RouteMinimum(p, route[..last]);
      if last > 0 {
        var i :| 0 <= i < last && NearestOnRoute(p, route[..last]).value == NearestOnSegment(p, route[..last][i]);
        assert route[..last][i] == route[i];
      }
      forall i | 0 <= i < |route|
        ensures NearestOnRoute(p, route).value.distanceSquared <= NearestOnSegment(p, route[i]).distanceSquared
      {
        assert i < last ==> route[..last][i] == route[i];
      }
    }
  }
}
