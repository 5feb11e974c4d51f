/** Routes between two points: polyline, orthogonal and cubic, and the box around a route. */
module Routing {
  import opened Prelude
  import opened Records

  datatype Segment =
    | Line(from: Point, to: Point)
    | Cubic(from: Point, control1: Point, control2: Point, to: Point)

  type Route = seq<Segment>

  datatype RouteRequest = RouteRequest(edge: Edge, source: Point, target: Point)

  type Router = RouteRequest -> Route

  function Polyline(points: seq<Point>): Route {
    if |points| < 2 then [] else [Line(points[0], points[1])] + Polyline(points[1..])
  }

  function PushUnique(points: seq<Point>, p: Point): seq<Point> {
    if points != [] && points[|points| - 1] == p then points else points + [p]
  }

  function AppendLeg(points: seq<Point>, from: Point, to: Point): seq<Point> {
    var start := PushUnique(points, from);
    var bent :=
      if from.x != to.x && from.y != to.y then
        var midX := (from.x + to.x) * 0.5;
        PushUnique(PushUnique(start, Point(midX, from.y)), Point(midX, to.y))
      else start;
    PushUnique(bent, to)
  }

  /** The legs between consecutive points, appended to what is there. */
  function AppendLegs(done: seq<Point>, points: seq<Point>): seq<Point>
    decreases points
  {
    if |points| < 2 then done else AppendLegs(AppendLeg(done, points[0], points[1]), points[1..])
  }

  function Orthogonal(points: seq<Point>): Route {
    Polyline(AppendLegs([], points))
  }

  /** The loop that grows the point list leg by leg. */
  method OrthogonalRoute(points: seq<Point>) returns (route: Route)
    ensures route == Orthogonal(points)
  {
    var corners: seq<Point> := [];
    var i := 0;
    assert points[0..] == points;
    while i + 1 < |points|
      invariant 0 <= i <= |points|
      invariant AppendLegs(corners, points[i..]) == AppendLegs([], points)
    {
      assert points[i..][1..] == points[i + 1..];
      corners := AppendLeg(corners, points[i], points[i + 1]);
      i := i + 1;
    }
    route := Polyline(corners);
  }

  function Abs(x: real): real {
    if x < 0.0 then -x else x
  }

  function DefaultControls(source: Point, target: Point): (Point, Point) {
    var dx := target.x - source.x;
    var length := if Abs(dx) * 0.5 > 40.0 then Abs(dx) * 0.5 else 40.0;
    var offset := if dx < 0.0 then -length else length;
    (Point(source.x + offset, source.y), Point(target.x - offset, target.y))
  }

  /** The router used when the application installs none. */
  function DefaultRouter(request: RouteRequest): Route {
    var route := request.edge.route;
    var points := [request.source] + route.waypoints + [request.target];
    if route.kind == "cubic-bezier" then
      if |route.controlPoints| >= 2 then
        [Cubic(request.source, route.controlPoints[0], route.controlPoints[1], request.target)]
      else
        var (c1, c2) := DefaultControls(request.source, request.target);
        [Cubic(request.source, c1, c2, request.target)]
    else if route.kind == "orthogonal" then Orthogonal(points)
    else Polyline(points)
  }

  // What a route promises: it runs without gaps from its source to its target.

  ghost predicate Runs(route: Route, source: Point, target: Point) {
    && route != []
    && route[0].from == source
    && route[|route| - 1].to == target
    && forall i :: 0 <= i < |route| - 1 ==> route[i].to == route[i + 1].from
  }

  lemma {:induction false} PolylineSegments(points: seq<Point>)
    requires |points| >= 1
    ensures |Polyline(points)| == |points| - 1
    ensures forall i :: 0 <= i < |points| - 1 ==> Polyline(points)[i] == Line(points[i], points[i + 1])
  {
    if |points| >= 2 {
      PolylineSegments(points[1..]);
    }
  }

  ghost predicate Aligned(p: Point, q: Point) {
    p.x == q.x || p.y == q.y
  }

  /** Neighbouring corners are aligned and never repeat. */
  ghost predicate Staircase(points: seq<Point>) {
    forall i :: 0 <= i < |points| - 1 ==> Aligned(points[i], points[i + 1]) && points[i] != points[i + 1]
  }

  lemma PushKeepsStaircase(points: seq<Point>, p: Point)
    requires Staircase(points) && (points != [] ==> Aligned(points[|points| - 1], p))
    ensures Staircase(PushUnique(points, p))
    ensures PushUnique(points, p) != [] && PushUnique(points, p)[|PushUnique(points, p)| - 1] == p
    ensures PushUnique(points, p)[0] == (if points == [] then p else points[0])
    ensures if points != [] && points[|points| - 1] == p then PushUnique(points, p) == points
            else |PushUnique(points, p)| == |points| + 1
  {
  }

  lemma LegKeepsStaircase(points: seq<Point>, from: Point, to: Point)
    requires Staircase(points) && (points != [] ==> points[|points| - 1] == from)
    ensures var after := AppendLeg(points, from, to);
            && Staircase(after) && after != [] && after[|after| - 1] == to && |after| >= |points|
            && after[0] == (if points == [] then from else points[0])
            && (from != to ==> |after| > |points| && |after| > 1)
            && (from == to ==> after == PushUnique(points, from))
  {
    hide Staircase, PushUnique;
    var start := PushUnique(points, from);
    PushKeepsStaircase(points, from);
    if from.x != to.x && from.y != to.y {
      var midX := (from.x + to.x) * 0.5;
      var p, q := Point(midX, from.y), Point(midX, to.y);
      PushKeepsStaircase(start, p);
      PushKeepsStaircase(PushUnique(start, p), q);
      PushKeepsStaircase(PushUnique(PushUnique(start, p), q), to);
    } else {
      PushKeepsStaircase(start, to);
    }
  }

  ghost predicate AllSame(points: seq<Point>) {
    forall i :: 0 <= i < |points| ==> points[i] == points[0]
  }

  lemma {:induction false} LegsKeepStaircase(done: seq<Point>, points: seq<Point>)
    requires |points| >= 1 && Staircase(done) && (done != [] ==> done[|done| - 1] == points[0])
    requires |points| >= 2 || done != []
    ensures var after := AppendLegs(done, points);
            && Staircase(after) && after != [] && after[|after| - 1] == points[|points| - 1]
            && after[0] == (if done == [] then points[0] else done[0])
    decreases points
  {
    if |points| >= 2 {
      hide Staircase, AppendLeg, PushUnique;
      var next := AppendLeg(done, points[0], points[1]);
      assert points[1..][|points| - 2] == points[|points| - 1];
      LegKeepsStaircase(done, points[0], points[1]);
      LegsKeepStaircase(next, points[1..]);
    }
  }

  /** The only way not to leave the first point is to have no other. */
  lemma {:induction false} LegsLeaveStart(done: seq<Point>, points: seq<Point>)
    requires |points| >= 1 && Staircase(done) && (done != [] ==> done[|done| - 1] == points[0])
    requires |points| >= 2 || done != []
    ensures |AppendLegs(done, points)| == 1 <==> |done| <= 1 && AllSame(points)
    decreases points
  {
    if |points| >= 2 {
      var next := AppendLeg(done, points[0], points[1]);
      LegKeepsStaircase(done, points[0], points[1]);
      assert points[0] == points[1] && |done| <= 1 ==> |next| == 1;
      hide Staircase, AllSame, AppendLeg, PushUnique;
      LegsLeaveStart(next, points[1..]);
      AllSameTail(points);
    }
  }

  lemma AllSameTail(points: seq<Point>)
    requires |points| >= 2
    ensures AllSame(points) <==> points[0] == points[1] && AllSame(points[1..])
  {
    if points[0] == points[1] && AllSame(points[1..]) {
      forall i | 0 <= i < |points| ensures points[i] == points[0] {
        assert i == 0 || points[i] == points[1..][i - 1];
      }
    }
  }

  /**
   * An orthogonal route has only axis-aligned segments, runs from end to end, and is empty exactly when
   * all points coincide.
   */
  lemma OrthogonalIsAligned(points: seq<Point>)
    requires |points| >= 2
    ensures forall s :: s in Orthogonal(points) ==> s.Line? && Aligned(s.from, s.to) && s.from != s.to
    ensures Orthogonal(points) == [] <==> AllSame(points)
    ensures Orthogonal(points) != [] ==> Runs(Orthogonal(points), points[0], points[|points| - 1])
  {
    LegsKeepStaircase([], points);
    LegsLeaveStart([], points);
    var corners := AppendLegs([], points);
    StaircaseRoute(corners);
    if |corners| > 1 {
      PolylineRuns(corners);
    }
  }

  lemma StaircaseRoute(corners: seq<Point>)
    requires |corners| >= 1 && Staircase(corners)
    ensures forall s :: s in Polyline(corners) ==> s.Line? && Aligned(s.from, s.to) && s.from != s.to
    ensures Polyline(corners) == [] <==> |corners| == 1
  {
    var route := Polyline(corners);
    PolylineSegments(corners);
    hide Polyline;
    forall s | s in route ensures s.Line? && Aligned(s.from, s.to) && s.from != s.to {
      var i :| 0 <= i < |route| && route[i] == s;
      assert Aligned(corners[i], corners[i + 1]) && corners[i] != corners[i + 1];
    }
  }

  lemma PolylineRuns(points: seq<Point>)
    requires |points| >= 2
    ensures Runs(Polyline(points), points[0], points[|points| - 1])
  {
    PolylineSegments(points);
  }

  /**
   * The default router's route runs from source to target; only an orthogonal route that never leaves
   * the source is empty.
   */
  lemma DefaultRouteRuns(request: RouteRequest)
    ensures var route := DefaultRouter(request);
            var points := [request.source] + request.edge.route.waypoints + [request.target];
            && (route != [] ==> Runs(route, request.source, request.target))
            && (route == [] <==> request.edge.route.kind == "orthogonal" && AllSame(points))
  {
    var points := [request.source] + request.edge.route.waypoints + [request.target];
    OrthogonalIsAligned(points);
    PolylineRuns(points);
  }

  // The box around a route.

  datatype Box = Box(minX: real, minY: real, maxX: real, maxY: real)

  function Min(a: real, b: real): real { if a < b then a else b }
  function Max(a: real, b: real): real { if a > b then a else b }

  function Grow(b: Box, p: Point): Box {
    Box(Min(b.minX, p.x), Min(b.minY, p.y), Max(b.maxX, p.x), Max(b.maxY, p.y))
  }

  function GrowAll(b: Box, points: seq<Point>): Box
    decreases points
  {
    if points == [] then b else GrowAll(Grow(b, points[0]), points[1..])
  }

  function BoundsPoints(s: Segment): seq<Point> {
    match s
    case Line(from, to) => [from, to, from, to]
    case Cubic(from, control1, control2, to) => [from, control1, control2, to]
  }

  function AllBoundsPoints(route: Route): seq<Point> {
    if route == [] then [] else BoundsPoints(route[0]) + AllBoundsPoints(route[1..])
  }

  function FromBox(b: Box): Bounds {
    Bounds(Point(b.minX, b.minY), Size(b.maxX - b.minX, b.maxY - b.minY))
  }

  function RouteBounds(route: Route): Option<Bounds> {
    var points := AllBoundsPoints(route);
    if points == [] then None
    else
      var first := points[0];
      Some(FromBox(GrowAll(Box(first.x, first.y, first.x, first.y), points[1..])))
  }

  function Dilate(b: Bounds, amount: real): Bounds {
    Bounds(Point(b.origin.x - amount, b.origin.y - amount),
      Size(b.size.width + amount + amount, b.size.height + amount + amount))
  }

  /** Inside or on the border. */
  ghost predicate Covers(b: Bounds, p: Point) {
    && b.origin.x <= p.x <= b.origin.x + b.size.width
    && b.origin.y <= p.y <= b.origin.y + b.size.height
  }

  lemma {:induction false} GrowAllCovers(b: Box, points: seq<Point>)
    requires b.minX <= b.maxX && b.minY <= b.maxY
    ensures var g := GrowAll(b, points);
            && g.minX <= b.minX && b.maxX <= g.maxX && g.minY <= b.minY && b.maxY <= g.maxY
            && forall p :: p in points ==> g.minX <= p.x <= g.maxX && g.minY <= p.y <= g.maxY
    decreases points
  {
    if points != [] {
      GrowAllCovers(Grow(b, points[0]), points[1..]);
      assert points == [points[0]] + points[1..];
    }
  }

  lemma {:induction false} BoundsPointsOf(route: Route, s: Segment)
    requires s in route
    ensures forall p :: p in BoundsPoints(s) ==> p in AllBoundsPoints(route)
  {
    assert route == [route[0]] + route[1..];
    if s != route[0] {
      BoundsPointsOf(route[1..], s);
    }
  }

  /** The box of a route covers every control point of every segment. */
  lemma RouteBoundsCover(route: Route, s: Segment)
    requires s in route
    ensures RouteBounds(route).Some?
    ensures forall p :: p in BoundsPoints(s) ==> Covers(RouteBounds(route).value, p)
  {
    var points := AllBoundsPoints(route);
    BoundsPointsOf(route, s);
    assert s.from in BoundsPoints(s) by { assert BoundsPoints(s)[0] == s.from; }
    var first := points[0];
    GrowAllCovers(Box(first.x, first.y, first.x, first.y), points[1..]);
    assert points == [first] + points[1..];
  }

  /** `p` is an end or a control point of a segment. */
  ghost predicate OnControls(route: Route, p: Point) {
    exists s :: s in route && (p == s.from || p == s.to || (s.Cubic? && (p == s.control1 || p == s.control2)))
  }

  /** Taken in by `margin` on every side, the box holds all the points and has one on every side. */
  ghost predicate TightBox(b: Bounds, margin: real, has: Point -> bool) {
    && (forall p :: has(p) ==>
                      && b.origin.x + margin <= p.x <= b.origin.x + b.size.width - margin
                      && b.origin.y + margin <= p.y <= b.origin.y + b.size.height - margin)
    && (exists p :: has(p) && p.x == b.origin.x + margin)
    && (exists p :: has(p) && p.x == b.origin.x + b.size.width - margin)
    && (exists p :: has(p) && p.y == b.origin.y + margin)
    && (exists p :: has(p) && p.y == b.origin.y + b.size.height - margin)
  }

  lemma {:induction false} GrowAllReached(b: Box, points: seq<Point>)
    ensures var g := GrowAll(b, points);
            && (g.minX == b.minX || exists p :: p in points && p.x == g.minX)
            && (g.maxX == b.maxX || exists p :: p in points && p.x == g.maxX)
            && (g.minY == b.minY || exists p :: p in points && p.y == g.minY)
            && (g.maxY == b.maxY || exists p :: p in points && p.y == g.maxY)
    decreases points
  {
    if points != [] {
      GrowAllReached(Grow(b, points[0]), points[1..]);
      assert points[0] in points && forall p :: p in points[1..] ==> p in points;
    }
  }

  lemma {:induction false} ControlsAreBoundsPoints(route: Route, p: Point)
    ensures p in AllBoundsPoints(route) <==> OnControls(route, p)
  {
    if route != [] {
      var s := route[0];
      ControlsAreBoundsPoints(route[1..], p);
      assert route == [s] + route[1..];
      assert p in BoundsPoints(s) <==>
          p == s.from || p == s.to || (s.Cubic? && (p == s.control1 || p == s.control2)) by {
        var points := BoundsPoints(s);
        assert points[0] in points && points[1] in points && points[2] in points && points[3] in points;
        assert forall q :: q in points ==> q == points[0] || q == points[1] || q == points[2] || q == points[3];
      }
      hide BoundsPoints;
      assert s in route && forall x :: x in route <==> x == s || x in route[1..];
    }
  }

  /** The box of a route is the smallest one that holds its ends and control points. */
  lemma RouteBoundsTight(route: Route)
    ensures RouteBounds(route).Some? <==> route != []
    ensures route != [] ==> TightBox(RouteBounds(route).value, 0.0, p => OnControls(route, p))
  {
    hide OnControls, GrowAll, TightBox;
    var points := AllBoundsPoints(route);
    if route != [] {
      forall p ensures p in points <==> OnControls(route, p) {
        ControlsAreBoundsPoints(route, p);
      }
      BoxIsTight(points, p => OnControls(route, p));
    }
  }

  lemma BoxIsTight(points: seq<Point>, has: Point -> bool)
    requires points != [] && forall p :: p in points <==> has(p)
    ensures var first := points[0];
            TightBox(FromBox(GrowAll(Box(first.x, first.y, first.x, first.y), points[1..])), 0.0, has)
  {
    var first := points[0];
    var b := Box(first.x, first.y, first.x, first.y);
    GrowAllCovers(b, points[1..]);
    GrowAllReached(b, points[1..]);
    hide GrowAll;
    assert first in points && forall p :: p in points <==> p == first || p in points[1..];
  }

  // The default routes, spelled out.

  /** What a leg passes through: halfway along x it turns, unless its ends are aligned. */
  function Corners(from: Point, to: Point): seq<Point> {
    if from.x == to.x || from.y == to.y then [from, to]
    else [from, Point((from.x + to.x) / 2.0, from.y), Point((from.x + to.x) / 2.0, to.y), to]
  }

  function AllCorners(points: seq<Point>): seq<Point> {
    if |points| < 2 then [] else Corners(points[0], points[1]) + AllCorners(points[1..])
  }

  /** Without immediate repetitions. */
  function Compact(points: seq<Point>): seq<Point> {
    if |points| < 2 then points
    else if points[0] == points[1] then Compact(points[1..])
    else [points[0]] + Compact(points[1..])
  }

  lemma {:induction false} CompactSnoc(points: seq<Point>, p: Point)
    ensures Compact(points + [p]) == PushUnique(Compact(points), p)
    ensures points != [] ==> Compact(points) != [] && Compact(points)[|Compact(points)| - 1] == points[|points| - 1]
  {
    if |points| >= 2 {
      CompactSnoc(points[1..], p);
      assert (points + [p])[1..] == points[1..] + [p];
    } else if |points| == 1 {
      assert (points + [p])[1..] == [p];
    }
  }

  lemma LegIsCorners(done: seq<Point>, from: Point, to: Point)
    ensures AppendLeg(Compact(done), from, to) == Compact(done + Corners(from, to))
  {
    hide Compact, PushUnique;
    var mid := (from.x + to.x) / 2.0;
    CompactSnoc(done, from);
    if from.x != to.x && from.y != to.y {
      var p, q := Point(mid, from.y), Point(mid, to.y);
      CompactSnoc(done + [from], p);
      CompactSnoc(done + [from] + [p], q);
      CompactSnoc(done + [from] + [p] + [q], to);
      assert done + [from] + [p] + [q] + [to] == done + [from, p, q, to];
      assert (from.x + to.x) * 0.5 == mid;
    } else {
      CompactSnoc(done + [from], to);
      assert done + [from] + [to] == done + [from, to];
    }
  }

  lemma {:induction false} LegsAreCorners(done: seq<Point>, points: seq<Point>)
    ensures AppendLegs(Compact(done), points) == Compact(done + AllCorners(points))
    decreases points
  {
    hide AppendLeg, Compact, Corners;
    if |points| >= 2 {
      var leg, rest := Corners(points[0], points[1]), AllCorners(points[1..]);
      assert AllCorners(points) == leg + rest;
      LegIsCorners(done, points[0], points[1]);
      LegsAreCorners(done + leg, points[1..]);
      hide AllCorners;
      JoinCorners(done, leg, rest);
    } else {
      assert done + AllCorners(points) == done;
    }
  }

  lemma JoinCorners(a: seq<Point>, b: seq<Point>, c: seq<Point>)
    ensures (a + b) + c == a + (b + c)
  {
  }

  /** Consecutive points of `points` are the ends of the segments, all of them lines. */
  ghost predicate Connects(route: Route, points: seq<Point>) {
    |route| == (if points == [] then 0 else |points| - 1) &&
    forall i :: 0 <= i < |route| ==> route[i] == Line(points[i], points[i + 1])
  }

  /**
   * An orthogonal route connects the corners of its legs in turn, repeated ones dropped; any kind but the
   * cubic one connects the source, the waypoints and the target; a cubic one is a single curve with the
   * two first control points that are given.
   */
  lemma DefaultRouteShape(request: RouteRequest)
    ensures var route, edge := DefaultRouter(request), request.edge;
            var points := [request.source] + edge.route.waypoints + [request.target];
            && (edge.route.kind == "orthogonal" ==> Connects(route, Compact(AllCorners(points))))
            && (edge.route.kind != "orthogonal" && edge.route.kind != "cubic-bezier" ==> Connects(route, points))
            && (edge.route.kind == "cubic-bezier" ==>
                  && |route| == 1 && route[0].Cubic?
                  && route[0].from == request.source && route[0].to == request.target
                  && (|edge.route.controlPoints| >= 2 ==>
                        [route[0].control1, route[0].control2] == edge.route.controlPoints[..2])
                  && (|edge.route.controlPoints| < 2 ==> Bows(route[0])))
  {
    hide Orthogonal, Polyline, Compact, AllCorners, Connects;
    var points := [request.source] + request.edge.route.waypoints + [request.target];
    OrthogonalConnects(points);
    PolylineConnects(points);
    var edge := request.edge;
    if edge.route.kind == "cubic-bezier" {
      assert |edge.route.controlPoints| >= 2 ==>
          edge.route.controlPoints[..2] == [edge.route.controlPoints[0], edge.route.controlPoints[1]];
    }
  }

  lemma PolylineConnects(points: seq<Point>)
    ensures Connects(Polyline(points), points)
  {
    if points != [] {
      PolylineSegments(points);
    }
  }

  lemma OrthogonalConnects(points: seq<Point>)
    ensures Connects(Orthogonal(points), Compact(AllCorners(points)))
  {
    LegsAreCorners([], points);
    hide AppendLegs, AllCorners, Polyline, Connects;
    assert [] + AllCorners(points) == AllCorners(points);
    PolylineConnects(AppendLegs([], points));
  }

  /**
   * The controls of a bare curve leave both ends horizontally, towards the other end, by half the
   * horizontal distance but never by less than 40.
   */
  ghost predicate Bows(s: Segment)
    requires s.Cubic?
  {
    var dx := s.to.x - s.from.x;
    var reach := s.control1.x - s.from.x;
    && s.control1.y == s.from.y && s.control2.y == s.to.y
    && s.to.x - s.control2.x == reach
    && (dx < 0.0 ==> reach <= -40.0 && reach <= dx / 2.0 && (reach == -40.0 || reach == dx / 2.0))
    && (dx >= 0.0 ==> reach >= 40.0 && reach >= dx / 2.0 && (reach == 40.0 || reach == dx / 2.0))
  }
}
