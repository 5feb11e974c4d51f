/** The runtime caches: graph index and edge geometry, both patched from diffs. */
module Runtimes {
  import opened Prelude
  import opened KeyedLists
  import opened Records
  import opened Commands
  import opened DocumentDiffs
  import opened GraphIndexes
  import opened GraphQueries
  import opened Routing
  import opened HitTesting

  function EndpointPosition(nodes: map<NodeId, Node>, policy: Option<Policy>,
                            p: Endpoint): Result<Point, DocumentError>
  {
    if p.node !in nodes then Err(MissingNode(p.node))
    else match p.handle
      case None => Ok(Center(NodeBounds(policy, nodes[p.node])))
      case Some(h) =>
        match Lookup(nodes[p.node].handles, HandleKey, h)
        case None => Err(MissingHandle(p.node, h))
        case Some(handle) => Ok(HandlePosition(policy, nodes[p.node], handle))
  }

  function ResolveEdge(nodes: map<NodeId, Node>, router: Router, policy: Option<Policy>,
                       edge: Edge): Result<EdgeGeometry, DocumentError>
  {
    var source :- EndpointPosition(nodes, policy, edge.source);
    var target :- EndpointPosition(nodes, policy, edge.target);
    Ok(GeometryOf(edge, router(RouteRequest(edge, source, target)), source, target))
  }

  /** The geometry a document gives to `e`, if it has the edge and both ends resolve. */
  function GeometryAt(d: Document, router: Router, policy: Option<Policy>, e: EdgeId): Option<EdgeGeometry> {
    if e !in d.edges.entries then None
    else match ResolveEdge(d.nodes.entries, router, policy, d.edges.entries[e])
      case Ok(g) => Some(g)
      case Err(_) => None
  }

  /** Resolving every edge afresh. */
  function ResolveAll(d: Document, router: Router, policy: Option<Policy>): map<EdgeId, EdgeGeometry> {
    map e | e in d.edges.entries && GeometryAt(d, router, policy, e).Some? :: GeometryAt(d, router, policy, e).value
  }

  function Cached(m: map<EdgeId, EdgeGeometry>, e: EdgeId): Option<EdgeGeometry> {
    if e in m then Some(m[e]) else None
  }

  lemma ResolvedWhenEqual(m: map<EdgeId, EdgeGeometry>, d: Document, router: Router, policy: Option<Policy>)
    requires forall e :: Cached(m, e) == GeometryAt(d, router, policy, e)
    ensures m == ResolveAll(d, router, policy)
  {
    var all := ResolveAll(d, router, policy);
    forall e ensures (e in m <==> e in all) && (e in m ==> m[e] == all[e]) {
      assert Cached(m, e) == GeometryAt(d, router, policy, e);
    }
  }

  /** The edges whose geometry a record can change. */
  predicate Reaches(d: Document, id: RecordId, e: EdgeId) {
    match id
    case EdgeRecord(f) => e == f
    case NodeRecord(n) => e in d.edges.entries && Touches(d.edges.entries[e], n)
    case ShapeRecord(_) => false
  }

  /** An edge of the new document that no named record reaches has the geometry it had before. */
  lemma UnreachedKeepsGeometry(d: Document, previous: Document, diff: Diff, router: Router, policy: Option<Policy>,
                               e: EdgeId)
    requires d.Filed() && d.Closed() && Faithful(diff, d, previous)
    requires e in d.edges.entries
    requires forall id :: id in diff.updated + diff.inserted ==> !Reaches(d, id, e)
    ensures GeometryAt(d, router, policy, e) == GeometryAt(previous, router, policy, e)
  {
    hide Faithful, ResolveEdge;
    var edge := d.edges.entries[e];
    UnreachedRecord(d, previous, diff, EdgeRecord(e), e);
    UnreachedRecord(d, previous, diff, NodeRecord(edge.source.node), e);
    UnreachedRecord(d, previous, diff, NodeRecord(edge.target.node), e);
    SameEndsResolveAlike(d.nodes.entries, previous.nodes.entries, router, policy, edge);
  }

  lemma SameEndsResolveAlike(nodes: map<NodeId, Node>, previous: map<NodeId, Node>, router: Router,
                             policy: Option<Policy>, edge: Edge)
    requires edge.source.node in nodes && edge.source.node in previous &&
             nodes[edge.source.node] == previous[edge.source.node]
    requires edge.target.node in nodes && edge.target.node in previous &&
             nodes[edge.target.node] == previous[edge.target.node]
    ensures ResolveEdge(nodes, router, policy, edge) == ResolveEdge(previous, router, policy, edge)
  {
    hide GeometryOf;
  }

  lemma UnreachedRecord(d: Document, previous: Document, diff: Diff, id: RecordId, e: EdgeId)
    requires Faithful(diff, d, previous) && d.Contains(id) && Reaches(d, id, e)
    requires forall x :: x in diff.updated + diff.inserted ==> !Reaches(d, x, e)
    ensures previous.Contains(id) && !Differs(d, previous, id)
  {
    assert id !in diff.updated + diff.inserted;
  }

  class Runtime {
    const graph: GraphIndex
    var geometries: map<EdgeId, EdgeGeometry>

    /** Both caches describe `d`. */
    ghost predicate Describes(d: Document, router: Router, policy: Option<Policy>)
      reads this, graph
    {
      graph.Valid() && graph.endpoints == EndsOf(d) && geometries == ResolveAll(d, router, policy)
    }

    constructor Rebuild(d: Document, router: Router, policy: Option<Policy>)
      requires d.Filed()
      ensures Describes(d, router, policy) && graph.Ordered(d) && fresh(graph)
    {
      graph := new GraphIndex.Rebuild(d);
      geometries := ResolveAll(d, router, policy);
    }

    /** A faithful diff turns caches of the previous document into caches of the new one. */
    method ApplyDiff(d: Document, diff: Diff, router: Router, policy: Option<Policy>, ghost previous: Document)
      requires Describes(previous, router, policy)
      requires d.Filed() && d.Closed() && Faithful(diff, d, previous)
      modifies this, graph
      ensures Describes(d, router, policy)
      ensures EndsOf(d) != EndsOf(previous) ==> graph.Ordered(d)
      ensures EndsOf(d) == EndsOf(previous) ==> unchanged(graph)
    {
      if diff.IsEmpty() {
        forall e ensures GeometryAt(d, router, policy, e) == GeometryAt(previous, router, policy, e) {
          EmptyDiffKeepsGeometry(d, previous, diff, router, policy, e);
        }
        UntouchedEnds(d, previous, diff);
        ResolvedWhenEqual(geometries, d, router, policy);
        return;
      }
      graph.ApplyDiff(d, diff, previous);
      RemoveGeometries(d, diff, router, policy, previous);
      RefreshGeometries(d, diff.updated + diff.inserted, router, policy);
    }

    method RemoveGeometries(d: Document, diff: Diff, router: Router, policy: Option<Policy>, ghost previous: Document)
      requires geometries == ResolveAll(previous, router, policy)
      requires d.Filed() && d.Closed() && Faithful(diff, d, previous)
      modifies this`geometries
      ensures forall e :: (exists id :: id in diff.updated + diff.inserted && Reaches(d, id, e)) ||
                          Cached(geometries, e) == GeometryAt(d, router, policy, e)
    {
      ghost var start := geometries;
      var todo := diff.removed;
      while todo != {}
        invariant todo <= diff.removed
        invariant forall e :: e in geometries ==> e in start && geometries[e] == start[e]
        invariant forall e :: e in geometries ==> EdgeRecord(e) !in diff.removed - todo
        invariant forall e :: e in start && e in d.edges.entries ==> e in geometries
      {
        var id :| id in todo;
        match id {
          case NodeRecord(n) =>
            assert !d.Contains(NodeRecord(n));
            NoEdgeAtMissingNode(d, n);
            geometries := map e | e in geometries && e in d.edges.entries && !Touches(d.edges.entries[e], n) ::
              geometries[e];
          case EdgeRecord(f) =>
            assert !d.Contains(EdgeRecord(f));
            geometries := geometries - {f};
          case ShapeRecord(_) =>
        }
        todo := todo - {id};
      }
      forall e ensures (exists id :: id in diff.updated + diff.inserted && Reaches(d, id, e)) ||
                       Cached(geometries, e) == GeometryAt(d, router, policy, e)
      {
        assert e in start <==> GeometryAt(previous, router, policy, e).Some?;
        if e !in d.edges.entries {
          assert e in start ==> previous.Contains(EdgeRecord(e)) && EdgeRecord(e) in diff.removed;
        } else if !exists id :: id in diff.updated + diff.inserted && Reaches(d, id, e) {
          UnreachedKeepsGeometry(d, previous, diff, router, policy, e);
        }
      }
    }

    method RefreshGeometries(d: Document, named: set<RecordId>, router: Router, policy: Option<Policy>)
      requires d.Filed() && graph.Valid() && graph.endpoints == EndsOf(d)
      requires forall e :: (exists id :: id in named && Reaches(d, id, e)) ||
                           Cached(geometries, e) == GeometryAt(d, router, policy, e)
      modifies this`geometries
      ensures geometries == ResolveAll(d, router, policy)
    {
      var todo := named;
      while todo != {}
        invariant forall e :: (exists id :: id in todo && Reaches(d, id, e)) ||
                              Cached(geometries, e) == GeometryAt(d, router, policy, e)
      {
        var id :| id in todo;
        ghost var before := geometries;
        RefreshRecord(d, id, router, policy);
        forall e
          ensures (exists x :: x in todo - {id} && Reaches(d, x, e)) ||
          Cached(geometries, e) == GeometryAt(d, router, policy, e)
        {
          if Reaches(d, id, e) {
            assert Cached(geometries, e) == GeometryAt(d, router, policy, e);
          } else if x :| x in todo && Reaches(d, x, e) {
            assert x in todo - {id};
          } else {
            assert Cached(geometries, e) == Cached(before, e);
          }
        }
        todo := todo - {id};
      }
      ResolvedWhenEqual(geometries, d, router, policy);
    }

    method RefreshRecord(d: Document, id: RecordId, router: Router, policy: Option<Policy>)
      requires d.Filed() && graph.Valid() && graph.endpoints == EndsOf(d)
      modifies this`geometries
      ensures forall e :: Cached(geometries, e) ==
                          if Reaches(d, id, e) then GeometryAt(d, router, policy, e) else old(Cached(geometries, e))
    {
      match id
      case EdgeRecord(e) => RefreshEdge(d, e, router, policy);
      case NodeRecord(n) =>
        var ids := Bucket(graph.incident, n);
        assert forall e :: e in ids <==> Incident(EndsOf(d), n, Either, e);
        for i := 0 to |ids|
          invariant forall e :: Cached(geometries, e) ==
                                if e in ids[..i] then GeometryAt(d, router, policy, e) else old(Cached(geometries, e))
        {
          assert ids[..i + 1] == ids[..i] + [ids[i]];
          RefreshEdge(d, ids[i], router, policy);
        }
        assert ids[..|ids|] == ids;
        assert forall e :: e in ids <==> Reaches(d, id, e);
      case ShapeRecord(_) =>
    }

    method RefreshEdge(d: Document, e: EdgeId, router: Router, policy: Option<Policy>)
      modifies this`geometries
      ensures forall f :: Cached(geometries, f) == if f == e then GeometryAt(d, router, policy, e)
              else old(Cached(geometries, f))
    {
      if !d.edges.Has(e) {
        geometries := geometries - {e};
        return;
      }
      match ResolveEdge(d.nodes.entries, router, policy, d.edges.entries[e])
      case Ok(g) => geometries := geometries[e := g];
      case Err(_) => geometries := geometries - {e};
    }

    /**
     * After any run of faithful diffs the caches are those of the last document.  If the lists were in
     * the order of a document with the first one's edges, they end in the order of the document after
     * the last diff that moved an edge, and hence in the last document's order exactly when edges that
     * meet have kept their relative order since.
     */
    method ApplyRun(run: seq<(Document, Diff)>, router: Router, policy: Option<Policy>,
                    ghost first: Document, ghost listed: Document)
      requires Describes(first, router, policy) && FaithfulRun(first, run)
      modifies this, graph
      ensures Describes(LastOf(first, run), router, policy)
      ensures old(ListedAs(listed, first)) ==>
                && ListedAs(LastMoved(listed, first, run), LastOf(first, run))
                && (graph.Ordered(LastOf(first, run)) <==>
                      MeetingOrderKept(LastMoved(listed, first, run), LastOf(first, run)))
      decreases run
    {
      if run == [] {
        if ListedAs(listed, first) {
          StaleOrderIff(graph, listed, first);
        }
      } else {
        var next := run[0].0;
        ghost var moved := EndsOf(next) != EndsOf(first);
        ApplyDiff(next, run[0].1, router, policy, first);
        ApplyRun(run[1..], router, policy, next, if moved then next else listed);
      }
    }

    /** The lists are in the order of `listed`, which has the edges of `d` with the same ends. */
    ghost predicate ListedAs(listed: Document, d: Document)
      reads this, graph
    {
      listed.Filed() && d.Filed() && EndsOf(listed) == EndsOf(d) && graph.Ordered(listed)
    }
  }

  /** The document after the last diff that moved an edge, or `listed` if none did. */
  ghost function LastMoved(listed: Document, first: Document, run: seq<(Document, Diff)>): Document
    decreases run
  {
    if run == [] then listed
    else LastMoved(if EndsOf(run[0].0) != EndsOf(first) then run[0].0 else listed, run[0].0, run[1..])
  }

  ghost predicate FaithfulRun(first: Document, run: seq<(Document, Diff)>)
    decreases run
  {
    run == [] ||
    (run[0].0.Filed() && run[0].0.Closed() && Faithful(run[0].1, run[0].0, first) && FaithfulRun(run[0].0, run[1..]))
  }

  ghost function LastOf(first: Document, run: seq<(Document, Diff)>): Document
    decreases run
  {
    if run == [] then first else LastOf(run[0].0, run[1..])
  }

  lemma NoEdgeAtMissingNode(d: Document, n: NodeId)
    requires d.Closed() && n !in d.nodes.entries
    ensures forall e :: e in d.edges.entries ==> !Touches(d.edges.entries[e], n)
  {
  }

  lemma EmptyDiffKeepsGeometry(d: Document, previous: Document, diff: Diff, router: Router, policy: Option<Policy>,
                               e: EdgeId)
    requires d.Filed() && d.Closed() && Faithful(diff, d, previous) && diff.IsEmpty()
    ensures GeometryAt(d, router, policy, e) == GeometryAt(previous, router, policy, e)
  {
    assert d.Contains(EdgeRecord(e)) <==> previous.Contains(EdgeRecord(e));
    if e in d.edges.entries {
      UnreachedKeepsGeometry(d, previous, diff, router, policy, e);
    }
  }

  // What is cached, in terms of the document alone.

  function PolicyBounds(policy: Option<Policy>, node: Node): Option<Bounds> {
    if policy.Some? then policy.value.nodeBounds(node) else None
  }

  function PolicyHandle(policy: Option<Policy>, node: Node, handle: HandleId): Option<Point> {
    if policy.Some? then policy.value.handlePosition(node, handle) else None
  }

  /**
   * Where an end is attached.  With a handle: where the policy puts the handle, or else at the node's
   * position plus the handle's.  Without: in the middle of the policy's bounds, or else of the node.
   */
  ghost predicate AnchoredAt(nodes: map<NodeId, Node>, policy: Option<Policy>, p: Endpoint, at: Point) {
    && p.node in nodes
    && var node := nodes[p.node];
       if p.handle.Some? then
         exists h ::
           && FirstHandle(node, p.handle.value, h)
           && match PolicyHandle(policy, node, h.id)
              case Some(q) => at == q
              case None => at.x == node.position.x + h.position.x && at.y == node.position.y + h.position.y
       else
         match PolicyBounds(policy, node)
         case Some(b) => InMiddle(b.origin, b.size, at)
         case None => InMiddle(node.position, node.size, at)
  }

  ghost predicate InMiddle(origin: Point, size: Size, at: Point) {
    at.x == origin.x + size.width / 2.0 && at.y == origin.y + size.height / 2.0
  }

  /** An end has at most one anchor, and resolves to it if it has one. */
  lemma ResolvedIffAnchored(nodes: map<NodeId, Node>, policy: Option<Policy>, p: Endpoint, at: Point)
    ensures EndpointPosition(nodes, policy, p) == Ok(at) <==> AnchoredAt(nodes, policy, p, at)
  {
    hide FirstHandle, Lookup;
    if p.node in nodes && p.handle.Some? {
      var node := nodes[p.node];
      var found := Lookup(node.handles, HandleKey, p.handle.value);
      forall h ensures FirstHandle(node, p.handle.value, h) <==> found == Some(h) {
        FoundIsFirst(node, p.handle.value, h);
      }
    }
  }

  /** What the geometry of an edge is: the route between its anchors, and the tight box extended by the hit radius. */
  ghost predicate RoutedBetween(g: EdgeGeometry, edge: Edge, router: Router, source: Point, target: Point) {
    && g.path == router(RouteRequest(edge, source, target))
    && g.hitRadius == InteractionRadius(edge)
    && TightBox(g.bounds, g.hitRadius, p => if g.path == [] then p == source || p == target else OnControls(g.path, p))
  }

  /**
   * The runtime of a document caches an edge exactly when both its ends have an anchor, and then holds the
   * route from the source anchor to the target anchor.
   */
  lemma CachedIffAnchored(runtime: Runtime, d: Document, router: Router, policy: Option<Policy>, e: EdgeId)
    requires runtime.Describes(d, router, policy)
    ensures e in runtime.geometries <==>
            && e in d.edges.entries
            && (exists at :: AnchoredAt(d.nodes.entries, policy, d.edges.entries[e].source, at))
            && (exists at :: AnchoredAt(d.nodes.entries, policy, d.edges.entries[e].target, at))
    ensures e in runtime.geometries ==>
              forall source, target ::
                && AnchoredAt(d.nodes.entries, policy, d.edges.entries[e].source, source)
                && AnchoredAt(d.nodes.entries, policy, d.edges.entries[e].target, target) ==>
                  RoutedBetween(runtime.geometries[e], d.edges.entries[e], router, source, target)
  {
    hide AnchoredAt, EndpointPosition, TightBox, OnControls;
    if e in d.edges.entries {
      var edge := d.edges.entries[e];
      forall at ensures EndpointPosition(d.nodes.entries, policy, edge.source) == Ok(at) <==>
                        AnchoredAt(d.nodes.entries, policy, edge.source, at)
      {
        ResolvedIffAnchored(d.nodes.entries, policy, edge.source, at);
      }
      forall at ensures EndpointPosition(d.nodes.entries, policy, edge.target) == Ok(at) <==>
                        AnchoredAt(d.nodes.entries, policy, edge.target, at)
      {
        ResolvedIffAnchored(d.nodes.entries, policy, edge.target, at);
      }
      forall s, t ensures RoutedBetween(GeometryOf(edge, router(RouteRequest(edge, s, t)), s, t), edge, router, s, t) {
        GeometryBoundsTight(edge, router(RouteRequest(edge, s, t)), s, t);
      }
      hide RoutedBetween, GeometryOf;
      assert GeometryAt(d, router, policy, e).Some? <==>
          EndpointPosition(d.nodes.entries, policy, edge.source).Ok? &&
          EndpointPosition(d.nodes.entries, policy, edge.target).Ok?;
    }
  }

  lemma FittingEndIsAnchored(nodes: map<NodeId, Node>, policy: Option<Policy>, p: Endpoint, barred: HandleRole)
    returns (at: Point)
    requires EndFits(nodes, p, barred)
    ensures AnchoredAt(nodes, policy, p, at)
  {
    var node := nodes[p.node];
    if p.handle.Some? {
      var h :| FirstHandle(node, p.handle.value, h) && h.connectable && h.role != barred;
      hide FirstHandle;
      var q := PolicyHandle(policy, node, h.id);
      at := if q.Some? then q.value else Point(node.position.x + h.position.x, node.position.y + h.position.y);
    } else {
      var b := PolicyBounds(policy, node);
      var r := if b.Some? then b.value else Bounds(node.position, node.size);
      at := Point(r.origin.x + r.size.width / 2.0, r.origin.y + r.size.height / 2.0);
    }
  }

  /**
   * In a sound document every edge is cached, between the two anchors its ends have.  The default router
   * leads from the one to the other, except for an orthogonal route that never leaves the source.
   */
  lemma SoundEdgesAreCached(runtime: Runtime, d: Document, router: Router, policy: Option<Policy>)
    requires runtime.Describes(d, router, policy) && RecordsSound(d)
    ensures runtime.geometries.Keys == d.edges.entries.Keys
    ensures forall e :: e in d.edges.entries ==>
              exists source, target ::
                && AnchoredAt(d.nodes.entries, policy, d.edges.entries[e].source, source)
                && AnchoredAt(d.nodes.entries, policy, d.edges.entries[e].target, target)
                && RoutedBetween(runtime.geometries[e], d.edges.entries[e], router, source, target)
                && (router == DefaultRouter ==> LeadsTo(runtime.geometries[e].path, d.edges.entries[e], source, target))
  {
    hide AnchoredAt, RoutedBetween, EndFits, LeadsTo, ResolveAll, NodesSound;
    forall e ensures e in runtime.geometries ==> e in d.edges.entries {
      CachedIffAnchored(runtime, d, router, policy, e);
    }
    forall e | e in d.edges.entries
      ensures e in runtime.geometries &&
              exists source, target ::
                && AnchoredAt(d.nodes.entries, policy, d.edges.entries[e].source, source)
                && AnchoredAt(d.nodes.entries, policy, d.edges.entries[e].target, target)
                && RoutedBetween(runtime.geometries[e], d.edges.entries[e], router, source, target)
                && (router == DefaultRouter ==> LeadsTo(runtime.geometries[e].path, d.edges.entries[e], source, target))
    {
      assert EdgeFits(d.nodes.entries, d.edges.entries[e]);
      CachedIffAnchored(runtime, d, router, policy, e);
      var source := FittingEndIsAnchored(d.nodes.entries, policy, d.edges.entries[e].source, TargetRole);
      var target := FittingEndIsAnchored(d.nodes.entries, policy, d.edges.entries[e].target, SourceRole);
      DefaultLeadsTo(runtime.geometries[e], d.edges.entries[e], router, source, target);
    }
  }

  ghost predicate LeadsTo(path: Route, edge: Edge, source: Point, target: Point) {
    || Runs(path, source, target)
    || (path == [] && edge.route.kind == "orthogonal" && source == target)
  }

  lemma DefaultLeadsTo(g: EdgeGeometry, edge: Edge, router: Router, source: Point, target: Point)
    requires RoutedBetween(g, edge, router, source, target)
    ensures router == DefaultRouter ==> LeadsTo(g.path, edge, source, target)
  {
    DefaultRouteRuns(RouteRequest(edge, source, target));
    var points := [source] + edge.route.waypoints + [target];
    assert points[|points| - 1] == target && points[0] == source;
    hide TightBox, OnControls, DefaultRouter;
  }
}
