/** Indexed queries against the full scan, and when the lists are in document order. */
module GraphQueries {
  import opened Prelude
  import opened Records
  import opened Commands
  import opened DocumentDiffs
  import opened EdgeOrders
  import opened GraphIndexes

  // The full scan.

  function ScanBetween(d: Document, source: NodeId, target: NodeId): seq<EdgeId> {
    Filter(d.edges.keys, Linking(EndsOf(d), source, target))
  }

  function Linking(ends: map<EdgeId, Ends>, source: NodeId, target: NodeId): EdgeId -> bool {
    (e: EdgeId) => e in ends && ends[e] == Ends(source, target)
  }

  function Neighbor(x: Ends, n: NodeId, dir: Direction): Option<NodeId> {
    match dir
    case Incoming => if x.target == n then Some(x.source) else None
    case Outgoing => if x.source == n then Some(x.target) else None
    case Either => if x.source == n then Some(x.target) else if x.target == n then Some(x.source) else None
  }

  /** The neighbours over the listed edges, one for each edge that has one. */
  function NeighborsOver(ends: map<EdgeId, Ends>, ids: seq<EdgeId>, n: NodeId, dir: Direction): seq<NodeId> {
    if ids == [] then []
    else
      var here := if ids[0] in ends then Neighbor(ends[ids[0]], n, dir) else None;
      (if here.Some? then [here.value] else []) + NeighborsOver(ends, ids[1..], n, dir)
  }

  function ScanNeighbors(d: Document, n: NodeId, dir: Direction): seq<NodeId> {
    NeighborsOver(EndsOf(d), d.edges.keys, n, dir)
  }

  // The indexed queries.

  function EdgeIdsFor(g: GraphIndex, n: NodeId, dir: Direction): seq<EdgeId>
    reads g
  {
    match dir
    case Incoming => Bucket(g.incoming, n)
    case Outgoing => Bucket(g.outgoing, n)
    case Either => Bucket(g.incident, n)
  }

  function EdgeIdsBetween(g: GraphIndex, source: NodeId, target: NodeId): seq<EdgeId>
    reads g
  {
    Filter(Bucket(g.outgoing, source), Linking(g.endpoints, source, target))
  }

  /** The far end of a listed edge; which end is far is known from the list it is in. */
  function FarEnd(x: Ends, n: NodeId, dir: Direction): NodeId {
    match dir
    case Incoming => x.source
    case Outgoing => x.target
    case Either => if x.source == n then x.target else x.source
  }

  function FarEnds(ends: map<EdgeId, Ends>, ids: seq<EdgeId>, n: NodeId, dir: Direction,
                   nodes: map<NodeId, Node>): seq<NodeId>
  {
    if ids == [] then []
    else (if ids[0] in ends && FarEnd(ends[ids[0]], n, dir) in nodes then [FarEnd(ends[ids[0]], n, dir)] else []) +
         FarEnds(ends, ids[1..], n, dir, nodes)
  }

  /** The neighbours that the document still has. */
  function NeighborIds(g: GraphIndex, d: Document, n: NodeId, dir: Direction): seq<NodeId>
    reads g
  {
    FarEnds(g.endpoints, EdgeIdsFor(g, n, dir), n, dir, d.nodes.entries)
  }

  /** On an up-to-date index in document order, every query answers as the scan does, self loops included. */
  lemma QueriesMatchScan(g: GraphIndex, d: Document, n: NodeId, m: NodeId, dir: Direction)
    requires g.Valid() && g.endpoints == EndsOf(d) && g.Ordered(d)
    requires d.Filed() && d.Closed()
    ensures EdgeIdsFor(g, n, dir) == Scan(d, n, dir)
    ensures EdgeIdsBetween(g, n, m) == ScanBetween(d, n, m)
    ensures NeighborIds(g, d, n, dir) == ScanNeighbors(d, n, dir)
  {
    hide Filter, FarEnds, NeighborsOver, Lists;
    BetweenIsFilteredScan(EndsOf(d), d.edges.keys, n, m);
    assert Bucket(g.outgoing, n) == Scan(d, n, Outgoing);
    NeighborsOfScan(EndsOf(d), d.edges.keys, n, dir, d.nodes.entries);
  }

  lemma {:induction false} BetweenIsFilteredScan(ends: map<EdgeId, Ends>, keys: seq<EdgeId>, n: NodeId, m: NodeId)
    ensures Filter(Filter(keys, At(ends, n, Outgoing)), Linking(ends, n, m)) == Filter(keys, Linking(ends, n, m))
  {
    if keys != [] {
      var e := keys[0];
      BetweenIsFilteredScan(ends, keys[1..], n, m);
      FilterConcat(if Incident(ends, n, Outgoing, e) then [e]
        else [], Filter(keys[1..], At(ends, n, Outgoing)), Linking(ends, n, m));
    }
  }

  lemma {:induction false} NeighborsOfScan(ends: map<EdgeId, Ends>, keys: seq<EdgeId>, n: NodeId, dir: Direction,
                                           nodes: map<NodeId, Node>)
    requires forall e :: e in ends ==> ends[e].source in nodes && ends[e].target in nodes
    ensures FarEnds(ends, Filter(keys, At(ends, n, dir)), n, dir, nodes) == NeighborsOver(ends, keys, n, dir)
  {
    if keys != [] {
      NeighborsOfScan(ends, keys[1..], n, dir, nodes);
      if Incident(ends, n, dir, keys[0]) {
        assert Filter(keys, At(ends, n, dir))[1..] == Filter(keys[1..], At(ends, n, dir));
      } else {
        assert Filter(keys, At(ends, n, dir)) == Filter(keys[1..], At(ends, n, dir));
      }
    }
  }

  // What the queries answer, in terms of the document's edges alone.

  /** In document order, without repetition. */
  ghost predicate ListedInOrder(ids: seq<EdgeId>, d: Document) {
    Distinct(ids) && forall i, j :: 0 <= i < j < |ids| ==> Before(d.edges.keys, ids[i], ids[j])
  }

  lemma FilterListed(d: Document, p: EdgeId -> bool)
    requires d.Filed()
    ensures ListedInOrder(Filter(d.edges.keys, p), d)
    ensures forall e :: e in Filter(d.edges.keys, p) <==> e in d.edges.entries && p(e)
  {
    FilterMembers(d.edges.keys, p);
    FilterDistinct(d.edges.keys, p);
    var ids := Filter(d.edges.keys, p);
    forall i, j | 0 <= i < j < |ids| ensures Before(d.edges.keys, ids[i], ids[j]) {
      assert ids[i] in ids && ids[j] in ids && Before(ids, ids[i], ids[j]);
      FilterBefore(d.edges.keys, p, ids[i], ids[j]);
    }
  }

  /**
   * The edges listed at a node are the incoming, outgoing or incident edges of the document, each once;
   * a self loop is all three.  On an ordered index they stand in document order.
   */
  lemma EdgeIdsAreEdgesAt(g: GraphIndex, d: Document, n: NodeId)
    requires g.Valid() && g.endpoints == EndsOf(d) && d.Filed()
    ensures forall e :: e in EdgeIdsFor(g, n, Incoming) <==>
                        e in d.edges.entries && d.edges.entries[e].target.node == n
    ensures forall e :: e in EdgeIdsFor(g, n, Outgoing) <==>
                        e in d.edges.entries && d.edges.entries[e].source.node == n
    ensures forall e :: e in EdgeIdsFor(g, n, Either) <==>
                        e in d.edges.entries &&
                        (d.edges.entries[e].source.node == n || d.edges.entries[e].target.node == n)
    ensures forall dir :: Distinct(EdgeIdsFor(g, n, dir))
    ensures g.Ordered(d) ==> forall dir :: ListedInOrder(EdgeIdsFor(g, n, dir), d)
  {
    hide Lists, InOrder, ListedInOrder, Distinct;
    forall e, dir ensures e in EdgeIdsFor(g, n, dir) <==> Incident(EndsOf(d), n, dir, e) {
      EdgeIdsListed(g, d, n, dir, e);
    }
    forall dir ensures Distinct(EdgeIdsFor(g, n, dir)) && (g.Ordered(d) ==> ListedInOrder(EdgeIdsFor(g, n, dir), d)) {
      EdgeIdsOrdered(g, d, n, dir);
    }
    hide EdgeIdsFor;
  }

  lemma EdgeIdsListed(g: GraphIndex, d: Document, n: NodeId, dir: Direction, e: EdgeId)
    requires g.Valid()
    ensures e in EdgeIdsFor(g, n, dir) <==> Incident(g.endpoints, n, dir, e)
  {
    match dir
    case Incoming => assert e in Bucket(g.incoming, n) <==> Incident(g.endpoints, n, Incoming, e);
    case Outgoing => assert e in Bucket(g.outgoing, n) <==> Incident(g.endpoints, n, Outgoing, e);
    case Either => assert e in Bucket(g.incident, n) <==> Incident(g.endpoints, n, Either, e);
  }

  lemma EdgeIdsOrdered(g: GraphIndex, d: Document, n: NodeId, dir: Direction)
    requires g.Valid() && d.Filed()
    ensures Distinct(EdgeIdsFor(g, n, dir))
    ensures g.Ordered(d) ==> ListedInOrder(EdgeIdsFor(g, n, dir), d)
  {
    if g.Ordered(d) {
      FilterListed(d, At(EndsOf(d), n, dir));
      assert EdgeIdsFor(g, n, dir) == Scan(d, n, dir);
    }
  }

  /** Asking from one node to another gives exactly the edges that start at the one and end at the other. */
  lemma EdgeIdsBetweenAreEdges(g: GraphIndex, d: Document, n: NodeId, m: NodeId)
    requires g.Valid() && g.endpoints == EndsOf(d) && d.Filed()
    ensures forall e :: e in EdgeIdsBetween(g, n, m) <==>
                        && e in d.edges.entries
                        && d.edges.entries[e].source.node == n
                        && d.edges.entries[e].target.node == m
    ensures Distinct(EdgeIdsBetween(g, n, m))
    ensures g.Ordered(d) ==> ListedInOrder(EdgeIdsBetween(g, n, m), d)
  {
    EdgeIdsAreEdgesAt(g, d, n);
    var all, chosen := EdgeIdsFor(g, n, Outgoing), Linking(g.endpoints, n, m);
    FilterMembers(all, chosen);
    FilterDistinct(all, chosen);
    if g.Ordered(d) {
      assert all == Scan(d, n, Outgoing);
      BetweenIsFilteredScan(EndsOf(d), d.edges.keys, n, m);
      FilterListed(d, chosen);
    }
  }

  /** One neighbour for each listed edge, in the same order: its other end, or the node itself for a self loop. */
  lemma NeighborsAreOtherEnds(g: GraphIndex, d: Document, n: NodeId, dir: Direction)
    requires g.Valid() && g.endpoints == EndsOf(d) && d.Filed() && d.Closed()
    ensures |NeighborIds(g, d, n, dir)| == |EdgeIdsFor(g, n, dir)|
    ensures forall i :: 0 <= i < |NeighborIds(g, d, n, dir)| ==>
              var e := EdgeIdsFor(g, n, dir)[i];
              && e in d.edges.entries
              && var edge := d.edges.entries[e];
                 NeighborIds(g, d, n, dir)[i] ==
                 (if dir == Incoming || edge.source.node != n then edge.source.node else edge.target.node)
  {
    hide Lists, Distinct, ListedInOrder;
    EdgeIdsAreEdgesAt(g, d, n);
    var ids := EdgeIdsFor(g, n, dir);
    forall e | e in ids ensures e in g.endpoints && FarEnd(g.endpoints[e], n, dir) in d.nodes.entries {
    }
    FarEndsOfAll(g.endpoints, ids, n, dir, d.nodes.entries);
  }

  lemma {:induction false} FarEndsOfAll(ends: map<EdgeId, Ends>, ids: seq<EdgeId>, n: NodeId, dir: Direction,
                                        nodes: map<NodeId, Node>)
    requires forall e :: e in ids ==> e in ends && FarEnd(ends[e], n, dir) in nodes
    ensures |FarEnds(ends, ids, n, dir, nodes)| == |ids|
    ensures forall i :: 0 <= i < |ids| ==> FarEnds(ends, ids, n, dir, nodes)[i] == FarEnd(ends[ids[i]], n, dir)
  {
    if ids != [] {
      FarEndsOfAll(ends, ids[1..], n, dir, nodes);
    }
  }

  // The endpoints determine the index.

  /** Up to the order of the lists, the buckets are determined by the endpoints: no empty bucket is left over. */
  lemma EndpointsDetermineBuckets(b: Buckets, c: Buckets, ends: map<EdgeId, Ends>, dir: Direction)
    requires Lists(b, ends, dir) && Lists(c, ends, dir)
    ensures b.Keys == c.Keys
    ensures forall n :: n in b ==> Elements(b[n]) == Elements(c[n])
  {
    forall n ensures n in b <==> n in c {
      if n in b {
        assert b[n][0] in Bucket(b, n) && b[n][0] in Bucket(c, n);
      }
      if n in c {
        assert c[n][0] in Bucket(c, n) && c[n][0] in Bucket(b, n);
      }
    }
    forall n | n in b ensures Elements(b[n]) == Elements(c[n]) {
      forall e ensures e in b[n] <==> e in c[n] {
        assert e in Bucket(b, n) <==> Incident(ends, n, dir, e);
        assert e in Bucket(c, n) <==> Incident(ends, n, dir, e);
      }
    }
  }

  lemma OrderDeterminesBuckets(b: Buckets, c: Buckets, d: Document, dir: Direction)
    requires Lists(b, EndsOf(d), dir) && Lists(c, EndsOf(d), dir)
    requires InOrder(b, d, dir) && InOrder(c, d, dir)
    ensures b == c
  {
    EndpointsDetermineBuckets(b, c, EndsOf(d), dir);
    forall n | n in b ensures b[n] == c[n] {
      assert Bucket(b, n) == Bucket(c, n);
    }
  }

  /** A patched index agrees with a rebuilt one; when both are ordered, list by list. */
  lemma PatchedEqualsRebuilt(g: GraphIndex, fresh_: GraphIndex, d: Document)
    requires g.Valid() && fresh_.Valid() && g.endpoints == fresh_.endpoints == EndsOf(d)
    ensures g.outgoing.Keys == fresh_.outgoing.Keys && g.incoming.Keys == fresh_.incoming.Keys &&
            g.incident.Keys == fresh_.incident.Keys
    ensures forall n, dir :: Elements(EdgeIdsFor(g, n, dir)) == Elements(EdgeIdsFor(fresh_, n, dir))
    ensures g.Ordered(d) && fresh_.Ordered(d) ==>
              g.outgoing == fresh_.outgoing && g.incoming == fresh_.incoming && g.incident == fresh_.incident
  {
    EndpointsDetermineBuckets(g.outgoing, fresh_.outgoing, EndsOf(d), Outgoing);
    EndpointsDetermineBuckets(g.incoming, fresh_.incoming, EndsOf(d), Incoming);
    EndpointsDetermineBuckets(g.incident, fresh_.incident, EndsOf(d), Either);
    if g.Ordered(d) && fresh_.Ordered(d) {
      OrderDeterminesBuckets(g.outgoing, fresh_.outgoing, d, Outgoing);
      OrderDeterminesBuckets(g.incoming, fresh_.incoming, d, Incoming);
      OrderDeterminesBuckets(g.incident, fresh_.incident, d, Either);
    }
  }

  // When the lists are left alone: are they still in document order?

  ghost predicate ShareNode(ends: map<EdgeId, Ends>, e: EdgeId, f: EdgeId) {
    exists n :: Incident(ends, n, Either, e) && Incident(ends, n, Either, f)
  }

  /** Edges that meet at a node stand in the same relative order in both documents. */
  ghost predicate MeetingOrderKept(previous: Document, d: Document) {
    forall e, f :: ShareNode(EndsOf(d), e, f) ==> (Before(previous.edges.keys, e, f) <==> Before(d.edges.keys, e, f))
  }

  /**
   * A diff that moves no edge leaves the lists alone.  They are then in the order of the new
   * document exactly when edges that meet at a node have kept their relative order.
   */
  lemma StaleOrderIff(g: GraphIndex, previous: Document, d: Document)
    requires previous.Filed() && d.Filed() && EndsOf(previous) == EndsOf(d)
    requires g.Ordered(previous)
    ensures g.Ordered(d) <==> MeetingOrderKept(previous, d)
  {
    if MeetingOrderKept(previous, d) {
      forall n, dir ensures Scan(previous, n, dir) == Scan(d, n, dir) {
        SameScan(previous, d, n, dir);
      }
    }
    if g.Ordered(d) {
      forall e, f | ShareNode(EndsOf(d), e, f)
        ensures Before(previous.edges.keys, e, f) <==> Before(d.edges.keys, e, f)
      {
        var n :| Incident(EndsOf(d), n, Either, e) && Incident(EndsOf(d), n, Either, f);
        assert Scan(previous, n, Either) == Bucket(g.incident, n) == Scan(d, n, Either);
        FilterBefore(previous.edges.keys, At(EndsOf(d), n, Either), e, f);
        FilterBefore(d.edges.keys, At(EndsOf(d), n, Either), e, f);
      }
    }
  }

  lemma SameScan(previous: Document, d: Document, n: NodeId, dir: Direction)
    requires previous.Filed() && d.Filed() && EndsOf(previous) == EndsOf(d) && MeetingOrderKept(previous, d)
    ensures Scan(previous, n, dir) == Scan(d, n, dir)
  {
    ScanMembers(previous, n, dir);
    ScanMembers(d, n, dir);
    forall e, f | e in Scan(previous, n, dir) && f in Scan(previous, n, dir)
      ensures Before(Scan(previous, n, dir), e, f) <==> Before(Scan(d, n, dir), e, f)
    {
      assert Incident(EndsOf(d), n, Either, e) && Incident(EndsOf(d), n, Either, f);
      FilterBefore(previous.edges.keys, At(EndsOf(d), n, dir), e, f);
      FilterBefore(d.edges.keys, At(EndsOf(d), n, dir), e, f);
    }
    SameOrder(Scan(previous, n, dir), Scan(d, n, dir));
  }

  /**
   * The stale order does occur: removing an edge and inserting it again in one transaction
   * sends it to the end of the document, and no diff reports it.
   */
  lemma ReinsertedEdgeIsStale(d: Document, e: EdgeId, f: EdgeId)
    requires RecordsSound(d) && ShareNode(EndsOf(d), e, f) && Before(d.edges.keys, e, f)
    ensures var again := ApplyAll(d, [RemoveEdge(e), InsertEdge(d.edges.entries[e])]);
            && again.Ok?
            && again.value.Filed()
            && NO_CHANGES.IsEmpty() && Faithful(NO_CHANGES, again.value, d)
            && EndsOf(again.value) == EndsOf(d)
            && !MeetingOrderKept(d, again.value)
  {
    var again := Reinserted(d, e);
    assert EndsOf(again) == EndsOf(d);
    assert !Before(again.edges.keys, e, f);
    UnreportedWhenEqual(d, again);
  }

  lemma UnreportedWhenEqual(d: Document, again: Document)
    requires d.SameRecords(again)
    ensures Faithful(NO_CHANGES, again, d)
  {
  }

  /** The edge is taken out and appended. */
  lemma Reinserted(d: Document, e: EdgeId) returns (again: Document)
    requires d.edges.Valid() && e in d.edges.entries
    requires d.edges.entries[e].id == e && ValidateEdge(d.nodes.entries, d.edges.entries[e]).Ok?
    ensures ApplyAll(d, [RemoveEdge(e), InsertEdge(d.edges.entries[e])]) == Ok(again)
    ensures again == d.(edges := again.edges) && again.edges.entries == d.edges.entries && again.edges.Valid()
    ensures forall f :: !Before(again.edges.keys, e, f)
  {
    var edge := d.edges.entries[e];
    var out := d.edges.ShiftRemove(e);
    var without := d.(edges := out);
    assert Apply(d, RemoveEdge(e)) == Ok(without);
    again := without.(edges := out.Insert(e, edge));
    assert Apply(without, InsertEdge(edge)) == Ok(again);
    ApplyTwo(d, RemoveEdge(e), InsertEdge(edge));
    assert again.edges.keys == out.keys + [e];
    assert e !in out.keys;
  }

  lemma ApplyTwo(d: Document, a: Command, b: Command)
    requires Apply(d, a).Ok?
    ensures ApplyAll(d, [a, b]) == Apply(Apply(d, a).value, b)
  {
    var next := Apply(d, a).value;
    assert [a, b][1..] == [b] && [b][1..] == [];
    assert ApplyAll(d, [a, b]) == ApplyAll(next, [b]);
    if Apply(next, b).Ok? {
      assert ApplyAll(Apply(next, b).value, []) == Apply(next, b);
    }
  }
}
