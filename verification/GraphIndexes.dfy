/** The adjacency index over a document's edges, patched from diffs instead of rebuilt. */
module GraphIndexes {
  import opened Prelude
  import opened IndexMaps
  import opened Records
  import opened DocumentDiffs
  import opened EdgeOrders

  datatype Direction = Incoming | Outgoing | Either

  datatype Ends = Ends(source: NodeId, target: NodeId)

  function EndsOfEdge(e: Edge): Ends {
    Ends(e.source.node, e.target.node)
  }

  /** What the index should know about a document. */
  function EndsOf(d: Document): map<EdgeId, Ends> {
    map e | e in d.edges.entries :: EndsOfEdge(d.edges.entries[e])
  }

  predicate Matches(x: Ends, n: NodeId, dir: Direction) {
    match dir
    case Incoming => x.target == n
    case Outgoing => x.source == n
    case Either => x.source == n || x.target == n
  }

  predicate Incident(ends: map<EdgeId, Ends>, n: NodeId, dir: Direction, e: EdgeId) {
    e in ends && Matches(ends[e], n, dir)
  }

  function At(ends: map<EdgeId, Ends>, n: NodeId, dir: Direction): EdgeId -> bool {
    (e: EdgeId) => Incident(ends, n, dir, e)
  }

  /** The full scan: the document's edges at a node, in document order. */
  function Scan(d: Document, n: NodeId, dir: Direction): seq<EdgeId> {
    Filter(d.edges.keys, At(EndsOf(d), n, dir))
  }

  // Buckets: a map from nodes to non-empty duplicate-free lists.

  type Buckets = map<NodeId, seq<EdgeId>>

  function Bucket(b: Buckets, n: NodeId): seq<EdgeId> {
    if n in b then b[n] else []
  }

  ghost predicate Tidy(b: Buckets) {
    forall n :: n in b ==> b[n] != [] && Distinct(b[n])
  }

  /** `b` lists at each node exactly the edges of `ends` that match there. */
  ghost predicate Lists(b: Buckets, ends: map<EdgeId, Ends>, dir: Direction) {
    Tidy(b) && forall n, e :: e in Bucket(b, n) <==> Incident(ends, n, dir, e)
  }

  /** The lists are in document order. */
  ghost predicate InOrder(b: Buckets, d: Document, dir: Direction) {
    forall n :: Bucket(b, n) == Scan(d, n, dir)
  }

  function AddTo(b: Buckets, n: NodeId, e: EdgeId): (b': Buckets)
    ensures Tidy(b) ==> Tidy(b')
    ensures forall m :: Bucket(b', m) == if m == n && e !in Bucket(b, n) then Bucket(b, m) + [e] else Bucket(b, m)
  {
    b[n := if e in Bucket(b, n) then Bucket(b, n) else Bucket(b, n) + [e]]
  }

  /** Drops `e` at `n`, and drops the bucket when that empties it. */
  function RemoveFrom(b: Buckets, n: NodeId, e: EdgeId): (b': Buckets)
    ensures Tidy(b) ==> Tidy(b')
    ensures forall m, f :: f in Bucket(b', m) <==> f in Bucket(b, m) && !(m == n && f == e)
  {
    if n !in b then b
    else
      IndexMap<EdgeId, ()>.SelectedKeys(b[n], f => f != e);
      var rest := Filter(b[n], f => f != e);
      if rest == [] then b - {n} else b[n := rest]
  }

  // What inserting or removing one edge does to the buckets of a direction.

  function AddEdge(b: Buckets, dir: Direction, x: Ends, e: EdgeId): Buckets {
    match dir
    case Outgoing => AddTo(b, x.source, e)
    case Incoming => AddTo(b, x.target, e)
    case Either => if x.source == x.target then AddTo(b, x.source, e) else AddTo(AddTo(b, x.source, e), x.target, e)
  }

  function DropEdge(b: Buckets, dir: Direction, x: Ends, e: EdgeId): Buckets {
    match dir
    case Outgoing => RemoveFrom(b, x.source, e)
    case Incoming => RemoveFrom(b, x.target, e)
    case Either => if x.source == x.target then RemoveFrom(b, x.source, e)
      else RemoveFrom(RemoveFrom(b, x.source, e), x.target, e)
  }

  function Tail(x: Ends, n: NodeId, dir: Direction, e: EdgeId): seq<EdgeId> {
    if Matches(x, n, dir) then [e] else []
  }

  ghost predicate Extends(b: Buckets, b': Buckets, dir: Direction, x: Ends, e: EdgeId) {
    forall n :: Bucket(b', n) == Bucket(b, n) + Tail(x, n, dir, e)
  }

  lemma AddEdgeExtends(b: Buckets, ends: map<EdgeId, Ends>, dir: Direction, x: Ends, e: EdgeId)
    requires Lists(b, ends, dir) && e !in ends
    ensures Tidy(AddEdge(b, dir, x, e)) && Extends(b, AddEdge(b, dir, x, e), dir, x, e)
  {
    forall n ensures e !in Bucket(b, n) {
      assert !Incident(ends, n, dir, e);
    }
  }

  lemma ExtendsLists(b: Buckets, b': Buckets, ends: map<EdgeId, Ends>, dir: Direction, x: Ends, e: EdgeId)
    requires Lists(b, ends, dir) && e !in ends && Tidy(b') && Extends(b, b', dir, x, e)
    ensures Lists(b', ends[e := x], dir)
  {
    forall n, f ensures f in Bucket(b', n) <==> Incident(ends[e := x], n, dir, f) {
      assert Bucket(b', n) == Bucket(b, n) + Tail(x, n, dir, e);
      assert f in Bucket(b, n) <==> Incident(ends, n, dir, f);
    }
  }

  lemma AddEdgeLists(b: Buckets, ends: map<EdgeId, Ends>, dir: Direction, x: Ends, e: EdgeId)
    requires Lists(b, ends, dir) && e !in ends
    ensures Lists(AddEdge(b, dir, x, e), ends[e := x], dir)
    ensures Extends(b, AddEdge(b, dir, x, e), dir, x, e)
  {
    AddEdgeExtends(b, ends, dir, x, e);
    ExtendsLists(b, AddEdge(b, dir, x, e), ends, dir, x, e);
  }

  lemma DropEdgeLists(b: Buckets, ends: map<EdgeId, Ends>, dir: Direction, e: EdgeId)
    requires Lists(b, ends, dir) && e in ends
    ensures Lists(DropEdge(b, dir, ends[e], e), ends - {e}, dir)
  {
  }

  /** The lists hold the edges of a prefix of the document, in order. */
  ghost predicate ListsPrefix(b: Buckets, d: Document, keys: seq<EdgeId>, dir: Direction) {
    forall n :: Bucket(b, n) == Filter(keys, At(EndsOf(d), n, dir))
  }

  lemma PrefixStep(b: Buckets, b': Buckets, d: Document, keys: seq<EdgeId>, e: EdgeId, dir: Direction)
    requires ListsPrefix(b, d, keys, dir) && e in EndsOf(d) && Extends(b, b', dir, EndsOf(d)[e], e)
    ensures ListsPrefix(b', d, keys + [e], dir)
  {
    forall n ensures Bucket(b', n) == Filter(keys + [e], At(EndsOf(d), n, dir)) {
      FilterConcat(keys, [e], At(EndsOf(d), n, dir));
    }
  }

  lemma PrefixIsAll(b: Buckets, d: Document, dir: Direction)
    requires ListsPrefix(b, d, d.edges.keys, dir)
    ensures InOrder(b, d, dir)
  {
  }

  class GraphIndex {
    var outgoing: Buckets
    var incoming: Buckets
    var incident: Buckets
    var endpoints: map<EdgeId, Ends>
    var ordinals: map<EdgeId, nat>

    ghost predicate Valid()
      reads this
    {
      && Lists(outgoing, endpoints, Outgoing)
      && Lists(incoming, endpoints, Incoming)
      && Lists(incident, endpoints, Either)
    }

    ghost predicate Ordered(d: Document)
      reads this
    {
      InOrder(outgoing, d, Outgoing) && InOrder(incoming, d, Incoming) && InOrder(incident, d, Either)
    }

    /** Inserting the edges one by one lists them in document order. */
    constructor Rebuild(d: Document)
      requires d.Filed()
      ensures Valid() && endpoints == EndsOf(d) && Ordered(d)
    {
      outgoing, incoming, incident, endpoints, ordinals := map[], map[], map[], map[], map[];
      new;
      EmptyLists(d);
      InsertAll(d);
      RefreshOrdinals(d);
    }

    lemma EmptyLists(d: Document)
      requires outgoing == incoming == incident == map[] && endpoints == map[]
      ensures Valid() && ListsPrefix(outgoing, d, [], Outgoing) && ListsPrefix(incoming, d, [], Incoming) &&
              ListsPrefix(incident, d, [], Either)
    {
    }

    /** The loop that inserts the edges of the document one by one. */
    method InsertAll(d: Document)
      requires d.Filed() && Valid() && endpoints == map[]
      requires ListsPrefix(outgoing, d, [], Outgoing) && ListsPrefix(incoming, d, [], Incoming) &&
               ListsPrefix(incident, d, [], Either)
      modifies this
      ensures Valid() && endpoints == EndsOf(d) && Ordered(d)
    {
      hide Lists, Extends, ListsPrefix, InOrder;
      var keys := d.edges.keys;
      assert keys[..0] == [] && keys[..|keys|] == keys;
      for i := 0 to |keys|
        invariant Valid()
        invariant forall e :: e in endpoints <==> e in keys[..i]
        invariant forall e :: e in endpoints ==> endpoints[e] == EndsOf(d)[e]
        invariant ListsPrefix(outgoing, d, keys[..i], Outgoing)
        invariant ListsPrefix(incoming, d, keys[..i], Incoming)
        invariant ListsPrefix(incident, d, keys[..i], Either)
      {
        ghost var before := (outgoing, incoming, incident);
        assert keys[..i + 1] == keys[..i] + [keys[i]];
        InsertEdge(d.edges.entries[keys[i]]);
        PrefixStep(before.0, outgoing, d, keys[..i], keys[i], Outgoing);
        PrefixStep(before.1, incoming, d, keys[..i], keys[i], Incoming);
        PrefixStep(before.2, incident, d, keys[..i], keys[i], Either);
      }
      PrefixIsAll(outgoing, d, Outgoing);
      PrefixIsAll(incoming, d, Incoming);
      PrefixIsAll(incident, d, Either);
    }

    method InsertEdge(e: Edge)
      requires Valid()
      modifies this
      ensures Valid() && endpoints == old(endpoints)[e.id := EndsOfEdge(e)]
      ensures e.id !in old(endpoints) ==>
                && Extends(old(outgoing), outgoing, Outgoing, EndsOfEdge(e), e.id)
                && Extends(old(incoming), incoming, Incoming, EndsOfEdge(e), e.id)
                && Extends(old(incident), incident, Either, EndsOfEdge(e), e.id)
    {
      hide Lists, Extends, AddTo, Bucket, Tidy;
      if e.id in endpoints {
        var _ := RemoveEdgeId(e.id);
      }
      var x := EndsOfEdge(e);
      AddEdgeLists(outgoing, endpoints, Outgoing, x, e.id);
      AddEdgeLists(incoming, endpoints, Incoming, x, e.id);
      AddEdgeLists(incident, endpoints, Either, x, e.id);
      outgoing := AddTo(outgoing, x.source, e.id);
      incoming := AddTo(incoming, x.target, e.id);
      incident := AddTo(incident, x.source, e.id);
      if x.source != x.target {
        incident := AddTo(incident, x.target, e.id);
      }
      endpoints := endpoints[e.id := x];
    }

    method RemoveEdgeId(id: EdgeId) returns (removed: bool)
      requires Valid()
      modifies this
      ensures Valid() && endpoints == old(endpoints) - {id}
      ensures removed <==> id in old(endpoints)
      ensures !removed ==> unchanged(this)
    {
      if id !in endpoints {
        return false;
      }
      hide Lists, RemoveFrom;
      var x := endpoints[id];
      DropEdgeLists(outgoing, endpoints, Outgoing, id);
      DropEdgeLists(incoming, endpoints, Incoming, id);
      DropEdgeLists(incident, endpoints, Either, id);
      endpoints := endpoints - {id};
      ordinals := ordinals - {id};
      outgoing := RemoveFrom(outgoing, x.source, id);
      incoming := RemoveFrom(incoming, x.target, id);
      incident := RemoveFrom(incident, x.source, id);
      if x.source != x.target {
        incident := RemoveFrom(incident, x.target, id);
      }
      return true;
    }

    method RefreshOrdinals(d: Document)
      requires d.Filed()
      modifies this`ordinals
      ensures Numbers(ordinals, d.edges.keys)
    {
      var keys := d.edges.keys;
      ordinals := map[];
      for i := 0 to |keys|
        invariant Numbers(ordinals, keys[..i])
      {
        ordinals := ordinals[keys[i] := i];
      }
      assert keys[..|keys|] == keys;
    }

    method SortAdjacency(ghost d: Document)
      requires Valid() && endpoints == EndsOf(d) && d.Filed() && Numbers(ordinals, d.edges.keys)
      modifies this`outgoing, this`incoming, this`incident
      ensures Valid() && Ordered(d)
    {
      hide Lists, InOrder, SortBuckets, Numbers, EndsOf;
      outgoing := SortBuckets(outgoing, ordinals);
      incoming := SortBuckets(incoming, ordinals);
      incident := SortBuckets(incident, ordinals);
      SortedBucketsInOrder(old(outgoing), d, ordinals, Outgoing);
      SortedBucketsInOrder(old(incoming), d, ordinals, Incoming);
      SortedBucketsInOrder(old(incident), d, ordinals, Either);
    }

    /** Removes the edges that are gone and every edge at a node that is gone. */
    method RemoveGone(removed: set<RecordId>) returns (changed: bool)
      requires Valid()
      modifies this
      ensures Valid()
      ensures WithoutLost(endpoints, old(endpoints), removed)
      ensures changed <==> endpoints.Keys != old(endpoints).Keys
      ensures !changed ==> unchanged(this)
    {
      changed := false;
      var todo := removed;
      while todo != {}
        invariant todo <= removed
        invariant Valid()
        invariant WithoutLost(endpoints, old(endpoints), removed - todo)
        invariant changed <==> endpoints.Keys != old(endpoints).Keys
        invariant !changed ==> unchanged(this)
      {
        var id :| id in todo;
        ghost var before := endpoints;
        var hit := RemoveForRecord(id);
        WithoutMoreLost(old(endpoints), before, endpoints, removed - todo, id);
        changed := changed || hit;
        assert removed - (todo - {id}) == (removed - todo) + {id};
        todo := todo - {id};
      }
      assert removed - todo == removed;
    }

    method RemoveForRecord(id: RecordId) returns (changed: bool)
      requires Valid()
      modifies this
      ensures Valid()
      ensures WithoutLost(endpoints, old(endpoints), {id})
      ensures changed <==> endpoints.Keys != old(endpoints).Keys
      ensures !changed ==> unchanged(this)
    {
      match id
      case EdgeRecord(e) =>
        changed := RemoveEdgeId(e);
        assert changed ==> e in old(endpoints) && e !in endpoints;
      case NodeRecord(n) =>
        changed := false;
        var ids := Bucket(incident, n);
        assert Distinct(ids) && forall e :: e in ids <==> Incident(endpoints, n, Either, e);
        for i := 0 to |ids|
          invariant Valid()
          invariant forall e :: e in endpoints <==> e in old(endpoints) && e !in ids[..i]
          invariant forall e :: e in endpoints ==> endpoints[e] == old(endpoints)[e]
          invariant changed <==> i > 0
          invariant !changed ==> unchanged(this)
        {
          assert ids[..i + 1] == ids[..i] + [ids[i]];
          assert ids[i] in ids && ids[i] !in ids[..i];
          var hit := RemoveEdgeId(ids[i]);
          changed := changed || hit;
        }
        assert ids[..|ids|] == ids;
        if changed {
          assert ids[0] in ids && Incident(old(endpoints), n, Either, ids[0]);
          assert ids[0] in old(endpoints).Keys && ids[0] !in endpoints.Keys;
        }
      case ShapeRecord(_) =>
        changed := false;
    }

    /** Removes the updated edges whose ends have moved. */
    method RemoveMoved(updated: set<RecordId>, d: Document) returns (changed: bool)
      requires Valid()
      modifies this
      ensures Valid()
      ensures WithoutMoved(endpoints, old(endpoints), updated, d)
      ensures changed <==> endpoints.Keys != old(endpoints).Keys
      ensures !changed ==> unchanged(this)
    {
      changed := false;
      var todo := updated;
      while todo != {}
        invariant todo <= updated
        invariant Valid()
        invariant WithoutMoved(endpoints, old(endpoints), updated - todo, d)
        invariant changed <==> endpoints.Keys != old(endpoints).Keys
        invariant !changed ==> unchanged(this)
      {
        var id :| id in todo;
        if id.EdgeRecord? && id.edge in endpoints && d.edges.Has(id.edge) &&
           EndsOfEdge(d.edges.entries[id.edge]) != endpoints[id.edge] {
          var hit := RemoveEdgeId(id.edge);
          changed := changed || hit;
          assert id.edge in old(endpoints).Keys && id.edge !in endpoints.Keys;
        }
        todo := todo - {id};
      }
    }

    /** Inserts the named edges that the document has and the index lacks. */
    method InsertMissing(named: set<RecordId>, d: Document) returns (changed: bool)
      requires Valid() && d.Filed()
      modifies this
      ensures Valid()
      ensures WithMissing(endpoints, old(endpoints), named, d)
      ensures changed <==> endpoints.Keys != old(endpoints).Keys
      ensures !changed ==> unchanged(this)
    {
      changed := false;
      var todo := named;
      while todo != {}
        invariant todo <= named
        invariant Valid()
        invariant WithMissing(endpoints, old(endpoints), named - todo, d)
        invariant changed <==> endpoints.Keys != old(endpoints).Keys
        invariant !changed ==> unchanged(this)
      {
        var id :| id in todo;
        ghost var before := endpoints;
        if id.EdgeRecord? && d.edges.Has(id.edge) && id.edge !in endpoints {
          InsertEdge(d.edges.entries[id.edge]);
          changed := true;
          assert id.edge in endpoints.Keys && id.edge !in old(endpoints).Keys;
        }
        WithMoreMissing(old(endpoints), before, endpoints, named - todo, id, d);
        assert named - (todo - {id}) == (named - todo) + {id};
        todo := todo - {id};
      }
      assert named - todo == named;
    }

    /**
     * After a faithful diff the index describes the new document.  The lists are put in
     * document order when an edge came, went or moved, and are left alone otherwise.
     */
    method ApplyDiff(d: Document, diff: Diff, ghost previous: Document)
      requires Valid() && endpoints == EndsOf(previous)
      requires d.Filed() && d.Closed() && Faithful(diff, d, previous)
      modifies this
      ensures Valid() && endpoints == EndsOf(d)
      ensures EndsOf(d) != EndsOf(previous) ==> Ordered(d)
      ensures EndsOf(d) == EndsOf(previous) ==> unchanged(this)
    {
      hide Lists, InOrder, Faithful, EndsOf;
      if diff.IsEmpty() {
        UntouchedEnds(d, previous, diff);
        return;
      }
      var changed := Patch(d, diff, previous);
      if changed {
        RefreshOrdinals(d);
        SortAdjacency(d);
      }
    }

    /** The three passes over the diff. */
    method Patch(d: Document, diff: Diff, ghost previous: Document) returns (changed: bool)
      requires Valid() && endpoints == EndsOf(previous)
      requires d.Filed() && d.Closed() && Faithful(diff, d, previous)
      modifies this
      ensures Valid() && endpoints == EndsOf(d)
      ensures changed <==> EndsOf(d) != EndsOf(previous)
      ensures !changed ==> unchanged(this)
    {
      var gone := RemoveGone(diff.removed);
      ghost var kept := endpoints;
      var moved := RemoveMoved(diff.updated, d);
      ghost var still := endpoints;
      var added := InsertMissing(diff.updated + diff.inserted, d);
      PatchedEnds(d, previous, diff, kept, still, endpoints);
      changed := gone || moved || added;
    }
  }

  function SortBuckets(b: Buckets, ordinals: map<EdgeId, nat>): Buckets {
    map n | n in b :: SortByOrdinal(b[n], ordinals)
  }

  /** `e` was removed, or an end of it was. */
  predicate LostTo(removed: set<RecordId>, e: EdgeId, x: Ends) {
    EdgeRecord(e) in removed || NodeRecord(x.source) in removed || NodeRecord(x.target) in removed
  }

  predicate Moved(updated: set<RecordId>, d: Document, e: EdgeId, x: Ends) {
    EdgeRecord(e) in updated && d.edges.Has(e) && EndsOfEdge(d.edges.entries[e]) != x
  }

  ghost predicate WithoutLost(after: map<EdgeId, Ends>, before: map<EdgeId, Ends>, removed: set<RecordId>) {
    && (forall e :: e in after <==> e in before && !LostTo(removed, e, before[e]))
    && (forall e :: e in after ==> after[e] == before[e])
  }

  ghost predicate WithoutMoved(after: map<EdgeId, Ends>, before: map<EdgeId, Ends>, updated: set<RecordId>,
                               d: Document)
  {
    && (forall e :: e in after <==> e in before && !Moved(updated, d, e, before[e]))
    && (forall e :: e in after ==> after[e] == before[e])
  }

  ghost predicate WithMissing(after: map<EdgeId, Ends>, before: map<EdgeId, Ends>, named: set<RecordId>, d: Document) {
    && (forall e :: e in after <==> e in before || (EdgeRecord(e) in named && d.edges.Has(e)))
    && (forall e :: e in after ==> after[e] == if e in before then before[e] else EndsOfEdge(d.edges.entries[e]))
  }

  lemma WithoutMoreLost(start: map<EdgeId, Ends>, before: map<EdgeId, Ends>, after: map<EdgeId, Ends>,
                        removed: set<RecordId>, id: RecordId)
    requires WithoutLost(before, start, removed) && WithoutLost(after, before, {id})
    ensures WithoutLost(after, start, removed + {id})
    ensures after.Keys != start.Keys <==> after.Keys != before.Keys || before.Keys != start.Keys
  {
    assert after.Keys <= before.Keys <= start.Keys;
  }

  lemma WithMoreMissing(start: map<EdgeId, Ends>, before: map<EdgeId, Ends>, after: map<EdgeId, Ends>,
                        named: set<RecordId>, id: RecordId, d: Document)
    requires WithMissing(before, start, named, d)
    requires after == if id.EdgeRecord? && d.edges.Has(id.edge) && id.edge !in before
                      then before[id.edge := EndsOfEdge(d.edges.entries[id.edge])] else before
    ensures WithMissing(after, start, named + {id}, d)
  {
  }

  lemma UntouchedEnds(d: Document, previous: Document, diff: Diff)
    requires Faithful(diff, d, previous) && diff.IsEmpty()
    ensures EndsOf(d) == EndsOf(previous)
  {
    forall e ensures e in EndsOf(d) <==> e in EndsOf(previous)
    {
      assert d.Contains(EdgeRecord(e)) <==> previous.Contains(EdgeRecord(e));
    }
    forall e | e in EndsOf(d) ensures EndsOf(d)[e] == EndsOf(previous)[e] {
      assert !Differs(d, previous, EdgeRecord(e));
    }
  }

  /** The three passes turn the old ends into the new ones, and change something exactly when there is a change. */
  lemma PatchedEnds(d: Document, previous: Document, diff: Diff,
                    kept: map<EdgeId, Ends>, still: map<EdgeId, Ends>, after: map<EdgeId, Ends>)
    requires d.Filed() && d.Closed() && Faithful(diff, d, previous)
    requires WithoutLost(kept, EndsOf(previous), diff.removed)
    requires WithoutMoved(still, kept, diff.updated, d)
    requires WithMissing(after, still, diff.updated + diff.inserted, d)
    ensures after == EndsOf(d)
    ensures (kept.Keys != EndsOf(previous).Keys || still.Keys != kept.Keys || after.Keys != still.Keys) <==>
            EndsOf(d) != EndsOf(previous)
  {
    hide Faithful, WithoutLost, WithoutMoved, WithMissing, EndsOf;
    forall e ensures (e in after <==> e in EndsOf(d)) && (e in EndsOf(d) ==> after[e] == EndsOf(d)[e]) {
      PatchedMember(d, previous, diff, kept, still, after, e);
    }
    assert after == EndsOf(d);
    if EndsOf(d) == EndsOf(previous) {
      NothingLost(d, previous, diff, kept, still);
      SameKeys(EndsOf(previous), kept, still, diff, d);
    } else {
      NothingChanged(EndsOf(previous), kept, still, after, d, diff);
    }
  }

  lemma NothingLost(d: Document, previous: Document, diff: Diff, kept: map<EdgeId, Ends>, still: map<EdgeId, Ends>)
    requires d.Filed() && d.Closed() && Faithful(diff, d, previous)
    requires WithoutLost(kept, EndsOf(previous), diff.removed)
    requires WithoutMoved(still, kept, diff.updated, d)
    requires EndsOf(d) == EndsOf(previous)
    ensures forall e :: e in EndsOf(previous) ==> e in still
  {
    forall e | e in EndsOf(previous) ensures e in still {
      PatchedEdge(d, previous, diff, e);
      NotLost(kept, still, EndsOf(previous), diff, d, e);
    }
  }

  lemma SameKeys(start: map<EdgeId, Ends>, kept: map<EdgeId, Ends>, still: map<EdgeId, Ends>, diff: Diff, d: Document)
    requires WithoutLost(kept, start, diff.removed)
    requires WithoutMoved(still, kept, diff.updated, d)
    requires forall e :: e in start ==> e in still
    ensures still.Keys == kept.Keys == start.Keys
  {
  }

  lemma NotLost(kept: map<EdgeId, Ends>, still: map<EdgeId, Ends>, start: map<EdgeId, Ends>, diff: Diff, d: Document,
                e: EdgeId)
    requires WithoutLost(kept, start, diff.removed)
    requires WithoutMoved(still, kept, diff.updated, d)
    requires e in start && e in d.edges.entries && start[e] == EndsOfEdge(d.edges.entries[e])
    requires !LostTo(diff.removed, e, start[e])
    ensures e in kept && e in still
  {
  }

  lemma NothingChanged(start: map<EdgeId, Ends>, kept: map<EdgeId, Ends>, still: map<EdgeId, Ends>,
                       after: map<EdgeId, Ends>,
                       d: Document, diff: Diff)
    requires WithoutLost(kept, start, diff.removed)
    requires WithoutMoved(still, kept, diff.updated, d)
    requires WithMissing(after, still, diff.updated + diff.inserted, d)
    ensures kept.Keys == start.Keys && still.Keys == kept.Keys && after.Keys == still.Keys ==> after == start
  {
    if kept.Keys == start.Keys && still.Keys == kept.Keys && after.Keys == still.Keys {
      forall e | e in after.Keys ensures e in start && after[e] == start[e] {
        assert e in still.Keys && e in kept.Keys && e in start.Keys;
      }
      assert after.Keys == start.Keys;
    }
  }

  lemma PatchedMember(d: Document, previous: Document, diff: Diff,
                      kept: map<EdgeId, Ends>, still: map<EdgeId, Ends>, after: map<EdgeId, Ends>, e: EdgeId)
    requires d.Filed() && d.Closed() && Faithful(diff, d, previous)
    requires WithoutLost(kept, EndsOf(previous), diff.removed)
    requires WithoutMoved(still, kept, diff.updated, d)
    requires WithMissing(after, still, diff.updated + diff.inserted, d)
    ensures e in after <==> e in EndsOf(d)
    ensures e in EndsOf(d) ==> after[e] == EndsOf(d)[e]
  {
    PatchedEdge(d, previous, diff, e);
    assert e in EndsOf(d) <==> d.edges.Has(e);
    assert e in after <==> e in still || (EdgeRecord(e) in diff.updated + diff.inserted && d.edges.Has(e));
    assert e in still <==> e in kept && !Moved(diff.updated, d, e, kept[e]);
    assert e in kept <==> e in EndsOf(previous) && !LostTo(diff.removed, e, EndsOf(previous)[e]);
  }

  /** An edge of the new document touches no removed node, and is named if it is new or moved. */
  lemma PatchedEdge(d: Document, previous: Document, diff: Diff, e: EdgeId)
    requires d.Filed() && d.Closed() && Faithful(diff, d, previous)
    ensures e in EndsOf(d) ==> !LostTo(diff.removed, e, EndsOf(d)[e])
    ensures e in EndsOf(d) && e !in EndsOf(previous) ==> EdgeRecord(e) in diff.inserted
    ensures e in EndsOf(d) && e in EndsOf(previous) && EndsOf(d)[e] != EndsOf(previous)[e] ==>
            EdgeRecord(e) in diff.updated
    ensures e in EndsOf(previous) && e !in EndsOf(d) ==> EdgeRecord(e) in diff.removed
  {
    assert d.Contains(EdgeRecord(e)) <==> e in EndsOf(d);
    assert previous.Contains(EdgeRecord(e)) <==> e in EndsOf(previous);
    if e in EndsOf(d) {
      var edge := d.edges.entries[e];
      assert d.Contains(NodeRecord(edge.source.node)) && d.Contains(NodeRecord(edge.target.node));
      if e in EndsOf(previous) && EndsOf(d)[e] != EndsOf(previous)[e] {
        assert Differs(d, previous, EdgeRecord(e));
      }
    }
  }

  lemma SortedBucketsInOrder(b: Buckets, d: Document, ordinals: map<EdgeId, nat>, dir: Direction)
    requires d.Filed() && Numbers(ordinals, d.edges.keys) && Lists(b, EndsOf(d), dir)
    ensures Lists(SortBuckets(b, ordinals), EndsOf(d), dir) && InOrder(SortBuckets(b, ordinals), d, dir)
  {
    var b' := SortBuckets(b, ordinals);
    forall n ensures Bucket(b', n) == Scan(d, n, dir) {
      ScanMembers(d, n, dir);
      if n in b {
        assert forall e :: e in b[n] <==> e in Bucket(b, n);
        SortedIsFilter(b[n], ordinals, d.edges.keys, At(EndsOf(d), n, dir));
      } else {
        EmptyScan(d, n, dir);
      }
    }
    forall n ensures n in b' ==> b'[n] != [] && Distinct(b'[n]) {
      ScanMembers(d, n, dir);
      assert Bucket(b', n) == Scan(d, n, dir);
      if n in b {
        assert b[n][0] in Bucket(b, n);
      }
    }
    forall n, e ensures e in Bucket(b', n) <==> Incident(EndsOf(d), n, dir, e) {
      ScanMembers(d, n, dir);
    }
  }

  lemma ScanMembers(d: Document, n: NodeId, dir: Direction)
    requires d.Filed()
    ensures Distinct(Scan(d, n, dir))
    ensures forall e :: e in Scan(d, n, dir) <==> Incident(EndsOf(d), n, dir, e)
  {
    FilterMembers(d.edges.keys, At(EndsOf(d), n, dir));
    FilterDistinct(d.edges.keys, At(EndsOf(d), n, dir));
  }

  lemma EmptyScan(d: Document, n: NodeId, dir: Direction)
    requires d.Filed() && forall e :: !Incident(EndsOf(d), n, dir, e)
    ensures Scan(d, n, dir) == []
  {
    FilterNone(d.edges.keys, At(EndsOf(d), n, dir));
  }
}
