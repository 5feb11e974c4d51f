/** Pasting adds a copy beside an untouched document, and never fails on what was copied. */
module PasteTheorems {
  import opened Prelude
  import opened KeyedLists
  import opened Records
  import opened RelationSets
  import opened RelationTraversal
  import opened RelationValidation
  import opened Reachability
  import opened Commands
  import opened RelationReplay
  import opened Gestures
  import opened Mutations
  import opened UniqueIds
  import opened Clipboard

  // New names.

  lemma PastedEdgeIsNamed(p: Payload, names: Names, d: Document, e: EdgeId)
    requires NamesFor(names, p, d) && e.name in names.attached
    ensures e.name in names.edges
  {
    var edge := MapSource(EdgeName, Filter(p.edges, Attached(names.nodes)), e.name);
    FilterMember(p.edges, Attached(names.nodes), edge);
    MapElement(EdgeName, p.edges, edge);
  }

  /** A copy has a name that the document does not use. */
  lemma CopyIsFresh(p: Payload, names: Names, d: Document, id: RecordId)
    requires NamesFor(names, p, d) && Pasted(names, id)
    ensures !d.Contains(CopyOf(names, id))
  {
    hide FirstFree;
    match id
    case NodeRecord(n) => NameIsFree(d, names.nodes[n.name]);
    case ShapeRecord(s) => NameIsFree(d, names.shapes[s.name]);
    case EdgeRecord(e) =>
      PastedEdgeIsNamed(p, names, d, e);
      NameIsFree(d, names.edges[e.name]);
  }

  lemma NameIsFree(d: Document, name: string)
    ensures name !in NodeNames(d) ==> !d.nodes.Has(NodeId(name))
    ensures name !in EdgeNames(d) ==> !d.edges.Has(EdgeId(name))
    ensures name !in ShapeNames(d) ==> !d.shapes.Has(ShapeId(name))
  {
    assert d.nodes.Has(NodeId(name)) ==> NodeId(name).name in NodeNames(d);
    assert d.edges.Has(EdgeId(name)) ==> EdgeId(name).name in EdgeNames(d);
    assert d.shapes.Has(ShapeId(name)) ==> ShapeId(name).name in ShapeNames(d);
  }

  /** Different records have different copies. */
  lemma CopiesDiffer(p: Payload, names: Names, d: Document, a: RecordId, b: RecordId)
    requires NamesFor(names, p, d) && Pasted(names, a) && Pasted(names, b) && CopyOf(names, a) == CopyOf(names, b)
    ensures a == b
  {
    hide FirstFree;
    if a.EdgeRecord? && b.EdgeRecord? {
      PastedEdgeIsNamed(p, names, d, a.edge);
      PastedEdgeIsNamed(p, names, d, b.edge);
    }
  }

  // Which records and bindings the commands name.

  ghost predicate Avoids(c: Command, d: Document) {
    match c
    case InsertNode(n) => !d.nodes.Has(n.id)
    case InsertShape(s) => !d.shapes.Has(s.id)
    case InsertEdge(e) => !d.edges.Has(e.id) && !d.nodes.Has(e.source.node) && !d.nodes.Has(e.target.node)
    case SetRecordParent(child, parent) => !d.Contains(child) && !d.Contains(parent)
    case AddRecordToGroup(group, member) => !d.Contains(group) && !d.Contains(member)
    case SetRecordBinding(b) => BindingOf(d.relations, b.id).None? && !d.Contains(b.source) && !d.Contains(b.target)
    case _ => false
  }

  lemma CopiedRecordsAvoid(p: Payload, names: Names, d: Document, offset: Point)
    requires NamesFor(names, p, d)
    ensures forall n :: n in CopiedNodes(p, names, offset) ==> !d.nodes.Has(n.id)
    ensures forall s :: s in CopiedShapes(p, names, offset) ==> !d.shapes.Has(s.id)
  {
    hide FirstFree;
    forall n | n in CopiedNodes(p, names, offset) ensures !d.nodes.Has(n.id) {
      var m := MapSource(NodeCopy(names, offset), p.nodes, n);
      MapElement(NodeName, p.nodes, m);
      CopyIsFresh(p, names, d, NodeRecord(m.id));
    }
    forall s | s in CopiedShapes(p, names, offset) ensures !d.shapes.Has(s.id) {
      var m := MapSource(ShapeCopy(names, offset), p.shapes, s);
      MapElement(ShapeName, p.shapes, m);
      CopyIsFresh(p, names, d, ShapeRecord(m.id));
    }
  }

  lemma CopiedEdgeSource(p: Payload, names: Names, d: Document, e: Edge) returns (m: Edge)
    requires NamesFor(names, p, d) && e in CopiedEdges(p, names)
    ensures m in p.edges && e == EdgeCopy(names)(m) && BothEndsNamed(names.nodes, m) && Pasted(names, EdgeRecord(m.id))
    ensures m in Filter(p.edges, Attached(names.nodes))
  {
    m := MapSource(EdgeCopy(names), Filter(p.edges, Attached(names.nodes)), e);
    FilterMember(p.edges, Attached(names.nodes), m);
    MapElement(EdgeName, Filter(p.edges, Attached(names.nodes)), m);
  }

  lemma CopiedEdgesAvoid(p: Payload, names: Names, d: Document)
    requires NamesFor(names, p, d)
    ensures forall e :: e in CopiedEdges(p, names) ==> Avoids(InsertEdge(e), d)
  {
    hide NamesFor, Filter, Map;
    forall e | e in CopiedEdges(p, names) ensures Avoids(InsertEdge(e), d) {
      var m := CopiedEdgeSource(p, names, d, e);
      CopyIsFresh(p, names, d, EdgeRecord(m.id));
      CopyIsFresh(p, names, d, NodeRecord(m.source.node));
      CopyIsFresh(p, names, d, NodeRecord(m.target.node));
    }
  }

  lemma CopiedRelationsAvoid(p: Payload, names: Names, d: Document)
    requires NamesFor(names, p, d)
    ensures forall c :: c in CopiedRelations(p, names).parents ==> Avoids(SetCommand(c), d)
    ensures forall c :: c in CopiedRelations(p, names).groups ==> Avoids(JoinCommand(c), d)
  {
    hide NamesFor, CopyOf, Filter, Map;
    var kept := Prune(p.relations, IsPasted(names));
    PruneFacts(p.relations, IsPasted(names));
    forall c | c in CopiedRelations(p, names).parents ensures Avoids(SetCommand(c), d) {
      var r := MapSource(ParentCopy(names), kept.parents, c);
      CopyIsFresh(p, names, d, r.child);
      CopyIsFresh(p, names, d, r.parent);
    }
    forall c | c in CopiedRelations(p, names).groups ensures Avoids(JoinCommand(c), d) {
      var r := MapSource(GroupCopy(names), kept.groups, c);
      CopyIsFresh(p, names, d, r.group);
      CopyIsFresh(p, names, d, r.member);
    }
  }

  lemma CopiedBindingsAvoid(p: Payload, names: Names, d: Document)
    requires NamesFor(names, p, d)
    ensures forall c :: c in CopiedRelations(p, names).bindings ==> Avoids(BindCommand(c), d)
  {
    hide NamesFor, CopyOf, Filter, Map;
    var kept := Prune(p.relations, IsPasted(names));
    PruneFacts(p.relations, IsPasted(names));
    forall c | c in CopiedRelations(p, names).bindings ensures Avoids(BindCommand(c), d) {
      var r := MapSource(BindingCopy(names), kept.bindings, c);
      CopyIsFresh(p, names, d, r.source);
      CopyIsFresh(p, names, d, r.target);
      BindingNameIsFresh(p, names, d, r);
    }
  }

  lemma BindingNameIsFresh(p: Payload, names: Names, d: Document, b: BindingRelation)
    requires NamesFor(names, p, d) && b in p.relations.bindings
    ensures BindingOf(d.relations, BindingCopy(names)(b).id).None?
  {
    hide FirstFree, CopyOf, Map;
    MapElement(BindingName, p.relations.bindings, b);
    assert names.bindings[b.id.name] !in BindingNames(d);
  }

  /** No command of a paste names a record or a binding that the document already has. */
  lemma PasteAvoidsExisting(p: Payload, names: Names, d: Document, offset: Point, c: Command)
    requires NamesFor(names, p, d) && c in PasteCommands(p, names, offset)
    ensures Avoids(c, d)
  {
    hide NamesFor;
    var r := CopiedRelations(p, names);
    CopiedRecordsAvoid(p, names, d, offset);
    CopiedEdgesAvoid(p, names, d);
    CopiedRelationsAvoid(p, names, d);
    CopiedBindingsAvoid(p, names, d);
    hide Map, CopiedNodes, CopiedShapes, CopiedEdges, CopiedRelations, Avoids;
    if c in Map(InsertNodeCommand, CopiedNodes(p, names, offset)) {
      var n := MapSource(InsertNodeCommand, CopiedNodes(p, names, offset), c);
      AvoidsRecord(c, d);
    } else if c in Map(InsertShapeCommand, CopiedShapes(p, names, offset)) {
      var s := MapSource(InsertShapeCommand, CopiedShapes(p, names, offset), c);
      AvoidsRecord(c, d);
    } else if c in Map(InsertEdgeCommand, CopiedEdges(p, names)) {
      var e := MapSource(InsertEdgeCommand, CopiedEdges(p, names), c);
    } else if c in Map(SetCommand, r.parents) {
      var q := MapSource(SetCommand, r.parents, c);
    } else if c in Map(JoinCommand, r.groups) {
      var q := MapSource(JoinCommand, r.groups, c);
    } else {
      var q := MapSource(BindCommand, r.bindings, c);
    }
  }

  lemma AvoidsRecord(c: Command, d: Document)
    ensures c.InsertNode? ==> (Avoids(c, d) <==> !d.nodes.Has(c.node.id))
    ensures c.InsertShape? ==> (Avoids(c, d) <==> !d.shapes.Has(c.shape.id))
  {
  }

  // Inserting the copies.

  lemma {:induction false} InsertNodesApply(x: Document, ns: seq<Node>) returns (y: Document)
    requires Unique(ns, NodeKey) && forall n :: n in ns ==> !x.nodes.Has(n.id) && ValidateNode(n).Ok?
    ensures ApplyAll(x, Map(InsertNodeCommand, ns)) == Ok(y) && y == x.(nodes := y.nodes)
    ensures forall n :: y.nodes.Get(n) == if Lookup(ns, NodeKey, n).Some? then Lookup(ns, NodeKey, n)
            else x.nodes.Get(n)
    decreases ns
  {
    y := x;
    if ns != [] {
      FirstCommand(x, InsertNodeCommand, ns);
      UniqueTail(ns, NodeKey);
      assert ns[0] in ns && forall n :: n in ns[1..] ==> n in ns;
      y := InsertNodesApply(x.(nodes := x.nodes.Insert(ns[0].id, ns[0])), ns[1..]);
    }
  }

  lemma InsertFirstShape(x: Document, ss: seq<Shape>) returns (next: Document)
    requires ss != [] && Unique(ss, ShapeKey) && forall s :: s in ss ==> !x.shapes.Has(s.id)
    ensures ApplyAll(x, Map(InsertShapeCommand, ss)) == ApplyAll(next, Map(InsertShapeCommand, ss[1..]))
    ensures next == x.(shapes := next.shapes)
    ensures forall s :: next.shapes.Get(s) == if s == ss[0].id then Some(ss[0]) else x.shapes.Get(s)
    ensures Unique(ss[1..], ShapeKey) && forall s :: s in ss[1..] ==> !next.shapes.Has(s.id)
  {
    hide Map, Unique;
    next := x.(shapes := x.shapes.Insert(ss[0].id, ss[0]));
    assert ss[0] in ss && forall s :: s in ss[1..] ==> s in ss;
    FirstCommand(x, InsertShapeCommand, ss);
    UniqueTail(ss, ShapeKey);
  }

  lemma {:induction false} InsertShapesApply(x: Document, ss: seq<Shape>) returns (y: Document)
    requires Unique(ss, ShapeKey) && forall s :: s in ss ==> !x.shapes.Has(s.id)
    ensures ApplyAll(x, Map(InsertShapeCommand, ss)) == Ok(y) && y == x.(shapes := y.shapes)
    ensures forall s :: y.shapes.Get(s) == if Lookup(ss, ShapeKey, s).Some? then Lookup(ss, ShapeKey, s)
            else x.shapes.Get(s)
    decreases ss
  {
    y := x;
    if ss != [] {
      hide Map, ApplyAll, Lookup, Unique;
      var next := InsertFirstShape(x, ss);
      y := InsertShapesApply(next, ss[1..]);
      forall s
        ensures y.shapes.Get(s) == if Lookup(ss, ShapeKey, s).Some? then Lookup(ss, ShapeKey, s) else x.shapes.Get(s)
      {
        LookupCons(ss, ShapeKey, s);
      }
    }
  }

  lemma {:induction false} InsertEdgesApply(x: Document, es: seq<Edge>) returns (y: Document)
    requires Unique(es, EdgeKey) && forall e :: e in es ==> !x.edges.Has(e.id) && ValidateEdge(x.nodes.entries, e).Ok?
    ensures ApplyAll(x, Map(InsertEdgeCommand, es)) == Ok(y) && y == x.(edges := y.edges)
    ensures forall e :: y.edges.Get(e) == if Lookup(es, EdgeKey, e).Some? then Lookup(es, EdgeKey, e)
            else x.edges.Get(e)
    decreases es
  {
    hide ValidateEdge;
    y := x;
    if es != [] {
      FirstCommand(x, InsertEdgeCommand, es);
      UniqueTail(es, EdgeKey);
      assert es[0] in es && forall e :: e in es[1..] ==> e in es;
      y := InsertEdgesApply(x.(edges := x.edges.Insert(es[0].id, es[0])), es[1..]);
    }
  }

  // A payload that can be pasted.

  ghost function NodeTable(ns: seq<Node>): map<NodeId, Node> {
    map n | n in Map(NodeKey, ns) && Lookup(ns, NodeKey, n).Some? :: Lookup(ns, NodeKey, n).value
  }

  ghost predicate PayloadEdgeFits(p: Payload, e: Edge) {
    e.source.node in NodeTable(p.nodes) && e.target.node in NodeTable(p.nodes) ==>
      ValidateEdge(NodeTable(p.nodes), e).Ok?
  }

  ghost predicate NoSelfRelation(r: Relations) {
    && (forall q :: q in r.parents ==> q.child != q.parent)
    && (forall g :: g in r.groups ==> g.group != g.member)
    && (forall b :: b in r.bindings ==> b.source != b.target)
  }

  /** Distinct ids, valid records and relations that a document would accept, dangling ends aside. */
  ghost predicate Pasteable(p: Payload) {
    && Unique(p.nodes, NodeKey) && Unique(p.shapes, ShapeKey) && Unique(p.edges, EdgeKey)
    && (forall n :: n in p.nodes ==> ValidateNode(n).Ok?)
    && (forall e :: e in p.edges ==> PayloadEdgeFits(p, e))
    && WellFormed(p.relations) && NoSelfRelation(p.relations) && Acyclic(DownEdges(p.relations))
  }

  lemma {:induction false} HandlesCheckOnAnyNode(a: NodeId, b: NodeId, hs: seq<Handle>, seen: set<HandleId>)
    ensures CheckHandles(a, hs, seen).Ok? == CheckHandles(b, hs, seen).Ok?
    decreases hs
  {
    if hs != [] && hs[0].id !in seen {
      HandlesCheckOnAnyNode(a, b, hs[1..], seen + {hs[0].id});
    }
  }

  lemma UniqueMap<T, U, K, L>(s: seq<T>, key: T -> K, f: T -> U, key': U -> L)
    requires Unique(s, key)
    requires forall x, y :: x in s && y in s && key'(f(x)) == key'(f(y)) ==> key(x) == key(y)
    ensures Unique(Map(f, s), key')
  {
    forall i, j | 0 <= i < j < |s| ensures key'(Map(f, s)[i]) != key'(Map(f, s)[j]) {
      assert s[i] in s && s[j] in s;
    }
  }

  lemma CopiedNodesInsert(p: Payload, names: Names, d: Document, offset: Point)
    requires NamesFor(names, p, d) && Pasteable(p)
    ensures Unique(CopiedNodes(p, names, offset), NodeKey)
    ensures forall n :: n in CopiedNodes(p, names, offset) ==> ValidateNode(n).Ok?
  {
    hide Acyclic, PayloadEdgeFits, WellFormed, FirstFree;
    forall x, y | x in p.nodes && y in p.nodes &&
      NodeKey(NodeCopy(names, offset)(x)) == NodeKey(NodeCopy(names, offset)(y))
      ensures NodeKey(x) == NodeKey(y)
    {
      MapElement(NodeName, p.nodes, x);
      MapElement(NodeName, p.nodes, y);
      CopiesDiffer(p, names, d, NodeRecord(x.id), NodeRecord(y.id));
    }
    UniqueMap(p.nodes, NodeKey, NodeCopy(names, offset), NodeKey);
    forall n | n in CopiedNodes(p, names, offset) ensures ValidateNode(n).Ok? {
      var m := MapSource(NodeCopy(names, offset), p.nodes, n);
      HandlesCheckOnAnyNode(m.id, n.id, m.handles, {});
    }
  }

  lemma CopiedShapesInsert(p: Payload, names: Names, d: Document, offset: Point)
    requires NamesFor(names, p, d) && Pasteable(p)
    ensures Unique(CopiedShapes(p, names, offset), ShapeKey)
  {
    hide Acyclic, PayloadEdgeFits, WellFormed, NamesFor, Map;
    EachIsPasted(p, names, d);
    forall x, y | x in p.shapes && y in p.shapes &&
      ShapeKey(ShapeCopy(names, offset)(x)) == ShapeKey(ShapeCopy(names, offset)(y))
      ensures ShapeKey(x) == ShapeKey(y)
    {
      CopiesDiffer(p, names, d, ShapeRecord(x.id), ShapeRecord(y.id));
    }
    UniqueMap(p.shapes, ShapeKey, ShapeCopy(names, offset), ShapeKey);
  }

  lemma CopiedEdgesUnique(p: Payload, names: Names, d: Document)
    requires NamesFor(names, p, d) && Pasteable(p)
    ensures Unique(CopiedEdges(p, names), EdgeKey)
  {
    hide Acyclic, PayloadEdgeFits, WellFormed, NamesFor, Filter;
    var es := Filter(p.edges, Attached(names.nodes));
    EachIsPasted(p, names, d);
    FilterUnique(p.edges, EdgeKey, Attached(names.nodes));
    forall x, y | x in es && y in es && EdgeKey(EdgeCopy(names)(x)) == EdgeKey(EdgeCopy(names)(y))
      ensures EdgeKey(x) == EdgeKey(y)
    {
      CopiesDiffer(p, names, d, EdgeRecord(x.id), EdgeRecord(y.id));
    }
    UniqueMap(es, EdgeKey, EdgeCopy(names), EdgeKey);
  }

  /** The copy of a node is found under its new name, with the same handles. */
  lemma CopiedNodeFound(p: Payload, names: Names, d: Document, offset: Point, y: Document, n: NodeId)
    requires NamesFor(names, p, d) && Pasteable(p) && n.name in names.nodes
    requires forall k :: y.nodes.Get(k) ==
                         if Lookup(CopiedNodes(p, names, offset), NodeKey, k).Some?
                         then Lookup(CopiedNodes(p, names, offset), NodeKey, k) else d.nodes.Get(k)
    ensures n in NodeTable(p.nodes)
    ensures y.nodes.Get(NodeId(names.nodes[n.name])) == Some(NodeCopy(names, offset)(NodeTable(p.nodes)[n]))
  {
    hide Acyclic, PayloadEdgeFits, WellFormed, FirstFree;
    var m := MapSource(NodeName, p.nodes, n.name);
    MapElement(NodeKey, p.nodes, m);
    LookupMember(p.nodes, NodeKey, m);
    var copy := NodeCopy(names, offset)(m);
    MapElement(NodeCopy(names, offset), p.nodes, m);
    CopiedNodesInsert(p, names, d, offset);
    LookupMember(CopiedNodes(p, names, offset), NodeKey, copy);
    assert y.nodes.Get(copy.id) == Some(copy);
  }

  lemma SameHandlesSameVerdict(a: map<NodeId, Node>, b: map<NodeId, Node>, e: Edge, e': Edge)
    requires ValidateEdge(a, e).Ok? && e'.route == e.route
    requires e'.source.node in b && e'.source.handle == e.source.handle &&
             b[e'.source.node].handles == a[e.source.node].handles
    requires e'.target.node in b && e'.target.handle == e.target.handle &&
             b[e'.target.node].handles == a[e.target.node].handles
    ensures ValidateEdge(b, e').Ok?
  {
  }

  lemma CopiedEdgeFits(p: Payload, names: Names, d: Document, offset: Point, y: Document, e: Edge)
    requires NamesFor(names, p, d) && Pasteable(p) && e in CopiedEdges(p, names)
    requires forall k :: y.nodes.Get(k) ==
                         if Lookup(CopiedNodes(p, names, offset), NodeKey, k).Some?
                         then Lookup(CopiedNodes(p, names, offset), NodeKey, k) else d.nodes.Get(k)
    ensures ValidateEdge(y.nodes.entries, e).Ok?
  {
    hide Acyclic, WellFormed, NamesFor, ValidateEdge, NodeTable, CopiedNodes, CopiedEdges;
    var m := CopiedEdgeSource(p, names, d, e);
    CopiedNodeFound(p, names, d, offset, y, m.source.node);
    CopiedNodeFound(p, names, d, offset, y, m.target.node);
    assert PayloadEdgeFits(p, m);
    SameHandlesSameVerdict(NodeTable(p.nodes), y.nodes.entries, m, e);
  }

  /** The document's records and the copies, and nothing else. */
  ghost predicate RecordsJoined(y: Document, d: Document, nodes: seq<Node>, shapes: seq<Shape>, edges: seq<Edge>) {
    && (forall n :: y.nodes.Get(n) == if Lookup(nodes, NodeKey, n).Some? then Lookup(nodes, NodeKey, n)
       else d.nodes.Get(n))
    && (forall s :: y.shapes.Get(s) == if Lookup(shapes, ShapeKey, s).Some? then Lookup(shapes, ShapeKey, s)
       else d.shapes.Get(s))
    && (forall e :: y.edges.Get(e) == if Lookup(edges, EdgeKey, e).Some? then Lookup(edges, EdgeKey, e)
       else d.edges.Get(e))
    && y.metadata == d.metadata
  }

  /** The document's relations and the copied ones, and nothing else. */
  ghost predicate RelationsJoined(r: Relations, a: Relations, b: Relations) {
    && (forall q :: q in r.parents <==> q in a.parents || q in b.parents)
    && (forall g :: g in r.groups <==> g in a.groups || g in b.groups)
    && (forall c :: c in r.bindings <==> c in a.bindings || c in b.bindings)
  }

  lemma RecordsPaste(p: Payload, names: Names, d: Document, offset: Point) returns (y: Document)
    requires NamesFor(names, p, d) && Pasteable(p) && RecordsSound(d)
    ensures ApplyAll(d, Map(InsertNodeCommand, CopiedNodes(p, names, offset)) +
                        (Map(InsertShapeCommand, CopiedShapes(p, names, offset)) +
                          Map(InsertEdgeCommand, CopiedEdges(p, names)))) == Ok(y)
    ensures RecordsSound(y) && y.relations == d.relations
    ensures RecordsJoined(y, d, CopiedNodes(p, names, offset), CopiedShapes(p, names, offset), CopiedEdges(p, names))
  {
    hide NamesFor, Pasteable, ApplyAll, ValidateNode, ValidateEdge, RecordsSound, CopiedNodes, CopiedShapes,
         CopiedEdges;
    var nodes, shapes, edges := CopiedNodes(p, names, offset), CopiedShapes(p, names, offset), CopiedEdges(p, names);
    CopiedRecordsAvoid(p, names, d, offset);
    CopiedEdgesAvoid(p, names, d);
    CopiedNodesInsert(p, names, d, offset);
    CopiedShapesInsert(p, names, d, offset);
    CopiedEdgesUnique(p, names, d);
    var a := InsertNodesApply(d, nodes);
    var b := InsertShapesApply(a, shapes);
    forall e | e in edges ensures ValidateEdge(b.nodes.entries, e).Ok? {
      CopiedEdgeFits(p, names, d, offset, b, e);
    }
    assert forall e :: e in edges ==> Avoids(InsertEdge(e), d);
    y := InsertEdgesApply(b, edges);
    var c1, c2, c3 := Map(InsertNodeCommand, nodes), Map(InsertShapeCommand, shapes), Map(InsertEdgeCommand, edges);
    ApplyConcat(a, c2, c3);
    ApplyConcat(d, c1, c2 + c3);
    ApplyAllKeepsRecordsSound(d, c1 + (c2 + c3));
  }

  /** Every pasted record has its copy in the result, and every old record is still there. */
  lemma CopyExists(p: Payload, names: Names, d: Document, offset: Point, y: Document, id: RecordId)
    requires NamesFor(names, p, d) && Pasteable(p) && Pasted(names, id)
    requires RecordsJoined(y, d, CopiedNodes(p, names, offset), CopiedShapes(p, names, offset), CopiedEdges(p, names))
    ensures y.Contains(CopyOf(names, id))
  {
    hide Pasteable, FirstFree, Renaming, Filter;
    match id
    case NodeRecord(n) =>
      CopiedNodeFound(p, names, d, offset, y, n);
    case ShapeRecord(s) =>
      var m := MapSource(ShapeName, p.shapes, s.name);
      MapElement(ShapeCopy(names, offset), p.shapes, m);
      assert y.shapes.Get(ShapeCopy(names, offset)(m).id).Some?;
    case EdgeRecord(e) =>
      var m := MapSource(EdgeName, Filter(p.edges, Attached(names.nodes)), e.name);
      MapElement(EdgeCopy(names), Filter(p.edges, Attached(names.nodes)), m);
      assert y.edges.Get(EdgeCopy(names)(m).id).Some?;
  }

  lemma OldRecordsStay(d: Document, y: Document, nodes: seq<Node>, shapes: seq<Shape>, edges: seq<Edge>, id: RecordId)
    requires RecordsJoined(y, d, nodes, shapes, edges) && d.Contains(id)
    ensures y.Contains(id)
  {
    match id
    case NodeRecord(n) => assert y.nodes.Get(n).Some?;
    case ShapeRecord(s) => assert y.shapes.Get(s).Some?;
    case EdgeRecord(e) => assert y.edges.Get(e).Some?;
  }

  // The copied relations.

  ghost predicate CopiesInside(y: Document, names: Names) {
    forall id :: Pasted(names, id) ==> y.Contains(CopyOf(names, id))
  }

  lemma CopiedParentsSound(p: Payload, names: Names, d: Document, y: Document)
    requires NamesFor(names, p, d) && CopiesInside(y, names) && WellFormed(p.relations) && NoSelfRelation(p.relations)
    ensures ParentsSound(y, CopiedRelations(p, names).parents) && Unique(CopiedRelations(p, names).parents, ChildKey)
  {
    hide NamesFor, CopyOf, Pasted;
    var kept := Prune(p.relations, IsPasted(names));
    PruneFacts(p.relations, IsPasted(names));
    forall q | q in CopiedRelations(p, names).parents
      ensures q.child != q.parent && y.Contains(q.child) && y.Contains(q.parent)
    {
      var m := MapSource(ParentCopy(names), kept.parents, q);
      if q.child == q.parent {
        CopiesDiffer(p, names, d, m.child, m.parent);
      }
    }
    forall a, b | a in kept.parents && b in kept.parents &&
      ChildKey(ParentCopy(names)(a)) == ChildKey(ParentCopy(names)(b))
      ensures ChildKey(a) == ChildKey(b)
    {
      CopiesDiffer(p, names, d, a.child, b.child);
    }
    UniqueMap(kept.parents, ChildKey, ParentCopy(names), ChildKey);
  }

  lemma CopiedGroupsSound(p: Payload, names: Names, d: Document, y: Document)
    requires NamesFor(names, p, d) && CopiesInside(y, names) && NoSelfRelation(p.relations)
    ensures GroupsSound(y, CopiedRelations(p, names).groups)
  {
    hide NamesFor, CopyOf, Pasted;
    var kept := Prune(p.relations, IsPasted(names));
    PruneFacts(p.relations, IsPasted(names));
    forall g | g in CopiedRelations(p, names).groups
      ensures g.group != g.member && y.Contains(g.group) && y.Contains(g.member)
    {
      var m := MapSource(GroupCopy(names), kept.groups, g);
      if g.group == g.member {
        CopiesDiffer(p, names, d, m.group, m.member);
      }
    }
  }

  lemma CopiedBindingsSound(p: Payload, names: Names, d: Document, y: Document)
    requires NamesFor(names, p, d) && CopiesInside(y, names) && NoSelfRelation(p.relations)
    ensures BindingsSound(y, CopiedRelations(p, names).bindings)
  {
    hide NamesFor, CopyOf, Pasted;
    var kept := Prune(p.relations, IsPasted(names));
    PruneFacts(p.relations, IsPasted(names));
    forall b | b in CopiedRelations(p, names).bindings
      ensures b.source != b.target && y.Contains(b.source) && y.Contains(b.target)
    {
      var m := MapSource(BindingCopy(names), kept.bindings, b);
      if b.source == b.target {
        CopiesDiffer(p, names, d, m.source, m.target);
      }
    }
  }

  lemma CopiedBindingsUnique(p: Payload, names: Names, d: Document)
    requires NamesFor(names, p, d) && WellFormed(p.relations)
    ensures Unique(CopiedRelations(p, names).bindings, BindingKey)
  {
    hide FirstFree, CopyOf, Pasted;
    var kept := Prune(p.relations, IsPasted(names));
    PruneFacts(p.relations, IsPasted(names));
    forall a, b | a in kept.bindings && b in kept.bindings &&
      BindingKey(BindingCopy(names)(a)) == BindingKey(BindingCopy(names)(b))
      ensures BindingKey(a) == BindingKey(b)
    {
      MapElement(BindingName, p.relations.bindings, a);
      MapElement(BindingName, p.relations.bindings, b);
    }
    UniqueMap(kept.bindings, BindingKey, BindingCopy(names), BindingKey);
  }

  /** Relations under new keys are added to what is there. */
  lemma RelationsPaste(y: Document, b: Relations) returns (r: Relations)
    requires WellFormed(y.relations) && Unique(b.parents, ChildKey) && Unique(b.bindings, BindingKey)
    requires ParentsSound(y, b.parents) && GroupsSound(y, b.groups) && BindingsSound(y, b.bindings)
    requires forall q :: q in b.parents ==> ParentOf(y.relations, q.child).None?
    requires forall c :: c in b.bindings ==> BindingOf(y.relations, c.id).None?
    ensures ApplyAll(y, RelationInserts(b)) == Ok(y.(relations := r))
    ensures WellFormed(r) && RelationsJoined(r, y.relations, b)
  {
    hide ApplyAll, Map, Lookup;
    var r1 := SetAll(y, b.parents);
    var y1 := y.(relations := r1);
    var r2 := JoinAll(y1, b.groups);
    var y2 := y1.(relations := r2);
    r := BindAll(y2, b.bindings);
    ApplyConcat(y1, Map(JoinCommand, b.groups), Map(BindCommand, b.bindings));
    ApplyConcat(y, Map(SetCommand, b.parents), Map(JoinCommand, b.groups) + Map(BindCommand, b.bindings));
    ParentsJoin(r1, y.relations, b);
    GroupsJoin(r2, r1, b);
    BindingsJoin(r, r2, b);
  }

  lemma ParentsJoin(r: Relations, a: Relations, b: Relations)
    requires WellFormed(r) && WellFormed(a) && Unique(b.parents, ChildKey)
    requires forall c :: ParentOf(r, c) == if Lookup(b.parents, ChildKey, c).Some? then
             Some(Lookup(b.parents, ChildKey, c).value.parent) else ParentOf(a, c)
    requires forall q :: q in b.parents ==> ParentOf(a, q.child).None?
    ensures forall q :: q in r.parents <==> q in a.parents || q in b.parents
  {
    forall q ensures q in r.parents <==> q in a.parents || q in b.parents {
      LookupMember(r.parents, ChildKey, q);
      LookupMember(a.parents, ChildKey, q);
      LookupMember(b.parents, ChildKey, q);
      assert ParentOf(r, q.child) == if Lookup(b.parents, ChildKey, q.child).Some? then
        Some(Lookup(b.parents, ChildKey, q.child).value.parent) else ParentOf(a, q.child);
    }
  }

  lemma GroupsJoin(r: Relations, a: Relations, b: Relations)
    requires forall g, m :: HasMember(r, g, m) <==> HasMember(a, g, m) || GroupRelation(g, m) in b.groups
    ensures forall g :: g in r.groups <==> g in a.groups || g in b.groups
  {
    forall g ensures g in r.groups <==> g in a.groups || g in b.groups {
      assert HasMember(r, g.group, g.member) <==>
        HasMember(a, g.group, g.member) || GroupRelation(g.group, g.member) in b.groups;
    }
  }

  lemma BindingsJoin(r: Relations, a: Relations, b: Relations)
    requires WellFormed(r) && WellFormed(a) && Unique(b.bindings, BindingKey)
    requires forall i :: BindingOf(r, i) == if Lookup(b.bindings, BindingKey, i).Some? then
             Lookup(b.bindings, BindingKey, i) else BindingOf(a, i)
    requires forall c :: c in b.bindings ==> BindingOf(a, c.id).None?
    ensures forall c :: c in r.bindings <==> c in a.bindings || c in b.bindings
  {
    forall c ensures c in r.bindings <==> c in a.bindings || c in b.bindings {
      LookupMember(r.bindings, BindingKey, c);
      LookupMember(a.bindings, BindingKey, c);
      LookupMember(b.bindings, BindingKey, c);
      assert BindingOf(r, c.id) == if Lookup(b.bindings, BindingKey, c.id).Some? then
        Lookup(b.bindings, BindingKey, c.id) else BindingOf(a, c.id);
    }
  }

  // No cycle arises.

  lemma DownEdge(r: Relations, a: RecordId, b: RecordId)
    ensures (a, b) in DownEdges(r) <==> ParentRelation(b, a) in r.parents || GroupRelation(a, b) in r.groups
  {
    DownSteps(r, a, b);
  }

  lemma CopiedRelationsAcyclic(p: Payload, names: Names, d: Document)
    requires NamesFor(names, p, d) && Acyclic(DownEdges(p.relations))
    ensures Acyclic(DownEdges(CopiedRelations(p, names)))
  {
    hide NamesFor, CopyOf, Pasted, DownEdges, Acyclic;
    var copied := CopiedRelations(p, names);
    var kept := Prune(p.relations, IsPasted(names));
    PruneFacts(p.relations, IsPasted(names));
    var f := (id: RecordId) => CopyOf(names, id);
    forall a, b | (a, b) in DownEdges(copied)
      ensures exists u, v :: (u, v) in DownEdges(kept) && f(u) == a && f(v) == b
    {
      DownEdge(copied, a, b);
      if ParentRelation(b, a) in copied.parents {
        var m := MapSource(ParentCopy(names), kept.parents, ParentRelation(b, a));
        DownEdge(kept, m.parent, m.child);
      } else {
        var m := MapSource(GroupCopy(names), kept.groups, GroupRelation(a, b));
        DownEdge(kept, m.group, m.member);
      }
    }
    forall u, v | (u, v) in DownEdges(kept)
      ensures Pasted(names, u) && Pasted(names, v) && (u, v) in DownEdges(p.relations)
    {
      DownEdge(kept, u, v);
      DownEdge(p.relations, u, v);
    }
    forall u, v | IsPasted(names)(u) && IsPasted(names)(v) && f(u) == f(v) ensures u == v {
      CopiesDiffer(p, names, d, u, v);
    }
    forall e | e in DownEdges(kept) ensures e in DownEdges(p.relations) {
      assert e == (e.0, e.1);
    }
    SubgraphAcyclic(DownEdges(kept), DownEdges(p.relations));
    ImageAcyclic(DownEdges(copied), DownEdges(kept), f, IsPasted(names));
  }

  lemma JoinedAcyclic(r: Relations, d: Document, b: Relations)
    requires RelationsJoined(r, d.relations, b) && RelationsSound(d) && Acyclic(DownEdges(b))
    requires forall q :: q in b.parents ==> Avoids(SetCommand(q), d)
    requires forall g :: g in b.groups ==> Avoids(JoinCommand(g), d)
    ensures Acyclic(DownEdges(r))
  {
    hide DownEdges, Acyclic;
    var old_, new_ := Existing(d), (x: RecordId) => !d.Contains(x);
    forall x, y | (x, y) in DownEdges(r) && old_(x) ensures (x, y) in DownEdges(d.relations) && old_(y) {
      DownEdge(r, x, y);
      DownEdge(d.relations, x, y);
      assert Avoids(SetCommand(ParentRelation(y, x)), d) ==> !d.Contains(x);
      assert Avoids(JoinCommand(GroupRelation(x, y)), d) ==> !d.Contains(x);
    }
    forall x, y | (x, y) in DownEdges(r) && new_(x) ensures (x, y) in DownEdges(b) && new_(y) {
      DownEdge(r, x, y);
      DownEdge(b, x, y);
      assert Avoids(SetCommand(ParentRelation(y, x)), d) ==> !d.Contains(y);
      assert Avoids(JoinCommand(GroupRelation(x, y)), d) ==> !d.Contains(y);
    }
    SideBySideAcyclic(DownEdges(r), DownEdges(d.relations), DownEdges(b), old_, new_);
  }

  lemma JoinedSound(y: Document, d: Document, b: Relations)
    requires WellFormed(y.relations) && RelationsJoined(y.relations, d.relations, b) && RelationsSound(d)
    requires forall id: RecordId :: d.Contains(id) ==> y.Contains(id)
    requires ParentsSound(y, b.parents) && GroupsSound(y, b.groups) && BindingsSound(y, b.bindings)
    requires Acyclic(DownEdges(y.relations))
    ensures RelationsSound(y)
  {
  }

  /** Pasting a well-formed payload into a valid document applies as a whole and gives a valid document. */
  lemma PasteApplies(p: Payload, names: Names, d: Document, offset: Point) returns (y: Document)
    requires NamesFor(names, p, d) && Pasteable(p) && Sound(d)
    ensures ApplyAll(d, PasteCommands(p, names, offset)) == Ok(y) && Sound(y)
    ensures RecordsJoined(y, d, CopiedNodes(p, names, offset), CopiedShapes(p, names, offset), CopiedEdges(p, names))
    ensures RelationsJoined(y.relations, d.relations, CopiedRelations(p, names))
  {
    hide NamesFor, RecordsJoined, RelationsJoined, ApplyAll, RecordsSound, CopiedNodes, CopiedShapes, CopiedEdges,
         CopiedRelations, RelationInserts, Map, Acyclic, PayloadEdgeFits, ParentsSound, GroupsSound, BindingsSound;
    var x := RecordsPaste(p, names, d, offset);
    var b := CopiedRelations(p, names);
    forall id | Pasted(names, id) ensures x.Contains(CopyOf(names, id)) {
      CopyExists(p, names, d, offset, x, id);
    }
    forall id: RecordId | d.Contains(id) ensures x.Contains(id) {
      OldRecordsStay(d, x, CopiedNodes(p, names, offset), CopiedShapes(p, names, offset), CopiedEdges(p, names), id);
    }
    y := RelationsAfter(p, names, d, x, b);
    PasteInTwoSteps(p, names, offset, d, x);
    SameRecordsJoined(y, x, d, CopiedNodes(p, names, offset), CopiedShapes(p, names, offset), CopiedEdges(p, names));
  }

  lemma RelationsAfter(p: Payload, names: Names, d: Document, x: Document, b: Relations) returns (y: Document)
    requires NamesFor(names, p, d) && Pasteable(p) && RelationsSound(d) && RecordsSound(x)
    requires b == CopiedRelations(p, names) && x.relations == d.relations && CopiesInside(x, names)
    requires forall id: RecordId :: d.Contains(id) ==> x.Contains(id)
    ensures ApplyAll(x, RelationInserts(b)) == Ok(y) && y == x.(relations := y.relations)
    ensures Sound(y) && RelationsJoined(y.relations, d.relations, b)
  {
    hide NamesFor, ApplyAll, CopiedRelations, RelationInserts, Map, Acyclic, PayloadEdgeFits, DownEdges, NodesSound,
         EdgesSound, RelationsJoined;
    CopiedParentsSound(p, names, d, x);
    CopiedGroupsSound(p, names, d, x);
    CopiedBindingsSound(p, names, d, x);
    CopiedBindingsUnique(p, names, d);
    CopiedRelationsAvoid(p, names, d);
    CopiedBindingsAvoid(p, names, d);
    NewKeys(d, b);
    var r := RelationsPaste(x, b);
    y := x.(relations := r);
    CopiedRelationsAcyclic(p, names, d);
    JoinedAcyclic(r, d, b);
    JoinedSound(y, d, b);
    SoundWithRelations(x, y);
  }

  lemma SoundWithRelations(x: Document, y: Document)
    requires RecordsSound(x) && y == x.(relations := y.relations) && RelationsSound(y)
    ensures Sound(y)
  {
  }

  lemma NewKeys(d: Document, b: Relations)
    requires RelationsSound(d)
    requires forall q :: q in b.parents ==> Avoids(SetCommand(q), d)
    requires forall c :: c in b.bindings ==> Avoids(BindCommand(c), d)
    ensures forall q :: q in b.parents ==> ParentOf(d.relations, q.child).None?
    ensures forall c :: c in b.bindings ==> BindingOf(d.relations, c.id).None?
  {
    forall q | q in b.parents ensures ParentOf(d.relations, q.child).None? {
      assert Avoids(SetCommand(q), d);
    }
    forall c | c in b.bindings ensures BindingOf(d.relations, c.id).None? {
      assert Avoids(BindCommand(c), d);
    }
  }

  lemma PasteInTwoSteps(p: Payload, names: Names, offset: Point, d: Document, x: Document)
    requires ApplyAll(d, Map(InsertNodeCommand, CopiedNodes(p, names, offset)) +
                         (Map(InsertShapeCommand, CopiedShapes(p, names, offset)) +
                           Map(InsertEdgeCommand, CopiedEdges(p, names)))) == Ok(x)
    ensures ApplyAll(d, PasteCommands(p, names, offset)) == ApplyAll(x, RelationInserts(CopiedRelations(p, names)))
  {
    hide ApplyAll, Map, CopiedNodes, CopiedShapes, CopiedEdges, CopiedRelations, RelationInserts;
    var a, b, c := Map(InsertNodeCommand, CopiedNodes(p, names, offset)),
      Map(InsertShapeCommand, CopiedShapes(p, names, offset)),
      Map(InsertEdgeCommand, CopiedEdges(p, names));
    var e := RelationInserts(CopiedRelations(p, names));
    ApplyConcat(d, a + (b + c), e);
    assert a + (b + c) + e == a + (b + (c + e));
  }

  lemma SameRecordsJoined(y: Document, x: Document, d: Document, nodes: seq<Node>, shapes: seq<Shape>, edges: seq<Edge>)
    requires y == x.(relations := y.relations) && RecordsJoined(x, d, nodes, shapes, edges)
    ensures RecordsJoined(y, d, nodes, shapes, edges)
  {
  }

  /** After a paste everything selected is a pasted copy, and something is selected if anything was pasted. */
  lemma SelectionIsPasted(p: Payload, names: Names, d: Document, id: RecordId)
    requires NamesFor(names, p, d)
    ensures var after := PastedSelection(p, names, CopiedIds(p, names));
            && (id in after.records ==> exists source :: Pasted(names, source) && CopyOf(names, source) == id)
            && (forall h :: h in after.handles ==> exists n :: n in names.nodes && h.node == NodeId(names.nodes[n]))
            && (after == Selection({}, {}) ==> CopiedIds(p, names) == {})
  {
    hide FreshNames;
    if id in CopiedIds(p, names) {
      CopiedIdsArePasted(p, names, d, id);
    }
    var after := PastedSelection(p, names, CopiedIds(p, names));
    forall h | h in after.handles ensures exists n :: n in names.nodes && h.node == NodeId(names.nodes[n]) {
      var k :| k in p.selection.handles && h == EndpointCopy(names, k);
      assert k.node.name in names.nodes;
    }
  }

  lemma CopiedIdsArePasted(p: Payload, names: Names, d: Document, id: RecordId)
    requires NamesFor(names, p, d) && id in CopiedIds(p, names)
    ensures exists source :: Pasted(names, source) && CopyOf(names, source) == id
  {
    hide NamesFor, CopyOf, Filter;
    EachIsPasted(p, names, d);
    if n :| n in p.nodes && id == CopyOf(names, NodeRecord(n.id)) {
      assert Pasted(names, NodeRecord(n.id));
    } else if s :| s in p.shapes && id == CopyOf(names, ShapeRecord(s.id)) {
      assert Pasted(names, ShapeRecord(s.id));
    } else {
      var e :| e in Filter(p.edges, Attached(names.nodes)) && id == CopyOf(names, EdgeRecord(e.id));
      assert Pasted(names, EdgeRecord(e.id));
    }
  }

  /** Every node and shape of the payload is pasted, and every edge whose ends are. */
  lemma EachIsPasted(p: Payload, names: Names, d: Document)
    requires NamesFor(names, p, d)
    ensures forall n :: n in p.nodes ==> Pasted(names, NodeRecord(n.id))
    ensures forall s :: s in p.shapes ==> Pasted(names, ShapeRecord(s.id))
    ensures forall e :: e in Filter(p.edges, Attached(names.nodes)) ==> Pasted(names, EdgeRecord(e.id))
  {
    hide FirstFree, Renaming, Filter;
    var es := Filter(p.edges, Attached(names.nodes));
    forall n | n in p.nodes ensures Pasted(names, NodeRecord(n.id)) {
      MapElement(NodeName, p.nodes, n);
    }
    forall s | s in p.shapes ensures Pasted(names, ShapeRecord(s.id)) {
      MapElement(ShapeName, p.shapes, s);
    }
    forall e | e in es ensures Pasted(names, EdgeRecord(e.id)) {
      MapElement(EdgeName, es, e);
    }
  }
}
