/** What a document holds after a paste, record by record and relation by relation. */
module PasteContents {
  import opened Prelude
  import opened KeyedLists
  import opened Records
  import opened RelationSets
  import opened Commands
  import opened Mutations
  import opened UniqueIds
  import opened Clipboard
  import opened PasteTheorems

  ghost predicate HasNode(p: Payload, id: NodeId) {
    exists n :: n in p.nodes && n.id == id
  }

  /** An edge is pasted when both its end nodes are. */
  ghost predicate Whole(p: Payload, e: Edge) {
    e in p.edges && HasNode(p, e.source.node) && HasNode(p, e.target.node)
  }

  /** Pasting turns the payload's record `id` into the record `copy`. */
  ghost predicate Becomes(p: Payload, names: Names, id: RecordId, copy: RecordId) {
    match (id, copy)
    case (NodeRecord(n), NodeRecord(m)) => HasNode(p, n) && Named(names.nodes, n.name, m.name)
    case (ShapeRecord(s), ShapeRecord(t)) =>
      (exists x :: x in p.shapes && x.id == s) && Named(names.shapes, s.name, t.name)
    case (EdgeRecord(e), EdgeRecord(f)) =>
      (exists x :: Whole(p, x) && x.id == e) && Named(names.edges, e.name, f.name)
    case _ => false
  }

  ghost predicate Named(m: map<string, string>, name: string, copy: string) {
    name in m && m[name] == copy
  }

  ghost predicate ShiftedBy(p: Point, q: Point, offset: Point) {
    q.x - p.x == offset.x && q.y - p.y == offset.y
  }

  lemma NodeIsNamed(p: Payload, names: Names, d: Document, id: NodeId)
    requires NamesFor(names, p, d)
    ensures HasNode(p, id) <==> id.name in names.nodes
  {
    hide FirstFree, Renaming;
    if n :| n in p.nodes && n.id == id {
      MapElement(NodeName, p.nodes, n);
    }
    if id.name in names.nodes {
      var n := MapSource(NodeName, p.nodes, id.name);
      assert NodeId(n.id.name) == n.id;
    }
  }

  lemma ShapeIsNamed(p: Payload, names: Names, d: Document, id: ShapeId)
    requires NamesFor(names, p, d)
    ensures (exists x :: x in p.shapes && x.id == id) <==> id.name in names.shapes
  {
    hide FirstFree, Renaming;
    if x :| x in p.shapes && x.id == id {
      MapElement(ShapeName, p.shapes, x);
    }
    if id.name in names.shapes {
      var x := MapSource(ShapeName, p.shapes, id.name);
      assert ShapeId(x.id.name) == x.id;
    }
  }

  lemma WholeIsAttached(p: Payload, names: Names, d: Document, e: Edge)
    requires NamesFor(names, p, d)
    ensures Whole(p, e) <==> e in Filter(p.edges, Attached(names.nodes))
  {
    hide NamesFor, HasNode;
    NodeIsNamed(p, names, d, e.source.node);
    NodeIsNamed(p, names, d, e.target.node);
    FilterMember(p.edges, Attached(names.nodes), e);
  }

  lemma EdgeIsNamed(p: Payload, names: Names, d: Document, id: EdgeId)
    requires NamesFor(names, p, d)
    ensures (exists x :: Whole(p, x) && x.id == id) <==> id.name in names.attached
    ensures id.name in names.attached ==> id.name in names.edges
  {
    hide Whole, FreshNames;
    var es := Filter(p.edges, Attached(names.nodes));
    if x :| Whole(p, x) && x.id == id {
      WholeIsAttached(p, names, d, x);
      MapElement(EdgeName, es, x);
    }
    if id.name in names.attached {
      var x := MapSource(EdgeName, es, id.name);
      WholeIsAttached(p, names, d, x);
      assert EdgeId(x.id.name) == x.id;
      PastedEdgeIsNamed(p, names, d, id);
    }
  }

  /** What is pasted becomes its copy, and nothing else becomes anything. */
  lemma BecomesIff(p: Payload, names: Names, d: Document, id: RecordId, copy: RecordId)
    requires NamesFor(names, p, d)
    ensures Becomes(p, names, id, copy) <==> Pasted(names, id) && copy == CopyOf(names, id)
  {
    hide NamesFor, HasNode, Whole;
    match id
    case NodeRecord(n) => NodeIsNamed(p, names, d, n);
    case ShapeRecord(s) => ShapeIsNamed(p, names, d, s);
    case EdgeRecord(e) => EdgeIsNamed(p, names, d, e);
  }

  /** The outcome of a paste, as `PasteTheorems.PasteApplies` gives it. */
  ghost predicate Pastes(p: Payload, names: Names, d: Document, offset: Point, y: Document) {
    && NamesFor(names, p, d) && Pasteable(p) && Sound(d)
    && ApplyAll(d, PasteCommands(p, names, offset)) == Ok(y)
  }

  lemma Joined(p: Payload, names: Names, d: Document, offset: Point, y: Document)
    requires Pastes(p, names, d, offset, y)
    ensures RecordsJoined(y, d, CopiedNodes(p, names, offset), CopiedShapes(p, names, offset), CopiedEdges(p, names))
    ensures RelationsJoined(y.relations, d.relations, CopiedRelations(p, names))
  {
    hide NamesFor, Pasteable, Sound, ApplyAll, PasteCommands, RecordsJoined, RelationsJoined;
    var z := PasteApplies(p, names, d, offset);
  }

  lemma NodeIsCopied(p: Payload, names: Names, d: Document, offset: Point, y: Document, n: Node)
    requires NamesFor(names, p, d) && Pasteable(p) && n in p.nodes
    requires RecordsJoined(y, d, CopiedNodes(p, names, offset), CopiedShapes(p, names, offset), CopiedEdges(p, names))
    ensures n.id.name in names.nodes
    ensures y.nodes.Get(NodeCopy(names, offset)(n).id) == Some(NodeCopy(names, offset)(n))
    ensures !d.nodes.Has(NodeCopy(names, offset)(n).id)
  {
    hide NamesFor, Pasteable, CopiedNodes, CopiedShapes, CopiedEdges, Unique, Lookup;
    var copy := NodeCopy(names, offset)(n);
    CopiedNodesInsert(p, names, d, offset);
    CopiedRecordsAvoid(p, names, d, offset);
    CopiedNodeIn(p, names, offset, n);
    LookupMember(CopiedNodes(p, names, offset), NodeKey, copy);
    NodeIsNamed(p, names, d, n.id);
  }

  lemma NodesJoined(p: Payload, names: Names, d: Document, offset: Point, y: Document, k: NodeId)
    requires NamesFor(names, p, d)
    requires RecordsJoined(y, d, CopiedNodes(p, names, offset), CopiedShapes(p, names, offset), CopiedEdges(p, names))
    ensures k in d.nodes.entries ==> y.nodes.Get(k) == Some(d.nodes.entries[k])
    ensures k in y.nodes.entries ==>
              k in d.nodes.entries || exists n :: n in p.nodes && Named(names.nodes, n.id.name, k.name)
  {
    hide NamesFor, CopiedNodes, CopiedShapes, CopiedEdges;
    CopiedRecordsAvoid(p, names, d, offset);
    if k in y.nodes.entries && k !in d.nodes.entries {
      assert y.nodes.Get(k) == Lookup(CopiedNodes(p, names, offset), NodeKey, k);
      hide Lookup;
      var n := CopiedNodeFrom(p, names, offset, y.nodes.entries[k]);
      NodeIsNamed(p, names, d, n.id);
    }
  }

  /**
   * Each node of the payload has a copy in the document: under its new name, moved by the offset, and
   * otherwise the same.  The document's own nodes are untouched, and there are no others.
   */
  lemma PastedNodes(p: Payload, names: Names, d: Document, offset: Point, y: Document)
    requires Pastes(p, names, d, offset, y)
    ensures forall n :: n in p.nodes ==>
              && n.id.name in names.nodes
              && var k := NodeId(names.nodes[n.id.name]);
                 && k !in d.nodes.entries && k in y.nodes.entries
                 && var copy := y.nodes.entries[k];
                    && copy.id == k
                    && ShiftedBy(n.position, copy.position, offset)
                    && copy.(id := n.id, position := n.position) == n
    ensures forall k :: k in d.nodes.entries ==> k in y.nodes.entries && y.nodes.entries[k] == d.nodes.entries[k]
    ensures forall k :: k in y.nodes.entries ==>
              k in d.nodes.entries || exists n :: n in p.nodes && Named(names.nodes, n.id.name, k.name)
  {
    hide NamesFor, Pasteable, Sound, ApplyAll, PasteCommands, RecordsJoined, RelationsJoined;
    Joined(p, names, d, offset, y);
    forall n | n in p.nodes
      ensures n.id.name in names.nodes
      ensures y.nodes.Get(NodeCopy(names, offset)(n).id) == Some(NodeCopy(names, offset)(n))
      ensures !d.nodes.Has(NodeCopy(names, offset)(n).id)
    {
      NodeIsCopied(p, names, d, offset, y, n);
    }
    forall k
      ensures k in d.nodes.entries ==> y.nodes.Get(k) == Some(d.nodes.entries[k])
      ensures k in y.nodes.entries ==>
                k in d.nodes.entries || exists n :: n in p.nodes && Named(names.nodes, n.id.name, k.name)
    {
      NodesJoined(p, names, d, offset, y, k);
    }
  }

  lemma CopiedNodeIn(p: Payload, names: Names, offset: Point, n: Node)
    requires n in p.nodes
    ensures NodeCopy(names, offset)(n) in CopiedNodes(p, names, offset)
  {
    MapElement(NodeCopy(names, offset), p.nodes, n);
  }

  lemma CopiedNodeFrom(p: Payload, names: Names, offset: Point, copy: Node) returns (n: Node)
    requires copy in CopiedNodes(p, names, offset)
    ensures n in p.nodes && copy == NodeCopy(names, offset)(n)
  {
    n := MapSource(NodeCopy(names, offset), p.nodes, copy);
  }

  lemma ShapeIsCopied(p: Payload, names: Names, d: Document, offset: Point, y: Document, s: Shape)
    requires NamesFor(names, p, d) && Pasteable(p) && s in p.shapes
    requires RecordsJoined(y, d, CopiedNodes(p, names, offset), CopiedShapes(p, names, offset), CopiedEdges(p, names))
    ensures s.id.name in names.shapes
    ensures y.shapes.Get(ShapeCopy(names, offset)(s).id) == Some(ShapeCopy(names, offset)(s))
    ensures !d.shapes.Has(ShapeCopy(names, offset)(s).id)
  {
    hide NamesFor, Pasteable, CopiedNodes, CopiedShapes, CopiedEdges, Unique, Lookup;
    var copy := ShapeCopy(names, offset)(s);
    CopiedShapesInsert(p, names, d, offset);
    CopiedRecordsAvoid(p, names, d, offset);
    CopiedShapeIn(p, names, offset, s);
    LookupMember(CopiedShapes(p, names, offset), ShapeKey, copy);
    ShapeIsNamed(p, names, d, s.id);
  }

  lemma ShapesJoined(p: Payload, names: Names, d: Document, offset: Point, y: Document, k: ShapeId)
    requires NamesFor(names, p, d)
    requires RecordsJoined(y, d, CopiedNodes(p, names, offset), CopiedShapes(p, names, offset), CopiedEdges(p, names))
    ensures k in d.shapes.entries ==> y.shapes.Get(k) == Some(d.shapes.entries[k])
    ensures k in y.shapes.entries ==>
              k in d.shapes.entries || exists s :: s in p.shapes && Named(names.shapes, s.id.name, k.name)
  {
    hide NamesFor, CopiedNodes, CopiedShapes, CopiedEdges;
    CopiedRecordsAvoid(p, names, d, offset);
    if k in y.shapes.entries && k !in d.shapes.entries {
      assert y.shapes.Get(k) == Lookup(CopiedShapes(p, names, offset), ShapeKey, k);
      hide Lookup;
      var s := CopiedShapeFrom(p, names, offset, y.shapes.entries[k]);
      ShapeIsNamed(p, names, d, s.id);
    }
  }

  /** The same for shapes: moved by the offset, with their size. */
  lemma PastedShapes(p: Payload, names: Names, d: Document, offset: Point, y: Document)
    requires Pastes(p, names, d, offset, y)
    ensures forall s :: s in p.shapes ==>
              && s.id.name in names.shapes
              && var k := ShapeId(names.shapes[s.id.name]);
                 && k !in d.shapes.entries && k in y.shapes.entries
                 && var copy := y.shapes.entries[k];
                    && copy.id == k
                    && ShiftedBy(s.bounds.origin, copy.bounds.origin, offset) && copy.bounds.size == s.bounds.size
                    && copy.(id := s.id, bounds := s.bounds) == s
    ensures forall k :: k in d.shapes.entries ==> k in y.shapes.entries && y.shapes.entries[k] == d.shapes.entries[k]
    ensures forall k :: k in y.shapes.entries ==>
              k in d.shapes.entries || exists s :: s in p.shapes && Named(names.shapes, s.id.name, k.name)
  {
    hide NamesFor, Pasteable, Sound, ApplyAll, PasteCommands, RecordsJoined, RelationsJoined;
    Joined(p, names, d, offset, y);
    forall s | s in p.shapes
      ensures s.id.name in names.shapes
      ensures y.shapes.Get(ShapeCopy(names, offset)(s).id) == Some(ShapeCopy(names, offset)(s))
      ensures !d.shapes.Has(ShapeCopy(names, offset)(s).id)
    {
      ShapeIsCopied(p, names, d, offset, y, s);
    }
    forall k
      ensures k in d.shapes.entries ==> y.shapes.Get(k) == Some(d.shapes.entries[k])
      ensures k in y.shapes.entries ==>
                k in d.shapes.entries || exists s :: s in p.shapes && Named(names.shapes, s.id.name, k.name)
    {
      ShapesJoined(p, names, d, offset, y, k);
    }
  }

  lemma CopiedShapeIn(p: Payload, names: Names, offset: Point, s: Shape)
    requires s in p.shapes
    ensures ShapeCopy(names, offset)(s) in CopiedShapes(p, names, offset)
  {
    MapElement(ShapeCopy(names, offset), p.shapes, s);
  }

  lemma CopiedShapeFrom(p: Payload, names: Names, offset: Point, copy: Shape) returns (s: Shape)
    requires copy in CopiedShapes(p, names, offset)
    ensures s in p.shapes && copy == ShapeCopy(names, offset)(s)
  {
    s := MapSource(ShapeCopy(names, offset), p.shapes, copy);
  }

  lemma EdgeIsCopied(p: Payload, names: Names, d: Document, offset: Point, y: Document, e: Edge)
    requires NamesFor(names, p, d) && Pasteable(p) && Whole(p, e)
    requires RecordsJoined(y, d, CopiedNodes(p, names, offset), CopiedShapes(p, names, offset), CopiedEdges(p, names))
    ensures e.id.name in names.edges && e.source.node.name in names.nodes && e.target.node.name in names.nodes
    ensures y.edges.Get(EdgeCopy(names)(e).id) == Some(EdgeCopy(names)(e))
    ensures !d.edges.Has(EdgeCopy(names)(e).id)
  {
    hide NamesFor, Pasteable, CopiedNodes, CopiedShapes, CopiedEdges, Unique, Lookup, Whole;
    var copy := EdgeCopy(names)(e);
    CopiedEdgesUnique(p, names, d);
    CopiedEdgesAvoid(p, names, d);
    CopiedEdgeIn(p, names, d, e);
    assert Avoids(InsertEdge(copy), d);
    LookupMember(CopiedEdges(p, names), EdgeKey, copy);
  }

  lemma EdgesJoined(p: Payload, names: Names, d: Document, offset: Point, y: Document, k: EdgeId)
    requires NamesFor(names, p, d)
    requires RecordsJoined(y, d, CopiedNodes(p, names, offset), CopiedShapes(p, names, offset), CopiedEdges(p, names))
    ensures k in d.edges.entries ==> y.edges.Get(k) == Some(d.edges.entries[k])
    ensures k in y.edges.entries ==>
              k in d.edges.entries || exists e :: Whole(p, e) && Named(names.edges, e.id.name, k.name)
  {
    hide NamesFor, CopiedNodes, CopiedShapes, CopiedEdges, Whole;
    CopiedEdgesAvoid(p, names, d);
    forall e | e in CopiedEdges(p, names) ensures !d.edges.Has(e.id) {
      assert Avoids(InsertEdge(e), d);
    }
    if k in y.edges.entries && k !in d.edges.entries {
      assert y.edges.Get(k) == Lookup(CopiedEdges(p, names), EdgeKey, k);
      hide Lookup;
      var e := CopiedEdgeFrom(p, names, d, y.edges.entries[k]);
      CopiedEdgeIn(p, names, d, e);
    }
  }

  /** An edge with both its nodes in the payload is copied between the copies of these, at the same handles. */
  lemma PastedEdges(p: Payload, names: Names, d: Document, offset: Point, y: Document)
    requires Pastes(p, names, d, offset, y)
    ensures forall e :: Whole(p, e) ==>
              && e.id.name in names.edges && e.source.node.name in names.nodes && e.target.node.name in names.nodes
              && var k := EdgeId(names.edges[e.id.name]);
                 && k !in d.edges.entries && k in y.edges.entries
                 && var copy := y.edges.entries[k];
                    && copy.id == k
                    && copy.source == Endpoint(NodeId(names.nodes[e.source.node.name]), e.source.handle)
                    && copy.target == Endpoint(NodeId(names.nodes[e.target.node.name]), e.target.handle)
                    && copy.(id := e.id, source := e.source, target := e.target) == e
    ensures forall k :: k in d.edges.entries ==> k in y.edges.entries && y.edges.entries[k] == d.edges.entries[k]
    ensures forall k :: k in y.edges.entries ==>
              k in d.edges.entries || exists e :: Whole(p, e) && Named(names.edges, e.id.name, k.name)
  {
    hide NamesFor, Pasteable, Sound, ApplyAll, PasteCommands, RecordsJoined, RelationsJoined, Whole;
    Joined(p, names, d, offset, y);
    forall e | Whole(p, e)
      ensures e.id.name in names.edges && e.source.node.name in names.nodes && e.target.node.name in names.nodes
      ensures y.edges.Get(EdgeCopy(names)(e).id) == Some(EdgeCopy(names)(e))
      ensures !d.edges.Has(EdgeCopy(names)(e).id)
    {
      EdgeIsCopied(p, names, d, offset, y, e);
    }
    forall k
      ensures k in d.edges.entries ==> y.edges.Get(k) == Some(d.edges.entries[k])
      ensures k in y.edges.entries ==>
                k in d.edges.entries || exists e :: Whole(p, e) && Named(names.edges, e.id.name, k.name)
    {
      EdgesJoined(p, names, d, offset, y, k);
    }
  }

  lemma CopiedEdgeIn(p: Payload, names: Names, d: Document, e: Edge)
    requires NamesFor(names, p, d) && Whole(p, e)
    ensures EdgeCopy(names)(e) in CopiedEdges(p, names)
    ensures e.id.name in names.edges && e.source.node.name in names.nodes && e.target.node.name in names.nodes
  {
    hide FreshNames, Filter, HasNode;
    WholeIsAttached(p, names, d, e);
    NodeIsNamed(p, names, d, e.source.node);
    NodeIsNamed(p, names, d, e.target.node);
    EdgeIsNamed(p, names, d, e.id);
    MapElement(EdgeCopy(names), Filter(p.edges, Attached(names.nodes)), e);
  }

  lemma CopiedEdgeFrom(p: Payload, names: Names, d: Document, copy: Edge) returns (e: Edge)
    requires NamesFor(names, p, d) && copy in CopiedEdges(p, names)
    ensures Whole(p, e) && copy == EdgeCopy(names)(e)
  {
    hide NamesFor, Whole;
    e := CopiedEdgeSource(p, names, d, copy);
    WholeIsAttached(p, names, d, e);
  }

  /** Parents and memberships are copied exactly when both records are, and bindings with their kind. */
  lemma PastedRelations(p: Payload, names: Names, d: Document, offset: Point, y: Document)
    requires Pastes(p, names, d, offset, y)
    ensures forall q :: q in y.relations.parents <==>
                        q in d.relations.parents ||
                        exists r :: r in p.relations.parents && Becomes(p, names, r.child, q.child) &&
                                    Becomes(p, names, r.parent, q.parent)
    ensures forall g :: g in y.relations.groups <==>
                        g in d.relations.groups ||
                        exists r :: r in p.relations.groups && Becomes(p, names, r.group, g.group) &&
                                    Becomes(p, names, r.member, g.member)
    ensures forall b :: b in y.relations.bindings <==>
                        b in d.relations.bindings || exists r :: r in p.relations.bindings && Rebound(p, names, r, b)
  {
    hide NamesFor, Pasteable, Sound, ApplyAll, PasteCommands, CopiedRelations, Becomes, Rebound;
    Joined(p, names, d, offset, y);
    hide RecordsJoined;
    var copies := CopiedRelations(p, names);
    forall q ensures q in copies.parents <==>
                     exists r :: r in p.relations.parents && Becomes(p, names, r.child, q.child) &&
                                 Becomes(p, names, r.parent, q.parent)
    {
      CopiedParentIff(p, names, d, q);
    }
    forall g ensures g in copies.groups <==>
                     exists r :: r in p.relations.groups && Becomes(p, names, r.group, g.group) &&
                                 Becomes(p, names, r.member, g.member)
    {
      CopiedGroupIff(p, names, d, g);
    }
    forall b ensures b in copies.bindings <==> exists r :: r in p.relations.bindings && Rebound(p, names, r, b) {
      CopiedBindingIff(p, names, d, b);
    }
  }

  ghost predicate Rebound(p: Payload, names: Names, b: BindingRelation, copy: BindingRelation) {
    && Becomes(p, names, b.source, copy.source) && Becomes(p, names, b.target, copy.target)
    && Named(names.bindings, b.id.name, copy.id.name) && copy.kind == b.kind
  }

  lemma CopiedParentIff(p: Payload, names: Names, d: Document, q: ParentRelation)
    requires NamesFor(names, p, d)
    ensures q in CopiedRelations(p, names).parents <==>
            exists r :: r in p.relations.parents && Becomes(p, names, r.child, q.child) &&
                        Becomes(p, names, r.parent, q.parent)
  {
    hide NamesFor, Becomes, Pasted, CopyOf, Map, Filter;
    var kept := Prune(p.relations, IsPasted(names));
    PruneFacts(p.relations, IsPasted(names));
    if q in CopiedRelations(p, names).parents {
      var r := MapSource(ParentCopy(names), kept.parents, q);
      BecomesIff(p, names, d, r.child, q.child);
      BecomesIff(p, names, d, r.parent, q.parent);
    }
    if r :| r in p.relations.parents && Becomes(p, names, r.child, q.child) && Becomes(p, names, r.parent, q.parent) {
      BecomesIff(p, names, d, r.child, q.child);
      BecomesIff(p, names, d, r.parent, q.parent);
      MapElement(ParentCopy(names), kept.parents, r);
      assert ParentCopy(names)(r) == q;
    }
  }

  lemma CopiedGroupIff(p: Payload, names: Names, d: Document, g: GroupRelation)
    requires NamesFor(names, p, d)
    ensures g in CopiedRelations(p, names).groups <==>
            exists r :: r in p.relations.groups && Becomes(p, names, r.group, g.group) &&
                        Becomes(p, names, r.member, g.member)
  {
    hide NamesFor, Becomes, Pasted, CopyOf, Map, Filter;
    var kept := Prune(p.relations, IsPasted(names));
    PruneFacts(p.relations, IsPasted(names));
    if g in CopiedRelations(p, names).groups {
      var r := MapSource(GroupCopy(names), kept.groups, g);
      BecomesIff(p, names, d, r.group, g.group);
      BecomesIff(p, names, d, r.member, g.member);
    }
    if r :| r in p.relations.groups && Becomes(p, names, r.group, g.group) && Becomes(p, names, r.member, g.member) {
      BecomesIff(p, names, d, r.group, g.group);
      BecomesIff(p, names, d, r.member, g.member);
      MapElement(GroupCopy(names), kept.groups, r);
      assert GroupCopy(names)(r) == g;
    }
  }

  lemma BindingIsNamed(p: Payload, names: Names, d: Document, b: BindingRelation)
    requires NamesFor(names, p, d) && b in p.relations.bindings
    ensures b.id.name in names.bindings
  {
    hide FirstFree, Renaming;
    MapElement(BindingName, p.relations.bindings, b);
  }

  lemma CopiedBindingIff(p: Payload, names: Names, d: Document, b: BindingRelation)
    requires NamesFor(names, p, d)
    ensures b in CopiedRelations(p, names).bindings <==>
            exists r :: r in p.relations.bindings && Rebound(p, names, r, b)
  {
    hide NamesFor, Becomes, Pasted, CopyOf, Map, Filter;
    var kept := Prune(p.relations, IsPasted(names));
    PruneFacts(p.relations, IsPasted(names));
    if b in CopiedRelations(p, names).bindings {
      var r := MapSource(BindingCopy(names), kept.bindings, b);
      BecomesIff(p, names, d, r.source, b.source);
      BecomesIff(p, names, d, r.target, b.target);
      BindingIsNamed(p, names, d, r);
      assert Rebound(p, names, r, b);
    }
    if r :| r in p.relations.bindings && Rebound(p, names, r, b) {
      BecomesIff(p, names, d, r.source, b.source);
      BecomesIff(p, names, d, r.target, b.target);
      MapElement(BindingCopy(names), kept.bindings, r);
      assert BindingCopy(names)(r) == b;
    }
  }

  /** Everything in the selection was pasted. */
  ghost predicate SelectionPasted(p: Payload, names: Names, s: Selection) {
    && (forall id :: id in s.records ==> exists copy :: Becomes(p, names, id, copy))
    && (forall h :: h in s.handles ==> HasNode(p, h.node))
  }

  ghost predicate HandleBecomes(names: Names, h: Endpoint, copy: Endpoint) {
    copy.handle == h.handle && Named(names.nodes, h.node.name, copy.node.name)
  }

  /**
   * The selection after a paste: if something was selected and all of it was pasted, the copies of what
   * was selected, and otherwise everything pasted and no handle.
   */
  lemma PastedSelectionIs(p: Payload, names: Names, d: Document)
    requires NamesFor(names, p, d)
    ensures var after := PastedSelection(p, names, CopiedIds(p, names));
            if SelectionPasted(p, names, p.selection) && p.selection != Selection({}, {}) then
              && (forall copy :: copy in after.records <==>
                                 exists id :: id in p.selection.records && Becomes(p, names, id, copy))
              && (forall copy :: copy in after.handles <==>
                                 exists h :: h in p.selection.handles && HandleBecomes(names, h, copy))
            else
              && (forall copy :: copy in after.records <==> exists id :: Becomes(p, names, id, copy))
              && after.handles == {}
  {
    hide NamesFor, Pasted, CopyOf, Becomes, Filter, CopiedIds, HasNode;
    var s := p.selection;
    forall id, copy ensures Becomes(p, names, id, copy) <==> Pasted(names, id) && copy == CopyOf(names, id) {
      BecomesIff(p, names, d, id, copy);
    }
    forall id ensures (exists copy :: Becomes(p, names, id, copy)) <==> Pasted(names, id) {
      assert Pasted(names, id) ==> Becomes(p, names, id, CopyOf(names, id));
    }
    forall h: Endpoint ensures HasNode(p, h.node) <==> h.node.name in names.nodes {
      NodeIsNamed(p, names, d, h.node);
    }
    forall copy ensures copy in CopiedIds(p, names) <==> exists id :: Becomes(p, names, id, copy) {
      CopiedIdsAre(p, names, d, copy);
    }
    SelectionCases(p, names);
  }

  lemma CopiedIdsAre(p: Payload, names: Names, d: Document, copy: RecordId)
    requires NamesFor(names, p, d)
    ensures copy in CopiedIds(p, names) <==> exists id :: Becomes(p, names, id, copy)
  {
    hide NamesFor, Becomes;
    if copy in CopiedIds(p, names) {
      CopiedIdsArePasted(p, names, d, copy);
      var id :| Pasted(names, id) && CopyOf(names, id) == copy;
      BecomesIff(p, names, d, id, copy);
    }
    if id :| Becomes(p, names, id, copy) {
      BecomesIff(p, names, d, id, copy);
      PastedIsCopied(p, names, d, id);
    }
  }

  lemma PastedIsCopied(p: Payload, names: Names, d: Document, id: RecordId)
    requires NamesFor(names, p, d) && Pasted(names, id)
    ensures CopyOf(names, id) in CopiedIds(p, names)
  {
    hide FirstFree, Renaming, Filter;
    match id
    case NodeRecord(n) =>
      var x := MapSource(NodeName, p.nodes, n.name);
      assert NodeId(x.id.name) == x.id && CopyOf(names, NodeRecord(x.id)) in CopiedIds(p, names);
    case ShapeRecord(s) =>
      var x := MapSource(ShapeName, p.shapes, s.name);
      assert ShapeId(x.id.name) == x.id && CopyOf(names, ShapeRecord(x.id)) in CopiedIds(p, names);
    case EdgeRecord(e) =>
      var es := Filter(p.edges, Attached(names.nodes));
      var x := MapSource(EdgeName, es, e.name);
      assert EdgeId(x.id.name) == x.id && CopyOf(names, EdgeRecord(x.id)) in EdgeCopyIds(es, names);
  }

  lemma SelectionCases(p: Payload, names: Names)
    ensures var after := PastedSelection(p, names, CopiedIds(p, names));
            var s := p.selection;
            var all := (forall id :: id in s.records ==> Pasted(names, id)) &&
                       (forall h :: h in s.handles ==> h.node.name in names.nodes);
            if all && s != Selection({}, {}) then
              && (forall copy :: copy in after.records <==> exists id :: id in s.records && copy == CopyOf(names, id))
              && (forall copy :: copy in after.handles <==>
                                 exists h :: h in s.handles && HandleBecomes(names, h, copy))
            else after == Selection(CopiedIds(p, names), {})
  {
    hide Pasted, CopyOf, CopiedIds;
    var s := p.selection;
    if (forall id :: id in s.records ==> Pasted(names, id)) &&
       (forall h :: h in s.handles ==> h.node.name in names.nodes)
    {
      var renamed := RemapSelection(s, names).value;
      forall h, copy | h in s.handles ensures HandleBecomes(names, h, copy) <==> copy == EndpointCopy(names, h) {
      }
      assert forall id :: id in s.records ==> CopyOf(names, id) in renamed.records;
      assert forall h :: h in s.handles ==> EndpointCopy(names, h) in renamed.handles;
      hide EndpointCopy, HandleBecomes;
    }
  }
}
