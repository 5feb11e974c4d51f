/** The inverse of every command and of a transaction, and what applying it gives back. */
module Mutations {
  import opened Prelude
  import opened KeyedLists
  import opened IndexMaps
  import opened Records
  import opened RelationSets
  import opened RelationValidation
  import opened Commands
  import opened RelationReplay

  // Inverting one command.

  function EdgeKey(e: Edge): EdgeId { e.id }
  function NodeKey(n: Node): NodeId { n.id }
  function ShapeKey(s: Shape): ShapeId { s.id }

  function InsertEdgeCommand(e: Edge): Command { InsertEdge(e) }

  /** The edges at a node, in document order. */
  function EdgesAt(d: Document, keys: seq<EdgeId>, n: NodeId): seq<Edge> {
    if keys == [] then []
    else
      (if keys[0] in d.edges.entries && Touches(d.edges.entries[keys[0]], n) then [d.edges.entries[keys[0]]] else []) +
      EdgesAt(d, keys[1..], n)
  }

  function InverseFor(d: Document, c: Command): Result<seq<Command>, DocumentError> {
    match c
    case InsertNode(node) =>
      if d.nodes.Has(node.id) then Err(DuplicateNode(node.id))
      else
        var _ :- ValidateNode(node);
        Ok([RemoveNode(node.id)])
    case UpdateNode(node) =>
      if !d.nodes.Has(node.id) then Err(MissingNode(node.id)) else Ok([UpdateNode(d.nodes.entries[node.id])])
    case RemoveNode(id) =>
      if !d.nodes.Has(id) then Err(MissingNode(id))
      else Ok([InsertNode(d.nodes.entries[id])] + Map(InsertEdgeCommand, EdgesAt(d, d.edges.keys, id)))
    case InsertEdge(edge) =>
      if d.edges.Has(edge.id) then Err(DuplicateEdge(edge.id))
      else
        var _ :- ValidateEdge(d.nodes.entries, edge);
        Ok([RemoveEdge(edge.id)])
    case UpdateEdge(edge) =>
      if !d.edges.Has(edge.id) then Err(MissingEdge(edge.id)) else Ok([UpdateEdge(d.edges.entries[edge.id])])
    case RemoveEdge(id) =>
      if !d.edges.Has(id) then Err(MissingEdge(id)) else Ok([InsertEdge(d.edges.entries[id])])
    case InsertShape(shape) =>
      if d.shapes.Has(shape.id) then Err(DuplicateShape(shape.id)) else Ok([RemoveShape(shape.id)])
    case UpdateShape(shape) =>
      if !d.shapes.Has(shape.id) then Err(MissingShape(shape.id)) else Ok([UpdateShape(d.shapes.entries[shape.id])])
    case RemoveShape(id) =>
      if !d.shapes.Has(id) then Err(MissingShape(id)) else Ok([InsertShape(d.shapes.entries[id])])
    case SetRecordParent(child, parent) =>
      if child == parent then Err(SelfParentRelation(child))
      else
        var _ :- CheckRecord(d, child);
        var _ :- CheckRecord(d, parent);
        (match ParentOf(d.relations, child) case Some(previous) => Ok([SetRecordParent(child, previous)])
          case None => Ok([ClearRecordParent(child)]))
    case ClearRecordParent(child) =>
      var _ :- CheckRecord(d, child);
      (match ParentOf(d.relations, child) case Some(previous) => Ok([SetRecordParent(child, previous)])
        case None => Ok([]))
    case AddRecordToGroup(group, member) =>
      if group == member then Err(SelfParentRelation(group))
      else
        var _ :- CheckRecord(d, group);
        var _ :- CheckRecord(d, member);
        Ok(if HasMember(d.relations, group, member) then [] else [RemoveRecordFromGroup(group, member)])
    case RemoveRecordFromGroup(group, member) =>
      var _ :- CheckRecord(d, group);
      var _ :- CheckRecord(d, member);
      Ok(if HasMember(d.relations, group, member) then [AddRecordToGroup(group, member)] else [])
    case SetRecordBinding(b) =>
      if b.source == b.target then Err(SelfBindingRelation(b.source))
      else
        var _ :- CheckRecord(d, b.source);
        var _ :- CheckRecord(d, b.target);
        (match BindingOf(d.relations, b.id) case Some(previous) => Ok([SetRecordBinding(previous)])
          case None => Ok([RemoveRecordBinding(b.id)]))
    case RemoveRecordBinding(id) =>
      (match BindingOf(d.relations, id) case Some(previous) => Ok([SetRecordBinding(previous)]) case None => Ok([]))
  }

  /** The inverse of each command, last command first. */
  function Invert(d: Document, cs: seq<Command>): Result<seq<Command>, DocumentError>
    decreases cs
  {
    if cs == [] then Ok([])
    else
      var first :- InverseFor(d, cs[0]);
      var next :- Apply(d, cs[0]);
      var rest :- Invert(next, cs[1..]);
      Ok(rest + first)
  }

  // The inverse restores the records.

  lemma {:induction false} EdgesAtLookup(d: Document, keys: seq<EdgeId>, n: NodeId, e: EdgeId)
    requires d.Filed() && Distinct(keys)
    ensures Lookup(EdgesAt(d, keys, n), EdgeKey, e) ==
            if e in keys && e in d.edges.entries && Touches(d.edges.entries[e], n) then Some(d.edges.entries[e])
              else None
  {
    if keys != [] {
      EdgesAtLookup(d, keys[1..], n, e);
      var tail := EdgesAt(d, keys[1..], n);
      var k := keys[0];
      assert e in keys <==> e == k || e in keys[1..];
      if k in d.edges.entries && Touches(d.edges.entries[k], n) {
        assert EdgesAt(d, keys, n)[1..] == tail;
      } else {
        assert EdgesAt(d, keys, n) == tail;
      }
    }
  }

  lemma {:induction false} InsertEdgesEffect(x: Document, edges: seq<Edge>)
    requires ApplyAll(x, Map(InsertEdgeCommand, edges)).Ok?
    ensures var y := ApplyAll(x, Map(InsertEdgeCommand, edges)).value;
            && y.nodes == x.nodes && y.shapes == x.shapes
            && forall e :: y.edges.Get(e) == if Lookup(edges, EdgeKey, e).Some? then Lookup(edges, EdgeKey, e)
               else x.edges.Get(e)
    decreases edges
  {
    if edges != [] {
      FirstCommand(x, InsertEdgeCommand, edges);
      var next := Apply(x, InsertEdge(edges[0])).value;
      InsertEdgesEffect(next, edges[1..]);
      var y := ApplyAll(x, Map(InsertEdgeCommand, edges)).value;
      forall e
        ensures y.edges.Get(e) == if Lookup(edges, EdgeKey, e).Some? then Lookup(edges, EdgeKey, e)
        else x.edges.Get(e)
      {
        if e == edges[0].id {
          InsertOnce(next, edges[1..], e);
        }
      }
    }
  }

  ghost predicate Insertable(x: Document, e: Edge) {
    !x.edges.Has(e.id) && ValidateEdge(x.nodes.entries, e).Ok?
  }

  lemma InsertFirstEdge(x: Document, es: seq<Edge>, next: Document)
    requires es != [] && next == x.(edges := x.edges.Insert(es[0].id, es[0]))
    ensures Insertable(x, es[0]) ==>
            ApplyAll(x, Map(InsertEdgeCommand, es)) == ApplyAll(next, Map(InsertEdgeCommand, es[1..]))
    ensures !Insertable(x, es[0]) ==> ApplyAll(x, Map(InsertEdgeCommand, es)).Err?
  {
    hide ValidateEdge;
    FirstCommand(x, InsertEdgeCommand, es);
  }

  lemma {:induction false} InsertEdgesIff(x: Document, es: seq<Edge>)
    ensures ApplyAll(x, Map(InsertEdgeCommand, es)).Ok? <==>
            Unique(es, EdgeKey) && forall e :: e in es ==> Insertable(x, e)
    decreases es
  {
    if es != [] {
      hide ApplyAll, Map, Insertable, Unique;
      var next := x.(edges := x.edges.Insert(es[0].id, es[0]));
      InsertFirstEdge(x, es, next);
      InsertEdgesIff(next, es[1..]);
      UniqueSplit(es, EdgeKey);
      assert es == [es[0]] + es[1..];
      InsertableAfter(x, next, es[0]);
    }
  }

  lemma InsertableAfter(x: Document, next: Document, first: Edge)
    requires next == x.(edges := x.edges.Insert(first.id, first))
    ensures forall e :: Insertable(next, e) <==> Insertable(x, e) && e.id != first.id
  {
    hide ValidateEdge;
  }

  /** Edges are only ever inserted where there was none. */
  lemma {:induction false} InsertOnce(x: Document, edges: seq<Edge>, e: EdgeId)
    requires ApplyAll(x, Map(InsertEdgeCommand, edges)).Ok? && x.edges.Has(e)
    ensures Lookup(edges, EdgeKey, e).None?
    decreases edges
  {
    if edges != [] {
      FirstCommand(x, InsertEdgeCommand, edges);
      InsertOnce(Apply(x, InsertEdge(edges[0])).value, edges[1..], e);
    }
  }

  lemma ApplyNothing(x: Document)
    ensures ApplyAll(x, []) == Ok(x)
  {
  }

  lemma SingleCommand(x: Document, c: Command)
    ensures ApplyAll(x, [c]) == Apply(x, c)
  {
    assert [c][1..] == [];
    if Apply(x, c).Ok? {
      assert ApplyAll(Apply(x, c).value, []) == Apply(x, c);
    }
  }

  lemma RemoveNodeUndone(d: Document, id: NodeId, x: Document)
    requires RecordsSound(d) && id in d.nodes.entries
    requires x.SameRecords(Apply(d, RemoveNode(id)).value)
    requires ApplyAll(x, InverseFor(d, RemoveNode(id)).value).Ok?
    ensures ApplyAll(x, InverseFor(d, RemoveNode(id)).value).value.SameRecords(d)
  {
    hide ApplyAll, ValidateNode, ValidateEdge, ValidateIntegrity, EdgesAt, Map;
    var node, edges := d.nodes.entries[id], EdgesAt(d, d.edges.keys, id);
    ApplyConcat(x, [InsertNode(node)], Map(InsertEdgeCommand, edges));
    SingleCommand(x, InsertNode(node));
    var next := Apply(x, InsertNode(node)).value;
    InsertEdgesEffect(next, edges);
    var y := ApplyAll(next, Map(InsertEdgeCommand, edges)).value;
    assert y.nodes.entries == d.nodes.entries;
    forall e ensures y.edges.Get(e) == d.edges.Get(e) {
      EdgesAtLookup(d, d.edges.keys, id, e);
    }
    SameEntries(y.edges, d.edges);
  }

  lemma InsertNodeUndone(d: Document, node: Node, x: Document)
    requires RecordsSound(d) && Apply(d, InsertNode(node)).Ok? && x.SameRecords(Apply(d, InsertNode(node)).value)
    requires ApplyAll(x, [RemoveNode(node.id)]).Ok?
    ensures ApplyAll(x, [RemoveNode(node.id)]).value.SameRecords(d)
  {
    hide RecordsSound, ApplyAll, ValidateNode, ValidateIntegrity, ValidateEdge;
    NoEdgeAtNewNode(d, node.id);
    SingleCommand(x, RemoveNode(node.id));
    var y := Apply(x, RemoveNode(node.id)).value;
    assert y.edges.entries == d.edges.entries;
    assert y.nodes.entries == d.nodes.entries[node.id := node] - {node.id} == d.nodes.entries;
  }

  lemma NoEdgeAtNewNode(d: Document, n: NodeId)
    requires RecordsSound(d) && n !in d.nodes.entries
    ensures forall e :: e in d.edges.entries ==> !Touches(d.edges.entries[e], n)
  {
    SoundIsClosed(d);
  }

  lemma UpdateNodeUndone(d: Document, c: Command, x: Document)
    requires d.Filed() && Apply(d, c).Ok? && InverseFor(d, c).Ok? && x.SameRecords(Apply(d, c).value)
    requires c.UpdateNode?
    requires ApplyAll(x, InverseFor(d, c).value).Ok?
    ensures ApplyAll(x, InverseFor(d, c).value).value.SameRecords(d)
  {
    hide ApplyAll, ValidateIntegrity, ValidateEdge, ValidateNode, CheckRecord;
    var inverse := InverseFor(d, c).value;
    SingleCommand(x, inverse[0]);
    var y := Apply(x, inverse[0]).value;
    assert y.nodes.entries == d.nodes.entries;
    assert y.edges.entries == d.edges.entries;
    assert y.shapes.entries == d.shapes.entries;
  }

  lemma InsertEdgeUndone(d: Document, edge: Edge, x: Document)
    requires Apply(d, InsertEdge(edge)).Ok? && x.SameRecords(Apply(d, InsertEdge(edge)).value)
    requires ApplyAll(x, [RemoveEdge(edge.id)]).Ok?
    ensures ApplyAll(x, [RemoveEdge(edge.id)]).value.SameRecords(d)
  {
    hide ApplyAll, ValidateIntegrity, ValidateEdge, ValidateNode;
    SingleCommand(x, RemoveEdge(edge.id));
    assert d.edges.entries[edge.id := edge] - {edge.id} == d.edges.entries;
  }

  lemma UpdateEdgeUndone(d: Document, edge: Edge, x: Document)
    requires d.Filed() && d.edges.Has(edge.id) && Apply(d, UpdateEdge(edge)).Ok? &&
             x.SameRecords(Apply(d, UpdateEdge(edge)).value)
    requires ApplyAll(x, [UpdateEdge(d.edges.entries[edge.id])]).Ok?
    ensures ApplyAll(x, [UpdateEdge(d.edges.entries[edge.id])]).value.SameRecords(d)
  {
    hide ApplyAll, ValidateIntegrity, ValidateEdge, ValidateNode;
    SingleCommand(x, UpdateEdge(d.edges.entries[edge.id]));
    assert d.edges.entries[edge.id := edge][edge.id := d.edges.entries[edge.id]] == d.edges.entries;
  }

  lemma RemoveEdgeUndone(d: Document, id: EdgeId, x: Document)
    requires d.Filed() && d.edges.Has(id) && Apply(d, RemoveEdge(id)).Ok? &&
             x.SameRecords(Apply(d, RemoveEdge(id)).value)
    requires ApplyAll(x, [InsertEdge(d.edges.entries[id])]).Ok?
    ensures ApplyAll(x, [InsertEdge(d.edges.entries[id])]).value.SameRecords(d)
  {
    hide ApplyAll, ValidateIntegrity, ValidateEdge, ValidateNode;
    SingleCommand(x, InsertEdge(d.edges.entries[id]));
    assert (d.edges.entries - {id})[id := d.edges.entries[id]] == d.edges.entries;
  }

  lemma InsertShapeUndone(d: Document, shape: Shape, x: Document)
    requires Apply(d, InsertShape(shape)).Ok? && x.SameRecords(Apply(d, InsertShape(shape)).value)
    requires ApplyAll(x, [RemoveShape(shape.id)]).Ok?
    ensures ApplyAll(x, [RemoveShape(shape.id)]).value.SameRecords(d)
  {
    hide ApplyAll, ValidateIntegrity, ValidateEdge, ValidateNode;
    SingleCommand(x, RemoveShape(shape.id));
    assert d.shapes.entries[shape.id := shape] - {shape.id} == d.shapes.entries;
  }

  lemma UpdateShapeUndone(d: Document, shape: Shape, x: Document)
    requires d.Filed() && d.shapes.Has(shape.id) && Apply(d, UpdateShape(shape)).Ok? &&
             x.SameRecords(Apply(d, UpdateShape(shape)).value)
    requires ApplyAll(x, [UpdateShape(d.shapes.entries[shape.id])]).Ok?
    ensures ApplyAll(x, [UpdateShape(d.shapes.entries[shape.id])]).value.SameRecords(d)
  {
    hide ApplyAll, ValidateIntegrity, ValidateEdge, ValidateNode;
    SingleCommand(x, UpdateShape(d.shapes.entries[shape.id]));
    assert d.shapes.entries[shape.id := shape][shape.id := d.shapes.entries[shape.id]] == d.shapes.entries;
  }

  lemma RemoveShapeUndone(d: Document, id: ShapeId, x: Document)
    requires d.Filed() && d.shapes.Has(id) && Apply(d, RemoveShape(id)).Ok? &&
             x.SameRecords(Apply(d, RemoveShape(id)).value)
    requires ApplyAll(x, [InsertShape(d.shapes.entries[id])]).Ok?
    ensures ApplyAll(x, [InsertShape(d.shapes.entries[id])]).value.SameRecords(d)
  {
    hide ApplyAll, ValidateIntegrity, ValidateEdge, ValidateNode;
    SingleCommand(x, InsertShape(d.shapes.entries[id]));
    assert (d.shapes.entries - {id})[id := d.shapes.entries[id]] == d.shapes.entries;
  }

  lemma EdgeOrShapeCommandUndone(d: Document, c: Command, x: Document)
    requires d.Filed() && Apply(d, c).Ok? && InverseFor(d, c).Ok? && x.SameRecords(Apply(d, c).value)
    requires c.InsertEdge? || c.UpdateEdge? || c.RemoveEdge? || c.InsertShape? || c.UpdateShape? || c.RemoveShape?
    requires ApplyAll(x, InverseFor(d, c).value).Ok?
    ensures ApplyAll(x, InverseFor(d, c).value).value.SameRecords(d)
  {
    hide ApplyAll, Apply, ValidateEdge;
    match c
    case InsertEdge(edge) => InsertEdgeUndone(d, edge, x);
    case UpdateEdge(edge) => UpdateEdgeUndone(d, edge, x);
    case RemoveEdge(id) => RemoveEdgeUndone(d, id, x);
    case InsertShape(shape) => InsertShapeUndone(d, shape, x);
    case UpdateShape(shape) => UpdateShapeUndone(d, shape, x);
    case RemoveShape(id) => RemoveShapeUndone(d, id, x);
  }

  lemma RelationCommandUndone(d: Document, c: Command, x: Document)
    requires IsRelationCommand(c) && Apply(d, c).Ok? && InverseFor(d, c).Ok? && x.SameRecords(Apply(d, c).value)
    requires ApplyAll(x, InverseFor(d, c).value).Ok?
    ensures ApplyAll(x, InverseFor(d, c).value).value.SameRecords(d)
  {
    hide ApplyAll, Apply;
    var inverse := InverseFor(d, c).value;
    RelationCommandKeepsWellFormed(d, c);
    if inverse == [] {
      ApplyNothing(x);
    } else {
      assert inverse == [inverse[0]] && IsRelationCommand(inverse[0]);
      SingleCommand(x, inverse[0]);
      RelationCommandKeepsWellFormed(x, inverse[0]);
    }
  }

  lemma CommandUndone(d: Document, c: Command, x: Document)
    requires RecordsSound(d) && Apply(d, c).Ok? && InverseFor(d, c).Ok? && x.SameRecords(Apply(d, c).value)
    requires ApplyAll(x, InverseFor(d, c).value).Ok?
    ensures ApplyAll(x, InverseFor(d, c).value).value.SameRecords(d)
  {
    if IsRelationCommand(c) {
      RelationCommandUndone(d, c, x);
    } else if c.RemoveNode? {
      RemoveNodeUndone(d, c.nodeId, x);
    } else if c.InsertNode? {
      InsertNodeUndone(d, c.node, x);
    } else if c.UpdateNode? {
      UpdateNodeUndone(d, c, x);
    } else {
      EdgeOrShapeCommandUndone(d, c, x);
    }
  }

  /** An inverted transaction that applies restores every record, whatever the relations were. */
  lemma {:induction false} InvertRestoresRecords(d: Document, cs: seq<Command>, x: Document)
    requires RecordsSound(d) && ApplyAll(d, cs).Ok? && Invert(d, cs).Ok? && x.SameRecords(ApplyAll(d, cs).value)
    requires ApplyAll(x, Invert(d, cs).value).Ok?
    ensures ApplyAll(x, Invert(d, cs).value).value.SameRecords(d)
    decreases cs
  {
    if cs != [] {
      var next := Apply(d, cs[0]).value;
      var first, rest := InverseFor(d, cs[0]).value, Invert(next, cs[1..]).value;
      ApplyKeepsRecordsSound(d, cs[0]);
      ApplyConcat(x, rest, first);
      InvertRestoresRecords(next, cs[1..], x);
      CommandUndone(d, cs[0], ApplyAll(x, rest).value);
    }
  }
}
