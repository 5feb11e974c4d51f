/** The transaction that pastes a payload of records under new names. */
module Clipboard {
  import opened Prelude
  import opened Records
  import opened RelationSets
  import opened RelationReplay
  import opened Gestures
  import opened Mutations
  import opened UniqueIds

  datatype Selection = Selection(records: set<RecordId>, handles: set<Endpoint>)

  datatype Payload = Payload(
    nodes: seq<Node>,
    edges: seq<Edge>,
    shapes: seq<Shape>,
    selection: Selection,
    relations: Relations)

  /** New names per kind, and the old names of the edges that are pasted. */
  datatype Names = Names(
    nodes: map<string, string>,
    edges: map<string, string>,
    shapes: map<string, string>,
    bindings: map<string, string>,
    attached: set<string>)

  function Renamed(m: map<string, string>, name: string): string {
    if name in m then m[name] else name
  }

  function NodeName(n: Node): string { n.id.name }
  function EdgeName(e: Edge): string { e.id.name }
  function ShapeName(s: Shape): string { s.id.name }
  function BindingName(b: BindingRelation): string { b.id.name }

  // What is pasted, and its copy.

  predicate Pasted(names: Names, id: RecordId) {
    match id
    case NodeRecord(n) => n.name in names.nodes
    case EdgeRecord(e) => e.name in names.attached
    case ShapeRecord(s) => s.name in names.shapes
  }

  function CopyOf(names: Names, id: RecordId): RecordId {
    match id
    case NodeRecord(n) => NodeRecord(NodeId(Renamed(names.nodes, n.name)))
    case EdgeRecord(e) => EdgeRecord(EdgeId(Renamed(names.edges, e.name)))
    case ShapeRecord(s) => ShapeRecord(ShapeId(Renamed(names.shapes, s.name)))
  }

  function IsPasted(names: Names): RecordId -> bool {
    (id: RecordId) => Pasted(names, id)
  }

  function Shifted(p: Point, offset: Point): Point {
    Point(p.x + offset.x, p.y + offset.y)
  }

  function NodeCopy(names: Names, offset: Point): Node -> Node {
    (n: Node) => n.(id := NodeId(Renamed(names.nodes, n.id.name)), position := Shifted(n.position, offset))
  }

  function ShapeCopy(names: Names, offset: Point): Shape -> Shape {
    (s: Shape) => s.(id := ShapeId(Renamed(names.shapes, s.id.name)),
                     bounds := s.bounds.(origin := Shifted(s.bounds.origin, offset)))
  }

  function EndpointCopy(names: Names, p: Endpoint): Endpoint {
    p.(node := NodeId(Renamed(names.nodes, p.node.name)))
  }

  predicate BothEndsNamed(nodes: map<string, string>, e: Edge) {
    e.source.node.name in nodes && e.target.node.name in nodes
  }

  function Attached(nodes: map<string, string>): Edge -> bool {
    (e: Edge) => BothEndsNamed(nodes, e)
  }

  function EdgeCopy(names: Names): Edge -> Edge {
    (e: Edge) => e.(id := EdgeId(Renamed(names.edges, e.id.name)),
                    source := EndpointCopy(names, e.source),
                    target := EndpointCopy(names, e.target))
  }

  function ParentCopy(names: Names): ParentRelation -> ParentRelation {
    (p: ParentRelation) => ParentRelation(CopyOf(names, p.child), CopyOf(names, p.parent))
  }

  function GroupCopy(names: Names): GroupRelation -> GroupRelation {
    (g: GroupRelation) => GroupRelation(CopyOf(names, g.group), CopyOf(names, g.member))
  }

  function BindingCopy(names: Names): BindingRelation -> BindingRelation {
    (b: BindingRelation) => BindingRelation(BindingId(Renamed(names.bindings, b.id.name)), b.kind,
                                            CopyOf(names, b.source), CopyOf(names, b.target))
  }

  function CopiedNodes(p: Payload, names: Names, offset: Point): seq<Node> {
    Map(NodeCopy(names, offset), p.nodes)
  }

  function CopiedShapes(p: Payload, names: Names, offset: Point): seq<Shape> {
    Map(ShapeCopy(names, offset), p.shapes)
  }

  function CopiedEdges(p: Payload, names: Names): seq<Edge> {
    Map(EdgeCopy(names), Filter(p.edges, Attached(names.nodes)))
  }

  /** Exactly the relations whose two ends are pasted. */
  function CopiedRelations(p: Payload, names: Names): Relations {
    var kept := Prune(p.relations, IsPasted(names));
    Relations(Map(ParentCopy(names), kept.parents), Map(GroupCopy(names), kept.groups),
      Map(BindingCopy(names), kept.bindings))
  }

  function RelationInserts(r: Relations): seq<Command> {
    Map(SetCommand, r.parents) + (Map(JoinCommand, r.groups) + Map(BindCommand, r.bindings))
  }

  function PasteCommands(p: Payload, names: Names, offset: Point): seq<Command> {
    Map(InsertNodeCommand, CopiedNodes(p, names, offset)) +
    (Map(InsertShapeCommand, CopiedShapes(p, names, offset)) +
     (Map(InsertEdgeCommand, CopiedEdges(p, names)) +
      RelationInserts(CopiedRelations(p, names))))
  }

  // The names in use.

  function NodeNames(d: Document): set<string> { set n | n in d.nodes.entries :: n.name }
  function EdgeNames(d: Document): set<string> { set e | e in d.edges.entries :: e.name }
  function ShapeNames(d: Document): set<string> { set s | s in d.shapes.entries :: s.name }
  function BindingNames(d: Document): set<string> { set b | b in d.relations.bindings :: b.id.name }

  /** A renaming of all of `ids`, each to the first candidate free at its turn. */
  ghost predicate FreshNames(m: map<string, string>, ids: seq<string>, existing: set<string>) {
    && m.Keys == Elements(ids)
    && Renaming(m, existing)
    && (Distinct(ids) ==>
          forall i :: 0 <= i < |ids| && ids[i] in m ==> FirstFree(ids[i], existing + Given(ids[..i], m), m[ids[i]]))
  }

  ghost predicate NamesFor(names: Names, p: Payload, d: Document) {
    && FreshNames(names.nodes, Map(NodeName, p.nodes), NodeNames(d))
    && FreshNames(names.edges, Map(EdgeName, p.edges), EdgeNames(d))
    && FreshNames(names.shapes, Map(ShapeName, p.shapes), ShapeNames(d))
    && FreshNames(names.bindings, Map(BindingName, p.relations.bindings), BindingNames(d))
    && names.attached == Elements(Map(EdgeName, Filter(p.edges, Attached(names.nodes))))
  }

  function RemapSelection(selection: Selection, names: Names): Option<Selection> {
    if (forall id :: id in selection.records ==> Pasted(names, id)) &&
       (forall h :: h in selection.handles ==> h.node.name in names.nodes)
    then Some(Selection(set id | id in selection.records :: CopyOf(names, id),
                        set h | h in selection.handles :: EndpointCopy(names, h)))
    else None
  }

  /** The selection after a paste: the copies of the selected records, or else everything pasted. */
  function PastedSelection(p: Payload, names: Names, fallback: set<RecordId>): Selection {
    match RemapSelection(p.selection, names)
    case Some(s) => if s == Selection({}, {}) then Selection(fallback, {}) else s
    case None => Selection(fallback, {})
  }

  function CopiedIds(p: Payload, names: Names): set<RecordId> {
    (set n | n in p.nodes :: CopyOf(names, NodeRecord(n.id))) +
    (set s | s in p.shapes :: CopyOf(names, ShapeRecord(s.id))) +
    EdgeCopyIds(Filter(p.edges, Attached(names.nodes)), names)
  }

  // The loops.

  method PasteEdges(edges: seq<Edge>, names: Names)
    returns (commands: seq<Command>, attached: set<string>, fallback: set<RecordId>)
    requires names.edges.Keys == Elements(Map(EdgeName, edges))
    ensures commands == Map(InsertEdgeCommand, Map(EdgeCopy(names), Filter(edges, Attached(names.nodes))))
    ensures attached == Elements(Map(EdgeName, Filter(edges, Attached(names.nodes))))
    ensures fallback == EdgeCopyIds(Filter(edges, Attached(names.nodes)), names)
  {
    hide Map, Filter;
    commands, attached, fallback := [], {}, {};
    ghost var done: seq<Edge> := [];
    assert edges[..0] == [];
    FilterNone(edges[..0], Attached(names.nodes));
    for i := 0 to |edges|
      invariant done == Filter(edges[..i], Attached(names.nodes))
      invariant commands == Map(InsertEdgeCommand, Map(EdgeCopy(names), done))
      invariant attached == Elements(Map(EdgeName, done))
      invariant fallback == EdgeCopyIds(done, names)
    {
      FilterNext(edges, i, Attached(names.nodes));
      if BothEndsNamed(names.nodes, edges[i]) {
        var edge := edges[i].(id := EdgeId(Renamed(names.edges, edges[i].id.name)),
                              source := EndpointCopy(names, edges[i].source),
                              target := EndpointCopy(names, edges[i].target));
        EdgeStep(done, edges[i], names);
        done := done + [edges[i]];
        fallback := fallback + {EdgeRecord(edge.id)};
        attached := attached + {edges[i].id.name};
        commands := commands + [InsertEdge(edge)];
      }
    }
    assert edges[..|edges|] == edges;
  }

  function EdgeCopyIds(edges: seq<Edge>, names: Names): set<RecordId> {
    set e | e in edges :: CopyOf(names, EdgeRecord(e.id))
  }

  lemma FilterNext<T>(s: seq<T>, i: nat, p: T -> bool)
    requires i < |s|
    ensures Filter(s[..i + 1], p) == if p(s[i]) then Filter(s[..i], p) + [s[i]] else Filter(s[..i], p)
  {
    assert s[..i + 1] == s[..i] + [s[i]];
    FilterConcat(s[..i], [s[i]], p);
  }

  lemma EdgeStep(done: seq<Edge>, e: Edge, names: Names)
    ensures Map(InsertEdgeCommand, Map(EdgeCopy(names), done + [e])) ==
            Map(InsertEdgeCommand, Map(EdgeCopy(names), done)) + [InsertEdge(EdgeCopy(names)(e))]
    ensures Elements(Map(EdgeName, done + [e])) == Elements(Map(EdgeName, done)) + {e.id.name}
    ensures EdgeCopyIds(done + [e], names) == EdgeCopyIds(done, names) + {CopyOf(names, EdgeRecord(e.id))}
  {
    hide CopyOf, EdgeCopy;
    var copied := Map(EdgeCopy(names), done);
    MapConcat(EdgeName, done, [e]);
    MapConcat(EdgeCopy(names), done, [e]);
    MapConcat(InsertEdgeCommand, copied, [EdgeCopy(names)(e)]);
    hide Map;
    assert Elements(Map(EdgeName, [e])) == {e.id.name};
  }

  method PasteNodes(nodes: seq<Node>, names: Names, offset: Point)
    returns (commands: seq<Command>, fallback: set<RecordId>)
    ensures commands == Map(InsertNodeCommand, Map(NodeCopy(names, offset), nodes))
    ensures fallback == set n | n in nodes :: CopyOf(names, NodeRecord(n.id))
  {
    hide Map, CopyOf;
    commands, fallback := [], {};
    NoNodes(names, offset);
    for i := 0 to |nodes|
      invariant commands == Map(InsertNodeCommand, Map(NodeCopy(names, offset), nodes[..i]))
      invariant fallback == set n | n in nodes[..i] :: CopyOf(names, NodeRecord(n.id))
    {
      assert nodes[..i + 1] == nodes[..i] + [nodes[i]];
      NodeStep(nodes[..i], nodes[i], names, offset);
      var node := nodes[i].(id := NodeId(Renamed(names.nodes, nodes[i].id.name)),
                            position := Shifted(nodes[i].position, offset));
      fallback := fallback + {NodeRecord(node.id)};
      commands := commands + [InsertNode(node)];
    }
    assert nodes[..|nodes|] == nodes;
  }

  lemma NoNodes(names: Names, offset: Point)
    ensures Map(InsertNodeCommand, Map(NodeCopy(names, offset), [])) == []
  {
  }

  lemma NodeStep(done: seq<Node>, node: Node, names: Names, offset: Point)
    ensures Map(InsertNodeCommand, Map(NodeCopy(names, offset), done + [node])) ==
            Map(InsertNodeCommand, Map(NodeCopy(names, offset), done)) + [InsertNode(NodeCopy(names, offset)(node))]
    ensures NodeRecord(NodeCopy(names, offset)(node).id) == CopyOf(names, NodeRecord(node.id))
  {
    MapConcat(NodeCopy(names, offset), done, [node]);
    MapConcat(InsertNodeCommand, Map(NodeCopy(names, offset), done), [NodeCopy(names, offset)(node)]);
  }

  method PasteShapes(shapes: seq<Shape>, names: Names, offset: Point)
    returns (commands: seq<Command>, fallback: set<RecordId>)
    ensures commands == Map(InsertShapeCommand, Map(ShapeCopy(names, offset), shapes))
    ensures fallback == set s | s in shapes :: CopyOf(names, ShapeRecord(s.id))
  {
    hide Map, CopyOf;
    commands, fallback := [], {};
    NoShapes(names, offset);
    for i := 0 to |shapes|
      invariant commands == Map(InsertShapeCommand, Map(ShapeCopy(names, offset), shapes[..i]))
      invariant fallback == set s | s in shapes[..i] :: CopyOf(names, ShapeRecord(s.id))
    {
      assert shapes[..i + 1] == shapes[..i] + [shapes[i]];
      ShapeStep(shapes[..i], shapes[i], names, offset);
      var shape := shapes[i].(id := ShapeId(Renamed(names.shapes, shapes[i].id.name)),
                              bounds := shapes[i].bounds.(origin := Shifted(shapes[i].bounds.origin, offset)));
      fallback := fallback + {ShapeRecord(shape.id)};
      commands := commands + [InsertShape(shape)];
    }
    assert shapes[..|shapes|] == shapes;
  }

  lemma NoShapes(names: Names, offset: Point)
    ensures Map(InsertShapeCommand, Map(ShapeCopy(names, offset), [])) == []
  {
  }

  lemma ShapeStep(done: seq<Shape>, shape: Shape, names: Names, offset: Point)
    ensures Map(InsertShapeCommand, Map(ShapeCopy(names, offset), done + [shape])) ==
            Map(InsertShapeCommand, Map(ShapeCopy(names, offset), done)) +
              [InsertShape(ShapeCopy(names, offset)(shape))]
    ensures ShapeRecord(ShapeCopy(names, offset)(shape).id) == CopyOf(names, ShapeRecord(shape.id))
  {
    MapConcat(ShapeCopy(names, offset), done, [shape]);
    MapConcat(InsertShapeCommand, Map(ShapeCopy(names, offset), done), [ShapeCopy(names, offset)(shape)]);
  }

  function PasteParent(names: Names): ParentRelation -> Command {
    (p: ParentRelation) => SetRecordParent(CopyOf(names, p.child), CopyOf(names, p.parent))
  }

  function PasteGroup(names: Names): GroupRelation -> Command {
    (g: GroupRelation) => AddRecordToGroup(CopyOf(names, g.group), CopyOf(names, g.member))
  }

  function PasteBinding(names: Names): BindingRelation -> Command {
    (b: BindingRelation) => SetRecordBinding(BindingCopy(names)(b))
  }

  method PasteRelations(r: Relations, names: Names) returns (commands: seq<Command>)
    ensures var kept := Prune(r, IsPasted(names));
            commands == RelationInserts(Relations(Map(ParentCopy(names), kept.parents),
                                                  Map(GroupCopy(names), kept.groups),
                                                  Map(BindingCopy(names), kept.bindings)))
  {
    var ok := IsPasted(names);
    var kept := Prune(r, ok);
    commands := AppendChosen([], r.parents, ParentKept(ok), PasteParent(names));
    commands := AppendChosen(commands, r.groups, GroupKept(ok), PasteGroup(names));
    commands := AppendChosen(commands, r.bindings, BindingKept(ok), PasteBinding(names));
    MapTwice(ParentCopy(names), SetCommand, PasteParent(names), kept.parents);
    MapTwice(GroupCopy(names), JoinCommand, PasteGroup(names), kept.groups);
    MapTwice(BindingCopy(names), BindCommand, PasteBinding(names), kept.bindings);
    JoinFour(Map(PasteParent(names), kept.parents), Map(PasteGroup(names), kept.groups),
      Map(PasteBinding(names), kept.bindings), []);
  }

  lemma MapTwice<T, U, V>(f: T -> U, g: U -> V, h: T -> V, s: seq<T>)
    requires forall x :: x in s ==> g(f(x)) == h(x)
    ensures Map(g, Map(f, s)) == Map(h, s)
  {
  }

  /** For every payload and document: the commands are those of a renaming away from all names in use. */
  method PasteTransaction(p: Payload, d: Document, offset: Point)
    returns (commands: seq<Command>, selection: Selection, names: Names)
    ensures NamesFor(names, p, d)
    ensures commands == PasteCommands(p, names, offset)
    ensures selection == PastedSelection(p, names, CopiedIds(p, names))
  {
    hide FreshNames, Map, Filter, RelationInserts, Prune, PastedSelection;
    var nodeIds := Rename(Map(NodeName, p.nodes), NodeNames(d));
    var edgeIds := Rename(Map(EdgeName, p.edges), EdgeNames(d));
    var shapeIds := Rename(Map(ShapeName, p.shapes), ShapeNames(d));
    var bindingIds := Rename(Map(BindingName, p.relations.bindings), BindingNames(d));
    var before := Names(nodeIds, edgeIds, shapeIds, bindingIds, {});
    var nodeCommands, someNodes := PasteNodes(p.nodes, before, offset);
    var shapeCommands, someShapes := PasteShapes(p.shapes, before, offset);
    var edgeCommands, attached, someEdges := PasteEdges(p.edges, before);
    var all := before.(attached := attached);
    var relationCommands := PasteRelations(p.relations, all);
    commands := nodeCommands + shapeCommands + edgeCommands + relationCommands;
    selection := PastedSelection(p, all, someNodes + someShapes + someEdges);
    names := all;
    SameCopies(p, before, all, offset);
    JoinFour(nodeCommands, shapeCommands, edgeCommands, relationCommands);
    assert [] + nodeCommands == nodeCommands;
  }

  method Rename(ids: seq<string>, existing: set<string>) returns (m: map<string, string>)
    ensures FreshNames(m, ids, existing) && m.Keys == Elements(ids)
  {
    m := RemapIds(ids, existing);
  }

  lemma SameCopies(p: Payload, a: Names, b: Names, offset: Point)
    requires b == a.(attached := b.attached)
    ensures CopiedNodes(p, a, offset) == CopiedNodes(p, b, offset)
    ensures CopiedShapes(p, a, offset) == CopiedShapes(p, b, offset)
    ensures CopiedEdges(p, a) == CopiedEdges(p, b)
    ensures CopiedIds(p, a) == CopiedIds(p, b)
  {
    hide Map, Filter;
    MapAgrees(NodeCopy(a, offset), NodeCopy(b, offset), p.nodes);
    MapAgrees(ShapeCopy(a, offset), ShapeCopy(b, offset), p.shapes);
    MapAgrees(EdgeCopy(a), EdgeCopy(b), Filter(p.edges, Attached(a.nodes)));
    SameCopiedIds(p, a, b);
  }

  lemma SameCopiedIds(p: Payload, a: Names, b: Names)
    requires b == a.(attached := b.attached)
    ensures CopiedIds(p, a) == CopiedIds(p, b)
  {
    hide Map, Filter;
    SameCopyOf(a, b);
    hide CopyOf;
  }

  lemma SameCopyOf(a: Names, b: Names)
    requires b == a.(attached := b.attached)
    ensures forall r :: CopyOf(a, r) == CopyOf(b, r)
  {
  }

  lemma MapAgrees<T(!new), U>(f: T -> U, g: T -> U, s: seq<T>)
    requires forall x :: f(x) == g(x)
    ensures Map(f, s) == Map(g, s)
  {
  }
}
