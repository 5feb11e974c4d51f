/** Record ids, records, relation facts, commands and errors of a canvas document. */
module Records {
  import opened Prelude
  import opened IndexMaps

  datatype NodeId = NodeId(name: string)
  datatype EdgeId = EdgeId(name: string)
  datatype ShapeId = ShapeId(name: string)
  datatype HandleId = HandleId(name: string)
  datatype BindingId = BindingId(name: string)

  datatype RecordId =
    | NodeRecord(node: NodeId)
    | EdgeRecord(edge: EdgeId)
    | ShapeRecord(shape: ShapeId)

  // Pixels are exact reals here.

  datatype Point = Point(x: real, y: real)
  datatype Size = Size(width: real, height: real)
  datatype Bounds = Bounds(origin: Point, size: Size)

  datatype Value =
    | Null
    | Bool(b: bool)
    | Number(n: real)
    | String(s: string)
    | Array(items: seq<Value>)
    | Object(fields: map<string, Value>)

  type Data = map<string, Value>

  datatype Style = Style(fill: Option<string>, stroke: Option<string>, strokeWidth: real)

  datatype HandleRole = AnyRole | SourceRole | TargetRole

  datatype Handle = Handle(
    id: HandleId,
    role: HandleRole,
    position: Point,
    size: Size,
    connectable: bool,
    hidden: bool)

  datatype Node = Node(
    id: NodeId,
    kind: string,
    position: Point,
    size: Size,
    zIndex: int,
    hidden: bool,
    locked: bool,
    handles: seq<Handle>,
    data: Data,
    style: Style)

  datatype Endpoint = Endpoint(node: NodeId, handle: Option<HandleId>)

  datatype EdgeRoute = EdgeRoute(
    kind: string,
    waypoints: seq<Point>,
    controlPoints: seq<Point>,
    interactionWidth: real,
    options: Data)

  datatype Edge = Edge(
    id: EdgeId,
    kind: string,
    source: Endpoint,
    target: Endpoint,
    zIndex: int,
    hidden: bool,
    locked: bool,
    data: Data,
    style: Style,
    route: EdgeRoute)

  datatype Shape = Shape(
    id: ShapeId,
    kind: string,
    bounds: Bounds,
    zIndex: int,
    hidden: bool,
    locked: bool,
    data: Data,
    style: Style)

  datatype ParentRelation = ParentRelation(child: RecordId, parent: RecordId)
  datatype GroupRelation = GroupRelation(group: RecordId, member: RecordId)
  datatype BindingRelation = BindingRelation(id: BindingId, kind: string, source: RecordId, target: RecordId)

  datatype Relation =
    | Parent(parent: ParentRelation)
    | Group(group: GroupRelation)
    | Binding(binding: BindingRelation)

  datatype Relations = Relations(
    parents: seq<ParentRelation>,
    groups: seq<GroupRelation>,
    bindings: seq<BindingRelation>)

  datatype Document = Document(
    nodes: IndexMap<NodeId, Node>,
    edges: IndexMap<EdgeId, Edge>,
    shapes: IndexMap<ShapeId, Shape>,
    metadata: Data,
    relations: Relations)
  {
    predicate Contains(id: RecordId) {
      match id
      case NodeRecord(n) => nodes.Has(n)
      case EdgeRecord(e) => edges.Has(e)
      case ShapeRecord(s) => shapes.Has(s)
    }

    /** Records are filed under their own ids. */
    ghost predicate Filed() {
      && nodes.Valid() && edges.Valid() && shapes.Valid()
      && (forall n :: n in nodes.entries ==> nodes.entries[n].id == n)
      && (forall e :: e in edges.entries ==> edges.entries[e].id == e)
      && (forall s :: s in shapes.entries ==> shapes.entries[s].id == s)
    }

    /** Every edge's ends exist. */
    ghost predicate Closed() {
      forall e :: e in edges.entries ==>
        edges.entries[e].source.node in nodes.entries && edges.entries[e].target.node in nodes.entries
    }

    /** The two documents hold the same records; the order of insertion does not matter. */
    ghost predicate SameRecords(other: Document) {
      && nodes.entries == other.nodes.entries
      && edges.entries == other.edges.entries
      && shapes.entries == other.shapes.entries
    }
  }

  datatype Command =
    | InsertNode(node: Node)
    | UpdateNode(node: Node)
    | RemoveNode(nodeId: NodeId)
    | InsertEdge(edge: Edge)
    | UpdateEdge(edge: Edge)
    | RemoveEdge(edgeId: EdgeId)
    | InsertShape(shape: Shape)
    | UpdateShape(shape: Shape)
    | RemoveShape(shapeId: ShapeId)
    | SetRecordParent(child: RecordId, parent: RecordId)
    | ClearRecordParent(child: RecordId)
    | AddRecordToGroup(group: RecordId, member: RecordId)
    | RemoveRecordFromGroup(group: RecordId, member: RecordId)
    | SetRecordBinding(binding: BindingRelation)
    | RemoveRecordBinding(bindingId: BindingId)

  datatype DocumentError =
    | DuplicateNode(node: NodeId)
    | DuplicateEdge(edge: EdgeId)
    | DuplicateShape(shape: ShapeId)
    | MissingNode(node: NodeId)
    | MissingEdge(edge: EdgeId)
    | MissingShape(shape: ShapeId)
    | MissingHandle(node: NodeId, handle: HandleId)
    | DuplicateHandle(node: NodeId, handle: HandleId)
    | NonConnectableHandle(node: NodeId, handle: HandleId)
    | InvalidSourceHandle(node: NodeId, handle: HandleId)
    | InvalidTargetHandle(node: NodeId, handle: HandleId)
    | EmptyEdgeRouteKind(edge: EdgeId)
    | InvalidEdgeInteractionWidth(edge: EdgeId)
    | MissingRelationRecord(record: RecordId)
    | SelfParentRelation(record: RecordId)
    | CyclicRecordRelation(record: RecordId)
    | DuplicateParentRelation(record: RecordId)
    | DuplicateGroupRelation(group: RecordId, member: RecordId)
    | DuplicateBindingRelation(binding: BindingId)
    | SelfBindingRelation(record: RecordId)
    | Schema(message: string)
}
