/** JSON Canvas values, and their conversion to and from documents. */
module JsonCanvas {
  import opened Prelude
  import opened Sorting
  import opened KeyedLists
  import opened IndexMaps
  import opened Records
  import opened RelationValidation
  import opened Commands
  import opened Mutations
  import opened Gestures
  import opened JsonFields

  datatype Side = Top | Right | Bottom | Left

  datatype EndShape = NoShape | Arrow

  datatype JsonNode = JsonNode(
    id: string, kind: string, x: I64, y: I64, width: I64, height: I64,
    color: Option<string>, text: Option<string>, file: Option<string>, subpath: Option<string>, url: Option<string>,
    labelText: Option<string>, background: Option<string>, backgroundStyle: Option<string>, extra: Data)

  datatype JsonEdge = JsonEdge(
    id: string, fromNode: string, fromSide: Option<Side>, fromEnd: Option<EndShape>,
    toNode: string, toSide: Option<Side>, toEnd: Option<EndShape>,
    color: Option<string>, labelText: Option<string>, extra: Data)

  datatype Canvas = Canvas(nodes: seq<JsonNode>, edges: seq<JsonEdge>)

  datatype JsonError =
    | Invalid(error: DocumentError)
    | MissingField(node: string, kind: string, field: string)
    | UnsupportedKind(node: string, kind: string)
    | InvalidSize(node: string)
    | InvalidGeometry(id: string, field: string)

  // Nodes.

  const NODE_FIELDS := ["text", "file", "subpath", "url", "label", "background", "backgroundStyle"]

  function FieldsOf(n: JsonNode): seq<Option<string>> {
    [n.text, n.file, n.subpath, n.url, n.labelText, n.background, n.backgroundStyle]
  }

  function CheckRequired(n: JsonNode): Result<(), JsonError> {
    if n.kind == "text" && n.text.None? then Err(MissingField(n.id, n.kind, "text"))
    else if n.kind == "file" && n.file.None? then Err(MissingField(n.id, n.kind, "file"))
    else if n.kind == "link" && n.url.None? then Err(MissingField(n.id, n.kind, "url"))
    else if n.kind == "text" || n.kind == "file" || n.kind == "link" || n.kind == "group" then Ok(())
    else Err(UnsupportedKind(n.id, n.kind))
  }

  const PLAIN_STYLE := Style(None, None, 0.0)

  function PlainNode(n: JsonNode, z: int): Node {
    Node(NodeId(n.id), n.kind, Point(ToPixel(n.x), ToPixel(n.y)), Size(ToPixel(n.width), ToPixel(n.height)), z,
         false, false, [], PutAll(n.extra, NODE_FIELDS, FieldsOf(n)), PLAIN_STYLE.(fill := n.color))
  }

  function ToNode(n: JsonNode, z: int): Result<Node, JsonError> {
    var _ :- CheckRequired(n);
    if n.width < 0 || n.height < 0 then Err(InvalidSize(n.id)) else Ok(PlainNode(n, z))
  }

  function ToLength(id: string, field: string, v: real): Result<I64, JsonError> {
    if v < 0.0 then Err(InvalidGeometry(id, field)) else Ok(FromPixel(v))
  }

  function FromNode(node: Node): Result<JsonNode, JsonError> {
    var (fields, extra) := TakeAll({}, node.data, NODE_FIELDS);
    var width :- ToLength(node.id.name, "width", node.size.width);
    var height :- ToLength(node.id.name, "height", node.size.height);
    var n := JsonNode(node.id.name, node.kind, FromPixel(node.position.x), FromPixel(node.position.y), width, height,
                      node.style.fill, fields[0], fields[1], fields[2], fields[3], fields[4], fields[5], fields[6],
                        extra);
    var _ :- CheckRequired(n);
    Ok(n)
  }

  // Sides.

  function SideName(side: Side): string {
    match side case Top => "top" case Right => "right" case Bottom => "bottom" case Left => "left"
  }

  const PREFIX := "json_canvas:"

  function SideHandleId(side: Side): HandleId {
    HandleId(PREFIX + SideName(side))
  }

  function SidePosition(side: Side, size: Size): Point {
    match side
    case Top => Point(size.width * 0.5, 0.0)
    case Right => Point(size.width, size.height * 0.5)
    case Bottom => Point(size.width * 0.5, size.height)
    case Left => Point(0.0, size.height * 0.5)
  }

  function SideHandle(side: Side, size: Size): Handle {
    Handle(SideHandleId(side), AnyRole, SidePosition(side, size), Size(12.0, 12.0), true, false)
  }

  function SideFromId(id: HandleId): Option<Side> {
    if PREFIX <= id.name then
      var rest := id.name[|PREFIX|..];
      if rest == "top" then Some(Top)
      else if rest == "right" then Some(Right)
      else if rest == "bottom" then Some(Bottom)
      else if rest == "left" then Some(Left)
      else None
    else None
  }

  function Distance(a: real, b: real): real {
    if a >= b then a - b else b - a
  }

  /** The nearest side; the first of top, right, bottom, left wins a tie. */
  function SideFromPosition(size: Size, p: Point): Side {
    var top, right, bottom, left := Distance(p.y, 0.0), Distance(size.width, p.x), Distance(size.height, p.y),
      Distance(p.x, 0.0);
    if top <= right && top <= bottom && top <= left then Top
    else if right <= bottom && right <= left then Right
    else if bottom <= left then Bottom
    else Left
  }

  function EndpointSide(d: Document, p: Endpoint): Option<Side> {
    match p.handle
    case None => None
    case Some(h) =>
      match SideFromId(h)
      case Some(side) => Some(side)
      case None =>
        if !d.nodes.Has(p.node) then None
        else match Lookup(d.nodes.entries[p.node].handles, HandleKey, h)
          case None => None
          case Some(handle) => Some(SideFromPosition(d.nodes.entries[p.node].size, handle.position))
  }

  // Edges.

  const EDGE_FIELDS := ["fromEnd", "toEnd", "label"]
  const END_FIELDS := {"fromEnd", "toEnd"}

  function ShapeWord(s: Option<EndShape>): Option<string> {
    match s case None => None case Some(NoShape) => Some("none") case Some(Arrow) => Some("arrow")
  }

  function WordShape(s: Option<string>): Option<EndShape> {
    match s case None => None case Some(w) => if w == "none" then Some(NoShape) else if w == "arrow" then Some(Arrow)
      else None
  }

  function EdgeFieldsOf(e: JsonEdge): seq<Option<string>> {
    [ShapeWord(e.fromEnd), ShapeWord(e.toEnd), e.labelText]
  }

  function SideEndpoint(node: string, side: Option<Side>): Endpoint {
    Endpoint(NodeId(node), match side case None => None case Some(s) => Some(SideHandleId(s)))
  }

  const PLAIN_ROUTE := EdgeRoute("straight", [], [], 12.0, map[])

  function ToEdge(e: JsonEdge): Edge {
    Edge(EdgeId(e.id), "default", SideEndpoint(e.fromNode, e.fromSide), SideEndpoint(e.toNode, e.toSide), 0, false,
      false,
         PutAll(e.extra, EDGE_FIELDS, EdgeFieldsOf(e)), PLAIN_STYLE.(stroke := e.color), PLAIN_ROUTE)
  }

  function FromEdge(d: Document, edge: Edge): JsonEdge {
    var (fields, extra) := TakeAll(END_FIELDS, edge.data, EDGE_FIELDS);
    JsonEdge(edge.id.name, edge.source.node.name, EndpointSide(d, edge.source), WordShape(fields[0]),
             edge.target.node.name, EndpointSide(d, edge.target), WordShape(fields[1]), edge.style.stroke, fields[2],
               extra)
  }

  // Import.

  type NodeMap = IndexMap<NodeId, Node>

  /** The cast of a list index to 32 bits. */
  function IndexToZ(i: nat): int {
    var low := i % 0x1_0000_0000;
    if low < 0x8000_0000 then low else low - 0x1_0000_0000
  }

  function CollectNodes(nodes: seq<JsonNode>, from: nat, acc: NodeMap): Result<NodeMap, JsonError>
    requires from <= |nodes|
    decreases |nodes| - from
  {
    if from == |nodes| then Ok(acc)
    else if acc.Has(NodeId(nodes[from].id)) then Err(Invalid(DuplicateNode(NodeId(nodes[from].id))))
    else
      var node :- ToNode(nodes[from], IndexToZ(from));
      CollectNodes(nodes, from + 1, acc.Insert(NodeId(nodes[from].id), node))
  }

  function WithSide(node: Node, side: Side): Node {
    if Lookup(node.handles, HandleKey, SideHandleId(side)).Some? then node
    else node.(handles := node.handles + [SideHandle(side, node.size)])
  }

  function EnsureSide(nodes: NodeMap, node: string, side: Option<Side>): NodeMap {
    if side.Some? && nodes.Has(NodeId(node)) then
      nodes.Insert(NodeId(node), WithSide(nodes.entries[NodeId(node)], side.value)) else nodes
  }

  function EnsureSides(nodes: NodeMap, edges: seq<JsonEdge>): NodeMap
    decreases edges
  {
    if edges == [] then nodes
    else EnsureSides(EnsureSide(EnsureSide(nodes, edges[0].fromNode, edges[0].fromSide), edges[0].toNode,
      edges[0].toSide), edges[1..])
  }

  function NodeList(nodes: NodeMap, keys: seq<NodeId>): seq<Node> {
    if keys == [] then []
      else (if nodes.Has(keys[0]) then [nodes.entries[keys[0]]] else []) + NodeList(nodes, keys[1..])
  }

  const EMPTY_DOCUMENT := Document(Empty(), Empty(), Empty(), map[], Relations([], [], []))

  function Built(commands: seq<Command>): Result<Document, JsonError> {
    match ApplyAll(EMPTY_DOCUMENT, commands)
    case Err(e) => Err(Invalid(e))
    case Ok(d) =>
      match ValidateRelations(PruneMissing(d))
      case Err(e) => Err(Invalid(e))
      case Ok(_) => Ok(PruneMissing(d))
  }

  function Import(c: Canvas): Result<Document, JsonError> {
    var nodes :- CollectNodes(c.nodes, 0, Empty());
    var sided := EnsureSides(nodes, c.edges);
    Built(Map(InsertNodeCommand, NodeList(sided, sided.keys)) + Map(InsertEdgeCommand, Map(ToEdge, c.edges)))
  }

  method ImportCanvas(c: Canvas) returns (r: Result<Document, JsonError>)
    ensures r == Import(c)
  {
    hide CollectNodes, EnsureSides, Built;
    var collected := Collected(c.nodes);
    if collected.Err? {
      return Err(collected.error);
    }
    var nodes := WithSides(collected.value, c.edges);
    r := Build(NodeList(nodes, nodes.keys), Map(ToEdge, c.edges));
  }

  method Collected(nodes: seq<JsonNode>) returns (r: Result<NodeMap, JsonError>)
    ensures r == CollectNodes(nodes, 0, Empty())
  {
    hide ToNode, IndexToZ;
    var collected: NodeMap := Empty();
    for i := 0 to |nodes|
      invariant CollectNodes(nodes, 0, Empty()) == CollectNodes(nodes, i, collected)
    {
      var id := NodeId(nodes[i].id);
      if collected.Has(id) {
        return Err(Invalid(DuplicateNode(id)));
      }
      var node := ToNode(nodes[i], IndexToZ(i));
      if node.Err? {
        return Err(node.error);
      }
      collected := collected.Insert(id, node.value);
    }
    return Ok(collected);
  }

  method WithSides(nodes: NodeMap, edges: seq<JsonEdge>) returns (sided: NodeMap)
    ensures sided == EnsureSides(nodes, edges)
  {
    hide EnsureSide;
    sided := nodes;
    for i := 0 to |edges|
      invariant EnsureSides(nodes, edges) == EnsureSides(sided, edges[i..])
    {
      assert edges[i..][1..] == edges[i + 1..];
      sided := EnsureSide(sided, edges[i].fromNode, edges[i].fromSide);
      sided := EnsureSide(sided, edges[i].toNode, edges[i].toSide);
    }
    assert edges[|edges|..] == [];
  }

  /** The builder: insert everything, prune, validate the relations. */
  method Build(nodes: seq<Node>, edges: seq<Edge>) returns (r: Result<Document, JsonError>)
    ensures r == Built(Map(InsertNodeCommand, nodes) + Map(InsertEdgeCommand, edges))
  {
    hide Map, Apply, ValidateRelations, PruneMissing;
    var commands := Map(InsertNodeCommand, nodes) + Map(InsertEdgeCommand, edges);
    var d := EMPTY_DOCUMENT;
    for i := 0 to |commands|
      invariant ApplyAll(EMPTY_DOCUMENT, commands) == ApplyAll(d, commands[i..])
    {
      assert commands[i..][1..] == commands[i + 1..];
      var next := Apply(d, commands[i]);
      if next.Err? {
        return Err(Invalid(next.error));
      }
      d := next.value;
    }
    assert commands[|commands|..] == [];
    d := PruneMissing(d);
    var valid := ValidateRelations(d);
    r := if valid.Err? then Err(Invalid(valid.error)) else Ok(d);
  }

  // Export.

  predicate LowerZ(a: Node, b: Node) {
    a.zIndex <= b.zIndex
  }

  /** The stable sort by z-index. */
  function SortByZ(s: seq<Node>): seq<Node> {
    SortBy(s, LowerZ)
  }

  function FromNodes(nodes: seq<Node>): Result<seq<JsonNode>, JsonError> {
    if nodes == [] then Ok([])
    else
      var first :- FromNode(nodes[0]);
      var others :- FromNodes(nodes[1..]);
      Ok([first] + others)
  }

  function EdgeList(edges: IndexMap<EdgeId, Edge>, keys: seq<EdgeId>): seq<Edge> {
    if keys == [] then []
      else (if edges.Has(keys[0]) then [edges.entries[keys[0]]] else []) + EdgeList(edges, keys[1..])
  }

  function FromEdges(d: Document, edges: seq<Edge>): seq<JsonEdge> {
    if edges == [] then [] else [FromEdge(d, edges[0])] + FromEdges(d, edges[1..])
  }

  function Export(d: Document): Result<Canvas, JsonError> {
    var nodes :- FromNodes(SortByZ(NodeList(d.nodes, d.nodes.keys)));
    Ok(Canvas(nodes, FromEdges(d, EdgeList(d.edges, d.edges.keys))))
  }
}
