/** What an imported canvas and an exported document hold, field by field. */
module JsonContents {
  import opened Prelude
  import opened KeyedLists
  import opened IndexMaps
  import opened Records
  import opened Commands
  import opened JsonFields
  import opened JsonCanvas
  import opened JsonImport

  // Coordinates.

  /** The result is a multiple of the spacing, none is nearer, and on a tie it is the even one. */
  lemma ToSingleIsNearest(n: nat)
    ensures ToSingle(n) % Spacing(n) == 0
    ensures 2 * n <= 2 * ToSingle(n) + Spacing(n) && 2 * ToSingle(n) <= 2 * n + Spacing(n)
    ensures 2 * n == 2 * ToSingle(n) + Spacing(n) || 2 * ToSingle(n) == 2 * n + Spacing(n) ==>
              (ToSingle(n) / Spacing(n)) % 2 == 0
  {
    hide Spacing;
    var u := Spacing(n);
    DivideBy(n, u);
  }

  lemma DivideBy(n: nat, u: nat)
    requires u > 0
    ensures n == (n / u) * u + n % u
    ensures (n - n % u) % u == 0 && (n - n % u) / u == n / u
    ensures (n - n % u + u) % u == 0 && (n - n % u + u) / u == n / u + 1
  {
    var q := n / u;
    MultipleLeavesNothing(q, u);
    MultipleLeavesNothing(q + 1, u);
    assert (q + 1) * u == q * u + u;
    Quotient(q, u);
    Quotient(q + 1, u);
  }

  lemma Quotient(q: nat, u: nat)
    requires u > 0
    ensures (q * u) / u == q
  {
    MultipleLeavesNothing(q, u);
    var k := (q * u) / u;
    assert q * u == k * u;
    if k < q {
      Products(k + 1, q, u);
    } else if k > q {
      Products(q + 1, k, u);
    }
  }

  /** The spacing is one below 2^24 and doubles with every doubling from there on. */
  lemma SpacingDoubles(n: nat)
    ensures n < 0x100_0000 ==> Spacing(n) == 1
    ensures n >= 0x80_0000 ==> Spacing(2 * n) == 2 * Spacing(n) && Spacing(2 * n + 1) == 2 * Spacing(n)
  {
    assert (2 * n) / 2 == n && (2 * n + 1) / 2 == n;
  }

  /** Rounding gives the nearest integer, of two nearest ones the one away from zero. */
  lemma RoundsToNearest(v: real)
    ensures -0.5 <= RoundHalfAway(v) as real - v <= 0.5
    ensures v >= 0.0 ==> RoundHalfAway(v) as real - v > -0.5
    ensures v < 0.0 ==> RoundHalfAway(v) as real - v < 0.5
  {
  }

  // Nodes.

  /** Under `key` the data holds the field if it is stated, and what the extra data has there if not. */
  ghost predicate Stores(data: Data, extra: Data, key: string, field: Option<string>) {
    if field.Some? then key in data && data[key] == String(field.value)
    else (key in data <==> key in extra) && (key in extra ==> data[key] == extra[key])
  }

  lemma {:induction false} PutAllStores(extra: Data, keys: seq<string>, values: seq<Option<string>>, i: nat)
    requires |keys| == |values| && Distinct(keys) && i < |keys|
    ensures Stores(PutAll(extra, keys, values), extra, keys[i], values[i])
    decreases keys
  {
    var next := PutString(extra, keys[0], values[0]);
    if i == 0 {
      PutElsewhere(next, keys[1..], values[1..], keys[0]);
    } else {
      PutAllStores(next, keys[1..], values[1..], i - 1);
      assert keys[i] != keys[0];
    }
  }

  /** The seven text fields are stored under their own names, and nothing else is changed. */
  ghost predicate NodeData(data: Data, n: JsonNode) {
    && Stores(data, n.extra, "text", n.text)
    && Stores(data, n.extra, "file", n.file)
    && Stores(data, n.extra, "subpath", n.subpath)
    && Stores(data, n.extra, "url", n.url)
    && Stores(data, n.extra, "label", n.labelText)
    && Stores(data, n.extra, "background", n.background)
    && Stores(data, n.extra, "backgroundStyle", n.backgroundStyle)
    && forall k :: k !in {"text", "file", "subpath", "url", "label", "background", "backgroundStyle"} ==>
         Stores(data, n.extra, k, None)
  }

  lemma NodeFieldsDistinct()
    ensures Distinct(NODE_FIELDS)
  {
    assert |NODE_FIELDS[0]| == 4 && |NODE_FIELDS[1]| == 4 && NODE_FIELDS[0][0] != NODE_FIELDS[1][0];
    assert |NODE_FIELDS[2]| == 7 && |NODE_FIELDS[3]| == 3 && |NODE_FIELDS[4]| == 5 && |NODE_FIELDS[5]| == 10 &&
      |NODE_FIELDS[6]| == 15;
  }

  lemma PutAllIsNodeData(n: JsonNode)
    ensures NodeData(PutAll(n.extra, NODE_FIELDS, FieldsOf(n)), n)
  {
    hide PutAll;
    NodeFieldsDistinct();
    forall i: nat | i < 7
      ensures Stores(PutAll(n.extra, NODE_FIELDS, FieldsOf(n)), n.extra, NODE_FIELDS[i], FieldsOf(n)[i])
    {
      PutAllStores(n.extra, NODE_FIELDS, FieldsOf(n), i);
    }
    var data := PutAll(n.extra, NODE_FIELDS, FieldsOf(n));
    hide Stores;
    assert NODE_FIELDS[0] == "text" && FieldsOf(n)[0] == n.text;
    assert NODE_FIELDS[1] == "file" && FieldsOf(n)[1] == n.file;
    assert NODE_FIELDS[2] == "subpath" && FieldsOf(n)[2] == n.subpath;
    assert NODE_FIELDS[3] == "url" && FieldsOf(n)[3] == n.url;
    assert NODE_FIELDS[4] == "label" && FieldsOf(n)[4] == n.labelText;
    assert NODE_FIELDS[5] == "background" && FieldsOf(n)[5] == n.background;
    assert NODE_FIELDS[6] == "backgroundStyle" && FieldsOf(n)[6] == n.backgroundStyle;
    forall k | k !in {"text", "file", "subpath", "url", "label", "background", "backgroundStyle"}
      ensures Stores(data, n.extra, k, None)
    {
      OtherKeysStay(n, k);
    }
  }

  lemma OtherKeysStay(n: JsonNode, k: string)
    requires k !in {"text", "file", "subpath", "url", "label", "background", "backgroundStyle"}
    ensures Stores(PutAll(n.extra, NODE_FIELDS, FieldsOf(n)), n.extra, k, None)
  {
    hide PutAll;
    PutElsewhere(n.extra, NODE_FIELDS, FieldsOf(n), k);
  }

  /** The signed 32-bit number that agrees with `i` modulo 2^32. */
  ghost predicate Wraps(i: nat, z: int) {
    -0x8000_0000 <= z < 0x8000_0000 && (i - z) % 0x1_0000_0000 == 0
  }

  lemma IndexWraps(i: nat)
    ensures Wraps(i, IndexToZ(i))
    ensures i < 0x8000_0000 ==> IndexToZ(i) == i
  {
  }

  /** A handle for a side: in the middle of it, 12 by 12, visible, connectable, of either role. */
  ghost predicate SideMark(h: Handle, side: Side, size: Size) {
    && h.role == AnyRole && h.connectable && !h.hidden && h.size == Size(12.0, 12.0)
    && match side
       case Top => h.id.name == "json_canvas:top" && h.position == Point(size.width / 2.0, 0.0)
       case Right => h.id.name == "json_canvas:right" && h.position == Point(size.width, size.height / 2.0)
       case Bottom => h.id.name == "json_canvas:bottom" && h.position == Point(size.width / 2.0, size.height)
       case Left => h.id.name == "json_canvas:left" && h.position == Point(0.0, size.height / 2.0)
  }

  /** The node stands for the `i`th node of a canvas. */
  ghost predicate StandsForNode(node: Node, n: JsonNode, i: nat) {
    && node.id == NodeId(n.id) && node.kind == n.kind
    && node.position == Point(ToPixel(n.x), ToPixel(n.y))
    && node.size == Size(ToPixel(n.width), ToPixel(n.height))
    && Wraps(i, node.zIndex)
    && !node.hidden && !node.locked
    && node.style == Style(n.color, None, 0.0)
    && NodeData(node.data, n)
    && forall h :: h in node.handles ==> exists side :: SideMark(h, side, node.size)
  }

  ghost predicate StandsForEdge(edge: Edge, e: JsonEdge) {
    && edge.id == EdgeId(e.id) && edge.kind == "default" && edge.zIndex == 0 && !edge.hidden && !edge.locked
    && AtSide(edge.source, e.fromNode, e.fromSide) && AtSide(edge.target, e.toNode, e.toSide)
    && edge.style == Style(None, e.color, 0.0)
    && edge.route == EdgeRoute("straight", [], [], 12.0, map[])
    && Stores(edge.data, e.extra, "fromEnd", EndWord(e.fromEnd))
    && Stores(edge.data, e.extra, "toEnd", EndWord(e.toEnd))
    && Stores(edge.data, e.extra, "label", e.labelText)
    && forall k :: k !in {"fromEnd", "toEnd", "label"} ==> Stores(edge.data, e.extra, k, None)
  }

  ghost predicate AtSide(p: Endpoint, node: string, side: Option<Side>) {
    && p.node == NodeId(node)
    && match side
       case None => p.handle.None?
       case Some(Top) => p.handle == Some(HandleId("json_canvas:top"))
       case Some(Right) => p.handle == Some(HandleId("json_canvas:right"))
       case Some(Bottom) => p.handle == Some(HandleId("json_canvas:bottom"))
       case Some(Left) => p.handle == Some(HandleId("json_canvas:left"))
  }

  ghost function EndWord(shape: Option<EndShape>): Option<string> {
    match shape
    case None => None
    case Some(NoShape) => Some("none")
    case Some(Arrow) => Some("arrow")
  }

  /** A node is refused for a missing field, an unknown kind, or else a negative size. */
  lemma RefusedNode(n: JsonNode, z: int)
    ensures ToNode(n, z).Ok? <==> NodeFits(n)
    ensures n.kind == "text" && n.text.None? ==> ToNode(n, z) == Err(MissingField(n.id, "text", "text"))
    ensures n.kind == "file" && n.file.None? ==> ToNode(n, z) == Err(MissingField(n.id, "file", "file"))
    ensures n.kind == "link" && n.url.None? ==> ToNode(n, z) == Err(MissingField(n.id, "link", "url"))
    ensures n.kind !in {"text", "file", "link", "group"} ==> ToNode(n, z) == Err(UnsupportedKind(n.id, n.kind))
    ensures !NodeFits(n) && NodeFits(n.(width := 0, height := 0)) ==> ToNode(n, z) == Err(InvalidSize(n.id))
  {
    hide PlainNode;
    assert "text" != "file" && "link" != "text" && "link" != "file" by {
      assert "text"[0] != "file"[0] && "link"[0] != "text"[0] && "link"[0] != "file"[0];
    }
  }

  lemma SideNamesAre()
    ensures SideHandleId(Top).name == "json_canvas:top" && SideHandleId(Right).name == "json_canvas:right"
    ensures SideHandleId(Bottom).name == "json_canvas:bottom" && SideHandleId(Left).name == "json_canvas:left"
  {
  }

  lemma SideHandleIsMark(side: Side, size: Size)
    ensures SideMark(SideHandle(side, size), side, size)
  {
    SideNamesAre();
  }

  lemma PlainNodeStands(n: JsonNode, i: nat, node: Node)
    requires Sided(node, PlainNode(n, IndexToZ(i)))
    ensures StandsForNode(node, n, i)
  {
    hide PutAll, NodeData, SideMark, SideHandle, Unique;
    PutAllIsNodeData(n);
    IndexWraps(i);
    hide IndexToZ, Wraps;
    forall h | h in node.handles ensures exists side :: SideMark(h, side, node.size) {
      var side :| h == SideHandle(side, PlainNode(n, IndexToZ(i)).size);
      SideHandleIsMark(side, node.size);
    }
  }

  lemma ToEdgeStands(e: JsonEdge)
    ensures StandsForEdge(ToEdge(e), e)
  {
    hide PutAll, SideHandleId;
    SideNamesAre();
    var data := PutAll(e.extra, EDGE_FIELDS, EdgeFieldsOf(e));
    assert Distinct(EDGE_FIELDS) by {
      assert |EDGE_FIELDS[0]| == 7 && |EDGE_FIELDS[1]| == 5 && |EDGE_FIELDS[2]| == 5 &&
        EDGE_FIELDS[1][0] != EDGE_FIELDS[2][0];
    }
    PutAllStores(e.extra, EDGE_FIELDS, EdgeFieldsOf(e), 0);
    PutAllStores(e.extra, EDGE_FIELDS, EdgeFieldsOf(e), 1);
    PutAllStores(e.extra, EDGE_FIELDS, EdgeFieldsOf(e), 2);
    forall k | k !in {"fromEnd", "toEnd", "label"} ensures Stores(data, e.extra, k, None) {
      PutElsewhere(e.extra, EDGE_FIELDS, EdgeFieldsOf(e), k);
    }
  }

  /**
   * The imported document holds the nodes and edges of the canvas in order, each with the stated fields, and
   * nothing else.
   */
  lemma ImportedContents(c: Canvas)
    requires Import(c).Ok?
    ensures var d := Import(c).value;
            && |d.nodes.keys| == |c.nodes| && |d.edges.keys| == |c.edges|
            && (forall i :: 0 <= i < |c.nodes| ==>
                  && d.nodes.keys[i] == NodeId(c.nodes[i].id) && d.nodes.Has(NodeId(c.nodes[i].id))
                  && StandsForNode(d.nodes.entries[NodeId(c.nodes[i].id)], c.nodes[i], i))
            && (forall i :: 0 <= i < |c.edges| ==>
                  && d.edges.keys[i] == EdgeId(c.edges[i].id) && d.edges.Has(EdgeId(c.edges[i].id))
                  && StandsForEdge(d.edges.entries[EdgeId(c.edges[i].id)], c.edges[i]))
            && d.shapes.entries == map[] && d.metadata == map[] && d.relations == Relations([], [], [])
  {
    hide Import, StandsForNode, StandsForEdge, PlainNode, ToEdge, IndexToZ, Sided, Sound;
    ImportIff(c);
    var d := Import(c).value;
    forall i: nat | i < |c.nodes|
      ensures StandsForNode(d.nodes.entries[NodeId(c.nodes[i].id)], c.nodes[i], i)
    {
      PlainNodeStands(c.nodes[i], i, d.nodes.entries[NodeId(c.nodes[i].id)]);
    }
    forall i: nat | i < |c.edges| ensures d.edges.Has(EdgeId(c.edges[i].id)) {
      assert d.edges.Get(EdgeId(c.edges[i].id)) == Some(ToEdge(c.edges[i]));
    }
    forall i: nat | i < |c.edges|
      ensures StandsForEdge(d.edges.entries[EdgeId(c.edges[i].id)], c.edges[i])
    {
      assert d.edges.Get(EdgeId(c.edges[i].id)) == Some(ToEdge(c.edges[i]));
      ToEdgeStands(c.edges[i]);
    }
  }

  // Export, of any document.

  /** Beside the named fields nothing is taken out of the data; a field is taken when it holds a string. */
  ghost predicate Takes(data: Data, extra: Data, key: string, field: Option<string>) {
    if key in data && data[key].String? then field == Some(data[key].s) && key !in extra
    else field.None? && (key in data <==> key in extra) && (key in extra ==> extra[key] == data[key])
  }

  lemma {:induction false} TakeAllTakes(data: Data, keys: seq<string>, i: nat)
    requires Distinct(keys) && i < |keys|
    ensures Takes(data, TakeAll({}, data, keys).1, keys[i], TakeAll({}, data, keys).0[i])
    decreases keys
  {
    var (first, rest) := TakeString({}, data, keys[0]);
    if i == 0 {
      TakeAllElsewhere({}, rest, keys[1..], keys[0]);
    } else {
      TakeAllTakes(rest, keys[1..], i - 1);
      assert keys[i] != keys[0] && keys[1..][i - 1] == keys[i];
      assert TakeAll({}, data, keys).0[i] == TakeAll({}, rest, keys[1..]).0[i - 1];
    }
  }

  lemma {:induction false} TakeAllElsewhere(shaped: set<string>, data: Data, keys: seq<string>, k: string)
    requires k !in keys
    ensures k in TakeAll(shaped, data, keys).1 <==> k in data
    ensures k in data ==> TakeAll(shaped, data, keys).1[k] == data[k]
    decreases keys
  {
    if keys != [] {
      var rest := TakeString(shaped, data, keys[0]).1;
      assert keys[0] in keys && forall x :: x in keys[1..] ==> x in keys;
      TakeAllElsewhere(shaped, rest, keys[1..], k);
    }
  }

  /** The exported node: rounded coordinates, the fill as its colour, the string fields taken out of the data. */
  ghost predicate ExportsNode(n: JsonNode, node: Node) {
    && n.id == node.id.name && n.kind == node.kind && n.color == node.style.fill
    && n.x == FromPixel(node.position.x) && n.y == FromPixel(node.position.y)
    && n.width == FromPixel(node.size.width) && n.height == FromPixel(node.size.height)
    && Takes(node.data, n.extra, "text", n.text)
    && Takes(node.data, n.extra, "file", n.file)
    && Takes(node.data, n.extra, "subpath", n.subpath)
    && Takes(node.data, n.extra, "url", n.url)
    && Takes(node.data, n.extra, "label", n.labelText)
    && Takes(node.data, n.extra, "background", n.background)
    && Takes(node.data, n.extra, "backgroundStyle", n.backgroundStyle)
    && forall k :: k !in {"text", "file", "subpath", "url", "label", "background", "backgroundStyle"} ==>
         (k in node.data <==> k in n.extra) && (k in n.extra ==> n.extra[k] == node.data[k])
  }

  ghost predicate HasString(data: Data, key: string) {
    key in data && data[key].String?
  }

  /** What the kind demands: the text, the file or the link, and of a group nothing. */
  ghost predicate Exportable(node: Node) {
    && node.size.width >= 0.0 && node.size.height >= 0.0
    && ((node.kind == "text" && HasString(node.data, "text")) ||
        (node.kind == "file" && HasString(node.data, "file")) ||
        (node.kind == "link" && HasString(node.data, "url")) ||
        node.kind == "group")
  }

  /** A node is exported exactly when its size is not negative and its data has what its kind demands. */
  lemma ExportedNode(node: Node)
    ensures FromNode(node).Ok? <==> Exportable(node)
    ensures FromNode(node).Ok? ==> ExportsNode(FromNode(node).value, node)
    ensures node.size.width < 0.0 ==> FromNode(node) == Err(InvalidGeometry(node.id.name, "width"))
    ensures node.size.width >= 0.0 && node.size.height < 0.0 ==>
              FromNode(node) == Err(InvalidGeometry(node.id.name, "height"))
  {
    hide TakeAll, FromPixel;
    NodeFieldsDistinct();
    var (fields, extra) := TakeAll({}, node.data, NODE_FIELDS);
    TakeAllTakes(node.data, NODE_FIELDS, 0);
    TakeAllTakes(node.data, NODE_FIELDS, 1);
    TakeAllTakes(node.data, NODE_FIELDS, 2);
    TakeAllTakes(node.data, NODE_FIELDS, 3);
    TakeAllTakes(node.data, NODE_FIELDS, 4);
    TakeAllTakes(node.data, NODE_FIELDS, 5);
    TakeAllTakes(node.data, NODE_FIELDS, 6);
    forall k | k !in {"text", "file", "subpath", "url", "label", "background", "backgroundStyle"}
      ensures (k in node.data <==> k in extra) && (k in extra ==> extra[k] == node.data[k])
    {
      TakeAllElsewhere({}, node.data, NODE_FIELDS, k);
    }
  }

  function SideGap(side: Side, size: Size, p: Point): real {
    var gap :=
      match side
      case Top => p.y
      case Right => p.x - size.width
      case Bottom => p.y - size.height
      case Left => p.x;
    if gap > 0.0 then gap else -gap
  }

  function Turn(side: Side): nat {
    match side case Top => 0 case Right => 1 case Bottom => 2 case Left => 3
  }

  /** The side read from a position is the nearest one, and the first of them on a tie. */
  lemma NearestSide(size: Size, p: Point, side: Side)
    ensures var nearest := SideFromPosition(size, p);
            && SideGap(nearest, size, p) <= SideGap(side, size, p)
            && (Turn(side) < Turn(nearest) ==> SideGap(nearest, size, p) < SideGap(side, size, p))
  {
  }
}
