/** Exporting what was imported: exactly when the same canvas comes back. */
module JsonRoundTrip {
  import opened Prelude
  import opened Sorting
  import opened IndexMaps
  import opened Records
  import opened JsonFields
  import opened JsonCanvas
  import opened JsonImport

  // One node.

  ghost predicate FieldsFree(shaped: set<string>, extra: Data, keys: seq<string>, values: seq<Option<string>>)
    requires |keys| == |values|
  {
    forall i :: 0 <= i < |keys| ==> KeyIsFree(shaped, extra, keys[i], values[i])
  }

  /** Representable coordinates, and no key in the extra data that a field would claim. */
  ghost predicate NodeSurvives(n: JsonNode) {
    && Representable(n.x) && Representable(n.y) && Representable(n.width) && Representable(n.height)
    && FieldsFree({}, n.extra, NODE_FIELDS, FieldsOf(n))
  }

  lemma LengthIsPositive(id: string, field: string, x: I64)
    requires x >= 0
    ensures ToLength(id, field, ToPixel(x)) == Ok(FromPixel(ToPixel(x)))
  {
    hide ToSingle, FromPixel;
  }

  lemma NodeFieldsRoundTrip(n: JsonNode)
    ensures TakeAll({}, PutAll(n.extra, NODE_FIELDS, FieldsOf(n)), NODE_FIELDS) == (FieldsOf(n), n.extra) <==>
            FieldsFree({}, n.extra, NODE_FIELDS, FieldsOf(n))
  {
    hide PutAll, TakeAll;
    assert Distinct(NODE_FIELDS) by {
      assert |NODE_FIELDS[0]| == 4 && |NODE_FIELDS[1]| == 4 && NODE_FIELDS[0][0] != NODE_FIELDS[1][0];
      assert |NODE_FIELDS[2]| == 7 && |NODE_FIELDS[3]| == 3 && |NODE_FIELDS[4]| == 5 && |NODE_FIELDS[5]| == 10 &&
        |NODE_FIELDS[6]| == 15;
    }
    FieldsRoundTripIff({}, n.extra, NODE_FIELDS, FieldsOf(n));
  }

  /** The export of one node before its required fields are checked again. */
  function Drafted(node: Node, fields: seq<Option<string>>, extra: Data, width: I64, height: I64): JsonNode
    requires |fields| == 7
  {
    JsonNode(node.id.name, node.kind, FromPixel(node.position.x), FromPixel(node.position.y), width, height,
      node.style.fill,
             fields[0], fields[1], fields[2], fields[3], fields[4], fields[5], fields[6], extra)
  }

  lemma DraftIsNodeIff(n: JsonNode, z: int, fields: seq<Option<string>>, extra: Data)
    requires |fields| == 7
    ensures var node := PlainNode(n, z);
            Drafted(node, fields, extra, FromPixel(node.size.width), FromPixel(node.size.height)) == n <==>
            && (fields, extra) == (FieldsOf(n), n.extra)
            && Representable(n.x) && Representable(n.y) && Representable(n.width) && Representable(n.height)
  {
    hide PutAll, ToPixel, FromPixel, Representable;
    CoordinateRoundTripIff(n.x);
    CoordinateRoundTripIff(n.y);
    CoordinateRoundTripIff(n.width);
    CoordinateRoundTripIff(n.height);
    assert fields == [fields[0], fields[1], fields[2], fields[3], fields[4], fields[5], fields[6]];
  }

  lemma NodeRoundTripIff(n: JsonNode, z: int, node: Node)
    requires NodeFits(n) && node == PlainNode(n, z).(handles := node.handles)
    ensures FromNode(node) == Ok(n) <==> NodeSurvives(n)
    ensures FromNode(node).Ok? ==> FromNode(node).value.id == n.id
  {
    hide PutAll, TakeAll, ToPixel, FromPixel, Representable, FieldsFree, CheckRequired, ToLength;
    var (fields, extra) := TakeAll({}, node.data, NODE_FIELDS);
    NodeFieldsRoundTrip(n);
    LengthIsPositive(n.id, "width", n.width);
    LengthIsPositive(n.id, "height", n.height);
    DraftIsNodeIff(n, z, fields, extra);
    var draft := Drafted(node, fields, extra, FromPixel(node.size.width), FromPixel(node.size.height));
    assert FromNode(node) == if CheckRequired(draft).Ok? then Ok(draft) else Err(CheckRequired(draft).error);
  }

  // One edge.

  ghost predicate EdgeSurvives(e: JsonEdge) {
    FieldsFree(END_FIELDS, e.extra, EDGE_FIELDS, EdgeFieldsOf(e))
  }

  lemma SideNames(side: Side)
    ensures SideFromId(SideHandleId(side)) == Some(side)
  {
    var name := SideHandleId(side).name;
    assert PREFIX <= name && name[|PREFIX|..] == SideName(side);
    assert |SideName(Top)| == 3 && |SideName(Right)| == 5 && |SideName(Bottom)| == 6 && |SideName(Left)| == 4;
  }

  lemma SideRoundTrip(d: Document, node: string, side: Option<Side>)
    ensures EndpointSide(d, SideEndpoint(node, side)) == side
  {
    if side.Some? {
      SideNames(side.value);
    }
  }

  lemma EdgeFieldsRoundTrip(e: JsonEdge)
    ensures var fields := EdgeFieldsOf(e);
            EdgeSurvives(e) <==>
            TakeAll(END_FIELDS, PutAll(e.extra, EDGE_FIELDS, fields), EDGE_FIELDS) == (fields, e.extra)
  {
    hide PutAll, TakeAll;
    assert |EDGE_FIELDS[0]| == 7 && |EDGE_FIELDS[1]| == 5 && |EDGE_FIELDS[2]| == 5 &&
      EDGE_FIELDS[1][0] != EDGE_FIELDS[2][0];
    assert "label" !in END_FIELDS;
    FieldsRoundTripIff(END_FIELDS, e.extra, EDGE_FIELDS, EdgeFieldsOf(e));
  }

  lemma TakenWords(data: Data)
    ensures var fields := TakeAll(END_FIELDS, data, EDGE_FIELDS).0;
            && (fields[0].Some? ==> fields[0].value == "none" || fields[0].value == "arrow")
            && (fields[1].Some? ==> fields[1].value == "none" || fields[1].value == "arrow")
  {
    var one := TakeString(END_FIELDS, data, EDGE_FIELDS[0]);
    var two := TakeString(END_FIELDS, one.1, EDGE_FIELDS[1]);
    assert EDGE_FIELDS[1..][0] == EDGE_FIELDS[1];
    assert TakeAll(END_FIELDS, data, EDGE_FIELDS).0[0] == one.0;
    assert TakeAll(END_FIELDS, one.1, EDGE_FIELDS[1..]).0[0] == two.0;
    assert TakeAll(END_FIELDS, data, EDGE_FIELDS).0[1] == two.0;
  }

  lemma WordRoundTrip(word: Option<string>, shape: Option<EndShape>)
    requires word.Some? ==> word.value == "none" || word.value == "arrow"
    ensures WordShape(word) == shape <==> word == ShapeWord(shape)
  {
    assert "none" != "arrow" by { assert |"none"| == 4 && |"arrow"| == 5; }
  }

  lemma EdgeRoundTripIff(d: Document, e: JsonEdge)
    ensures FromEdge(d, ToEdge(e)) == e <==> EdgeSurvives(e)
  {
    hide PutAll, TakeAll, EdgeSurvives, WordShape, ShapeWord, EndpointSide;
    var edge := ToEdge(e);
    var (fields, extra) := TakeAll(END_FIELDS, edge.data, EDGE_FIELDS);
    EdgeFieldsRoundTrip(e);
    TakenWords(edge.data);
    WordRoundTrip(fields[0], e.fromEnd);
    WordRoundTrip(fields[1], e.toEnd);
    SideRoundTrip(d, e.fromNode, e.fromSide);
    SideRoundTrip(d, e.toNode, e.toSide);
    assert fields == [fields[0], fields[1], fields[2]];
  }

  // Order.

  /** Indices keep their order as 32-bit numbers exactly up to 2^31 of them. */
  lemma SortedIff(ns: seq<Node>)
    requires forall i :: 0 <= i < |ns| ==> ns[i].zIndex == IndexToZ(i)
    ensures Sorted(ns, LowerZ) <==> |ns| <= 0x8000_0000
  {
    if |ns| > 0x8000_0000 {
      assert ns[0].zIndex == 0 && ns[0x8000_0000].zIndex < 0;
    }
  }

  // Lists.

  lemma {:induction false} FromNodesIff(s: seq<Node>, js: seq<JsonNode>)
    ensures FromNodes(s) == Ok(js) <==> |s| == |js| && forall i :: 0 <= i < |s| ==> FromNode(s[i]) == Ok(js[i])
  {
    hide FromNode;
    if s != [] {
      if js != [] {
        FromNodesIff(s[1..], js[1..]);
        assert js == [js[0]] + js[1..];
        if |s| == |js| && forall i :: 0 <= i < |s| ==> FromNode(s[i]) == Ok(js[i]) {
          assert forall i :: 0 <= i < |s[1..]| ==> s[1..][i] == s[i + 1] && js[1..][i] == js[i + 1];
        }
        if FromNodes(s) == Ok(js) {
          assert FromNodes(s).value[1..] == FromNodes(s[1..]).value;
          forall i | 0 <= i < |s| ensures FromNode(s[i]) == Ok(js[i]) {
            assert i > 0 ==> s[1..][i - 1] == s[i] && js[1..][i - 1] == js[i];
          }
        }
      }
    }
  }

  lemma {:induction false} FromEdgesAt(d: Document, s: seq<Edge>)
    ensures |FromEdges(d, s)| == |s| && forall i :: 0 <= i < |s| ==> FromEdges(d, s)[i] == FromEdge(d, s[i])
  {
    hide FromEdge;
    if s != [] {
      FromEdgesAt(d, s[1..]);
    }
  }

  lemma {:induction false} EdgeListFacts(edges: IndexMap<EdgeId, Edge>, keys: seq<EdgeId>)
    requires forall k :: k in keys ==> edges.Has(k)
    ensures |EdgeList(edges, keys)| == |keys|
    ensures forall i :: 0 <= i < |keys| ==>
            keys[i] in edges.entries && EdgeList(edges, keys)[i] == edges.entries[keys[i]]
  {
    if keys != [] {
      assert keys[0] in keys && forall k :: k in keys[1..] ==> k in keys;
      EdgeListFacts(edges, keys[1..]);
      forall i | 0 <= i < |keys|
        ensures keys[i] in edges.entries && EdgeList(edges, keys)[i] == edges.entries[keys[i]]
      {
        assert keys[i] in keys;
        assert i > 0 ==> keys[1..][i - 1] == keys[i];
      }
    }
  }

  /** `ns[i]` is the imported form of node `i`. */
  ghost predicate Imported(ns: seq<Node>, nodes: seq<JsonNode>) {
    && |ns| == |nodes|
    && forall i :: 0 <= i < |ns| ==> ns[i] == PlainNode(nodes[i], IndexToZ(i)).(handles := ns[i].handles)
  }

  lemma ExportKeepsId(node: Node)
    ensures FromNode(node).Ok? ==> FromNode(node).value.id == node.id.name
  {
    hide TakeAll, FromPixel, CheckRequired, ToLength;
  }

  lemma ImportedIds(ns: seq<Node>, nodes: seq<JsonNode>)
    requires Imported(ns, nodes)
    ensures forall i :: 0 <= i < |ns| ==> ns[i].id.name == nodes[i].id && ns[i].zIndex == IndexToZ(i)
  {
    hide PutAll, ToPixel, IndexToZ;
  }

  lemma SortedAway(ns: seq<Node>, sorted: seq<Node>, nodes: seq<JsonNode>)
    requires |ns| == |nodes| == |sorted| && sorted != ns
    requires forall i :: 0 <= i < |ns| ==> ns[i].id.name == nodes[i].id
    requires forall i, j :: 0 <= j < i < |nodes| ==> nodes[j].id != nodes[i].id
    requires forall x :: x in sorted ==> x in ns
    ensures FromNodes(sorted) != Ok(nodes)
  {
    hide FromNode, FromNodes;
    var i :| 0 <= i < |ns| && sorted[i] != ns[i];
    assert sorted[i] in ns;
    var j :| 0 <= j < |ns| && ns[j] == sorted[i];
    FromNodesIff(sorted, nodes);
    ExportKeepsId(sorted[i]);
  }

  lemma NodesRoundTripIff(ns: seq<Node>, nodes: seq<JsonNode>)
    requires Imported(ns, nodes) && FitsFrom(nodes, 0)
    ensures FromNodes(SortByZ(ns)) == Ok(nodes) <==>
            |nodes| <= 0x8000_0000 && forall i :: 0 <= i < |nodes| ==> NodeSurvives(nodes[i])
  {
    hide FromNode, PutAll, ToPixel, IndexToZ, NodeSurvives;
    ImportedIds(ns, nodes);
    SortedIff(ns);
    SortFacts(ns, LowerZ);
    if |nodes| > 0x8000_0000 {
      SortedAway(ns, SortByZ(ns), nodes);
    } else {
      FromNodesIff(ns, nodes);
      forall i | 0 <= i < |nodes| ensures FromNode(ns[i]) == Ok(nodes[i]) <==> NodeSurvives(nodes[i]) {
        NodeRoundTripIff(nodes[i], IndexToZ(i), ns[i]);
      }
    }
  }

  lemma ListedNodes(d: Document, c: Canvas)
    requires ImportedAs(d, c)
    ensures Imported(NodeList(d.nodes, d.nodes.keys), c.nodes)
  {
    hide PlainNode, IndexToZ, ToEdge;
    NodeListFacts(d.nodes, d.nodes.keys);
    var ns := NodeList(d.nodes, d.nodes.keys);
    forall i | 0 <= i < |ns| ensures ns[i] == PlainNode(c.nodes[i], IndexToZ(i)).(handles := ns[i].handles) {
      assert Sided(d.nodes.entries[NodeId(c.nodes[i].id)], PlainNode(c.nodes[i], IndexToZ(i)));
    }
  }

  lemma ListedEdges(d: Document, c: Canvas)
    requires ImportedAs(d, c)
    ensures var es := EdgeList(d.edges, d.edges.keys);
            |es| == |c.edges| && forall i :: 0 <= i < |es| ==> es[i] == ToEdge(c.edges[i])
  {
    hide ToEdge, PlainNode, IndexToZ, Sided;
    EdgeListFacts(d.edges, d.edges.keys);
    forall i | 0 <= i < |c.edges| ensures EdgeList(d.edges, d.edges.keys)[i] == ToEdge(c.edges[i]) {
      assert d.edges.Get(EdgeId(c.edges[i].id)) == Some(ToEdge(c.edges[i]));
    }
  }

  lemma EdgesRoundTripIff(d: Document, c: Canvas)
    requires ImportedAs(d, c)
    ensures FromEdges(d, EdgeList(d.edges, d.edges.keys)) == c.edges <==>
            forall i :: 0 <= i < |c.edges| ==> EdgeSurvives(c.edges[i])
  {
    hide ToEdge, FromEdge, FromEdges, EdgeSurvives, EdgeList, ImportedAs;
    var es := EdgeList(d.edges, d.edges.keys);
    ListedEdges(d, c);
    FromEdgesAt(d, es);
    var out := FromEdges(d, es);
    forall i | 0 <= i < |c.edges| ensures out[i] == c.edges[i] <==> EdgeSurvives(c.edges[i]) {
      EdgeRoundTripIff(d, c.edges[i]);
    }
    if out == c.edges {
      forall i | 0 <= i < |c.edges| ensures EdgeSurvives(c.edges[i]) {
        assert out[i] == c.edges[i];
      }
    }
  }

  /**
   * Import and export give back the same canvas, node and edge order included, exactly when there
   * are at most 2^31 nodes, every coordinate is representable, and no extra key stands for a field.
   */
  lemma CanvasRoundTripIff(c: Canvas)
    requires Import(c).Ok?
    ensures Export(Import(c).value) == Ok(c) <==>
            && |c.nodes| <= 0x8000_0000
            && (forall i :: 0 <= i < |c.nodes| ==> NodeSurvives(c.nodes[i]))
            && (forall i :: 0 <= i < |c.edges| ==> EdgeSurvives(c.edges[i]))
  {
    hide Import, NodeSurvives, EdgeSurvives, FromNodes, FromEdges, SortByZ, NodeList, EdgeList, ImportedAs;
    ImportIff(c);
    var d := Import(c).value;
    ListedNodes(d, c);
    NodesRoundTripIff(NodeList(d.nodes, d.nodes.keys), c.nodes);
    EdgesRoundTripIff(d, c);
  }

  /** The first coordinate that single precision cannot hold is lost. */
  lemma WideCoordinateIsLost(c: Canvas, i: nat)
    requires Import(c).Ok? && i < |c.nodes| && c.nodes[i].x == 0x100_0001
    ensures Export(Import(c).value) != Ok(c)
  {
    hide Import, Export, FieldsFree;
    CanvasRoundTripIff(c);
    assert Spacing(0x100_0001) == 2 * Spacing(0x80_0000) == 2;
    assert !NodeSurvives(c.nodes[i]);
  }

  /** A canvas with such a coordinate, as a file can hold it: one text node. */
  function WideCanvas(): Canvas {
    Canvas([JsonNode("a", "text", 0x100_0001, 0, 0, 0,
                     None, Some(""), None, None, None, None, None, None, map[])], [])
  }

  lemma WideCanvasIsLost()
    ensures Import(WideCanvas()).Ok? && Export(Import(WideCanvas()).value) != Ok(WideCanvas())
  {
    hide Import, Export;
    assert CheckRequired(WideCanvas().nodes[0]).Ok?;
    ImportIff(WideCanvas());
    WideCoordinateIsLost(WideCanvas(), 0);
  }

  /** A stated field under a key that the extra data also has is lost from the extra data. */
  lemma ReservedKeyIsLost(c: Canvas, i: nat, text: string)
    requires Import(c).Ok? && i < |c.nodes| && c.nodes[i].text == Some(text) && "text" in c.nodes[i].extra
    ensures Export(Import(c).value) != Ok(c)
  {
    CanvasRoundTripIff(c);
    assert !KeyIsFree({}, c.nodes[i].extra, NODE_FIELDS[0], FieldsOf(c.nodes[i])[0]);
    assert !NodeSurvives(c.nodes[i]);
  }

  // Handles without a side name are read by position.

  /** Reading the position of a side handle gives its side back exactly when the sides are apart. */
  lemma SidePositionIff(side: Side, size: Size)
    requires size.width >= 0.0 && size.height >= 0.0
    ensures SideFromPosition(size, SidePosition(side, size)) == side <==>
            match side
            case Top => true
            case Right => size.height > 0.0
            case _ => size.width > 0.0 && size.height > 0.0
  {
  }
}
