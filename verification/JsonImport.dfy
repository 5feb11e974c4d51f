/** When a JSON Canvas is accepted, and the document it becomes. */
module JsonImport {
  import opened Prelude
  import opened KeyedLists
  import opened IndexMaps
  import opened Records
  import opened RelationReplay
  import opened RelationValidation
  import opened Commands
  import opened Mutations
  import opened Gestures
  import opened PasteTheorems
  import opened JsonFields
  import opened JsonCanvas

  // Collecting the nodes.

  /** Of a known kind, with the field that its kind requires, and of a size that is not negative. */
  predicate NodeFits(n: JsonNode): (fits: bool)
    ensures fits <==> CheckRequired(n).Ok? && n.width >= 0 && n.height >= 0
  {
    assert "text" != "file" && "link" != "text" && "link" != "file" by {
      assert "text"[0] != "file"[0] && "link"[0] != "text"[0] && "link"[0] != "file"[0];
    }
    && n.width >= 0 && n.height >= 0
    && ((n.kind == "text" && n.text.Some?) || (n.kind == "file" && n.file.Some?) ||
        (n.kind == "link" && n.url.Some?) || n.kind == "group")
  }

  /** The first `k` nodes, in order. */
  ghost predicate Holds(m: NodeMap, nodes: seq<JsonNode>, k: nat) {
    && m.Valid() && k <= |nodes| && |m.keys| == k
    && forall i :: 0 <= i < k ==>
      && m.keys[i] == NodeId(nodes[i].id)
      && m.Get(NodeId(nodes[i].id)) == Some(PlainNode(nodes[i], IndexToZ(i)))
  }

  ghost predicate FitsFrom(nodes: seq<JsonNode>, k: nat) {
    forall i :: k <= i < |nodes| ==> NodeFits(nodes[i]) && forall j :: 0 <= j < i ==> nodes[j].id != nodes[i].id
  }

  lemma HoldsOne(m: NodeMap, nodes: seq<JsonNode>, k: nat)
    requires Holds(m, nodes, k) && k < |nodes| && !m.Has(NodeId(nodes[k].id))
    ensures Holds(m.Insert(NodeId(nodes[k].id), PlainNode(nodes[k], IndexToZ(k))), nodes, k + 1)
  {
    hide PlainNode, IndexToZ;
    var id := NodeId(nodes[k].id);
    var next := m.Insert(id, PlainNode(nodes[k], IndexToZ(k)));
    assert next.Valid() && next.keys == m.keys + [id];
    forall i | 0 <= i < k
      ensures next.keys[i] == NodeId(nodes[i].id) &&
              next.Get(NodeId(nodes[i].id)) == Some(PlainNode(nodes[i], IndexToZ(i)))
    {
      assert m.keys[i] in m.keys;
    }
  }

  lemma HasEarlier(m: NodeMap, nodes: seq<JsonNode>, k: nat, id: string)
    requires Holds(m, nodes, k)
    ensures m.Has(NodeId(id)) <==> exists j :: 0 <= j < k && nodes[j].id == id
  {
    hide PlainNode, IndexToZ;
    if m.Has(NodeId(id)) {
      var j :| 0 <= j < |m.keys| && m.keys[j] == NodeId(id);
    }
  }

  lemma {:induction false} CollectIff(nodes: seq<JsonNode>, from: nat, acc: NodeMap)
    requires Holds(acc, nodes, from)
    ensures CollectNodes(nodes, from, acc).Ok? <==> FitsFrom(nodes, from)
    ensures CollectNodes(nodes, from, acc).Ok? ==> Holds(CollectNodes(nodes, from, acc).value, nodes, |nodes|)
    decreases |nodes| - from
  {
    hide PlainNode, IndexToZ, CheckRequired, Holds;
    if from < |nodes| {
      HasEarlier(acc, nodes, from, nodes[from].id);
      var id := NodeId(nodes[from].id);
      if !acc.Has(id) && NodeFits(nodes[from]) {
        HoldsOne(acc, nodes, from);
        CollectIff(nodes, from + 1, acc.Insert(id, PlainNode(nodes[from], IndexToZ(from))));
      }
    } else {
      HoldsAll(acc, nodes, from);
    }
  }

  lemma HoldsAll(m: NodeMap, nodes: seq<JsonNode>, k: nat)
    requires Holds(m, nodes, k)
    ensures k <= |nodes|
  {
  }

  // Side handles.

  /** `n` is `b` with side handles, each of its own side. */
  ghost predicate Sided(n: Node, b: Node) {
    && n == b.(handles := n.handles)
    && Unique(n.handles, HandleKey)
    && forall h :: h in n.handles ==> exists side :: h == SideHandle(side, b.size)
  }

  ghost predicate AllSided(m: NodeMap, base: NodeMap) {
    && m.Valid() && m.keys == base.keys && m.entries.Keys == base.entries.Keys
    && forall id :: id in m.entries ==> Sided(m.entries[id], base.entries[id])
  }

  predicate SideThere(m: NodeMap, node: string, side: Option<Side>) {
    side.Some? && m.Has(NodeId(node)) ==>
      Lookup(m.entries[NodeId(node)].handles, HandleKey, SideHandleId(side.value)).Some?
  }

  lemma WithSideFacts(n: Node, b: Node, side: Side)
    requires Sided(n, b)
    ensures Sided(WithSide(n, side), b)
    ensures Lookup(WithSide(n, side).handles, HandleKey, SideHandleId(side)).Some?
    ensures forall id :: Lookup(n.handles, HandleKey, id).Some? ==>
            Lookup(WithSide(n, side).handles, HandleKey, id).Some?
  {
    hide SidePosition, SideName;
    var h := SideHandle(side, b.size);
    var more := n.handles + [h];
    if Lookup(n.handles, HandleKey, SideHandleId(side)).None? {
      forall i, j | 0 <= i < j < |more| ensures HandleKey(more[i]) != HandleKey(more[j]) {
        assert more[i] in n.handles;
      }
      forall id | Lookup(n.handles, HandleKey, id).Some? ensures Lookup(more, HandleKey, id).Some? {
        assert Lookup(n.handles, HandleKey, id).value in more;
      }
      assert h in more;
    }
  }

  lemma EnsureSideFacts(m: NodeMap, base: NodeMap, node: string, side: Option<Side>)
    requires AllSided(m, base)
    ensures AllSided(EnsureSide(m, node, side), base) && SideThere(EnsureSide(m, node, side), node, side)
    ensures forall n, s :: SideThere(m, n, s) ==> SideThere(EnsureSide(m, node, side), n, s)
  {
    hide Sided, WithSide, SideHandle;
    var id := NodeId(node);
    if side.Some? && m.Has(id) {
      WithSideFacts(m.entries[id], base.entries[id], side.value);
      assert forall n :: NodeId(n) == id ==> n == node;
    }
  }

  ghost predicate EdgeSidesThere(m: NodeMap, e: JsonEdge) {
    SideThere(m, e.fromNode, e.fromSide) && SideThere(m, e.toNode, e.toSide)
  }

  lemma {:induction false} EnsureSidesFacts(m: NodeMap, base: NodeMap, edges: seq<JsonEdge>)
    requires AllSided(m, base)
    ensures AllSided(EnsureSides(m, edges), base)
    ensures forall n, s :: SideThere(m, n, s) ==> SideThere(EnsureSides(m, edges), n, s)
    ensures forall e :: e in edges ==> EdgeSidesThere(EnsureSides(m, edges), e)
    decreases edges
  {
    hide AllSided, EnsureSide, SideThere;
    if edges != [] {
      var e := edges[0];
      var m1 := EnsureSide(m, e.fromNode, e.fromSide);
      var m2 := EnsureSide(m1, e.toNode, e.toSide);
      EnsureSideFacts(m, base, e.fromNode, e.fromSide);
      EnsureSideFacts(m1, base, e.toNode, e.toSide);
      EnsureSidesFacts(m2, base, edges[1..]);
      assert edges == [e] + edges[1..];
    }
  }

  // Handles are valid, and sided endpoints find theirs.

  lemma EndpointFits(m: NodeMap, base: NodeMap, node: string, side: Option<Side>)
    requires AllSided(m, base) && SideThere(m, node, side)
    ensures CheckSource(m.entries, SideEndpoint(node, side)).Ok? <==> NodeId(node) in m.entries
    ensures CheckTarget(m.entries, SideEndpoint(node, side)).Ok? <==> NodeId(node) in m.entries
  {
    var id := NodeId(node);
    if id in m.entries && side.Some? {
      var h := Lookup(m.entries[id].handles, HandleKey, SideHandleId(side.value)).value;
      assert Sided(m.entries[id], base.entries[id]) && h in m.entries[id].handles;
    }
  }

  lemma EdgeFitsIff(m: NodeMap, base: NodeMap, e: JsonEdge)
    requires AllSided(m, base) && EdgeSidesThere(m, e)
    ensures ValidateEdge(m.entries, ToEdge(e)).Ok? <==> NodeId(e.fromNode) in m.entries && NodeId(e.toNode) in m.entries
  {
    hide CheckSource, CheckTarget, AllSided;
    EndpointFits(m, base, e.fromNode, e.fromSide);
    EndpointFits(m, base, e.toNode, e.toSide);
    assert !IsSpace("straight"[0]);
  }

  // Inserting.

  lemma {:induction false} NodeListFacts(m: NodeMap, keys: seq<NodeId>)
    requires forall k :: k in keys ==> m.Has(k)
    ensures |NodeList(m, keys)| == |keys|
    ensures forall i :: 0 <= i < |keys| ==> keys[i] in m.entries && NodeList(m, keys)[i] == m.entries[keys[i]]
  {
    if keys != [] {
      assert keys[0] in keys && forall k :: k in keys[1..] ==> k in keys;
      NodeListFacts(m, keys[1..]);
      forall i | 0 <= i < |keys| ensures keys[i] in m.entries && NodeList(m, keys)[i] == m.entries[keys[i]] {
        assert keys[i] in keys;
        assert i > 0 ==> keys[1..][i - 1] == keys[i];
      }
    }
  }

  lemma {:induction false} InsertNodesKeys(x: Document, ns: seq<Node>)
    requires ApplyAll(x, Map(InsertNodeCommand, ns)).Ok?
    ensures ApplyAll(x, Map(InsertNodeCommand, ns)).value.nodes.keys == x.nodes.keys + Map(NodeKey, ns)
    decreases ns
  {
    if ns != [] {
      FirstCommand(x, InsertNodeCommand, ns);
      var next := Apply(x, InsertNode(ns[0])).value;
      InsertNodesKeys(next, ns[1..]);
      assert x.nodes.keys + [ns[0].id] + Map(NodeKey, ns[1..]) == x.nodes.keys + Map(NodeKey, ns);
    }
  }

  lemma {:induction false} InsertEdgesKeys(x: Document, es: seq<Edge>)
    requires ApplyAll(x, Map(InsertEdgeCommand, es)).Ok?
    ensures ApplyAll(x, Map(InsertEdgeCommand, es)).value.edges.keys == x.edges.keys + Map(EdgeKey, es)
    decreases es
  {
    if es != [] {
      FirstCommand(x, InsertEdgeCommand, es);
      var next := Apply(x, InsertEdge(es[0])).value;
      InsertEdgesKeys(next, es[1..]);
      assert x.edges.keys + [es[0].id] + Map(EdgeKey, es[1..]) == x.edges.keys + Map(EdgeKey, es);
    }
  }

  // The theorem.

  predicate NamedIn(nodes: seq<JsonNode>, id: string) {
    exists j :: 0 <= j < |nodes| && nodes[j].id == id
  }

  function JsonEdgeKey(e: JsonEdge): string { e.id }

  /** Distinct ids, required fields, no negative size, and every edge end among the nodes. */
  ghost predicate Acceptable(c: Canvas) {
    && FitsFrom(c.nodes, 0)
    && Unique(c.edges, JsonEdgeKey)
    && forall e :: e in c.edges ==> NamedIn(c.nodes, e.fromNode) && NamedIn(c.nodes, e.toNode)
  }

  /** The nodes in order, with side handles only, and the edges in order. */
  ghost predicate ImportedAs(d: Document, c: Canvas) {
    && |d.nodes.keys| == |c.nodes| && |d.edges.keys| == |c.edges|
    && (forall i :: 0 <= i < |c.nodes| ==>
          && d.nodes.keys[i] == NodeId(c.nodes[i].id) && d.nodes.Has(NodeId(c.nodes[i].id))
          && Sided(d.nodes.entries[NodeId(c.nodes[i].id)], PlainNode(c.nodes[i], IndexToZ(i))))
    && (forall i :: 0 <= i < |c.edges| ==>
          d.edges.keys[i] == EdgeId(c.edges[i].id) && d.edges.Get(EdgeId(c.edges[i].id)) == Some(ToEdge(c.edges[i])))
    && d == EMPTY_DOCUMENT.(nodes := d.nodes, edges := d.edges)
    && Sound(d)
  }

  lemma PlainNodesAreSided(m: NodeMap, nodes: seq<JsonNode>)
    requires Holds(m, nodes, |nodes|)
    ensures AllSided(m, m) && forall id :: id in m.entries ==> m.entries[id].id == id
  {
    hide IndexToZ, PutAll;
    forall id | id in m.entries ensures m.entries[id].handles == [] && m.entries[id].id == id {
      var j :| 0 <= j < |m.keys| && m.keys[j] == id;
      assert m.Get(NodeId(nodes[j].id)) == Some(PlainNode(nodes[j], IndexToZ(j)));
    }
  }

  lemma SidedNodesAreValid(m: NodeMap, base: NodeMap)
    requires AllSided(m, base) && forall id :: id in base.entries ==> base.entries[id].id == id
    ensures ValidNodes(m)
  {
    forall id | id in m.entries ensures ValidateNode(m.entries[id]).Ok? && m.entries[id].id == id {
      assert Sided(m.entries[id], base.entries[id]);
      CheckHandlesIff(m.entries[id].id, m.entries[id].handles, {});
    }
  }

  ghost predicate Lists(ns: seq<Node>, m: NodeMap) {
    && |ns| == |m.keys|
    && forall i :: 0 <= i < |ns| ==> m.keys[i] in m.entries && ns[i] == m.entries[m.keys[i]] && ns[i].id == m.keys[i]
  }

  ghost predicate ValidNodes(m: NodeMap) {
    m.Valid() && forall id :: id in m.entries ==> ValidateNode(m.entries[id]).Ok? && m.entries[id].id == id
  }

  lemma NodesInserted(m: NodeMap)
    requires ValidNodes(m)
    ensures ApplyAll(EMPTY_DOCUMENT, Map(InsertNodeCommand, NodeList(m, m.keys))) == Ok(EMPTY_DOCUMENT.(nodes := m))
  {
    NodeListFacts(m, m.keys);
    ListInserted(m, NodeList(m, m.keys));
  }

  lemma ListInsertable(m: NodeMap, ns: seq<Node>)
    requires ValidNodes(m) && Lists(ns, m)
    ensures Unique(ns, NodeKey) && forall n :: n in ns ==> ValidateNode(n).Ok?
  {
    hide ValidateNode;
    forall n | n in ns ensures ValidateNode(n).Ok? {
      var i :| 0 <= i < |ns| && ns[i] == n;
    }
  }

  lemma ListInserted(m: NodeMap, ns: seq<Node>)
    requires ValidNodes(m) && Lists(ns, m)
    ensures ApplyAll(EMPTY_DOCUMENT, Map(InsertNodeCommand, ns)) == Ok(EMPTY_DOCUMENT.(nodes := m))
  {
    ListInsertable(m, ns);
    hide ApplyAll, Map, ValidateNode, ValidNodes, Unique;
    var y := InsertNodesApply(EMPTY_DOCUMENT, ns);
    InsertNodesKeys(EMPTY_DOCUMENT, ns);
    SameKeys(m, ns);
    forall k ensures y.nodes.Get(k) == m.Get(k) {
      ListedNode(m, ns, k);
    }
    SameEntries(y.nodes, m);
  }

  lemma SameKeys(m: NodeMap, ns: seq<Node>)
    requires |ns| == |m.keys| && forall i :: 0 <= i < |ns| ==> ns[i].id == m.keys[i]
    ensures [] + Map(NodeKey, ns) == m.keys
  {
  }

  lemma ListedNode(m: NodeMap, ns: seq<Node>, k: NodeId)
    requires ValidNodes(m) && Lists(ns, m)
    ensures Lookup(ns, NodeKey, k) == m.Get(k)
  {
    var found := Lookup(ns, NodeKey, k);
    if found.Some? {
      var i :| 0 <= i < |ns| && ns[i] == found.value;
    }
    if m.Has(k) {
      var i :| 0 <= i < |m.keys| && m.keys[i] == k;
      assert ns[i] in ns && NodeKey(ns[i]) == k;
    }
  }

  lemma EdgesInsertedIff(m: NodeMap, base: NodeMap, edges: seq<JsonEdge>)
    requires AllSided(m, base) && forall e :: e in edges ==> EdgeSidesThere(m, e)
    ensures ApplyAll(EMPTY_DOCUMENT.(nodes := m), Map(InsertEdgeCommand, Map(ToEdge, edges))).Ok? <==>
            Unique(edges, JsonEdgeKey) && forall e :: e in edges ==>
              m.Has(NodeId(e.fromNode)) && m.Has(NodeId(e.toNode))
  {
    var x := EMPTY_DOCUMENT.(nodes := m);
    var es := Map(ToEdge, edges);
    InsertEdgesIff(x, es);
    hide ApplyAll, ValidateEdge, AllSided, EdgeSidesThere;
    assert Unique(es, EdgeKey) <==> Unique(edges, JsonEdgeKey) by {
      hide *;
      SameUniqueness(edges);
    }
    forall e | e in edges ensures Insertable(x, ToEdge(e)) <==> m.Has(NodeId(e.fromNode)) && m.Has(NodeId(e.toNode)) {
      EdgeFitsIff(m, base, e);
    }
    if forall e :: e in es ==> Insertable(x, e) {
      forall e | e in edges ensures Insertable(x, ToEdge(e)) {
        MapElement(ToEdge, edges, e);
      }
    }
    if forall e :: e in edges ==> Insertable(x, ToEdge(e)) {
      forall f | f in es ensures Insertable(x, f) {
        var e := MapSource(ToEdge, edges, f);
      }
    }
  }

  lemma SameUniqueness(edges: seq<JsonEdge>)
    ensures Unique(Map(ToEdge, edges), EdgeKey) <==> Unique(edges, JsonEdgeKey)
  {
    hide PutAll;
    var es := Map(ToEdge, edges);
    assert forall i :: 0 <= i < |edges| ==> EdgeKey(es[i]) == EdgeId(edges[i].id);
    if Unique(es, EdgeKey) {
      forall i, j | 0 <= i < j < |edges| ensures edges[i].id != edges[j].id {
        assert EdgeKey(es[i]) != EdgeKey(es[j]);
      }
    }
  }

  lemma EndsIff(base: NodeMap, nodes: seq<JsonNode>, edges: seq<JsonEdge>)
    requires Holds(base, nodes, |nodes|)
    ensures (forall e :: e in edges ==> base.Has(NodeId(e.fromNode)) && base.Has(NodeId(e.toNode))) <==>
            (forall e :: e in edges ==> NamedIn(nodes, e.fromNode) && NamedIn(nodes, e.toNode))
  {
    hide Holds;
    forall id ensures base.Has(NodeId(id)) <==> NamedIn(nodes, id) {
      HasEarlier(base, nodes, |nodes|, id);
    }
  }

  lemma BuiltWhenInserted(m: NodeMap, nodes: seq<Command>, edges: seq<Command>)
    requires ApplyAll(EMPTY_DOCUMENT, nodes) == Ok(EMPTY_DOCUMENT.(nodes := m)) && m.Valid()
    ensures Built(nodes + edges).Ok? <==> BuiltFrom(m, edges).Ok?
    ensures Built(nodes + edges).Ok? ==> Built(nodes + edges).value == BuiltFrom(m, edges).value
  {
    ApplyConcat(EMPTY_DOCUMENT, nodes, edges);
  }

  function BuiltFrom(m: NodeMap, edges: seq<Command>): Result<Document, JsonError> {
    match ApplyAll(EMPTY_DOCUMENT.(nodes := m), edges)
    case Err(e) => Err(Invalid(e))
    case Ok(d) =>
      match ValidateRelations(PruneMissing(d))
      case Err(e) => Err(Invalid(e))
      case Ok(_) => Ok(PruneMissing(d))
  }

  /** With no relations the final checks cannot fail. */
  lemma NothingToPrune(d: Document)
    requires d.relations == Relations([], [], [])
    ensures PruneMissing(d) == d && ValidateRelations(d).Ok? && RelationsSound(d)
  {
    NoRelationsAreSound(d);
    ValidateRelationsIff(d);
  }

  lemma EdgesBuilt(m: NodeMap, base: NodeMap, edges: seq<JsonEdge>)
    requires AllSided(m, base) && ValidNodes(m) && forall e :: e in edges ==> EdgeSidesThere(m, e)
    ensures var r := BuiltFrom(m, Map(InsertEdgeCommand, Map(ToEdge, edges)));
            && (r.Ok? <==>
               Unique(edges, JsonEdgeKey) && forall e :: e in edges ==>
               m.Has(NodeId(e.fromNode)) && m.Has(NodeId(e.toNode)))
            && (r.Ok? ==> EdgesAre(r.value, m, edges))
  {
    EdgesInsertedIff(m, base, edges);
    hide AllSided, EdgeSidesThere, ToEdge, EdgesAre, ApplyAll, Map, ValidNodes, PruneMissing, ValidateRelations, Unique;
    if ApplyAll(EMPTY_DOCUMENT.(nodes := m), Map(InsertEdgeCommand, Map(ToEdge, edges))).Ok? {
      EdgesApplied(m, edges);
    }
  }

  lemma NodesAloneAreSound(m: NodeMap)
    requires ValidNodes(m)
    ensures RecordsSound(EMPTY_DOCUMENT.(nodes := m))
  {
    hide ValidateNode, ValidateEdge;
  }

  lemma EdgesApplied(m: NodeMap, edges: seq<JsonEdge>)
    requires ValidNodes(m) && ApplyAll(EMPTY_DOCUMENT.(nodes := m), Map(InsertEdgeCommand, Map(ToEdge, edges))).Ok?
    ensures var y := ApplyAll(EMPTY_DOCUMENT.(nodes := m), Map(InsertEdgeCommand, Map(ToEdge, edges))).value;
            EdgesAre(y, m, edges) && PruneMissing(y) == y && ValidateRelations(y).Ok?
  {
    hide ToEdge, ApplyAll, Map, ValidNodes, Insertable, PruneMissing, ValidateRelations, RecordsSound, RelationsSound,
         Unique, Lookup;
    var x := EMPTY_DOCUMENT.(nodes := m);
    var es := Map(ToEdge, edges);
    NodesAloneAreSound(m);
    ApplyAllKeepsRecordsSound(x, Map(InsertEdgeCommand, es));
    var y := EdgesThere(x, es, edges);
    NothingToPrune(y);
  }

  lemma EdgesThere(x: Document, es: seq<Edge>, edges: seq<JsonEdge>) returns (y: Document)
    requires es == Map(ToEdge, edges) && ApplyAll(x, Map(InsertEdgeCommand, es)).Ok? && x.edges == Empty()
    ensures ApplyAll(x, Map(InsertEdgeCommand, es)) == Ok(y) && y == x.(edges := y.edges) && |y.edges.keys| == |edges|
    ensures forall i :: 0 <= i < |edges| ==>
              y.edges.keys[i] == EdgeId(edges[i].id) && y.edges.Get(EdgeId(edges[i].id)) == Some(ToEdge(edges[i]))
  {
    hide ToEdge, ApplyAll, ValidateEdge, Lookup;
    InsertEdgesIff(x, es);
    y := InsertEdgesApply(x, es);
    InsertEdgesKeys(x, es);
    assert y.edges.keys == Map(EdgeKey, es);
    hide Map, Unique;
    forall i | 0 <= i < |edges|
      ensures y.edges.Get(EdgeId(edges[i].id)) == Some(ToEdge(edges[i])) && Map(EdgeKey, es)[i] == EdgeId(edges[i].id)
    {
      EdgeFound(y, es, edges, i);
    }
  }

  ghost predicate EdgesAre(d: Document, m: NodeMap, edges: seq<JsonEdge>) {
    && d == EMPTY_DOCUMENT.(nodes := m, edges := d.edges)
    && |d.edges.keys| == |edges|
    && (forall i :: 0 <= i < |edges| ==>
          d.edges.keys[i] == EdgeId(edges[i].id) && d.edges.Get(EdgeId(edges[i].id)) == Some(ToEdge(edges[i])))
    && Sound(d)
  }

  lemma EdgeFound(y: Document, es: seq<Edge>, edges: seq<JsonEdge>, i: nat)
    requires es == Map(ToEdge, edges) && Unique(es, EdgeKey) && i < |edges|
    requires forall e :: y.edges.Get(e) == if Lookup(es, EdgeKey, e).Some? then Lookup(es, EdgeKey, e) else None
    ensures y.edges.Get(EdgeId(edges[i].id)) == Some(ToEdge(edges[i])) && Map(EdgeKey, es)[i] == EdgeId(edges[i].id)
  {
    hide PutAll;
    assert es[i] == ToEdge(edges[i]) && es[i] in es && EdgeKey(es[i]) == EdgeId(edges[i].id);
    LookupMember(es, EdgeKey, es[i]);
    hide Unique, ToEdge;
  }

  lemma ImportInSteps(c: Canvas, base: NodeMap, m: NodeMap)
    requires CollectNodes(c.nodes, 0, Empty()) == Ok(base) && m == EnsureSides(base, c.edges) && ValidNodes(m)
    ensures Import(c).Ok? <==> BuiltFrom(m, Map(InsertEdgeCommand, Map(ToEdge, c.edges))).Ok?
    ensures Import(c).Ok? ==> Import(c).value == BuiltFrom(m, Map(InsertEdgeCommand, Map(ToEdge, c.edges))).value
  {
    hide CollectNodes, EnsureSides, Map, NodeList, ApplyAll, Built, BuiltFrom;
    NodesInserted(m);
    BuiltWhenInserted(m, Map(InsertNodeCommand, NodeList(m, m.keys)), Map(InsertEdgeCommand, Map(ToEdge, c.edges)));
  }

  lemma NodesAre(d: Document, base: NodeMap, m: NodeMap, c: Canvas)
    requires Holds(base, c.nodes, |c.nodes|) && AllSided(m, base) && EdgesAre(d, m, c.edges)
    ensures ImportedAs(d, c)
  {
    hide PlainNode, IndexToZ, ToEdge, Sided;
    forall i | 0 <= i < |c.nodes|
      ensures d.nodes.keys[i] == NodeId(c.nodes[i].id) && d.nodes.Has(NodeId(c.nodes[i].id))
      ensures Sided(d.nodes.entries[NodeId(c.nodes[i].id)], PlainNode(c.nodes[i], IndexToZ(i)))
    {
      assert base.Get(NodeId(c.nodes[i].id)) == Some(PlainNode(c.nodes[i], IndexToZ(i)));
    }
  }

  /**
   * A canvas is imported exactly when it is acceptable, and the document then holds its nodes and
   * edges in order and is valid: in particular every sided endpoint has its handle, and the handle
   * ids of a node are distinct.
   */
  lemma ImportIff(c: Canvas)
    ensures Import(c).Ok? <==> Acceptable(c)
    ensures Import(c).Ok? ==> ImportedAs(Import(c).value, c)
  {
    hide FitsFrom, Holds, AllSided, EdgesAre, ImportedAs, CollectNodes, EnsureSides, BuiltFrom, EdgeSidesThere,
         SideThere, ValidNodes;
    HoldsNothing(c.nodes);
    CollectIff(c.nodes, 0, Empty());
    if CollectNodes(c.nodes, 0, Empty()).Ok? {
      var base := CollectNodes(c.nodes, 0, Empty()).value;
      var m := EnsureSides(base, c.edges);
      PlainNodesAreSided(base, c.nodes);
      EnsureSidesFacts(base, base, c.edges);
      SidedNodesAreValid(m, base);
      ImportInSteps(c, base, m);
      EdgesBuilt(m, base, c.edges);
      EndsIff(base, c.nodes, c.edges);
      SameHas(m, base);
      if Import(c).Ok? {
        NodesAre(Import(c).value, base, m, c);
      }
    } else {
      assert Import(c).Err?;
    }
  }

  lemma HoldsNothing(nodes: seq<JsonNode>)
    ensures Holds(Empty(), nodes, 0)
  {
  }

  lemma SameHas(m: NodeMap, base: NodeMap)
    requires AllSided(m, base)
    ensures forall id :: m.Has(id) <==> base.Has(id)
  {
  }
}
