/** Document validation and the effect of every document command. */
module Commands {
  import opened Prelude
  import opened KeyedLists
  import opened Records
  import opened RelationSets
  import opened RelationValidation

  // Validation.

  function HandleKey(h: Handle): HandleId { h.id }

  function CheckHandles(node: NodeId, hs: seq<Handle>, seen: set<HandleId>): Result<(), DocumentError>
    decreases hs
  {
    if hs == [] then Ok(())
    else if hs[0].id in seen then Err(DuplicateHandle(node, hs[0].id))
    else CheckHandles(node, hs[1..], seen + {hs[0].id})
  }

  function ValidateNode(node: Node): Result<(), DocumentError> {
    CheckHandles(node.id, node.handles, {})
  }

  predicate IsSpace(c: char) {
    || '\U{9}' <= c <= '\U{D}' || c == ' ' || c == '\U{85}' || c == '\U{A0}' || c == '\U{1680}'
    || '\U{2000}' <= c <= '\U{200A}' || c == '\U{2028}' || c == '\U{2029}' || c == '\U{202F}'
    || c == '\U{205F}' || c == '\U{3000}'
  }

  predicate IsBlank(s: string) {
    forall i :: 0 <= i < |s| ==> IsSpace(s[i])
  }

  function CheckRoute(e: Edge): Result<(), DocumentError> {
    if IsBlank(e.route.kind) then Err(EmptyEdgeRouteKind(e.id))
    else if e.route.interactionWidth < 0.0 then Err(InvalidEdgeInteractionWidth(e.id))
    else Ok(())
  }

  /** The handle an endpoint names, if it names one. */
  function EndpointHandle(nodes: map<NodeId, Node>, p: Endpoint): Result<Option<Handle>, DocumentError> {
    if p.node !in nodes then Err(MissingNode(p.node))
    else match p.handle
      case None => Ok(None)
      case Some(h) =>
        match Lookup(nodes[p.node].handles, HandleKey, h)
        case None => Err(MissingHandle(p.node, h))
        case Some(handle) => Ok(Some(handle))
  }

  function CheckSource(nodes: map<NodeId, Node>, p: Endpoint): Result<(), DocumentError> {
    var found :- EndpointHandle(nodes, p);
    match found
    case None => Ok(())
    case Some(handle) =>
      if !handle.connectable then Err(NonConnectableHandle(p.node, handle.id))
      else if handle.role == TargetRole then Err(InvalidSourceHandle(p.node, handle.id))
      else Ok(())
  }

  function CheckTarget(nodes: map<NodeId, Node>, p: Endpoint): Result<(), DocumentError> {
    var found :- EndpointHandle(nodes, p);
    match found
    case None => Ok(())
    case Some(handle) =>
      if !handle.connectable then Err(NonConnectableHandle(p.node, handle.id))
      else if handle.role == SourceRole then Err(InvalidTargetHandle(p.node, handle.id))
      else Ok(())
  }

  function ValidateEdge(nodes: map<NodeId, Node>, e: Edge): Result<(), DocumentError> {
    var _ :- CheckRoute(e);
    var _ :- CheckSource(nodes, e.source);
    CheckTarget(nodes, e.target)
  }

  function CheckNodes(d: Document, ids: seq<NodeId>): Result<(), DocumentError> {
    if ids == [] then Ok(())
    else
      var _ :- if d.nodes.Has(ids[0]) then ValidateNode(d.nodes.entries[ids[0]]) else Ok(());
      CheckNodes(d, ids[1..])
  }

  function CheckEdges(d: Document, ids: seq<EdgeId>): Result<(), DocumentError> {
    if ids == [] then Ok(())
    else
      var _ :- if d.edges.Has(ids[0]) then ValidateEdge(d.nodes.entries, d.edges.entries[ids[0]]) else Ok(());
      CheckEdges(d, ids[1..])
  }

  function ValidateIntegrity(d: Document): Result<(), DocumentError> {
    var _ :- CheckNodes(d, d.nodes.keys);
    var _ :- CheckEdges(d, d.edges.keys);
    ValidateRelations(d)
  }

  // What validation stands for.

  ghost predicate HandlesApart(node: Node) {
    forall i, j :: 0 <= i < j < |node.handles| ==> node.handles[i].id != node.handles[j].id
  }

  /** The first handle with that id. */
  ghost predicate FirstHandle(node: Node, id: HandleId, h: Handle) {
    exists i :: 0 <= i < |node.handles| && node.handles[i] == h && h.id == id &&
                forall j :: 0 <= j < i ==> node.handles[j].id != id
  }

  /** The end's node exists and the handle it names, if any, is there, connectable and not of the barred role. */
  ghost predicate EndFits(nodes: map<NodeId, Node>, p: Endpoint, barred: HandleRole) {
    && p.node in nodes
    && (p.handle.Some? ==>
          exists h :: FirstHandle(nodes[p.node], p.handle.value, h) && h.connectable && h.role != barred)
  }

  ghost predicate EdgeFits(nodes: map<NodeId, Node>, e: Edge) {
    && (exists i :: 0 <= i < |e.route.kind| && e.route.kind[i] !in WHITE_SPACE)
    && e.route.interactionWidth >= 0.0
    && EndFits(nodes, e.source, TargetRole)
    && EndFits(nodes, e.target, SourceRole)
  }

  const WHITE_SPACE :=
    "\t\n\U{B}\U{C}\r \U{85}\U{A0}\U{1680}\U{2000}\U{2001}\U{2002}\U{2003}\U{2004}\U{2005}\U{2006}" +
    "\U{2007}\U{2008}\U{2009}\U{200A}\U{2028}\U{2029}\U{202F}\U{205F}\U{3000}"

  lemma SpaceIsWhiteSpace(c: char)
    ensures IsSpace(c) <==> c in WHITE_SPACE
  {
  }

  lemma {:induction false} CheckHandlesIff(node: NodeId, hs: seq<Handle>, seen: set<HandleId>)
    ensures CheckHandles(node, hs, seen).Ok? <==> Unique(hs, HandleKey) && forall h :: h in hs ==> h.id !in seen
    decreases hs
  {
    if hs != [] {
      CheckHandlesIff(node, hs[1..], seen + {hs[0].id});
      assert hs == [hs[0]] + hs[1..];
      UniqueSplit(hs, HandleKey);
    }
  }

  /** A node passes exactly when no two of its handles share an id. */
  lemma ValidateNodeIff(node: Node)
    ensures ValidateNode(node).Ok? <==> HandlesApart(node)
  {
    CheckHandlesIff(node.id, node.handles, {});
    forall i, j | 0 <= i < j < |node.handles|
      ensures HandleKey(node.handles[i]) == node.handles[i].id && HandleKey(node.handles[j]) == node.handles[j].id
    {
    }
  }

  lemma {:induction false} LookupIsFirst(hs: seq<Handle>, id: HandleId)
    ensures Lookup(hs, HandleKey, id).Some? ==>
              exists i :: 0 <= i < |hs| && hs[i] == Lookup(hs, HandleKey, id).value && hs[i].id == id &&
                          forall j :: 0 <= j < i ==> hs[j].id != id
    ensures Lookup(hs, HandleKey, id).None? ==> forall i :: 0 <= i < |hs| ==> hs[i].id != id
  {
    if hs != [] && hs[0].id != id {
      LookupIsFirst(hs[1..], id);
      var found := Lookup(hs[1..], HandleKey, id);
      if found.Some? {
        var i :| 0 <= i < |hs[1..]| && hs[1..][i] == found.value && hs[1..][i].id == id &&
                 forall j :: 0 <= j < i ==> hs[1..][j].id != id;
        assert hs[i + 1] == found.value && forall j :: 0 < j < i + 1 ==> hs[j] == hs[1..][j - 1];
      } else {
        assert forall j :: 0 < j < |hs| ==> hs[j] == hs[1..][j - 1];
      }
    }
  }

  lemma FoundIsFirst(node: Node, id: HandleId, h: Handle)
    ensures FirstHandle(node, id, h) <==> Lookup(node.handles, HandleKey, id) == Some(h)
  {
    LookupIsFirst(node.handles, id);
    hide Lookup;
  }

  /** An endpoint passes the source check exactly when it fits where a target is barred, and conversely. */
  lemma EndsCheckedIff(nodes: map<NodeId, Node>, p: Endpoint)
    ensures CheckSource(nodes, p).Ok? <==> EndFits(nodes, p, TargetRole)
    ensures CheckTarget(nodes, p).Ok? <==> EndFits(nodes, p, SourceRole)
  {
    if p.node in nodes && p.handle.Some? {
      var node := nodes[p.node];
      var found := Lookup(node.handles, HandleKey, p.handle.value);
      LookupIsFirst(node.handles, p.handle.value);
      hide Lookup;
      assert forall h :: FirstHandle(node, p.handle.value, h) <==> found == Some(h);
    }
  }

  /**
   * An edge passes exactly when its route kind is not blank, its interaction width is not negative and
   * both its ends fit.
   */
  lemma ValidateEdgeIff(nodes: map<NodeId, Node>, e: Edge)
    ensures ValidateEdge(nodes, e).Ok? <==> EdgeFits(nodes, e)
  {
    hide CheckSource, CheckTarget, EndFits;
    EndsCheckedIff(nodes, e.source);
    EndsCheckedIff(nodes, e.target);
    forall i | 0 <= i < |e.route.kind| ensures IsSpace(e.route.kind[i]) <==> e.route.kind[i] in WHITE_SPACE {
      SpaceIsWhiteSpace(e.route.kind[i]);
    }
    hide IsSpace;
  }

  /** The handle that `p` names is there and is `h`. */
  ghost predicate Finds(nodes: map<NodeId, Node>, p: Endpoint, h: Handle) {
    p.node in nodes && p.handle.Some? && FirstHandle(nodes[p.node], p.handle.value, h)
  }

  /** What a refusal tells about an end of the edge. */
  ghost predicate EndRefused(nodes: map<NodeId, Node>, p: Endpoint, error: DocumentError, isSource: bool) {
    match error
    case MissingNode(n) => n == p.node && n !in nodes
    case MissingHandle(n, id) =>
      p == Endpoint(n, Some(id)) && n in nodes && forall h :: h in nodes[n].handles ==> h.id != id
    case NonConnectableHandle(n, id) =>
      p == Endpoint(n, Some(id)) && exists h :: Finds(nodes, p, h) && !h.connectable
    case InvalidSourceHandle(n, id) =>
      isSource && p == Endpoint(n, Some(id)) && exists h :: Finds(nodes, p, h) && h.connectable && h.role == TargetRole
    case InvalidTargetHandle(n, id) =>
      !isSource && p == Endpoint(n, Some(id)) && exists h :: Finds(nodes, p, h) && h.connectable && h.role == SourceRole
    case _ => false
  }

  lemma EndRefusal(nodes: map<NodeId, Node>, p: Endpoint)
    ensures CheckSource(nodes, p).Err? ==> EndRefused(nodes, p, CheckSource(nodes, p).error, true)
    ensures CheckTarget(nodes, p).Err? ==> EndRefused(nodes, p, CheckTarget(nodes, p).error, false)
  {
    if p.node in nodes && p.handle.Some? {
      var found := Lookup(nodes[p.node].handles, HandleKey, p.handle.value);
      LookupIsFirst(nodes[p.node].handles, p.handle.value);
      if found.Some? {
        assert Finds(nodes, p, found.value) && found.value.id == p.handle.value;
      }
    }
  }

  /** A refused edge is refused for what is wrong with it: the route first, then the source, then the target. */
  lemma EdgeRefusal(nodes: map<NodeId, Node>, e: Edge)
    requires ValidateEdge(nodes, e).Err?
    ensures var error := ValidateEdge(nodes, e).error;
            if forall i :: 0 <= i < |e.route.kind| ==> e.route.kind[i] in WHITE_SPACE
            then error == EmptyEdgeRouteKind(e.id)
            else if e.route.interactionWidth < 0.0 then error == InvalidEdgeInteractionWidth(e.id)
            else if !EndFits(nodes, e.source, TargetRole) then EndRefused(nodes, e.source, error, true)
            else EndRefused(nodes, e.target, error, false)
  {
    hide CheckSource, CheckTarget, EndFits, EndRefused;
    EndsCheckedIff(nodes, e.source);
    EndRefusal(nodes, e.source);
    EndRefusal(nodes, e.target);
    forall i | 0 <= i < |e.route.kind| ensures IsSpace(e.route.kind[i]) <==> e.route.kind[i] in WHITE_SPACE {
      SpaceIsWhiteSpace(e.route.kind[i]);
    }
    hide IsSpace;
  }

  /** A refused node has two handles of the id that is blamed. */
  lemma {:induction false} NodeRefusal(node: NodeId, hs: seq<Handle>, seen: set<HandleId>)
    requires CheckHandles(node, hs, seen).Err?
    ensures exists id, j :: 0 <= j < |hs| && CheckHandles(node, hs, seen) == Err(DuplicateHandle(node, id)) &&
                            hs[j].id == id && (id in seen || exists i :: 0 <= i < j && hs[i].id == id)
    decreases hs
  {
    if hs[0].id in seen {
      assert hs[0].id in seen && CheckHandles(node, hs, seen) == Err(DuplicateHandle(node, hs[0].id));
    } else {
      var t := hs[1..];
      NodeRefusal(node, t, seen + {hs[0].id});
      var id, j :| 0 <= j < |t| && CheckHandles(node, t, seen + {hs[0].id}) == Err(DuplicateHandle(node, id)) &&
                   t[j].id == id && (id in seen + {hs[0].id} || exists i :: 0 <= i < j && t[i].id == id);
      assert hs[j + 1].id == id;
      if id !in seen && id != hs[0].id {
        var i :| 0 <= i < j && t[i].id == id;
        assert hs[i + 1].id == id;
      }
    }
  }

  ghost predicate NodesSound(d: Document): (sound: bool)
    ensures sound <==> forall n :: n in d.nodes.entries ==> ValidateNode(d.nodes.entries[n]).Ok?
  {
    NodesPassIff(d.nodes.entries);
    forall n {:trigger HandlesApart(d.nodes.entries[n])} :: n in d.nodes.entries ==> HandlesApart(d.nodes.entries[n])
  }

  lemma NodesPassIff(nodes: map<NodeId, Node>)
    ensures forall n {:trigger HandlesApart(nodes[n])} {:trigger ValidateNode(nodes[n])} ::
              n in nodes ==> (ValidateNode(nodes[n]).Ok? <==> HandlesApart(nodes[n]))
  {
    forall n | n in nodes ensures ValidateNode(nodes[n]).Ok? <==> HandlesApart(nodes[n]) {
      ValidateNodeIff(nodes[n]);
    }
  }

  ghost predicate EdgesSound(d: Document): (sound: bool)
    ensures sound <==> forall e :: e in d.edges.entries ==> ValidateEdge(d.nodes.entries, d.edges.entries[e]).Ok?
  {
    EdgesPassIff(d.nodes.entries, d.edges.entries);
    forall e {:trigger EdgeFits(d.nodes.entries, d.edges.entries[e])} ::
      e in d.edges.entries ==> EdgeFits(d.nodes.entries, d.edges.entries[e])
  }

  lemma EdgesPassIff(nodes: map<NodeId, Node>, edges: map<EdgeId, Edge>)
    ensures forall e {:trigger EdgeFits(nodes, edges[e])} {:trigger ValidateEdge(nodes, edges[e])} ::
              e in edges ==> (ValidateEdge(nodes, edges[e]).Ok? <==> EdgeFits(nodes, edges[e]))
  {
    forall e | e in edges ensures ValidateEdge(nodes, edges[e]).Ok? <==> EdgeFits(nodes, edges[e]) {
      ValidateEdgeIff(nodes, edges[e]);
    }
  }

  lemma SoundIsClosed(d: Document)
    requires EdgesSound(d)
    ensures d.Closed()
  {
    forall e | e in d.edges.entries
      ensures d.edges.entries[e].source.node in d.nodes.entries && d.edges.entries[e].target.node in d.nodes.entries
    {
      assert ValidateEdge(d.nodes.entries, d.edges.entries[e]).Ok?;
    }
  }

  /** Everything but the relations: records filed under their ids, handles unique, edges attached. */
  ghost predicate RecordsSound(d: Document) {
    d.Filed() && NodesSound(d) && EdgesSound(d)
  }

  ghost predicate Sound(d: Document) {
    RecordsSound(d) && RelationsSound(d)
  }

  lemma {:induction false} CheckNodesIff(d: Document, ids: seq<NodeId>)
    ensures CheckNodes(d, ids).Ok? <==>
            forall n :: n in ids && n in d.nodes.entries ==> ValidateNode(d.nodes.entries[n]).Ok?
  {
    if ids != [] {
      CheckNodesIff(d, ids[1..]);
      assert ids == [ids[0]] + ids[1..];
    }
  }

  lemma {:induction false} CheckEdgesIff(d: Document, ids: seq<EdgeId>)
    ensures CheckEdges(d, ids).Ok? <==>
            forall e :: e in ids && e in d.edges.entries ==> ValidateEdge(d.nodes.entries, d.edges.entries[e]).Ok?
  {
    if ids != [] {
      CheckEdgesIff(d, ids[1..]);
      assert ids == [ids[0]] + ids[1..];
    }
  }

  lemma ValidateIntegrityIff(d: Document)
    requires d.Filed()
    ensures ValidateIntegrity(d).Ok? <==> Sound(d)
  {
    CheckNodesIff(d, d.nodes.keys);
    CheckEdgesIff(d, d.edges.keys);
    ValidateRelationsIff(d);
  }

  /** Whether an edge is valid depends only on the two nodes it names. */
  lemma EdgeDependsOnItsNodes(m: map<NodeId, Node>, n: map<NodeId, Node>, e: Edge)
    requires e.source.node in m <==> e.source.node in n
    requires e.target.node in m <==> e.target.node in n
    requires e.source.node in m ==> m[e.source.node] == n[e.source.node]
    requires e.target.node in m ==> m[e.target.node] == n[e.target.node]
    ensures ValidateEdge(m, e) == ValidateEdge(n, e)
  {
  }

  // Commands.

  predicate Touches(e: Edge, n: NodeId) {
    e.source.node == n || e.target.node == n
  }

  function Detached(n: NodeId): Edge -> bool {
    (e: Edge) => !Touches(e, n)
  }

  function Apply(d: Document, c: Command): Result<Document, DocumentError> {
    match c
    case InsertNode(node) =>
      if d.nodes.Has(node.id) then Err(DuplicateNode(node.id))
      else
        var _ :- ValidateNode(node);
        Ok(d.(nodes := d.nodes.Insert(node.id, node)))
    case UpdateNode(node) =>
      if !d.nodes.Has(node.id) then Err(MissingNode(node.id))
      else
        var _ :- ValidateNode(node);
        var draft := d.(nodes := d.nodes.Insert(node.id, node));
        var _ :- ValidateIntegrity(draft);
        Ok(draft)
    case RemoveNode(id) =>
      if !d.nodes.Has(id) then Err(MissingNode(id))
      else Ok(d.(nodes := d.nodes.ShiftRemove(id), edges := d.edges.Retain(Detached(id))))
    case InsertEdge(edge) =>
      if d.edges.Has(edge.id) then Err(DuplicateEdge(edge.id))
      else
        var _ :- ValidateEdge(d.nodes.entries, edge);
        Ok(d.(edges := d.edges.Insert(edge.id, edge)))
    case UpdateEdge(edge) =>
      if !d.edges.Has(edge.id) then Err(MissingEdge(edge.id))
      else
        var _ :- ValidateEdge(d.nodes.entries, edge);
        Ok(d.(edges := d.edges.Insert(edge.id, edge)))
    case RemoveEdge(id) =>
      if !d.edges.Has(id) then Err(MissingEdge(id))
      else Ok(d.(edges := d.edges.ShiftRemove(id)))
    case InsertShape(shape) =>
      if d.shapes.Has(shape.id) then Err(DuplicateShape(shape.id))
      else Ok(d.(shapes := d.shapes.Insert(shape.id, shape)))
    case UpdateShape(shape) =>
      if !d.shapes.Has(shape.id) then Err(MissingShape(shape.id))
      else Ok(d.(shapes := d.shapes.Insert(shape.id, shape)))
    case RemoveShape(id) =>
      if !d.shapes.Has(id) then Err(MissingShape(id))
      else Ok(d.(shapes := d.shapes.ShiftRemove(id)))
    case SetRecordParent(child, parent) =>
      if child == parent then Err(SelfParentRelation(child))
      else
        var _ :- CheckRecord(d, child);
        var _ :- CheckRecord(d, parent);
        Ok(d.(relations := WithParent(d.relations, child, parent)))
    case ClearRecordParent(child) => Ok(d.(relations := WithoutParent(d.relations, child)))
    case AddRecordToGroup(group, member) =>
      if group == member then Err(SelfParentRelation(group))
      else
        var _ :- CheckRecord(d, group);
        var _ :- CheckRecord(d, member);
        Ok(d.(relations := WithMember(d.relations, group, member)))
    case RemoveRecordFromGroup(group, member) => Ok(d.(relations := WithoutMember(d.relations, group, member)))
    case SetRecordBinding(b) =>
      if b.source == b.target then Err(SelfBindingRelation(b.source))
      else
        var _ :- CheckRecord(d, b.source);
        var _ :- CheckRecord(d, b.target);
        Ok(d.(relations := WithBinding(d.relations, b)))
    case RemoveRecordBinding(id) => Ok(d.(relations := WithoutBinding(d.relations, id)))
  }

  lemma UpdateDraft(y: Document, node: Node)
    requires y.Filed() && y.nodes.Has(node.id) && ValidateNode(node).Ok?
    ensures Apply(y, UpdateNode(node)).Ok? <==> Sound(y.(nodes := y.nodes.Insert(node.id, node)))
    ensures Apply(y, UpdateNode(node)).Ok? ==>
            Apply(y, UpdateNode(node)).value == y.(nodes := y.nodes.Insert(node.id, node))
  {
    ValidateIntegrityIff(y.(nodes := y.nodes.Insert(node.id, node)));
  }

  function ApplyAll(d: Document, cs: seq<Command>): Result<Document, DocumentError>
    decreases cs
  {
    if cs == [] then Ok(d)
    else
      var next :- Apply(d, cs[0]);
      ApplyAll(next, cs[1..])
  }

  function Existing(d: Document): RecordId -> bool {
    (x: RecordId) => d.Contains(x)
  }

  function PruneMissing(d: Document): Document {
    d.(relations := Prune(d.relations, Existing(d)))
  }

  lemma {:induction false} ApplyConcat(d: Document, a: seq<Command>, b: seq<Command>)
    ensures ApplyAll(d, a + b) ==
            (match ApplyAll(d, a) case Ok(next) => ApplyAll(next, b) case Err(e) => Err(e))
    decreases a
  {
    if a == [] {
      assert a + b == b;
    } else {
      assert (a + b)[1..] == a[1..] + b;
      var first := Apply(d, a[0]);
      if first.Ok? {
        ApplyConcat(first.value, a[1..], b);
      }
    }
  }

  predicate IsRelationCommand(c: Command) {
    || c.SetRecordParent? || c.ClearRecordParent? || c.AddRecordToGroup?
    || c.RemoveRecordFromGroup? || c.SetRecordBinding? || c.RemoveRecordBinding?
  }

  lemma InsertOrRemoveNodeKeepsSound(d: Document, c: Command)
    requires RecordsSound(d) && Apply(d, c).Ok? && (c.InsertNode? || c.RemoveNode?)
    ensures RecordsSound(Apply(d, c).value)
  {
    hide ValidateEdge, ValidateNode, ValidateIntegrity, CheckRecord;
    SoundIsClosed(d);
    var d' := Apply(d, c).value;
    forall e | e in d'.edges.entries ensures ValidateEdge(d'.nodes.entries, d'.edges.entries[e]).Ok? {
      EdgeDependsOnItsNodes(d.nodes.entries, d'.nodes.entries, d.edges.entries[e]);
    }
  }

  lemma UpdateNodeKeepsSound(d: Document, c: Command)
    requires d.Filed() && Apply(d, c).Ok? && c.UpdateNode?
    ensures Sound(Apply(d, c).value)
  {
    ValidateIntegrityIff(Apply(d, c).value);
  }

  lemma EdgeCommandKeepsSound(d: Document, c: Command)
    requires RecordsSound(d) && Apply(d, c).Ok? && (c.InsertEdge? || c.UpdateEdge? || c.RemoveEdge?)
    ensures RecordsSound(Apply(d, c).value)
  {
    hide ValidateEdge, ValidateNode, ValidateIntegrity, CheckRecord;
  }

  lemma ShapeCommandKeepsSound(d: Document, c: Command)
    requires RecordsSound(d) && Apply(d, c).Ok? && (c.InsertShape? || c.UpdateShape? || c.RemoveShape?)
    ensures RecordsSound(Apply(d, c).value)
  {
    hide ValidateEdge, ValidateNode, ValidateIntegrity, CheckRecord;
  }

  lemma RelationCommandKeepsWellFormed(d: Document, c: Command)
    requires Apply(d, c).Ok? && IsRelationCommand(c)
    ensures Apply(d, c).value == d.(relations := Apply(d, c).value.relations)
    ensures WellFormed(d.relations) ==> WellFormed(Apply(d, c).value.relations)
  {
    var r := d.relations;
    match c
    case SetRecordParent(child, parent) => UpsertKeys(r.parents, ChildKey, ParentRelation(child, parent));
    case ClearRecordParent(child) => RemoveKeys(r.parents, ChildKey, child);
    case AddRecordToGroup(group, member) => UpsertKeys(r.groups, GroupKey, GroupRelation(group, member));
    case RemoveRecordFromGroup(group, member) => RemoveKeys(r.groups, GroupKey, GroupRelation(group, member));
    case SetRecordBinding(b) => UpsertKeys(r.bindings, BindingKey, b);
    case RemoveRecordBinding(id) => RemoveKeys(r.bindings, BindingKey, id);
  }

  /** Every command that succeeds keeps the records sound and the relation lists well formed. */
  lemma ApplyKeepsRecordsSound(d: Document, c: Command)
    requires RecordsSound(d) && Apply(d, c).Ok?
    ensures RecordsSound(Apply(d, c).value)
    ensures WellFormed(d.relations) ==> WellFormed(Apply(d, c).value.relations)
  {
    if IsRelationCommand(c) {
      RelationCommandKeepsWellFormed(d, c);
    } else if c.InsertNode? || c.RemoveNode? {
      InsertOrRemoveNodeKeepsSound(d, c);
    } else if c.UpdateNode? {
      UpdateNodeKeepsSound(d, c);
    } else if c.InsertEdge? || c.UpdateEdge? || c.RemoveEdge? {
      EdgeCommandKeepsSound(d, c);
    } else {
      ShapeCommandKeepsSound(d, c);
    }
  }

  lemma {:induction false} ApplyAllKeepsRecordsSound(d: Document, cs: seq<Command>)
    requires RecordsSound(d) && ApplyAll(d, cs).Ok?
    ensures RecordsSound(ApplyAll(d, cs).value)
    ensures WellFormed(d.relations) ==> WellFormed(ApplyAll(d, cs).value.relations)
    decreases cs
  {
    if cs != [] {
      ApplyKeepsRecordsSound(d, cs[0]);
      ApplyAllKeepsRecordsSound(Apply(d, cs[0]).value, cs[1..]);
    }
  }
}
