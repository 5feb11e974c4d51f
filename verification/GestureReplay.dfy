/** When the commands between two states replay, and what they lead to. */
module GestureReplay {
  import opened Prelude
  import opened KeyedLists
  import opened IndexMaps
  import opened Records
  import opened RelationSets
  import opened RelationValidation
  import opened Reachability
  import opened Commands
  import opened RelationReplay
  import opened Gestures
  import opened Mutations
  import opened Journal

  // Removals always apply.

  lemma {:induction false} RemoveEdgesEffect(x: Document, ids: seq<EdgeId>) returns (y: Document)
    requires Distinct(ids) && forall e :: e in ids ==> x.edges.Has(e)
    ensures ApplyAll(x, Map(RemoveEdgeCommand, ids)) == Ok(y) && y == x.(edges := y.edges)
    ensures forall e :: y.edges.Get(e) == if e in ids then None else x.edges.Get(e)
    decreases ids
  {
    y := x;
    if ids != [] {
      FirstCommand(x, RemoveEdgeCommand, ids);
      TailDiffers(ids);
      y := RemoveEdgesEffect(Apply(x, RemoveEdge(ids[0])).value, ids[1..]);
      assert forall e :: e in ids <==> e == ids[0] || e in ids[1..];
    }
  }

  lemma {:induction false} RemoveShapesEffect(x: Document, ids: seq<ShapeId>) returns (y: Document)
    requires Distinct(ids) && forall s :: s in ids ==> x.shapes.Has(s)
    ensures ApplyAll(x, Map(RemoveShapeCommand, ids)) == Ok(y) && y == x.(shapes := y.shapes)
    ensures forall s :: y.shapes.Get(s) == if s in ids then None else x.shapes.Get(s)
    decreases ids
  {
    y := x;
    if ids != [] {
      FirstCommand(x, RemoveShapeCommand, ids);
      TailDiffers(ids);
      y := RemoveShapesEffect(Apply(x, RemoveShape(ids[0])).value, ids[1..]);
      assert forall s :: s in ids <==> s == ids[0] || s in ids[1..];
    }
  }

  predicate TouchesAny(e: Edge, ids: seq<NodeId>) {
    e.source.node in ids || e.target.node in ids
  }

  lemma {:induction false} RemoveNodesEffect(x: Document, ids: seq<NodeId>) returns (y: Document)
    requires Distinct(ids) && forall n :: n in ids ==> x.nodes.Has(n)
    ensures ApplyAll(x, Map(RemoveNodeCommand, ids)) == Ok(y) && y == x.(nodes := y.nodes, edges := y.edges)
    ensures forall n :: y.nodes.Get(n) == if n in ids then None else x.nodes.Get(n)
    ensures forall e :: y.edges.Get(e) == if x.edges.Has(e) && TouchesAny(x.edges.entries[e], ids) then None
            else x.edges.Get(e)
    decreases ids
  {
    y := x;
    if ids != [] {
      FirstCommand(x, RemoveNodeCommand, ids);
      TailDiffers(ids);
      y := RemoveNodesEffect(Apply(x, RemoveNode(ids[0])).value, ids[1..]);
      assert forall n :: n in ids <==> n == ids[0] || n in ids[1..];
    }
  }

  /** Both ends of an edge survive. */
  predicate EndsIn(target: Document, e: Edge) {
    target.nodes.Has(e.source.node) && target.nodes.Has(e.target.node)
  }

  /** The state after the removals: the common records, less the edges at a dropped node. */
  ghost predicate AfterRemovals(x: Document, previous: Document, target: Document) {
    && (forall n :: x.nodes.Get(n) == if target.nodes.Has(n) then previous.nodes.Get(n) else None)
    && (forall s :: x.shapes.Get(s) == if target.shapes.Has(s) then previous.shapes.Get(s) else None)
    && (forall e :: x.edges.Get(e) ==
                    if target.edges.Has(e) && previous.edges.Has(e) && EndsIn(target, previous.edges.entries[e])
                    then previous.edges.Get(e) else None)
    && x.relations == previous.relations
  }

  lemma DroppedIds<K(!new), V>(previous: IndexMap<K, V>, target: IndexMap<K, V>)
    requires previous.Valid()
    ensures var ids := Filter(previous.keys, NotIn(target));
            Distinct(ids) && forall k :: k in ids <==> previous.Has(k) && !target.Has(k)
  {
    FilterMembers(previous.keys, NotIn(target));
    FilterDistinct(previous.keys, NotIn(target));
  }

  lemma KeysAreValid(d: Document)
    requires RecordsSound(d)
    ensures d.nodes.Valid() && d.edges.Valid() && d.shapes.Valid()
  {
  }

  lemma RemovalsApply(previous: Document, target: Document) returns (x: Document)
    requires RecordsSound(previous)
    ensures ApplyAll(previous, Removals(previous, target)) == Ok(x)
    ensures AfterRemovals(x, previous, target) && RecordsSound(x)
  {
    hide RecordsSound, Filter, Map, Apply, ApplyAll;
    KeysAreValid(previous);
    var edges := Filter(previous.edges.keys, NotIn(target.edges));
    var shapes := Filter(previous.shapes.keys, NotIn(target.shapes));
    var nodes := Filter(previous.nodes.keys, NotIn(target.nodes));
    DroppedIds(previous.edges, target.edges);
    DroppedIds(previous.shapes, target.shapes);
    DroppedIds(previous.nodes, target.nodes);
    var a := RemoveEdgesEffect(previous, edges);
    var b := RemoveShapesEffect(a, shapes);
    x := RemoveNodesEffect(b, nodes);
    ApplyConcat(a, Map(RemoveShapeCommand, shapes), Map(RemoveNodeCommand, nodes));
    ApplyConcat(previous, Map(RemoveEdgeCommand, edges), Map(RemoveShapeCommand, shapes) +
      Map(RemoveNodeCommand, nodes));
    ApplyAllKeepsRecordsSound(previous, Removals(previous, target));
    EdgesLeft(previous, target, edges, nodes, x.edges);
  }

  lemma EdgesLeft(previous: Document, target: Document, edges: seq<EdgeId>, nodes: seq<NodeId>,
                  left: IndexMap<EdgeId, Edge>)
    requires RecordsSound(previous)
    requires forall e :: e in edges <==> previous.edges.Has(e) && !target.edges.Has(e)
    requires forall n :: n in nodes <==> previous.nodes.Has(n) && !target.nodes.Has(n)
    requires forall e :: left.Get(e) ==
                         if e in edges || (previous.edges.Has(e) && TouchesAny(previous.edges.entries[e], nodes)) then
                           None else previous.edges.Get(e)
    ensures forall e :: left.Get(e) ==
                        if target.edges.Has(e) && previous.edges.Has(e) && EndsIn(target, previous.edges.entries[e])
                        then previous.edges.Get(e) else None
  {
    forall e ensures left.Get(e) ==
                     if target.edges.Has(e) && previous.edges.Has(e) && EndsIn(target, previous.edges.entries[e])
                     then previous.edges.Get(e) else None
    {
      if previous.edges.Has(e) {
        assert ValidateEdge(previous.nodes.entries, previous.edges.entries[e]).Ok?;
      }
    }
  }

  // Nodes: inserted and updated one by one; each update checks the whole document.

  ghost predicate Updated<K, V>(previous: IndexMap<K, V>, target: IndexMap<K, V>, k: K) {
    previous.Has(k) && target.Has(k) && previous.entries[k] != target.entries[k]
  }

  /** The edges at `n` accept the target's version of it. */
  ghost predicate FitsAt(x: Document, target: Document, n: NodeId) {
    forall e :: e in x.edges.entries ==>
      && (x.edges.entries[e].source.node == n ==> CheckSource(target.nodes.entries, x.edges.entries[e].source).Ok?)
      && (x.edges.entries[e].target.node == n ==> CheckTarget(target.nodes.entries, x.edges.entries[e].target).Ok?)
  }

  ghost predicate RelationsHeld(r: Relations, d: Document) {
    WithinScope(r, Existing(d))
  }

  lemma RelationsSoundWhenHeld(d: Document, previous: Document)
    requires RelationsSound(previous) && d.relations == previous.relations
    ensures RelationsSound(d) <==> RelationsHeld(d.relations, d)
  {
  }

  lemma MixedNodesFit(y: Document, target: Document, n: NodeId)
    requires RecordsSound(y) && y.nodes.Has(n) && target.nodes.Has(n) && target.nodes.entries[n].id == n
    requires ValidateNode(target.nodes.entries[n]).Ok?
    ensures var draft := y.(nodes := y.nodes.Insert(n, target.nodes.entries[n]));
            && draft.Filed() && NodesSound(draft)
            && (EdgesSound(draft) <==> FitsAt(y, target, n))
  {
    var draft := y.(nodes := y.nodes.Insert(n, target.nodes.entries[n]));
    forall e | e in y.edges.entries
      ensures ValidateEdge(draft.nodes.entries, y.edges.entries[e]).Ok? <==>
              && (y.edges.entries[e].source.node == n ==>
                 CheckSource(target.nodes.entries, y.edges.entries[e].source).Ok?)
              && (y.edges.entries[e].target.node == n ==>
                 CheckTarget(target.nodes.entries, y.edges.entries[e].target).Ok?)
    {
      var edge := y.edges.entries[e];
      assert ValidateEdge(y.nodes.entries, edge).Ok?;
      OneNodeReplaced(y.nodes.entries, draft.nodes.entries, target.nodes.entries, n, edge);
    }
  }

  lemma OneNodeReplaced(before: map<NodeId, Node>, after: map<NodeId, Node>, target: map<NodeId, Node>, n: NodeId,
                        edge: Edge)
    requires n in target && after == before[n := target[n]] && ValidateEdge(before, edge).Ok?
    ensures ValidateEdge(after, edge).Ok? <==>
            && (edge.source.node == n ==> CheckSource(target, edge.source).Ok?)
            && (edge.target.node == n ==> CheckTarget(target, edge.target).Ok?)
  {
  }

  /** An update is accepted exactly when the edges at the node fit and no relation dangles. */
  lemma UpdateAcceptedIff(y: Document, previous: Document, target: Document, n: NodeId, draft: Document)
    requires RecordsSound(y) && RelationsSound(previous) && y.relations == previous.relations
    requires y.nodes.Has(n) && target.nodes.Has(n) && target.nodes.entries[n].id == n &&
             ValidateNode(target.nodes.entries[n]).Ok?
    requires draft == y.(nodes := y.nodes.Insert(n, target.nodes.entries[n]))
    ensures Apply(y, UpdateNode(target.nodes.entries[n])).Ok? <==>
            FitsAt(y, target, n) && RelationsHeld(previous.relations, y)
    ensures Apply(y, UpdateNode(target.nodes.entries[n])).Ok? ==>
            Apply(y, UpdateNode(target.nodes.entries[n])).value == draft
  {
    hide RelationsSound, NodesSound, EdgesSound, FitsAt, WithinScope, Apply, ValidateNode;
    UpdateDraft(y, target.nodes.entries[n]);
    MixedNodesFit(y, target, n);
    RelationsSoundWhenHeld(draft, previous);
    SameExistence(y, draft, previous.relations);
  }

  lemma SameExistence(y: Document, draft: Document, r: Relations)
    requires forall id: RecordId :: draft.Contains(id) <==> y.Contains(id)
    ensures RelationsHeld(r, draft) <==> RelationsHeld(r, y)
  {
  }

  /** Records named by sound relations exist, so a new node cannot make one of them appear. */
  lemma InsertKeepsHeld(y: Document, node: Node, previous: Document)
    requires RelationsSound(previous) && !previous.nodes.Has(node.id)
    ensures RelationsHeld(previous.relations, y) <==>
            RelationsHeld(previous.relations, y.(nodes := y.nodes.Insert(node.id, node)))
  {
    var draft := y.(nodes := y.nodes.Insert(node.id, node));
    assert forall id: RecordId :: id != NodeRecord(node.id) ==> (draft.Contains(id) <==> y.Contains(id));
  }

  lemma FirstUpsert<K, V>(x: Document, keys: seq<K>, previous: IndexMap<K, V>, target: IndexMap<K, V>,
                          insert: V -> Command, update: V -> Command)
    requires keys != []
    ensures ApplyAll(x, Upserts(keys, previous, target, insert, update)) ==
            match ApplyAll(x, UpsertOne(keys[0], previous, target, insert, update))
            case Ok(y) => ApplyAll(y, Upserts(keys[1..], previous, target, insert, update))
            case Err(e) => Err(e)
  {
    ApplyConcat(x, UpsertOne(keys[0], previous, target, insert, update),
      Upserts(keys[1..], previous, target, insert, update));
  }

  /** The target's version of `n` is accepted: it is unchanged, new, or a possible update. */
  ghost predicate NodeAccepted(y: Document, previous: Document, target: Document, n: NodeId) {
    Updated(previous.nodes, target.nodes, n) ==> FitsAt(y, target, n) && RelationsHeld(previous.relations, y)
  }

  lemma OneNode(y: Document, previous: Document, target: Document, n: NodeId)
    requires RecordsSound(y) && RelationsSound(previous) && y.relations == previous.relations
    requires target.Filed() && NodesSound(target) && target.nodes.Has(n) && y.nodes.Get(n) == previous.nodes.Get(n)
    ensures var r := ApplyAll(y, UpsertOne(n, previous.nodes, target.nodes, InsertNodeCommand, UpdateNodeCommand));
            && (r.Ok? <==> NodeAccepted(y, previous, target, n))
            && (r.Ok? ==>
               r.value.nodes.entries == y.nodes.entries[n := target.nodes.entries[n]] &&
               r.value == y.(nodes := r.value.nodes))
            && (r.Ok? ==> (RelationsHeld(previous.relations, y) <==> RelationsHeld(previous.relations, r.value)))
  {
    hide ValidateIntegrity, RelationsSound, FitsAt, RelationsHeld, ValidateNode, EdgesSound;
    var node := target.nodes.entries[n];
    var draft := y.(nodes := y.nodes.Insert(n, node));
    if !previous.nodes.Has(n) {
      InsertKeepsHeld(y, node, previous);
    } else if previous.nodes.entries[n] != node {
      UpdateAcceptedIff(y, previous, target, n, draft);
      SameExistence(y, draft, previous.relations);
    }
  }

  lemma {:induction false} NodesReplay(y: Document, previous: Document, target: Document, keys: seq<NodeId>)
    requires RecordsSound(y) && RelationsSound(previous) && y.relations == previous.relations
    requires target.Filed() && NodesSound(target) && Distinct(keys)
    requires forall n :: n in keys ==> target.nodes.Has(n) && y.nodes.Get(n) == previous.nodes.Get(n)
    ensures var r := ApplyAll(y, NodeUpserts(previous, target, keys));
            && (r.Ok? <==> forall n :: n in keys ==> NodeAccepted(y, previous, target, n))
            && (r.Ok? ==> r.value == y.(nodes := r.value.nodes) && RecordsSound(r.value))
            && (r.Ok? ==> forall n :: r.value.nodes.Get(n) == if n in keys then target.nodes.Get(n) else y.nodes.Get(n))
    decreases keys
  {
    hide RelationsSound, FitsAt, RelationsHeld, RecordsSound, UpsertOne, NodesSound;
    if keys != [] {
      FirstUpsert(y, keys, previous.nodes, target.nodes, InsertNodeCommand, UpdateNodeCommand);
      OneNode(y, previous, target, keys[0]);
      var r := ApplyAll(y, UpsertOne(keys[0], previous.nodes, target.nodes, InsertNodeCommand, UpdateNodeCommand));
      assert forall n :: n in keys <==> n == keys[0] || n in keys[1..];
      if r.Ok? {
        ApplyAllKeepsRecordsSound(y,
          UpsertOne(keys[0], previous.nodes, target.nodes, InsertNodeCommand, UpdateNodeCommand));
        TailDiffers(keys);
        NodesReplay(r.value, previous, target, keys[1..]);
        forall n | n in keys[1..]
          ensures NodeAccepted(y, previous, target, n) <==> NodeAccepted(r.value, previous, target, n)
        {
          SameEdgesFit(y, r.value, target, n);
        }
      }
    }
  }

  lemma TailDiffers<K>(keys: seq<K>)
    requires Distinct(keys) && keys != []
    ensures Distinct(keys[1..]) && forall k :: k in keys[1..] ==> k in keys && k != keys[0]
  {
    forall k | k in keys[1..] ensures k in keys && k != keys[0] {
      var i :| 0 <= i < |keys[1..]| && keys[1..][i] == k;
      assert keys[i + 1] == k;
    }
  }

  lemma SameEdgesFit(y: Document, z: Document, target: Document, n: NodeId)
    requires y.edges == z.edges
    ensures FitsAt(y, target, n) <==> FitsAt(z, target, n)
  {
  }

  // Shapes always apply; an edge update needs the edge to have survived the node removals.

  lemma OneShape(y: Document, previous: Document, target: Document, s: ShapeId) returns (z: Document)
    requires target.Filed() && target.shapes.Has(s) && y.shapes.Get(s) == previous.shapes.Get(s)
    ensures ApplyAll(y, UpsertOne(s, previous.shapes, target.shapes, InsertShapeCommand, UpdateShapeCommand)) == Ok(z)
    ensures z == y.(shapes := z.shapes) && z.shapes.entries == y.shapes.entries[s := target.shapes.entries[s]]
  {
    var shape := target.shapes.entries[s];
    z := if previous.shapes.Get(s) == Some(shape) then y else y.(shapes := y.shapes.Insert(s, shape));
  }

  lemma {:induction false} ShapesReplay(y: Document, previous: Document, target: Document, keys: seq<ShapeId>)
    returns (z: Document)
    requires target.Filed() && Distinct(keys)
    requires forall s :: s in keys ==> target.shapes.Has(s) && y.shapes.Get(s) == previous.shapes.Get(s)
    ensures ApplyAll(y, ShapeUpserts(previous, target, keys)) == Ok(z) && z == y.(shapes := z.shapes)
    ensures forall s :: z.shapes.Get(s) == if s in keys then target.shapes.Get(s) else y.shapes.Get(s)
    decreases keys
  {
    z := y;
    if keys != [] {
      FirstUpsert(y, keys, previous.shapes, target.shapes, InsertShapeCommand, UpdateShapeCommand);
      var z1 := OneShape(y, previous, target, keys[0]);
      TailDiffers(keys);
      z := ShapesReplay(z1, previous, target, keys[1..]);
      assert forall s :: s in keys <==> s == keys[0] || s in keys[1..];
    }
  }

  /** `e` is as in the previous state, or was lost with a node and has another form in the target. */
  ghost predicate KeptOrLost(y: Document, previous: Document, target: Document, e: EdgeId) {
    || y.edges.Get(e) == previous.edges.Get(e)
    || (y.edges.Get(e) == None && Updated(previous.edges, target.edges, e))
  }

  lemma OneEdge(y: Document, previous: Document, target: Document, e: EdgeId)
    requires target.Filed() && EdgesSound(target) && y.nodes.entries == target.nodes.entries
    requires target.edges.Has(e) && KeptOrLost(y, previous, target, e)
    ensures var r := ApplyAll(y, UpsertOne(e, previous.edges, target.edges, InsertEdgeCommand, UpdateEdgeCommand));
            && (r.Ok? <==> (Updated(previous.edges, target.edges, e) ==> y.edges.Has(e)))
            && (r.Ok? ==>
               r.value.edges.entries == y.edges.entries[e := target.edges.entries[e]] &&
               r.value == y.(edges := r.value.edges))
  {
    hide ValidateEdge, ValidateIntegrity;
    assert ValidateEdge(y.nodes.entries, target.edges.entries[e]).Ok?;
  }

  lemma {:induction false} EdgesReplay(y: Document, previous: Document, target: Document, keys: seq<EdgeId>)
    requires target.Filed() && EdgesSound(target) && Distinct(keys) && y.nodes.entries == target.nodes.entries
    requires forall e :: e in keys ==> target.edges.Has(e) && KeptOrLost(y, previous, target, e)
    ensures var r := ApplyAll(y, EdgeUpserts(previous, target, keys));
            && (r.Ok? <==> forall e :: e in keys && Updated(previous.edges, target.edges, e) ==> y.edges.Has(e))
            && (r.Ok? ==> r.value == y.(edges := r.value.edges))
            && (r.Ok? ==> forall e :: r.value.edges.Get(e) == if e in keys then target.edges.Get(e) else y.edges.Get(e))
    decreases keys
  {
    hide EdgesSound, UpsertOne;
    if keys != [] {
      FirstUpsert(y, keys, previous.edges, target.edges, InsertEdgeCommand, UpdateEdgeCommand);
      OneEdge(y, previous, target, keys[0]);
      var r := ApplyAll(y, UpsertOne(keys[0], previous.edges, target.edges, InsertEdgeCommand, UpdateEdgeCommand));
      assert forall e :: e in keys <==> e == keys[0] || e in keys[1..];
      if r.Ok? {
        TailDiffers(keys);
        EdgesReplay(r.value, previous, target, keys[1..]);
      }
    }
  }

  // Relations.  Here `ok` is existence in the target.

  lemma RelationsReplay(y: Document, previous: Document, target: Document, ok: RecordId -> bool) returns (r: Relations)
    requires y.relations == previous.relations && WellFormed(previous.relations) && RelationsSound(target)
    requires forall id: RecordId :: y.Contains(id) <==> target.Contains(id)
    requires forall id: RecordId :: ok(id) <==> target.Contains(id)
    ensures ApplyAll(y, RelationPart(previous, target)) == Ok(y.(relations := r))
    ensures WellFormed(r) && r.bindings == previous.relations.bindings
    ensures forall c :: ParentOf(Prune(r, ok), c) == ParentOf(target.relations, c)
    ensures forall g, m :: HasMember(Prune(r, ok), g, m) == HasMember(target.relations, g, m)
  {
    hide ApplyAll, Filter, Map, WellFormed, ParentsSound, GroupsSound, BindingsSound, Acyclic, Orphaned, Left,
         ParentGone, GroupGone;
    var a := ParentsReplay(y, previous, target, ok);
    r := GroupsReplay(y.(relations := a), previous, target, ok);
    var clear := Map(ClearCommand, Filter(previous.relations.parents, Orphaned(target)));
    var set_ := Map(SetCommand, Filter(target.relations.parents, ParentGone(previous.relations)));
    var leave := Map(LeaveCommand, Filter(previous.relations.groups, Left(target)));
    var join := Map(JoinCommand, Filter(target.relations.groups, GroupGone(previous.relations)));
    ApplyConcat(y, clear + set_, leave + join);
    assert clear + set_ + (leave + join) == clear + (set_ + (leave + join));
    ParentsUntouched(a, r, ok);
  }

  lemma ParentsUntouched(a: Relations, r: Relations, ok: RecordId -> bool)
    requires r.parents == a.parents
    ensures forall c :: ParentOf(Prune(r, ok), c) == ParentOf(Prune(a, ok), c)
  {
  }

  lemma ParentsReplay(y: Document, previous: Document, target: Document, ok: RecordId -> bool) returns (r: Relations)
    requires y.relations == previous.relations && WellFormed(previous.relations)
    requires WellFormed(target.relations) && ParentsSound(target, target.relations.parents)
    requires forall id: RecordId :: y.Contains(id) <==> target.Contains(id)
    requires forall id: RecordId :: ok(id) <==> target.Contains(id)
    ensures ApplyAll(y, Map(ClearCommand, Filter(previous.relations.parents, Orphaned(target))) +
                        Map(SetCommand, Filter(target.relations.parents, ParentGone(previous.relations)))) ==
                          Ok(y.(relations := r))
    ensures WellFormed(r) && r == previous.relations.(parents := r.parents)
    ensures forall c :: ParentOf(Prune(r, ok), c) == ParentOf(target.relations, c)
  {
    hide ApplyAll, Map, Filter, Apply, Lookup;
    var gone := Filter(previous.relations.parents, Orphaned(target));
    var come := Filter(target.relations.parents, ParentGone(previous.relations));
    FilterUnique(target.relations.parents, ChildKey, ParentGone(previous.relations));
    FilterMembers(target.relations.parents, ParentGone(previous.relations));
    var r1 := ClearAll(y, gone);
    r := SetAll(y.(relations := r1), come);
    ApplyConcat(y, Map(ClearCommand, gone), Map(SetCommand, come));
    forall c ensures ParentOf(Prune(r, ok), c) == ParentOf(target.relations, c) {
      ParentAt(previous.relations, target, r1, r, ok, c);
    }
  }

  lemma ParentAt(p: Relations, target: Document, r1: Relations, r: Relations, ok: RecordId -> bool, c: RecordId)
    requires WellFormed(p) && WellFormed(target.relations) && WellFormed(r) &&
             ParentsSound(target, target.relations.parents)
    requires forall id: RecordId :: ok(id) <==> target.Contains(id)
    requires ParentOf(r1, c) == if Lookup(Filter(p.parents, Orphaned(target)), ChildKey, c).Some? then None
             else ParentOf(p, c)
    requires var come := Lookup(Filter(target.relations.parents, ParentGone(p)), ChildKey, c);
             ParentOf(r, c) == if come.Some? then Some(come.value.parent) else ParentOf(r1, c)
    ensures ParentOf(Prune(r, ok), c) == ParentOf(target.relations, c)
  {
    FilterLookup(p.parents, ChildKey, Orphaned(target), c);
    FilterLookup(target.relations.parents, ChildKey, ParentGone(p), c);
    FilterLookup(r.parents, ChildKey, ParentKept(ok), c);
  }

  lemma GroupsReplay(y: Document, previous: Document, target: Document, ok: RecordId -> bool) returns (r: Relations)
    requires WellFormed(y.relations) && y.relations.groups == previous.relations.groups
    requires GroupsSound(target, target.relations.groups)
    requires forall id: RecordId :: y.Contains(id) <==> target.Contains(id)
    requires forall id: RecordId :: ok(id) <==> target.Contains(id)
    ensures ApplyAll(y, Map(LeaveCommand, Filter(previous.relations.groups, Left(target))) +
                        Map(JoinCommand, Filter(target.relations.groups, GroupGone(previous.relations)))) ==
                          Ok(y.(relations := r))
    ensures WellFormed(r) && r == y.relations.(groups := r.groups)
    ensures forall g, m :: HasMember(Prune(r, ok), g, m) == HasMember(target.relations, g, m)
  {
    hide ApplyAll, Map, Lookup;
    var gone := Filter(previous.relations.groups, Left(target));
    var come := Filter(target.relations.groups, GroupGone(previous.relations));
    FilterMembers(previous.relations.groups, Left(target));
    FilterMembers(target.relations.groups, GroupGone(previous.relations));
    var r1 := LeaveAll(y, gone);
    r := JoinAll(y.(relations := r1), come);
    ApplyConcat(y, Map(LeaveCommand, gone), Map(JoinCommand, come));
    forall g, m ensures HasMember(Prune(r, ok), g, m) == HasMember(target.relations, g, m) {
      FilterMember(r.groups, GroupKept(ok), GroupRelation(g, m));
    }
  }

  // The theorem.

  /** Every edge of both states, in its previous form, fits the target's nodes. */
  ghost predicate KeptEdgesFit(previous: Document, target: Document) {
    forall e :: previous.edges.Has(e) && target.edges.Has(e) ==>
      ValidateEdge(target.nodes.entries, previous.edges.entries[e]).Ok?
  }

  /** No relation names a dropped record, unless no node is updated. */
  ghost predicate RelationsSurviveUpdates(previous: Document, target: Document) {
    (exists n :: Updated(previous.nodes, target.nodes, n)) ==> WithinScope(previous.relations, Existing(target))
  }

  ghost predicate NoneLost(x: Document, previous: Document, target: Document) {
    forall e :: Updated(previous.edges, target.edges, e) ==> x.edges.Has(e)
  }

  lemma FitByEnds(previous: map<NodeId, Node>, target: map<NodeId, Node>, e: Edge)
    requires ValidateEdge(previous, e).Ok? && e.source.node in target && e.target.node in target
    requires target[e.source.node] != previous[e.source.node] ==> CheckSource(target, e.source).Ok?
    requires target[e.target.node] != previous[e.target.node] ==> CheckTarget(target, e.target).Ok?
    ensures ValidateEdge(target, e).Ok?
  {
  }

  lemma FitNeedsEnds(target: map<NodeId, Node>, e: Edge)
    requires ValidateEdge(target, e).Ok?
    ensures e.source.node in target && e.target.node in target
    ensures CheckSource(target, e.source).Ok? && CheckTarget(target, e.target).Ok?
  {
  }

  lemma FittingEdgesAccept(x: Document, previous: Document, target: Document, n: NodeId)
    requires AfterRemovals(x, previous, target) && KeptEdgesFit(previous, target)
    ensures FitsAt(x, target, n)
  {
    hide CheckSource, CheckTarget, ValidateEdge;
    forall e | e in x.edges.entries
      ensures CheckSource(target.nodes.entries, x.edges.entries[e].source).Ok? &&
              CheckTarget(target.nodes.entries, x.edges.entries[e].target).Ok?
    {
      assert x.edges.Get(e).Some?;
      FitNeedsEnds(target.nodes.entries, previous.edges.entries[e]);
    }
  }

  lemma FittingEdgesStay(x: Document, previous: Document, target: Document)
    requires AfterRemovals(x, previous, target) && KeptEdgesFit(previous, target)
    ensures NoneLost(x, previous, target)
  {
    hide CheckSource, CheckTarget, ValidateEdge;
    forall e | Updated(previous.edges, target.edges, e) ensures x.edges.Has(e) {
      FitNeedsEnds(target.nodes.entries, previous.edges.entries[e]);
      assert x.edges.Get(e).Some?;
    }
  }

  lemma KeptEdgeIsThere(x: Document, previous: Document, target: Document, e: EdgeId)
    requires AfterRemovals(x, previous, target) && EdgesSound(target) && NoneLost(x, previous, target)
    requires previous.edges.Has(e) && target.edges.Has(e)
    ensures x.edges.Has(e) && x.edges.entries[e] == previous.edges.entries[e] &&
            EndsIn(target, previous.edges.entries[e])
  {
    hide CheckSource, CheckTarget, ValidateEdge;
    if previous.edges.entries[e] == target.edges.entries[e] {
      FitNeedsEnds(target.nodes.entries, target.edges.entries[e]);
    } else {
      assert Updated(previous.edges, target.edges, e);
    }
    assert x.edges.Get(e).Some?;
  }

  lemma AcceptedEdgesFit(x: Document, previous: Document, target: Document)
    requires RecordsSound(previous) && RecordsSound(target) && AfterRemovals(x, previous, target) &&
             NoneLost(x, previous, target)
    requires forall n :: Updated(previous.nodes, target.nodes, n) ==> FitsAt(x, target, n)
    ensures KeptEdgesFit(previous, target)
  {
    hide CheckSource, CheckTarget, ValidateEdge, NoneLost, AfterRemovals, ValidateNode;
    forall e | previous.edges.Has(e) && target.edges.Has(e)
      ensures ValidateEdge(target.nodes.entries, previous.edges.entries[e]).Ok?
    {
      var edge := previous.edges.entries[e];
      KeptEdgeIsThere(x, previous, target, e);
      FitNeedsEnds(previous.nodes.entries, edge);
      assert Updated(previous.nodes, target.nodes, edge.source.node) ==> FitsAt(x, target, edge.source.node);
      assert Updated(previous.nodes, target.nodes, edge.target.node) ==> FitsAt(x, target, edge.target.node);
      FitByEnds(previous.nodes.entries, target.nodes.entries, edge);
    }
  }

  lemma SurvivorIff(x: Document, previous: Document, target: Document, id: RecordId)
    requires AfterRemovals(x, previous, target) && EdgesSound(target) && previous.Contains(id)
    ensures x.Contains(id) ==> target.Contains(id)
    ensures NoneLost(x, previous, target) && target.Contains(id) ==> x.Contains(id)
  {
    match id
    case NodeRecord(n) => assert x.nodes.Get(n).Some? <==> target.nodes.Has(n);
    case ShapeRecord(s) => assert x.shapes.Get(s).Some? <==> target.shapes.Has(s);
    case EdgeRecord(e) =>
      assert x.edges.Get(e).Some? ==> target.edges.Has(e);
      if NoneLost(x, previous, target) && target.edges.Has(e) {
        KeptEdgeIsThere(x, previous, target, e);
      }
  }

  lemma HeldIff(x: Document, previous: Document, target: Document)
    requires AfterRemovals(x, previous, target) && EdgesSound(target) && RelationsSound(previous)
    ensures RelationsHeld(previous.relations, x) ==> WithinScope(previous.relations, Existing(target))
    ensures NoneLost(x, previous, target) && WithinScope(previous.relations, Existing(target)) ==>
            RelationsHeld(previous.relations, x)
  {
    hide AfterRemovals, NoneLost, EdgesSound;
    forall id: RecordId | previous.Contains(id)
      ensures x.Contains(id) ==> target.Contains(id)
      ensures NoneLost(x, previous, target) && target.Contains(id) ==> x.Contains(id)
    {
      SurvivorIff(x, previous, target, id);
    }
  }

  /** The records are the target's, and so are the parents and groups once dangling relations are pruned. */
  ghost predicate Reaches(w: Document, previous: Document, target: Document) {
    && w.SameRecords(target)
    && WellFormed(w.relations)
    && (forall c :: ParentOf(PruneMissing(w).relations, c) == ParentOf(target.relations, c))
    && (forall g, m :: HasMember(PruneMissing(w).relations, g, m) == HasMember(target.relations, g, m))
    && w.relations.bindings == previous.relations.bindings
  }

  lemma RelationsLast(y: Document, previous: Document, target: Document)
    requires y.SameRecords(target) && y.relations == previous.relations
    requires WellFormed(previous.relations) && RelationsSound(target)
    ensures ApplyAll(y, RelationPart(previous, target)).Ok?
    ensures Reaches(ApplyAll(y, RelationPart(previous, target)).value, previous, target)
  {
    hide RelationsSound, WellFormed, ApplyAll, RelationPart, Prune;
    assert forall id: RecordId :: y.Contains(id) <==> target.Contains(id);
    var r := RelationsReplay(y, previous, target, Existing(y));
    SameScope(y, r);
  }

  lemma SameScope(y: Document, r: Relations)
    ensures PruneMissing(y.(relations := r)).relations == Prune(r, Existing(y))
  {
    PruneAgrees(r, Existing(y.(relations := r)), Existing(y));
  }

  /** Once the nodes are in place only a lost edge can stop the rest. */
  lemma AfterNodes(y: Document, x: Document, previous: Document, target: Document)
    requires AfterRemovals(x, previous, target) && y == x.(nodes := y.nodes) && y.nodes.entries == target.nodes.entries
    requires RelationsSound(previous) && Sound(target)
    ensures var r := ApplyAll(y, ShapeUpserts(previous, target, target.shapes.keys) +
                                 (EdgeUpserts(previous, target, target.edges.keys) + RelationPart(previous, target)));
            && (r.Ok? <==> NoneLost(x, previous, target))
            && (r.Ok? ==> Reaches(r.value, previous, target))
  {
    var shapes := ShapeUpserts(previous, target, target.shapes.keys);
    var edges := EdgeUpserts(previous, target, target.edges.keys);
    var rest := RelationPart(previous, target);
    var z := ShapesDone(y, x, previous, target);
    ApplyConcat(y, shapes, edges + rest);
    EdgesDone(z, x, previous, target);
    ApplyConcat(z, edges, rest);
    if NoneLost(x, previous, target) {
      RelationsLast(ApplyAll(z, edges).value, previous, target);
    }
  }

  lemma ShapesDone(y: Document, x: Document, previous: Document, target: Document) returns (z: Document)
    requires AfterRemovals(x, previous, target) && y.shapes == x.shapes && target.Filed()
    ensures ApplyAll(y, ShapeUpserts(previous, target, target.shapes.keys)) == Ok(z)
    ensures z == y.(shapes := z.shapes) && z.shapes.entries == target.shapes.entries
  {
    forall s | s in target.shapes.keys ensures y.shapes.Get(s) == previous.shapes.Get(s) {
      assert x.shapes.Get(s) == previous.shapes.Get(s);
    }
    z := ShapesReplay(y, previous, target, target.shapes.keys);
    SameEntries(z.shapes, target.shapes);
  }

  lemma EdgesDone(z: Document, x: Document, previous: Document, target: Document)
    requires AfterRemovals(x, previous, target) && z.edges == x.edges && z.nodes.entries == target.nodes.entries
    requires RecordsSound(target)
    ensures var r := ApplyAll(z, EdgeUpserts(previous, target, target.edges.keys));
            && (r.Ok? <==> NoneLost(x, previous, target))
            && (r.Ok? ==> r.value == z.(edges := r.value.edges) && r.value.edges.entries == target.edges.entries)
  {
    hide ValidateEdge, ApplyAll, EdgeUpserts;
    forall e | e in target.edges.keys ensures KeptOrLost(z, previous, target, e) {
      assert x.edges.Get(e) == previous.edges.Get(e) || x.edges.Get(e) == None;
      if previous.edges.Get(e) == target.edges.Get(e) {
        FitNeedsEnds(target.nodes.entries, target.edges.entries[e]);
      }
    }
    EdgesReplay(z, previous, target, target.edges.keys);
    var r := ApplyAll(z, EdgeUpserts(previous, target, target.edges.keys));
    if r.Ok? {
      forall e ensures r.value.edges.Get(e) == target.edges.Get(e) {
        assert x.edges.Get(e).Some? ==> target.edges.Has(e);
      }
      SameEntries(r.value.edges, target.edges);
    }
  }

  lemma NodesDone(x: Document, previous: Document, target: Document)
    requires AfterRemovals(x, previous, target) && RecordsSound(x) && RelationsSound(previous) && RecordsSound(target)
    ensures var r := ApplyAll(x, NodeUpserts(previous, target, target.nodes.keys));
            && (r.Ok? <==> forall n :: NodeAccepted(x, previous, target, n))
            && (r.Ok? ==> r.value == x.(nodes := r.value.nodes) && r.value.nodes.entries == target.nodes.entries)
  {
    hide ApplyAll, NodeUpserts, RelationsSound, FitsAt, RelationsHeld, NodesSound, EdgesSound;
    forall n | n in target.nodes.keys ensures x.nodes.Get(n) == previous.nodes.Get(n) {
      assert target.nodes.Has(n);
    }
    NodesReplay(x, previous, target, target.nodes.keys);
    var r := ApplyAll(x, NodeUpserts(previous, target, target.nodes.keys));
    if r.Ok? {
      forall n ensures r.value.nodes.Get(n) == target.nodes.Get(n) {
        assert x.nodes.Get(n).Some? ==> target.nodes.Has(n);
      }
      SameEntries(r.value.nodes, target.nodes);
    }
  }

  lemma AcceptedIff(x: Document, previous: Document, target: Document)
    requires Sound(previous) && Sound(target) && AfterRemovals(x, previous, target)
    ensures (forall n :: NodeAccepted(x, previous, target, n)) && NoneLost(x, previous, target) <==>
            KeptEdgesFit(previous, target) && RelationsSurviveUpdates(previous, target)
  {
    hide FitsAt, KeptEdgesFit, RelationsHeld, WithinScope, NoneLost, AfterRemovals, RelationsSound, NodesSound,
         EdgesSound, Updated;
    HeldIff(x, previous, target);
    if KeptEdgesFit(previous, target) && RelationsSurviveUpdates(previous, target) {
      FittingEdgesStay(x, previous, target);
      forall n ensures NodeAccepted(x, previous, target, n) {
        FittingEdgesAccept(x, previous, target, n);
      }
    }
    if (forall n :: NodeAccepted(x, previous, target, n)) && NoneLost(x, previous, target) {
      forall n | Updated(previous.nodes, target.nodes, n) ensures FitsAt(x, target, n) {
        assert NodeAccepted(x, previous, target, n);
      }
      AcceptedEdgesFit(x, previous, target);
      if n :| Updated(previous.nodes, target.nodes, n) {
        assert NodeAccepted(x, previous, target, n);
      }
    }
  }

  /**
   * Between any two valid states: the transaction applies, as a whole, exactly when the edges kept
   * fit the target's nodes in their old form too and, if a node is updated, no relation of the
   * previous state names a dropped record.  It then leads to the target's records, parents and groups.
   */
  lemma TransactionAppliesIff(previous: Document, target: Document)
    requires Sound(previous) && Sound(target)
    ensures ApplyAll(previous, Between(previous, target)).Ok? <==>
            KeptEdgesFit(previous, target) && RelationsSurviveUpdates(previous, target)
    ensures ApplyAll(previous, Between(previous, target)).Ok? ==>
              Reaches(ApplyAll(previous, Between(previous, target)).value, previous, target)
  {
    hide ApplyAll, Removals, NodeUpserts, ShapeUpserts, EdgeUpserts, RelationPart, Reaches, KeptEdgesFit,
         RelationsSurviveUpdates,
         NoneLost, AfterRemovals, NodeAccepted, RelationsSound, RecordsSound;
    var nodes := NodeUpserts(previous, target, target.nodes.keys);
    var rest := ShapeUpserts(previous, target, target.shapes.keys) +
                (EdgeUpserts(previous, target, target.edges.keys) + RelationPart(previous, target));
    var x := RemovalsApply(previous, target);
    ApplyConcat(previous, Removals(previous, target), nodes + rest);
    NodesDone(x, previous, target);
    ApplyConcat(x, nodes, rest);
    AcceptedIff(x, previous, target);
    if ApplyAll(x, nodes).Ok? {
      AfterNodes(ApplyAll(x, nodes).value, x, previous, target);
    }
  }

  /**
   * The pruned result has all of the target's relations exactly when the earlier bindings between
   * records that the target keeps are the target's bindings.
   */
  lemma BindingsReachTargetIff(previous: Document, target: Document, w: Document)
    requires Sound(previous) && Sound(target) && Reaches(w, previous, target)
    ensures SameRelations(PruneMissing(w).relations, target.relations) <==>
            forall i :: BindingOf(Prune(previous.relations, Existing(target)), i) == BindingOf(target.relations, i)
  {
    hide RecordsSound, Acyclic;
    var pruned, kept := PruneMissing(w).relations, Prune(previous.relations, Existing(target));
    PruneFacts(w.relations, Existing(w));
    forall i ensures BindingOf(pruned, i) == BindingOf(kept, i) {
      FilterLookup(w.relations.bindings, BindingKey, BindingKept(Existing(w)), i);
      FilterLookup(previous.relations.bindings, BindingKey, BindingKept(Existing(target)), i);
      SameScopeOfBindings(w, target, BindingOf(w.relations, i));
    }
    hide Reaches;
    SameBindingsIff(pruned, kept, target.relations);
  }

  lemma SameScopeOfBindings(w: Document, target: Document, b: Option<BindingRelation>)
    requires w.SameRecords(target)
    ensures b.Some? ==> (BindingKept(Existing(w))(b.value) <==> BindingKept(Existing(target))(b.value))
  {
    if b.Some? {
      var source, other := b.value.source, b.value.target;
      assert Existing(w)(source) == w.Contains(source) == target.Contains(source) == Existing(target)(source);
      assert Existing(w)(other) == w.Contains(other) == target.Contains(other) == Existing(target)(other);
    }
  }

  lemma SameBindingsIff(pruned: Relations, kept: Relations, target: Relations)
    requires WellFormed(pruned) && WellFormed(target) && forall i :: BindingOf(pruned, i) == BindingOf(kept, i)
    requires forall c :: ParentOf(pruned, c) == ParentOf(target, c)
    requires forall g, m :: HasMember(pruned, g, m) == HasMember(target, g, m)
    ensures SameRelations(pruned, target) <==> forall i :: BindingOf(kept, i) == BindingOf(target, i)
  {
    EqualityIsSameFacts(pruned, target);
    if forall i :: BindingOf(kept, i) == BindingOf(target, i) {
      SameAnswers(pruned, target);
    }
    if SameRelations(pruned, target) {
      forall i ensures BindingOf(kept, i) == BindingOf(target, i) {
        SameLookup(pruned.bindings, target.bindings, BindingKey, i);
      }
    }
  }

  /** In particular when the bindings were equal before. */
  lemma EqualBindingsReachTarget(previous: Document, target: Document, w: Document)
    requires Sound(previous) && Sound(target) && Reaches(w, previous, target)
    requires forall i :: BindingOf(previous.relations, i) == BindingOf(target.relations, i)
    ensures SameRelations(PruneMissing(w).relations, target.relations)
  {
    forall i ensures BindingOf(Prune(previous.relations, Existing(target)), i) == BindingOf(target.relations, i) {
      FilterLookup(previous.relations.bindings, BindingKey, BindingKept(Existing(target)), i);
      BindingInScope(target, target, i);
    }
    BindingsReachTargetIff(previous, target, w);
  }

  lemma BindingInScope(target: Document, w: Document, i: BindingId)
    requires RelationsSound(target) && w.SameRecords(target)
    ensures var b := BindingOf(target.relations, i);
            b.Some? ==> BindingKept(Existing(w))(b.value)
  {
  }

  /**
   * Dragging a node out of a frame and deleting the frame in one gesture: both states are valid,
   * yet the node's update is checked while its parent relation still names the deleted frame.
   */
  lemma UpdateWithDroppedFrameFails(previous: Document, frame: ShapeId, moved: Node, target: Document)
    requires Sound(previous) && previous.edges == Empty() && frame in previous.shapes.entries
    requires moved.id in previous.nodes.entries && moved != previous.nodes.entries[moved.id] && ValidateNode(moved).Ok?
    requires previous.relations == Relations([ParentRelation(NodeRecord(moved.id), ShapeRecord(frame))], [], [])
    requires target == previous.(nodes := previous.nodes.Insert(moved.id, moved),
                                 shapes := previous.shapes.ShiftRemove(frame),
                                 relations := Relations([], [], []))
    ensures Sound(target) && ApplyAll(previous, Between(previous, target)).Err?
  {
    hide ApplyAll, Between, ValidateNode, ValidateEdge;
    assert RecordsSound(target);
    NoRelationsAreSound(target);
    TransactionAppliesIff(previous, target);
    assert Updated(previous.nodes, target.nodes, moved.id);
    assert previous.relations.parents[0] in previous.relations.parents;
    assert !Existing(target)(ShapeRecord(frame));
  }
}
