/** Which transactions are accepted: exactly those whose commands can be taken back one by one. */
module Acceptance {
  import opened Prelude
  import opened KeyedLists
  import opened Records
  import opened RelationSets
  import opened RelationTraversal
  import opened RelationValidation
  import opened Reachability
  import opened Commands
  import opened RelationReplay
  import opened Mutations
  import opened Journal

  // Fewer relations.

  /** Whatever `a` answers, `b` answers too. */
  ghost predicate Within(a: Relations, b: Relations) {
    && (forall c :: ParentOf(a, c).Some? ==> ParentOf(b, c) == ParentOf(a, c))
    && (forall g, m :: HasMember(a, g, m) ==> HasMember(b, g, m))
    && (forall i :: BindingOf(a, i).Some? ==> BindingOf(b, i) == BindingOf(a, i))
  }

  lemma WithinFacts(a: Relations, b: Relations)
    requires WellFormed(a) && Within(a, b)
    ensures forall p :: p in a.parents ==> p in b.parents
    ensures forall g :: g in a.groups ==> g in b.groups
    ensures forall k :: k in a.bindings ==> k in b.bindings
  {
    forall p | p in a.parents ensures p in b.parents {
      LookupMember(a.parents, ChildKey, p);
      assert ParentOf(b, p.child) == ParentOf(a, p.child);
    }
    forall g | g in a.groups ensures g in b.groups {
      assert HasMember(a, g.group, g.member);
    }
    forall k | k in a.bindings ensures k in b.bindings {
      LookupMember(a.bindings, BindingKey, k);
      assert BindingOf(b, k.id) == BindingOf(a, k.id);
    }
  }

  /** Some of a sound document's relations are sound. */
  lemma WithinSound(d: Document, x: Document)
    requires RelationsSound(d) && WellFormed(x.relations) && Within(x.relations, d.relations)
    requires forall id: RecordId :: d.Contains(id) ==> x.Contains(id)
    ensures RelationsSound(x)
  {
    hide Acyclic;
    WithinFacts(x.relations, d.relations);
    SubgraphAcyclic(DownEdges(x.relations), DownEdges(d.relations));
  }

  lemma PruneWithin(r: Relations, ok: RecordId -> bool)
    requires WellFormed(r)
    ensures WellFormed(Prune(r, ok)) && Within(Prune(r, ok), r)
  {
    PruneFacts(r, ok);
    forall c | ParentOf(Prune(r, ok), c).Some? ensures ParentOf(r, c) == ParentOf(Prune(r, ok), c) {
      FilterLookup(r.parents, ChildKey, ParentKept(ok), c);
    }
    forall i | BindingOf(Prune(r, ok), i).Some? ensures BindingOf(r, i) == BindingOf(Prune(r, ok), i) {
      FilterLookup(r.bindings, BindingKey, BindingKept(ok), i);
    }
  }

  // What a command overwrites.

  ghost predicate LiveParent(d: Document, child: RecordId) {
    var previous := ParentOf(d.relations, child);
    previous.Some? ==> previous.value != child && d.Contains(previous.value)
  }

  ghost predicate LiveBinding(d: Document, id: BindingId) {
    var previous := BindingOf(d.relations, id);
    previous.Some? ==>
      previous.value.source != previous.value.target && d.Contains(previous.value.source) &&
      d.Contains(previous.value.target)
  }

  /** The relation that the command overwrites or removes could be set again. */
  ghost predicate Live(d: Document, c: Command) {
    match c
    case SetRecordParent(child, _) => LiveParent(d, child)
    case ClearRecordParent(child) => d.Contains(child) && LiveParent(d, child)
    case RemoveRecordFromGroup(group, member) =>
      d.Contains(group) && d.Contains(member) && (HasMember(d.relations, group, member) ==> group != member)
    case SetRecordBinding(b) => LiveBinding(d, b.id)
    case RemoveRecordBinding(id) => LiveBinding(d, id)
    case _ => true
  }

  ghost predicate LiveRun(d: Document, cs: seq<Command>)
    decreases cs
  {
    cs == [] || (Live(d, cs[0]) && (Apply(d, cs[0]).Ok? ==> LiveRun(Apply(d, cs[0]).value, cs[1..])))
  }

  // Taking back one command, from a document with the records that the command left and some of its relations.

  ghost predicate Behind(x: Document, d: Document) {
    x.SameRecords(d) && RecordsSound(x) && WellFormed(x.relations) && Within(x.relations, d.relations)
  }

  /** Taking back `c` works, and ends behind the document that `c` was applied to. */
  ghost predicate TakenBack(x: Document, d: Document, c: Command) {
    && InverseFor(d, c).Ok?
    && ApplyAll(x, InverseFor(d, c).value).Ok?
    && Within(ApplyAll(x, InverseFor(d, c).value).value.relations, d.relations)
  }

  ghost predicate CanTakeBack(x: Document, d: Document, c: Command) {
    InverseFor(d, c).Ok? && ApplyAll(x, InverseFor(d, c).value).Ok?
  }

  lemma SameContents(x: Document, y: Document)
    requires x.SameRecords(y)
    ensures forall id: RecordId :: x.Contains(id) <==> y.Contains(id)
  {
  }

  lemma ParentTakenBack(d: Document, c: Command, x: Document)
    requires c.SetRecordParent? || c.ClearRecordParent?
    requires WellFormed(d.relations) && Apply(d, c).Ok? && Behind(x, Apply(d, c).value)
    ensures CanTakeBack(x, d, c) <==> Live(d, c)
    ensures CanTakeBack(x, d, c) ==> TakenBack(x, d, c)
  {
    hide RecordsSound, ApplyAll, WellFormed;
    var n := Apply(d, c).value;
    assert n == d.(relations := n.relations);
    SameContents(x, d);
    var previous := ParentOf(d.relations, c.child);
    if InverseFor(d, c).Ok? {
      var inverse := InverseFor(d, c).value;
      if inverse == [] {
        assert ApplyAll(x, []) == Ok(x) by { ApplyNone(x); }
      } else {
        SingleCommand(x, inverse[0]);
      }
    }
    if CanTakeBack(x, d, c) {
      ParentWithin(d.relations, n.relations, x.relations, ApplyAll(x, InverseFor(d, c).value).value.relations, c.child,
        previous);
    }
  }

  lemma ApplyNone(x: Document)
    ensures ApplyAll(x, []) == Ok(x)
  {
  }

  lemma ParentWithin(d: Relations, n: Relations, x: Relations, y: Relations, child: RecordId,
                     previous: Option<RecordId>)
    requires WellFormed(d) && WellFormed(x) && Within(x, n) && previous == ParentOf(d, child)
    requires n == WithoutParent(d, child) || exists p :: n == WithParent(d, child, p)
    requires || (previous.Some? && y == WithParent(x, child, previous.value))
             || (previous.None? && y == WithoutParent(x, child))
             || (previous.None? && n == WithoutParent(d, child) && y == x)
    ensures Within(y, d)
  {
    forall c | ParentOf(y, c).Some? ensures ParentOf(d, c) == ParentOf(y, c) {
      ClearParentFacts(d, child, c);
      if n != WithoutParent(d, child) {
        var p :| n == WithParent(d, child, p);
        SetParentFacts(d, child, p, c);
      }
      ClearParentFacts(x, child, c);
      if previous.Some? {
        SetParentFacts(x, child, previous.value, c);
      }
    }
    assert forall g, m :: HasMember(y, g, m) ==> HasMember(x, g, m) && HasMember(n, g, m);
    assert forall i :: BindingOf(y, i) == BindingOf(x, i) && BindingOf(n, i) == BindingOf(d, i);
  }

  lemma GroupTakenBack(d: Document, c: Command, x: Document)
    requires c.AddRecordToGroup? || c.RemoveRecordFromGroup?
    requires WellFormed(d.relations) && Apply(d, c).Ok? && Behind(x, Apply(d, c).value)
    ensures CanTakeBack(x, d, c) <==> Live(d, c)
    ensures CanTakeBack(x, d, c) ==> TakenBack(x, d, c)
  {
    hide RecordsSound, ApplyAll, WellFormed;
    var n := Apply(d, c).value;
    assert n == d.(relations := n.relations);
    SameContents(x, d);
    if InverseFor(d, c).Ok? {
      var inverse := InverseFor(d, c).value;
      if inverse == [] {
        ApplyNone(x);
      } else {
        SingleCommand(x, inverse[0]);
      }
    }
    if CanTakeBack(x, d, c) {
      AddMemberFacts(d.relations, c.group, c.member, c.group, c.member);
      RemoveMemberFacts(d.relations, c.group, c.member, c.group, c.member);
      GroupWithin(d.relations, n.relations, x.relations, ApplyAll(x, InverseFor(d, c).value).value.relations, c.group,
        c.member);
    }
  }

  lemma GroupWithin(d: Relations, n: Relations, x: Relations, y: Relations, group: RecordId, member: RecordId)
    requires WellFormed(d) && WellFormed(x) && Within(x, n)
    requires n == WithMember(d, group, member) || n == WithoutMember(d, group, member)
    requires y == if HasMember(d, group, member) == HasMember(n, group, member) then x
                  else if HasMember(d, group, member) then WithMember(x, group, member)
                    else WithoutMember(x, group, member)
    ensures Within(y, d)
  {
    AddMemberFacts(d, group, member, group, member);
    RemoveMemberFacts(d, group, member, group, member);
    forall g, m | HasMember(y, g, m) ensures HasMember(d, g, m) {
      AddMemberFacts(d, group, member, g, m);
      RemoveMemberFacts(d, group, member, g, m);
      AddMemberFacts(x, group, member, g, m);
      RemoveMemberFacts(x, group, member, g, m);
    }
    assert forall c :: ParentOf(y, c) == ParentOf(x, c) && ParentOf(n, c) == ParentOf(d, c);
    assert forall i :: BindingOf(y, i) == BindingOf(x, i) && BindingOf(n, i) == BindingOf(d, i);
  }

  lemma BindingTakenBack(d: Document, c: Command, x: Document)
    requires c.SetRecordBinding? || c.RemoveRecordBinding?
    requires WellFormed(d.relations) && Apply(d, c).Ok? && Behind(x, Apply(d, c).value)
    ensures CanTakeBack(x, d, c) <==> Live(d, c)
    ensures CanTakeBack(x, d, c) ==> TakenBack(x, d, c)
  {
    hide RecordsSound, ApplyAll, WellFormed, ValidateNode, ValidateEdge, ValidateIntegrity, Lookup;
    var n := Apply(d, c).value;
    assert n == d.(relations := n.relations);
    SameContents(x, d);
    var id := if c.SetRecordBinding? then c.binding.id else c.bindingId;
    if InverseFor(d, c).Ok? {
      var inverse := InverseFor(d, c).value;
      if inverse == [] {
        ApplyNone(x);
      } else {
        SingleCommand(x, inverse[0]);
      }
    }
    if CanTakeBack(x, d, c) {
      BindingWithin(d.relations, n.relations, x.relations, ApplyAll(x, InverseFor(d, c).value).value.relations, id);
    }
  }

  lemma BindingWithin(d: Relations, n: Relations, x: Relations, y: Relations, id: BindingId)
    requires WellFormed(d) && WellFormed(x) && Within(x, n)
    requires n == WithoutBinding(d, id) || exists b: BindingRelation :: b.id == id && n == WithBinding(d, b)
    requires var previous := BindingOf(d, id);
             || (previous.Some? && y == WithBinding(x, previous.value))
             || (previous.None? && y == WithoutBinding(x, id))
             || (previous.None? && n == WithoutBinding(d, id) && y == x)
    ensures Within(y, d)
  {
    forall i | BindingOf(y, i).Some? ensures BindingOf(d, i) == BindingOf(y, i) {
      RemoveBindingFacts(d, id, i);
      if n != WithoutBinding(d, id) {
        var b: BindingRelation :| b.id == id && n == WithBinding(d, b);
        SetBindingFacts(d, b, i);
      }
      RemoveBindingFacts(x, id, i);
      if BindingOf(d, id).Some? {
        SetBindingFacts(x, BindingOf(d, id).value, i);
      }
    }
    assert forall c :: ParentOf(y, c) == ParentOf(x, c) && ParentOf(n, c) == ParentOf(d, c);
    assert forall g, m :: HasMember(y, g, m) ==> HasMember(x, g, m) && HasMember(n, g, m);
  }

  // Record commands can always be taken back.

  lemma UpdateNodeTakenBack(d: Document, node: Node, x: Document)
    requires RecordsSound(d) && Apply(d, UpdateNode(node)).Ok? && Behind(x, Apply(d, UpdateNode(node)).value)
    ensures TakenBack(x, d, UpdateNode(node))
  {
    var n := Apply(d, UpdateNode(node)).value;
    var before := d.nodes.entries[node.id];
    UpdateNodeKeepsSound(d, UpdateNode(node));
    UpdateEffect(d, node);
    hide Apply, ApplyAll, RecordsSound, Within;
    assert InverseFor(d, UpdateNode(node)) == Ok([UpdateNode(before)]);
    OldNodeFits(d, n, x, node, before);
    SingleCommand(x, UpdateNode(before));
  }

  lemma OldNodeBack(d: Document, n: Document, x: Document, node: Node, before: Node)
    requires RecordsSound(d) && x.SameRecords(n) && RecordsSound(x) && n == d.(nodes := d.nodes.Insert(node.id, node))
    requires node.id in d.nodes.entries && d.nodes.entries[node.id] == before
    ensures before.id == node.id && ValidateNode(before).Ok? && x.Filed() && x.nodes.Has(node.id)
    ensures d.SameRecords(x.(nodes := x.nodes.Insert(before.id, before)))
  {
    hide ValidateNode, ValidateEdge;
    assert x.nodes.Insert(before.id, before).entries == d.nodes.entries;
  }

  lemma OldNodeFits(d: Document, n: Document, x: Document, node: Node, before: Node)
    requires RecordsSound(d) && Sound(n) && Behind(x, n) && n == d.(nodes := d.nodes.Insert(node.id, node))
    requires node.id in d.nodes.entries && d.nodes.entries[node.id] == before
    ensures Apply(x, UpdateNode(before)).Ok? && Apply(x, UpdateNode(before)).value.relations == x.relations
  {
    hide Apply, ValidateNode, ValidateIntegrity, RecordsSound, RelationsSound, Within, WellFormed;
    OldNodeBack(d, n, x, node, before);
    var y := x.(nodes := x.nodes.Insert(before.id, before));
    RecordsSoundBySame(d, y);
    SameContents(x, n);
    assert forall id: RecordId :: n.Contains(id) ==> y.Contains(id);
    WithinSound(n, y);
    UpdateDraft(x, before);
  }

  lemma RecordsSoundBySame(d: Document, y: Document)
    requires RecordsSound(d) && d.SameRecords(y) && y.nodes.Valid() && y.edges.Valid() && y.shapes.Valid()
    ensures RecordsSound(y)
  {
    hide ValidateNode, ValidateEdge;
  }

  lemma UpdateEffect(d: Document, node: Node)
    requires Apply(d, UpdateNode(node)).Ok?
    ensures Apply(d, UpdateNode(node)).value == d.(nodes := d.nodes.Insert(node.id, node))
  {
  }

  lemma RemoveNodeTakenBack(d: Document, id: NodeId, x: Document)
    requires RecordsSound(d) && Apply(d, RemoveNode(id)).Ok? && Behind(x, Apply(d, RemoveNode(id)).value)
    ensures TakenBack(x, d, RemoveNode(id))
  {
    hide ValidateNode, ValidateEdge, ApplyAll, Within, WellFormed;
    var node, edges := d.nodes.entries[id], EdgesAt(d, d.edges.keys, id);
    var next := x.(nodes := x.nodes.Insert(id, node));
    assert Apply(x, InsertNode(node)) == Ok(next);
    SingleCommand(x, InsertNode(node));
    ApplyConcat(x, [InsertNode(node)], Map(InsertEdgeCommand, edges));
    assert next.nodes.entries == d.nodes.entries;
    EdgesAtFacts(d, d.edges.keys, id);
    forall e | e in edges ensures Insertable(next, e) {
      assert d.edges.entries[e.id] == e && Touches(e, id);
      assert ValidateEdge(d.nodes.entries, e).Ok?;
    }
    InsertEdgesIff(next, edges);
    InsertEdgesRelations(next, edges);
  }

  lemma {:induction false} EdgesAtFacts(d: Document, keys: seq<EdgeId>, n: NodeId)
    requires d.Filed() && Distinct(keys)
    ensures Unique(EdgesAt(d, keys, n), EdgeKey)
    ensures forall e :: e in EdgesAt(d, keys, n) ==> e.id in keys && d.edges.Get(e.id) == Some(e) && Touches(e, n)
  {
    if keys != [] {
      EdgesAtFacts(d, keys[1..], n);
      var k, rest := keys[0], EdgesAt(d, keys[1..], n);
      assert forall e :: e in keys[1..] ==> e in keys && e != k;
      if k in d.edges.entries && Touches(d.edges.entries[k], n) {
        var all := [d.edges.entries[k]] + rest;
        assert all[1..] == rest;
        UniqueSplit(all, EdgeKey);
      } else {
        assert EdgesAt(d, keys, n) == rest;
      }
    }
  }

  lemma {:induction false} InsertEdgesRelations(x: Document, edges: seq<Edge>)
    requires ApplyAll(x, Map(InsertEdgeCommand, edges)).Ok?
    ensures ApplyAll(x, Map(InsertEdgeCommand, edges)).value.relations == x.relations
    decreases edges
  {
    if edges != [] {
      FirstCommand(x, InsertEdgeCommand, edges);
      InsertEdgesRelations(Apply(x, InsertEdge(edges[0])).value, edges[1..]);
    }
  }

  lemma InsertTakenBack(d: Document, c: Command, x: Document)
    requires Apply(d, c).Ok? && Behind(x, Apply(d, c).value) && (c.InsertNode? || c.InsertEdge? || c.InsertShape?)
    ensures TakenBack(x, d, c)
  {
    hide ValidateNode, ValidateEdge, ApplyAll, Within, WellFormed, RecordsSound;
    match c
    case InsertNode(node) => SingleCommand(x, RemoveNode(node.id));
    case InsertEdge(edge) => SingleCommand(x, RemoveEdge(edge.id));
    case InsertShape(shape) => SingleCommand(x, RemoveShape(shape.id));
  }

  lemma EdgeTakenBack(d: Document, c: Command, x: Document)
    requires RecordsSound(d) && Apply(d, c).Ok? && Behind(x, Apply(d, c).value) && (c.UpdateEdge? || c.RemoveEdge?)
    ensures TakenBack(x, d, c)
  {
    hide ValidateNode, ValidateEdge, ApplyAll, Within, WellFormed;
    var id := if c.UpdateEdge? then c.edge.id else c.edgeId;
    var before := d.edges.entries[id];
    assert before.id == id && ValidateEdge(d.nodes.entries, before).Ok?;
    hide RecordsSound;
    SingleCommand(x, if c.UpdateEdge? then UpdateEdge(before) else InsertEdge(before));
  }

  lemma ShapeTakenBack(d: Document, c: Command, x: Document)
    requires d.Filed() && Apply(d, c).Ok? && Behind(x, Apply(d, c).value) && (c.UpdateShape? || c.RemoveShape?)
    ensures TakenBack(x, d, c)
  {
    hide ValidateNode, ValidateEdge, ApplyAll, Within, WellFormed, RecordsSound;
    var id := if c.UpdateShape? then c.shape.id else c.shapeId;
    var before := d.shapes.entries[id];
    SingleCommand(x, if c.UpdateShape? then UpdateShape(before) else InsertShape(before));
  }

  lemma OtherTakenBack(d: Document, c: Command, x: Document)
    requires RecordsSound(d) && Apply(d, c).Ok? && Behind(x, Apply(d, c).value)
    requires c.InsertNode? || c.InsertEdge? || c.UpdateEdge? || c.RemoveEdge? || c.InsertShape? || c.UpdateShape? ||
             c.RemoveShape?
    ensures TakenBack(x, d, c)
  {
    hide Apply, TakenBack, Behind;
    if c.UpdateEdge? || c.RemoveEdge? {
      EdgeTakenBack(d, c, x);
    } else if c.UpdateShape? || c.RemoveShape? {
      ShapeTakenBack(d, c, x);
    } else {
      InsertTakenBack(d, c, x);
    }
  }

  /** One command can be taken back exactly when it overwrites nothing that cannot be set again. */
  lemma TakenBackIff(d: Document, c: Command, x: Document)
    requires RecordsSound(d) && WellFormed(d.relations) && Apply(d, c).Ok? && Behind(x, Apply(d, c).value)
    ensures CanTakeBack(x, d, c) <==> Live(d, c)
    ensures CanTakeBack(x, d, c) ==> Behind(ApplyAll(x, InverseFor(d, c).value).value, d)
  {
    hide Apply, ApplyAll, RecordsSound, WellFormed, Within, InverseFor;
    if c.SetRecordParent? || c.ClearRecordParent? {
      ParentTakenBack(d, c, x);
    } else if c.AddRecordToGroup? || c.RemoveRecordFromGroup? {
      GroupTakenBack(d, c, x);
    } else if c.SetRecordBinding? || c.RemoveRecordBinding? {
      BindingTakenBack(d, c, x);
    } else if c.UpdateNode? {
      UpdateNodeTakenBack(d, c.node, x);
    } else if c.RemoveNode? {
      RemoveNodeTakenBack(d, c.nodeId, x);
    } else {
      OtherTakenBack(d, c, x);
    }
    if CanTakeBack(x, d, c) {
      CommandUndone(d, c, x);
      ApplyAllKeepsRecordsSound(x, InverseFor(d, c).value);
    }
  }

  // Whole runs.

  ghost predicate CanInvert(x: Document, d: Document, cs: seq<Command>) {
    Invert(d, cs).Ok? && ApplyAll(x, Invert(d, cs).value).Ok?
  }

  /** A run can be taken back exactly when each of its commands can, and the way back never gains a relation. */
  lemma {:induction false} InvertsIff(d: Document, cs: seq<Command>, x: Document)
    requires RecordsSound(d) && WellFormed(d.relations) && ApplyAll(d, cs).Ok? && Behind(x, ApplyAll(d, cs).value)
    ensures CanInvert(x, d, cs) <==> LiveRun(d, cs)
    ensures CanInvert(x, d, cs) ==> Behind(ApplyAll(x, Invert(d, cs).value).value, d)
    decreases cs
  {
    if cs != [] {
      hide Apply, RecordsSound, WellFormed, Within, InverseFor, Live;
      var next := Apply(d, cs[0]).value;
      ApplyKeepsRecordsSound(d, cs[0]);
      InvertsIff(next, cs[1..], x);
      FirstInverse(d, cs);
      if CanInvert(x, next, cs[1..]) {
        var rest := Invert(next, cs[1..]).value;
        var y := ApplyAll(x, rest).value;
        TakenBackIff(d, cs[0], y);
        if InverseFor(d, cs[0]).Ok? {
          ApplyConcat(x, rest, InverseFor(d, cs[0]).value);
        }
      } else if Invert(next, cs[1..]).Ok? && InverseFor(d, cs[0]).Ok? {
        ApplyConcat(x, Invert(next, cs[1..]).value, InverseFor(d, cs[0]).value);
      }
    }
  }

  lemma FirstInverse(d: Document, cs: seq<Command>)
    requires cs != [] && Apply(d, cs[0]).Ok?
    ensures Invert(d, cs).Ok? <==> InverseFor(d, cs[0]).Ok? && Invert(Apply(d, cs[0]).value, cs[1..]).Ok?
    ensures Invert(d, cs).Ok? ==>
            Invert(d, cs).value == Invert(Apply(d, cs[0]).value, cs[1..]).value + InverseFor(d, cs[0]).value
  {
  }

  /**
   * The journal accepts a transaction exactly when its commands apply, leave sound relations that
   * the registry accepts, and none of them overwrites or removes a relation whose ends the
   * transaction has already removed.
   */
  lemma AcceptedIff(d: Document, cs: seq<Command>, registry: Registry, transaction: seq<Command>)
    requires Sound(d) && NormalizeAll(registry, cs) == Ok(transaction)
    ensures Prepare(d, cs, registry).Ok? <==>
            && ApplyAll(d, transaction).Ok?
            && RelationsSound(PruneMissing(ApplyAll(d, transaction).value))
            && registry.Validate(PruneMissing(ApplyAll(d, transaction).value)).Ok?
            && LiveRun(d, transaction)
  {
    assert WellFormed(d.relations);
    hide NormalizeAll, Invert, ApplyAll, LiveRun, RecordsSound, RelationsSound, ValidateRelations, CompleteInverse;
    if ApplyAll(d, transaction).Ok? {
      var applied := ApplyAll(d, transaction).value;
      var draft := PruneMissing(applied);
      ApplyAllKeepsRecordsSound(d, transaction);
      ValidateRelationsIff(draft);
      DraftIsBehind(applied);
      InvertsIff(d, transaction, draft);
      if Invert(d, transaction).Ok? {
        CompletionIff(d, draft, transaction, Invert(d, transaction).value);
      }
    }
  }

  lemma DraftIsBehind(applied: Document)
    requires RecordsSound(applied) && WellFormed(applied.relations)
    ensures Behind(PruneMissing(applied), applied)
  {
    PruneWithin(applied.relations, Existing(applied));
  }

  /** Behind a sound document nothing dangles, so completing the inverse cannot fail. */
  lemma CompletionIff(d: Document, draft: Document, transaction: seq<Command>, inverse: seq<Command>)
    requires Sound(d) && RecordsSound(draft) && WellFormed(draft.relations) && Invert(d, transaction) == Ok(inverse)
    requires ApplyAll(d, transaction).Ok? && draft.SameRecords(ApplyAll(d, transaction).value)
    requires ApplyAll(draft, inverse).Ok? ==> Behind(ApplyAll(draft, inverse).value, d)
    ensures CompleteInverse(d, draft, inverse).Ok? <==> ApplyAll(draft, inverse).Ok?
  {
    hide Invert, ApplyAll, RecordsSound, RelationsSound, CompleteInverse, Within;
    CompleteInverseIff(d, draft, inverse);
    if ApplyAll(draft, inverse).Ok? {
      var y := ApplyAll(draft, inverse).value;
      BehindIsSound(y, d);
    }
  }

  lemma BehindIsSound(y: Document, d: Document)
    requires Behind(y, d) && Sound(d)
    ensures PruneMissing(y) == y && Sound(y)
  {
    SameContents(y, d);
    WithinSound(d, y);
    PruneNothing(y.relations, Existing(y));
  }
}
