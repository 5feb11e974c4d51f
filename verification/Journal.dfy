/** The mutation journal: preparing a transaction together with an inverse that undoes it. */
module Journal {
  import opened Prelude
  import opened KeyedLists
  import opened IndexMaps
  import opened Records
  import opened RelationSets
  import opened RelationTraversal
  import opened RelationValidation
  import opened Reachability
  import opened Commands
  import opened RelationReplay
  import opened Mutations

  /** The application's kind registry: it may rewrite or refuse records on their way in, and refuse stored ones. */
  datatype Registry = Registry(
    normalizeNode: Node -> Result<Node, DocumentError>,
    normalizeEdge: Edge -> Result<Edge, DocumentError>,
    normalizeShape: Shape -> Result<Shape, DocumentError>,
    checkNode: Node -> Result<(), DocumentError>,
    checkEdge: Edge -> Result<(), DocumentError>,
    checkShape: Shape -> Result<(), DocumentError>)
  {
    function Normalize(c: Command): Result<Command, DocumentError> {
      match c
      case InsertNode(node) =>
        var n :- normalizeNode(node);
        Ok(InsertNode(n))
      case UpdateNode(node) =>
        var n :- normalizeNode(node);
        Ok(UpdateNode(n))
      case InsertEdge(edge) =>
        var e :- normalizeEdge(edge);
        Ok(InsertEdge(e))
      case UpdateEdge(edge) =>
        var e :- normalizeEdge(edge);
        Ok(UpdateEdge(e))
      case InsertShape(shape) =>
        var s :- normalizeShape(shape);
        Ok(InsertShape(s))
      case UpdateShape(shape) =>
        var s :- normalizeShape(shape);
        Ok(UpdateShape(s))
      case _ => Ok(c)
    }

    function Validate(d: Document): Result<(), DocumentError> {
      var _ :- CheckEach(checkNode, d.nodes, d.nodes.keys);
      var _ :- CheckEach(checkEdge, d.edges, d.edges.keys);
      CheckEach(checkShape, d.shapes, d.shapes.keys)
    }
  }

  function CheckEach<K, V>(check: V -> Result<(), DocumentError>, m: IndexMap<K, V>, keys: seq<K>):
    Result<(), DocumentError>
  {
    if keys == [] then Ok(())
    else
      var _ :- if m.Has(keys[0]) then check(m.entries[keys[0]]) else Ok(());
      CheckEach(check, m, keys[1..])
  }

  lemma {:induction false} CheckEachIff<K, V>(check: V -> Result<(), DocumentError>, m: IndexMap<K, V>, keys: seq<K>)
    ensures CheckEach(check, m, keys).Ok? <==> forall k :: k in keys && k in m.entries ==> check(m.entries[k]).Ok?
  {
    if keys != [] {
      CheckEachIff(check, m, keys[1..]);
      assert keys == [keys[0]] + keys[1..];
    }
  }

  /** A document is let through exactly when each of its records is. */
  lemma RegistryValidateIff(registry: Registry, d: Document)
    requires d.Filed()
    ensures registry.Validate(d).Ok? <==>
            && (forall n :: n in d.nodes.entries ==> registry.checkNode(d.nodes.entries[n]).Ok?)
            && (forall e :: e in d.edges.entries ==> registry.checkEdge(d.edges.entries[e]).Ok?)
            && (forall s :: s in d.shapes.entries ==> registry.checkShape(d.shapes.entries[s]).Ok?)
  {
    CheckEachIff(registry.checkNode, d.nodes, d.nodes.keys);
    CheckEachIff(registry.checkEdge, d.edges, d.edges.keys);
    CheckEachIff(registry.checkShape, d.shapes, d.shapes.keys);
  }

  lemma SameRecordsSameVerdict(registry: Registry, x: Document, y: Document)
    requires x.Filed() && y.Filed() && x.SameRecords(y)
    ensures registry.Validate(x).Ok? <==> registry.Validate(y).Ok?
  {
    RegistryValidateIff(registry, x);
    RegistryValidateIff(registry, y);
  }

  datatype Prepared = Prepared(document: Document, transaction: seq<Command>, inverse: seq<Command>)

  function NormalizeAll(registry: Registry, cs: seq<Command>): Result<seq<Command>, DocumentError> {
    if cs == [] then Ok([])
    else
      var first :- registry.Normalize(cs[0]);
      var rest :- NormalizeAll(registry, cs[1..]);
      Ok([first] + rest)
  }

  /** Every command is rewritten on its own, in its place. */
  lemma {:induction false} NormalizeAllIs(registry: Registry, cs: seq<Command>)
    ensures NormalizeAll(registry, cs).Ok? <==> forall i :: 0 <= i < |cs| ==> registry.Normalize(cs[i]).Ok?
    ensures var r := NormalizeAll(registry, cs);
            r.Ok? ==> |r.value| == |cs| && forall i :: 0 <= i < |cs| ==> registry.Normalize(cs[i]) == Ok(r.value[i])
  {
    if cs != [] {
      NormalizeAllIs(registry, cs[1..]);
      assert forall i :: 0 < i < |cs| ==> cs[i] == cs[1..][i - 1];
      if forall i :: 0 <= i < |cs| ==> registry.Normalize(cs[i]).Ok? {
        assert forall i :: 0 <= i < |cs[1..]| ==> cs[1..][i] == cs[i + 1];
      }
    }
  }

  /** Appends what the inverse does not restore by itself: relations that pruning took away. */
  function CompleteInverse(previous: Document, current: Document, inverse: seq<Command>): Result<seq<Command>,
                           DocumentError> {
    var applied :- ApplyAll(current, inverse);
    var restored := PruneMissing(applied);
    var _ :- ValidateRelations(restored);
    var commands := RelationCommands(previous.relations, restored.relations);
    if commands == [] then Ok(inverse)
    else
      var completed :- ApplyAll(restored, commands);
      var _ :- ValidateRelations(PruneMissing(completed));
      Ok(inverse + commands)
  }

  function Prepare(d: Document, cs: seq<Command>, registry: Registry): Result<Prepared, DocumentError> {
    var transaction :- NormalizeAll(registry, cs);
    var inverse :- Invert(d, transaction);
    var applied :- ApplyAll(d, transaction);
    var draft := PruneMissing(applied);
    var _ :- ValidateRelations(draft);
    var _ :- registry.Validate(draft);
    var complete :- CompleteInverse(d, draft, inverse);
    Ok(Prepared(draft, transaction, complete))
  }

  /** Relation soundness depends on the facts and on which records exist. */
  lemma SoundBySameFacts(d: Document, e: Document)
    requires RelationsSound(d) && d.SameRecords(e) && SameFacts(d.relations, e.relations) && WellFormed(e.relations)
    ensures RelationsSound(e)
  {
    var r, q := d.relations, e.relations;
    forall p | p in q.parents ensures p in r.parents { assert p in Elements(q.parents); }
    forall g | g in q.groups ensures g in r.groups { assert g in Elements(q.groups); }
    forall b | b in q.bindings ensures b in r.bindings { assert b in Elements(q.bindings); }
    forall x: RecordId ensures d.Contains(x) <==> e.Contains(x) {}
    assert DownEdges(r) == DownEdges(q) by {
      assert forall p :: p in r.parents <==> p in Elements(r.parents);
      assert forall p :: p in q.parents <==> p in Elements(q.parents);
      assert forall g :: g in r.groups <==> g in Elements(r.groups);
      assert forall g :: g in q.groups <==> g in Elements(q.groups);
    }
  }

  /** Replaying the completion, with or without the pruning in between, ends in the earlier relations. */
  lemma CompletionReaches(previous: Document, x: Document) returns (y: Document)
    requires RelationsSound(previous) && x.SameRecords(previous) && WellFormed(x.relations)
    ensures ApplyAll(x, RelationCommands(previous.relations, PruneMissing(x).relations)) == Ok(y)
    ensures y.SameRecords(previous) && y == x.(relations := y.relations)
    ensures WellFormed(y.relations) && SameFacts(PruneMissing(y).relations, previous.relations) &&
            WellFormed(PruneMissing(y).relations)
  {
    var ok := Existing(x);
    forall id: RecordId ensures x.Contains(id) <==> previous.Contains(id) {}
    var r := ReplayReachesPruned(x, previous.relations, ok);
    y := x.(relations := r);
    assert PruneMissing(y).relations == Prune(r, ok) by {
      PruneAgrees(r, Existing(y), ok);
    }
  }

  lemma PruneAgrees(r: Relations, a: RecordId -> bool, b: RecordId -> bool)
    requires forall x :: a(x) == b(x)
    ensures Prune(r, a) == Prune(r, b)
  {
    forall p | p in r.parents ensures ParentKept(a)(p) == ParentKept(b)(p) {
      assert a(p.child) == b(p.child) && a(p.parent) == b(p.parent);
    }
    forall g | g in r.groups ensures GroupKept(a)(g) == GroupKept(b)(g) {
      assert a(g.group) == b(g.group) && a(g.member) == b(g.member);
    }
    forall c | c in r.bindings ensures BindingKept(a)(c) == BindingKept(b)(c) {
      assert a(c.source) == b(c.source) && a(c.target) == b(c.target);
    }
    FilterAgree(r.parents, ParentKept(a), ParentKept(b));
    FilterAgree(r.groups, GroupKept(a), GroupKept(b));
    FilterAgree(r.bindings, BindingKept(a), BindingKept(b));
  }

  /** Pruning twice is pruning once. */
  lemma PruneTwice(d: Document)
    ensures PruneMissing(PruneMissing(d)) == PruneMissing(d)
  {
    PruneFacts(d.relations, Existing(d));
    PruneNothing(PruneMissing(d).relations, Existing(PruneMissing(d)));
  }

  /**
   * Completion adds no failure of its own: it succeeds exactly when the plain inverse applies
   * and leaves sound relations.
   */
  lemma CompleteInverseIff(previous: Document, current: Document, inverse: seq<Command>)
    requires RelationsSound(previous) && RecordsSound(current) && WellFormed(current.relations)
    requires ApplyAll(current, inverse).Ok? ==> ApplyAll(current, inverse).value.SameRecords(previous)
    ensures CompleteInverse(previous, current, inverse).Ok? <==>
            ApplyAll(current, inverse).Ok? && RelationsSound(PruneMissing(ApplyAll(current, inverse).value))
  {
    if ApplyAll(current, inverse).Ok? {
      ApplyAllKeepsRecordsSound(current, inverse);
      var restored := PruneMissing(ApplyAll(current, inverse).value);
      PruneFacts(ApplyAll(current, inverse).value.relations, Existing(ApplyAll(current, inverse).value));
      ValidateRelationsIff(restored);
      PruneTwice(ApplyAll(current, inverse).value);
      var completed := CompletionReaches(previous, restored);
      SoundBySameFacts(previous, PruneMissing(completed));
      ValidateRelationsIff(PruneMissing(completed));
    }
  }

  /** A completed inverse applies to the changed document and brings back the earlier records and relations. */
  lemma CompleteInverseRestores(previous: Document, current: Document, inverse: seq<Command>)
    requires RelationsSound(previous) && RecordsSound(current) && WellFormed(current.relations)
    requires CompleteInverse(previous, current, inverse).Ok?
    requires ApplyAll(current, inverse).Ok? && ApplyAll(current, inverse).value.SameRecords(previous)
    ensures var undone := ApplyAll(current, CompleteInverse(previous, current, inverse).value);
            undone.Ok? && undone.value.SameRecords(previous) &&
            SameRelations(PruneMissing(undone.value).relations, previous.relations)
  {
    hide CompleteInverse, RelationCommands, PruneMissing, ApplyAll, RelationsSound, RecordsSound, WellFormed;
    CompletedForm(previous, current, inverse);
    ApplyAllKeepsRecordsSound(current, inverse);
    CompletedUndo(previous, current, inverse, ApplyAll(current, inverse).value);
  }

  lemma CompletedForm(previous: Document, current: Document, inverse: seq<Command>)
    requires CompleteInverse(previous, current, inverse).Ok?
    ensures ApplyAll(current, inverse).Ok?
    ensures CompleteInverse(previous, current, inverse).value ==
            inverse + RelationCommands(previous.relations, PruneMissing(ApplyAll(current, inverse).value).relations)
  {
    hide ApplyAll, RelationCommands, PruneMissing, ValidateRelations;
    assert inverse + [] == inverse;
  }

  lemma CompletedUndo(previous: Document, current: Document, inverse: seq<Command>, x: Document)
    requires RelationsSound(previous) && ApplyAll(current, inverse) == Ok(x)
    requires x.SameRecords(previous) && WellFormed(x.relations)
    ensures var undone := ApplyAll(current, inverse + RelationCommands(previous.relations, PruneMissing(x).relations));
            undone.Ok? && undone.value.SameRecords(previous) &&
            SameRelations(PruneMissing(undone.value).relations, previous.relations)
  {
    assert WellFormed(previous.relations);
    hide ApplyAll, RelationsSound, WellFormed, RelationCommands, SameFacts, SameRelations, PruneMissing;
    var y := CompletionReaches(previous, x);
    ApplyConcat(current, inverse, RelationCommands(previous.relations, PruneMissing(x).relations));
    EqualityIsSameFacts(PruneMissing(y).relations, previous.relations);
  }

  /**
   * Undo: whenever a transaction is accepted, the recorded inverse applies to the new document
   * and restores every record and every relation of the old one.
   */
  lemma UndoRestores(d: Document, cs: seq<Command>, registry: Registry)
    requires Sound(d) && Prepare(d, cs, registry).Ok?
    ensures var p := Prepare(d, cs, registry).value;
            var undone := ApplyAll(p.document, p.inverse);
            && Sound(p.document)
            && undone.Ok?
            && undone.value.SameRecords(d)
            && SameRelations(PruneMissing(undone.value).relations, d.relations)
  {
    var transaction := NormalizeAll(registry, cs).value;
    var inverse := Invert(d, transaction).value;
    var applied := ApplyAll(d, transaction).value;
    var draft := PruneMissing(applied);
    ApplyAllKeepsRecordsSound(d, transaction);
    ValidateRelationsIff(draft);
    assert RecordsSound(draft);
    InvertRestoresRecords(d, transaction, draft);
    CompleteInverseRestores(d, draft, inverse);
  }

  lemma OldFrameIsMissing(d: Document, child: NodeId, frame: ShapeId, next: Command)
    requires child in d.nodes.entries && frame !in d.shapes.entries
    ensures ApplyAll(d, [SetRecordParent(NodeRecord(child), ShapeRecord(frame)), next]) ==
            Err(MissingRelationRecord(ShapeRecord(frame)))
  {
    assert Apply(d, SetRecordParent(NodeRecord(child), ShapeRecord(frame))) ==
      Err(MissingRelationRecord(ShapeRecord(frame)));
  }

  /**
   * Not every transaction whose commands apply to a sound result is accepted.  Removing a frame
   * and giving its child another parent is rejected, because the inverse would set the removed
   * frame as parent before it inserts the frame.
   */
  lemma ReparentingAfterRemovalIsRejected(d: Document, frame: ShapeId, other: ShapeId, child: NodeId,
                                          registry: Registry)
    requires Sound(d) && frame in d.shapes.entries && other in d.shapes.entries && frame != other &&
             child in d.nodes.entries
    requires d.relations == Relations([ParentRelation(NodeRecord(child), ShapeRecord(frame))], [], [])
    requires forall c :: registry.Normalize(c) == Ok(c)
    requires forall x :: registry.Validate(x).Ok?
    ensures var cs := [RemoveShape(frame), SetRecordParent(NodeRecord(child), ShapeRecord(other))];
            && ApplyAll(d, cs).Ok?
            && ApplyAll(d, cs).value.relations ==
               Relations([ParentRelation(NodeRecord(child), ShapeRecord(other))], [], [])
            && Prepare(d, cs, registry) == Err(MissingRelationRecord(ShapeRecord(frame)))
  {
    hide ApplyAll, Invert, NormalizeAll;
    var a, b := RemoveShape(frame), SetRecordParent(NodeRecord(child), ShapeRecord(other));
    var old_, new_ := ParentRelation(NodeRecord(child), ShapeRecord(frame)),
      ParentRelation(NodeRecord(child), ShapeRecord(other));
    var undo := [SetRecordParent(NodeRecord(child), ShapeRecord(frame)), InsertShape(d.shapes.entries[frame])];
    var d1 := d.(shapes := d.shapes.ShiftRemove(frame));
    var d2 := d1.(relations := Relations([new_], [], []));
    RemoveThenReparent(d, d1, d2, frame, other, child);
    TwoCommands(d, d1, d2, a, b, undo[1], undo[0], registry);
    assert PruneMissing(d2) == d2 by {
      PruneNothing(d2.relations, Existing(d2));
    }
    OneParentIsSound(d2, new_);
    ValidateRelationsIff(d2);
    OldFrameIsMissing(d2, child, frame, undo[1]);
    hide ApplyAll, Apply, Invert, ValidateRelations, RelationsSound, Sound, PruneMissing, NormalizeAll;
    assert CompleteInverse(d, d2, undo) == Err(MissingRelationRecord(ShapeRecord(frame)));
  }

  lemma RemoveThenReparent(d: Document, d1: Document, d2: Document, frame: ShapeId, other: ShapeId, child: NodeId)
    requires frame in d.shapes.entries && other in d.shapes.entries && frame != other && child in d.nodes.entries
    requires d.relations == Relations([ParentRelation(NodeRecord(child), ShapeRecord(frame))], [], [])
    requires d1 == d.(shapes := d.shapes.ShiftRemove(frame))
    requires d2 == d1.(relations := Relations([ParentRelation(NodeRecord(child), ShapeRecord(other))], [], []))
    ensures Apply(d, RemoveShape(frame)) == Ok(d1)
    ensures Apply(d1, SetRecordParent(NodeRecord(child), ShapeRecord(other))) == Ok(d2)
    ensures InverseFor(d, RemoveShape(frame)) == Ok([InsertShape(d.shapes.entries[frame])])
    ensures InverseFor(d1, SetRecordParent(NodeRecord(child), ShapeRecord(other))) ==
            Ok([SetRecordParent(NodeRecord(child), ShapeRecord(frame))])
  {
    var old_, new_ := ParentRelation(NodeRecord(child), ShapeRecord(frame)),
      ParentRelation(NodeRecord(child), ShapeRecord(other));
    assert Upsert([old_], ChildKey, new_) == [new_];
    assert Lookup([old_], ChildKey, NodeRecord(child)) == Some(old_);
  }

  lemma TwoCommands(d: Document, d1: Document, d2: Document, a: Command, b: Command, undoA: Command, undoB: Command,
                    registry: Registry)
    requires Apply(d, a) == Ok(d1) && Apply(d1, b) == Ok(d2)
    requires InverseFor(d, a) == Ok([undoA]) && InverseFor(d1, b) == Ok([undoB])
    requires forall c :: registry.Normalize(c) == Ok(c)
    ensures NormalizeAll(registry, [a, b]) == Ok([a, b])
    ensures ApplyAll(d, [a, b]) == Ok(d2)
    ensures Invert(d, [a, b]) == Ok([undoB, undoA])
  {
    assert [a, b][1..] == [b] && [b][1..] == [] && [a] + [b] == [a, b] && [undoB] + [undoA] == [undoB, undoA];
    assert NormalizeAll(registry, [b]) ==
      Ok([b]) by { assert NormalizeAll(registry, []) == Ok([]); assert [b] + [] == [b]; }
    assert ApplyAll(d1, [b]) == Ok(d2) by { assert ApplyAll(d2, []) == Ok(d2); }
    assert Invert(d1, [b]) == Ok([undoB]) by { assert Invert(d2, []) == Ok([]); assert [] + [undoB] == [undoB]; }
  }

  lemma OneParentIsSound(d: Document, p: ParentRelation)
    requires d.relations == Relations([p], [], []) && p.child != p.parent && d.Contains(p.child) && d.Contains(p.parent)
    ensures RelationsSound(d)
  {
    var g := DownEdges(d.relations);
    forall a, b | (a, b) in g ensures a == p.parent && b == p.child {
      DownSteps(d.relations, a, b);
    }
    forall x ensures !Plus(g, x, x) {
      if Plus(g, x, x) {
        var c := PlusSplitsFirst(g, x, x);
        StarIsEqualOrPlus(g, c, x);
        if Plus(g, c, x) {
          var c2 := PlusSplitsFirst(g, c, x);
        }
      }
    }
  }
}
