/** The journal accepts every paste, and undoing it brings the document back. */
module PasteCommits {
  import opened Prelude
  import opened Records
  import opened RelationSets
  import opened RelationValidation
  import opened Commands
  import opened RelationReplay
  import opened Mutations
  import opened Journal
  import opened Acceptance
  import opened Histories
  import opened Gestures
  import opened Clipboard
  import opened PasteTheorems

  function RecordInserts(p: Payload, names: Names, offset: Point): seq<Command> {
    Map(InsertNodeCommand, CopiedNodes(p, names, offset)) +
    (Map(InsertShapeCommand, CopiedShapes(p, names, offset)) + Map(InsertEdgeCommand, CopiedEdges(p, names)))
  }

  lemma RecordInsertsFirst(p: Payload, names: Names, offset: Point)
    ensures PasteCommands(p, names, offset) ==
            RecordInserts(p, names, offset) + RelationInserts(CopiedRelations(p, names))
    ensures forall c :: c in RecordInserts(p, names, offset) ==> !IsRelationCommand(c)
  {
    hide CopiedNodes, CopiedShapes, CopiedEdges, CopiedRelations, RelationInserts;
    var nodes := Map(InsertNodeCommand, CopiedNodes(p, names, offset));
    var shapes := Map(InsertShapeCommand, CopiedShapes(p, names, offset));
    var edges := Map(InsertEdgeCommand, CopiedEdges(p, names));
    hide Map;
    var relations := RelationInserts(CopiedRelations(p, names));
    assert nodes + (shapes + (edges + relations)) == nodes + (shapes + edges) + relations;
  }

  lemma RelationInsertsName(r: Relations, x: Document)
    ensures forall c :: c in RelationInserts(r) ==> NamesExisting(x, c)
  {
    var parents, groups := Map(SetCommand, r.parents), Map(JoinCommand, r.groups);
    var bindings := Map(BindCommand, r.bindings);
    forall c | c in parents + (groups + bindings) ensures NamesExisting(x, c) {
      if c in parents {
        var p := MapSource(SetCommand, r.parents, c);
      } else if c in groups {
        var g := MapSource(JoinCommand, r.groups, c);
      } else {
        var b := MapSource(BindCommand, r.bindings, c);
      }
    }
  }

  /** No command of a paste overwrites anything that could not be set again. */
  lemma PasteIsLive(p: Payload, names: Names, d: Document, offset: Point)
    requires NamesFor(names, p, d) && Pasteable(p) && Sound(d)
    ensures LiveRun(d, PasteCommands(p, names, offset))
  {
    hide NamesFor, Pasteable, ApplyAll, LiveRun, RecordsSound, RecordsJoined, CopiedNodes, CopiedShapes, CopiedEdges,
         CopiedRelations, RelationInserts, Map, PasteCommands;
    var x := RecordsPaste(p, names, d, offset);
    forall id: RecordId | d.Contains(id) ensures x.Contains(id) {
      OldRecordsStay(d, x, CopiedNodes(p, names, offset), CopiedShapes(p, names, offset), CopiedEdges(p, names), id);
    }
    StillNoneDangles(d, x);
    RecordInsertsFirst(p, names, offset);
    RecordCommandsAreLive(d, RecordInserts(p, names, offset));
    RelationInsertsName(CopiedRelations(p, names), x);
    RelationCommandsAreLive(x, RelationInserts(CopiedRelations(p, names)));
    LiveConcat(d, RecordInserts(p, names, offset), RelationInserts(CopiedRelations(p, names)));
  }

  lemma StillNoneDangles(d: Document, x: Document)
    requires RelationsSound(d) && x.relations == d.relations
    requires forall id: RecordId :: d.Contains(id) ==> x.Contains(id)
    ensures NoneDangles(x)
  {
  }

  lemma SoundIsPruned(d: Document)
    requires RelationsSound(d)
    ensures PruneMissing(d) == d
  {
    PruneNothing(d.relations, Existing(d));
  }

  /**
   * A registry that does not rewrite the copies accepts a paste into any sound document exactly when
   * it accepts the result.  The document then holds what was there and the copies, and the recorded
   * inverse brings the earlier records and relations back.
   */
  lemma PasteIsAcceptedIff(p: Payload, names: Names, d: Document, offset: Point, registry: Registry)
    returns (y: Document)
    requires NamesFor(names, p, d) && Pasteable(p) && Sound(d)
    requires NormalizeAll(registry, PasteCommands(p, names, offset)) == Ok(PasteCommands(p, names, offset))
    ensures Sound(y)
    ensures RecordsJoined(y, d, CopiedNodes(p, names, offset), CopiedShapes(p, names, offset), CopiedEdges(p, names))
    ensures RelationsJoined(y.relations, d.relations, CopiedRelations(p, names))
    ensures Prepare(d, PasteCommands(p, names, offset), registry).Ok? <==> registry.Validate(y).Ok?
    ensures registry.Validate(y).Ok? ==>
              var prepared := Prepare(d, PasteCommands(p, names, offset), registry).value;
              var undone := ApplyAll(prepared.document, prepared.inverse);
              && prepared.document == y && undone.Ok? && undone.value.SameRecords(d)
              && SameRelations(PruneMissing(undone.value).relations, d.relations)
  {
    hide NamesFor, Pasteable, RecordsJoined, RelationsJoined, CopiedNodes, CopiedShapes, CopiedEdges, CopiedRelations,
         PasteCommands, NormalizeAll, LiveRun, RecordsSound, RelationsSound, SameRelations;
    var cs := PasteCommands(p, names, offset);
    y := PasteApplies(p, names, d, offset);
    SoundIsPruned(y);
    PasteIsLive(p, names, d, offset);
    AcceptedIff(d, cs, registry, cs);
    if registry.Validate(y).Ok? {
      PreparedDocument(d, cs, registry, y);
      hide Prepare, PruneMissing, ApplyAll;
      UndoRestores(d, cs, registry);
    }
  }

  lemma PreparedDocument(d: Document, cs: seq<Command>, registry: Registry, y: Document)
    requires NormalizeAll(registry, cs) == Ok(cs) && Prepare(d, cs, registry).Ok?
    requires ApplyAll(d, cs) == Ok(y) && PruneMissing(y) == y
    ensures Prepare(d, cs, registry).value.document == y
  {
    hide NormalizeAll, Invert, ApplyAll, PruneMissing, ValidateRelations, CompleteInverse;
  }
}
