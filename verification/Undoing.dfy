/** A recorded inverse is itself accepted, from every document equal to the one it was recorded for. */
module Undoing {
  import opened Prelude
  import opened Records
  import opened RelationSets
  import opened RelationValidation
  import opened Commands
  import opened RelationReplay
  import opened Mutations
  import opened Journal
  import opened Acceptance
  import opened Histories

  // Registries.

  ghost predicate Fixed(registry: Registry, c: Command) {
    registry.Normalize(c) == Ok(c)
  }

  predicate CarriesRecord(c: Command) {
    c.InsertNode? || c.UpdateNode? || c.InsertEdge? || c.UpdateEdge? || c.InsertShape? || c.UpdateShape?
  }

  /** A record that has been normalised is in normal form: once is enough. */
  ghost predicate Consistent(registry: Registry) {
    && (forall n :: registry.normalizeNode(n).Ok? ==>
                    registry.normalizeNode(registry.normalizeNode(n).value) == registry.normalizeNode(n))
    && (forall e :: registry.normalizeEdge(e).Ok? ==>
                    registry.normalizeEdge(registry.normalizeEdge(e).value) == registry.normalizeEdge(e))
    && (forall s :: registry.normalizeShape(s).Ok? ==>
                    registry.normalizeShape(registry.normalizeShape(s).value) == registry.normalizeShape(s))
  }

  /** So a command is done after one pass, and no other command is rewritten. */
  lemma NormalizedOnce(registry: Registry, c: Command)
    requires Consistent(registry) && registry.Normalize(c).Ok?
    ensures Fixed(registry, registry.Normalize(c).value)
  {
  }

  lemma OthersAreFixed(registry: Registry, c: Command)
    requires !CarriesRecord(c)
    ensures Fixed(registry, c)
  {
  }

  lemma UpdatesAreFixed(registry: Registry)
    ensures forall n :: Fixed(registry, InsertNode(n)) <==> Fixed(registry, UpdateNode(n))
    ensures forall e :: Fixed(registry, InsertEdge(e)) <==> Fixed(registry, UpdateEdge(e))
    ensures forall s :: Fixed(registry, InsertShape(s)) <==> Fixed(registry, UpdateShape(s))
  {
    forall n ensures Fixed(registry, InsertNode(n)) <==> Fixed(registry, UpdateNode(n)) {
      NodeIsFixed(registry, n);
    }
    forall e ensures Fixed(registry, InsertEdge(e)) <==> Fixed(registry, UpdateEdge(e)) {
      EdgeIsFixed(registry, e);
    }
    forall s ensures Fixed(registry, InsertShape(s)) <==> Fixed(registry, UpdateShape(s)) {
      ShapeIsFixed(registry, s);
    }
  }

  lemma NodeIsFixed(registry: Registry, n: Node)
    ensures Fixed(registry, InsertNode(n)) <==> registry.normalizeNode(n) == Ok(n)
    ensures Fixed(registry, UpdateNode(n)) <==> registry.normalizeNode(n) == Ok(n)
  {
  }

  lemma EdgeIsFixed(registry: Registry, e: Edge)
    ensures Fixed(registry, InsertEdge(e)) <==> registry.normalizeEdge(e) == Ok(e)
    ensures Fixed(registry, UpdateEdge(e)) <==> registry.normalizeEdge(e) == Ok(e)
  {
  }

  lemma ShapeIsFixed(registry: Registry, s: Shape)
    ensures Fixed(registry, InsertShape(s)) <==> registry.normalizeShape(s) == Ok(s)
    ensures Fixed(registry, UpdateShape(s)) <==> registry.normalizeShape(s) == Ok(s)
  {
  }

  /** The registry of a store that is given none: nothing is rewritten and nothing is rejected. */
  function OpenRegistry(): Registry {
    Registry((n: Node) => Ok(n), (e: Edge) => Ok(e), (s: Shape) => Ok(s),
             (n: Node) => Ok(()), (e: Edge) => Ok(()), (s: Shape) => Ok(()))
  }

  lemma OpenRegistryIsConsistent(d: Document)
    ensures Consistent(OpenRegistry())
    ensures Sound(d) ==> Good(OpenRegistry(), d)
  {
    hide Sound, OpenRegistry, Consistent, Fixed;
    NormalizingKeepsAll();
    OpenRegistryAccepts(d);
    forall c ensures Fixed(OpenRegistry(), c) {
      OpenRegistryFixes(c);
    }
  }

  lemma NormalizingKeepsAll()
    ensures Consistent(OpenRegistry())
  {
  }

  lemma OpenRegistryFixes(c: Command)
    ensures Fixed(OpenRegistry(), c)
  {
  }

  lemma OpenRegistryAccepts(d: Document)
    ensures OpenRegistry().Validate(d).Ok?
  {
    CheckEachIff(OpenRegistry().checkNode, d.nodes, d.nodes.keys);
    CheckEachIff(OpenRegistry().checkEdge, d.edges, d.edges.keys);
    CheckEachIff(OpenRegistry().checkShape, d.shapes, d.shapes.keys);
  }

  /** Every record is in normal form. */
  ghost predicate Settled(registry: Registry, d: Document) {
    && (forall n :: n in d.nodes.entries ==> Fixed(registry, InsertNode(d.nodes.entries[n])))
    && (forall e :: e in d.edges.entries ==> Fixed(registry, InsertEdge(d.edges.entries[e])))
    && (forall s :: s in d.shapes.entries ==> Fixed(registry, InsertShape(d.shapes.entries[s])))
  }

  /** What a store keeps true of its document. */
  ghost predicate Good(registry: Registry, d: Document) {
    Sound(d) && Settled(registry, d) && registry.Validate(d).Ok?
  }

  lemma {:induction false} NormalizedIsFixed(registry: Registry, cs: seq<Command>)
    requires Consistent(registry) && NormalizeAll(registry, cs).Ok?
    ensures forall c :: c in NormalizeAll(registry, cs).value ==> Fixed(registry, c)
  {
    if cs != [] {
      NormalizedIsFixed(registry, cs[1..]);
      NormalizedOnce(registry, cs[0]);
      hide Fixed;
    }
  }

  lemma {:induction false} FixedIsNormalized(registry: Registry, cs: seq<Command>)
    requires forall c :: c in cs ==> Fixed(registry, c)
    ensures NormalizeAll(registry, cs) == Ok(cs)
  {
    if cs != [] {
      assert cs[0] in cs && forall c :: c in cs[1..] ==> c in cs;
      FixedIsNormalized(registry, cs[1..]);
      assert cs == [cs[0]] + cs[1..];
    }
  }

  lemma ApplySettled(registry: Registry, d: Document, c: Command)
    requires Consistent(registry) && Settled(registry, d) && Fixed(registry, c) && Apply(d, c).Ok?
    ensures Settled(registry, Apply(d, c).value)
  {
    UpdatesAreFixed(registry);
    hide Fixed, ValidateNode, ValidateEdge, ValidateIntegrity;
  }

  lemma {:induction false} ApplyAllSettled(registry: Registry, d: Document, cs: seq<Command>)
    requires Consistent(registry) && Settled(registry, d) && ApplyAll(d, cs).Ok? && forall c :: c in cs ==>
             Fixed(registry, c)
    ensures Settled(registry, ApplyAll(d, cs).value)
    decreases cs
  {
    if cs != [] {
      hide Consistent, Settled, Fixed, Apply;
      assert cs[0] in cs && forall c :: c in cs[1..] ==> c in cs;
      ApplySettled(registry, d, cs[0]);
      ApplyAllSettled(registry, Apply(d, cs[0]).value, cs[1..]);
    }
  }

  lemma InverseIsFixed(registry: Registry, d: Document, c: Command)
    requires Consistent(registry) && Settled(registry, d) && d.Filed() && InverseFor(d, c).Ok?
    ensures forall k :: k in InverseFor(d, c).value ==> Fixed(registry, k)
  {
    hide Fixed, ValidateNode, ValidateEdge, CheckRecord, ParentOf, BindingOf, Consistent, HasMember;
    UpdatesAreFixed(registry);
    forall k ensures !CarriesRecord(k) ==> Fixed(registry, k) {
      if !CarriesRecord(k) {
        OthersAreFixed(registry, k);
      }
    }
    if c.RemoveNode? {
      RemovedNodeIsFixed(registry, d, c.nodeId);
    }
  }

  lemma RemovedNodeIsFixed(registry: Registry, d: Document, id: NodeId)
    requires Settled(registry, d) && d.Filed() && d.nodes.Has(id)
    ensures forall k :: k in InverseFor(d, RemoveNode(id)).value ==> Fixed(registry, k)
  {
    hide Fixed, Map, EdgesAt;
    var edges := EdgesAt(d, d.edges.keys, id);
    EdgesAtFacts(d, d.edges.keys, id);
    forall k | k in Map(InsertEdgeCommand, edges) ensures Fixed(registry, k) {
      var e := MapSource(InsertEdgeCommand, edges, k);
      assert d.edges.entries[e.id] == e;
    }
  }

  lemma {:induction false} InvertIsFixed(registry: Registry, d: Document, cs: seq<Command>)
    requires Consistent(registry) && Settled(registry, d) && RecordsSound(d) && ApplyAll(d, cs).Ok? && Invert(d, cs).Ok?
    requires forall c :: c in cs ==> Fixed(registry, c)
    ensures forall c :: c in Invert(d, cs).value ==> Fixed(registry, c)
    decreases cs
  {
    if cs != [] {
      assert d.Filed();
      hide Consistent, Settled, Fixed, Apply, InverseFor, RecordsSound;
      assert cs[0] in cs && forall c :: c in cs[1..] ==> c in cs;
      var next := Apply(d, cs[0]).value;
      FirstInverse(d, cs);
      ApplySettled(registry, d, cs[0]);
      ApplyKeepsRecordsSound(d, cs[0]);
      InverseIsFixed(registry, d, cs[0]);
      InvertIsFixed(registry, next, cs[1..]);
    }
  }

  // The parts of a prepared transaction.

  /** How `Prepare` came to its result. */
  ghost predicate PreparedBy(d: Document, p: Prepared, transaction: seq<Command>, inverse: seq<Command>,
                             applied: Document)
  {
    && ApplyAll(d, transaction) == Ok(applied)
    && p.document == PruneMissing(applied)
    && Invert(d, transaction) == Ok(inverse)
    && CompleteInverse(d, p.document, inverse) == Ok(p.inverse)
  }

  lemma PreparedParts(d: Document, cs: seq<Command>, registry: Registry)
    returns (transaction: seq<Command>, inverse: seq<Command>, applied: Document)
    requires Prepare(d, cs, registry).Ok?
    ensures NormalizeAll(registry, cs) == Ok(transaction)
    ensures PreparedBy(d, Prepare(d, cs, registry).value, transaction, inverse, applied)
    ensures registry.Validate(Prepare(d, cs, registry).value.document).Ok?
  {
    hide NormalizeAll, Invert, ApplyAll, PruneMissing, ValidateRelations, CompleteInverse;
    transaction := NormalizeAll(registry, cs).value;
    inverse := Invert(d, transaction).value;
    applied := ApplyAll(d, transaction).value;
  }

  /** Accepted transactions lead from good documents to good documents. */
  lemma PreparedIsGood(d: Document, cs: seq<Command>, registry: Registry)
    requires Consistent(registry) && Good(registry, d) && Prepare(d, cs, registry).Ok?
    ensures Good(registry, Prepare(d, cs, registry).value.document)
  {
    hide Consistent, Settled, Sound, Prepare, NormalizeAll, ApplyAll, Invert, CompleteInverse;
    var transaction, inverse, applied := PreparedParts(d, cs, registry);
    UndoRestores(d, cs, registry);
    NormalizedIsFixed(registry, cs);
    ApplyAllSettled(registry, d, transaction);
    SettledWithRelations(registry, applied, PruneMissing(applied));
  }

  lemma SettledWithRelations(registry: Registry, x: Document, y: Document)
    requires Settled(registry, x) && x.SameRecords(y)
    ensures Settled(registry, y)
  {
  }

  // The inverse, run from an equal document.

  /** The document after the transaction, and all equal ones, are behind the unpruned result. */
  lemma EqualIsBehind(applied: Document, x: Document)
    requires Kept(applied) && Kept(x) && Same(x, PruneMissing(applied))
    ensures Behind(x, applied)
  {
    hide RecordsSound, WellFormed, SameFacts, Prune;
    PruneWithin(applied.relations, Existing(applied));
    SameFactsIff(x.relations, PruneMissing(applied).relations);
  }

  lemma PlainInverseFrom(d: Document, transaction: seq<Command>, inverse: seq<Command>, applied: Document, x: Document)
    requires Kept(d) && ApplyAll(d, transaction) == Ok(applied) && Invert(d, transaction) == Ok(inverse) &&
             Behind(x, applied)
    requires ApplyAll(x, inverse).Ok?
    ensures LiveRun(x, inverse) && Behind(ApplyAll(x, inverse).value, d)
  {
    hide ApplyAll, Invert, RecordsSound, WellFormed, Within, LiveRun;
    assert CanInvert(x, d, transaction);
    InvertIsLive(d, transaction, x);
    InvertsIff(d, transaction, x);
  }

  lemma CompletedIsLive(d: Document, p: Prepared, transaction: seq<Command>, inverse: seq<Command>, applied: Document,
                        x: Document)
    requires Sound(d) && Kept(applied) && PreparedBy(d, p, transaction, inverse, applied)
    requires Kept(x) && Same(x, p.document) && Kept(p.document)
    ensures LiveRun(x, p.inverse)
  {
    KeptWhenSound(d);
    hide Kept, Sound, Same, ApplyAll, Invert, CompleteInverse, Behind, RelationCommands, LiveRun, PruneMissing;
    CompletedForm(d, p.document, inverse);
    var plain := ApplyAll(p.document, inverse).value;
    SameBack(p.document, x);
    ApplyAllSame(p.document, x, inverse);
    EqualIsBehind(applied, x);
    SameItself(p.document);
    EqualIsBehind(applied, p.document);
    PlainInverseFrom(d, transaction, inverse, applied, x);
    PlainInverseFrom(d, transaction, inverse, applied, p.document);
    CompletionFrom(d, plain, ApplyAll(x, inverse).value);
    LiveConcat(x, inverse, RelationCommands(d.relations, PruneMissing(plain).relations));
  }

  lemma KeptWhenSound(d: Document)
    requires Sound(d)
    ensures Kept(d)
  {
  }

  lemma SameItself(x: Document)
    ensures Same(x, x)
  {
  }

  lemma SameBack(x: Document, y: Document)
    requires Same(y, x)
    ensures Same(x, y)
  {
  }

  lemma CompletionFrom(d: Document, plain: Document, y: Document)
    requires Sound(d) && Behind(y, d) && Behind(plain, d)
    ensures LiveRun(y, RelationCommands(d.relations, PruneMissing(plain).relations))
  {
    hide Sound, LiveRun, RelationCommands, RecordsSound, WellFormed, Within;
    PruneTwice(plain);
    CompletionIsLive(d, PruneMissing(plain), y);
  }

  lemma CompletionIsLive(d: Document, restored: Document, y: Document)
    requires Sound(d) && Behind(y, d) && restored.SameRecords(d) && restored == PruneMissing(restored)
    ensures LiveRun(y, RelationCommands(d.relations, restored.relations))
  {
    BehindIsSound(y, d);
    hide RecordsSound, RelationCommands, LiveRun;
    assert NoneDangles(y);
    SameContents(restored, d);
    SameContents(y, d);
    PruneFacts(restored.relations, Existing(restored));
    forall c | c in RelationCommands(d.relations, restored.relations) ensures NamesExisting(y, c) {
      CompletionNamesExisting(d.relations, restored.relations, y, c);
    }
    RelationCommandsAreLive(y, RelationCommands(d.relations, restored.relations));
  }

  /** The completed inverse is in normal form already. */
  lemma CompletedIsFixed(registry: Registry, d: Document, p: Prepared, transaction: seq<Command>,
                         inverse: seq<Command>, applied: Document)
    requires Consistent(registry) && Settled(registry, d) && RecordsSound(d) &&
             PreparedBy(d, p, transaction, inverse, applied)
    requires forall c :: c in transaction ==> Fixed(registry, c)
    ensures forall c :: c in p.inverse ==> Fixed(registry, c)
  {
    hide Consistent, Settled, RecordsSound, Fixed, ApplyAll, Invert, CompleteInverse, RelationCommands, PruneMissing;
    InvertIsFixed(registry, d, transaction);
    CompletedForm(d, p.document, inverse);
    var restored := PruneMissing(ApplyAll(p.document, inverse).value);
    PrunedExists(ApplyAll(p.document, inverse).value);
    forall c | c in RelationCommands(d.relations, restored.relations) ensures Fixed(registry, c) {
      CompletionNamesExisting(d.relations, restored.relations, restored, c);
      RelationCommandIsFixed(registry, c);
    }
  }

  lemma PrunedExists(d: Document)
    ensures var x := PruneMissing(d);
            && (forall p :: p in x.relations.parents ==> x.Contains(p.child))
            && (forall g :: g in x.relations.groups ==> x.Contains(g.group) && x.Contains(g.member))
  {
    PruneFacts(d.relations, Existing(d));
  }

  lemma RelationCommandIsFixed(registry: Registry, c: Command)
    requires Consistent(registry) && IsRelationCommand(c)
    ensures Fixed(registry, c)
  {
    OthersAreFixed(registry, c);
  }

  /** Running the completed inverse from an equal document ends in a document equal to the earlier one. */
  lemma CompletedFrom(d: Document, cs: seq<Command>, registry: Registry, x: Document)
    requires Sound(d) && Prepare(d, cs, registry).Ok? && Sound(x) && Same(x, Prepare(d, cs, registry).value.document)
    ensures var p := Prepare(d, cs, registry).value;
            && ApplyAll(x, p.inverse).Ok?
            && Same(PruneMissing(ApplyAll(x, p.inverse).value), d)
            && Sound(PruneMissing(ApplyAll(x, p.inverse).value))
  {
    var p := Prepare(d, cs, registry).value;
    UndoRestores(d, cs, registry);
    DraftMetadata(d, cs, registry);
    hide Prepare, ApplyAll, Sound, SameRelations, Same, PruneMissing;
    InverseFrom(d, p.document, p.inverse, x);
  }

  lemma InverseFrom(d: Document, after: Document, inverse: seq<Command>, x: Document)
    requires Sound(d) && Sound(after) && Sound(x) && Same(x, after) && after.metadata == d.metadata
    requires ApplyAll(after, inverse).Ok? && ApplyAll(after, inverse).value.SameRecords(d)
    requires SameRelations(PruneMissing(ApplyAll(after, inverse).value).relations, d.relations)
    ensures ApplyAll(x, inverse).Ok?
    ensures Same(PruneMissing(ApplyAll(x, inverse).value), d) && Sound(PruneMissing(ApplyAll(x, inverse).value))
  {
    hide ApplyAll, Sound, SameRelations, Same, RecordsSound, WellFormed, PruneMissing;
    KeptWhenSound(after);
    KeptWhenSound(x);
    KeptWhenSound(d);
    var undone := ApplyAll(after, inverse).value;
    MetadataStays(after, inverse);
    ApplyAllKeepsRecordsSound(after, inverse);
    ApplyAllSame(x, after, inverse);
    ApplyAllKeepsRecordsSound(x, inverse);
    RestoredIsSame(d, undone);
    PruneSame(ApplyAll(x, inverse).value, undone);
    SameVia(PruneMissing(ApplyAll(x, inverse).value), PruneMissing(undone), d);
    SoundAfterPrune(d, ApplyAll(x, inverse).value);
  }

  lemma DraftMetadata(d: Document, cs: seq<Command>, registry: Registry)
    requires Prepare(d, cs, registry).Ok?
    ensures Prepare(d, cs, registry).value.document.metadata == d.metadata
  {
    hide Prepare, Invert, CompleteInverse, NormalizeAll;
    var transaction, inverse, applied := PreparedParts(d, cs, registry);
    MetadataStays(d, transaction);
  }

  lemma RestoredIsSame(d: Document, undone: Document)
    requires Kept(d) && Kept(undone) && undone.SameRecords(d) && undone.metadata == d.metadata
    requires SameRelations(PruneMissing(undone).relations, d.relations)
    ensures Same(PruneMissing(undone), d)
  {
    PruneFacts(undone.relations, Existing(undone));
    hide SameRelations, SameFacts, WellFormed, RecordsSound, Prune;
    EqualityIsSameFacts(PruneMissing(undone).relations, d.relations);
  }

  lemma SameVia(x: Document, y: Document, z: Document)
    requires Same(x, y) && Same(y, z)
    ensures Same(x, z)
  {
  }

  lemma SoundAfterPrune(d: Document, y: Document)
    requires Sound(d) && Kept(y) && Same(PruneMissing(y), d)
    ensures Sound(PruneMissing(y))
  {
    PruneFacts(y.relations, Existing(y));
    hide RelationsSound, NodesSound, EdgesSound, SameFacts, WellFormed, Prune;
    SameBack(d, PruneMissing(y));
    SoundBySame(d, PruneMissing(y));
  }

  /**
   * Undo never fails: from every sound document equal to the one an accepted transaction left, the
   * recorded inverse is accepted in turn, and leads to a document equal to the one before.
   */
  lemma UndoIsAccepted(d: Document, cs: seq<Command>, registry: Registry, x: Document)
    requires Consistent(registry) && Good(registry, d) && Prepare(d, cs, registry).Ok?
    requires Sound(x) && Same(x, Prepare(d, cs, registry).value.document)
    ensures var p := Prepare(d, cs, registry).value;
            var undo := Prepare(x, p.inverse, registry);
            undo.Ok? && Same(undo.value.document, d)
  {
    var p := Prepare(d, cs, registry).value;
    var transaction, inverse, applied := PreparedParts(d, cs, registry);
    KeptWhenSound(d);
    KeptWhenSound(x);
    PreparedIsGood(d, cs, registry);
    KeptWhenSound(p.document);
    CompletedFrom(d, cs, registry, x);
    var y := PruneMissing(ApplyAll(x, p.inverse).value);
    SameRecordsSameVerdict(registry, d, y);
    hide Prepare, ApplyAll, Sound, Same, Consistent, Settled, Invert, CompleteInverse, NormalizeAll, LiveRun,
         PruneMissing;
    ApplyAllKeepsRecordsSound(d, transaction);
    CompletedIsLive(d, p, transaction, inverse, applied, x);
    NormalizedIsFixed(registry, cs);
    CompletedIsFixed(registry, d, p, transaction, inverse, applied);
    FixedIsNormalized(registry, p.inverse);
    AcceptedFrom(x, p.inverse, registry, y);
  }

  lemma AcceptedFrom(x: Document, cs: seq<Command>, registry: Registry, y: Document)
    requires Sound(x) && NormalizeAll(registry, cs) == Ok(cs) && ApplyAll(x, cs).Ok? &&
             y == PruneMissing(ApplyAll(x, cs).value)
    requires Sound(y) && registry.Validate(y).Ok? && LiveRun(x, cs)
    ensures Prepare(x, cs, registry).Ok? && Prepare(x, cs, registry).value.document == y
  {
    hide NormalizeAll, Invert, ApplyAll, LiveRun, ValidateRelations, CompleteInverse, PruneMissing, RecordsSound,
         RelationsSound;
    AcceptedIff(x, cs, registry, cs);
  }
}
