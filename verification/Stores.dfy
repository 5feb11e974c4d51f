/** The store: a document, its caches and its history, through any run of commits, undos and redos. */
module Stores {
  import opened Prelude
  import opened IndexMaps
  import opened Records
  import opened RelationSets
  import opened Reachability
  import opened RelationValidation
  import opened Commands
  import opened DocumentDiffs
  import opened Mutations
  import opened Journal
  import opened Acceptance
  import opened Histories
  import opened Undoing
  import opened GraphIndexes
  import opened Routing
  import opened HitTesting
  import opened Runtimes

  type Transaction = seq<Command>

  /** From every sound document equal to `from`, the transaction is accepted and leads to a document equal to `to`. */
  ghost predicate Leads(registry: Registry, from: Document, transaction: Transaction, to: Document) {
    forall x :: Sound(x) && Same(x, from) ==> LeadsFrom(registry, x, transaction, to)
  }

  ghost predicate LeadsFrom(registry: Registry, x: Document, transaction: Transaction, to: Document) {
    var p := Prepare(x, transaction, registry);
    p.Ok? && Same(p.value.document, to)
  }

  /** The transaction leads from one document to another that differs. */
  ghost predicate Moves(registry: Registry, from: Document, transaction: Transaction, to: Document) {
    Leads(registry, from, transaction, to) && !Same(from, to)
  }

  /** The transactions of a stack lead, from the top down, through the given documents, each unlike the one before. */
  ghost predicate Trail(registry: Registry, present: Document, stack: seq<Transaction>, documents: seq<Document>) {
    && |stack| == |documents|
    && forall i :: 0 <= i < |stack| ==> Moves(registry, Above(present, documents, i), stack[i], documents[i])
  }

  ghost function Above(present: Document, documents: seq<Document>, i: nat): Document
    requires i < |documents|
  {
    if i + 1 < |documents| then documents[i + 1] else present
  }

  lemma LeadsBySame(registry: Registry, from: Document, transaction: Transaction, to: Document, from': Document)
    requires Leads(registry, from, transaction, to) && Same(from', from)
    ensures Leads(registry, from', transaction, to)
  {
    hide Sound, LeadsFrom, Same;
    forall x | Sound(x) && Same(x, from') ensures LeadsFrom(registry, x, transaction, to) {
      SameVia(x, from', from);
    }
  }

  lemma MovesBySame(registry: Registry, from: Document, transaction: Transaction, to: Document, from': Document)
    requires Moves(registry, from, transaction, to) && Same(from', from)
    ensures Moves(registry, from', transaction, to)
  {
    hide Leads, Same;
    LeadsBySame(registry, from, transaction, to, from');
    SameIsEquivalence();
  }

  lemma TrailBySame(registry: Registry, present: Document, stack: seq<Transaction>, documents: seq<Document>,
                    present': Document)
    requires Trail(registry, present, stack, documents) && Same(present', present)
    ensures Trail(registry, present', stack, documents)
  {
    hide Moves, Same;
    forall i | 0 <= i < |stack| ensures Moves(registry, Above(present', documents, i), stack[i], documents[i]) {
      if i + 1 == |documents| {
        MovesBySame(registry, present, stack[i], documents[i], present');
      }
    }
  }

  lemma TrailPush(registry: Registry, present: Document, stack: seq<Transaction>, documents: seq<Document>,
                  transaction: Transaction, present': Document)
    requires Trail(registry, present, stack, documents) && Moves(registry, present', transaction, present)
    ensures Trail(registry, present', stack + [transaction], documents + [present])
  {
    hide Moves;
    var s, t := stack + [transaction], documents + [present];
    forall i | 0 <= i < |s| ensures Moves(registry, Above(present', t, i), s[i], t[i]) {
      if i < |stack| {
        assert Above(present', t, i) == Above(present, documents, i);
      }
    }
  }

  lemma TrailPop(registry: Registry, present: Document, stack: seq<Transaction>, documents: seq<Document>)
    requires Trail(registry, present, stack, documents) && stack != []
    ensures Trail(registry, documents[|documents| - 1], stack[..|stack| - 1], documents[..|documents| - 1])
    ensures Moves(registry, present, stack[|stack| - 1], documents[|documents| - 1])
  {
    hide Moves;
    var last := |stack| - 1;
    forall i | 0 <= i < last
      ensures Moves(registry, Above(documents[last], documents[..last], i), stack[..last][i], documents[..last][i])
    {
      assert Above(documents[last], documents[..last], i) == Above(present, documents, i);
    }
  }

  /** The inverse that is recorded for an accepted transaction leads back. */
  lemma InverseLeadsBack(registry: Registry, d: Document, transaction: Transaction)
    requires Consistent(registry) && Good(registry, d) && Prepare(d, transaction, registry).Ok?
    ensures var p := Prepare(d, transaction, registry).value;
            Leads(registry, p.document, p.inverse, d) && Good(registry, p.document)
  {
    hide Consistent, Good, Prepare, Sound, Same;
    var p := Prepare(d, transaction, registry).value;
    forall x | Sound(x) && Same(x, p.document) ensures LeadsFrom(registry, x, p.inverse, d) {
      UndoIsAccepted(d, transaction, registry, x);
    }
    PreparedIsGood(d, transaction, registry);
  }

  lemma EmptyMeansEqual(diff: Diff, current: Document, previous: Document)
    requires Faithful(diff, current, previous) && diff.inserted == diff.updated == diff.removed == {}
    ensures current.SameRecords(previous)
  {
    forall id: RecordId ensures !Differs(current, previous, id) {
      assert id !in diff.inserted && id !in diff.updated && id !in diff.removed;
      if !current.Contains(id) {
        AbsentAgree(current, previous, id);
      }
    }
    EqualRecords(current, previous);
  }

  lemma EqualMeansEmpty(diff: Diff, current: Document, previous: Document)
    requires Faithful(diff, current, previous) && current.SameRecords(previous)
    requires forall id :: id in diff.updated ==> Differs(current, previous, id)
    ensures diff.inserted == diff.updated == diff.removed == {}
  {
    SameContents(current, previous);
    forall id: RecordId ensures id !in diff.inserted && id !in diff.updated && id !in diff.removed {
      assert !Differs(current, previous, id);
    }
  }

  /** No difference is reported exactly when the documents are equal. */
  lemma EmptyDiffIff(diff: Diff, current: Document, previous: Document)
    requires Sound(current) && Sound(previous) && Faithful(diff, current, previous)
    requires forall id :: id in diff.updated ==> Differs(current, previous, id)
    requires diff.metadataChanged <==> current.metadata != previous.metadata
    requires diff.relationsChanged <==> !SameRelations(current.relations, previous.relations)
    ensures diff.IsEmpty() <==> Same(current, previous)
  {
    EqualityIsSameFacts(current.relations, previous.relations);
    hide Sound, SameRelations, SameFacts, Faithful, Differs;
    if diff.IsEmpty() {
      EmptyMeansEqual(diff, current, previous);
    }
    if Same(current, previous) {
      EqualMeansEmpty(diff, current, previous);
    }
  }

  lemma AbsentAgree(x: Document, y: Document, id: RecordId)
    requires !x.Contains(id) && !y.Contains(id)
    ensures !Differs(x, y, id)
  {
  }

  lemma EqualRecords(x: Document, y: Document)
    requires forall id: RecordId :: !Differs(x, y, id)
    ensures x.SameRecords(y)
  {
    forall n ensures x.nodes.Get(n) == y.nodes.Get(n) { assert !Differs(x, y, NodeRecord(n)); }
    forall e ensures x.edges.Get(e) == y.edges.Get(e) { assert !Differs(x, y, EdgeRecord(e)); }
    forall s ensures x.shapes.Get(s) == y.shapes.Get(s) { assert !Differs(x, y, ShapeRecord(s)); }
    SameEntries(x.nodes, y.nodes);
    SameEntries(x.edges, y.edges);
    SameEntries(x.shapes, y.shapes);
  }

  /** The caches depend on the records only, not on their order. */
  lemma DescribesBySame(runtime: Runtime, d: Document, e: Document, router: Router, policy: Option<Policy>)
    requires runtime.Describes(d, router, policy) && d.SameRecords(e)
    ensures runtime.Describes(e, router, policy)
  {
    assert EndsOf(e) == EndsOf(d);
    forall k ensures Cached(runtime.geometries, k) == GeometryAt(e, router, policy, k) {
      assert GeometryAt(e, router, policy, k) == GeometryAt(d, router, policy, k);
    }
    ResolvedWhenEqual(runtime.geometries, e, router, policy);
  }

  /** A transaction that needs no inverse has changed nothing. */
  lemma EmptyInverseMeansSame(registry: Registry, d: Document, transaction: Transaction)
    requires Sound(d) && Prepare(d, transaction, registry).Ok? && Prepare(d, transaction, registry).value.inverse == []
    ensures Same(Prepare(d, transaction, registry).value.document, d)
  {
    var x := Prepare(d, transaction, registry).value.document;
    UndoRestores(d, transaction, registry);
    DraftMetadata(d, transaction, registry);
    hide Prepare, SameRelations;
    ApplyNone(x);
    PruneNothing(x.relations, Existing(x));
    EqualityIsSameFacts(x.relations, d.relations);
  }

  datatype Action = Commit(transaction: Transaction) | Undo | Redo

  class Store {
    const registry: Registry
    const router: Router
    const policy: Option<Policy>
    const runtime: Runtime
    var document: Document
    var undoStack: seq<Transaction>
    var redoStack: seq<Transaction>

    /** The documents that the two stacks lead to. */
    ghost var past: seq<Document>
    ghost var future: seq<Document>

    ghost predicate Valid()
      reads this, runtime, runtime.graph
    {
      && Consistent(registry) && Good(registry, document)
      && runtime.Describes(document, router, policy)
      && Trail(registry, document, undoStack, past)
      && Trail(registry, document, redoStack, future)
    }

    /** Where undoing everything ends. */
    ghost function Origin(): Document
      reads this
    {
      if past == [] then document else past[0]
    }

    constructor (d: Document, registry: Registry, router: Router, policy: Option<Policy>)
      requires Consistent(registry) && Good(registry, d)
      ensures Valid() && document == d && past == [] && future == []
      ensures this.registry == registry && this.router == router && this.policy == policy
      ensures fresh(runtime) && fresh(runtime.graph)
    {
      this.registry, this.router, this.policy := registry, router, policy;
      runtime := new Runtime.Rebuild(d, router, policy);
      document, undoStack, redoStack, past, future := d, [], [], [], [];
    }

    /** Takes over a prepared document; the caches are patched unless nothing differs. */
    method Replace(next: Document) returns (changed: bool)
      requires Sound(document) && Sound(next) && runtime.Describes(document, router, policy)
      modifies this`document, runtime, runtime.graph
      ensures document == next && runtime.Describes(next, router, policy)
      ensures changed <==> !Same(next, old(document))
    {
      ghost var before := document;
      SoundIsClosed(next);
      var diff := DiffAgainst(next, document);
      EmptyDiffIff(diff, next, document);
      document := next;
      changed := !diff.IsEmpty();
      if changed {
        runtime.ApplyDiff(next, diff, router, policy, before);
      } else {
        DescribesBySame(runtime, before, next, router, policy);
      }
    }

    /** Commits a transaction; the history grows unless nothing differs, and what was undone is forgotten. */
    method CommitTransaction(transaction: Transaction) returns (changed: Result<bool, DocumentError>)
      requires Valid()
      modifies this, runtime, runtime.graph
      ensures Valid()
      ensures transaction == [] ==> changed == Ok(false) && document == old(document)
      ensures changed.Err? <==> transaction != [] && Prepare(old(document), transaction, registry).Err?
      ensures changed.Err? ==>
              document == old(document) && changed.error == Prepare(old(document), transaction, registry).error
      ensures changed != Ok(true) ==> Same(document, old(document)) && past == old(past) && future == old(future)
      ensures changed.Ok? && transaction != [] ==>
              document == Prepare(old(document), transaction, registry).value.document
      ensures changed == Ok(true) ==>
              !Same(document, old(document)) && past == old(past) + [old(document)] && future == []
    {
      hide Consistent, Good, Same, Prepare, Trail, Leads, Moves, Sound;
      SameItself(document);
      if transaction == [] {
        return Ok(false);
      }
      ghost var before := document;
      var prepared := Prepare(document, transaction, registry);
      if prepared.Err? {
        return Err(prepared.error);
      }
      var inverse := prepared.value.inverse;
      Recorded(registry, before, transaction);
      RecordedMoves(registry, before, transaction);
      var different := Replace(prepared.value.document);
      if !different {
        TrailBySame(registry, before, undoStack, past, document);
        TrailBySame(registry, before, redoStack, future, document);
        return Ok(false);
      }
      TrailPush(registry, before, undoStack, past, inverse, document);
      if inverse != [] {
        undoStack := undoStack + [inverse];
        past := past + [before];
        redoStack, future := [], [];
      }
      EmptyTrail(registry, document);
      return Ok(true);
    }

    /** Undo never fails: it leads to the document before the last commit, which differs. */
    method UndoLast() returns (undone: bool)
      requires Valid()
      modifies this, runtime, runtime.graph
      ensures Valid()
      ensures undone <==> old(past) != []
      ensures undone ==> Same(document, old(past)[|old(past)| - 1]) && !Same(document, old(document))
      ensures undone ==> past == old(past)[..|old(past)| - 1] && future == old(future) + [old(document)]
      ensures !undone ==> document == old(document) && past == [] && future == old(future)
    {
      hide Consistent, Good, Same, Prepare, Trail, Leads, Moves, Sound, Runtime.Describes;
      TrailSize(registry, document, undoStack, past);
      if undoStack == [] {
        return false;
      }
      ghost var before := document;
      var last := |undoStack| - 1;
      var transaction := undoStack[last];
      TrailPop(registry, before, undoStack, past);
      StepIsPrepared(registry, before, transaction, past[last]);
      var prepared := Prepare(document, transaction, registry);
      var inverse := prepared.value.inverse;
      undone := Replace(prepared.value.document);
      TrailBySame(registry, past[last], undoStack[..last], past[..last], document);
      undoStack, past := undoStack[..last], past[..last];
      // Only an entry that changes something gets here: there is no other, so none is lost.
      if undone && inverse != [] {
        TrailPush(registry, before, redoStack, future, inverse, document);
        redoStack := redoStack + [inverse];
        future := future + [before];
      }
    }

    /** Redo never fails either: it leads to the document that was undone last, and forgets whatever else was undone. */
    method RedoLast() returns (redone: bool)
      requires Valid()
      modifies this, runtime, runtime.graph
      ensures Valid()
      ensures redone <==> old(future) != []
      ensures redone ==> Same(document, old(future)[|old(future)| - 1]) && !Same(document, old(document))
      ensures redone ==> past == old(past) + [old(document)] && future == []
      ensures !redone ==> document == old(document) && past == old(past) && future == []
    {
      hide Consistent, Good, Same, Prepare, Trail, Leads, Moves, Sound, Runtime.Describes;
      TrailSize(registry, document, redoStack, future);
      if redoStack == [] {
        return false;
      }
      ghost var before := document;
      var last := |redoStack| - 1;
      var transaction := redoStack[last];
      TrailPop(registry, before, redoStack, future);
      StepIsPrepared(registry, before, transaction, future[last]);
      var prepared := Prepare(document, transaction, registry);
      var inverse := prepared.value.inverse;
      redone := Replace(prepared.value.document);
      TrailBySame(registry, future[last], redoStack[..last], future[..last], document);
      redoStack, future := redoStack[..last], future[..last];
      // As above.  Recording the step clears the redo stack.
      if redone && inverse != [] {
        TrailPush(registry, before, undoStack, past, inverse, document);
        undoStack := undoStack + [inverse];
        past := past + [before];
        redoStack, future := [], [];
        EmptyTrail(registry, document);
      }
    }

    method Run(actions: seq<Action>)
      requires Valid()
      modifies this, runtime, runtime.graph
      ensures Valid() && Same(Origin(), old(Origin()))
    {
      hide Consistent, Good, Prepare, Trail, Same;
      ghost var origin := Origin();
      SameItself(origin);
      for i := 0 to |actions|
        invariant Valid() && Same(Origin(), origin)
      {
        ghost var before := Origin();
        SameItself(before);
        match actions[i] {
          case Commit(transaction) => var _ := CommitTransaction(transaction);
          case Undo => var _ := UndoLast();
          case Redo => var _ := RedoLast();
        }
        SameVia(Origin(), before, origin);
      }
    }

    method UndoAll()
      requires Valid()
      modifies this, runtime, runtime.graph
      ensures Valid() && past == [] && Same(document, old(Origin()))
    {
      hide Consistent, Good, Prepare, Trail, Same;
      ghost var origin := Origin();
      SameItself(origin);
      TrailSize(registry, document, undoStack, past);
      while undoStack != []
        invariant Valid() && |undoStack| == |past| && Same(Origin(), origin)
        decreases |undoStack|
      {
        ghost var before := Origin();
        SameItself(before);
        var _ := UndoLast();
        TrailSize(registry, document, undoStack, past);
        SameVia(Origin(), before, origin);
      }
    }

    /** Whatever is done to a store, undoing everything brings back the document it started with. */
    method RunThenUndoAll(actions: seq<Action>)
      requires Valid() && past == []
      modifies this, runtime, runtime.graph
      ensures Valid() && Same(document, old(document))
    {
      hide Consistent, Good, Prepare, Trail, Same;
      ghost var start := document;
      Run(actions);
      ghost var origin := Origin();
      UndoAll();
      SameVia(document, origin, start);
    }

    /** What the history reports to its callers. */
    function UndoDepth(): nat
      reads this
    {
      |undoStack|
    }

    /** The documents that undoing passes through, oldest first, with the present one last. */
    ghost function Line(): seq<Document>
      reads this
    {
      past + [document]
    }

    /**
     * Undoes up to `k` times and redoes as often.  The undo depth settles both counts: every undo up
     * to that depth works, but only the first redo does, because it clears what else was undone.
     */
    method UndoRedo(k: nat) returns (undone: nat, redone: nat)
      requires Valid()
      modifies this, runtime, runtime.graph
      ensures Valid()
      ensures undone == MinNat(k, old(UndoDepth())) && redone == MinNat(undone, 1)
      ensures redone == undone <==> k < 2 || old(UndoDepth()) < 2
      ensures |old(past)| == old(UndoDepth()) && Same(document, old(Line())[|old(past)| - undone + redone])
      ensures undone > 0 ==> redoStack == []
    {
      hide Consistent, Good, Prepare, Trail, Same;
      TrailSize(registry, document, undoStack, past);
      ghost var line := Line();
      SameIsEquivalence();
      undone := 0;
      while undone < k
        invariant Valid() && undone <= MinNat(k, |old(past)|)
        invariant |past| == |line| - 1 - undone && past == line[..|past|] && Same(document, line[|past|])
        invariant undone > 0 ==> future != [] && Same(future[|future| - 1], line[|past| + 1])
      {
        var worked := UndoLast();
        if !worked {
          break;
        }
        undone := undone + 1;
      }
      redone := 0;
      for i := 0 to undone
        invariant Valid() && redone == MinNat(i, 1)
        invariant undone == 0 || (if redone == 0 then future != [] else future == [])
        invariant undone == 0 ||
                  Same(if redone == 0 then future[|future| - 1] else document, line[|old(past)| - undone + 1])
        invariant undone == 0 ==> Same(document, line[|old(past)|])
      {
        var worked := RedoLast();
        if worked {
          redone := redone + 1;
        }
      }
      TrailSize(registry, document, redoStack, future);
    }

    /** One undo can always be redone. */
    method UndoThenRedo()
      requires Valid()
      modifies this, runtime, runtime.graph
      ensures Valid() && Same(document, old(document))
    {
      hide Consistent, Good, Prepare, Trail, Same;
      var _, _ := UndoRedo(1);
    }

    /** Undoing twice and redoing twice leads back exactly when there are not two steps to undo. */
    method UndoTwiceThenRedo() returns (undone: nat, redone: nat)
      requires Valid()
      modifies this, runtime, runtime.graph
      ensures Valid()
      ensures Same(document, old(document)) <==> old(UndoDepth()) < 2
      ensures |old(past)| == old(UndoDepth())
      ensures |old(past)| >= 2 ==> redoStack == [] && Same(document, old(past)[|old(past)| - 1])
    {
      hide Consistent, Good, Prepare, Trail, Same;
      TrailSize(registry, document, undoStack, past);
      if past != [] {
        LastStepDiffers();
      }
      SameIsEquivalence();
      undone, redone := UndoRedo(2);
    }

    lemma PresentIsSound()
      requires Valid()
      ensures Sound(document)
    {
    }

    lemma LastStepDiffers()
      requires Valid() && past != []
      ensures !Same(document, past[|past| - 1])
    {
      hide Consistent, Good, Prepare, Leads, Same;
      TrailPop(registry, document, undoStack, past);
    }
  }

  /** A fresh shape is always accepted, and adds itself. */
  lemma FreshShapeIsAccepted(d: Document, shape: Shape)
    requires Sound(d) && !d.shapes.Has(shape.id)
    ensures var prepared := Prepare(d, [InsertShape(shape)], OpenRegistry());
            prepared.Ok? && prepared.value.document == d.(shapes := d.shapes.Insert(shape.id, shape))
  {
    hide ApplyAll, Apply, LiveRun, Invert, NormalizeAll, ValidateRelations, CompleteInverse, RecordsSound, Prune;
    var cs, next := [InsertShape(shape)], d.(shapes := d.shapes.Insert(shape.id, shape));
    OneShapeInserted(d, shape, next);
    NormalizesToItself(cs[0]);
    MoreRecordsKeepSound(d, next);
    OpenRegistryAccepts(next);
    AcceptedIff(d, cs, OpenRegistry(), cs);
  }

  lemma OneShapeInserted(d: Document, shape: Shape, next: Document)
    requires !d.shapes.Has(shape.id) && next == d.(shapes := d.shapes.Insert(shape.id, shape))
    ensures ApplyAll(d, [InsertShape(shape)]) == Ok(next) && LiveRun(d, [InsertShape(shape)])
    ensures forall id: RecordId :: d.Contains(id) ==> next.Contains(id)
  {
    SingleCommand(d, InsertShape(shape));
    assert [InsertShape(shape)][1..] == [];
  }

  lemma NormalizesToItself(c: Command)
    ensures NormalizeAll(OpenRegistry(), [c]) == Ok([c])
  {
    assert [c][1..] == [] && NormalizeAll(OpenRegistry(), []) == Ok([]);
    assert [c] + [] == [c];
  }

  lemma MoreRecordsKeepSound(d: Document, next: Document)
    requires RelationsSound(d) && next.relations == d.relations && forall id: RecordId :: d.Contains(id) ==>
             next.Contains(id)
    ensures RelationsSound(next) && PruneMissing(next) == next
  {
    hide Acyclic, Prune;
    PruneNothing(next.relations, Existing(next));
  }

  lemma SameShapes(x: Document, y: Document)
    requires Same(x, y)
    ensures x.shapes.entries == y.shapes.entries
  {
  }

  /** Two commits, two undos: the second of two redos does nothing, and the second commit stays undone. */
  method SecondRedoIsLost(d: Document, a: Shape, b: Shape, router: Router, policy: Option<Policy>)
    returns (store: Store, redone: bool)
    requires Sound(d) && !d.shapes.Has(a.id) && !d.shapes.Has(b.id) && a.id != b.id
    ensures fresh(store) && store.Valid() && !redone
    ensures store.document.shapes.Has(a.id) && !store.document.shapes.Has(b.id)
  {
    hide Consistent, Good, Prepare, Sound, Same, Store.Valid;
    SameIsEquivalence();
    OpenRegistryIsConsistent(d);
    store := new Store(d, OpenRegistry(), router, policy);
    FreshShapeIsAccepted(d, a);
    var first := store.CommitTransaction([InsertShape(a)]);
    ghost var between := store.document;
    assert between.shapes.Has(a.id);
    store.PresentIsSound();
    FreshShapeIsAccepted(between, b);
    var second := store.CommitTransaction([InsertShape(b)]);
    if first != Ok(true) {
      SameShapes(between, d);
    }
    if second != Ok(true) {
      SameShapes(store.document, between);
    }
    var _ := store.UndoLast();
    var _ := store.UndoLast();
    var _ := store.RedoLast();
    redone := store.RedoLast();
    SameShapes(store.document, between);
  }

  function MinNat(a: nat, b: nat): nat {
    if a < b then a else b
  }

  lemma SameIsEquivalence()
    ensures forall x :: Same(x, x)
    ensures forall x, y :: Same(x, y) ==> Same(y, x)
    ensures forall x, y, z :: Same(x, y) && Same(y, z) ==> Same(x, z)
  {
  }

  lemma TrailSize(registry: Registry, present: Document, stack: seq<Transaction>, documents: seq<Document>)
    requires Trail(registry, present, stack, documents)
    ensures |stack| == |documents|
  {
  }

  lemma EmptyTrail(registry: Registry, present: Document)
    ensures Trail(registry, present, [], [])
  {
  }

  lemma NextIsAccepted(registry: Registry, d: Document, transaction: Transaction, to: Document)
    requires Good(registry, d) && Leads(registry, d, transaction, to)
    ensures Prepare(d, transaction, registry).Ok? && Same(Prepare(d, transaction, registry).value.document, to)
  {
    SameItself(d);
    hide Prepare, Sound, Same;
    assert LeadsFrom(registry, d, transaction, to);
  }

  /** If the transaction changes something, so does the step back that is recorded for it. */
  lemma RecordedMoves(registry: Registry, d: Document, transaction: Transaction)
    requires Consistent(registry) && Good(registry, d) && Prepare(d, transaction, registry).Ok?
    ensures var p := Prepare(d, transaction, registry).value;
            !Same(p.document, d) ==> p.inverse != [] && Moves(registry, p.document, p.inverse, d)
  {
    hide Consistent, Prepare, Sound, Same, Leads, Good;
    Recorded(registry, d, transaction);
  }

  /** A step to a document that differs is accepted, arrives there, and records a step back. */
  lemma StepIsPrepared(registry: Registry, d: Document, transaction: Transaction, to: Document)
    requires Consistent(registry) && Good(registry, d) && Moves(registry, d, transaction, to)
    ensures var prepared := Prepare(d, transaction, registry);
            && prepared.Ok? && Good(registry, prepared.value.document) && Sound(prepared.value.document) && Sound(d)
            && Same(prepared.value.document, to) && !Same(prepared.value.document, d)
            && prepared.value.inverse != [] && Moves(registry, prepared.value.document, prepared.value.inverse, d)
  {
    hide Consistent, Prepare, Sound, Same, Leads, Good;
    NextIsAccepted(registry, d, transaction, to);
    Recorded(registry, d, transaction);
    SameIsEquivalence();
  }

  /** What is known of a prepared transaction. */
  lemma Recorded(registry: Registry, d: Document, transaction: Transaction)
    requires Consistent(registry) && Good(registry, d) && Prepare(d, transaction, registry).Ok?
    ensures var p := Prepare(d, transaction, registry).value;
            && Leads(registry, p.document, p.inverse, d)
            && Good(registry, p.document) && Sound(p.document) && Sound(d)
            && (p.inverse == [] ==> Same(p.document, d))
  {
    hide Consistent, Prepare, Sound, Same, Leads;
    InverseLeadsBack(registry, d, transaction);
    if Prepare(d, transaction, registry).value.inverse == [] {
      EmptyInverseMeansSame(registry, d, transaction);
    }
  }
}
