/** Copying records of a document into a payload, and pasting the payload into any document. */
module Copying {
  import opened Prelude
  import opened KeyedLists
  import opened Records
  import opened RelationSets
  import opened RelationTraversal
  import opened RelationValidation
  import opened Reachability
  import opened Commands
  import opened Mutations
  import opened Clipboard
  import opened PasteTheorems
  import opened Scopes
  import opened ScopeTheorems

  // The copied records, in the order of the copied ids.

  function NodeOf(d: Document, id: RecordId): seq<Node> {
    if id.NodeRecord? && d.nodes.Has(id.node) then [d.nodes.entries[id.node]] else []
  }

  function NodesOf(d: Document, ids: seq<RecordId>): seq<Node> {
    if ids == [] then [] else NodeOf(d, ids[0]) + NodesOf(d, ids[1..])
  }

  function EdgeOf(d: Document, id: RecordId): seq<Edge> {
    if id.EdgeRecord? && d.edges.Has(id.edge) then [d.edges.entries[id.edge]] else []
  }

  function EdgesOf(d: Document, ids: seq<RecordId>): seq<Edge> {
    if ids == [] then [] else EdgeOf(d, ids[0]) + EdgesOf(d, ids[1..])
  }

  function ShapeOf(d: Document, id: RecordId): seq<Shape> {
    if id.ShapeRecord? && d.shapes.Has(id.shape) then [d.shapes.entries[id.shape]] else []
  }

  function ShapesOf(d: Document, ids: seq<RecordId>): seq<Shape> {
    if ids == [] then [] else ShapeOf(d, ids[0]) + ShapesOf(d, ids[1..])
  }

  function Among(ids: seq<RecordId>): RecordId -> bool {
    (id: RecordId) => id in ids
  }

  function CopiedSelection(selection: Selection, ids: seq<RecordId>): Selection {
    Selection(set id | id in selection.records && id in ids, set h | h in selection.handles &&
      NodeRecord(h.node) in ids)
  }

  function CopyRecords(d: Document, ids: seq<RecordId>, selection: Selection): Payload {
    Payload(NodesOf(d, ids), EdgesOf(d, ids), ShapesOf(d, ids), CopiedSelection(selection, ids),
      Prune(d.relations, Among(ids)))
  }

  method Collected(d: Document, ids: seq<RecordId>) returns (nodes: seq<Node>, edges: seq<Edge>, shapes: seq<Shape>)
    ensures nodes == NodesOf(d, ids) && edges == EdgesOf(d, ids) && shapes == ShapesOf(d, ids)
  {
    hide NodesOf, EdgesOf, ShapesOf;
    nodes, edges, shapes := [], [], [];
    NoneOf(d);
    for i := 0 to |ids|
      invariant nodes == NodesOf(d, ids[..i]) && edges == EdgesOf(d, ids[..i]) && shapes == ShapesOf(d, ids[..i])
    {
      assert ids[..i + 1] == ids[..i] + [ids[i]];
      LastNode(d, ids[..i], ids[i]);
      LastEdge(d, ids[..i], ids[i]);
      LastShape(d, ids[..i], ids[i]);
      match ids[i] {
        case NodeRecord(n) => if d.nodes.Has(n) { nodes := nodes + [d.nodes.entries[n]]; }
        case EdgeRecord(e) => if d.edges.Has(e) { edges := edges + [d.edges.entries[e]]; }
        case ShapeRecord(s) => if d.shapes.Has(s) { shapes := shapes + [d.shapes.entries[s]]; }
      }
    }
    assert ids[..|ids|] == ids;
  }

  lemma NoneOf(d: Document)
    ensures NodesOf(d, []) == [] && EdgesOf(d, []) == [] && ShapesOf(d, []) == []
  {
  }

  lemma {:induction false} LastNode(d: Document, ids: seq<RecordId>, id: RecordId)
    ensures NodesOf(d, ids + [id]) == NodesOf(d, ids) + NodeOf(d, id)
  {
    hide NodeOf;
    if ids == [] {
      assert [id][1..] == [] && [] + [id] == [id];
    } else {
      var rest := ids[1..];
      LastNode(d, rest, id);
      assert (ids + [id])[1..] == rest + [id];
    }
  }

  lemma {:induction false} LastEdge(d: Document, ids: seq<RecordId>, id: RecordId)
    ensures EdgesOf(d, ids + [id]) == EdgesOf(d, ids) + EdgeOf(d, id)
  {
    hide EdgeOf;
    if ids == [] {
      assert [id][1..] == [] && [] + [id] == [id];
    } else {
      var rest := ids[1..];
      LastEdge(d, rest, id);
      assert (ids + [id])[1..] == rest + [id];
    }
  }

  lemma {:induction false} LastShape(d: Document, ids: seq<RecordId>, id: RecordId)
    ensures ShapesOf(d, ids + [id]) == ShapesOf(d, ids) + ShapeOf(d, id)
  {
    hide ShapeOf;
    if ids == [] {
      assert [id][1..] == [] && [] + [id] == [id];
    } else {
      var rest := ids[1..];
      LastShape(d, rest, id);
      assert (ids + [id])[1..] == rest + [id];
    }
  }

  /**
   * On any relation lists: the kept relations are set one by one, so the copied lists are well formed
   * even if these are not.
   */
  method FromRecords(d: Document, ids: seq<RecordId>, selection: Selection) returns (p: Payload)
    ensures p == CopyRecords(d, ids, selection).(relations := Resolved(Prune(d.relations, Among(ids))))
    ensures WellFormed(p.relations)
    ensures WellFormed(d.relations) ==> p == CopyRecords(d, ids, selection)
  {
    hide Filter, Map, Upserted;
    var nodes, edges, shapes := Collected(d, ids);
    var parents := UpsertKept(d.relations.parents, ChildKey, ParentKept(Among(ids)));
    var groups := UpsertKept(d.relations.groups, GroupKey, GroupKept(Among(ids)));
    var bindings := UpsertKept(d.relations.bindings, BindingKey, BindingKept(Among(ids)));
    p := Payload(nodes, edges, shapes, CopiedSelection(selection, ids), Relations(parents, groups, bindings));
    ResolvedFacts(Prune(d.relations, Among(ids)));
    PruneFacts(d.relations, Among(ids));
  }

  /** The list that results when the elements are set one by one: for each key the last one counts. */
  function Upserted<T, K(==)>(s: seq<T>, key: T -> K): seq<T> {
    if s == [] then [] else Upsert(Upserted(s[..|s| - 1], key), key, s[|s| - 1])
  }

  function Resolved(r: Relations): Relations {
    Relations(Upserted(r.parents, ChildKey), Upserted(r.groups, GroupKey), Upserted(r.bindings, BindingKey))
  }

  lemma ResolvedFacts(r: Relations)
    ensures WellFormed(Resolved(r)) && (WellFormed(r) ==> Resolved(r) == r)
  {
    UpsertedFacts(r.parents, ChildKey);
    UpsertedFacts(r.groups, GroupKey);
    UpsertedFacts(r.bindings, BindingKey);
  }

  lemma {:induction false} UpsertedFacts<T, K(!new)>(s: seq<T>, key: T -> K)
    ensures Unique(Upserted(s, key), key)
    ensures Unique(s, key) ==> Upserted(s, key) == s
  {
    if s != [] {
      var front, last := s[..|s| - 1], s[|s| - 1];
      UpsertedFacts(front, key);
      UpsertKeys(Upserted(front, key), key, last);
      if Unique(s, key) {
        assert s == front + [last];
        forall y | y in front ensures key(y) != key(last) {
          var i :| 0 <= i < |front| && s[i] == y;
        }
        UpsertNew(front, key, last);
      }
    }
  }

  method UpsertKept<T, K(==)>(s: seq<T>, key: T -> K, keep: T -> bool) returns (r: seq<T>)
    ensures r == Upserted(Filter(s, keep), key)
  {
    r := [];
    for i := 0 to |s|
      invariant r == Upserted(Filter(s[..i], keep), key)
    {
      FilterNext(s, i, keep);
      if keep(s[i]) {
        assert (Filter(s[..i], keep) + [s[i]])[..|Filter(s[..i], keep)|] == Filter(s[..i], keep);
        r := Upsert(r, key, s[i]);
      }
    }
    assert s[..|s|] == s;
  }

  lemma {:induction false} UpsertNew<T, K>(s: seq<T>, key: T -> K, x: T)
    requires forall y :: y in s ==> key(y) != key(x)
    ensures Upsert(s, key, x) == s + [x]
  {
    if s != [] {
      assert s[0] in s && forall y :: y in s[1..] ==> y in s;
      UpsertNew(s[1..], key, x);
    }
  }

  /** The payload holds the listed records, the relations with both ends listed, and what of the selection is listed. */
  lemma PayloadHolds(d: Document, ids: seq<RecordId>, selection: Selection)
    requires d.Filed()
    ensures var p := CopyRecords(d, ids, selection);
            && (forall n :: n in p.nodes <==> NodeRecord(n.id) in ids && d.nodes.Get(n.id) == Some(n))
            && (forall e :: e in p.edges <==> EdgeRecord(e.id) in ids && d.edges.Get(e.id) == Some(e))
            && (forall s :: s in p.shapes <==> ShapeRecord(s.id) in ids && d.shapes.Get(s.id) == Some(s))
            && (forall q :: q in p.relations.parents <==> q in d.relations.parents && q.child in ids && q.parent in ids)
            && (forall g :: g in p.relations.groups <==> g in d.relations.groups && g.group in ids && g.member in ids)
            && (forall b :: b in p.relations.bindings <==>
                            b in d.relations.bindings && b.source in ids && b.target in ids)
            && (forall id :: id in p.selection.records <==> id in selection.records && id in ids)
            && (forall h :: h in p.selection.handles <==> h in selection.handles && NodeRecord(h.node) in ids)
  {
    hide NodesOf, EdgesOf, ShapesOf, Prune;
    PruneFacts(d.relations, Among(ids));
    forall n ensures n in NodesOf(d, ids) <==> NodeRecord(n.id) in ids && d.nodes.Get(n.id) == Some(n) {
      NodesOfMember(d, ids, n);
    }
    forall e ensures e in EdgesOf(d, ids) <==> EdgeRecord(e.id) in ids && d.edges.Get(e.id) == Some(e) {
      EdgesOfMember(d, ids, e);
    }
    forall s ensures s in ShapesOf(d, ids) <==> ShapeRecord(s.id) in ids && d.shapes.Get(s.id) == Some(s) {
      ShapesOfMember(d, ids, s);
    }
  }

  // What was copied can be pasted.

  lemma {:induction false} NodesOfMember(d: Document, ids: seq<RecordId>, x: Node)
    requires d.Filed()
    ensures x in NodesOf(d, ids) <==> NodeRecord(x.id) in ids && d.nodes.Get(x.id) == Some(x)
  {
    if ids != [] {
      NodesOfMember(d, ids[1..], x);
      assert ids == [ids[0]] + ids[1..];
    }
  }

  lemma {:induction false} EdgesOfMember(d: Document, ids: seq<RecordId>, x: Edge)
    requires d.Filed()
    ensures x in EdgesOf(d, ids) <==> EdgeRecord(x.id) in ids && d.edges.Get(x.id) == Some(x)
  {
    if ids != [] {
      EdgesOfMember(d, ids[1..], x);
      assert ids == [ids[0]] + ids[1..];
    }
  }

  lemma {:induction false} ShapesOfMember(d: Document, ids: seq<RecordId>, x: Shape)
    requires d.Filed()
    ensures x in ShapesOf(d, ids) <==> ShapeRecord(x.id) in ids && d.shapes.Get(x.id) == Some(x)
  {
    if ids != [] {
      ShapesOfMember(d, ids[1..], x);
      assert ids == [ids[0]] + ids[1..];
    }
  }

  lemma UniqueCons<T, K>(x: T, s: seq<T>, key: T -> K)
    requires Unique(s, key) && forall y :: y in s ==> key(y) != key(x)
    ensures Unique([x] + s, key) && Unique([] + s, key)
  {
    assert [] + s == s;
  }

  lemma {:induction false} NodesOfUnique(d: Document, ids: seq<RecordId>)
    requires d.Filed() && Distinct(ids)
    ensures Unique(NodesOf(d, ids), NodeKey)
  {
    if ids != [] {
      NodesOfUnique(d, ids[1..]);
      var rest := NodesOf(d, ids[1..]);
      if ids[0].NodeRecord? && d.nodes.Has(ids[0].node) {
        var x := d.nodes.entries[ids[0].node];
        forall y | y in rest ensures y.id != x.id { NodesOfMember(d, ids[1..], y); }
        UniqueCons(x, rest, NodeKey);
      } else {
        assert NodesOf(d, ids) == rest;
      }
    }
  }

  lemma {:induction false} EdgesOfUnique(d: Document, ids: seq<RecordId>)
    requires d.Filed() && Distinct(ids)
    ensures Unique(EdgesOf(d, ids), EdgeKey)
  {
    if ids != [] {
      EdgesOfUnique(d, ids[1..]);
      var rest := EdgesOf(d, ids[1..]);
      if ids[0].EdgeRecord? && d.edges.Has(ids[0].edge) {
        var x := d.edges.entries[ids[0].edge];
        forall y | y in rest ensures y.id != x.id { EdgesOfMember(d, ids[1..], y); }
        UniqueCons(x, rest, EdgeKey);
      } else {
        assert EdgesOf(d, ids) == rest;
      }
    }
  }

  lemma {:induction false} ShapesOfUnique(d: Document, ids: seq<RecordId>)
    requires d.Filed() && Distinct(ids)
    ensures Unique(ShapesOf(d, ids), ShapeKey)
  {
    if ids != [] {
      ShapesOfUnique(d, ids[1..]);
      var rest := ShapesOf(d, ids[1..]);
      if ids[0].ShapeRecord? && d.shapes.Has(ids[0].shape) {
        var x := d.shapes.entries[ids[0].shape];
        forall y | y in rest ensures y.id != x.id { ShapesOfMember(d, ids[1..], y); }
        UniqueCons(x, rest, ShapeKey);
      } else {
        assert ShapesOf(d, ids) == rest;
      }
    }
  }

  lemma CopiedEdgeFitsItsNodes(d: Document, ids: seq<RecordId>, p: Payload, e: Edge)
    requires RecordsSound(d) && p.nodes == NodesOf(d, ids) && e in EdgesOf(d, ids)
    ensures PayloadEdgeFits(p, e)
  {
    hide ValidateEdge;
    EdgesOfMember(d, ids, e);
    var table := NodeTable(p.nodes);
    forall n | n in table ensures n in d.nodes.entries && table[n] == d.nodes.entries[n] {
      NodesOfMember(d, ids, table[n]);
    }
    if e.source.node in table && e.target.node in table {
      assert ValidateEdge(d.nodes.entries, d.edges.entries[e.id]).Ok?;
      EdgeDependsOnItsNodes(d.nodes.entries, table, e);
    }
  }

  lemma SubsetOfSound(d: Document, ok: RecordId -> bool)
    requires RelationsSound(d)
    ensures var r := Prune(d.relations, ok);
            WellFormed(r) && NoSelfRelation(r) && Acyclic(DownEdges(r))
  {
    hide Acyclic;
    PruneFacts(d.relations, ok);
    SubgraphAcyclic(DownEdges(Prune(d.relations, ok)), DownEdges(d.relations));
  }

  /** Whatever is copied from a valid document can be pasted. */
  lemma CopyIsPasteable(d: Document, ids: seq<RecordId>, selection: Selection)
    requires Sound(d) && Distinct(ids)
    ensures Pasteable(CopyRecords(d, ids, selection))
  {
    hide RelationsSound, PayloadEdgeFits, WellFormed, Acyclic, ValidateEdge, ValidateNode, Prune;
    var p := CopyRecords(d, ids, selection);
    NodesOfUnique(d, ids);
    EdgesOfUnique(d, ids);
    ShapesOfUnique(d, ids);
    forall n | n in p.nodes ensures ValidateNode(n).Ok? {
      NodesOfMember(d, ids, n);
    }
    forall e | e in p.edges ensures PayloadEdgeFits(p, e) {
      CopiedEdgeFitsItsNodes(d, ids, p, e);
    }
    SubsetOfSound(d, Among(ids));
  }

  /**
   * Copy from any valid document, paste into any valid document: the transaction applies, the
   * result is valid, and it consists of the second document and the renamed copies.
   */
  lemma CopyThenPaste(source: Document, ids: seq<RecordId>, selection: Selection, d: Document, offset: Point,
                      names: Names)
    returns (y: Document)
    requires Sound(source) && Sound(d) && Distinct(ids)
    requires NamesFor(names, CopyRecords(source, ids, selection), d)
    ensures var p := CopyRecords(source, ids, selection);
            && ApplyAll(d, PasteCommands(p, names, offset)) == Ok(y) && Sound(y)
            && RecordsJoined(y, d, CopiedNodes(p, names, offset), CopiedShapes(p, names, offset), CopiedEdges(p, names))
            && RelationsJoined(y.relations, d.relations, CopiedRelations(p, names))
  {
    hide CopyRecords, NamesFor, Sound;
    CopyIsPasteable(source, ids, selection);
    y := PasteApplies(CopyRecords(source, ids, selection), names, d, offset);
  }

  // Copying a selection.

  predicate Unlocked(d: Document, id: RecordId) {
    match id
    case NodeRecord(n) => d.nodes.Has(n) && !d.nodes.entries[n].locked
    case EdgeRecord(e) => d.edges.Has(e) && !d.edges.entries[e].locked
    case ShapeRecord(s) => d.shapes.Has(s) && !d.shapes.entries[s].locked
  }

  function Copyable(d: Document): RecordId -> bool {
    (id: RecordId) => Unlocked(d, id)
  }

  /** An unlocked record of the scope, or an unlocked edge between unlocked nodes of the scope. */
  ghost predicate Copied(d: Document, roots: set<RecordId>, x: RecordId) {
    Unlocked(d, x) &&
    (InScope(d, roots, x) ||
     (x.EdgeRecord? && Internal(d, roots, x.edge) &&
      Unlocked(d, NodeRecord(d.edges.entries[x.edge].source.node)) &&
        Unlocked(d, NodeRecord(d.edges.entries[x.edge].target.node))))
  }

  /** The selection that is copied along: what normalising keeps, and the handles that exist. */
  ghost function NormalSelection(d: Document, selection: Selection): Selection {
    Selection(Normal(d, selection.records), set h | h in selection.handles && EndpointHandle(d.nodes.entries, h).Ok?)
  }

  /**
   * Copied are the unlocked records of the scope and the unlocked edges between unlocked nodes of the
   * scope; selected with them are the kept records and the existing handles among them.
   */
  ghost predicate HoldsUnlockedScope(p: Payload, d: Document, selection: Selection) {
    var roots := Normal(d, selection.records);
    && (forall n :: n in p.nodes <==>
                    d.nodes.Get(n.id) == Some(n) && !n.locked && InScope(d, roots, NodeRecord(n.id)))
    && (forall s :: s in p.shapes <==>
                    d.shapes.Get(s.id) == Some(s) && !s.locked && InScope(d, roots, ShapeRecord(s.id)))
    && (forall e :: e in p.edges <==>
                    d.edges.Get(e.id) == Some(e) && !e.locked &&
                    (InScope(d, roots, EdgeRecord(e.id)) ||
                     (FreeNode(d, roots, e.source.node) && FreeNode(d, roots, e.target.node))))
    && (forall h :: h in p.selection.handles <==>
                    && h in selection.handles && FreeNode(d, roots, h.node)
                    && (h.handle.Some? ==>
                          exists x :: x in d.nodes.entries[h.node].handles && x.id == h.handle.value))
  }

  ghost predicate FreeNode(d: Document, roots: set<RecordId>, n: NodeId) {
    n in d.nodes.entries && !d.nodes.entries[n].locked && InScope(d, roots, NodeRecord(n))
  }

  lemma CopiedRecordIff(d: Document, roots: set<RecordId>)
    requires d.Filed()
    ensures forall n :: Copied(d, roots, NodeRecord(n)) <==> FreeNode(d, roots, n)
    ensures forall s :: Copied(d, roots, ShapeRecord(s)) <==>
                        s in d.shapes.entries && !d.shapes.entries[s].locked && InScope(d, roots, ShapeRecord(s))
    ensures forall e :: Copied(d, roots, EdgeRecord(e)) <==>
                        e in d.edges.entries && !d.edges.entries[e].locked &&
                        (InScope(d, roots, EdgeRecord(e)) ||
                         (FreeNode(d, roots, d.edges.entries[e].source.node) &&
                          FreeNode(d, roots, d.edges.entries[e].target.node)))
  {
    hide InScope;
  }

  lemma HandleExistsIff(nodes: map<NodeId, Node>, h: Endpoint)
    ensures EndpointHandle(nodes, h).Ok? <==>
            && h.node in nodes
            && (h.handle.Some? ==> exists x :: x in nodes[h.node].handles && x.id == h.handle.value)
  {
    if h.node in nodes && h.handle.Some? {
      var hs := nodes[h.node].handles;
      LookupIsFirst(hs, h.handle.value);
      hide Lookup;
      assert forall x :: x in hs ==> exists i :: 0 <= i < |hs| && hs[i] == x;
    }
  }

  lemma SelectedPayload(d: Document, selection: Selection, ids: seq<RecordId>, p: Payload)
    requires d.Filed() && forall x :: x in ids <==> Copied(d, Normal(d, selection.records), x)
    requires p == CopyRecords(d, ids, NormalSelection(d, selection))
    ensures HoldsUnlockedScope(p, d, selection)
    ensures forall id :: id in p.selection.records <==> id in Normal(d, selection.records) && id in ids
  {
    hide CopyRecords, Copied, FreeNode, Normal, InScope, EndpointHandle;
    var roots := Normal(d, selection.records);
    PayloadHolds(d, ids, NormalSelection(d, selection));
    CopiedRecordIff(d, roots);
    forall h: Endpoint
      ensures EndpointHandle(d.nodes.entries, h).Ok? <==>
              && h.node in d.nodes.entries
              && (h.handle.Some? ==> exists x :: x in d.nodes.entries[h.node].handles && x.id == h.handle.value)
    {
      HandleExistsIff(d.nodes.entries, h);
    }
    forall n | FreeNode(d, roots, n) ensures n in d.nodes.entries {
      FreeIsThere(d, roots, n);
    }
    forall n: Node ensures d.nodes.Get(n.id) == Some(n) ==>
                           (FreeNode(d, roots, n.id) <==> !n.locked && InScope(d, roots, NodeRecord(n.id)))
    {
      FreeIsThere(d, roots, n.id);
    }
  }

  lemma FreeIsThere(d: Document, roots: set<RecordId>, n: NodeId)
    ensures FreeNode(d, roots, n) ==> n in d.nodes.entries
    ensures n in d.nodes.entries ==>
              (FreeNode(d, roots, n) <==> !d.nodes.entries[n].locked && InScope(d, roots, NodeRecord(n)))
  {
  }

  /** Whatever is selected, the payload holds exactly the unlocked part of its scope, and can be pasted. */
  method FromSelection(d: Document, selection: Selection) returns (p: Payload, ghost ids: seq<RecordId>)
    requires Sound(d)
    ensures Distinct(ids) && forall x :: x in ids <==> Copied(d, Normal(d, selection.records), x)
    ensures p == CopyRecords(d, ids, NormalSelection(d, selection))
    ensures HoldsUnlockedScope(p, d, selection)
    ensures forall id :: id in p.selection.records <==> id in Normal(d, selection.records) && id in ids
    ensures Pasteable(p)
  {
    hide CopyRecords, Pasteable, Normal, InScope, HoldsUnlockedScope;
    var kept, structural, action :=
      ResolveScope(d, selection.records, ScopeOptions(true, true), Existing(d), Copyable(d));
    var normal := Selection(kept, set h | h in selection.handles && EndpointHandle(d.nodes.entries, h).Ok?);
    var list := Listed(action);
    CopiedIffInAction(d, selection.records, structural, action);
    p := FromRecords(d, list, normal);
    ids := list;
    CopyIsPasteable(d, list, normal);
    SelectedPayload(d, selection, list, p);
  }

  lemma CopiedIffInAction(d: Document, s: set<RecordId>, structural: set<RecordId>, action: set<RecordId>)
    requires RelationsSound(d)
    requires forall x :: x in structural <==>
               exists r :: r in Normal(d, s) && Existing(d)(r) && Plus(AllowedEdges(d.relations, Existing(d)), r, x)
    requires forall x :: x in action <==>
               || ((x in Normal(d, s) || x in structural) && Copyable(d)(x))
               || (x.EdgeRecord? && Copyable(d)(x) &&
                  JoinsInside(d, Chosen(Normal(d, s) + structural, Copyable(d)), x.edge))
    ensures forall x :: x in action <==> Copied(d, Normal(d, s), x)
  {
    var kept := Normal(d, s);
    KeptNonEdges(d, s);
    hide RelationsSound, Normal, AllowedEdges;
    forall x ensures x in Chosen(kept + structural, Copyable(d)) <==> InScope(d, kept, x) && Unlocked(d, x) {
      ScopeIsKeptAndBelow(d, kept, structural, x);
    }
  }
}
