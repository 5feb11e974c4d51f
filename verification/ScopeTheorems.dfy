/** What normalising a selection does to the records an action covers. */
module ScopeTheorems {
  import opened Records
  import opened RelationTraversal
  import opened RelationValidation
  import opened Commands
  import opened Reachability
  import opened Scopes

  lemma SoundRelationsAllowAll(d: Document)
    requires RelationsSound(d)
    ensures AllowedEdges(d.relations, Existing(d)) == DownEdges(d.relations)
  {
    forall e | e in DownEdges(d.relations) ensures d.Contains(e.1) {
      DownSteps(d.relations, e.0, e.1);
      assert ParentRelation(e.1, e.0) in d.relations.parents || GroupRelation(e.0, e.1) in d.relations.groups;
    }
  }

  lemma AboveIsPlus(d: Document, candidates: set<RecordId>, x: RecordId)
    requires RelationsSound(d)
    ensures HasAbove(d, candidates, x) <==> exists c :: c in candidates && Plus(DownEdges(d.relations), c, x)
  {
    UpIsFlippedDown(d.relations);
    if HasAbove(d, candidates, x) {
      var c :| c in candidates && Plus(UpEdges(d.relations), x, c);
      FlipPlus(DownEdges(d.relations), c, x);
    }
    if c :| c in candidates && Plus(DownEdges(d.relations), c, x) {
      FlipPlus(DownEdges(d.relations), c, x);
    }
  }

  /** Every candidate is at or below one that is kept by the ancestor pass. */
  lemma TopAbove(d: Document, s: set<RecordId>, x: RecordId) returns (top: RecordId)
    requires RelationsSound(d) && x in Candidates(d, s)
    ensures top in Tops(d, s) && Star(DownEdges(d.relations), top, x)
  {
    top := Topmost(DownEdges(d.relations), Candidates(d, s), x);
    AboveIsPlus(d, Candidates(d, s), top);
  }

  lemma ScopeGrows(d: Document, a: set<RecordId>, b: set<RecordId>, x: RecordId)
    requires a <= b
    ensures InScope(d, a, x) ==> InScope(d, b, x)
    ensures InAction(d, a, x) ==> InAction(d, b, x)
  {
  }

  lemma KeptNonEdges(d: Document, s: set<RecordId>)
    ensures NonEdges(Tops(d, s)) == NonEdges(Normal(d, s))
    ensures NonEdges(Tops(d, s)) <= Normal(d, s) <= Tops(d, s) <= Candidates(d, s)
  {
  }

  /** Everything below a suppressed edge is still covered. */
  ghost predicate BelowSuppressedCovered(d: Document, s: set<RecordId>) {
    forall e, x :: Suppressed(d, s, e) && Plus(DownEdges(d.relations), e, x) ==> InAction(d, Normal(d, s), x)
  }

  /** Normalising first neither adds to the action scope nor takes from it. */
  ghost predicate ExactFor(d: Document, s: set<RecordId>) {
    forall x :: InAction(d, Normal(d, s), x) <==> InAction(d, Candidates(d, s), x)
  }

  /** A record under a candidate is covered by the kept records, unless it hangs under a suppressed edge. */
  lemma ScopeSurvives(d: Document, s: set<RecordId>, x: RecordId)
    requires RelationsSound(d) && BelowSuppressedCovered(d, s) && InScope(d, Candidates(d, s), x)
    ensures InAction(d, Normal(d, s), x)
  {
    var g := DownEdges(d.relations);
    SoundRelationsAllowAll(d);
    KeptNonEdges(d, s);
    var c :| c in Candidates(d, s) && d.Contains(c) && Star(g, c, x);
    var top := TopAbove(d, s, c);
    StarTrans(g, top, c, x);
    if Suppressed(d, s, top) {
      StarIsEqualOrPlus(g, top, x);
      if top == x {
        InternalGrows(d, NonEdges(Tops(d, s)), Normal(d, s), x.edge);
      }
    } else {
      assert top in Normal(d, s) && d.Contains(top);
    }
  }

  lemma InternalGrows(d: Document, a: set<RecordId>, b: set<RecordId>, e: EdgeId)
    requires a <= b && Internal(d, a, e)
    ensures Internal(d, b, e)
  {
    var edge := d.edges.entries[e];
    ScopeGrows(d, a, b, NodeRecord(edge.source.node));
    ScopeGrows(d, a, b, NodeRecord(edge.target.node));
  }

  lemma ExactWhenCovered(d: Document, s: set<RecordId>)
    requires RelationsSound(d)
    ensures ExactFor(d, s) <==> BelowSuppressedCovered(d, s)
  {
    KeptNonEdges(d, s);
    if BelowSuppressedCovered(d, s) {
      forall x ensures InAction(d, Normal(d, s), x) <==> InAction(d, Candidates(d, s), x) {
        ScopeGrows(d, Normal(d, s), Candidates(d, s), x);
        if InAction(d, Candidates(d, s), x) {
          ActionSurvives(d, s, x);
        }
      }
    }
    if ExactFor(d, s) {
      SoundRelationsAllowAll(d);
      forall e, x | Suppressed(d, s, e) && Plus(DownEdges(d.relations), e, x) ensures InAction(d, Normal(d, s), x) {
        StarIsEqualOrPlus(DownEdges(d.relations), e, x);
        assert e in Candidates(d, s) && d.Contains(e);
        assert InScope(d, Candidates(d, s), x);
      }
    }
  }

  lemma ActionSurvives(d: Document, s: set<RecordId>, x: RecordId)
    requires RelationsSound(d) && BelowSuppressedCovered(d, s) && InAction(d, Candidates(d, s), x)
    ensures InAction(d, Normal(d, s), x)
  {
    if InScope(d, Candidates(d, s), x) {
      ScopeSurvives(d, s, x);
    } else {
      var edge := d.edges.entries[x.edge];
      ScopeSurvives(d, s, NodeRecord(edge.source.node));
      ScopeSurvives(d, s, NodeRecord(edge.target.node));
    }
  }

  // Which selections lose nothing, in terms of the candidates and what lies below them.

  /** A candidate that lies below no candidate. */
  ghost predicate Outermost(d: Document, s: set<RecordId>, c: RecordId) {
    c in Candidates(d, s) && forall b :: b in Candidates(d, s) ==> !Plus(DownEdges(d.relations), b, c)
  }

  /** `x` is an outermost record that is not an edge, or lies below one. */
  ghost predicate Under(d: Document, s: set<RecordId>, x: RecordId) {
    exists c: RecordId :: Outermost(d, s, c) && !c.EdgeRecord? && Star(DownEdges(d.relations), c, x)
  }

  /** An outermost edge with both ends under outermost records that are not edges. */
  ghost predicate Enclosed(d: Document, s: set<RecordId>, e: RecordId) {
    && Outermost(d, s, e) && e.EdgeRecord?
    && Under(d, s, NodeRecord(d.edges.entries[e.edge].source.node)) &&
       Under(d, s, NodeRecord(d.edges.entries[e.edge].target.node))
  }

  /** `x` is an outermost record other than an enclosed edge, or lies below one. */
  ghost predicate Sheltered(d: Document, s: set<RecordId>, x: RecordId) {
    exists c :: Outermost(d, s, c) && !Enclosed(d, s, c) && Star(DownEdges(d.relations), c, x)
  }

  /** Whatever hangs under an enclosed edge is sheltered too, or is itself an edge between sheltered nodes. */
  ghost predicate NothingLoose(d: Document, s: set<RecordId>) {
    forall e, x :: Enclosed(d, s, e) && Plus(DownEdges(d.relations), e, x) ==>
      || Sheltered(d, s, x)
      || (x.EdgeRecord? && d.Contains(x) &&
          Sheltered(d, s, NodeRecord(d.edges.entries[x.edge].source.node)) &&
            Sheltered(d, s, NodeRecord(d.edges.entries[x.edge].target.node)))
  }

  lemma OutermostAreTops(d: Document, s: set<RecordId>, c: RecordId)
    requires RelationsSound(d)
    ensures Outermost(d, s, c) <==> c in Tops(d, s)
  {
    AboveIsPlus(d, Candidates(d, s), c);
  }

  lemma UnderIff(d: Document, s: set<RecordId>, x: RecordId)
    requires RelationsSound(d)
    ensures Under(d, s, x) <==> InScope(d, NonEdges(Tops(d, s)), x)
  {
    hide RelationsSound, Plus, Star, Outermost, HasAbove;
    SoundRelationsAllowAll(d);
    if c: RecordId :| Outermost(d, s, c) && !c.EdgeRecord? && Star(DownEdges(d.relations), c, x) {
      OutermostAreTops(d, s, c);
    }
    if c :| c in NonEdges(Tops(d, s)) && d.Contains(c) && Star(DownEdges(d.relations), c, x) {
      OutermostAreTops(d, s, c);
    }
  }

  lemma EnclosedIff(d: Document, s: set<RecordId>, e: RecordId)
    requires RelationsSound(d)
    ensures Enclosed(d, s, e) <==> Suppressed(d, s, e)
  {
    hide RelationsSound, Plus, Star, Under, InScope, HasAbove;
    OutermostAreTops(d, s, e);
    if e in Tops(d, s) && e.EdgeRecord? {
      UnderIff(d, s, NodeRecord(d.edges.entries[e.edge].source.node));
      UnderIff(d, s, NodeRecord(d.edges.entries[e.edge].target.node));
    }
  }

  lemma ShelteredIff(d: Document, s: set<RecordId>, x: RecordId)
    requires RelationsSound(d)
    ensures Sheltered(d, s, x) <==> InScope(d, Normal(d, s), x)
  {
    hide RelationsSound, Plus, Star, Outermost, Enclosed, Suppressed, Tops;
    SoundRelationsAllowAll(d);
    KeptNonEdges(d, s);
    if c :| Outermost(d, s, c) && !Enclosed(d, s, c) && Star(DownEdges(d.relations), c, x) {
      OutermostAreTops(d, s, c);
      EnclosedIff(d, s, c);
      assert c in Candidates(d, s);
    }
    if c :| c in Normal(d, s) && d.Contains(c) && Star(DownEdges(d.relations), c, x) {
      OutermostAreTops(d, s, c);
      EnclosedIff(d, s, c);
    }
  }

  /**
   * On sound relations, normalising first neither adds to the action scope nor takes from it,
   * exactly when nothing hangs loose under an enclosed edge.
   */
  lemma NormalScopeIsExactIff(d: Document, s: set<RecordId>)
    requires RelationsSound(d)
    ensures ExactFor(d, s) <==> NothingLoose(d, s)
  {
    hide RelationsSound, Plus, Star, Outermost, Enclosed, Suppressed, Tops, Normal, Sheltered, InScope, ExactFor;
    ExactWhenCovered(d, s);
    forall e ensures Enclosed(d, s, e) <==> Suppressed(d, s, e) {
      EnclosedIff(d, s, e);
    }
    forall x ensures Sheltered(d, s, x) <==> InScope(d, Normal(d, s), x) {
      ShelteredIff(d, s, x);
    }
  }

  // Which documents lose nothing, whatever is selected.

  /** An existing record, not an edge, that is neither above nor below `y`. */
  ghost predicate Beside(d: Document, a: RecordId, y: RecordId) {
    d.Contains(a) && !a.EdgeRecord? && !Star(DownEdges(d.relations), a, y) && !Star(DownEdges(d.relations), y, a)
  }

  /** `x` hangs under an edge whose ends lie under two records beside it that do not cover `x`. */
  ghost predicate Hangs(d: Document, e: EdgeId, a: RecordId, b: RecordId, x: RecordId) {
    && e in d.edges.entries
    && Beside(d, a, EdgeRecord(e)) && Star(DownEdges(d.relations), a, NodeRecord(d.edges.entries[e].source.node))
    && Beside(d, b, EdgeRecord(e)) && Star(DownEdges(d.relations), b, NodeRecord(d.edges.entries[e].target.node))
    && Plus(DownEdges(d.relations), EdgeRecord(e), x)
    && !InAction(d, {a, b}, x)
  }

  lemma TopsAreBeside(d: Document, s: set<RecordId>, a: RecordId, e: RecordId)
    requires RelationsSound(d) && a in Tops(d, s) && e in Tops(d, s) && !a.EdgeRecord? && e.EdgeRecord?
    ensures Beside(d, a, e)
  {
    var g := DownEdges(d.relations);
    AboveIsPlus(d, Candidates(d, s), a);
    AboveIsPlus(d, Candidates(d, s), e);
    StarIsEqualOrPlus(g, a, e);
    StarIsEqualOrPlus(g, e, a);
  }

  lemma UncoveredHangs(d: Document, s: set<RecordId>, e: RecordId, x: RecordId) returns (a: RecordId, b: RecordId)
    requires RelationsSound(d) && Suppressed(d, s, e) && Plus(DownEdges(d.relations), e, x) &&
             !InAction(d, Normal(d, s), x)
    ensures Hangs(d, e.edge, a, b, x)
  {
    hide RelationsSound, Plus, Star, InAction;
    var roots, edge := NonEdges(Tops(d, s)), d.edges.entries[e.edge];
    SoundRelationsAllowAll(d);
    KeptNonEdges(d, s);
    a :| a in roots && d.Contains(a) && Star(DownEdges(d.relations), a, NodeRecord(edge.source.node));
    b :| b in roots && d.Contains(b) && Star(DownEdges(d.relations), b, NodeRecord(edge.target.node));
    TopsAreBeside(d, s, a, e);
    TopsAreBeside(d, s, b, e);
    ScopeGrows(d, {a, b}, Normal(d, s), x);
  }

  lemma NotBelowItself(d: Document, x: RecordId)
    requires RelationsSound(d)
    ensures !Plus(DownEdges(d.relations), x, x)
  {
    hide Plus, DownEdges;
  }

  /** Selecting the edge with the two records suppresses the edge. */
  lemma HangingIsSuppressed(d: Document, e: EdgeId, a: RecordId, b: RecordId, s: set<RecordId>)
    requires RelationsSound(d) && s == {EdgeRecord(e), a, b} && e in d.edges.entries
    requires Beside(d, a, EdgeRecord(e)) && Star(DownEdges(d.relations), a, NodeRecord(d.edges.entries[e].source.node))
    requires Beside(d, b, EdgeRecord(e)) && Star(DownEdges(d.relations), b, NodeRecord(d.edges.entries[e].target.node))
    ensures Suppressed(d, s, EdgeRecord(e))
  {
    hide RelationsSound, Plus, Star, InScope, DownEdges;
    var g, edge := DownEdges(d.relations), d.edges.entries[e];
    assert Candidates(d, s) == s;
    AboveIsPlus(d, s, EdgeRecord(e));
    NotBelowItself(d, EdgeRecord(e));
    forall c | c in s ensures !Plus(g, c, EdgeRecord(e)) {
      StarIsEqualOrPlus(g, c, EdgeRecord(e));
    }
    EndIsCovered(d, e, a, b, s, a, NodeRecord(edge.source.node));
    EndIsCovered(d, e, a, b, s, b, NodeRecord(edge.target.node));
  }

  lemma EndIsCovered(d: Document, e: EdgeId, a: RecordId, b: RecordId, s: set<RecordId>, c: RecordId, end: RecordId)
    requires RelationsSound(d) && s == {EdgeRecord(e), a, b} && c in {a, b} && Beside(d, a, EdgeRecord(e)) &&
             Beside(d, b, EdgeRecord(e))
    requires Star(DownEdges(d.relations), c, end)
    ensures InScope(d, NonEdges(Tops(d, s)), end)
  {
    hide RelationsSound, Plus, Star;
    SoundRelationsAllowAll(d);
    var top := TopAbove(d, s, c);
    StarTrans(DownEdges(d.relations), top, c, end);
    assert top in s && d.Contains(top) && top != EdgeRecord(e);
    assert top in NonEdges(Tops(d, s));
  }

  /**
   * On sound relations, normalising is exact for every selection exactly when no record hangs under
   * an edge in this way.
   */
  lemma ExactForEverySelectionIff(d: Document)
    requires RelationsSound(d)
    ensures (forall s :: ExactFor(d, s)) <==> !exists e, a, b, x :: Hangs(d, e, a, b, x)
  {
    hide RelationsSound, Plus, Star, InAction, Normal, Suppressed;
    if !exists e, a, b, x :: Hangs(d, e, a, b, x) {
      forall s ensures ExactFor(d, s) {
        forall e, x | Suppressed(d, s, e) && Plus(DownEdges(d.relations), e, x) ensures InAction(d, Normal(d, s), x) {
          if !InAction(d, Normal(d, s), x) {
            var a, b := UncoveredHangs(d, s, e, x);
          }
        }
        ExactWhenCovered(d, s);
      }
    }
    if e, a, b, x :| Hangs(d, e, a, b, x) {
      var s := {EdgeRecord(e), a, b};
      HangingIsSuppressed(d, e, a, b, s);
      ExactWhenCovered(d, s);
      NormalWithoutSuppressed(d, s, EdgeRecord(e));
      ScopeGrows(d, Normal(d, s), {a, b}, x);
      assert !BelowSuppressedCovered(d, s);
    }
  }

  lemma NormalWithoutSuppressed(d: Document, s: set<RecordId>, e: RecordId)
    requires Suppressed(d, s, e)
    ensures Normal(d, s) <= s - {e}
  {
  }

  ghost predicate NoEdgeAbove(d: Document) {
    forall x, y :: (x, y) in DownEdges(d.relations) ==> !x.EdgeRecord?
  }

  /** In particular when no edge is a parent or a group. */
  lemma NormalScopeIsExact(d: Document, s: set<RecordId>, x: RecordId)
    requires RelationsSound(d) && NoEdgeAbove(d)
    ensures InAction(d, Normal(d, s), x) <==> InAction(d, Candidates(d, s), x)
  {
    forall e, y | Suppressed(d, s, e) ensures !Plus(DownEdges(d.relations), e, y) {
      if Plus(DownEdges(d.relations), e, y) {
        var c := PlusSplitsFirst(DownEdges(d.relations), e, y);
      }
    }
    ExactWhenCovered(d, s);
  }

  /** When an edge is a parent, its child can be lost: select the edge with both its nodes. */
  lemma SuppressedEdgeLosesChild(d: Document, e: EdgeId, x: ShapeId)
    requires e in d.edges.entries && x in d.shapes.entries && ValidateEdge(d.nodes.entries, d.edges.entries[e]).Ok?
    requires d.relations == Relations([ParentRelation(ShapeRecord(x), EdgeRecord(e))], [], [])
    ensures RelationsSound(d)
    ensures var edge := d.edges.entries[e];
            var s := {EdgeRecord(e), NodeRecord(edge.source.node), NodeRecord(edge.target.node)};
            InAction(d, Candidates(d, s), ShapeRecord(x)) && !InAction(d, Normal(d, s), ShapeRecord(x))
  {
    hide RelationsSound, Normal, InAction, DownEdges;
    var edge := d.edges.entries[e];
    assert edge.source.node in d.nodes.entries && edge.target.node in d.nodes.entries;
    OneChildIsSound(d, e, x);
    var s := {EdgeRecord(e), NodeRecord(edge.source.node), NodeRecord(edge.target.node)};
    ChildIsInScope(d, e, x, s);
    OnlyNodesKept(d, e, x, s);
    NotBelowNodes(d, e, x, Normal(d, s));
  }

  lemma ChildIsInScope(d: Document, e: EdgeId, x: ShapeId, s: set<RecordId>)
    requires RelationsSound(d) && DownEdges(d.relations) == {(EdgeRecord(e), ShapeRecord(x))}
    requires EdgeRecord(e) in Candidates(d, s)
    ensures InAction(d, Candidates(d, s), ShapeRecord(x))
  {
    SoundRelationsAllowAll(d);
    OneStep(EdgeRecord(e), ShapeRecord(x));
    StarIsEqualOrPlus(DownEdges(d.relations), EdgeRecord(e), ShapeRecord(x));
  }

  lemma OnlyNodesKept(d: Document, e: EdgeId, x: ShapeId, s: set<RecordId>)
    requires RelationsSound(d) && DownEdges(d.relations) == {(EdgeRecord(e), ShapeRecord(x))}
    requires e in d.edges.entries && forall y :: y in s ==> d.Contains(y)
    requires s == {EdgeRecord(e), NodeRecord(d.edges.entries[e].source.node),
             NodeRecord(d.edges.entries[e].target.node)}
    ensures Normal(d, s) == NonEdges(s)
  {
    hide RelationsSound, Star, Plus, AllowedEdges, DownEdges, Tops;
    AllThreeAreTops(d, e, x, s);
    assert Tops(d, s) == s;
    forall n | NodeRecord(n) in s ensures InScope(d, NonEdges(Tops(d, s)), NodeRecord(n)) {
      StarRefl(AllowedEdges(d.relations, Existing(d)), NodeRecord(n));
      assert NodeRecord(n) in NonEdges(Tops(d, s)) && d.Contains(NodeRecord(n));
    }
  }

  lemma NotBelowNodes(d: Document, e: EdgeId, x: ShapeId, roots: set<RecordId>)
    requires RelationsSound(d) && DownEdges(d.relations) == {(EdgeRecord(e), ShapeRecord(x))}
    requires forall y :: y in roots ==> y.NodeRecord?
    ensures !InAction(d, roots, ShapeRecord(x))
  {
    SoundRelationsAllowAll(d);
    OneStep(EdgeRecord(e), ShapeRecord(x));
    forall y | y in roots ensures !Star(DownEdges(d.relations), y, ShapeRecord(x)) {
      StarIsEqualOrPlus(DownEdges(d.relations), y, ShapeRecord(x));
    }
  }

  lemma OneStep(a: RecordId, b: RecordId)
    requires a != b
    ensures forall y, z :: Plus({(a, b)}, y, z) <==> y == a && z == b
  {
    EdgeReaches({(a, b)}, a, b);
    forall y, z | Plus({(a, b)}, y, z) ensures y == a && z == b {
      var c := PlusSplitsFirst({(a, b)}, y, z);
      StarIsEqualOrPlus({(a, b)}, c, z);
      if Plus({(a, b)}, c, z) {
        var c2 := PlusSplitsFirst({(a, b)}, c, z);
      }
    }
  }

  lemma OneChildIsSound(d: Document, e: EdgeId, x: ShapeId)
    requires e in d.edges.entries && x in d.shapes.entries
    requires d.relations == Relations([ParentRelation(ShapeRecord(x), EdgeRecord(e))], [], [])
    ensures DownEdges(d.relations) == {(EdgeRecord(e), ShapeRecord(x))} && RelationsSound(d)
  {
    var p := ParentRelation(ShapeRecord(x), EdgeRecord(e));
    forall q ensures q in DownEdges(d.relations) <==> q == (EdgeRecord(e), ShapeRecord(x)) {
      DownSteps(d.relations, q.0, q.1);
      assert ParentRelation(q.1, q.0) in [p] <==> ParentRelation(q.1, q.0) == p;
    }
    OneStep(EdgeRecord(e), ShapeRecord(x));
  }

  lemma AllThreeAreTops(d: Document, e: EdgeId, x: ShapeId, s: set<RecordId>)
    requires RelationsSound(d) && DownEdges(d.relations) == {(EdgeRecord(e), ShapeRecord(x))}
    requires forall y :: y in s ==> d.Contains(y) && !y.ShapeRecord?
    ensures Tops(d, s) == s
  {
    OneStep(EdgeRecord(e), ShapeRecord(x));
    forall y | y in s ensures !HasAbove(d, Candidates(d, s), y) {
      AboveIsPlus(d, Candidates(d, s), y);
    }
  }

  /** Normalising twice is normalising once, and nothing kept has a kept record above it: on every relation set. */
  lemma NormalIsIdempotent(d: Document, s: set<RecordId>)
    ensures Normal(d, Normal(d, s)) == Normal(d, s)
    ensures forall x :: x in Normal(d, s) ==> !HasAbove(d, Normal(d, s), x)
  {
    var n := Normal(d, s);
    KeptNonEdges(d, s);
    forall x | x in n ensures !HasAbove(d, n, x) {
      assert HasAbove(d, n, x) ==> HasAbove(d, Candidates(d, s), x);
    }
    assert Candidates(d, n) == n;
    assert Tops(d, n) == n;
    assert NonEdges(n) == NonEdges(Tops(d, s));
    forall x | x in n ensures !Suppressed(d, n, x) {
      assert !Suppressed(d, s, x) && x in Tops(d, s);
    }
  }

  /** A dropped candidate is below a kept record, or is an edge between covered nodes. */
  lemma DroppedHasReason(d: Document, s: set<RecordId>, x: RecordId)
    requires RelationsSound(d) && NoEdgeAbove(d)
    requires x in Candidates(d, s) && x !in Normal(d, s)
    ensures (exists k :: k in Normal(d, s) && Plus(DownEdges(d.relations), k, x)) ||
            (x.EdgeRecord? && Internal(d, Normal(d, s), x.edge))
  {
    var g := DownEdges(d.relations);
    KeptNonEdges(d, s);
    if Suppressed(d, s, x) {
      InternalGrows(d, NonEdges(Tops(d, s)), Normal(d, s), x.edge);
    } else {
      var top := TopAbove(d, s, x);
      StarIsEqualOrPlus(g, top, x);
      var below := PlusSplitsFirst(g, top, x);
      assert top in Normal(d, s);
    }
  }

  /** The resolved action scope, with descendants and internal edges, is the closure of the selection itself. */
  method ResolveFullScope(d: Document, selection: set<RecordId>) returns (action: set<RecordId>)
    requires d.Filed() && RelationsSound(d) && NoEdgeAbove(d)
    ensures forall x :: x in action <==> InAction(d, Candidates(d, selection), x)
  {
    hide RelationsSound, NoEdgeAbove, Plus, Star, Normal;
    var kept, structural;
    kept, structural, action := ResolveScope(d, selection, ScopeOptions(true, true), Existing(d), Existing(d));
    KeptNonEdges(d, selection);
    SoundRelationsAllowAll(d);
    ghost var inner := Chosen(kept + structural, Existing(d));
    forall x ensures x in inner <==> InScope(d, kept, x) {
      ScopeIsKeptAndBelow(d, kept, structural, x);
    }
    forall x ensures x in action <==> InAction(d, Candidates(d, selection), x) {
      NormalScopeIsExact(d, selection, x);
    }
  }

  lemma ScopeIsKeptAndBelow(d: Document, kept: set<RecordId>, structural: set<RecordId>, x: RecordId)
    requires RelationsSound(d) && forall k :: k in kept ==> d.Contains(k)
    requires x in structural <==>
             exists s :: s in kept && Existing(d)(s) && Plus(AllowedEdges(d.relations, Existing(d)), s, x)
    ensures x in Chosen(kept + structural, Existing(d)) <==> InScope(d, kept, x)
  {
    var g := AllowedEdges(d.relations, Existing(d));
    if x in kept {
      StarRefl(g, x);
    }
    if x in structural {
      var s :| s in kept && Existing(d)(s) && Plus(g, s, x);
      StarIsEqualOrPlus(g, s, x);
    }
    if InScope(d, kept, x) {
      var s :| s in kept && d.Contains(s) && Star(g, s, x);
      StarIsEqualOrPlus(g, s, x);
      if Plus(g, s, x) {
        var n: nat :| n > 0 && ReachesIn(g, s, x, n);
        ReachedIsTarget(g, s, x, n);
        assert d.Contains(x);
      }
    }
  }
}
