/** Normalising a selection, and the records an action on it covers. */
module Scopes {
  import opened Prelude
  import opened KeyedLists
  import opened Records
  import opened RelationSets
  import opened RelationTraversal
  import opened Commands
  import opened Reachability

  datatype ScopeOptions = ScopeOptions(structuralDescendants: bool, internalEdges: bool)

  // Walking up.

  function Upward(r: Relations, x: RecordId): seq<RecordId> {
    (match ParentOf(r, x) case Some(p) => [p] case None => []) + GroupsFor(r.groups, x)
  }

  /** From each record to its parent and its groups. */
  ghost function UpEdges(r: Relations): set<(RecordId, RecordId)> {
    (set p | p in r.parents && ParentOf(r, p.child) == Some(p.parent) :: (p.child, p.parent)) +
    (set g | g in r.groups :: (g.member, g.group))
  }

  lemma UpSteps(r: Relations, x: RecordId, y: RecordId)
    ensures (x, y) in UpEdges(r) <==> y in Upward(r, x)
  {
    if ParentOf(r, x) == Some(y) {
      var p := Lookup(r.parents, ChildKey, x).value;
      assert p in r.parents && (x, y) == (p.child, p.parent);
    }
    if GroupRelation(y, x) in r.groups {
      assert (x, y) == (GroupRelation(y, x).member, GroupRelation(y, x).group);
    }
  }

  /** With one parent per child, up is down reversed. */
  lemma UpIsFlippedDown(r: Relations)
    requires WellFormed(r)
    ensures UpEdges(r) == Flip(DownEdges(r))
  {
    forall x, y ensures (x, y) in UpEdges(r) <==> (y, x) in DownEdges(r) {
      UpSteps(r, x, y);
      DownSteps(r, y, x);
      LookupMember(r.parents, ChildKey, ParentRelation(x, y));
    }
    forall e ensures e in UpEdges(r) <==> e in Flip(DownEdges(r)) {
      assert e == (e.0, e.1);
      if e in UpEdges(r) {
        assert (e.1, e.0) in DownEdges(r);
      }
    }
  }

  /** Everything above `x` is either searched or queued. */
  ghost predicate Searched(g: set<(RecordId, RecordId)>, x: RecordId, visited: set<RecordId>, pending: seq<RecordId>) {
    forall y, z :: (y, z) in g && (y == x || y in visited) ==> z in visited || z in pending
  }

  ghost predicate AllAbove(g: set<(RecordId, RecordId)>, x: RecordId, ys: seq<RecordId>) {
    forall y :: y in ys ==> Plus(g, x, y)
  }

  lemma UpwardIsAbove(r: Relations, x: RecordId)
    ensures forall y :: y in Upward(r, x) <==> (x, y) in UpEdges(r)
    ensures AllAbove(UpEdges(r), x, Upward(r, x))
  {
    forall y ensures y in Upward(r, x) <==> (x, y) in UpEdges(r) {
      UpSteps(r, x, y);
    }
    forall y | y in Upward(r, x) ensures Plus(UpEdges(r), x, y) {
      EdgeReaches(UpEdges(r), x, y);
    }
  }

  lemma AboveAbove(g: set<(RecordId, RecordId)>, x: RecordId, y: RecordId, zs: seq<RecordId>)
    requires Plus(g, x, y) && AllAbove(g, y, zs)
    ensures AllAbove(g, x, zs)
  {
    forall z | z in zs ensures Plus(g, x, z) {
      StarIsEqualOrPlus(g, y, z);
      PlusStarTrans(g, x, y, z);
    }
  }

  lemma {:induction false} ReachedIsTarget(g: set<(RecordId, RecordId)>, x: RecordId, y: RecordId, n: nat)
    requires ReachesIn(g, x, y, n) && n > 0
    ensures y in set e | e in g :: e.1
    decreases n
  {
    var c :| (x, c) in g && ReachesIn(g, c, y, n - 1);
    if n == 1 {
      assert y == (x, c).1;
    } else {
      ReachedIsTarget(g, c, y, n - 1);
    }
  }

  lemma LastIsAbove(g: set<(RecordId, RecordId)>, x: RecordId, ys: seq<RecordId>)
    requires AllAbove(g, x, ys) && ys != []
    ensures Plus(g, x, ys[|ys| - 1]) && AllAbove(g, x, ys[..|ys| - 1])
    ensures ys[|ys| - 1] in set e | e in g :: e.1
  {
    var last := ys[|ys| - 1];
    assert last in ys;
    var n: nat :| n > 0 && ReachesIn(g, x, last, n);
    ReachedIsTarget(g, x, last, n);
  }

  lemma SearchIsComplete(g: set<(RecordId, RecordId)>, x: RecordId, visited: set<RecordId>, c: RecordId)
    requires Searched(g, x, visited, []) && Plus(g, x, c)
    ensures c in visited
  {
    var y := PlusSplitsFirst(g, x, c);
    ClosedKeepsStar(g, visited, y, c);
  }

  /** The upward search, which stops at the first candidate; cycles do not trap it. */
  method HasCandidateAncestor(r: Relations, x: RecordId, candidates: set<RecordId>) returns (found: bool)
    ensures found <==> exists c :: c in candidates && Plus(UpEdges(r), x, c)
  {
    hide Upward, UpEdges, Plus;
    ghost var g := UpEdges(r);
    ghost var universe := set e | e in g :: e.1;
    UpwardIsAbove(r, x);
    var pending := Upward(r, x);
    var visited: set<RecordId> := {};
    while pending != []
      invariant visited <= universe && visited !! candidates
      invariant AllAbove(g, x, pending)
      invariant Searched(g, x, visited, pending)
      decreases universe - visited, |pending|
    {
      var current := pending[|pending| - 1];
      ghost var queued := pending;
      pending := pending[..|pending| - 1];
      assert queued == pending + [current];
      LastIsAbove(g, x, queued);
      if current !in visited {
        if current in candidates {
          return true;
        }
        UpwardIsAbove(r, current);
        AboveAbove(g, x, current, Upward(r, current));
        visited := visited + {current};
        pending := pending + Upward(r, current);
      }
    }
    forall c | c in candidates ensures !Plus(g, x, c) {
      if Plus(g, x, c) {
        SearchIsComplete(g, x, visited, c);
      }
    }
    return false;
  }

  // What normalisation keeps, without reference to the loops.

  ghost function Candidates(d: Document, s: set<RecordId>): set<RecordId> {
    set x | x in s && d.Contains(x)
  }

  ghost predicate HasAbove(d: Document, candidates: set<RecordId>, x: RecordId) {
    exists c :: c in candidates && Plus(UpEdges(d.relations), x, c)
  }

  ghost function Tops(d: Document, s: set<RecordId>): set<RecordId> {
    set x | x in Candidates(d, s) && !HasAbove(d, Candidates(d, s), x)
  }

  function NonEdges(s: set<RecordId>): set<RecordId> {
    set x | x in s && !x.EdgeRecord?
  }

  /** `x` is a root or lies below one, through existing records. */
  ghost predicate InScope(d: Document, roots: set<RecordId>, x: RecordId) {
    exists s :: s in roots && d.Contains(s) && Star(AllowedEdges(d.relations, Existing(d)), s, x)
  }

  ghost predicate Internal(d: Document, roots: set<RecordId>, e: EdgeId) {
    && e in d.edges.entries
    && InScope(d, roots, NodeRecord(d.edges.entries[e].source.node))
    && InScope(d, roots, NodeRecord(d.edges.entries[e].target.node))
  }

  ghost predicate Suppressed(d: Document, s: set<RecordId>, x: RecordId) {
    x in Tops(d, s) && x.EdgeRecord? && Internal(d, NonEdges(Tops(d, s)), x.edge)
  }

  ghost function Normal(d: Document, s: set<RecordId>): set<RecordId> {
    set x | x in Tops(d, s) && !Suppressed(d, s, x)
  }

  // The program's loops.

  /** Some order of the elements of a set. */
  method Listed(s: set<RecordId>) returns (list: seq<RecordId>)
    ensures Distinct(list) && forall x :: x in list <==> x in s
  {
    list := [];
    var rest := s;
    while rest != {}
      invariant rest <= s && Distinct(list)
      invariant forall x :: x in list <==> x in s - rest
    {
      var x :| x in rest;
      assert x !in list && forall i :: 0 <= i < |list| ==> list[i] in list;
      list := list + [x];
      rest := rest - {x};
    }
  }

  method SuppressInternalEdges(d: Document, candidates: set<RecordId>) returns (kept: set<RecordId>)
    requires forall x :: x in candidates ==> d.Contains(x)
    ensures kept == set x | x in candidates && !(x.EdgeRecord? && Internal(d, NonEdges(candidates), x.edge))
  {
    var roots := NonEdges(candidates);
    var seeds := Listed(roots);
    var scope := CollectRelated(d.relations, seeds, Existing(d));
    forall x ensures x in scope <==> InScope(d, roots, x) {
      assert x in scope <==> ReachedFrom(AllowedEdges(d.relations, Existing(d)), seeds, Existing(d), x);
    }
    kept := set x | x in candidates &&
                    !(x.EdgeRecord? && d.edges.Has(x.edge) &&
                      NodeRecord(d.edges.entries[x.edge].source.node) in scope &&
                      NodeRecord(d.edges.entries[x.edge].target.node) in scope);
  }

  method Normalize(d: Document, selection: set<RecordId>) returns (kept: set<RecordId>)
    ensures kept == Normal(d, selection)
  {
    var snapshot := set x | x in selection && d.Contains(x);
    kept := {};
    var todo := snapshot;
    while todo != {}
      invariant todo <= snapshot
      invariant kept == set x | x in snapshot - todo && !HasAbove(d, snapshot, x)
    {
      var x :| x in todo;
      var above := HasCandidateAncestor(d.relations, x, snapshot);
      if !above {
        kept := kept + {x};
      }
      todo := todo - {x};
    }
    assert kept == Tops(d, selection);
    if exists x :: x in kept && x.EdgeRecord? {
      kept := SuppressInternalEdges(d, kept);
    }
  }

  /** The records of an action: roots, what lies below them, and the edges inside. */
  ghost predicate InAction(d: Document, roots: set<RecordId>, x: RecordId) {
    InScope(d, roots, x) || (x.EdgeRecord? && Internal(d, roots, x.edge))
  }

  method IncludeInternalEdges(d: Document, records: set<RecordId>, canInclude: RecordId -> bool)
    returns (more: set<RecordId>)
    requires d.Filed()
    ensures forall x :: x in more <==>
            x in records || (x.EdgeRecord? && JoinsInside(d, records, x.edge) && canInclude(x))
  {
    more := records;
    var ids := d.edges.keys;
    for i := 0 to |ids|
      invariant forall x :: x in more <==>
                x in records || (x.EdgeRecord? && x.edge in ids[..i] && JoinsInside(d, records, x.edge) &&
                canInclude(x))
    {
      assert ids[..i + 1] == ids[..i] + [ids[i]];
      var edge := d.edges.entries[ids[i]];
      if NodeRecord(edge.source.node) in records && NodeRecord(edge.target.node) in records &&
        canInclude(EdgeRecord(ids[i])) {
        more := more + {EdgeRecord(ids[i])};
      }
    }
    assert ids[..|ids|] == ids;
  }

  function Chosen(s: set<RecordId>, p: RecordId -> bool): set<RecordId> {
    set x | x in s && p(x)
  }

  predicate JoinsInside(d: Document, records: set<RecordId>, e: EdgeId) {
    && d.edges.Has(e)
    && NodeRecord(d.edges.entries[e].source.node) in records
    && NodeRecord(d.edges.entries[e].target.node) in records
  }

  /** The action scope with separate tests for walking through a record and for including it. */
  method ResolveScope(d: Document, selection: set<RecordId>, options: ScopeOptions,
                      canTraverse: RecordId -> bool, canInclude: RecordId -> bool)
    returns (explicit_: set<RecordId>, structural: set<RecordId>, action: set<RecordId>)
    requires d.Filed()
    ensures explicit_ == Normal(d, selection)
    ensures forall x :: x in structural <==>
              options.structuralDescendants &&
              exists s :: s in explicit_ && canTraverse(s) && Plus(AllowedEdges(d.relations, canTraverse), s, x)
    ensures forall x :: x in action <==>
              || ((x in explicit_ || x in structural) && canInclude(x))
              || (options.internalEdges && x.EdgeRecord? && canInclude(x) &&
                  JoinsInside(d, Chosen(explicit_ + structural, canInclude), x.edge))
  {
    explicit_ := Normalize(d, selection);
    structural := {};
    if options.structuralDescendants {
      var seeds := Listed(explicit_);
      structural := CollectDescendants(d.relations, seeds, canTraverse);
      forall x ensures x in structural <==>
        exists s :: s in explicit_ && canTraverse(s) && Plus(AllowedEdges(d.relations, canTraverse), s, x)
      {
        assert x in structural <==> ReachedBelow(AllowedEdges(d.relations, canTraverse), seeds, canTraverse, x);
      }
    }
    action := Chosen(explicit_ + structural, canInclude);
    if options.internalEdges {
      action := IncludeInternalEdges(d, action, canInclude);
    }
  }
}
