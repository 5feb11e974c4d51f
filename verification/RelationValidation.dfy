/** The checks a document makes on its relations, cycle detection included. */
module RelationValidation {
  import opened Prelude
  import opened KeyedLists
  import opened Records
  import opened RelationSets
  import opened RelationTraversal
  import opened Reachability

  // Cycle detection: a depth-first search with a visited and a visiting set.

  function Below(r: Relations, x: RecordId): seq<RecordId> {
    ChildrenOf(r.parents, x) + MembersOf(r.groups, x)
  }

  function Vertices(r: Relations): set<RecordId> {
    (set e | e in DownEdges(r) :: e.0) + (set e | e in DownEdges(r) :: e.1)
  }

  lemma BelowAreSteps(r: Relations, x: RecordId)
    ensures forall y :: y in Below(r, x) <==> (x, y) in DownEdges(r)
    ensures forall y :: y in Below(r, x) ==> x in Vertices(r) && y in Vertices(r)
  {
    forall y ensures y in Below(r, x) <==> (x, y) in DownEdges(r) {
      DownSteps(r, x, y);
    }
    forall y | y in Below(r, x) ensures x in Vertices(r) && y in Vertices(r) {
      assert (x, y) in DownEdges(r) && x == (x, y).0 && y == (x, y).1;
    }
  }

  /** The records finished after visiting `x`, or a record found on a cycle. */
  function Visit(r: Relations, x: RecordId, visited: set<RecordId>, visiting: set<RecordId>): Result<set<RecordId>,
                 RecordId>
    requires x in Vertices(r)
    decreases Vertices(r) - visiting, 0
  {
    if x in visited then Ok(visited)
    else if x in visiting then Err(x)
    else
      BelowAreSteps(r, x);
      var finished :- VisitAll(r, Below(r, x), visited, visiting + {x});
      Ok(finished + {x})
  }

  function VisitAll(r: Relations, xs: seq<RecordId>, visited: set<RecordId>,
                    visiting: set<RecordId>): Result<set<RecordId>, RecordId>
    requires forall x :: x in xs ==> x in Vertices(r)
    decreases Vertices(r) - visiting, |xs|
  {
    if xs == [] then Ok(visited)
    else
      var finished :- Visit(r, xs[0], visited, visiting);
      VisitAll(r, xs[1..], finished, visiting)
  }

  /** Finished records: nothing below them is unfinished and none of them lies on a cycle. */
  ghost predicate Finished(g: set<(RecordId, RecordId)>, s: set<RecordId>) {
    Closed(g, s) && forall x :: x in s ==> !Plus(g, x, x)
  }

  lemma FinishOne(g: set<(RecordId, RecordId)>, s: set<RecordId>, x: RecordId)
    requires Finished(g, s) && x !in s
    requires forall y :: (x, y) in g ==> y in s
    ensures Finished(g, s + {x})
  {
    if Plus(g, x, x) {
      var c := PlusSplitsFirst(g, x, x);
      ClosedKeepsStar(g, s, c, x);
    }
  }

  lemma {:induction false} VisitIsRight(r: Relations, x: RecordId, visited: set<RecordId>, visiting: set<RecordId>)
    requires x in Vertices(r)
    requires Finished(DownEdges(r), visited) && visited !! visiting
    requires forall y :: y in visiting ==> Plus(DownEdges(r), y, x)
    ensures var v := Visit(r, x, visited, visiting);
            match v
            case Ok(finished) => visited <= finished && x in finished && Finished(DownEdges(r), finished) &&
              finished !! visiting
            case Err(z) => Plus(DownEdges(r), z, z)
    decreases Vertices(r) - visiting, 0
  {
    var g := DownEdges(r);
    if x !in visited && x !in visiting {
      BelowAreSteps(r, x);
      forall y, c | y in visiting + {x} && c in Below(r, x) ensures Plus(g, y, c) {
        EdgeReaches(g, x, c);
        if y != x {
          StarIsEqualOrPlus(g, x, c);
          PlusStarTrans(g, y, x, c);
        }
      }
      VisitAllIsRight(r, Below(r, x), visited, visiting + {x});
      var v := VisitAll(r, Below(r, x), visited, visiting + {x});
      if v.Ok? {
        FinishOne(g, v.value, x);
      }
    }
  }

  lemma {:induction false} VisitAllIsRight(r: Relations, xs: seq<RecordId>, visited: set<RecordId>,
                                           visiting: set<RecordId>)
    requires forall x :: x in xs ==> x in Vertices(r)
    requires Finished(DownEdges(r), visited) && visited !! visiting
    requires forall y, x :: y in visiting && x in xs ==> Plus(DownEdges(r), y, x)
    ensures var v := VisitAll(r, xs, visited, visiting);
            match v
            case Ok(finished) => visited <= finished && Elements(xs) <= finished && Finished(DownEdges(r), finished) &&
              finished !! visiting
            case Err(z) => Plus(DownEdges(r), z, z)
    decreases Vertices(r) - visiting, |xs|
  {
    if xs != [] {
      VisitIsRight(r, xs[0], visited, visiting);
      var v := Visit(r, xs[0], visited, visiting);
      if v.Ok? {
        VisitAllIsRight(r, xs[1..], v.value, visiting);
        assert xs == [xs[0]] + xs[1..];
      }
    }
  }

  /** The records something lies below, in the order in which they are first named. */
  function Roots(r: Relations): seq<RecordId> {
    seq(|r.parents|, i requires 0 <= i < |r.parents| => r.parents[i].parent) +
    seq(|r.groups|, i requires 0 <= i < |r.groups| => r.groups[i].group)
  }

  lemma RootsAreTops(r: Relations)
    ensures forall x :: x in Roots(r) ==> x in Vertices(r)
    ensures forall x, y :: (x, y) in DownEdges(r) ==> x in Roots(r)
  {
    var n := |r.parents|;
    forall x | x in Roots(r) ensures x in Vertices(r) {
      var i :| 0 <= i < |Roots(r)| && Roots(r)[i] == x;
      if i < n {
        assert r.parents[i] in r.parents && (x, r.parents[i].child) in DownEdges(r);
      } else {
        assert r.groups[i - n] in r.groups && (x, r.groups[i - n].member) in DownEdges(r);
      }
    }
    forall x, y | (x, y) in DownEdges(r) ensures x in Roots(r) {
      if i :| 0 <= i < n && r.parents[i] == ParentRelation(y, x) {
        assert Roots(r)[i] == x;
      } else {
        var p: ParentRelation, q: GroupRelation := ParentRelation(y, x), GroupRelation(x, y);
        assert p !in r.parents && q in r.groups;
        var j :| 0 <= j < |r.groups| && r.groups[j] == q;
        assert Roots(r)[n + j] == x;
      }
    }
  }

  function CheckAcyclic(r: Relations): Result<(), RecordId> {
    RootsAreTops(r);
    var _ :- VisitAll(r, Roots(r), {}, {});
    Ok(())
  }

  /** The search accepts exactly the acyclic relation sets, and blames a record that is on a cycle. */
  lemma CheckAcyclicIff(r: Relations)
    ensures CheckAcyclic(r).Ok? <==> Acyclic(DownEdges(r))
    ensures CheckAcyclic(r).Err? ==> Plus(DownEdges(r), CheckAcyclic(r).error, CheckAcyclic(r).error)
  {
    RootsAreTops(r);
    VisitAllIsRight(r, Roots(r), {}, {});
    var g, v := DownEdges(r), VisitAll(r, Roots(r), {}, {});
    if v.Ok? {
      forall x ensures !Plus(g, x, x) {
        if Plus(g, x, x) {
          var c := PlusSplitsFirst(g, x, x);
        }
      }
    }
  }

  // The other checks, in the order in which the program makes them.

  function CheckRecord(d: Document, id: RecordId): Result<(), DocumentError> {
    if d.Contains(id) then Ok(()) else Err(MissingRelationRecord(id))
  }

  function CheckParents(d: Document, ps: seq<ParentRelation>, seen: set<RecordId>): Result<(), DocumentError>
    decreases ps
  {
    if ps == [] then Ok(())
    else if ps[0].child in seen then Err(DuplicateParentRelation(ps[0].child))
    else if ps[0].child == ps[0].parent then Err(SelfParentRelation(ps[0].child))
    else
      var _ :- CheckRecord(d, ps[0].child);
      var _ :- CheckRecord(d, ps[0].parent);
      CheckParents(d, ps[1..], seen + {ps[0].child})
  }

  function CheckGroups(d: Document, gs: seq<GroupRelation>, seen: set<GroupRelation>): Result<(), DocumentError>
    decreases gs
  {
    if gs == [] then Ok(())
    else if gs[0] in seen then Err(DuplicateGroupRelation(gs[0].group, gs[0].member))
    else if gs[0].group == gs[0].member then Err(SelfParentRelation(gs[0].group))
    else
      var _ :- CheckRecord(d, gs[0].group);
      var _ :- CheckRecord(d, gs[0].member);
      CheckGroups(d, gs[1..], seen + {gs[0]})
  }

  function CheckBindings(d: Document, bs: seq<BindingRelation>, seen: set<BindingId>): Result<(), DocumentError>
    decreases bs
  {
    if bs == [] then Ok(())
    else if bs[0].id in seen then Err(DuplicateBindingRelation(bs[0].id))
    else if bs[0].source == bs[0].target then Err(SelfBindingRelation(bs[0].source))
    else
      var _ :- CheckRecord(d, bs[0].source);
      var _ :- CheckRecord(d, bs[0].target);
      CheckBindings(d, bs[1..], seen + {bs[0].id})
  }

  function ValidateRelations(d: Document): Result<(), DocumentError> {
    var r := d.relations;
    var _ :- CheckParents(d, r.parents, {});
    var _ :- CheckGroups(d, r.groups, {});
    var _ :- CheckBindings(d, r.bindings, {});
    match CheckAcyclic(r)
    case Ok(_) => Ok(())
    case Err(x) => Err(CyclicRecordRelation(x))
  }

  ghost predicate ParentsSound(d: Document, ps: seq<ParentRelation>) {
    forall p :: p in ps ==> p.child != p.parent && d.Contains(p.child) && d.Contains(p.parent)
  }

  ghost predicate GroupsSound(d: Document, gs: seq<GroupRelation>) {
    forall g :: g in gs ==> g.group != g.member && d.Contains(g.group) && d.Contains(g.member)
  }

  ghost predicate BindingsSound(d: Document, bs: seq<BindingRelation>) {
    forall b :: b in bs ==> b.source != b.target && d.Contains(b.source) && d.Contains(b.target)
  }

  /** What a sound relation set means, without reference to the checks. */
  ghost predicate RelationsSound(d: Document) {
    && WellFormed(d.relations)
    && ParentsSound(d, d.relations.parents)
    && GroupsSound(d, d.relations.groups)
    && BindingsSound(d, d.relations.bindings)
    && Acyclic(DownEdges(d.relations))
  }

  lemma {:induction false} CheckParentsIff(d: Document, ps: seq<ParentRelation>, seen: set<RecordId>)
    ensures CheckParents(d, ps, seen).Ok? <==>
            Unique(ps, ChildKey) && ParentsSound(d, ps) && forall p :: p in ps ==> p.child !in seen
    decreases ps
  {
    if ps != [] {
      CheckParentsIff(d, ps[1..], seen + {ps[0].child});
      assert ps == [ps[0]] + ps[1..];
      if Unique(ps, ChildKey) {
        UniqueTail(ps, ChildKey);
      }
    }
  }

  lemma {:induction false} CheckGroupsIff(d: Document, gs: seq<GroupRelation>, seen: set<GroupRelation>)
    ensures CheckGroups(d, gs, seen).Ok? <==>
            Unique(gs, GroupKey) && GroupsSound(d, gs) && forall g :: g in gs ==> g !in seen
    decreases gs
  {
    if gs != [] {
      CheckGroupsIff(d, gs[1..], seen + {gs[0]});
      assert gs == [gs[0]] + gs[1..];
      if Unique(gs, GroupKey) {
        UniqueTail(gs, GroupKey);
      }
    }
  }

  lemma {:induction false} CheckBindingsIff(d: Document, bs: seq<BindingRelation>, seen: set<BindingId>)
    ensures CheckBindings(d, bs, seen).Ok? <==>
            Unique(bs, BindingKey) && BindingsSound(d, bs) && forall b :: b in bs ==> b.id !in seen
    decreases bs
  {
    if bs != [] {
      CheckBindingsIff(d, bs[1..], seen + {bs[0].id});
      assert bs == [bs[0]] + bs[1..];
      if Unique(bs, BindingKey) {
        UniqueTail(bs, BindingKey);
      }
    }
  }

  /** The checks accept exactly the sound relation sets. */
  lemma ValidateRelationsIff(d: Document)
    ensures ValidateRelations(d).Ok? <==> RelationsSound(d)
  {
    CheckParentsIff(d, d.relations.parents, {});
    CheckGroupsIff(d, d.relations.groups, {});
    CheckBindingsIff(d, d.relations.bindings, {});
    CheckAcyclicIff(d.relations);
  }

  lemma NoRelationsAreSound(d: Document)
    requires d.relations == Relations([], [], [])
    ensures RelationsSound(d)
  {
    var g := DownEdges(d.relations);
    forall a, b ensures (a, b) !in g {
      DownSteps(d.relations, a, b);
    }
    forall x ensures !Plus(g, x, x) {
      if Plus(g, x, x) {
        var c := PlusSplitsFirst(g, x, x);
      }
    }
  }
}
