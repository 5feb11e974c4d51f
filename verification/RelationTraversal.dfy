/** The worklists that walk parent and group relations down from seeds. */
module RelationTraversal {
  import opened Prelude
  import opened Records
  import opened Reachability

  function ChildrenOf(ps: seq<ParentRelation>, parent: RecordId): (cs: seq<RecordId>)
    ensures forall c :: c in cs <==> ParentRelation(c, parent) in ps
  {
    if ps == [] then []
    else (if ps[0].parent == parent then [ps[0].child] else []) + ChildrenOf(ps[1..], parent)
  }

  function MembersOf(gs: seq<GroupRelation>, group: RecordId): (ms: seq<RecordId>)
    ensures forall m :: m in ms <==> GroupRelation(group, m) in gs
  {
    if gs == [] then []
    else (if gs[0].group == group then [gs[0].member] else []) + MembersOf(gs[1..], group)
  }

  function GroupsFor(gs: seq<GroupRelation>, member: RecordId): (groups: seq<RecordId>)
    ensures forall g :: g in groups <==> GroupRelation(g, member) in gs
  {
    if gs == [] then []
    else (if gs[0].member == member then [gs[0].group] else []) + GroupsFor(gs[1..], member)
  }

  /** From each parent to its children and from each group to its members. */
  function DownEdges(r: Relations): set<(RecordId, RecordId)> {
    (set p | p in r.parents :: (p.parent, p.child)) + (set g | g in r.groups :: (g.group, g.member))
  }

  /** The steps a walk may take when only some records may be entered. */
  function AllowedEdges(r: Relations, allowed: RecordId -> bool): set<(RecordId, RecordId)> {
    set e | e in DownEdges(r) && allowed(e.1)
  }

  lemma DownSteps(r: Relations, x: RecordId, y: RecordId)
    ensures (x, y) in DownEdges(r) <==> y in ChildrenOf(r.parents, x) || y in MembersOf(r.groups, x)
  {
    if ParentRelation(y, x) in r.parents {
      assert (x, y) == (ParentRelation(y, x).parent, ParentRelation(y, x).child);
    }
    if GroupRelation(x, y) in r.groups {
      assert (x, y) == (GroupRelation(x, y).group, GroupRelation(x, y).member);
    }
  }

  ghost predicate ReachedFrom(g: set<(RecordId, RecordId)>, seeds: seq<RecordId>, allowed: RecordId -> bool,
                              x: RecordId)
  {
    exists s :: s in seeds && allowed(s) && Star(g, s, x)
  }

  ghost predicate ReachedBelow(g: set<(RecordId, RecordId)>, seeds: seq<RecordId>, allowed: RecordId -> bool,
                               x: RecordId)
  {
    exists s :: s in seeds && allowed(s) && Plus(g, s, x)
  }

  /** Admits the allowed records of `found`; the new ones are also queued. */
  method InsertRelated(found: seq<RecordId>, records: set<RecordId>, pending: seq<RecordId>, allowed: RecordId -> bool)
    returns (records': set<RecordId>, pending': seq<RecordId>)
    ensures records' == records + set x | x in found && allowed(x)
    ensures forall x :: x in pending' <==> x in pending || (x in records' && x !in records)
    ensures records' == records ==> pending' == pending
  {
    records', pending' := records, pending;
    for i := 0 to |found|
      invariant records' == records + set x | x in found[..i] && allowed(x)
      invariant forall x :: x in pending' <==> x in pending || (x in records' && x !in records)
      invariant records' == records ==> pending' == pending
    {
      assert found[..i + 1] == found[..i] + [found[i]];
      if allowed(found[i]) && found[i] !in records' {
        records' := records' + {found[i]};
        pending' := pending' + [found[i]];
      }
    }
    assert found[..|found|] == found;
  }

  /** What the walk keeps: everything below `sources` is found, except below the queued records. */
  ghost predicate Frontier(g: set<(RecordId, RecordId)>, sources: set<RecordId>, records: set<RecordId>,
                           pending: seq<RecordId>)
  {
    forall x, y :: (x, y) in g && (x in records || x in sources) && x !in pending ==> y in records
  }

  /** Whatever was added lies strictly below a source. */
  ghost predicate Justified(g: set<(RecordId, RecordId)>, sources: set<RecordId>, start: set<RecordId>,
                            records: set<RecordId>)
  {
    forall x :: x in records && x !in start ==> BelowSome(g, sources, x)
  }

  ghost predicate BelowSome(g: set<(RecordId, RecordId)>, sources: set<RecordId>, x: RecordId) {
    exists s :: s in sources && Plus(g, s, x)
  }

  lemma StepJustified(g: set<(RecordId, RecordId)>, sources: set<RecordId>, start: set<RecordId>,
                      before: set<RecordId>, records: set<RecordId>, record: RecordId)
    requires start <= sources && Justified(g, sources, start, before)
    requires record in before || record in sources
    requires forall y :: y in records && y !in before ==> (record, y) in g
    ensures Justified(g, sources, start, records)
  {
    forall y | y in records && y !in start ensures BelowSome(g, sources, y) {
      if y !in before {
        EdgeReaches(g, record, y);
        if record !in sources {
          var s :| s in sources && Plus(g, s, record);
          StarIsEqualOrPlus(g, record, y);
          PlusStarTrans(g, s, record, y);
        }
      }
    }
  }

  /** The shared loop: drains `queue`, admitting everything allowed below it. */
  method Drain(r: Relations, allowed: RecordId -> bool, start: set<RecordId>, queue: seq<RecordId>,
               ghost sources: set<RecordId>)
    returns (records: set<RecordId>)
    requires start <= sources && Elements(queue) <= sources
    requires Frontier(AllowedEdges(r, allowed), sources, start, queue)
    ensures start <= records
    ensures Frontier(AllowedEdges(r, allowed), sources, records, [])
    ensures Justified(AllowedEdges(r, allowed), sources, start, records)
  {
    hide Frontier, Justified, AllowedEdges, ChildrenOf, MembersOf;
    ghost var g := AllowedEdges(r, allowed);
    ghost var universe := start + set e | e in g :: e.1;
    records := start;
    var pending := queue;
    NothingAdded(g, sources, start);
    while pending != []
      invariant start <= records <= universe
      invariant forall x :: x in pending ==> x in records || x in sources
      invariant Frontier(g, sources, records, pending)
      invariant Justified(g, sources, start, records)
      decreases universe - records, |pending|
    {
      var record := pending[|pending| - 1];
      ghost var before, queued := records, pending;
      var found := ChildrenOf(r.parents, record) + MembersOf(r.groups, record);
      StepsDown(r, allowed, record, found);
      records, pending := InsertRelated(found, records, pending[..|pending| - 1], allowed);
      StepJustified(g, sources, start, before, records, record);
      StepWithin(g, start, before, records, record);
      StepMovesFrontier(g, sources, before, queued, records, pending);
    }
  }

  lemma NothingAdded(g: set<(RecordId, RecordId)>, sources: set<RecordId>, start: set<RecordId>)
    ensures Justified(g, sources, start, start)
  {
  }

  lemma StepsDown(r: Relations, allowed: RecordId -> bool, record: RecordId, found: seq<RecordId>)
    requires found == ChildrenOf(r.parents, record) + MembersOf(r.groups, record)
    ensures forall y :: y in found && allowed(y) <==> (record, y) in AllowedEdges(r, allowed)
  {
    forall y ensures y in found && allowed(y) <==> (record, y) in AllowedEdges(r, allowed) {
      DownSteps(r, record, y);
    }
  }

  lemma StepWithin(g: set<(RecordId, RecordId)>, start: set<RecordId>, before: set<RecordId>, records: set<RecordId>,
                   record: RecordId)
    requires before <= start + (set e | e in g :: e.1)
    requires forall y :: y in records && y !in before ==> (record, y) in g
    ensures records <= start + set e | e in g :: e.1
  {
    forall y | y in records && y !in before ensures y in set e | e in g :: e.1 {
      assert y == (record, y).1;
    }
  }

  lemma StepMovesFrontier(g: set<(RecordId, RecordId)>, sources: set<RecordId>, before: set<RecordId>,
                          queued: seq<RecordId>,
                          records: set<RecordId>, pending: seq<RecordId>)
    requires queued != [] && Frontier(g, sources, before, queued) && before <= records
    requires forall y :: (queued[|queued| - 1], y) in g ==> y in records
    requires forall x :: x in pending <==> x in queued[..|queued| - 1] || (x in records && x !in before)
    ensures Frontier(g, sources, records, pending)
    ensures forall x :: x in pending ==> x in queued || x in records
  {
    var last := |queued| - 1;
    assert queued == queued[..last] + [queued[last]];
    forall x, y | (x, y) in g && (x in records || x in sources) && x !in pending ensures y in records {
      assert x == queued[last] || x !in queued;
    }
  }

  /** Terminates on every relation set, cycles included, and finds exactly what can be reached. */
  method CollectRelated(r: Relations, seeds: seq<RecordId>, allowed: RecordId -> bool) returns (records: set<RecordId>)
    ensures forall x :: x in records <==> ReachedFrom(AllowedEdges(r, allowed), seeds, allowed, x)
  {
    ghost var g := AllowedEdges(r, allowed);
    var start, queue := InsertRelated(seeds, {}, [], allowed);
    records := Drain(r, allowed, start, queue, start);
    forall x ensures x in records <==> ReachedFrom(g, seeds, allowed, x) {
      if x in start {
        StarRefl(g, x);
      } else if x in records {
        var s :| s in start && Plus(g, s, x);
        StarIsEqualOrPlus(g, s, x);
      }
      if ReachedFrom(g, seeds, allowed, x) {
        var s :| s in seeds && allowed(s) && Star(g, s, x);
        ClosedKeepsStar(g, records, s, x);
      }
    }
  }

  /** As above, but a seed is reported only when it lies below some seed. */
  method CollectDescendants(r: Relations, seeds: seq<RecordId>, allowed: RecordId -> bool)
    returns (records: set<RecordId>)
    ensures forall x :: x in records <==> ReachedBelow(AllowedEdges(r, allowed), seeds, allowed, x)
  {
    ghost var g := AllowedEdges(r, allowed);
    var queue := Filter(seeds, allowed);
    FilterMembers(seeds, allowed);
    ghost var roots := Elements(queue);
    records := Drain(r, allowed, {}, queue, roots);
    forall x ensures x in records <==> ReachedBelow(g, seeds, allowed, x) {
      if x in records {
        var s :| s in roots && Plus(g, s, x);
        assert s in queue;
      }
      if ReachedBelow(g, seeds, allowed, x) {
        var s :| s in seeds && allowed(s) && Plus(g, s, x);
        var c := PlusSplitsFirst(g, s, x);
        assert s in queue;
        ClosedKeepsStar(g, records, c, x);
      }
    }
  }
}
