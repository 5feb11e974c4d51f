/** When the journal accepts the transaction of a gesture. */
module GestureCommits {
  import opened Prelude
  import opened KeyedLists
  import opened IndexMaps
  import opened Records
  import opened RelationSets
  import opened RelationTraversal
  import opened RelationValidation
  import opened Reachability
  import opened Commands
  import opened RelationReplay
  import opened Mutations
  import opened Journal
  import opened Gestures
  import opened GestureReplay
  import opened Acceptance
  import opened Histories

  // Record commands and relation commands.

  lemma {:induction false} RecordCommandsKeepRelations(x: Document, cs: seq<Command>)
    requires ApplyAll(x, cs).Ok? && forall c :: c in cs ==> !IsRelationCommand(c)
    ensures ApplyAll(x, cs).value.relations == x.relations
    decreases cs
  {
    if cs != [] {
      assert cs[0] in cs && forall c :: c in cs[1..] ==> c in cs;
      RecordCommandsKeepRelations(Apply(x, cs[0]).value, cs[1..]);
    }
  }

  lemma {:induction false} RelationCommandsKeepRecords(x: Document, cs: seq<Command>)
    requires ApplyAll(x, cs).Ok? && forall c :: c in cs ==> IsRelationCommand(c)
    ensures ApplyAll(x, cs).value.SameRecords(x)
    decreases cs
  {
    if cs != [] {
      hide Apply;
      assert cs[0] in cs && forall c :: c in cs[1..] ==> c in cs;
      RelationCommandKeepsWellFormed(x, cs[0]);
      RelationCommandsKeepRecords(Apply(x, cs[0]).value, cs[1..]);
    }
  }

  lemma {:induction false} UpsertsAre<K, V>(keys: seq<K>, previous: IndexMap<K, V>, target: IndexMap<K, V>,
                                            insert: V -> Command, update: V -> Command)
    requires forall v :: !IsRelationCommand(insert(v)) && !IsRelationCommand(update(v))
    ensures forall c :: c in Upserts(keys, previous, target, insert, update) ==> !IsRelationCommand(c)
  {
    if keys != [] {
      UpsertsAre(keys[1..], previous, target, insert, update);
    }
  }

  lemma MappedAre<T(!new)>(s: seq<T>, wrap: T -> Command, relation: bool)
    requires forall x :: IsRelationCommand(wrap(x)) == relation
    ensures forall c :: c in Map(wrap, s) ==> IsRelationCommand(c) == relation
  {
    forall c | c in Map(wrap, s) ensures IsRelationCommand(c) == relation {
      var x := MapSource(wrap, s, c);
    }
  }

  function RecordPart(previous: Document, target: Document): seq<Command> {
    Removals(previous, target) +
    (NodeUpserts(previous, target, target.nodes.keys) +
     (ShapeUpserts(previous, target, target.shapes.keys) + EdgeUpserts(previous, target, target.edges.keys)))
  }

  lemma Parts(previous: Document, target: Document)
    ensures Between(previous, target) == RecordPart(previous, target) + RelationPart(previous, target)
    ensures forall c :: c in RecordPart(previous, target) ==> !IsRelationCommand(c)
    ensures forall c :: c in RelationPart(previous, target) ==> IsRelationCommand(c)
  {
    RecordPartIs(previous, target);
    RelationPartIs(previous, target);
    hide Removals, RelationPart, Upserts;
    JoinFive(Removals(previous, target), NodeUpserts(previous, target, target.nodes.keys),
      ShapeUpserts(previous, target, target.shapes.keys),
             EdgeUpserts(previous, target, target.edges.keys), RelationPart(previous, target));
    JoinFour(Removals(previous, target), NodeUpserts(previous, target, target.nodes.keys),
      ShapeUpserts(previous, target, target.shapes.keys),
             EdgeUpserts(previous, target, target.edges.keys));
    assert [] + Removals(previous, target) == Removals(previous, target);
  }

  lemma RecordPartIs(previous: Document, target: Document)
    ensures forall c :: c in RecordPart(previous, target) ==> !IsRelationCommand(c)
  {
    hide Filter, Map, Upserts;
    MappedAre(Filter(previous.edges.keys, NotIn(target.edges)), RemoveEdgeCommand, false);
    MappedAre(Filter(previous.shapes.keys, NotIn(target.shapes)), RemoveShapeCommand, false);
    MappedAre(Filter(previous.nodes.keys, NotIn(target.nodes)), RemoveNodeCommand, false);
    UpsertsAre(target.nodes.keys, previous.nodes, target.nodes, InsertNodeCommand, UpdateNodeCommand);
    UpsertsAre(target.shapes.keys, previous.shapes, target.shapes, InsertShapeCommand, UpdateShapeCommand);
    UpsertsAre(target.edges.keys, previous.edges, target.edges, InsertEdgeCommand, UpdateEdgeCommand);
  }

  lemma RelationPartIs(previous: Document, target: Document)
    ensures forall c :: c in RelationPart(previous, target) ==> IsRelationCommand(c)
  {
    hide Filter, Map;
    MappedAre(Filter(previous.relations.parents, Orphaned(target)), ClearCommand, true);
    MappedAre(Filter(target.relations.parents, ParentGone(previous.relations)), SetCommand, true);
    MappedAre(Filter(previous.relations.groups, Left(target)), LeaveCommand, true);
    MappedAre(Filter(target.relations.groups, GroupGone(previous.relations)), JoinCommand, true);
  }

  // What the relation commands overwrite.

  lemma FirstLive<T>(y: Document, wrap: T -> Command, s: seq<T>, next: Document)
    requires s != [] && Apply(y, wrap(s[0])) == Ok(next)
    ensures LiveRun(y, Map(wrap, s)) <==> Live(y, wrap(s[0])) && LiveRun(next, Map(wrap, s[1..]))
  {
    hide Live, Apply;
    assert Map(wrap, s)[1..] == Map(wrap, s[1..]);
  }

  lemma ClearStep(y: Document, p: ParentRelation) returns (next: Document)
    requires WellFormed(y.relations) && y.Contains(p.child)
    ensures Apply(y, ClearCommand(p)) == Ok(next) && next == y.(relations := next.relations) &&
            WellFormed(next.relations)
    ensures Live(y, ClearCommand(p)) <==> LiveParent(y, p.child)
    ensures forall c :: c != p.child ==> ParentOf(next.relations, c) == ParentOf(y.relations, c)
    ensures forall r :: next.Contains(r) == y.Contains(r)
  {
    hide WellFormed, ParentOf;
    next := y.(relations := WithoutParent(y.relations, p.child));
    ClearParentFacts(y.relations, p.child, p.child);
    forall c | c != p.child ensures ParentOf(next.relations, c) == ParentOf(y.relations, c) {
      ClearParentFacts(y.relations, p.child, c);
    }
  }

  /** A list of parent relations in front of which one with another child is dealt with. */
  lemma LiveTail(y: Document, next: Document, ps: seq<ParentRelation>)
    requires ps != [] && next == y.(relations := next.relations)
    requires Unique(ps, ChildKey)
    requires forall c :: c != ps[0].child ==> ParentOf(next.relations, c) == ParentOf(y.relations, c)
    ensures Unique(ps[1..], ChildKey)
    ensures (forall p :: p in ps ==> LiveParent(y, p.child)) <==>
            LiveParent(y, ps[0].child) && forall p :: p in ps[1..] ==> LiveParent(next, p.child)
  {
    hide ParentOf, Unique;
    UniqueTail(ps, ChildKey);
    assert ps == [ps[0]] + ps[1..];
    assert forall p :: p in ps[1..] ==> p.child != ps[0].child;
    assert forall r :: next.Contains(r) == y.Contains(r);
    assert forall p :: p in ps[1..] ==> (LiveParent(next, p.child) <==> LiveParent(y, p.child));
  }

  lemma {:induction false} ClearsLiveIff(y: Document, ps: seq<ParentRelation>)
    requires WellFormed(y.relations) && Unique(ps, ChildKey) && forall p :: p in ps ==> y.Contains(p.child)
    ensures LiveRun(y, Map(ClearCommand, ps)) <==> forall p :: p in ps ==> LiveParent(y, p.child)
    decreases ps
  {
    if ps != [] {
      hide *;
      var next := ClearStep(y, ps[0]);
      FirstLive(y, ClearCommand, ps, next);
      LiveTail(y, next, ps);
      ClearsLiveIff(next, ps[1..]);
    }
  }

  lemma SetStep(y: Document, p: ParentRelation) returns (next: Document)
    requires WellFormed(y.relations) && y.Contains(p.child) && y.Contains(p.parent) && p.child != p.parent
    ensures Apply(y, SetCommand(p)) == Ok(next) && next == y.(relations := next.relations) && WellFormed(next.relations)
    ensures Live(y, SetCommand(p)) <==> LiveParent(y, p.child)
    ensures forall c :: c != p.child ==> ParentOf(next.relations, c) == ParentOf(y.relations, c)
  {
    hide WellFormed, ParentOf, Apply;
    var r := SetOne(y, p);
    next := y.(relations := r);
  }

  lemma ParentsSoundTail(y: Document, ps: seq<ParentRelation>)
    requires ParentsSound(y, ps) && ps != []
    ensures ParentsSound(y, ps[1..])
    ensures y.Contains(ps[0].child) && y.Contains(ps[0].parent) && ps[0].child != ps[0].parent
  {
    assert ps[0] in ps && forall p :: p in ps[1..] ==> p in ps;
  }

  lemma ParentsSoundIn(y: Document, next: Document, ps: seq<ParentRelation>)
    requires ParentsSound(y, ps) && next == y.(relations := next.relations)
    ensures ParentsSound(next, ps)
  {
  }

  lemma {:induction false} SetsLiveIff(y: Document, ps: seq<ParentRelation>)
    requires WellFormed(y.relations) && Unique(ps, ChildKey) && ParentsSound(y, ps)
    ensures LiveRun(y, Map(SetCommand, ps)) <==> forall p :: p in ps ==> LiveParent(y, p.child)
    decreases ps
  {
    if ps != [] {
      ParentsSoundTail(y, ps);
      hide *;
      var next := SetStep(y, ps[0]);
      FirstLive(y, SetCommand, ps, next);
      LiveTail(y, next, ps);
      ParentsSoundIn(y, next, ps[1..]);
      SetsLiveIff(next, ps[1..]);
    }
  }

  lemma LiveFirst(y: Document, c: Command, rest: seq<Command>)
    ensures LiveRun(y, [c] + rest) <==> Live(y, c) && (Apply(y, c).Ok? ==> LiveRun(Apply(y, c).value, rest))
  {
    hide Live, Apply;
    assert ([c] + rest)[1..] == rest;
  }

  lemma LeaveStep(y: Document, g: GroupRelation) returns (next: Document)
    requires y.Contains(g.group) && y.Contains(g.member)
    requires g.group != g.member
    ensures Apply(y, LeaveCommand(g)) == Ok(next) && Live(y, LeaveCommand(g))
    ensures forall r :: next.Contains(r) == y.Contains(r)
  {
    next := y.(relations := WithoutMember(y.relations, g.group, g.member));
  }

  lemma {:induction false} JoinsAreLive(y: Document, come: seq<GroupRelation>)
    ensures LiveRun(y, Map(JoinCommand, come))
    decreases come
  {
    if come != [] {
      hide Apply;
      var c := JoinCommand(come[0]);
      assert Map(JoinCommand, come) == [c] + Map(JoinCommand, come[1..]);
      if Apply(y, c).Ok? {
        JoinsAreLive(Apply(y, c).value, come[1..]);
      }
      LiveFirst(y, c, Map(JoinCommand, come[1..]));
    }
  }

  lemma {:induction false} GroupCommandsAreLive(y: Document, gone: seq<GroupRelation>, come: seq<GroupRelation>)
    requires GroupsSound(y, gone)
    ensures LiveRun(y, Map(LeaveCommand, gone) + Map(JoinCommand, come))
    decreases gone
  {
    var cs := Map(LeaveCommand, gone) + Map(JoinCommand, come);
    hide Apply, Live, LiveRun;
    if gone == [] {
      assert cs == Map(JoinCommand, come);
      JoinsAreLive(y, come);
    } else {
      var rest := Map(LeaveCommand, gone[1..]) + Map(JoinCommand, come);
      assert cs == [LeaveCommand(gone[0])] + rest;
      hide Map;
      assert gone[0] in gone && forall g :: g in gone[1..] ==> g in gone;
      var next := LeaveStep(y, gone[0]);
      GroupCommandsAreLive(next, gone[1..], come);
      LiveFirst(y, LeaveCommand(gone[0]), rest);
    }
  }

  /** A surviving child that loses its parent, or gets another, had one that survives too. */
  ghost predicate ParentsLeftAlive(previous: Document, target: Document) {
    forall p :: p in previous.relations.parents ==>
      target.Contains(p.child) && ParentOf(target.relations, p.child) != Some(p.parent) ==> target.Contains(p.parent)
  }

  lemma ParentPartLiveIff(y: Document, previous: Document, target: Document)
    requires RelationsSound(previous) && RelationsSound(target) && y.relations == previous.relations &&
             y.SameRecords(target)
    ensures LiveRun(y, Map(ClearCommand, Filter(previous.relations.parents, Orphaned(target))) +
                       Map(SetCommand, Filter(target.relations.parents, ParentGone(previous.relations)))) <==>
            ParentsLeftAlive(previous, target)
  {
    var gone, come := Filter(previous.relations.parents, Orphaned(target)),
      Filter(target.relations.parents, ParentGone(previous.relations));
    ChosenParents(previous, target, gone, come);
    SameContents(y, target);
    assert ParentsSound(y, come);
    hide RelationsSound, LiveRun, Map, WellFormed, Filter, Unique;
    ClearThenSetLiveIff(y, previous, target, gone, come);
    OverwrittenIff(y, previous, target, gone, come);
  }

  lemma ClearThenSetLiveIff(y: Document, previous: Document, target: Document, gone: seq<ParentRelation>,
                            come: seq<ParentRelation>)
    requires WellFormed(y.relations) && ParentsSound(y, come) && Unique(gone, ChildKey) && Unique(come, ChildKey)
    requires forall p :: p in gone ==> y.Contains(p.child) && Orphaned(target)(p)
    requires forall p :: p in come ==> p in target.relations.parents
    ensures LiveRun(y, Map(ClearCommand, gone) + Map(SetCommand, come)) <==>
            (forall p :: p in gone ==> LiveParent(y, p.child)) && (forall p :: p in come ==> LiveParent(y, p.child))
  {
    hide LiveRun, ApplyAll, Map, WellFormed, Lookup, Unique;
    var r1 := ClearAll(y, gone);
    var y1 := y.(relations := r1);
    LiveConcat(y, Map(ClearCommand, gone), Map(SetCommand, come));
    ClearsLiveIff(y, gone);
    SetsLiveIff(y1, come);
    forall p | p in come ensures LiveParent(y1, p.child) <==> LiveParent(y, p.child) {
      NotCleared(gone, target, p);
    }
  }

  lemma ChosenParents(previous: Document, target: Document, gone: seq<ParentRelation>, come: seq<ParentRelation>)
    requires WellFormed(previous.relations) && WellFormed(target.relations)
    requires gone == Filter(previous.relations.parents, Orphaned(target)) &&
             come == Filter(target.relations.parents, ParentGone(previous.relations))
    ensures Unique(gone, ChildKey) && Unique(come, ChildKey)
    ensures forall p :: p in gone <==> p in previous.relations.parents && Orphaned(target)(p)
    ensures forall p :: p in come <==> p in target.relations.parents && ParentGone(previous.relations)(p)
    ensures forall p :: p in gone ==> target.Contains(p.child)
    ensures ParentsSound(target, target.relations.parents) ==> ParentsSound(target, come)
  {
    FilterUnique(previous.relations.parents, ChildKey, Orphaned(target));
    FilterMembers(previous.relations.parents, Orphaned(target));
    FilterUnique(target.relations.parents, ChildKey, ParentGone(previous.relations));
    FilterMembers(target.relations.parents, ParentGone(previous.relations));
  }

  lemma NotCleared(gone: seq<ParentRelation>, target: Document, p: ParentRelation)
    requires p in target.relations.parents && forall q :: q in gone ==> Orphaned(target)(q)
    ensures Lookup(gone, ChildKey, p.child).None?
  {
    assert ChildKey(p) == p.child;
    assert ParentOf(target.relations, p.child).Some?;
  }

  lemma OverwrittenIff(y: Document, previous: Document, target: Document, gone: seq<ParentRelation>,
                       come: seq<ParentRelation>)
    requires WellFormed(previous.relations) && ParentsSound(previous, previous.relations.parents) &&
             WellFormed(target.relations)
    requires ParentsSound(target, target.relations.parents)
    requires y.relations == previous.relations && forall id: RecordId :: y.Contains(id) <==> target.Contains(id)
    requires forall p :: p in gone <==> p in previous.relations.parents && Orphaned(target)(p)
    requires forall p :: p in come <==> p in target.relations.parents && ParentGone(previous.relations)(p)
    ensures (forall p :: p in gone ==> LiveParent(y, p.child)) &&
            (forall p :: p in come ==> LiveParent(y, p.child)) <==>
            ParentsLeftAlive(previous, target)
  {
    var parents := previous.relations.parents;
    if (forall p :: p in gone ==> LiveParent(y, p.child)) && (forall p :: p in come ==> LiveParent(y, p.child)) {
      forall p | p in parents && target.Contains(p.child) && ParentOf(target.relations, p.child) != Some(p.parent)
        ensures target.Contains(p.parent)
      {
        LookupMember(parents, ChildKey, p);
        var next := Lookup(target.relations.parents, ChildKey, p.child);
        if next.Some? {
          assert next.value in come;
        } else {
          assert p in gone;
        }
      }
    }
    if ParentsLeftAlive(previous, target) {
      forall p | p in gone ensures LiveParent(y, p.child) {
        LookupMember(parents, ChildKey, p);
      }
      forall p | p in come ensures LiveParent(y, p.child) {
        LookupMember(target.relations.parents, ChildKey, p);
        var old_ := Lookup(parents, ChildKey, p.child);
        if old_.Some? {
          assert old_.value in parents;
        }
      }
    }
  }

  lemma RelationPartLiveIff(y: Document, previous: Document, target: Document)
    requires RelationsSound(previous) && RelationsSound(target) && y.relations == previous.relations &&
             y.SameRecords(target)
    requires ApplyAll(y, RelationPart(previous, target)).Ok?
    ensures LiveRun(y, RelationPart(previous, target)) <==> ParentsLeftAlive(previous, target)
  {
    hide Map, Filter, LiveRun, ApplyAll, Acyclic;
    var clear, set_ := Map(ClearCommand, Filter(previous.relations.parents, Orphaned(target))),
      Map(SetCommand, Filter(target.relations.parents, ParentGone(previous.relations)));
    var gone, come := Filter(previous.relations.groups, Left(target)),
      Filter(target.relations.groups, GroupGone(previous.relations));
    FilterMembers(previous.relations.groups, Left(target));
    SameContents(y, target);
    RelationPartIs(previous, target);
    assert GroupsSound(y, gone);
    hide RelationsSound;
    JoinTwo(clear, set_, Map(LeaveCommand, gone) + Map(JoinCommand, come));
    ParentPartLiveIff(y, previous, target);
    ApplyConcat(y, clear + set_, Map(LeaveCommand, gone) + Map(JoinCommand, come));
    LiveConcat(y, clear + set_, Map(LeaveCommand, gone) + Map(JoinCommand, come));
    var y1 := ApplyAll(y, clear + set_).value;
    RelationCommandsKeepRecords(y, clear + set_);
    SameContents(y1, y);
    GroupCommandsAreLive(y1, gone, come);
  }

  lemma JoinTwo(a: seq<Command>, b: seq<Command>, c: seq<Command>)
    ensures a + b + c == a + (b + c)
  {
  }

  /** Parents and groups of the target with the previous bindings are sound. */
  lemma ReachedIsSound(w: Document, previous: Document, target: Document)
    requires Sound(previous) && Sound(target) && Reaches(w, previous, target)
    ensures RelationsSound(PruneMissing(w)) && w.SameRecords(target)
  {
    assert BindingsUnlooped(previous.relations.bindings);
    var x := PruneMissing(w);
    ReachedFacts(w, previous, target, x.relations);
    hide RecordsSound, PruneMissing, Reaches, Acyclic;
    assert RelationsSound(target);
    SameContents(w, target);
    SomeOfSound(x, target);
  }

  lemma SomeOfSound(x: Document, target: Document)
    requires RelationsSound(target) && WellFormed(x.relations) && BindingsSound(x, x.relations.bindings)
    requires forall id: RecordId :: target.Contains(id) ==> x.Contains(id)
    requires forall p :: p in x.relations.parents ==> p in target.relations.parents
    requires forall g :: g in x.relations.groups ==> g in target.relations.groups
    ensures RelationsSound(x)
  {
    hide Acyclic, WellFormed;
    SubgraphAcyclic(DownEdges(x.relations), DownEdges(target.relations));
  }

  ghost predicate BindingsUnlooped(bs: seq<BindingRelation>) {
    forall b :: b in bs ==> b.source != b.target
  }

  lemma ReachedFacts(w: Document, previous: Document, target: Document, r: Relations)
    requires Reaches(w, previous, target) && r == PruneMissing(w).relations &&
             BindingsUnlooped(previous.relations.bindings)
    ensures WellFormed(r)
    ensures forall p :: p in r.parents ==> p in target.relations.parents
    ensures forall g :: g in r.groups ==> g in target.relations.groups
    ensures BindingsSound(w, r.bindings) && BindingsSound(PruneMissing(w), r.bindings)
    ensures w.SameRecords(target) && forall id: RecordId :: target.Contains(id) ==> PruneMissing(w).Contains(id)
  {
    PruneFacts(w.relations, Existing(w));
    forall p | p in r.parents ensures p in target.relations.parents {
      LookupMember(r.parents, ChildKey, p);
      assert ParentOf(r, p.child) == ParentOf(target.relations, p.child);
    }
    forall g | g in r.groups ensures g in target.relations.groups {
      assert HasMember(r, g.group, g.member) == HasMember(target.relations, g.group, g.member);
    }
  }

  /**
   * The journal accepts a gesture between two valid states exactly when its commands apply and no
   * surviving child is moved out of a parent that the gesture drops.
   */
  lemma GestureAcceptedIff(previous: Document, target: Document, registry: Registry)
    requires Sound(previous) && Sound(target)
    requires NormalizeAll(registry, Between(previous, target)) == Ok(Between(previous, target))
    requires forall x :: registry.Validate(x).Ok?
    ensures Prepare(previous, Between(previous, target), registry).Ok? <==>
            KeptEdgesFit(previous, target) && RelationsSurviveUpdates(previous, target) &&
              ParentsLeftAlive(previous, target)
  {
    hide ApplyAll, Between, RecordPart, RelationPart, Reaches, KeptEdgesFit, RelationsSurviveUpdates, ParentsLeftAlive,
         RecordsSound, RelationsSound, LiveRun, Prepare, NormalizeAll;
    var cs := Between(previous, target);
    Acceptance.AcceptedIff(previous, cs, registry, cs);
    TransactionAppliesIff(previous, target);
    if ApplyAll(previous, cs).Ok? {
      ReachedIsSound(ApplyAll(previous, cs).value, previous, target);
      GestureLiveIff(previous, target, ApplyAll(previous, cs).value);
    }
  }

  /** Committing a gesture: nothing to do, or the prepared transaction between its two states. */
  function CommitGesture(baseline: Document, current: Document, registry: Registry):
    Result<Option<Prepared>, DocumentError>
  {
    var commands := Between(baseline, current);
    if commands == [] then Ok(None)
    else
      var prepared :- Prepare(baseline, commands, registry);
      Ok(Some(prepared))
  }

  ghost predicate SameToGestures(previous: Document, target: Document) {
    && previous.SameRecords(target)
    && Elements(previous.relations.parents) == Elements(target.relations.parents)
    && Elements(previous.relations.groups) == Elements(target.relations.groups)
  }

  /**
   * A gesture between valid states commits nothing exactly when records, parents and memberships agree; it
   * fails exactly when they do not and the journal does not accept the commands; and what it commits has the
   * records, parents and memberships of the state it ended in.
   */
  lemma CommitGestureIs(previous: Document, target: Document, registry: Registry)
    requires Sound(previous) && Sound(target)
    requires NormalizeAll(registry, Between(previous, target)) == Ok(Between(previous, target))
    requires forall x :: registry.Validate(x).Ok?
    ensures CommitGesture(previous, target, registry) == Ok(None) <==> SameToGestures(previous, target)
    ensures CommitGesture(previous, target, registry).Err? <==>
            && !SameToGestures(previous, target)
            && !(KeptEdgesFit(previous, target) && RelationsSurviveUpdates(previous, target) &&
                 ParentsLeftAlive(previous, target))
    ensures CommitGesture(previous, target, registry).Ok? && CommitGesture(previous, target, registry).value.Some? ==>
              SameToGestures(CommitGesture(previous, target, registry).value.value.document, target)
  {
    hide ApplyAll, Between, Reaches, KeptEdgesFit, RelationsSurviveUpdates, ParentsLeftAlive, RecordsSound,
         RelationsSound, Prepare, NormalizeAll;
    NothingBetweenSoundIff(previous, target);
    GestureAcceptedIff(previous, target, registry);
    if Prepare(previous, Between(previous, target), registry).Ok? {
      PreparedGesture(previous, target, registry);
    }
  }

  lemma PreparedGesture(previous: Document, target: Document, registry: Registry)
    requires Sound(previous) && Sound(target)
    requires NormalizeAll(registry, Between(previous, target)) == Ok(Between(previous, target))
    requires Prepare(previous, Between(previous, target), registry).Ok?
    ensures SameToGestures(Prepare(previous, Between(previous, target), registry).value.document, target)
  {
    hide Between, NormalizeAll, ApplyAll, Invert, CompleteInverse, ValidateRelations, PruneMissing, Reaches,
         RecordsSound, RelationsSound, KeptEdgesFit, RelationsSurviveUpdates;
    TransactionAppliesIff(previous, target);
    var w := ApplyAll(previous, Between(previous, target)).value;
    assert Prepare(previous, Between(previous, target), registry).value.document == PruneMissing(w);
    ReachedAgrees(w, previous, target);
  }

  lemma ReachedAgrees(w: Document, previous: Document, target: Document)
    requires Reaches(w, previous, target) && RelationsSound(target)
    ensures SameToGestures(PruneMissing(w), target)
  {
    hide Prune;
    var r := PruneMissing(w).relations;
    PruneFacts(w.relations, Existing(w));
    forall p | p in r.parents || p in target.relations.parents
      ensures Lookup(r.parents, ChildKey, ChildKey(p)) == Lookup(target.relations.parents, ChildKey, ChildKey(p))
    {
      assert ParentOf(r, p.child) == ParentOf(target.relations, p.child);
    }
    SameLookups(r.parents, target.relations.parents, ChildKey);
    forall g ensures g in r.groups <==> g in target.relations.groups {
      assert HasMember(r, g.group, g.member) == HasMember(target.relations, g.group, g.member);
    }
  }

  lemma GestureLiveIff(previous: Document, target: Document, w: Document)
    requires Sound(previous) && Sound(target) && ApplyAll(previous, Between(previous, target)) == Ok(w) &&
             w.SameRecords(target)
    ensures LiveRun(previous, Between(previous, target)) <==> ParentsLeftAlive(previous, target)
  {
    hide ApplyAll, Between, RecordPart, RelationPart, ParentsLeftAlive, RecordsSound, RelationsSound, LiveRun;
    var records, relations := RecordPart(previous, target), RelationPart(previous, target);
    Parts(previous, target);
    ApplyConcat(previous, records, relations);
    var y := ApplyAll(previous, records).value;
    RecordCommandsKeepRelations(previous, records);
    RelationCommandsKeepRecords(y, relations);
    RecordCommandsAreLive(previous, records);
    LiveConcat(previous, records, relations);
    RelationPartLiveIff(y, previous, target);
  }
}
