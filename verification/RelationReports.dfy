/** The report of relation changes between two states: what it names, in which order, and its commands. */
module RelationReports {
  import opened Prelude
  import opened Records
  import opened RelationSets
  import opened EdgeOrders
  import opened RelationReplay

  datatype RelationChange = Upserted(relation: Relation) | Deleted(relation: Relation)

  function ChangeToCommand(change: RelationChange): Command {
    match change
    case Upserted(Parent(p)) => SetRecordParent(p.child, p.parent)
    case Deleted(Parent(p)) => ClearRecordParent(p.child)
    case Upserted(Group(g)) => AddRecordToGroup(g.group, g.member)
    case Deleted(Group(g)) => RemoveRecordFromGroup(g.group, g.member)
    case Upserted(Binding(b)) => SetRecordBinding(b)
    case Deleted(Binding(b)) => RemoveRecordBinding(b.id)
  }

  function DeletedParent(p: ParentRelation): RelationChange { Deleted(Parent(p)) }
  function UpsertedParent(p: ParentRelation): RelationChange { Upserted(Parent(p)) }
  function DeletedGroup(g: GroupRelation): RelationChange { Deleted(Group(g)) }
  function UpsertedGroup(g: GroupRelation): RelationChange { Upserted(Group(g)) }
  function DeletedBinding(b: BindingRelation): RelationChange { Deleted(Binding(b)) }
  function UpsertedBinding(b: BindingRelation): RelationChange { Upserted(Binding(b)) }

  function AsCommands(changes: seq<RelationChange>): seq<Command> {
    Map(ChangeToCommand, changes)
  }

  /** What is reported: for each kind of relation the ones that are gone, then the ones that have come or changed. */
  function Changes(current: Relations, previous: Relations): seq<RelationChange> {
    Map(DeletedParent, Filter(previous.parents, ParentGone(current))) +
    Map(UpsertedParent, Filter(current.parents, ParentGone(previous))) +
    Map(DeletedGroup, Filter(previous.groups, GroupGone(current))) +
    Map(UpsertedGroup, Filter(current.groups, GroupGone(previous))) +
    Map(DeletedBinding, Filter(previous.bindings, BindingGone(current))) +
    Map(UpsertedBinding, Filter(current.bindings, BindingGone(previous)))
  }

  /** One of the six loops: the selected relations, wrapped as changes, go to the end of the list. */
  method AppendChanges<T>(changes: seq<RelationChange>, s: seq<T>, chosen: T -> bool, wrap: T -> RelationChange)
    returns (more: seq<RelationChange>)
    ensures more == changes + Map(wrap, Filter(s, chosen))
  {
    more := changes;
    for i := 0 to |s|
      invariant more == changes + Map(wrap, Filter(s[..i], chosen))
    {
      ChosenNext(s, i, chosen, wrap);
      if chosen(s[i]) {
        more := more + [wrap(s[i])];
      }
    }
    assert s[..|s|] == s;
  }

  lemma ChosenNext<T, U>(s: seq<T>, i: nat, chosen: T -> bool, wrap: T -> U)
    requires i < |s|
    ensures Map(wrap, Filter(s[..i + 1], chosen)) ==
            Map(wrap, Filter(s[..i], chosen)) + (if chosen(s[i]) then [wrap(s[i])] else [])
  {
    assert s[..i + 1] == s[..i] + [s[i]];
    FilterConcat(s[..i], [s[i]], chosen);
    MapConcat(wrap, Filter(s[..i], chosen), Filter([s[i]], chosen));
  }

  // What the report says.

  /** Deleted are the facts that only the previous state has, upserted the ones that only the current state has. */
  ghost predicate ReportsFacts(changes: seq<RelationChange>, current: Relations, previous: Relations) {
    && (forall p :: Deleted(Parent(p)) in changes <==> p in previous.parents && p !in current.parents)
    && (forall p :: Upserted(Parent(p)) in changes <==> p in current.parents && p !in previous.parents)
    && (forall g :: Deleted(Group(g)) in changes <==> g in previous.groups && g !in current.groups)
    && (forall g :: Upserted(Group(g)) in changes <==> g in current.groups && g !in previous.groups)
    && (forall b :: Deleted(Binding(b)) in changes <==> b in previous.bindings && b !in current.bindings)
    && (forall b :: Upserted(Binding(b)) in changes <==> b in current.bindings && b !in previous.bindings)
  }

  /** Parents come before groups and groups before bindings; of each kind what is deleted comes first. */
  function Turn(change: RelationChange): nat {
    match change
    case Deleted(Parent(_)) => 0
    case Upserted(Parent(_)) => 1
    case Deleted(Group(_)) => 2
    case Upserted(Group(_)) => 3
    case Deleted(Binding(_)) => 4
    case Upserted(Binding(_)) => 5
  }

  /** In its turn each change stands where its fact stands in the state that has the fact. */
  ghost predicate ReportedBefore(a: RelationChange, b: RelationChange, current: Relations, previous: Relations) {
    match (a, b)
    case (Deleted(Parent(p)), Deleted(Parent(q))) => Before(previous.parents, p, q)
    case (Upserted(Parent(p)), Upserted(Parent(q))) => Before(current.parents, p, q)
    case (Deleted(Group(g)), Deleted(Group(h))) => Before(previous.groups, g, h)
    case (Upserted(Group(g)), Upserted(Group(h))) => Before(current.groups, g, h)
    case (Deleted(Binding(x)), Deleted(Binding(y))) => Before(previous.bindings, x, y)
    case (Upserted(Binding(x)), Upserted(Binding(y))) => Before(current.bindings, x, y)
    case _ => Turn(a) < Turn(b)
  }

  ghost predicate ReportsInOrder(changes: seq<RelationChange>, current: Relations, previous: Relations) {
    forall i, j :: 0 <= i < j < |changes| ==> ReportedBefore(changes[i], changes[j], current, previous)
  }

  ghost predicate InTurn(changes: seq<RelationChange>, turn: nat) {
    forall c :: c in changes ==> Turn(c) == turn
  }

  lemma ParentReports(s: seq<ParentRelation>, other: Relations)
    requires WellFormed(other)
    ensures var gone := Map(DeletedParent, Filter(s, ParentGone(other)));
            InTurn(gone, 0) && forall p :: Deleted(Parent(p)) in gone <==> p in s && p !in other.parents
    ensures var come := Map(UpsertedParent, Filter(s, ParentGone(other)));
            InTurn(come, 1) && forall p :: Upserted(Parent(p)) in come <==> p in s && p !in other.parents
  {
    var left := Filter(s, ParentGone(other));
    hide WellFormed;
    GoneIff(other);
    FilterMembers(s, ParentGone(other));
    hide Filter, ParentGone;
    forall p
      ensures Deleted(Parent(p)) in Map(DeletedParent, left) <==> p in left
      ensures Upserted(Parent(p)) in Map(UpsertedParent, left) <==> p in left
    {
      MappedMembers(DeletedParent, left, p);
      MappedMembers(UpsertedParent, left, p);
    }
  }

  lemma GroupReports(s: seq<GroupRelation>, other: Relations)
    requires WellFormed(other)
    ensures var gone := Map(DeletedGroup, Filter(s, GroupGone(other)));
            InTurn(gone, 2) && forall g :: Deleted(Group(g)) in gone <==> g in s && g !in other.groups
    ensures var come := Map(UpsertedGroup, Filter(s, GroupGone(other)));
            InTurn(come, 3) && forall g :: Upserted(Group(g)) in come <==> g in s && g !in other.groups
  {
    var left := Filter(s, GroupGone(other));
    hide WellFormed;
    GoneIff(other);
    FilterMembers(s, GroupGone(other));
    hide Filter, GroupGone;
    forall g
      ensures Deleted(Group(g)) in Map(DeletedGroup, left) <==> g in left
      ensures Upserted(Group(g)) in Map(UpsertedGroup, left) <==> g in left
    {
      MappedMembers(DeletedGroup, left, g);
      MappedMembers(UpsertedGroup, left, g);
    }
  }

  lemma BindingReports(s: seq<BindingRelation>, other: Relations)
    requires WellFormed(other)
    ensures var gone := Map(DeletedBinding, Filter(s, BindingGone(other)));
            InTurn(gone, 4) && forall b :: Deleted(Binding(b)) in gone <==> b in s && b !in other.bindings
    ensures var come := Map(UpsertedBinding, Filter(s, BindingGone(other)));
            InTurn(come, 5) && forall b :: Upserted(Binding(b)) in come <==> b in s && b !in other.bindings
  {
    var left := Filter(s, BindingGone(other));
    hide WellFormed;
    GoneIff(other);
    FilterMembers(s, BindingGone(other));
    hide Filter, BindingGone;
    forall b
      ensures Deleted(Binding(b)) in Map(DeletedBinding, left) <==> b in left
      ensures Upserted(Binding(b)) in Map(UpsertedBinding, left) <==> b in left
    {
      MappedMembers(DeletedBinding, left, b);
      MappedMembers(UpsertedBinding, left, b);
    }
  }

  lemma InSix(a: seq<RelationChange>, b: seq<RelationChange>, c: seq<RelationChange>,
              d: seq<RelationChange>, e: seq<RelationChange>, f: seq<RelationChange>, x: RelationChange)
    requires InTurn(a, 0) && InTurn(b, 1) && InTurn(c, 2) && InTurn(d, 3) && InTurn(e, 4) && InTurn(f, 5)
    ensures x in a + b + c + d + e + f <==>
            x in (match Turn(x) case 0 => a case 1 => b case 2 => c case 3 => d case 4 => e case _ => f)
  {
    assert x in a + b + c + d + e + f <==> x in a || x in b || x in c || x in d || x in e || x in f;
  }

  lemma SixReportFacts(a: seq<RelationChange>, b: seq<RelationChange>, c: seq<RelationChange>,
                       d: seq<RelationChange>, e: seq<RelationChange>, f: seq<RelationChange>,
                       current: Relations, previous: Relations)
    requires InTurn(a, 0) && InTurn(b, 1) && InTurn(c, 2) && InTurn(d, 3) && InTurn(e, 4) && InTurn(f, 5)
    requires forall p :: Deleted(Parent(p)) in a <==> p in previous.parents && p !in current.parents
    requires forall p :: Upserted(Parent(p)) in b <==> p in current.parents && p !in previous.parents
    requires forall g :: Deleted(Group(g)) in c <==> g in previous.groups && g !in current.groups
    requires forall g :: Upserted(Group(g)) in d <==> g in current.groups && g !in previous.groups
    requires forall x :: Deleted(Binding(x)) in e <==> x in previous.bindings && x !in current.bindings
    requires forall x :: Upserted(Binding(x)) in f <==> x in current.bindings && x !in previous.bindings
    ensures ReportsFacts(a + b + c + d + e + f, current, previous)
  {
    hide InTurn;
    forall x
      ensures x in a + b + c + d + e + f <==>
              x in (match Turn(x) case 0 => a case 1 => b case 2 => c case 3 => d case 4 => e case _ => f)
    {
      InSix(a, b, c, d, e, f, x);
    }
  }

  /** The report names exactly the facts that one of the two states lacks. */
  lemma ChangesReportFacts(current: Relations, previous: Relations)
    requires WellFormed(current) && WellFormed(previous)
    ensures ReportsFacts(Changes(current, previous), current, previous)
  {
    hide *;
    ParentReports(previous.parents, current);
    ParentReports(current.parents, previous);
    GroupReports(previous.groups, current);
    GroupReports(current.groups, previous);
    BindingReports(previous.bindings, current);
    BindingReports(current.bindings, previous);
    var a, b := Filter(previous.parents, ParentGone(current)), Filter(current.parents, ParentGone(previous));
    var c, d := Filter(previous.groups, GroupGone(current)), Filter(current.groups, GroupGone(previous));
    var e, f := Filter(previous.bindings, BindingGone(current)), Filter(current.bindings, BindingGone(previous));
    SixReportFacts(Map(DeletedParent, a), Map(UpsertedParent, b), Map(DeletedGroup, c), Map(UpsertedGroup, d),
      Map(DeletedBinding, e), Map(UpsertedBinding, f), current, previous);
    ChangesAre(current, previous);
  }

  lemma ChangesAre(current: Relations, previous: Relations)
    ensures Changes(current, previous) ==
            Map(DeletedParent, Filter(previous.parents, ParentGone(current))) +
              Map(UpsertedParent, Filter(current.parents, ParentGone(previous))) +
              Map(DeletedGroup, Filter(previous.groups, GroupGone(current))) +
              Map(UpsertedGroup, Filter(current.groups, GroupGone(previous))) +
              Map(DeletedBinding, Filter(previous.bindings, BindingGone(current))) +
              Map(UpsertedBinding, Filter(current.bindings, BindingGone(previous)))
  {
  }

  lemma PartsInOrder(current: Relations, previous: Relations, order: (RelationChange, RelationChange) -> bool)
    requires forall x, y :: ReportedBefore(x, y, current, previous) ==> order(x, y)
    ensures Pairwise(Map(DeletedParent, Filter(previous.parents, ParentGone(current))), order)
    ensures Pairwise(Map(UpsertedParent, Filter(current.parents, ParentGone(previous))), order)
    ensures Pairwise(Map(DeletedGroup, Filter(previous.groups, GroupGone(current))), order)
    ensures Pairwise(Map(UpsertedGroup, Filter(current.groups, GroupGone(previous))), order)
    ensures Pairwise(Map(DeletedBinding, Filter(previous.bindings, BindingGone(current))), order)
    ensures Pairwise(Map(UpsertedBinding, Filter(current.bindings, BindingGone(previous))), order)
  {
    hide Pairwise, Filter, Map, Before, ParentGone, GroupGone, BindingGone;
    PairwiseSelected(previous.parents, ParentGone(current), DeletedParent, order);
    PairwiseSelected(current.parents, ParentGone(previous), UpsertedParent, order);
    PairwiseSelected(previous.groups, GroupGone(current), DeletedGroup, order);
    PairwiseSelected(current.groups, GroupGone(previous), UpsertedGroup, order);
    PairwiseSelected(previous.bindings, BindingGone(current), DeletedBinding, order);
    PairwiseSelected(current.bindings, BindingGone(previous), UpsertedBinding, order);
  }

  /** And names them in turn, each kind in the order of the state that has the facts. */
  lemma ChangesInOrder(current: Relations, previous: Relations)
    requires WellFormed(current) && WellFormed(previous)
    ensures ReportsInOrder(Changes(current, previous), current, previous)
  {
    hide *;
    var order := (x, y) => ReportedBefore(x, y, current, previous);
    ParentReports(previous.parents, current);
    ParentReports(current.parents, previous);
    GroupReports(previous.groups, current);
    GroupReports(current.groups, previous);
    BindingReports(previous.bindings, current);
    BindingReports(current.bindings, previous);
    PartsInOrder(current, previous, order);
    var a, b := Filter(previous.parents, ParentGone(current)), Filter(current.parents, ParentGone(previous));
    var c, d := Filter(previous.groups, GroupGone(current)), Filter(current.groups, GroupGone(previous));
    var e, f := Filter(previous.bindings, BindingGone(current)), Filter(current.bindings, BindingGone(previous));
    EarlierTurn(current, previous);
    SixInOrder(Map(DeletedParent, a), Map(UpsertedParent, b), Map(DeletedGroup, c), Map(UpsertedGroup, d),
      Map(DeletedBinding, e), Map(UpsertedBinding, f), order);
    ChangesAre(current, previous);
    PairwiseReported(Changes(current, previous), current, previous, order);
  }

  lemma EarlierTurn(current: Relations, previous: Relations)
    ensures forall x, y :: Turn(x) < Turn(y) ==> ReportedBefore(x, y, current, previous)
  {
  }

  lemma PairwiseReported(changes: seq<RelationChange>, current: Relations, previous: Relations,
                         order: (RelationChange, RelationChange) -> bool)
    requires Pairwise(changes, order) && forall x, y :: order(x, y) ==> ReportedBefore(x, y, current, previous)
    ensures ReportsInOrder(changes, current, previous)
  {
  }

  lemma SixInOrder(a: seq<RelationChange>, b: seq<RelationChange>, c: seq<RelationChange>,
                   d: seq<RelationChange>, e: seq<RelationChange>, f: seq<RelationChange>,
                   order: (RelationChange, RelationChange) -> bool)
    requires InTurn(a, 0) && InTurn(b, 1) && InTurn(c, 2) && InTurn(d, 3) && InTurn(e, 4) && InTurn(f, 5)
    requires Pairwise(a, order) && Pairwise(b, order) && Pairwise(c, order)
    requires Pairwise(d, order) && Pairwise(e, order) && Pairwise(f, order)
    requires forall x, y :: Turn(x) < Turn(y) ==> order(x, y)
    ensures Pairwise(a + b + c + d + e + f, order)
  {
    hide Pairwise, Turn;
    PairwiseConcat(a, b, order);
    PairwiseConcat(a + b, c, order);
    PairwiseConcat(a + b + c, d, order);
    PairwiseConcat(a + b + c + d, e, order);
    PairwiseConcat(a + b + c + d + e, f, order);
  }

  /** Nothing is reported exactly when the two states hold the same facts. */
  lemma NoChangesIff(current: Relations, previous: Relations)
    requires WellFormed(current) && WellFormed(previous)
    ensures Changes(current, previous) == [] <==> SameFacts(current, previous)
  {
    hide WellFormed, Changes;
    var changes := Changes(current, previous);
    ChangesReportFacts(current, previous);
    assert changes != [] ==> changes[0] in changes;
    if SameFacts(current, previous) {
      SameMembers(current, previous);
      forall c ensures c !in changes {
        match c
        case Deleted(Parent(p)) => assert p in previous.parents <==> p in current.parents;
        case Upserted(Parent(p)) => assert p in previous.parents <==> p in current.parents;
        case Deleted(Group(g)) => assert g in previous.groups <==> g in current.groups;
        case Upserted(Group(g)) => assert g in previous.groups <==> g in current.groups;
        case Deleted(Binding(b)) => assert b in previous.bindings <==> b in current.bindings;
        case Upserted(Binding(b)) => assert b in previous.bindings <==> b in current.bindings;
      }
    }
    if changes == [] {
      forall p ensures p in current.parents <==> p in previous.parents {
        assert Deleted(Parent(p)) !in changes && Upserted(Parent(p)) !in changes;
      }
      forall g ensures g in current.groups <==> g in previous.groups {
        assert Deleted(Group(g)) !in changes && Upserted(Group(g)) !in changes;
      }
      forall b ensures b in current.bindings <==> b in previous.bindings {
        assert Deleted(Binding(b)) !in changes && Upserted(Binding(b)) !in changes;
      }
    }
  }

  lemma SameMembers(a: Relations, b: Relations)
    requires SameFacts(a, b)
    ensures forall p :: p in a.parents <==> p in b.parents
    ensures forall g :: g in a.groups <==> g in b.groups
    ensures forall c :: c in a.bindings <==> c in b.bindings
  {
    forall p ensures p in a.parents <==> p in b.parents {
      assert p in Elements(a.parents) <==> p in Elements(b.parents);
    }
    forall g ensures g in a.groups <==> g in b.groups {
      assert g in Elements(a.groups) <==> g in Elements(b.groups);
    }
    forall c ensures c in a.bindings <==> c in b.bindings {
      assert c in Elements(a.bindings) <==> c in Elements(b.bindings);
    }
  }

  method RelationChanges(current: Relations, previous: Relations) returns (changes: seq<RelationChange>)
    ensures changes == Changes(current, previous)
    ensures WellFormed(current) && WellFormed(previous) ==>
              && ReportsFacts(changes, current, previous)
              && ReportsInOrder(changes, current, previous)
              && (changes == [] <==> SameFacts(current, previous))
  {
    hide *;
    changes := ListChanges(current, previous);
    if WellFormed(current) && WellFormed(previous) {
      ChangesReportFacts(current, previous);
      ChangesInOrder(current, previous);
      NoChangesIff(current, previous);
    }
  }

  method ListChanges(current: Relations, previous: Relations) returns (changes: seq<RelationChange>)
    ensures changes == Changes(current, previous)
  {
    hide Filter, Map, ParentGone, GroupGone, BindingGone;
    changes := AppendChanges([], previous.parents, ParentGone(current), DeletedParent);
    changes := AppendChanges(changes, current.parents, ParentGone(previous), UpsertedParent);
    changes := AppendChanges(changes, previous.groups, GroupGone(current), DeletedGroup);
    changes := AppendChanges(changes, current.groups, GroupGone(previous), UpsertedGroup);
    changes := AppendChanges(changes, previous.bindings, BindingGone(current), DeletedBinding);
    changes := AppendChanges(changes, current.bindings, BindingGone(previous), UpsertedBinding);
  }

  /** Turned into commands, the reported changes are the commands that the replay is about. */
  lemma ChangesAsCommands(target: Relations, previous: Relations)
    ensures AsCommands(Changes(target, previous)) == RelationCommands(target, previous)
  {
    hide Filter, ParentGone, GroupGone, BindingGone, Map, AsCommands, ChangeToCommand;
    var p, q := Filter(previous.parents, ParentGone(target)), Filter(target.parents, ParentGone(previous));
    var g, h := Filter(previous.groups, GroupGone(target)), Filter(target.groups, GroupGone(previous));
    var b, c := Filter(previous.bindings, BindingGone(target)), Filter(target.bindings, BindingGone(previous));
    SixAsCommands(p, q, g, h, b, c);
    JoinParts(Map(ClearCommand, p), Map(SetCommand, q), Map(LeaveCommand, g), Map(JoinCommand, h),
      Map(UnbindCommand, b), Map(BindCommand, c));
  }

  lemma SixAsCommands(p: seq<ParentRelation>, q: seq<ParentRelation>, g: seq<GroupRelation>, h: seq<GroupRelation>,
                      b: seq<BindingRelation>, c: seq<BindingRelation>)
    ensures AsCommands(Map(DeletedParent, p) + Map(UpsertedParent, q) + Map(DeletedGroup, g) +
                       Map(UpsertedGroup, h) + Map(DeletedBinding, b) + Map(UpsertedBinding, c)) ==
            Map(ClearCommand, p) + Map(SetCommand, q) + Map(LeaveCommand, g) + Map(JoinCommand, h) +
              Map(UnbindCommand, b) + Map(BindCommand, c)
  {
    hide *;
    ParentChangesAsCommands(p, q);
    GroupChangesAsCommands(g, h);
    BindingChangesAsCommands(b, c);
    MapSix(Map(DeletedParent, p), Map(UpsertedParent, q), Map(DeletedGroup, g), Map(UpsertedGroup, h),
      Map(DeletedBinding, b), Map(UpsertedBinding, c));
  }

  lemma ParentChangesAsCommands(gone: seq<ParentRelation>, come: seq<ParentRelation>)
    ensures AsCommands(Map(DeletedParent, gone)) == Map(ClearCommand, gone) &&
            AsCommands(Map(UpsertedParent, come)) == Map(SetCommand, come)
  {
    WrapThenCommand(gone, DeletedParent, ClearCommand);
    WrapThenCommand(come, UpsertedParent, SetCommand);
  }

  lemma GroupChangesAsCommands(gone: seq<GroupRelation>, come: seq<GroupRelation>)
    ensures AsCommands(Map(DeletedGroup, gone)) == Map(LeaveCommand, gone) &&
            AsCommands(Map(UpsertedGroup, come)) == Map(JoinCommand, come)
  {
    WrapThenCommand(gone, DeletedGroup, LeaveCommand);
    WrapThenCommand(come, UpsertedGroup, JoinCommand);
  }

  lemma BindingChangesAsCommands(gone: seq<BindingRelation>, come: seq<BindingRelation>)
    ensures AsCommands(Map(DeletedBinding, gone)) == Map(UnbindCommand, gone) &&
            AsCommands(Map(UpsertedBinding, come)) == Map(BindCommand, come)
  {
    WrapThenCommand(gone, DeletedBinding, UnbindCommand);
    WrapThenCommand(come, UpsertedBinding, BindCommand);
  }

  lemma WrapThenCommand<T(!new)>(s: seq<T>, wrap: T -> RelationChange, command: T -> Command)
    requires forall x :: ChangeToCommand(wrap(x)) == command(x)
    ensures AsCommands(Map(wrap, s)) == Map(command, s)
  {
  }

  lemma MapSix(a: seq<RelationChange>, b: seq<RelationChange>, c: seq<RelationChange>,
               d: seq<RelationChange>, e: seq<RelationChange>, f: seq<RelationChange>)
    ensures AsCommands(a + b + c + d + e + f) ==
            AsCommands(a) + AsCommands(b) + AsCommands(c) + AsCommands(d) + AsCommands(e) + AsCommands(f)
  {
    MapConcat(ChangeToCommand, a, b);
    MapConcat(ChangeToCommand, a + b, c);
    MapConcat(ChangeToCommand, a + b + c, d);
    MapConcat(ChangeToCommand, a + b + c + d, e);
    MapConcat(ChangeToCommand, a + b + c + d + e, f);
  }

  lemma JoinParts(a: seq<Command>, b: seq<Command>, c: seq<Command>, d: seq<Command>, e: seq<Command>, f: seq<Command>)
    ensures a + b + c + d + e + f == (a + b) + ((c + d) + (e + f))
  {
  }
}
