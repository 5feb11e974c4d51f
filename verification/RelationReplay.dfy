/** Relation changes between two states, the commands they turn into, and what replaying them gives. */
module RelationReplay {
  import opened Prelude
  import opened KeyedLists
  import opened Records
  import opened RelationSets
  import opened RelationValidation
  import opened Commands

  // A relation of one state that the other state does not have.

  function ParentGone(other: Relations): ParentRelation -> bool {
    (p: ParentRelation) => ParentOf(other, p.child) != Some(p.parent)
  }

  function GroupGone(other: Relations): GroupRelation -> bool {
    (g: GroupRelation) => !HasMember(other, g.group, g.member)
  }

  function BindingGone(other: Relations): BindingRelation -> bool {
    (b: BindingRelation) => BindingOf(other, b.id) != Some(b)
  }

  // The commands.

  function ClearCommand(p: ParentRelation): Command { ClearRecordParent(p.child) }
  function SetCommand(p: ParentRelation): Command { SetRecordParent(p.child, p.parent) }
  function LeaveCommand(g: GroupRelation): Command { RemoveRecordFromGroup(g.group, g.member) }
  function JoinCommand(g: GroupRelation): Command { AddRecordToGroup(g.group, g.member) }
  function UnbindCommand(b: BindingRelation): Command { RemoveRecordBinding(b.id) }
  function BindCommand(b: BindingRelation): Command { SetRecordBinding(b) }

  function ParentCommands(target: Relations, previous: Relations): seq<Command> {
    Map(ClearCommand, Filter(previous.parents, ParentGone(target))) +
    Map(SetCommand, Filter(target.parents, ParentGone(previous)))
  }

  function GroupCommands(target: Relations, previous: Relations): seq<Command> {
    Map(LeaveCommand, Filter(previous.groups, GroupGone(target))) +
    Map(JoinCommand, Filter(target.groups, GroupGone(previous)))
  }

  function BindingCommands(target: Relations, previous: Relations): seq<Command> {
    Map(UnbindCommand, Filter(previous.bindings, BindingGone(target))) +
    Map(BindCommand, Filter(target.bindings, BindingGone(previous)))
  }

  function RelationCommands(target: Relations, previous: Relations): seq<Command> {
    ParentCommands(target, previous) + (GroupCommands(target, previous) + BindingCommands(target, previous))
  }

  /** On well-formed lists a relation is gone exactly when the other state does not hold the same fact. */
  lemma GoneIff(other: Relations)
    requires WellFormed(other)
    ensures forall p :: ParentGone(other)(p) <==> p !in other.parents
    ensures forall g :: GroupGone(other)(g) <==> g !in other.groups
    ensures forall b :: BindingGone(other)(b) <==> b !in other.bindings
  {
    forall p ensures ParentGone(other)(p) <==> p !in other.parents {
      LookupMember(other.parents, ChildKey, p);
      var found := Lookup(other.parents, ChildKey, p.child);
      assert found.Some? && found.value.parent == p.parent ==> found.value == p;
    }
    forall b ensures BindingGone(other)(b) <==> b !in other.bindings {
      LookupMember(other.bindings, BindingKey, b);
    }
  }

  // What each stretch of commands does.

  lemma {:induction false} ClearAll(d: Document, ps: seq<ParentRelation>) returns (r: Relations)
    requires WellFormed(d.relations)
    ensures ApplyAll(d, Map(ClearCommand, ps)) == Ok(d.(relations := r))
    ensures WellFormed(r) && r == d.relations.(parents := r.parents)
    ensures forall c :: ParentOf(r, c) == if Lookup(ps, ChildKey, c).Some? then None else ParentOf(d.relations, c)
    decreases ps
  {
    r := d.relations;
    if ps != [] {
      var r1 := WithoutParent(r, ps[0].child);
      ClearParentFacts(d.relations, ps[0].child, ps[0].child);
      forall c ensures ParentOf(r1, c) == if c == ps[0].child then None else ParentOf(d.relations, c) {
        ClearParentFacts(d.relations, ps[0].child, c);
      }
      r := ClearAll(d.(relations := r1), ps[1..]);
      FirstCommand(d, ClearCommand, ps);
    }
  }

  lemma {:induction false} SetAll(d: Document, ps: seq<ParentRelation>) returns (r: Relations)
    requires WellFormed(d.relations) && Unique(ps, ChildKey) && ParentsSound(d, ps)
    ensures ApplyAll(d, Map(SetCommand, ps)) == Ok(d.(relations := r))
    ensures WellFormed(r) && r == d.relations.(parents := r.parents)
    ensures forall c :: ParentOf(r, c) ==
                        if Lookup(ps, ChildKey, c).Some? then Some(Lookup(ps, ChildKey, c).value.parent)
                          else ParentOf(d.relations, c)
    decreases ps
  {
    r := d.relations;
    if ps != [] {
      hide WellFormed, Map, ApplyAll, Apply, Lookup, Unique, ParentOf;
      UniqueTail(ps, ChildKey);
      assert ps[0] in ps && forall p :: p in ps[1..] ==> p in ps;
      var r1 := SetOne(d, ps[0]);
      FirstCommand(d, SetCommand, ps);
      r := SetAll(d.(relations := r1), ps[1..]);
      forall c ensures ParentOf(r, c) ==
                       if Lookup(ps, ChildKey, c).Some? then Some(Lookup(ps, ChildKey, c).value.parent)
                         else ParentOf(d.relations, c)
      {
        LookupCons(ps, ChildKey, c);
      }
    }
  }

  lemma SetOne(d: Document, p: ParentRelation) returns (r: Relations)
    requires WellFormed(d.relations) && p.child != p.parent && d.Contains(p.child) && d.Contains(p.parent)
    ensures Apply(d, SetCommand(p)) == Ok(d.(relations := r)) && WellFormed(r) &&
            r == d.relations.(parents := r.parents)
    ensures forall c :: ParentOf(r, c) == if c == p.child then Some(p.parent) else ParentOf(d.relations, c)
  {
    hide WellFormed, ParentOf;
    r := WithParent(d.relations, p.child, p.parent);
    SetParentFacts(d.relations, p.child, p.parent, p.child);
    forall c ensures ParentOf(r, c) == if c == p.child then Some(p.parent) else ParentOf(d.relations, c) {
      SetParentFacts(d.relations, p.child, p.parent, c);
    }
  }

  lemma {:induction false} LeaveAll(d: Document, gs: seq<GroupRelation>) returns (r: Relations)
    requires WellFormed(d.relations)
    ensures ApplyAll(d, Map(LeaveCommand, gs)) == Ok(d.(relations := r))
    ensures WellFormed(r) && r == d.relations.(groups := r.groups)
    ensures forall g, m :: HasMember(r, g, m) <==> HasMember(d.relations, g, m) && GroupRelation(g, m) !in gs
    decreases gs
  {
    r := d.relations;
    if gs != [] {
      var r1 := WithoutMember(r, gs[0].group, gs[0].member);
      RemoveMemberFacts(d.relations, gs[0].group, gs[0].member, gs[0].group, gs[0].member);
      forall g, m ensures HasMember(r1, g, m) <==> HasMember(d.relations, g, m) && GroupRelation(g, m) != gs[0] {
        RemoveMemberFacts(d.relations, gs[0].group, gs[0].member, g, m);
      }
      r := LeaveAll(d.(relations := r1), gs[1..]);
      FirstCommand(d, LeaveCommand, gs);
      assert forall g :: g in gs <==> g == gs[0] || g in gs[1..];
    }
  }

  lemma {:induction false} JoinAll(d: Document, gs: seq<GroupRelation>) returns (r: Relations)
    requires WellFormed(d.relations) && GroupsSound(d, gs)
    ensures ApplyAll(d, Map(JoinCommand, gs)) == Ok(d.(relations := r))
    ensures WellFormed(r) && r == d.relations.(groups := r.groups)
    ensures forall g, m :: HasMember(r, g, m) <==> HasMember(d.relations, g, m) || GroupRelation(g, m) in gs
    decreases gs
  {
    r := d.relations;
    if gs != [] {
      assert gs[0] in gs;
      var r1 := WithMember(r, gs[0].group, gs[0].member);
      AddMemberFacts(d.relations, gs[0].group, gs[0].member, gs[0].group, gs[0].member);
      forall g, m ensures HasMember(r1, g, m) <==> HasMember(d.relations, g, m) || GroupRelation(g, m) == gs[0] {
        AddMemberFacts(d.relations, gs[0].group, gs[0].member, g, m);
      }
      r := JoinAll(d.(relations := r1), gs[1..]);
      FirstCommand(d, JoinCommand, gs);
      assert forall g :: g in gs <==> g == gs[0] || g in gs[1..];
    }
  }

  lemma {:induction false} UnbindAll(d: Document, bs: seq<BindingRelation>) returns (r: Relations)
    requires WellFormed(d.relations)
    ensures ApplyAll(d, Map(UnbindCommand, bs)) == Ok(d.(relations := r))
    ensures WellFormed(r) && r == d.relations.(bindings := r.bindings)
    ensures forall i :: BindingOf(r, i) == if Lookup(bs, BindingKey, i).Some? then None else BindingOf(d.relations, i)
    decreases bs
  {
    r := d.relations;
    if bs != [] {
      var r1 := WithoutBinding(r, bs[0].id);
      RemoveBindingFacts(d.relations, bs[0].id, bs[0].id);
      forall i ensures BindingOf(r1, i) == if i == bs[0].id then None else BindingOf(d.relations, i) {
        RemoveBindingFacts(d.relations, bs[0].id, i);
      }
      r := UnbindAll(d.(relations := r1), bs[1..]);
      FirstCommand(d, UnbindCommand, bs);
    }
  }

  lemma {:induction false} BindAll(d: Document, bs: seq<BindingRelation>) returns (r: Relations)
    requires WellFormed(d.relations) && Unique(bs, BindingKey) && BindingsSound(d, bs)
    ensures ApplyAll(d, Map(BindCommand, bs)) == Ok(d.(relations := r))
    ensures WellFormed(r) && r == d.relations.(bindings := r.bindings)
    ensures forall i :: BindingOf(r, i) ==
                        if Lookup(bs, BindingKey, i).Some? then Lookup(bs, BindingKey, i) else BindingOf(d.relations, i)
    decreases bs
  {
    r := d.relations;
    if bs != [] {
      BindingsSoundTail(d, bs);
      hide *;
      UniqueTail(bs, BindingKey);
      var r1 := BindOne(d, bs[0]);
      BindingsSoundIn(d, d.(relations := r1), bs[1..]);
      FirstCommand(d, BindCommand, bs);
      r := BindAll(d.(relations := r1), bs[1..]);
      forall i ensures BindingOf(r, i) ==
                       if Lookup(bs, BindingKey, i).Some? then Lookup(bs, BindingKey, i) else BindingOf(d.relations, i)
      {
        LookupCons(bs, BindingKey, i);
        KeyOfBinding(bs[0]);
      }
    }
  }

  lemma KeyOfBinding(b: BindingRelation)
    ensures BindingKey(b) == b.id
  {
  }

  lemma BindingsSoundTail(d: Document, bs: seq<BindingRelation>)
    requires BindingsSound(d, bs) && bs != []
    ensures BindingsSound(d, bs[1..])
    ensures d.Contains(bs[0].source) && d.Contains(bs[0].target) && bs[0].source != bs[0].target
  {
    assert bs[0] in bs && forall b :: b in bs[1..] ==> b in bs;
  }

  lemma BindingsSoundIn(d: Document, next: Document, bs: seq<BindingRelation>)
    requires BindingsSound(d, bs) && next == d.(relations := next.relations)
    ensures BindingsSound(next, bs)
  {
  }

  lemma BindOne(d: Document, b: BindingRelation) returns (r: Relations)
    requires WellFormed(d.relations) && b.source != b.target && d.Contains(b.source) && d.Contains(b.target)
    ensures Apply(d, BindCommand(b)) == Ok(d.(relations := r)) && WellFormed(r) &&
            r == d.relations.(bindings := r.bindings)
    ensures forall i :: BindingOf(r, i) == if i == b.id then Some(b) else BindingOf(d.relations, i)
  {
    hide WellFormed, BindingOf;
    r := WithBinding(d.relations, b);
    SetBindingFacts(d.relations, b, b.id);
    forall i ensures BindingOf(r, i) == if i == b.id then Some(b) else BindingOf(d.relations, i) {
      SetBindingFacts(d.relations, b, i);
    }
  }

  lemma FirstCommand<T>(d: Document, command: T -> Command, s: seq<T>)
    requires s != []
    ensures ApplyAll(d, Map(command, s)) ==
            (match Apply(d, command(s[0])) case Ok(next) => ApplyAll(next, Map(command, s[1..])) case Err(e) => Err(e))
  {
    assert Map(command, s)[1..] == Map(command, s[1..]);
  }

  // The three kinds of relation, replayed.  The commands are derived from what a pruning would
  // leave of the relations, and are applied to the relations before that pruning.

  lemma ReplayParents(d: Document, target: Relations, ok: RecordId -> bool) returns (r: Relations)
    requires WellFormed(d.relations) && WellFormed(target) && ParentsSound(d, target.parents)
    requires forall p :: p in target.parents ==> ok(p.child) && ok(p.parent)
    ensures ApplyAll(d, ParentCommands(target, Prune(d.relations, ok))) == Ok(d.(relations := r))
    ensures WellFormed(r) && r == d.relations.(parents := r.parents)
    ensures forall c :: ParentOf(Prune(r, ok), c) == ParentOf(target, c)
  {
    hide Filter, Map, ApplyAll, Apply;
    var base := Prune(d.relations, ok);
    var gone := Filter(base.parents, ParentGone(target));
    var come := Filter(target.parents, ParentGone(base));
    FilterUnique(target.parents, ChildKey, ParentGone(base));
    FilterMembers(target.parents, ParentGone(base));
    var r1 := ClearAll(d, gone);
    r := SetAll(d.(relations := r1), come);
    ApplyConcat(d, Map(ClearCommand, gone), Map(SetCommand, come));
    forall c ensures ParentOf(Prune(r, ok), c) == ParentOf(target, c) {
      ParentReplayed(d.relations, target, r, ok, c);
    }
  }

  /** The parent of `c` after the changes between the pruned relations and the target. */
  lemma ParentReplayed(before: Relations, target: Relations, after: Relations, ok: RecordId -> bool, c: RecordId)
    requires WellFormed(before) && WellFormed(target) && WellFormed(after)
    requires forall p :: p in target.parents ==> ok(p.child) && ok(p.parent)
    requires var come := Lookup(Filter(target.parents, ParentGone(Prune(before, ok))), ChildKey, c);
             ParentOf(after, c) ==
             if come.Some? then Some(come.value.parent)
             else if Lookup(Filter(Prune(before, ok).parents, ParentGone(target)), ChildKey, c).Some? then None
             else ParentOf(before, c)
    ensures ParentOf(Prune(after, ok), c) == ParentOf(target, c)
  {
    hide Filter;
    var base := Prune(before, ok);
    FilterLookup(before.parents, ChildKey, ParentKept(ok), c);
    FilterLookup(base.parents, ChildKey, ParentGone(target), c);
    FilterLookup(target.parents, ChildKey, ParentGone(base), c);
    FilterLookup(after.parents, ChildKey, ParentKept(ok), c);
  }

  lemma ReplayGroups(d: Document, target: Relations, ok: RecordId -> bool) returns (r: Relations)
    requires WellFormed(d.relations) && WellFormed(target) && GroupsSound(d, target.groups)
    requires forall g :: g in target.groups ==> ok(g.group) && ok(g.member)
    ensures ApplyAll(d, GroupCommands(target, Prune(d.relations, ok))) == Ok(d.(relations := r))
    ensures WellFormed(r) && r == d.relations.(groups := r.groups)
    ensures forall g, m :: HasMember(Prune(r, ok), g, m) == HasMember(target, g, m)
  {
    hide Filter, Map, ApplyAll, Apply;
    var base := Prune(d.relations, ok);
    var gone := Filter(base.groups, GroupGone(target));
    var come := Filter(target.groups, GroupGone(base));
    FilterMembers(base.groups, GroupGone(target));
    FilterMembers(target.groups, GroupGone(base));
    var r1 := LeaveAll(d, gone);
    r := JoinAll(d.(relations := r1), come);
    ApplyConcat(d, Map(LeaveCommand, gone), Map(JoinCommand, come));
    forall g, m ensures HasMember(Prune(r, ok), g, m) == HasMember(target, g, m) {
      FilterMember(d.relations.groups, GroupKept(ok), GroupRelation(g, m));
      FilterMember(r.groups, GroupKept(ok), GroupRelation(g, m));
    }
  }

  lemma ReplayBindings(d: Document, target: Relations, ok: RecordId -> bool) returns (r: Relations)
    requires WellFormed(d.relations) && WellFormed(target) && BindingsSound(d, target.bindings)
    requires forall b :: b in target.bindings ==> ok(b.source) && ok(b.target)
    ensures ApplyAll(d, BindingCommands(target, Prune(d.relations, ok))) == Ok(d.(relations := r))
    ensures WellFormed(r) && r == d.relations.(bindings := r.bindings)
    ensures forall i :: BindingOf(Prune(r, ok), i) == BindingOf(target, i)
  {
    hide Filter, Map, ApplyAll, Apply;
    var base := Prune(d.relations, ok);
    var gone := Filter(base.bindings, BindingGone(target));
    var come := Filter(target.bindings, BindingGone(base));
    FilterUnique(target.bindings, BindingKey, BindingGone(base));
    FilterMembers(target.bindings, BindingGone(base));
    var r1 := UnbindAll(d, gone);
    r := BindAll(d.(relations := r1), come);
    ApplyConcat(d, Map(UnbindCommand, gone), Map(BindCommand, come));
    forall i ensures BindingOf(Prune(r, ok), i) == BindingOf(target, i) {
      BindingReplayed(d.relations, target, r, ok, i);
    }
  }

  lemma BindingReplayed(before: Relations, target: Relations, after: Relations, ok: RecordId -> bool, i: BindingId)
    requires WellFormed(before) && WellFormed(target) && WellFormed(after)
    requires forall b :: b in target.bindings ==> ok(b.source) && ok(b.target)
    requires var come := Lookup(Filter(target.bindings, BindingGone(Prune(before, ok))), BindingKey, i);
             BindingOf(after, i) ==
             if come.Some? then come
             else if Lookup(Filter(Prune(before, ok).bindings, BindingGone(target)), BindingKey, i).Some? then None
             else BindingOf(before, i)
    ensures BindingOf(Prune(after, ok), i) == BindingOf(target, i)
  {
    hide Filter;
    var base := Prune(before, ok);
    FilterLookup(before.bindings, BindingKey, BindingKept(ok), i);
    FilterLookup(base.bindings, BindingKey, BindingGone(target), i);
    FilterLookup(target.bindings, BindingKey, BindingGone(base), i);
    FilterLookup(after.bindings, BindingKey, BindingKept(ok), i);
  }

  ghost predicate WithinScope(r: Relations, ok: RecordId -> bool) {
    && (forall p :: p in r.parents ==> ok(p.child) && ok(p.parent))
    && (forall g :: g in r.groups ==> ok(g.group) && ok(g.member))
    && (forall b :: b in r.bindings ==> ok(b.source) && ok(b.target))
  }

  lemma ReplayReachesPruned(d: Document, target: Relations, ok: RecordId -> bool) returns (r: Relations)
    requires WellFormed(d.relations) && WellFormed(target) && WithinScope(target, ok)
    requires ParentsSound(d, target.parents) && GroupsSound(d, target.groups) && BindingsSound(d, target.bindings)
    ensures ApplyAll(d, RelationCommands(target, Prune(d.relations, ok))) == Ok(d.(relations := r))
    ensures WellFormed(r) && WellFormed(Prune(r, ok)) && SameFacts(Prune(r, ok), target)
  {
    hide Filter, Map, ApplyAll, Apply;
    var base := Prune(d.relations, ok);
    var r1 := ReplayParents(d, target, ok);
    var d1 := d.(relations := r1);
    assert GroupCommands(target, Prune(r1, ok)) == GroupCommands(target, base) by {
      FilterAgree(target.groups, GroupGone(Prune(r1, ok)), GroupGone(base));
    }
    var r2 := ReplayGroups(d1, target, ok);
    var d2 := d1.(relations := r2);
    assert BindingCommands(target, Prune(r2, ok)) == BindingCommands(target, base) by {
      FilterAgree(target.bindings, BindingGone(Prune(r2, ok)), BindingGone(base));
    }
    r := ReplayBindings(d2, target, ok);
    ApplyConcat(d1, GroupCommands(target, base), BindingCommands(target, base));
    ApplyConcat(d, ParentCommands(target, base), GroupCommands(target, base) + BindingCommands(target, base));
    PruneFacts(r, ok);
    AnswersAgree(Prune(r, ok), Prune(r1, ok), Prune(r2, ok), target);
    SameAnswers(Prune(r, ok), target);
  }

  lemma AnswersAgree(r: Relations, r1: Relations, r2: Relations, target: Relations)
    requires r2 == r1.(groups := r2.groups) && r == r2.(bindings := r.bindings)
    requires forall c :: ParentOf(r1, c) == ParentOf(target, c)
    requires forall g, m :: HasMember(r2, g, m) == HasMember(target, g, m)
    ensures forall c :: ParentOf(r, c) == ParentOf(target, c)
    ensures forall g, m :: HasMember(r, g, m) == HasMember(target, g, m)
  {
    forall c ensures ParentOf(r, c) == ParentOf(target, c) {
      assert ParentOf(r, c) == ParentOf(r1, c);
    }
    forall g, m ensures HasMember(r, g, m) == HasMember(target, g, m) {
      assert HasMember(r, g, m) == HasMember(r2, g, m);
    }
  }

  /**
   * For any two well-formed relation sets over existing records, the derived commands all apply
   * and lead from one to the other.
   */
  lemma ReplayReachesTarget(d: Document, target: Relations) returns (r: Relations)
    requires WellFormed(d.relations) && WellFormed(target)
    requires ParentsSound(d, target.parents) && GroupsSound(d, target.groups) && BindingsSound(d, target.bindings)
    ensures ApplyAll(d, RelationCommands(target, d.relations)) == Ok(d.(relations := r))
    ensures WellFormed(r) && SameFacts(r, target) && SameRelations(r, target)
  {
    var all := (x: RecordId) => true;
    PruneNothing(d.relations, all);
    r := ReplayReachesPruned(d, target, all);
    PruneNothing(r, all);
    EqualityIsSameFacts(r, target);
  }
}
