/** Undoing an accepted transaction from any document equal to the one it left. */
module Histories {
  import opened Prelude
  import opened KeyedLists
  import opened Records
  import opened RelationSets
  import opened RelationValidation
  import opened Commands
  import opened RelationReplay
  import opened Mutations
  import opened Journal
  import opened Acceptance

  // Equal documents: the same records and relations in any order.

  ghost predicate Same(x: Document, y: Document) {
    x.SameRecords(y) && x.metadata == y.metadata && SameFacts(x.relations, y.relations)
  }

  ghost predicate Kept(x: Document) {
    RecordsSound(x) && WellFormed(x.relations)
  }

  ghost predicate SameAnswersIn(a: Relations, b: Relations) {
    && (forall c :: ParentOf(a, c) == ParentOf(b, c))
    && (forall g, m :: HasMember(a, g, m) == HasMember(b, g, m))
    && (forall i :: BindingOf(a, i) == BindingOf(b, i))
  }

  lemma SameFactsIff(a: Relations, b: Relations)
    requires WellFormed(a) && WellFormed(b)
    ensures SameFacts(a, b) <==> SameAnswersIn(a, b)
  {
    if SameFacts(a, b) {
      forall c ensures ParentOf(a, c) == ParentOf(b, c) {
        SameLookup(a.parents, b.parents, ChildKey, c);
      }
      forall i ensures BindingOf(a, i) == BindingOf(b, i) {
        SameLookup(a.bindings, b.bindings, BindingKey, i);
      }
      forall g, m ensures HasMember(a, g, m) == HasMember(b, g, m) {
        assert GroupRelation(g, m) in Elements(a.groups) <==> GroupRelation(g, m) in Elements(b.groups);
      }
    }
    if SameAnswersIn(a, b) {
      SameAnswers(a, b);
    }
  }

  // Commands act alike on equal documents.

  lemma ParentCommandSame(x: Document, y: Document, c: Command)
    requires Kept(x) && Kept(y) && Same(x, y) && (c.SetRecordParent? || c.ClearRecordParent?)
    ensures Apply(x, c).Ok? <==> Apply(y, c).Ok?
    ensures Apply(x, c).Ok? ==> Same(Apply(x, c).value, Apply(y, c).value)
  {
    hide RecordsSound, WellFormed, SameFacts;
    SameContents(x, y);
    SameFactsIff(x.relations, y.relations);
    if Apply(x, c).Ok? {
      var a, b := Apply(x, c).value.relations, Apply(y, c).value.relations;
      RelationCommandKeepsWellFormed(x, c);
      RelationCommandKeepsWellFormed(y, c);
      forall k ensures ParentOf(a, k) == ParentOf(b, k) {
        if c.SetRecordParent? {
          SetParentFacts(x.relations, c.child, c.parent, k);
          SetParentFacts(y.relations, c.child, c.parent, k);
        } else {
          ClearParentFacts(x.relations, c.child, k);
          ClearParentFacts(y.relations, c.child, k);
        }
      }
      assert forall g, m :: (HasMember(a, g, m) == HasMember(x.relations, g, m)) &&
                            (HasMember(b, g, m) == HasMember(y.relations, g, m));
      assert forall i :: BindingOf(a, i) == BindingOf(x.relations, i) && BindingOf(b, i) == BindingOf(y.relations, i);
      SameFactsIff(a, b);
    }
  }

  lemma GroupCommandSame(x: Document, y: Document, c: Command)
    requires Kept(x) && Kept(y) && Same(x, y) && (c.AddRecordToGroup? || c.RemoveRecordFromGroup?)
    ensures Apply(x, c).Ok? <==> Apply(y, c).Ok?
    ensures Apply(x, c).Ok? ==> Same(Apply(x, c).value, Apply(y, c).value)
  {
    hide RecordsSound, WellFormed, SameFacts;
    SameContents(x, y);
    SameFactsIff(x.relations, y.relations);
    if Apply(x, c).Ok? {
      var a, b := Apply(x, c).value.relations, Apply(y, c).value.relations;
      RelationCommandKeepsWellFormed(x, c);
      RelationCommandKeepsWellFormed(y, c);
      forall g, m ensures HasMember(a, g, m) == HasMember(b, g, m) {
        if c.AddRecordToGroup? {
          AddMemberFacts(x.relations, c.group, c.member, g, m);
          AddMemberFacts(y.relations, c.group, c.member, g, m);
        } else {
          RemoveMemberFacts(x.relations, c.group, c.member, g, m);
          RemoveMemberFacts(y.relations, c.group, c.member, g, m);
        }
      }
      assert forall k :: ParentOf(a, k) == ParentOf(x.relations, k) && ParentOf(b, k) == ParentOf(y.relations, k);
      assert forall i :: BindingOf(a, i) == BindingOf(x.relations, i) && BindingOf(b, i) == BindingOf(y.relations, i);
      SameFactsIff(a, b);
    }
  }

  lemma BindingCommandSame(x: Document, y: Document, c: Command)
    requires Kept(x) && Kept(y) && Same(x, y) && (c.SetRecordBinding? || c.RemoveRecordBinding?)
    ensures Apply(x, c).Ok? <==> Apply(y, c).Ok?
    ensures Apply(x, c).Ok? ==> Same(Apply(x, c).value, Apply(y, c).value)
  {
    hide RecordsSound, WellFormed, SameFacts;
    SameContents(x, y);
    SameFactsIff(x.relations, y.relations);
    if Apply(x, c).Ok? {
      var a, b := Apply(x, c).value.relations, Apply(y, c).value.relations;
      RelationCommandKeepsWellFormed(x, c);
      RelationCommandKeepsWellFormed(y, c);
      forall i ensures BindingOf(a, i) == BindingOf(b, i) {
        if c.SetRecordBinding? {
          SetBindingFacts(x.relations, c.binding, i);
          SetBindingFacts(y.relations, c.binding, i);
        } else {
          RemoveBindingFacts(x.relations, c.bindingId, i);
          RemoveBindingFacts(y.relations, c.bindingId, i);
        }
      }
      assert forall k :: ParentOf(a, k) == ParentOf(x.relations, k) && ParentOf(b, k) == ParentOf(y.relations, k);
      assert forall g, m :: (HasMember(a, g, m) == HasMember(x.relations, g, m)) &&
                            (HasMember(b, g, m) == HasMember(y.relations, g, m));
      SameFactsIff(a, b);
    }
  }

  lemma SoundBySame(x: Document, y: Document)
    requires Sound(x) && Same(x, y) && WellFormed(y.relations) && y.nodes.Valid() && y.edges.Valid() && y.shapes.Valid()
    ensures Sound(y)
  {
    hide RecordsSound, RelationsSound, WellFormed, SameFacts;
    RecordsSoundBySame(x, y);
    SoundBySameFacts(x, y);
  }

  lemma UpdateNodeSame(x: Document, y: Document, node: Node)
    requires Kept(x) && Kept(y) && Same(x, y)
    ensures Apply(x, UpdateNode(node)).Ok? <==> Apply(y, UpdateNode(node)).Ok?
    ensures Apply(x, UpdateNode(node)).Ok? ==> Same(Apply(x, UpdateNode(node)).value, Apply(y, UpdateNode(node)).value)
  {
    assert x.Filed() && y.Filed();
    hide RecordsSound, RelationsSound, WellFormed, SameFacts, ValidateNode, ValidateIntegrity;
    if x.nodes.Has(node.id) && ValidateNode(node).Ok? {
      var a, b := x.(nodes := x.nodes.Insert(node.id, node)), y.(nodes := y.nodes.Insert(node.id, node));
      UpdateDraft(x, node);
      UpdateDraft(y, node);
      if Sound(a) {
        SoundBySame(a, b);
      }
      if Sound(b) {
        SoundBySame(b, a);
      }
    }
  }

  lemma RecordCommandSame(x: Document, y: Document, c: Command)
    requires Kept(x) && Kept(y) && Same(x, y) && !IsRelationCommand(c) && !c.UpdateNode?
    ensures Apply(x, c).Ok? <==> Apply(y, c).Ok?
    ensures Apply(x, c).Ok? ==> Same(Apply(x, c).value, Apply(y, c).value)
  {
    hide RecordsSound, WellFormed, SameFacts, ValidateNode, ValidateEdge;
  }

  lemma ApplySame(x: Document, y: Document, c: Command)
    requires Kept(x) && Kept(y) && Same(x, y)
    ensures Apply(x, c).Ok? <==> Apply(y, c).Ok?
    ensures Apply(x, c).Ok? ==> Same(Apply(x, c).value, Apply(y, c).value)
  {
    hide Apply, Kept, Same;
    if c.SetRecordParent? || c.ClearRecordParent? {
      ParentCommandSame(x, y, c);
    } else if c.AddRecordToGroup? || c.RemoveRecordFromGroup? {
      GroupCommandSame(x, y, c);
    } else if c.SetRecordBinding? || c.RemoveRecordBinding? {
      BindingCommandSame(x, y, c);
    } else if c.UpdateNode? {
      UpdateNodeSame(x, y, c.node);
    } else {
      RecordCommandSame(x, y, c);
    }
  }

  lemma {:induction false} ApplyAllSame(x: Document, y: Document, cs: seq<Command>)
    requires Kept(x) && Kept(y) && Same(x, y)
    ensures ApplyAll(x, cs).Ok? <==> ApplyAll(y, cs).Ok?
    ensures ApplyAll(x, cs).Ok? ==> Same(ApplyAll(x, cs).value, ApplyAll(y, cs).value)
    decreases cs
  {
    if cs != [] {
      hide Apply, RecordsSound, WellFormed, Same;
      ApplySame(x, y, cs[0]);
      if Apply(x, cs[0]).Ok? {
        ApplyKeepsRecordsSound(x, cs[0]);
        ApplyKeepsRecordsSound(y, cs[0]);
        ApplyAllSame(Apply(x, cs[0]).value, Apply(y, cs[0]).value, cs[1..]);
      }
    }
  }

  lemma FilteredSame<T(!new)>(s: seq<T>, t: seq<T>, f: T -> bool, g: T -> bool)
    requires Elements(s) == Elements(t) && forall x :: f(x) == g(x)
    ensures Elements(Filter(s, f)) == Elements(Filter(t, g))
  {
    FilterMembers(s, f);
    FilterMembers(t, g);
    forall x ensures x in s <==> x in t {
      assert x in Elements(s) <==> x in Elements(t);
    }
  }

  lemma SamePruned(a: Relations, b: Relations, f: RecordId -> bool, g: RecordId -> bool)
    requires SameFacts(a, b) && forall x :: f(x) == g(x)
    ensures SameFacts(Prune(a, f), Prune(b, g))
  {
    hide Filter;
    forall p ensures ParentKept(f)(p) == ParentKept(g)(p) {
      assert f(p.child) == g(p.child) && f(p.parent) == g(p.parent);
    }
    forall m ensures GroupKept(f)(m) == GroupKept(g)(m) {
      assert f(m.group) == g(m.group) && f(m.member) == g(m.member);
    }
    forall k ensures BindingKept(f)(k) == BindingKept(g)(k) {
      assert f(k.source) == g(k.source) && f(k.target) == g(k.target);
    }
    FilteredSame(a.parents, b.parents, ParentKept(f), ParentKept(g));
    FilteredSame(a.groups, b.groups, GroupKept(f), GroupKept(g));
    FilteredSame(a.bindings, b.bindings, BindingKept(f), BindingKept(g));
  }

  lemma PruneSame(x: Document, y: Document)
    requires Same(x, y)
    ensures Same(PruneMissing(x), PruneMissing(y))
  {
    SameContents(x, y);
    SamePruned(x.relations, y.relations, Existing(x), Existing(y));
  }

  lemma {:induction false} MetadataStays(x: Document, cs: seq<Command>)
    requires ApplyAll(x, cs).Ok?
    ensures ApplyAll(x, cs).value.metadata == x.metadata
    decreases cs
  {
    if cs != [] {
      MetadataStays(Apply(x, cs[0]).value, cs[1..]);
    }
  }

  // An inverse overwrites nothing that cannot be set again.

  lemma {:induction false} LiveConcat(x: Document, a: seq<Command>, b: seq<Command>)
    requires ApplyAll(x, a).Ok?
    ensures LiveRun(x, a + b) <==> LiveRun(x, a) && LiveRun(ApplyAll(x, a).value, b)
    decreases a
  {
    if a == [] {
      assert a + b == b;
    } else {
      assert (a + b)[1..] == a[1..] + b;
      LiveConcat(Apply(x, a[0]).value, a[1..], b);
    }
  }

  lemma {:induction false} RecordCommandsAreLive(x: Document, cs: seq<Command>)
    requires forall c :: c in cs ==> !IsRelationCommand(c)
    ensures LiveRun(x, cs)
    decreases cs
  {
    if cs != [] {
      hide Apply;
      assert cs[0] in cs && forall c :: c in cs[1..] ==> c in cs;
      if Apply(x, cs[0]).Ok? {
        RecordCommandsAreLive(Apply(x, cs[0]).value, cs[1..]);
      }
    }
  }

  lemma RecordInverse(d: Document, c: Command)
    requires !IsRelationCommand(c) && InverseFor(d, c).Ok?
    ensures forall k :: k in InverseFor(d, c).value ==> !IsRelationCommand(k)
  {
    if c.RemoveNode? {
      var edges := EdgesAt(d, d.edges.keys, c.nodeId);
      forall k | k in Map(InsertEdgeCommand, edges) ensures !IsRelationCommand(k) {
        var e := MapSource(InsertEdgeCommand, edges, k);
      }
    }
  }

  lemma ParentInverseIsLive(d: Document, c: Command, x: Document)
    requires WellFormed(d.relations) && Apply(d, c).Ok? && InverseFor(d, c).Ok? && Behind(x, Apply(d, c).value)
    requires c.SetRecordParent? || c.ClearRecordParent?
    ensures LiveRun(x, InverseFor(d, c).value)
  {
    hide RecordsSound, WellFormed, ApplyAll;
    SameContents(x, Apply(d, c).value);
    var inverse := InverseFor(d, c).value;
    if c.SetRecordParent? {
      SetParentFacts(d.relations, c.child, c.parent, c.child);
    } else {
      ClearParentFacts(d.relations, c.child, c.child);
    }
    if inverse != [] {
      assert inverse[1..] == [];
      assert Live(x, inverse[0]);
    }
  }

  lemma BindingInverseIsLive(d: Document, c: Command, x: Document)
    requires WellFormed(d.relations) && Apply(d, c).Ok? && InverseFor(d, c).Ok? && Behind(x, Apply(d, c).value)
    requires c.SetRecordBinding? || c.RemoveRecordBinding?
    ensures LiveRun(x, InverseFor(d, c).value)
  {
    hide RecordsSound, WellFormed, ApplyAll, ValidateNode, ValidateEdge, ValidateIntegrity, WithBinding, WithoutBinding;
    SameContents(x, Apply(d, c).value);
    var inverse := InverseFor(d, c).value;
    if c.SetRecordBinding? {
      SetBindingFacts(d.relations, c.binding, c.binding.id);
    } else {
      RemoveBindingFacts(d.relations, c.bindingId, c.bindingId);
    }
    if inverse != [] {
      assert inverse[1..] == [];
      assert Live(x, inverse[0]);
    }
  }

  lemma GroupInverseIsLive(d: Document, c: Command, x: Document)
    requires WellFormed(d.relations) && Apply(d, c).Ok? && InverseFor(d, c).Ok? && Behind(x, Apply(d, c).value)
    requires c.AddRecordToGroup? || c.RemoveRecordFromGroup?
    ensures LiveRun(x, InverseFor(d, c).value)
  {
    hide RecordsSound, WellFormed, ApplyAll;
    SameContents(x, Apply(d, c).value);
    var inverse := InverseFor(d, c).value;
    if inverse != [] {
      assert inverse[1..] == [];
      assert Live(x, inverse[0]);
    }
  }

  lemma InverseIsLive(d: Document, c: Command, x: Document)
    requires WellFormed(d.relations) && Apply(d, c).Ok? && InverseFor(d, c).Ok? && Behind(x, Apply(d, c).value)
    ensures LiveRun(x, InverseFor(d, c).value)
  {
    if !IsRelationCommand(c) {
      RecordInverse(d, c);
      RecordCommandsAreLive(x, InverseFor(d, c).value);
    } else {
      hide Apply, InverseFor, Behind, LiveRun;
      if c.SetRecordParent? || c.ClearRecordParent? {
        ParentInverseIsLive(d, c, x);
      } else if c.SetRecordBinding? || c.RemoveRecordBinding? {
        BindingInverseIsLive(d, c, x);
      } else {
        GroupInverseIsLive(d, c, x);
      }
    }
  }

  lemma {:induction false} InvertIsLive(d: Document, cs: seq<Command>, x: Document)
    requires Kept(d) && ApplyAll(d, cs).Ok? && Behind(x, ApplyAll(d, cs).value) && CanInvert(x, d, cs)
    ensures LiveRun(x, Invert(d, cs).value)
    decreases cs
  {
    if cs != [] {
      hide Apply, RecordsSound, WellFormed, Within, InverseFor, Live;
      var next := Apply(d, cs[0]).value;
      ApplyKeepsRecordsSound(d, cs[0]);
      FirstInverse(d, cs);
      var first, rest := InverseFor(d, cs[0]).value, Invert(next, cs[1..]).value;
      ApplyConcat(x, rest, first);
      InvertIsLive(next, cs[1..], x);
      InvertsIff(next, cs[1..], x);
      InverseIsLive(d, cs[0], ApplyAll(x, rest).value);
      LiveConcat(x, rest, first);
    }
  }

  // Relation commands on relations that do not dangle.

  ghost predicate NoneDangles(x: Document) {
    ParentsSound(x, x.relations.parents) && GroupsSound(x, x.relations.groups) && BindingsSound(x, x.relations.bindings)
  }

  predicate NamesExisting(x: Document, c: Command) {
    match c
    case ClearRecordParent(child) => x.Contains(child)
    case RemoveRecordFromGroup(group, member) => x.Contains(group) && x.Contains(member)
    case _ => IsRelationCommand(c)
  }

  lemma NoParentDanglesAfter(x: Document, c: Command)
    requires NoneDangles(x) && (c.SetRecordParent? || c.ClearRecordParent?) && Apply(x, c).Ok?
    ensures NoneDangles(Apply(x, c).value)
  {
    hide ValidateNode, ValidateEdge, ValidateIntegrity, Lookup;
    if c.SetRecordParent? {
      UpsertKeys(x.relations.parents, ChildKey, ParentRelation(c.child, c.parent));
    } else {
      RemoveKeys(x.relations.parents, ChildKey, c.child);
    }
  }

  lemma NoMemberDanglesAfter(x: Document, c: Command)
    requires NoneDangles(x) && (c.AddRecordToGroup? || c.RemoveRecordFromGroup?) && Apply(x, c).Ok?
    ensures NoneDangles(Apply(x, c).value)
  {
    hide ValidateNode, ValidateEdge, ValidateIntegrity, Lookup;
    if c.AddRecordToGroup? {
      UpsertKeys(x.relations.groups, GroupKey, GroupRelation(c.group, c.member));
    } else {
      RemoveKeys(x.relations.groups, GroupKey, GroupRelation(c.group, c.member));
    }
  }

  lemma NoBindingDanglesAfter(x: Document, c: Command)
    requires NoneDangles(x) && (c.SetRecordBinding? || c.RemoveRecordBinding?) && Apply(x, c).Ok?
    ensures NoneDangles(Apply(x, c).value)
  {
    hide ValidateNode, ValidateEdge, ValidateIntegrity, Lookup;
    if c.SetRecordBinding? {
      UpsertKeys(x.relations.bindings, BindingKey, c.binding);
    } else {
      RemoveKeys(x.relations.bindings, BindingKey, c.bindingId);
    }
  }

  lemma NoneDanglesAfter(x: Document, c: Command)
    requires NoneDangles(x) && IsRelationCommand(c) && Apply(x, c).Ok?
    ensures NoneDangles(Apply(x, c).value)
  {
    hide NoneDangles, Apply;
    if c.SetRecordParent? || c.ClearRecordParent? {
      NoParentDanglesAfter(x, c);
    } else if c.AddRecordToGroup? || c.RemoveRecordFromGroup? {
      NoMemberDanglesAfter(x, c);
    } else {
      NoBindingDanglesAfter(x, c);
    }
  }

  lemma {:induction false} RelationCommandsAreLive(x: Document, cs: seq<Command>)
    requires NoneDangles(x) && forall c :: c in cs ==> NamesExisting(x, c)
    ensures LiveRun(x, cs)
    decreases cs
  {
    if cs != [] {
      assert cs[0] in cs && forall c :: c in cs[1..] ==> c in cs;
      if Apply(x, cs[0]).Ok? {
        NoneDanglesAfter(x, cs[0]);
        RelationCommandKeepsWellFormed(x, cs[0]);
        RelationCommandsAreLive(Apply(x, cs[0]).value, cs[1..]);
      }
    }
  }

  lemma ParentCommandsNameExisting(target: Relations, base: Relations, x: Document, c: Command)
    requires c in ParentCommands(target, base) && forall p :: p in base.parents ==> x.Contains(p.child)
    ensures NamesExisting(x, c)
  {
    hide Map, Filter, ParentGone;
    var gone, come := Filter(base.parents, ParentGone(target)), Filter(target.parents, ParentGone(base));
    if c in Map(ClearCommand, gone) {
      var p := MapSource(ClearCommand, gone, c);
      FilterMember(base.parents, ParentGone(target), p);
    } else {
      var p := MapSource(SetCommand, come, c);
    }
  }

  lemma GroupCommandsNameExisting(target: Relations, base: Relations, x: Document, c: Command)
    requires c in GroupCommands(target, base)
    requires forall g :: g in base.groups ==> x.Contains(g.group) && x.Contains(g.member)
    ensures NamesExisting(x, c)
  {
    hide Map, Filter, GroupGone;
    var gone, come := Filter(base.groups, GroupGone(target)), Filter(target.groups, GroupGone(base));
    if c in Map(LeaveCommand, gone) {
      var g := MapSource(LeaveCommand, gone, c);
      FilterMember(base.groups, GroupGone(target), g);
    } else {
      var g := MapSource(JoinCommand, come, c);
    }
  }

  lemma BindingCommandsNameExisting(target: Relations, base: Relations, x: Document, c: Command)
    requires c in BindingCommands(target, base)
    ensures NamesExisting(x, c)
  {
    hide Map, Filter, BindingGone;
    var gone, come := Filter(base.bindings, BindingGone(target)), Filter(target.bindings, BindingGone(base));
    if c in Map(UnbindCommand, gone) {
      var b := MapSource(UnbindCommand, gone, c);
    } else {
      var b := MapSource(BindCommand, come, c);
    }
  }

  /** The commands that complete an inverse name existing records only. */
  lemma CompletionNamesExisting(target: Relations, base: Relations, x: Document, c: Command)
    requires c in RelationCommands(target, base)
    requires forall p :: p in base.parents ==> x.Contains(p.child)
    requires forall g :: g in base.groups ==> x.Contains(g.group) && x.Contains(g.member)
    ensures NamesExisting(x, c)
  {
    hide ParentCommands, GroupCommands, BindingCommands, NamesExisting;
    if c in ParentCommands(target, base) {
      ParentCommandsNameExisting(target, base, x, c);
    } else if c in GroupCommands(target, base) {
      GroupCommandsNameExisting(target, base, x, c);
    } else {
      BindingCommandsNameExisting(target, base, x, c);
    }
  }
}
