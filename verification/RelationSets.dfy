/** Parent, group and binding facts between records: lookups, mutators, pruning and equality. */
module RelationSets {
  import opened Prelude
  import opened KeyedLists
  import opened Records

  function ChildKey(r: ParentRelation): RecordId { r.child }
  function GroupKey(r: GroupRelation): GroupRelation { r }
  function BindingKey(r: BindingRelation): BindingId { r.id }

  const NO_RELATIONS := Relations([], [], [])

  /** One parent per child, no repeated group pair, one binding per id. */
  ghost predicate WellFormed(r: Relations) {
    Unique(r.parents, ChildKey) && Unique(r.groups, GroupKey) && Unique(r.bindings, BindingKey)
  }

  function ParentOf(r: Relations, child: RecordId): Option<RecordId> {
    var found := Lookup(r.parents, ChildKey, child);
    if found.Some? then Some(found.value.parent) else None
  }

  function BindingOf(r: Relations, id: BindingId): Option<BindingRelation> {
    Lookup(r.bindings, BindingKey, id)
  }

  predicate HasMember(r: Relations, group: RecordId, member: RecordId) {
    GroupRelation(group, member) in r.groups
  }

  // The mutators.

  function WithParent(r: Relations, child: RecordId, parent: RecordId): Relations {
    r.(parents := Upsert(r.parents, ChildKey, ParentRelation(child, parent)))
  }

  function WithoutParent(r: Relations, child: RecordId): Relations {
    r.(parents := RemoveKey(r.parents, ChildKey, child))
  }

  function WithMember(r: Relations, group: RecordId, member: RecordId): Relations {
    r.(groups := Upsert(r.groups, GroupKey, GroupRelation(group, member)))
  }

  function WithoutMember(r: Relations, group: RecordId, member: RecordId): Relations {
    r.(groups := RemoveKey(r.groups, GroupKey, GroupRelation(group, member)))
  }

  function WithBinding(r: Relations, binding: BindingRelation): Relations {
    r.(bindings := Upsert(r.bindings, BindingKey, binding))
  }

  function WithoutBinding(r: Relations, id: BindingId): Relations {
    r.(bindings := RemoveKey(r.bindings, BindingKey, id))
  }

  function ParentKept(ok: RecordId -> bool): ParentRelation -> bool {
    (p: ParentRelation) => ok(p.child) && ok(p.parent)
  }

  function GroupKept(ok: RecordId -> bool): GroupRelation -> bool {
    (g: GroupRelation) => ok(g.group) && ok(g.member)
  }

  function BindingKept(ok: RecordId -> bool): BindingRelation -> bool {
    (b: BindingRelation) => ok(b.source) && ok(b.target)
  }

  function In(s: set<RecordId>): RecordId -> bool {
    (x: RecordId) => x in s
  }

  /** Keeps the relations whose two ends pass the test. */
  function Prune(r: Relations, ok: RecordId -> bool): Relations {
    Relations(
      Filter(r.parents, ParentKept(ok)),
      Filter(r.groups, GroupKept(ok)),
      Filter(r.bindings, BindingKept(ok)))
  }

  /** The program's order-free equality. */
  predicate SameRelations(a: Relations, b: Relations) {
    && SameList(a.parents, b.parents, ChildKey)
    && SameList(a.groups, b.groups, GroupKey)
    && SameList(a.bindings, b.bindings, BindingKey)
  }

  ghost predicate SameFacts(a: Relations, b: Relations) {
    && Elements(a.parents) == Elements(b.parents)
    && Elements(a.groups) == Elements(b.groups)
    && Elements(a.bindings) == Elements(b.bindings)
  }

  /** On well-formed sets the program's equality is equality of the facts, hence an equivalence. */
  lemma EqualityIsSameFacts(a: Relations, b: Relations)
    requires WellFormed(a) && WellFormed(b)
    ensures SameRelations(a, b) <==> SameFacts(a, b)
  {
    SameListIsSetEquality(a.parents, b.parents, ChildKey);
    SameListIsSetEquality(a.groups, b.groups, GroupKey);
    SameListIsSetEquality(a.bindings, b.bindings, BindingKey);
  }

  /** Without well-formedness it is not even symmetric. */
  lemma EqualityNeedsWellFormedness(x: RecordId, y: RecordId, z: RecordId)
    requires x != y
    ensures var a := Relations([], [GroupRelation(x, z), GroupRelation(x, z)], []);
            var b := Relations([], [GroupRelation(x, z), GroupRelation(y, z)], []);
            SameRelations(a, b) && !SameRelations(b, a)
  {
    var a := [GroupRelation(x, z), GroupRelation(x, z)];
    var b := [GroupRelation(x, z), GroupRelation(y, z)];
    assert Lookup(b, GroupKey, GroupKey(a[0])) == Some(a[0]);
    assert b[1] in b && GroupKey(b[1]) == b[1] && b[1] !in a;
    assert Lookup(a, GroupKey, b[1]).None?;
  }

  /** A well-formed set equals exactly the well-formed sets of the same facts. */
  lemma WellFormedEqualsIff(a: Relations, b: Relations)
    requires WellFormed(a)
    ensures SameRelations(a, b) <==> WellFormed(b) && SameFacts(a, b)
    ensures SameRelations(a, b) ==> SameRelations(b, a)
  {
    hide Unique, SameList;
    UniqueEqualsIff(a.parents, b.parents, ChildKey);
    UniqueEqualsIff(a.groups, b.groups, GroupKey);
    UniqueEqualsIff(a.bindings, b.bindings, BindingKey);
  }

  /** Equality behaves at a set, being reflexive and symmetric there, exactly when the set is well formed. */
  lemma EqualityBehavesIff(a: Relations)
    ensures SameRelations(a, a) && (forall b :: SameRelations(a, b) ==> SameRelations(b, a)) <==> WellFormed(a)
    ensures WellFormed(a) ==> forall b, c :: SameRelations(a, b) && SameRelations(b, c) ==> SameRelations(a, c)
  {
    hide SameRelations, WellFormed;
    if WellFormed(a) {
      WellFormedEqualsIff(a, a);
      forall b ensures SameRelations(a, b) ==> SameRelations(b, a) {
        WellFormedEqualsIff(a, b);
      }
      forall b, c | SameRelations(a, b) && SameRelations(b, c) ensures SameRelations(a, c) {
        WellFormedEqualsIff(a, b);
        WellFormedEqualsIff(b, c);
        WellFormedEqualsIff(a, c);
      }
    } else if SameRelations(a, a) {
      var b := IllFormedBreaksSymmetry(a);
    }
  }

  lemma IllFormedBreaksSymmetry(a: Relations) returns (b: Relations)
    requires !WellFormed(a) && SameRelations(a, a)
    ensures SameRelations(a, b) && !SameRelations(b, a)
  {
    hide Unique, SameList;
    var name := LongerThan(Map(ChildName, a.parents) + Map(GroupName, a.groups) + Map(IdName, a.bindings));
    var fresh_ := NodeRecord(NodeId(name));
    if !Unique(a.parents, ChildKey) {
      forall x | x in a.parents ensures x.child != fresh_ {
        MapElement(ChildName, a.parents, x);
      }
      var t := RepeatedKeyBreaksSymmetry(a.parents, ChildKey, ParentRelation(fresh_, fresh_));
      b := a.(parents := t);
    } else if !Unique(a.groups, GroupKey) {
      forall x | x in a.groups ensures x.group != fresh_ {
        MapElement(GroupName, a.groups, x);
      }
      var t := RepeatedKeyBreaksSymmetry(a.groups, GroupKey, GroupRelation(fresh_, fresh_));
      b := a.(groups := t);
    } else {
      forall x | x in a.bindings ensures x.id != BindingId(name) {
        MapElement(IdName, a.bindings, x);
      }
      var t := RepeatedKeyBreaksSymmetry(a.bindings, BindingKey, BindingRelation(BindingId(name), "", fresh_, fresh_));
      b := a.(bindings := t);
    }
  }

  function NameOf(id: RecordId): string {
    match id
    case NodeRecord(n) => n.name
    case EdgeRecord(e) => e.name
    case ShapeRecord(s) => s.name
  }

  function ChildName(p: ParentRelation): string { NameOf(p.child) }
  function GroupName(g: GroupRelation): string { NameOf(g.group) }
  function IdName(b: BindingRelation): string { b.id.name }

  /** A name that is longer than all the given ones. */
  function LongerThan(names: seq<string>): (name: string)
    ensures name != [] && forall n :: n in names ==> |n| < |name|
  {
    if names == [] then "n" else names[0] + LongerThan(names[1..])
  }

  /** A well-formed set is determined by what its lookups answer. */
  lemma SameAnswers(a: Relations, b: Relations)
    requires WellFormed(a) && WellFormed(b)
    requires forall c :: ParentOf(a, c) == ParentOf(b, c)
    requires forall g, m :: HasMember(a, g, m) == HasMember(b, g, m)
    requires forall i :: BindingOf(a, i) == BindingOf(b, i)
    ensures SameFacts(a, b)
  {
    forall x | x in a.parents || x in b.parents
      ensures Lookup(a.parents, ChildKey, ChildKey(x)) == Lookup(b.parents, ChildKey, ChildKey(x))
    {
      assert ParentOf(a, x.child) == ParentOf(b, x.child);
    }
    SameLookups(a.parents, b.parents, ChildKey);
    forall x ensures x in a.groups <==> x in b.groups {
      assert HasMember(a, x.group, x.member) == HasMember(b, x.group, x.member);
    }
    forall x | x in a.bindings || x in b.bindings
      ensures Lookup(a.bindings, BindingKey, BindingKey(x)) == Lookup(b.bindings, BindingKey, BindingKey(x))
    {
      assert BindingOf(a, x.id) == BindingOf(b, x.id);
    }
    SameLookups(a.bindings, b.bindings, BindingKey);
  }

  lemma SetParentFacts(r: Relations, child: RecordId, parent: RecordId, c: RecordId)
    ensures WellFormed(r) ==> WellFormed(WithParent(r, child, parent))
    ensures ParentOf(WithParent(r, child, parent), c) == if c == child then Some(parent) else ParentOf(r, c)
  {
    UpsertLookup(r.parents, ChildKey, ParentRelation(child, parent), c);
    UpsertKeys(r.parents, ChildKey, ParentRelation(child, parent));
  }

  lemma ClearParentFacts(r: Relations, child: RecordId, c: RecordId)
    requires WellFormed(r)
    ensures WellFormed(WithoutParent(r, child))
    ensures ParentOf(WithoutParent(r, child), c) == if c == child then None else ParentOf(r, c)
  {
    RemoveLookup(r.parents, ChildKey, child, c);
    RemoveKeys(r.parents, ChildKey, child);
  }

  lemma AddMemberFacts(r: Relations, group: RecordId, member: RecordId, g: RecordId, m: RecordId)
    ensures WellFormed(r) ==> WellFormed(WithMember(r, group, member))
    ensures WellFormed(r) ==> HasMember(WithMember(r, group, member), g, m) ==
                              (HasMember(r, g, m) || (g == group && m == member))
  {
    var x, y := GroupRelation(group, member), GroupRelation(g, m);
    UpsertKeys(r.groups, GroupKey, x);
    if WellFormed(r) {
      UpsertLookup(r.groups, GroupKey, x, y);
      LookupMember(r.groups, GroupKey, y);
      LookupMember(Upsert(r.groups, GroupKey, x), GroupKey, y);
    }
  }

  lemma RemoveMemberFacts(r: Relations, group: RecordId, member: RecordId, g: RecordId, m: RecordId)
    requires WellFormed(r)
    ensures WellFormed(WithoutMember(r, group, member))
    ensures HasMember(WithoutMember(r, group, member), g, m) ==
            (HasMember(r, g, m) && !(g == group && m == member))
  {
    var x, y := GroupRelation(group, member), GroupRelation(g, m);
    RemoveKeys(r.groups, GroupKey, x);
    RemoveLookup(r.groups, GroupKey, x, y);
    LookupMember(r.groups, GroupKey, y);
    LookupMember(RemoveKey(r.groups, GroupKey, x), GroupKey, y);
  }

  lemma SetBindingFacts(r: Relations, binding: BindingRelation, i: BindingId)
    ensures WellFormed(r) ==> WellFormed(WithBinding(r, binding))
    ensures BindingOf(WithBinding(r, binding), i) == if i == binding.id then Some(binding) else BindingOf(r, i)
  {
    UpsertLookup(r.bindings, BindingKey, binding, i);
    UpsertKeys(r.bindings, BindingKey, binding);
  }

  lemma RemoveBindingFacts(r: Relations, id: BindingId, i: BindingId)
    requires WellFormed(r)
    ensures WellFormed(WithoutBinding(r, id))
    ensures BindingOf(WithoutBinding(r, id), i) == if i == id then None else BindingOf(r, i)
  {
    RemoveLookup(r.bindings, BindingKey, id, i);
    RemoveKeys(r.bindings, BindingKey, id);
  }

  lemma PruneFacts(r: Relations, ok: RecordId -> bool)
    ensures forall p :: p in Prune(r, ok).parents <==> p in r.parents && ok(p.child) && ok(p.parent)
    ensures forall g :: g in Prune(r, ok).groups <==> g in r.groups && ok(g.group) && ok(g.member)
    ensures forall b :: b in Prune(r, ok).bindings <==> b in r.bindings && ok(b.source) && ok(b.target)
    ensures WellFormed(r) ==> WellFormed(Prune(r, ok))
  {
    FilterMembers(r.parents, ParentKept(ok));
    FilterMembers(r.groups, GroupKept(ok));
    FilterMembers(r.bindings, BindingKept(ok));
    if WellFormed(r) {
      FilterUnique(r.parents, ChildKey, ParentKept(ok));
      FilterUnique(r.groups, GroupKey, GroupKept(ok));
      FilterUnique(r.bindings, BindingKey, BindingKept(ok));
    }
  }

  /** What is left are the relations with both ends among `existing`. */
  ghost predicate RestrictedTo(r': Relations, r: Relations, existing: set<RecordId>) {
    && (forall p :: p in r'.parents <==> p in r.parents && p.child in existing && p.parent in existing)
    && (forall g :: g in r'.groups <==> g in r.groups && g.group in existing && g.member in existing)
    && (forall b :: b in r'.bindings <==> b in r.bindings && b.source in existing && b.target in existing)
  }

  /** Pruning changes nothing when every relation has both its ends. */
  lemma PruneNothing(r: Relations, ok: RecordId -> bool)
    requires forall p :: p in r.parents ==> ok(p.child) && ok(p.parent)
    requires forall g :: g in r.groups ==> ok(g.group) && ok(g.member)
    requires forall b :: b in r.bindings ==> ok(b.source) && ok(b.target)
    ensures Prune(r, ok) == r
  {
    FilterAll(r.parents, ParentKept(ok));
    FilterAll(r.groups, GroupKept(ok));
    FilterAll(r.bindings, BindingKept(ok));
  }

  // Runs of the mutators.

  datatype Edit =
    | SetParent(child: RecordId, parent: RecordId)
    | ClearParent(child: RecordId)
    | AddToGroup(group: RecordId, member: RecordId)
    | RemoveFromGroup(group: RecordId, member: RecordId)
    | SetBinding(binding: BindingRelation)
    | RemoveBinding(id: BindingId)
    | PruneTo(existing: set<RecordId>)

  function Perform(r: Relations, e: Edit): Relations {
    match e
    case SetParent(child, parent) => WithParent(r, child, parent)
    case ClearParent(child) => WithoutParent(r, child)
    case AddToGroup(group, member) => WithMember(r, group, member)
    case RemoveFromGroup(group, member) => WithoutMember(r, group, member)
    case SetBinding(binding) => WithBinding(r, binding)
    case RemoveBinding(id) => WithoutBinding(r, id)
    case PruneTo(existing) => Prune(r, In(existing))
  }

  function PerformAll(r: Relations, edits: seq<Edit>): Relations
    decreases edits
  {
    if edits == [] then r else PerformAll(Perform(r, edits[0]), edits[1..])
  }

  lemma PerformKeepsWellFormed(r: Relations, e: Edit)
    requires WellFormed(r)
    ensures WellFormed(Perform(r, e))
  {
    match e
    case SetParent(child, parent) => UpsertKeys(r.parents, ChildKey, ParentRelation(child, parent));
    case ClearParent(child) => RemoveKeys(r.parents, ChildKey, child);
    case AddToGroup(group, member) => UpsertKeys(r.groups, GroupKey, GroupRelation(group, member));
    case RemoveFromGroup(group, member) => RemoveKeys(r.groups, GroupKey, GroupRelation(group, member));
    case SetBinding(binding) => UpsertKeys(r.bindings, BindingKey, binding);
    case RemoveBinding(id) => RemoveKeys(r.bindings, BindingKey, id);
    case PruneTo(existing) => PruneFacts(r, In(existing));
  }

  /** Every run of edits keeps a well-formed set well formed; the empty set is the start of every run. */
  lemma {:induction false} RunsStayWellFormed(r: Relations, edits: seq<Edit>)
    requires WellFormed(r)
    ensures WellFormed(PerformAll(r, edits))
    ensures WellFormed(NO_RELATIONS)
    decreases edits
  {
    if edits != [] {
      PerformKeepsWellFormed(r, edits[0]);
      RunsStayWellFormed(Perform(r, edits[0]), edits[1..]);
    }
  }

  /** The relation store itself: three vectors that are searched and changed in place. */
  class RecordRelations {
    var parents: seq<ParentRelation>
    var groups: seq<GroupRelation>
    var bindings: seq<BindingRelation>

    constructor ()
      ensures View() == NO_RELATIONS
    {
      parents, groups, bindings := [], [], [];
    }

    ghost function View(): Relations
      reads this
    {
      Relations(parents, groups, bindings)
    }

    method SetParent(child: RecordId, parent: RecordId) returns (previous: Option<RecordId>)
      modifies this`parents
      ensures View() == WithParent(old(View()), child, parent)
      ensures previous == ParentOf(old(View()), child)
    {
      var x := ParentRelation(child, parent);
      var i := Position(parents, ChildKey, child);
      AtPosition(parents, ChildKey, x, i);
      if i < |parents| {
        previous := Some(parents[i].parent);
        parents := parents[i := x];
      } else {
        previous := None;
        parents := parents + [x];
      }
    }

    method ClearParent(child: RecordId) returns (previous: Option<RecordId>)
      modifies this`parents
      ensures View() == WithoutParent(old(View()), child)
      ensures previous == ParentOf(old(View()), child)
    {
      var i := Position(parents, ChildKey, child);
      RemoveAtPosition(parents, ChildKey, child, i);
      if i < |parents| {
        previous := Some(parents[i].parent);
        parents := parents[..i] + parents[i + 1..];
      } else {
        previous := None;
      }
    }

    method AddToGroup(group: RecordId, member: RecordId) returns (added: bool)
      modifies this`groups
      ensures View() == WithMember(old(View()), group, member)
      ensures added == !HasMember(old(View()), group, member)
    {
      var x := GroupRelation(group, member);
      var i := Position(groups, GroupKey, x);
      AtPosition(groups, GroupKey, x, i);
      added := i == |groups|;
      if added {
        groups := groups + [x];
      }
    }

    method RemoveFromGroup(group: RecordId, member: RecordId) returns (removed: bool)
      modifies this`groups
      ensures View() == WithoutMember(old(View()), group, member)
      ensures removed == HasMember(old(View()), group, member)
    {
      var x := GroupRelation(group, member);
      var i := Position(groups, GroupKey, x);
      RemoveAtPosition(groups, GroupKey, x, i);
      removed := i < |groups|;
      if removed {
        groups := groups[..i] + groups[i + 1..];
      }
    }

    method SetBinding(binding: BindingRelation) returns (previous: Option<BindingRelation>)
      modifies this`bindings
      ensures View() == WithBinding(old(View()), binding)
      ensures previous == BindingOf(old(View()), binding.id)
    {
      var i := Position(bindings, BindingKey, binding.id);
      AtPosition(bindings, BindingKey, binding, i);
      if i < |bindings| {
        previous := Some(bindings[i]);
        bindings := bindings[i := binding];
      } else {
        previous := None;
        bindings := bindings + [binding];
      }
    }

    method RemoveBinding(id: BindingId) returns (previous: Option<BindingRelation>)
      modifies this`bindings
      ensures View() == WithoutBinding(old(View()), id)
      ensures previous == BindingOf(old(View()), id)
    {
      var i := Position(bindings, BindingKey, id);
      RemoveAtPosition(bindings, BindingKey, id, i);
      if i < |bindings| {
        previous := Some(bindings[i]);
        bindings := bindings[..i] + bindings[i + 1..];
      } else {
        previous := None;
      }
    }

    method PruneMissing(existing: set<RecordId>) returns (changed: bool)
      modifies this
      ensures View() == Prune(old(View()), In(existing))
      ensures RestrictedTo(View(), old(View()), existing)
      ensures changed <==> View() != old(View())
    {
      PruneFacts(View(), In(existing));
      FilterLength(parents, ParentKept(In(existing)));
      FilterLength(groups, GroupKept(In(existing)));
      FilterLength(bindings, BindingKept(In(existing)));
      var before := (|parents|, |groups|, |bindings|);
      parents := Filter(parents, ParentKept(In(existing)));
      groups := Filter(groups, GroupKept(In(existing)));
      bindings := Filter(bindings, BindingKept(In(existing)));
      changed := before != (|parents|, |groups|, |bindings|);
    }
  }

  /** The linear search behind every mutator: the first index with key `k`, or the length. */
  method Position<T, K(==)>(s: seq<T>, key: T -> K, k: K) returns (i: nat)
    ensures i <= |s|
    ensures forall j :: 0 <= j < i ==> key(s[j]) != k
    ensures i < |s| ==> key(s[i]) == k
  {
    i := 0;
    while i < |s| && key(s[i]) != k
      invariant i <= |s|
      invariant forall j :: 0 <= j < i ==> key(s[j]) != k
    {
      i := i + 1;
    }
  }
}
