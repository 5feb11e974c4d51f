/** When each document command succeeds, what it leaves behind, and what a refusal says. */
module CommandEffects {
  import opened Prelude
  import opened KeyedLists
  import opened IndexMaps
  import opened Records
  import opened RelationSets
  import opened RelationValidation
  import opened Reachability
  import opened RelationTraversal
  import opened EdgeOrders
  import opened Commands

  // What a command does to a map.

  ghost predicate Appended<K, V>(m: IndexMap<K, V>, m': IndexMap<K, V>, k: K, v: V) {
    m'.entries == m.entries[k := v] && m'.keys == m.keys + [k]
  }

  ghost predicate Replaced<K, V>(m: IndexMap<K, V>, m': IndexMap<K, V>, k: K, v: V) {
    m'.entries == m.entries[k := v] && m'.keys == m.keys
  }

  /** What is gone is out of the map; the rest keeps its entries and its order. */
  ghost predicate Without<K(!new), V(!new)>(m: IndexMap<K, V>, m': IndexMap<K, V>, gone: K -> bool) {
    && (forall k :: m'.Get(k) == if gone(k) then None else m.Get(k))
    && (forall a, b :: Before(m'.keys, a, b) <==> Before(m.keys, a, b) && !gone(a) && !gone(b))
  }

  function Only<K(==)>(id: K): K -> bool {
    k => k == id
  }

  function EndsAt(d: Document, n: NodeId): EdgeId -> bool {
    e => e in d.edges.entries && (d.edges.entries[e].source.node == n || d.edges.entries[e].target.node == n)
  }

  function Negated<K>(keep: K -> bool): K -> bool {
    k => !keep(k)
  }

  // What each command demands and does.

  ghost predicate Accepts(d: Document, c: Command) {
    match c
    case InsertNode(node) => node.id !in d.nodes.entries && HandlesApart(node)
    case UpdateNode(node) =>
      && node.id in d.nodes.entries && HandlesApart(node)
      && Sound(d.(nodes := IndexMap(d.nodes.keys, d.nodes.entries[node.id := node])))
    case RemoveNode(id) => id in d.nodes.entries
    case InsertEdge(edge) => edge.id !in d.edges.entries && EdgeFits(d.nodes.entries, edge)
    case UpdateEdge(edge) => edge.id in d.edges.entries && EdgeFits(d.nodes.entries, edge)
    case RemoveEdge(id) => id in d.edges.entries
    case InsertShape(shape) => shape.id !in d.shapes.entries
    case UpdateShape(shape) => shape.id in d.shapes.entries
    case RemoveShape(id) => id in d.shapes.entries
    case SetRecordParent(child, parent) => child != parent && d.Contains(child) && d.Contains(parent)
    case AddRecordToGroup(group, member) => group != member && d.Contains(group) && d.Contains(member)
    case SetRecordBinding(b) => b.source != b.target && d.Contains(b.source) && d.Contains(b.target)
    case ClearRecordParent(_) => true
    case RemoveRecordFromGroup(_, _) => true
    case RemoveRecordBinding(_) => true
  }

  ghost predicate Does(d: Document, c: Command, y: Document) {
    match c
    case InsertNode(node) => y == d.(nodes := y.nodes) && Appended(d.nodes, y.nodes, node.id, node)
    case UpdateNode(node) => y == d.(nodes := y.nodes) && Replaced(d.nodes, y.nodes, node.id, node)
    case RemoveNode(id) =>
      && y == d.(nodes := y.nodes, edges := y.edges)
      && Without(d.nodes, y.nodes, Only(id))
      && Without(d.edges, y.edges, EndsAt(d, id))
    case InsertEdge(edge) => y == d.(edges := y.edges) && Appended(d.edges, y.edges, edge.id, edge)
    case UpdateEdge(edge) => y == d.(edges := y.edges) && Replaced(d.edges, y.edges, edge.id, edge)
    case RemoveEdge(id) => y == d.(edges := y.edges) && Without(d.edges, y.edges, Only(id))
    case InsertShape(shape) => y == d.(shapes := y.shapes) && Appended(d.shapes, y.shapes, shape.id, shape)
    case UpdateShape(shape) => y == d.(shapes := y.shapes) && Replaced(d.shapes, y.shapes, shape.id, shape)
    case RemoveShape(id) => y == d.(shapes := y.shapes) && Without(d.shapes, y.shapes, Only(id))
    case _ => y == d.(relations := y.relations) && Relates(d.relations, c, y.relations)
  }

  /** The facts after a relation command. */
  ghost predicate Relates(r: Relations, c: Command, r': Relations) {
    match c
    case SetRecordParent(child, parent) =>
      && r' == r.(parents := r'.parents)
      && forall q :: q in r'.parents <==> q == ParentRelation(child, parent) || (q in r.parents && q.child != child)
    case ClearRecordParent(child) =>
      r' == r.(parents := r'.parents) && forall q :: q in r'.parents <==> q in r.parents && q.child != child
    case AddRecordToGroup(group, member) =>
      && r' == r.(groups := r'.groups)
      && forall g :: g in r'.groups <==> g == GroupRelation(group, member) || g in r.groups
    case RemoveRecordFromGroup(group, member) =>
      && r' == r.(groups := r'.groups)
      && forall g :: g in r'.groups <==> g in r.groups && g != GroupRelation(group, member)
    case SetRecordBinding(binding) =>
      && r' == r.(bindings := r'.bindings)
      && forall b :: b in r'.bindings <==> b == binding || (b in r.bindings && b.id != binding.id)
    case RemoveRecordBinding(id) =>
      r' == r.(bindings := r'.bindings) && forall b :: b in r'.bindings <==> b in r.bindings && b.id != id
    case _ => r' == r
  }

  lemma RetainedIs<K(!new), V(!new)>(m: IndexMap<K, V>, keep: K -> bool)
    requires m.Valid()
    ensures Without(m, m.Select(keep), Negated(keep))
  {
    FilterMembers(m.keys, keep);
    forall a, b
      ensures Before(Filter(m.keys, keep), a, b) <==> Before(m.keys, a, b) && keep(a) && keep(b)
    {
      if keep(a) && keep(b) {
        FilterBefore(m.keys, keep, a, b);
      }
    }
  }

  lemma SameWithout<K(!new), V(!new)>(m: IndexMap<K, V>, m': IndexMap<K, V>, gone: K -> bool, gone': K -> bool)
    requires Without(m, m', gone) && m.Valid() && forall k :: k in m.entries ==> gone(k) == gone'(k)
    ensures Without(m, m', gone')
  {
    forall a, b ensures Before(m.keys, a, b) ==> a in m.entries && b in m.entries {
    }
    hide Before;
  }

  lemma RemovedIs<K(!new), V(!new)>(m: IndexMap<K, V>, id: K)
    requires m.Valid()
    ensures Without(m, m.ShiftRemove(id), Only(id))
  {
    hide Without;
    var keep := IndexMap<K, V>.Except(id);
    RetainedIs(m, keep);
    SameWithout(m, m.ShiftRemove(id), Negated(keep), Only(id));
  }

  lemma DetachedIs(d: Document, id: NodeId)
    requires d.edges.Valid()
    ensures Without(d.edges, d.edges.Retain(Detached(id)), EndsAt(d, id))
  {
    hide Without;
    var keep := d.edges.WithValue(Detached(id));
    RetainedIs(d.edges, keep);
    SameWithout(d.edges, d.edges.Retain(Detached(id)), Negated(keep), EndsAt(d, id));
  }

  lemma RecordCommandIff(d: Document, c: Command)
    requires d.Filed() && !IsRelationCommand(c)
    ensures Apply(d, c).Ok? <==> Accepts(d, c)
    ensures Apply(d, c).Ok? ==> Does(d, c, Apply(d, c).value)
  {
    hide Without, ValidateNode, ValidateEdge, ValidateIntegrity, EdgeFits, HandlesApart, Sound;
    match c
    case InsertNode(node) => ValidateNodeIff(node);
    case UpdateNode(node) =>
      ValidateNodeIff(node);
      if d.nodes.Has(node.id) {
        assert d.nodes.Insert(node.id, node) == IndexMap(d.nodes.keys, d.nodes.entries[node.id := node]);
        if ValidateNode(node).Ok? {
          UpdateDraft(d, node);
        }
      }
    case RemoveNode(id) =>
      RemovedIs(d.nodes, id);
      DetachedIs(d, id);
    case InsertEdge(edge) => ValidateEdgeIff(d.nodes.entries, edge);
    case UpdateEdge(edge) => ValidateEdgeIff(d.nodes.entries, edge);
    case RemoveEdge(id) => RemovedIs(d.edges, id);
    case RemoveShape(id) => RemovedIs(d.shapes, id);
    case _ =>
  }

  lemma {:induction false} UpsertMembers<T(!new), K>(s: seq<T>, key: T -> K, x: T)
    requires Unique(s, key)
    ensures forall y :: y in Upsert(s, key, x) <==> y == x || (y in s && key(y) != key(x))
  {
    if s != [] {
      UniqueTail(s, key);
      UpsertMembers(s[1..], key, x);
      assert forall y :: y in s <==> y == s[0] || y in s[1..];
    }
  }

  lemma {:induction false} RemoveMembers<T(!new), K>(s: seq<T>, key: T -> K, k: K)
    requires Unique(s, key)
    ensures forall y :: y in RemoveKey(s, key, k) <==> y in s && key(y) != k
  {
    if s != [] {
      UniqueTail(s, key);
      RemoveMembers(s[1..], key, k);
      assert forall y :: y in s <==> y == s[0] || y in s[1..];
    }
  }

  lemma RelationCommandIff(d: Document, c: Command)
    requires WellFormed(d.relations) && IsRelationCommand(c)
    ensures Apply(d, c).Ok? <==> Accepts(d, c)
    ensures Apply(d, c).Ok? ==> Does(d, c, Apply(d, c).value)
  {
    hide Upsert, RemoveKey, Unique;
    var r := d.relations;
    match c
    case SetRecordParent(child, parent) => UpsertMembers(r.parents, ChildKey, ParentRelation(child, parent));
    case ClearRecordParent(child) => RemoveMembers(r.parents, ChildKey, child);
    case AddRecordToGroup(group, member) => UpsertMembers(r.groups, GroupKey, GroupRelation(group, member));
    case RemoveRecordFromGroup(group, member) => RemoveMembers(r.groups, GroupKey, GroupRelation(group, member));
    case SetRecordBinding(b) => UpsertMembers(r.bindings, BindingKey, b);
    case RemoveRecordBinding(id) => RemoveMembers(r.bindings, BindingKey, id);
  }

  /** Each command succeeds exactly when what it names is there, or free, and fits; it then does just this. */
  lemma ApplyIff(d: Document, c: Command)
    requires d.Filed() && WellFormed(d.relations)
    ensures Apply(d, c).Ok? <==> Accepts(d, c)
    ensures Apply(d, c).Ok? ==> Does(d, c, Apply(d, c).value)
  {
    hide Apply, Accepts, Does, WellFormed;
    if IsRelationCommand(c) {
      RelationCommandIff(d, c);
    } else {
      RecordCommandIff(d, c);
    }
  }

  /** Pruning keeps exactly the relations whose two records exist, in order, and touches nothing else. */
  lemma PruneMissingIs(d: Document)
    ensures var y := PruneMissing(d);
            && y == d.(relations := y.relations)
            && (forall q :: q in y.relations.parents <==>
                            q in d.relations.parents && d.Contains(q.child) && d.Contains(q.parent))
            && (forall g :: g in y.relations.groups <==>
                            g in d.relations.groups && d.Contains(g.group) && d.Contains(g.member))
            && (forall b :: b in y.relations.bindings <==>
                            b in d.relations.bindings && d.Contains(b.source) && d.Contains(b.target))
  {
    hide Prune;
    PruneFacts(d.relations, Existing(d));
  }

  // What a refusal says.

  ghost predicate Twice<T, K>(s: seq<T>, key: T -> K, k: K) {
    exists i, j :: 0 <= i < j < |s| && key(s[i]) == k && key(s[j]) == k
  }

  ghost predicate EndOfParent(d: Document, ps: seq<ParentRelation>, x: RecordId) {
    exists p :: p in ps && (p.child == x || p.parent == x) && !d.Contains(x)
  }

  ghost predicate ParentRefused(d: Document, ps: seq<ParentRelation>, error: DocumentError) {
    match error
    case DuplicateParentRelation(x) => Twice(ps, ChildKey, x)
    case SelfParentRelation(x) => ParentRelation(x, x) in ps
    case MissingRelationRecord(x) => EndOfParent(d, ps, x)
    case _ => false
  }

  lemma {:induction false} ParentRefusal(d: Document, all: seq<ParentRelation>, from: nat, seen: set<RecordId>)
    requires from <= |all| && CheckParents(d, all[from..], seen).Err?
    requires forall x :: x in seen ==> exists i :: 0 <= i < from && all[i].child == x
    ensures ParentRefused(d, all, CheckParents(d, all[from..], seen).error)
    decreases |all| - from
  {
    var p := all[from..][0];
    assert all[from..][1..] == all[from + 1..] && all[from] == p && p in all;
    if p.child in seen {
      var i :| 0 <= i < from && all[i].child == p.child;
      assert ChildKey(all[i]) == p.child && ChildKey(all[from]) == p.child;
    } else if p.child != p.parent && d.Contains(p.child) && d.Contains(p.parent) {
      assert all[from].child == p.child;
      ParentRefusal(d, all, from + 1, seen + {p.child});
    }
  }

  ghost predicate GroupRefused(d: Document, gs: seq<GroupRelation>, error: DocumentError) {
    match error
    case DuplicateGroupRelation(group, member) => Twice(gs, GroupKey, GroupRelation(group, member))
    case SelfParentRelation(x) => GroupRelation(x, x) in gs
    case MissingRelationRecord(x) => exists g :: g in gs && (g.group == x || g.member == x) && !d.Contains(x)
    case _ => false
  }

  lemma {:induction false} GroupRefusal(d: Document, all: seq<GroupRelation>, from: nat, seen: set<GroupRelation>)
    requires from <= |all| && CheckGroups(d, all[from..], seen).Err?
    requires forall x :: x in seen ==> exists i :: 0 <= i < from && all[i] == x
    ensures GroupRefused(d, all, CheckGroups(d, all[from..], seen).error)
    decreases |all| - from
  {
    var g := all[from..][0];
    assert all[from..][1..] == all[from + 1..] && all[from] == g && g in all;
    if g in seen {
      var i :| 0 <= i < from && all[i] == g;
      assert GroupKey(all[i]) == g && GroupKey(all[from]) == g;
    } else if g.group != g.member && d.Contains(g.group) && d.Contains(g.member) {
      GroupRefusal(d, all, from + 1, seen + {g});
    }
  }

  ghost predicate BindingRefused(d: Document, bs: seq<BindingRelation>, error: DocumentError) {
    match error
    case DuplicateBindingRelation(id) => Twice(bs, BindingKey, id)
    case SelfBindingRelation(x) => exists b :: b in bs && b.source == x && b.target == x
    case MissingRelationRecord(x) => exists b :: b in bs && (b.source == x || b.target == x) && !d.Contains(x)
    case _ => false
  }

  lemma {:induction false} BindingRefusal(d: Document, all: seq<BindingRelation>, from: nat, seen: set<BindingId>)
    requires from <= |all| && CheckBindings(d, all[from..], seen).Err?
    requires forall x :: x in seen ==> exists i :: 0 <= i < from && all[i].id == x
    ensures BindingRefused(d, all, CheckBindings(d, all[from..], seen).error)
    decreases |all| - from
  {
    var b := all[from..][0];
    assert all[from..][1..] == all[from + 1..] && all[from] == b && b in all;
    if b.id in seen {
      var i :| 0 <= i < from && all[i].id == b.id;
      assert BindingKey(all[i]) == b.id && BindingKey(all[from]) == b.id;
    } else if b.source != b.target && d.Contains(b.source) && d.Contains(b.target) {
      assert all[from].id == b.id;
      BindingRefusal(d, all, from + 1, seen + {b.id});
    }
  }

  /**
   * Relations are refused for what is wrong with them, parents before memberships before bindings before
   * cycles: an id that occurs twice, a relation of a record with itself, a missing record, a record on a cycle.
   */
  lemma RelationRefusal(d: Document)
    requires ValidateRelations(d).Err?
    ensures var error, r := ValidateRelations(d).error, d.relations;
            if !(Unique(r.parents, ChildKey) && ParentsSound(d, r.parents)) then ParentRefused(d, r.parents, error)
            else if !(Unique(r.groups, GroupKey) && GroupsSound(d, r.groups)) then GroupRefused(d, r.groups, error)
            else if !(Unique(r.bindings, BindingKey) && BindingsSound(d, r.bindings))
              then BindingRefused(d, r.bindings, error)
            else exists x :: error == CyclicRecordRelation(x) && Plus(DownEdges(r), x, x)
  {
    hide CheckParents, CheckGroups, CheckBindings, CheckAcyclic, ParentRefused, GroupRefused, BindingRefused, Unique,
         ParentsSound, GroupsSound, BindingsSound, Plus, DownEdges, Acyclic;
    var r := d.relations;
    assert r.parents[0..] == r.parents && r.groups[0..] == r.groups && r.bindings[0..] == r.bindings;
    CheckParentsIff(d, r.parents, {});
    CheckGroupsIff(d, r.groups, {});
    CheckBindingsIff(d, r.bindings, {});
    CheckAcyclicIff(r);
    if CheckParents(d, r.parents, {}).Err? {
      ParentRefusal(d, r.parents, 0, {});
    } else if CheckGroups(d, r.groups, {}).Err? {
      GroupRefusal(d, r.groups, 0, {});
    } else if CheckBindings(d, r.bindings, {}).Err? {
      BindingRefusal(d, r.bindings, 0, {});
    }
  }
}
