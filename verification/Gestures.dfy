/** The transaction that leads from one document state to another. */
module Gestures {
  import opened Prelude
  import opened KeyedLists
  import opened IndexMaps
  import opened Records
  import opened RelationSets
  import opened RelationReplay
  import opened RelationValidation
  import opened Commands
  import opened Reachability
  import opened Mutations
  import opened EdgeOrders

  // The commands, list by list.

  function RemoveEdgeCommand(e: EdgeId): Command { RemoveEdge(e) }
  function RemoveShapeCommand(s: ShapeId): Command { RemoveShape(s) }
  function RemoveNodeCommand(n: NodeId): Command { RemoveNode(n) }

  function NotIn<K, V>(m: IndexMap<K, V>): K -> bool {
    (k: K) => !m.Has(k)
  }

  /** For each record of the target: insert it, update it, or leave it. */
  function Upserts<K, V(==)>(keys: seq<K>, previous: IndexMap<K, V>, target: IndexMap<K, V>, insert: V -> Command,
                        update: V -> Command): seq<Command> {
    if keys == [] then []
    else UpsertOne(keys[0], previous, target, insert, update) + Upserts(keys[1..], previous, target, insert, update)
  }

  function UpsertOne<K, V(==)>(k: K, previous: IndexMap<K, V>, target: IndexMap<K, V>,
                               insert: V -> Command, update: V -> Command): seq<Command>
  {
    if k !in target.entries then []
    else if k !in previous.entries then [insert(target.entries[k])]
    else if previous.entries[k] != target.entries[k] then [update(target.entries[k])]
    else []
  }

  function InsertNodeCommand(n: Node): Command { InsertNode(n) }
  function UpdateNodeCommand(n: Node): Command { UpdateNode(n) }
  function InsertShapeCommand(s: Shape): Command { InsertShape(s) }
  function UpdateShapeCommand(s: Shape): Command { UpdateShape(s) }
  function UpdateEdgeCommand(e: Edge): Command { UpdateEdge(e) }

  function Removals(previous: Document, target: Document): seq<Command> {
    Map(RemoveEdgeCommand, Filter(previous.edges.keys, NotIn(target.edges))) +
    (Map(RemoveShapeCommand, Filter(previous.shapes.keys, NotIn(target.shapes))) +
     Map(RemoveNodeCommand, Filter(previous.nodes.keys, NotIn(target.nodes))))
  }

  function NodeUpserts(previous: Document, target: Document, keys: seq<NodeId>): seq<Command> {
    Upserts(keys, previous.nodes, target.nodes, InsertNodeCommand, UpdateNodeCommand)
  }

  function ShapeUpserts(previous: Document, target: Document, keys: seq<ShapeId>): seq<Command> {
    Upserts(keys, previous.shapes, target.shapes, InsertShapeCommand, UpdateShapeCommand)
  }

  function EdgeUpserts(previous: Document, target: Document, keys: seq<EdgeId>): seq<Command> {
    Upserts(keys, previous.edges, target.edges, InsertEdgeCommand, UpdateEdgeCommand)
  }

  /** A parent to clear: the child survives and has no parent in the target. */
  function Orphaned(target: Document): ParentRelation -> bool {
    (p: ParentRelation) => ParentOf(target.relations, p.child).None? && target.Contains(p.child)
  }

  /** A membership to drop: both ends survive without it. */
  function Left(target: Document): GroupRelation -> bool {
    (g: GroupRelation) => !HasMember(target.relations, g.group, g.member) && target.Contains(g.group) &&
      target.Contains(g.member)
  }

  function RelationPart(previous: Document, target: Document): seq<Command> {
    Map(ClearCommand, Filter(previous.relations.parents, Orphaned(target))) +
    (Map(SetCommand, Filter(target.relations.parents, ParentGone(previous.relations))) +
     (Map(LeaveCommand, Filter(previous.relations.groups, Left(target))) +
      Map(JoinCommand, Filter(target.relations.groups, GroupGone(previous.relations)))))
  }

  function Between(previous: Document, target: Document): seq<Command> {
    Removals(previous, target) +
    (NodeUpserts(previous, target, target.nodes.keys) +
     (ShapeUpserts(previous, target, target.shapes.keys) +
      (EdgeUpserts(previous, target, target.edges.keys) +
       RelationPart(previous, target))))
  }

  // What the commands say.

  /** Removed is what only the previous state has, inserted what only the target has, updated what differs. */
  ghost predicate NamesRecords(commands: seq<Command>, previous: Document, target: Document) {
    && (forall e :: RemoveEdge(e) in commands <==> e in previous.edges.entries && e !in target.edges.entries)
    && (forall s :: RemoveShape(s) in commands <==> s in previous.shapes.entries && s !in target.shapes.entries)
    && (forall n :: RemoveNode(n) in commands <==> n in previous.nodes.entries && n !in target.nodes.entries)
    && (forall n :: InsertNode(n) in commands <==>
                    target.nodes.Get(n.id) == Some(n) && n.id !in previous.nodes.entries)
    && (forall n :: UpdateNode(n) in commands <==>
                    target.nodes.Get(n.id) == Some(n) && n.id in previous.nodes.entries &&
                    previous.nodes.entries[n.id] != n)
    && (forall s :: InsertShape(s) in commands <==>
                    target.shapes.Get(s.id) == Some(s) && s.id !in previous.shapes.entries)
    && (forall s :: UpdateShape(s) in commands <==>
                    target.shapes.Get(s.id) == Some(s) && s.id in previous.shapes.entries &&
                    previous.shapes.entries[s.id] != s)
    && (forall e :: InsertEdge(e) in commands <==>
                    target.edges.Get(e.id) == Some(e) && e.id !in previous.edges.entries)
    && (forall e :: UpdateEdge(e) in commands <==>
                    target.edges.Get(e.id) == Some(e) && e.id in previous.edges.entries &&
                    previous.edges.entries[e.id] != e)
  }

  /**
   * A set or join names a fact that only the target has; a clear names a surviving child whose only
   * parents are earlier ones, a leave an earlier membership of surviving records.  No binding is named.
   */
  ghost predicate NamesRelations(commands: seq<Command>, previous: Document, target: Document) {
    && (forall c, p :: SetRecordParent(c, p) in commands <==>
                       ParentRelation(c, p) in target.relations.parents &&
                       ParentRelation(c, p) !in previous.relations.parents)
    && (forall c :: ClearRecordParent(c) in commands <==>
                    && target.Contains(c)
                    && (exists p :: p in previous.relations.parents && p.child == c)
                    && (forall p :: p in target.relations.parents ==> p.child != c))
    && (forall g, m :: AddRecordToGroup(g, m) in commands <==>
                       GroupRelation(g, m) in target.relations.groups &&
                       GroupRelation(g, m) !in previous.relations.groups)
    && (forall g, m :: RemoveRecordFromGroup(g, m) in commands <==>
                       GroupRelation(g, m) in previous.relations.groups &&
                       GroupRelation(g, m) !in target.relations.groups && target.Contains(g) && target.Contains(m))
    && (forall c :: c in commands ==> !c.SetRecordBinding? && !c.RemoveRecordBinding?)
  }

  /** Edges go first and come last; relations follow the records. */
  function Step(c: Command): nat {
    match c
    case RemoveEdge(_) => 0
    case RemoveShape(_) => 1
    case RemoveNode(_) => 2
    case InsertNode(_) => 3
    case UpdateNode(_) => 3
    case InsertShape(_) => 4
    case UpdateShape(_) => 4
    case InsertEdge(_) => 5
    case UpdateEdge(_) => 5
    case ClearRecordParent(_) => 6
    case SetRecordParent(_, _) => 7
    case RemoveRecordFromGroup(_, _) => 8
    case AddRecordToGroup(_, _) => 9
    case SetRecordBinding(_) => 10
    case RemoveRecordBinding(_) => 10
  }

  /** Within a step the commands stand in the order of the state that has what they name. */
  ghost predicate GivenBefore(a: Command, b: Command, previous: Document, target: Document) {
    || Step(a) < Step(b)
    || (Step(a) == Step(b) == 0 && Before(previous.edges.keys, a.edgeId, b.edgeId))
    || (Step(a) == Step(b) == 1 && Before(previous.shapes.keys, a.shapeId, b.shapeId))
    || (Step(a) == Step(b) == 2 && Before(previous.nodes.keys, a.nodeId, b.nodeId))
    || (Step(a) == Step(b) == 3 && Before(target.nodes.keys, a.node.id, b.node.id))
    || (Step(a) == Step(b) == 4 && Before(target.shapes.keys, a.shape.id, b.shape.id))
    || (Step(a) == Step(b) == 5 && Before(target.edges.keys, a.edge.id, b.edge.id))
    || (Step(a) == Step(b) == 6 && exists p, q :: Before(previous.relations.parents, p, q) &&
                                                  p.child == a.child && q.child == b.child)
    || (Step(a) == Step(b) == 7 && Before(target.relations.parents, ParentRelation(a.child, a.parent),
                                          ParentRelation(b.child, b.parent)))
    || (Step(a) == Step(b) == 8 && Before(previous.relations.groups, GroupRelation(a.group, a.member),
                                          GroupRelation(b.group, b.member)))
    || (Step(a) == Step(b) == 9 && Before(target.relations.groups, GroupRelation(a.group, a.member),
                                          GroupRelation(b.group, b.member)))
  }

  ghost predicate GivenInOrder(commands: seq<Command>, previous: Document, target: Document) {
    forall i, j :: 0 <= i < j < |commands| ==> GivenBefore(commands[i], commands[j], previous, target)
  }

  ghost predicate Steps(commands: seq<Command>, first: nat, last: nat) {
    forall c :: c in commands ==> first <= Step(c) <= last
  }

  lemma ChosenRemovals<K(!new), V>(m: IndexMap<K, V>, other: IndexMap<K, V>, wrap: K -> Command)
    requires m.Valid() && forall x, y :: wrap(x) == wrap(y) ==> x == y
    ensures forall k :: wrap(k) in Map(wrap, Filter(m.keys, NotIn(other))) <==> k in m.entries && k !in other.entries
  {
    var gone := Filter(m.keys, NotIn(other));
    FilterMembers(m.keys, NotIn(other));
    assert forall k :: k in gone <==> k in m.entries && k !in other.entries;
    hide *;
    forall k ensures wrap(k) in Map(wrap, gone) <==> k in gone {
      MappedMembers(wrap, gone, k);
    }
  }

  lemma EdgeRemovalsNamed(previous: Document, target: Document)
    requires previous.Filed()
    ensures var gone := Map(RemoveEdgeCommand, Filter(previous.edges.keys, NotIn(target.edges)));
            Steps(gone, 0, 0) &&
            forall e :: RemoveEdge(e) in gone <==> e in previous.edges.entries && e !in target.edges.entries
  {
    ChosenRemovals(previous.edges, target.edges, RemoveEdgeCommand);
    EachHasStep(Filter(previous.edges.keys, NotIn(target.edges)), RemoveEdgeCommand, 0);
    hide Map, Filter, NotIn;
    forall e ensures RemoveEdge(e) == RemoveEdgeCommand(e) {
    }
  }

  lemma ShapeRemovalsNamed(previous: Document, target: Document)
    requires previous.Filed()
    ensures var gone := Map(RemoveShapeCommand, Filter(previous.shapes.keys, NotIn(target.shapes)));
            Steps(gone, 1, 1) &&
            forall s :: RemoveShape(s) in gone <==> s in previous.shapes.entries && s !in target.shapes.entries
  {
    ChosenRemovals(previous.shapes, target.shapes, RemoveShapeCommand);
    EachHasStep(Filter(previous.shapes.keys, NotIn(target.shapes)), RemoveShapeCommand, 1);
    hide Map, Filter, NotIn;
    forall s ensures RemoveShape(s) == RemoveShapeCommand(s) {
    }
  }

  lemma NodeRemovalsNamed(previous: Document, target: Document)
    requires previous.Filed()
    ensures var gone := Map(RemoveNodeCommand, Filter(previous.nodes.keys, NotIn(target.nodes)));
            Steps(gone, 2, 2) &&
            forall n :: RemoveNode(n) in gone <==> n in previous.nodes.entries && n !in target.nodes.entries
  {
    ChosenRemovals(previous.nodes, target.nodes, RemoveNodeCommand);
    EachHasStep(Filter(previous.nodes.keys, NotIn(target.nodes)), RemoveNodeCommand, 2);
    hide Map, Filter, NotIn;
    forall n ensures RemoveNode(n) == RemoveNodeCommand(n) {
    }
  }

  lemma RemovalsNamed(previous: Document, target: Document)
    requires previous.Filed()
    ensures var commands := Removals(previous, target);
            && Steps(commands, 0, 2)
            && (forall e :: RemoveEdge(e) in commands <==> e in previous.edges.entries && e !in target.edges.entries)
            && (forall s :: RemoveShape(s) in commands <==> s in previous.shapes.entries && s !in target.shapes.entries)
            && (forall n :: RemoveNode(n) in commands <==> n in previous.nodes.entries && n !in target.nodes.entries)
  {
    hide Map, Filter, NotIn, Steps, Step;
    EdgeRemovalsNamed(previous, target);
    ShapeRemovalsNamed(previous, target);
    NodeRemovalsNamed(previous, target);
    ThreeNamed(Map(RemoveEdgeCommand, Filter(previous.edges.keys, NotIn(target.edges))),
      Map(RemoveShapeCommand, Filter(previous.shapes.keys, NotIn(target.shapes))),
      Map(RemoveNodeCommand, Filter(previous.nodes.keys, NotIn(target.nodes))));
  }

  lemma ThreeNamed(edges: seq<Command>, shapes: seq<Command>, nodes: seq<Command>)
    requires Steps(edges, 0, 0) && Steps(shapes, 1, 1) && Steps(nodes, 2, 2)
    ensures Steps(edges + (shapes + nodes), 0, 2)
    ensures forall e :: RemoveEdge(e) in edges + (shapes + nodes) <==> RemoveEdge(e) in edges
    ensures forall s :: RemoveShape(s) in edges + (shapes + nodes) <==> RemoveShape(s) in shapes
    ensures forall n :: RemoveNode(n) in edges + (shapes + nodes) <==> RemoveNode(n) in nodes
  {
    assert forall c :: c in edges + (shapes + nodes) <==> c in edges || c in shapes || c in nodes;
  }

  lemma EachHasStep<T(!new)>(s: seq<T>, wrap: T -> Command, step: nat)
    requires forall x :: Step(wrap(x)) == step
    ensures Steps(Map(wrap, s), step, step)
  {
  }

  lemma {:induction false} UpsertsMembers<K, V>(keys: seq<K>, previous: IndexMap<K, V>, target: IndexMap<K, V>,
                                                insert: V -> Command, update: V -> Command, c: Command)
    ensures c in Upserts(keys, previous, target, insert, update) <==>
            exists k :: k in keys && c in UpsertOne(k, previous, target, insert, update)
  {
    if keys != [] {
      UpsertsMembers(keys[1..], previous, target, insert, update, c);
      assert keys == [keys[0]] + keys[1..];
      hide UpsertOne;
    }
  }

  /** A record filed under `key(v)` is inserted or updated by exactly the command that its two states call for. */
  lemma UpsertsNamed<K, V(!new)>(previous: IndexMap<K, V>, target: IndexMap<K, V>, insert: V -> Command,
                                 update: V -> Command, key: V -> K, v: V)
    requires target.Valid() && forall k :: k in target.entries ==> key(target.entries[k]) == k
    requires forall x, y :: insert(x) != update(y)
    requires forall x :: (insert(x) == insert(v) ==> x == v) && (update(x) == update(v) ==> x == v)
    ensures var commands := Upserts(target.keys, previous, target, insert, update);
            && (insert(v) in commands <==> target.Get(key(v)) == Some(v) && key(v) !in previous.entries)
            && (update(v) in commands <==> target.Get(key(v)) == Some(v) && key(v) in previous.entries &&
                                           previous.entries[key(v)] != v)
  {
    UpsertsMembers(target.keys, previous, target, insert, update, insert(v));
    UpsertsMembers(target.keys, previous, target, insert, update, update(v));
    hide Upserts;
    if target.Get(key(v)) == Some(v) {
      assert key(v) in target.keys;
      assert key(v) !in previous.entries ==> insert(v) in UpsertOne(key(v), previous, target, insert, update);
    }
  }

  lemma {:induction false} UpsertsInOrder<K, V>(keys: seq<K>, previous: IndexMap<K, V>, target: IndexMap<K, V>,
                                                insert: V -> Command, update: V -> Command,
                                                order: (Command, Command) -> bool)
    requires forall k, l, a, b ::
               Before(keys, k, l) && a in UpsertOne(k, previous, target, insert, update) &&
               b in UpsertOne(l, previous, target, insert, update) ==>
                 order(a, b)
    ensures Pairwise(Upserts(keys, previous, target, insert, update), order)
  {
    if keys != [] {
      hide UpsertOne;
      assert keys == [keys[0]] + keys[1..];
      forall k, l ensures Before(keys, k, l) <==> (keys[0] == k && l in keys[1..]) || Before(keys[1..], k, l) {
        BeforeCons(keys[0], keys[1..], k, l);
      }
      hide Before;
      UpsertsInOrder(keys[1..], previous, target, insert, update, order);
      forall c | c in Upserts(keys[1..], previous, target, insert, update)
        ensures exists k :: k in keys[1..] && c in UpsertOne(k, previous, target, insert, update)
      {
        UpsertsMembers(keys[1..], previous, target, insert, update, c);
      }
      OneInOrder(keys[0], previous, target, insert, update, order);
      PairwiseConcat(UpsertOne(keys[0], previous, target, insert, update),
        Upserts(keys[1..], previous, target, insert, update), order);
    }
  }

  lemma OneInOrder<K, V>(k: K, previous: IndexMap<K, V>, target: IndexMap<K, V>,
                         insert: V -> Command, update: V -> Command, order: (Command, Command) -> bool)
    ensures Pairwise(UpsertOne(k, previous, target, insert, update), order)
  {
  }

  lemma NodeUpsertsNamed(previous: Document, target: Document)
    requires target.Filed()
    ensures var commands := NodeUpserts(previous, target, target.nodes.keys);
            && Steps(commands, 3, 3)
            && (forall n :: InsertNode(n) in commands <==>
                            target.nodes.Get(n.id) == Some(n) && n.id !in previous.nodes.entries)
            && (forall n :: UpdateNode(n) in commands <==>
                            target.nodes.Get(n.id) == Some(n) && n.id in previous.nodes.entries &&
                            previous.nodes.entries[n.id] != n)
  {
    hide Upserts;
    forall c | c in NodeUpserts(previous, target, target.nodes.keys) ensures Step(c) == 3 {
      UpsertsMembers(target.nodes.keys, previous.nodes, target.nodes, InsertNodeCommand, UpdateNodeCommand, c);
    }
    forall n
      ensures InsertNode(n) in NodeUpserts(previous, target, target.nodes.keys) <==>
              target.nodes.Get(n.id) == Some(n) && n.id !in previous.nodes.entries
      ensures UpdateNode(n) in NodeUpserts(previous, target, target.nodes.keys) <==>
              target.nodes.Get(n.id) == Some(n) && n.id in previous.nodes.entries && previous.nodes.entries[n.id] != n
    {
      UpsertsNamed(previous.nodes, target.nodes, InsertNodeCommand, UpdateNodeCommand, NodeKey, n);
    }
  }

  lemma ShapeUpsertsNamed(previous: Document, target: Document)
    requires target.Filed()
    ensures var commands := ShapeUpserts(previous, target, target.shapes.keys);
            && Steps(commands, 4, 4)
            && (forall s :: InsertShape(s) in commands <==>
                            target.shapes.Get(s.id) == Some(s) && s.id !in previous.shapes.entries)
            && (forall s :: UpdateShape(s) in commands <==>
                            target.shapes.Get(s.id) == Some(s) && s.id in previous.shapes.entries &&
                            previous.shapes.entries[s.id] != s)
  {
    hide Upserts;
    forall c | c in ShapeUpserts(previous, target, target.shapes.keys) ensures Step(c) == 4 {
      UpsertsMembers(target.shapes.keys, previous.shapes, target.shapes, InsertShapeCommand, UpdateShapeCommand, c);
    }
    forall s
      ensures InsertShape(s) in ShapeUpserts(previous, target, target.shapes.keys) <==>
              target.shapes.Get(s.id) == Some(s) && s.id !in previous.shapes.entries
      ensures UpdateShape(s) in ShapeUpserts(previous, target, target.shapes.keys) <==>
              target.shapes.Get(s.id) == Some(s) && s.id in previous.shapes.entries &&
              previous.shapes.entries[s.id] != s
    {
      UpsertsNamed(previous.shapes, target.shapes, InsertShapeCommand, UpdateShapeCommand, ShapeKey, s);
    }
  }

  lemma EdgeUpsertsNamed(previous: Document, target: Document)
    requires target.Filed()
    ensures var commands := EdgeUpserts(previous, target, target.edges.keys);
            && Steps(commands, 5, 5)
            && (forall e :: InsertEdge(e) in commands <==>
                            target.edges.Get(e.id) == Some(e) && e.id !in previous.edges.entries)
            && (forall e :: UpdateEdge(e) in commands <==>
                            target.edges.Get(e.id) == Some(e) && e.id in previous.edges.entries &&
                            previous.edges.entries[e.id] != e)
  {
    hide Upserts;
    forall c | c in EdgeUpserts(previous, target, target.edges.keys) ensures Step(c) == 5 {
      UpsertsMembers(target.edges.keys, previous.edges, target.edges, InsertEdgeCommand, UpdateEdgeCommand, c);
    }
    forall e
      ensures InsertEdge(e) in EdgeUpserts(previous, target, target.edges.keys) <==>
              target.edges.Get(e.id) == Some(e) && e.id !in previous.edges.entries
      ensures UpdateEdge(e) in EdgeUpserts(previous, target, target.edges.keys) <==>
              target.edges.Get(e.id) == Some(e) && e.id in previous.edges.entries && previous.edges.entries[e.id] != e
    {
      UpsertsNamed(previous.edges, target.edges, InsertEdgeCommand, UpdateEdgeCommand, EdgeKey, e);
    }
  }

  lemma ClearsNamed(ps: seq<ParentRelation>, target: Document)
    ensures var clear := Map(ClearCommand, Filter(ps, Orphaned(target)));
            Steps(clear, 6, 6) &&
            forall c :: ClearRecordParent(c) in clear <==>
                        && target.Contains(c)
                        && (exists p :: p in ps && p.child == c)
                        && (forall p :: p in target.relations.parents ==> p.child != c)
  {
    var gone := Filter(ps, Orphaned(target));
    FilterMembers(ps, Orphaned(target));
    EachHasStep(gone, ClearCommand, 6);
    hide Filter, Map;
    forall c ensures ClearRecordParent(c) in Map(ClearCommand, gone) <==> exists p :: p in gone && p.child == c {
      if p :| p in gone && p.child == c {
        MapElement(ClearCommand, gone, p);
      }
      if ClearRecordParent(c) in Map(ClearCommand, gone) {
        var p := MapSource(ClearCommand, gone, ClearRecordParent(c));
      }
    }
  }

  lemma SetsNamed(ps: seq<ParentRelation>, previous: Relations)
    requires WellFormed(previous)
    ensures var set_ := Map(SetCommand, Filter(ps, ParentGone(previous)));
            Steps(set_, 7, 7) &&
            forall c, p :: SetRecordParent(c, p) in set_ <==>
                           ParentRelation(c, p) in ps && ParentRelation(c, p) !in previous.parents
  {
    var come := Filter(ps, ParentGone(previous));
    GoneIff(previous);
    FilterMembers(ps, ParentGone(previous));
    EachHasStep(come, SetCommand, 7);
    hide Filter, Map, WellFormed, ParentGone;
    forall c, p ensures SetRecordParent(c, p) in Map(SetCommand, come) <==> ParentRelation(c, p) in come {
      MappedMembers(SetCommand, come, ParentRelation(c, p));
    }
  }

  lemma LeavesNamed(gs: seq<GroupRelation>, target: Document)
    ensures var leave := Map(LeaveCommand, Filter(gs, Left(target)));
            Steps(leave, 8, 8) &&
            forall g, m :: RemoveRecordFromGroup(g, m) in leave <==>
                           GroupRelation(g, m) in gs && GroupRelation(g, m) !in target.relations.groups &&
                           target.Contains(g) && target.Contains(m)
  {
    var gone := Filter(gs, Left(target));
    FilterMembers(gs, Left(target));
    EachHasStep(gone, LeaveCommand, 8);
    hide Filter, Map;
    forall g, m ensures RemoveRecordFromGroup(g, m) in Map(LeaveCommand, gone) <==> GroupRelation(g, m) in gone {
      MappedMembers(LeaveCommand, gone, GroupRelation(g, m));
    }
  }

  lemma JoinsNamed(gs: seq<GroupRelation>, previous: Relations)
    ensures var join := Map(JoinCommand, Filter(gs, GroupGone(previous)));
            Steps(join, 9, 9) &&
            forall g, m :: AddRecordToGroup(g, m) in join <==>
                           GroupRelation(g, m) in gs && GroupRelation(g, m) !in previous.groups
  {
    var come := Filter(gs, GroupGone(previous));
    FilterMembers(gs, GroupGone(previous));
    EachHasStep(come, JoinCommand, 9);
    hide Filter, Map;
    forall g, m ensures AddRecordToGroup(g, m) in Map(JoinCommand, come) <==> GroupRelation(g, m) in come {
      MappedMembers(JoinCommand, come, GroupRelation(g, m));
    }
  }

  /** The relation commands. */
  lemma RelationPartNamed(previous: Document, target: Document)
    requires WellFormed(previous.relations)
    ensures Steps(RelationPart(previous, target), 6, 9)
    ensures NamesRelations(RelationPart(previous, target), previous, target)
  {
    hide Map, Filter, WellFormed, Orphaned, Left, ParentGone, GroupGone;
    ClearsNamed(previous.relations.parents, target);
    SetsNamed(target.relations.parents, previous.relations);
    LeavesNamed(previous.relations.groups, target);
    JoinsNamed(target.relations.groups, previous.relations);
    FourNamed(Map(ClearCommand, Filter(previous.relations.parents, Orphaned(target))),
      Map(SetCommand, Filter(target.relations.parents, ParentGone(previous.relations))),
      Map(LeaveCommand, Filter(previous.relations.groups, Left(target))),
      Map(JoinCommand, Filter(target.relations.groups, GroupGone(previous.relations))));
    hide Steps, Step;
  }

  lemma FourNamed(clear: seq<Command>, set_: seq<Command>, leave: seq<Command>, join: seq<Command>)
    requires Steps(clear, 6, 6) && Steps(set_, 7, 7) && Steps(leave, 8, 8) && Steps(join, 9, 9)
    ensures Steps(clear + (set_ + (leave + join)), 6, 9)
    ensures forall c :: c in clear + (set_ + (leave + join)) ==> !c.SetRecordBinding? && !c.RemoveRecordBinding?
    ensures forall c :: ClearRecordParent(c) in clear + (set_ + (leave + join)) <==> ClearRecordParent(c) in clear
    ensures forall c, p :: SetRecordParent(c, p) in clear + (set_ + (leave + join)) <==> SetRecordParent(c, p) in set_
    ensures forall g, m :: RemoveRecordFromGroup(g, m) in clear + (set_ + (leave + join)) <==>
                           RemoveRecordFromGroup(g, m) in leave
    ensures forall g, m :: AddRecordToGroup(g, m) in clear + (set_ + (leave + join)) <==>
                           AddRecordToGroup(g, m) in join
  {
    assert forall c :: c in clear + (set_ + (leave + join)) <==> c in clear || c in set_ || c in leave || c in join;
  }

  lemma InFive(a: seq<Command>, b: seq<Command>, c: seq<Command>, d: seq<Command>, e: seq<Command>, x: Command)
    requires Steps(a, 0, 2) && Steps(b, 3, 3) && Steps(c, 4, 4) && Steps(d, 5, 5) && Steps(e, 6, 9)
    ensures x in a + (b + (c + (d + e))) <==>
            x in (if Step(x) <= 2 then a else if Step(x) == 3 then b else if Step(x) == 4 then c
                  else if Step(x) == 5 then d else e)
  {
    assert x in a + (b + (c + (d + e))) <==> x in a || x in b || x in c || x in d || x in e;
  }

  /** The commands name exactly what the two documents disagree on. */
  lemma BetweenNames(previous: Document, target: Document)
    requires previous.Filed() && target.Filed() && WellFormed(previous.relations)
    ensures NamesRecords(Between(previous, target), previous, target)
    ensures NamesRelations(Between(previous, target), previous, target)
  {
    hide Removals, NodeUpserts, ShapeUpserts, EdgeUpserts, RelationPart, Steps, WellFormed;
    RemovalsNamed(previous, target);
    NodeUpsertsNamed(previous, target);
    ShapeUpsertsNamed(previous, target);
    EdgeUpsertsNamed(previous, target);
    RelationPartNamed(previous, target);
    var a, b := Removals(previous, target), NodeUpserts(previous, target, target.nodes.keys);
    var c, d := ShapeUpserts(previous, target, target.shapes.keys), EdgeUpserts(previous, target, target.edges.keys);
    FiveNameRecords(a, b, c, d, RelationPart(previous, target), previous, target);
    FiveNameRelations(a, b, c, d, RelationPart(previous, target), previous, target);
  }

  lemma FiveNameRecords(a: seq<Command>, b: seq<Command>, c: seq<Command>, d: seq<Command>, e: seq<Command>,
                        previous: Document, target: Document)
    requires Steps(a, 0, 2) && Steps(b, 3, 3) && Steps(c, 4, 4) && Steps(d, 5, 5) && Steps(e, 6, 9)
    requires forall x :: RemoveEdge(x) in a <==> x in previous.edges.entries && x !in target.edges.entries
    requires forall x :: RemoveShape(x) in a <==> x in previous.shapes.entries && x !in target.shapes.entries
    requires forall x :: RemoveNode(x) in a <==> x in previous.nodes.entries && x !in target.nodes.entries
    requires forall n :: InsertNode(n) in b <==>
                         target.nodes.Get(n.id) == Some(n) && n.id !in previous.nodes.entries
    requires forall n :: UpdateNode(n) in b <==>
                         target.nodes.Get(n.id) == Some(n) && n.id in previous.nodes.entries &&
                         previous.nodes.entries[n.id] != n
    requires forall s :: InsertShape(s) in c <==>
                         target.shapes.Get(s.id) == Some(s) && s.id !in previous.shapes.entries
    requires forall s :: UpdateShape(s) in c <==>
                         target.shapes.Get(s.id) == Some(s) && s.id in previous.shapes.entries &&
                         previous.shapes.entries[s.id] != s
    requires forall x :: InsertEdge(x) in d <==>
                         target.edges.Get(x.id) == Some(x) && x.id !in previous.edges.entries
    requires forall x :: UpdateEdge(x) in d <==>
                         target.edges.Get(x.id) == Some(x) && x.id in previous.edges.entries &&
                         previous.edges.entries[x.id] != x
    ensures NamesRecords(a + (b + (c + (d + e))), previous, target)
  {
    hide Steps;
    forall x
      ensures x in a + (b + (c + (d + e))) <==>
              x in (if Step(x) <= 2 then a else if Step(x) == 3 then b else if Step(x) == 4 then c
                    else if Step(x) == 5 then d else e)
    {
      InFive(a, b, c, d, e, x);
    }
  }

  lemma FiveNameRelations(a: seq<Command>, b: seq<Command>, c: seq<Command>, d: seq<Command>, e: seq<Command>,
                          previous: Document, target: Document)
    requires Steps(a, 0, 2) && Steps(b, 3, 3) && Steps(c, 4, 4) && Steps(d, 5, 5) && Steps(e, 6, 9)
    requires NamesRelations(e, previous, target)
    ensures NamesRelations(a + (b + (c + (d + e))), previous, target)
  {
    var all := a + (b + (c + (d + e)));
    forall x ensures 6 <= Step(x) ==> (x in all <==> x in e) {
      InFive(a, b, c, d, e, x);
    }
    assert forall x :: x in all && Step(x) > 9 ==> x in e;
    hide Steps;
  }

  // And their order.

  lemma RecordCommandsInOrder(previous: Document, target: Document, order: (Command, Command) -> bool)
    requires target.Filed() && forall a, b :: GivenBefore(a, b, previous, target) ==> order(a, b)
    ensures Pairwise(NodeUpserts(previous, target, target.nodes.keys), order)
    ensures Pairwise(ShapeUpserts(previous, target, target.shapes.keys), order)
    ensures Pairwise(EdgeUpserts(previous, target, target.edges.keys), order)
  {
    hide Before, Pairwise, Upserts;
    UpsertsInOrder(target.nodes.keys, previous.nodes, target.nodes, InsertNodeCommand, UpdateNodeCommand, order);
    UpsertsInOrder(target.shapes.keys, previous.shapes, target.shapes, InsertShapeCommand, UpdateShapeCommand, order);
    UpsertsInOrder(target.edges.keys, previous.edges, target.edges, InsertEdgeCommand, UpdateEdgeCommand, order);
  }

  lemma RemovalsInOrder(previous: Document, target: Document, order: (Command, Command) -> bool)
    requires forall a, b :: GivenBefore(a, b, previous, target) ==> order(a, b)
    ensures Pairwise(Map(RemoveEdgeCommand, Filter(previous.edges.keys, NotIn(target.edges))), order)
    ensures Pairwise(Map(RemoveShapeCommand, Filter(previous.shapes.keys, NotIn(target.shapes))), order)
    ensures Pairwise(Map(RemoveNodeCommand, Filter(previous.nodes.keys, NotIn(target.nodes))), order)
  {
    hide Before, Pairwise, Map, Filter, NotIn;
    PairwiseSelected(previous.edges.keys, NotIn(target.edges), RemoveEdgeCommand, order);
    PairwiseSelected(previous.shapes.keys, NotIn(target.shapes), RemoveShapeCommand, order);
    PairwiseSelected(previous.nodes.keys, NotIn(target.nodes), RemoveNodeCommand, order);
  }

  lemma RelationCommandsInOrder(previous: Document, target: Document, order: (Command, Command) -> bool)
    requires forall a, b :: GivenBefore(a, b, previous, target) ==> order(a, b)
    ensures Pairwise(Map(ClearCommand, Filter(previous.relations.parents, Orphaned(target))), order)
    ensures Pairwise(Map(SetCommand, Filter(target.relations.parents, ParentGone(previous.relations))), order)
    ensures Pairwise(Map(LeaveCommand, Filter(previous.relations.groups, Left(target))), order)
    ensures Pairwise(Map(JoinCommand, Filter(target.relations.groups, GroupGone(previous.relations))), order)
  {
    hide Before, Pairwise, Map, Filter, Orphaned, Left, ParentGone, GroupGone;
    PairwiseSelected(previous.relations.parents, Orphaned(target), ClearCommand, order);
    PairwiseSelected(target.relations.parents, ParentGone(previous.relations), SetCommand, order);
    PairwiseSelected(previous.relations.groups, Left(target), LeaveCommand, order);
    PairwiseSelected(target.relations.groups, GroupGone(previous.relations), JoinCommand, order);
  }

  lemma StepsInOrder(a: seq<Command>, b: seq<Command>, first: nat, mid: nat, last: nat,
                     order: (Command, Command) -> bool)
    requires Steps(a, first, mid) && Steps(b, mid + 1, last) && first <= mid < last
    requires Pairwise(a, order) && Pairwise(b, order)
    requires forall x, y :: Step(x) < Step(y) ==> order(x, y)
    ensures Pairwise(a + b, order) && Steps(a + b, first, last)
  {
    hide Pairwise, Step;
    PairwiseConcat(a, b, order);
  }

  /** Step by step, and within a step in the order of the state that has what is named. */
  lemma BetweenInOrder(previous: Document, target: Document)
    requires previous.Filed() && target.Filed() && WellFormed(previous.relations)
    ensures GivenInOrder(Between(previous, target), previous, target)
  {
    hide *;
    var order := (x, y) => GivenBefore(x, y, previous, target);
    RecordCommandsInOrder(previous, target, order);
    RemovalsInOrder(previous, target, order);
    RelationCommandsInOrder(previous, target, order);
    LowerStepFirst(previous, target);
    EdgeRemovalsNamed(previous, target);
    ShapeRemovalsNamed(previous, target);
    NodeRemovalsNamed(previous, target);
    NodeUpsertsNamed(previous, target);
    ShapeUpsertsNamed(previous, target);
    EdgeUpsertsNamed(previous, target);
    ClearsNamed(previous.relations.parents, target);
    SetsNamed(target.relations.parents, previous.relations);
    LeavesNamed(previous.relations.groups, target);
    JoinsNamed(target.relations.groups, previous.relations);
    TenInOrder(Map(RemoveEdgeCommand, Filter(previous.edges.keys, NotIn(target.edges))),
      Map(RemoveShapeCommand, Filter(previous.shapes.keys, NotIn(target.shapes))),
      Map(RemoveNodeCommand, Filter(previous.nodes.keys, NotIn(target.nodes))),
      NodeUpserts(previous, target, target.nodes.keys), ShapeUpserts(previous, target, target.shapes.keys),
      EdgeUpserts(previous, target, target.edges.keys),
      Map(ClearCommand, Filter(previous.relations.parents, Orphaned(target))),
      Map(SetCommand, Filter(target.relations.parents, ParentGone(previous.relations))),
      Map(LeaveCommand, Filter(previous.relations.groups, Left(target))),
      Map(JoinCommand, Filter(target.relations.groups, GroupGone(previous.relations))), order);
    BetweenIsTen(previous, target);
    PairwiseGiven(Between(previous, target), previous, target, order);
  }

  lemma LowerStepFirst(previous: Document, target: Document)
    ensures forall x, y :: Step(x) < Step(y) ==> GivenBefore(x, y, previous, target)
  {
  }

  lemma PairwiseGiven(commands: seq<Command>, previous: Document, target: Document,
                      order: (Command, Command) -> bool)
    requires Pairwise(commands, order) && forall x, y :: order(x, y) ==> GivenBefore(x, y, previous, target)
    ensures GivenInOrder(commands, previous, target)
  {
  }

  lemma TenInOrder(a: seq<Command>, b: seq<Command>, c: seq<Command>, d: seq<Command>, e: seq<Command>,
                   f: seq<Command>, g: seq<Command>, h: seq<Command>, i: seq<Command>, j: seq<Command>,
                   order: (Command, Command) -> bool)
    requires Steps(a, 0, 0) && Steps(b, 1, 1) && Steps(c, 2, 2) && Steps(d, 3, 3) && Steps(e, 4, 4)
    requires Steps(f, 5, 5) && Steps(g, 6, 6) && Steps(h, 7, 7) && Steps(i, 8, 8) && Steps(j, 9, 9)
    requires Pairwise(a, order) && Pairwise(b, order) && Pairwise(c, order) && Pairwise(d, order)
    requires Pairwise(e, order) && Pairwise(f, order) && Pairwise(g, order) && Pairwise(h, order)
    requires Pairwise(i, order) && Pairwise(j, order)
    requires forall x, y :: Step(x) < Step(y) ==> order(x, y)
    ensures Pairwise((a + (b + c)) + (d + (e + (f + (g + (h + (i + j)))))), order)
  {
    hide *;
    StepsInOrder(b, c, 1, 1, 2, order);
    StepsInOrder(a, b + c, 0, 0, 2, order);
    StepsInOrder(i, j, 8, 8, 9, order);
    StepsInOrder(h, i + j, 7, 7, 9, order);
    StepsInOrder(g, h + (i + j), 6, 6, 9, order);
    StepsInOrder(f, g + (h + (i + j)), 5, 5, 9, order);
    StepsInOrder(e, f + (g + (h + (i + j))), 4, 4, 9, order);
    StepsInOrder(d, e + (f + (g + (h + (i + j)))), 3, 3, 9, order);
    StepsInOrder(a + (b + c), d + (e + (f + (g + (h + (i + j))))), 0, 2, 9, order);
  }

  lemma BetweenIsTen(previous: Document, target: Document)
    ensures Between(previous, target) ==
            (Map(RemoveEdgeCommand, Filter(previous.edges.keys, NotIn(target.edges))) +
              (Map(RemoveShapeCommand, Filter(previous.shapes.keys, NotIn(target.shapes))) +
                Map(RemoveNodeCommand, Filter(previous.nodes.keys, NotIn(target.nodes))))) +
              (NodeUpserts(previous, target, target.nodes.keys) +
                (ShapeUpserts(previous, target, target.shapes.keys) +
                  (EdgeUpserts(previous, target, target.edges.keys) +
                    (Map(ClearCommand, Filter(previous.relations.parents, Orphaned(target))) +
                      (Map(SetCommand, Filter(target.relations.parents, ParentGone(previous.relations))) +
                        (Map(LeaveCommand, Filter(previous.relations.groups, Left(target))) +
                          Map(JoinCommand, Filter(target.relations.groups, GroupGone(previous.relations)))))))))
  {
  }

  ghost predicate HasParent(ps: seq<ParentRelation>, child: RecordId) {
    exists p :: p in ps && p.child == child
  }

  /** Every relation that the first state has and the second lacks has lost an end. */
  ghost predicate NothingDropped(previous: Document, target: Document) {
    && (forall p :: p in previous.relations.parents && target.Contains(p.child) ==>
                      HasParent(target.relations.parents, p.child))
    && (forall g :: g in previous.relations.groups && target.Contains(g.group) && target.Contains(g.member) ==>
                      g in target.relations.groups)
  }

  /**
   * There is nothing to do exactly when the records agree, every parent and membership of the target is
   * an earlier one, and the earlier ones that are not kept have lost an end.
   */
  lemma NothingToDoIff(previous: Document, target: Document)
    requires previous.Filed() && target.Filed() && WellFormed(previous.relations)
    ensures Between(previous, target) == [] <==>
            && previous.SameRecords(target)
            && (forall p :: p in target.relations.parents ==> p in previous.relations.parents)
            && (forall g :: g in target.relations.groups ==> g in previous.relations.groups)
            && NothingDropped(previous, target)
  {
    hide Between, WellFormed;
    BetweenNames(previous, target);
    var commands := Between(previous, target);
    assert commands != [] ==> commands[0] in commands;
    if commands == [] {
      NoRecordCommand(commands, previous, target);
      NoRelationCommand(commands, previous, target);
    } else if previous.SameRecords(target)
              && (forall p :: p in target.relations.parents ==> p in previous.relations.parents)
              && (forall g :: g in target.relations.groups ==> g in previous.relations.groups) {
      if NothingDropped(previous, target) {
        forall c ensures c !in commands {
          NoCommandAtAll(c, commands, previous, target);
        }
      }
    }
  }

  lemma NoRecordCommand(commands: seq<Command>, previous: Document, target: Document)
    requires previous.Filed() && target.Filed() && NamesRecords(commands, previous, target) && commands == []
    ensures previous.SameRecords(target)
  {
    forall n ensures previous.nodes.Get(n) == target.nodes.Get(n) {
      assert RemoveNode(n) !in commands;
      if target.nodes.Has(n) {
        assert InsertNode(target.nodes.entries[n]) !in commands && UpdateNode(target.nodes.entries[n]) !in commands;
      }
    }
    forall s ensures previous.shapes.Get(s) == target.shapes.Get(s) {
      assert RemoveShape(s) !in commands;
      if target.shapes.Has(s) {
        assert InsertShape(target.shapes.entries[s]) !in commands && UpdateShape(target.shapes.entries[s]) !in commands;
      }
    }
    forall e ensures previous.edges.Get(e) == target.edges.Get(e) {
      assert RemoveEdge(e) !in commands;
      if target.edges.Has(e) {
        assert InsertEdge(target.edges.entries[e]) !in commands && UpdateEdge(target.edges.entries[e]) !in commands;
      }
    }
    SameEntries(previous.nodes, target.nodes);
    SameEntries(previous.shapes, target.shapes);
    SameEntries(previous.edges, target.edges);
  }

  lemma NoRelationCommand(commands: seq<Command>, previous: Document, target: Document)
    requires NamesRelations(commands, previous, target) && commands == []
    ensures forall p :: p in target.relations.parents ==> p in previous.relations.parents
    ensures forall g :: g in target.relations.groups ==> g in previous.relations.groups
    ensures NothingDropped(previous, target)
  {
    forall p | p in target.relations.parents ensures p in previous.relations.parents {
      assert SetRecordParent(p.child, p.parent) !in commands;
      assert p == ParentRelation(p.child, p.parent);
    }
    forall g | g in target.relations.groups ensures g in previous.relations.groups {
      assert AddRecordToGroup(g.group, g.member) !in commands;
      assert g == GroupRelation(g.group, g.member);
    }
    forall p | p in previous.relations.parents && target.Contains(p.child)
      ensures exists q :: q in target.relations.parents && q.child == p.child
    {
      assert ClearRecordParent(p.child) !in commands;
    }
    forall g | g in previous.relations.groups && target.Contains(g.group) && target.Contains(g.member)
      ensures g in target.relations.groups
    {
      assert RemoveRecordFromGroup(g.group, g.member) !in commands;
      assert g == GroupRelation(g.group, g.member);
    }
  }

  lemma NoCommandAtAll(c: Command, commands: seq<Command>, previous: Document, target: Document)
    requires previous.SameRecords(target) && NothingDropped(previous, target)
    requires NamesRecords(commands, previous, target) && NamesRelations(commands, previous, target)
    requires forall p :: p in target.relations.parents ==> p in previous.relations.parents
    requires forall g :: g in target.relations.groups ==> g in previous.relations.groups
    ensures c !in commands
  {
    match c
    case SetRecordParent(x, p) =>
      assert ParentRelation(x, p) in target.relations.parents ==> ParentRelation(x, p) in previous.relations.parents;
    case AddRecordToGroup(g, m) =>
      assert GroupRelation(g, m) in target.relations.groups ==> GroupRelation(g, m) in previous.relations.groups;
    case RemoveRecordFromGroup(g, m) =>
      var x := GroupRelation(g, m);
      assert x in previous.relations.groups && target.Contains(x.group) && target.Contains(x.member) ==>
          x in target.relations.groups;
    case _ =>
  }

  /** Between sound documents: exactly when records, parents and memberships agree. */
  lemma NothingBetweenSoundIff(previous: Document, target: Document)
    requires Sound(previous) && Sound(target)
    ensures Between(previous, target) == [] <==>
            && previous.SameRecords(target)
            && Elements(previous.relations.parents) == Elements(target.relations.parents)
            && Elements(previous.relations.groups) == Elements(target.relations.groups)
  {
    hide Between, Acyclic, NodesSound, EdgesSound, BindingsSound;
    NothingToDoIff(previous, target);
    if previous.SameRecords(target) {
      KeptWhenNothingDropped(previous, target);
    }
  }

  lemma EarlierParentKept(a: seq<ParentRelation>, b: seq<ParentRelation>, p: ParentRelation)
    requires Unique(a, ChildKey) && p in a && forall q :: q in b ==> q in a
    requires HasParent(b, p.child)
    ensures p in b
  {
    var q :| q in b && q.child == p.child;
    LookupMember(a, ChildKey, p);
    LookupMember(a, ChildKey, q);
  }

  lemma KeptWhenNothingDropped(previous: Document, target: Document)
    requires RelationsSound(previous) && RelationsSound(target) && previous.SameRecords(target)
    ensures (forall p :: p in target.relations.parents ==> p in previous.relations.parents) &&
            (forall g :: g in target.relations.groups ==> g in previous.relations.groups) &&
            NothingDropped(previous, target) <==>
              Elements(previous.relations.parents) == Elements(target.relations.parents) &&
              Elements(previous.relations.groups) == Elements(target.relations.groups)
  {
    hide Acyclic, BindingsSound, Unique, NothingDropped;
    NothingDroppedIff(previous, target);
    hide ParentsSound, GroupsSound;
    SameWhenKept(previous.relations, target.relations);
  }

  lemma SameWhenKept(a: Relations, b: Relations)
    requires Unique(a.parents, ChildKey)
    ensures (forall p :: p in b.parents ==> p in a.parents) && (forall g :: g in b.groups ==> g in a.groups) &&
            (forall p :: p in a.parents ==> HasParent(b.parents, p.child)) &&
            (forall g :: g in a.groups ==> g in b.groups) <==>
              Elements(a.parents) == Elements(b.parents) && Elements(a.groups) == Elements(b.groups)
  {
    hide *;
    SameElements(a.parents, b.parents);
    SameElements(a.groups, b.groups);
    forall p | p in b.parents ensures HasParent(b.parents, p.child) {
      OwnParent(b.parents, p);
    }
    if (forall p :: p in b.parents ==> p in a.parents) && forall p :: p in a.parents ==> HasParent(b.parents, p.child) {
      forall p | p in a.parents ensures p in b.parents {
        EarlierParentKept(a.parents, b.parents, p);
      }
    }
  }

  lemma OwnParent(ps: seq<ParentRelation>, p: ParentRelation)
    requires p in ps
    ensures HasParent(ps, p.child)
  {
  }

  /** With the same records and no dangling relation, every earlier fact has to be kept or replaced. */
  lemma NothingDroppedIff(previous: Document, target: Document)
    requires previous.SameRecords(target)
    requires ParentsSound(previous, previous.relations.parents) && GroupsSound(previous, previous.relations.groups)
    ensures NothingDropped(previous, target) <==>
            && (forall p :: p in previous.relations.parents ==> HasParent(target.relations.parents, p.child))
            && (forall g :: g in previous.relations.groups ==> g in target.relations.groups)
  {
    forall x ensures previous.Contains(x) <==> target.Contains(x) {
    }
  }

  lemma SameElements<T(!new)>(s: seq<T>, t: seq<T>)
    ensures Elements(s) == Elements(t) <==> forall x :: x in s <==> x in t
  {
    if Elements(s) == Elements(t) {
      forall x ensures x in s <==> x in t {
        assert x in Elements(s) <==> x in Elements(t);
      }
    }
  }

  // The loops of the program.

  method AppendChosen<T>(commands: seq<Command>, s: seq<T>, chosen: T -> bool, wrap: T -> Command)
    returns (more: seq<Command>)
    ensures more == commands + Map(wrap, Filter(s, chosen))
  {
    more := commands;
    for i := 0 to |s|
      invariant more == commands + Map(wrap, Filter(s[..i], chosen))
    {
      assert s[..i + 1] == s[..i] + [s[i]];
      FilterConcat(s[..i], [s[i]], chosen);
      MapConcat(wrap, Filter(s[..i], chosen), Filter([s[i]], chosen));
      if chosen(s[i]) {
        more := more + [wrap(s[i])];
      }
    }
    assert s[..|s|] == s;
  }

  method AppendUpserts<K, V(==)>(commands: seq<Command>, keys: seq<K>, previous: IndexMap<K, V>, target: IndexMap<K, V>,
                                 insert: V -> Command, update: V -> Command)
    returns (more: seq<Command>)
    requires forall k :: k in keys ==> k in target.entries
    ensures more == commands + Upserts(keys, previous, target, insert, update)
  {
    more := commands;
    for i := 0 to |keys|
      invariant more + Upserts(keys[i..], previous, target, insert, update) == commands +
                Upserts(keys, previous, target, insert, update)
    {
      assert keys[i..][1..] == keys[i + 1..];
      var value := target.entries[keys[i]];
      match previous.Get(keys[i]) {
        case None => more := more + [insert(value)];
        case Some(old_) =>
          if old_ != value {
            more := more + [update(value)];
          }
      }
    }
    assert keys[|keys|..] == [];
  }

  method TransactionBetween(previous: Document, target: Document) returns (commands: seq<Command>)
    requires previous.Filed() && target.Filed()
    ensures commands == Between(previous, target)
    ensures WellFormed(previous.relations) ==>
              && NamesRecords(commands, previous, target)
              && NamesRelations(commands, previous, target)
              && GivenInOrder(commands, previous, target)
  {
    hide *;
    commands := ListCommands(previous, target);
    if WellFormed(previous.relations) {
      BetweenNames(previous, target);
      BetweenInOrder(previous, target);
    }
  }

  method ListCommands(previous: Document, target: Document) returns (commands: seq<Command>)
    requires previous.Filed() && target.Filed()
    ensures commands == Between(previous, target)
  {
    commands := AppendRemovals(previous, target);
    hide Removals, RelationPart, Upserts;
    JoinFive(commands, NodeUpserts(previous, target, target.nodes.keys),
      ShapeUpserts(previous, target, target.shapes.keys),
             EdgeUpserts(previous, target, target.edges.keys), RelationPart(previous, target));
    commands := AppendUpserts(commands, target.nodes.keys, previous.nodes, target.nodes, InsertNodeCommand,
      UpdateNodeCommand);
    commands := AppendUpserts(commands, target.shapes.keys, previous.shapes, target.shapes, InsertShapeCommand,
      UpdateShapeCommand);
    commands := AppendUpserts(commands, target.edges.keys, previous.edges, target.edges, InsertEdgeCommand,
      UpdateEdgeCommand);
    var relations := AppendRelationCommands(previous, target);
    commands := commands + relations;
  }

  method AppendRemovals(previous: Document, target: Document) returns (commands: seq<Command>)
    ensures commands == Removals(previous, target)
  {
    hide Filter, Map, NotIn;
    JoinFour(Map(RemoveEdgeCommand, Filter(previous.edges.keys, NotIn(target.edges))),
             Map(RemoveShapeCommand, Filter(previous.shapes.keys, NotIn(target.shapes))),
             Map(RemoveNodeCommand, Filter(previous.nodes.keys, NotIn(target.nodes))), []);
    commands := [];
    commands := AppendChosen(commands, previous.edges.keys, NotIn(target.edges), RemoveEdgeCommand);
    commands := AppendChosen(commands, previous.shapes.keys, NotIn(target.shapes), RemoveShapeCommand);
    commands := AppendChosen(commands, previous.nodes.keys, NotIn(target.nodes), RemoveNodeCommand);
  }

  method AppendRelationCommands(previous: Document, target: Document) returns (commands: seq<Command>)
    ensures commands == RelationPart(previous, target)
    ensures WellFormed(previous.relations) ==> NamesRelations(commands, previous, target)
  {
    if WellFormed(previous.relations) {
      RelationPartNamed(previous, target);
    }
    hide Filter, Map, Orphaned, Left, ParentGone, GroupGone;
    JoinFour(Map(ClearCommand, Filter(previous.relations.parents, Orphaned(target))),
             Map(SetCommand, Filter(target.relations.parents, ParentGone(previous.relations))),
             Map(LeaveCommand, Filter(previous.relations.groups, Left(target))),
             Map(JoinCommand, Filter(target.relations.groups, GroupGone(previous.relations))));
    commands := [];
    commands := AppendChosen(commands, previous.relations.parents, Orphaned(target), ClearCommand);
    commands := AppendChosen(commands, target.relations.parents, ParentGone(previous.relations), SetCommand);
    commands := AppendChosen(commands, previous.relations.groups, Left(target), LeaveCommand);
    commands := AppendChosen(commands, target.relations.groups, GroupGone(previous.relations), JoinCommand);
  }

  lemma JoinFour(a: seq<Command>, b: seq<Command>, c: seq<Command>, d: seq<Command>)
    ensures [] + a + b + c + d == a + (b + (c + d))
    ensures d == [] ==> [] + a + b + c == a + (b + c)
  {
  }

  lemma JoinFive(a: seq<Command>, b: seq<Command>, c: seq<Command>, d: seq<Command>, e: seq<Command>)
    ensures a + b + c + d + e == a + (b + (c + (d + e)))
  {
  }
}
