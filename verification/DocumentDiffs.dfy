/** The recorder that sums up a run of edits, and the difference of two documents. */
module DocumentDiffs {
  import opened Records
  import opened RelationSets

  datatype Diff = Diff(
    inserted: set<RecordId>,
    updated: set<RecordId>,
    removed: set<RecordId>,
    metadataChanged: bool,
    relationsChanged: bool)
  {
    predicate IsEmpty() {
      inserted == {} && updated == {} && removed == {} && !metadataChanged && !relationsChanged
    }
  }

  datatype Event = Insert(id: RecordId) | Update(id: RecordId) | Remove(id: RecordId)

  const NO_CHANGES := Diff({}, {}, {}, false, false)

  function Record(d: Diff, e: Event): Diff {
    match e
    case Insert(id) =>
      if id in d.removed then d.(removed := d.removed - {id}, updated := d.updated + {id})
      else d.(inserted := d.inserted + {id})
    case Update(id) =>
      if id in d.inserted || id in d.removed then d else d.(updated := d.updated + {id})
    case Remove(id) =>
      if id in d.inserted then d.(inserted := d.inserted - {id}, updated := d.updated - {id})
      else d.(updated := d.updated - {id}, removed := d.removed + {id})
  }

  function RecordAll(d: Diff, events: seq<Event>): Diff
    decreases events
  {
    if events == [] then d else RecordAll(Record(d, events[0]), events[1..])
  }

  /** The ids present after an event, which must be possible: only absent ids are inserted. */
  predicate Possible(present: set<RecordId>, e: Event) {
    if e.Insert? then e.id !in present else e.id in present
  }

  function After(present: set<RecordId>, e: Event): set<RecordId> {
    match e
    case Insert(id) => present + {id}
    case Update(id) => present
    case Remove(id) => present - {id}
  }

  predicate PossibleRun(present: set<RecordId>, events: seq<Event>)
    decreases events
  {
    events == [] || (Possible(present, events[0]) && PossibleRun(After(present, events[0]), events[1..]))
  }

  function AfterRun(present: set<RecordId>, events: seq<Event>): set<RecordId>
    decreases events
  {
    if events == [] then present else AfterRun(After(present, events[0]), events[1..])
  }

  function Touched(events: seq<Event>): set<RecordId> {
    set e | e in events :: e.id
  }

  /** `d` sums up what happened between `before` and `now` when `touched` were touched. */
  ghost predicate SumsUp(d: Diff, before: set<RecordId>, now: set<RecordId>, touched: set<RecordId>) {
    d.inserted == now - before && d.removed == before - now && d.updated == before * now * touched
  }

  lemma RecordSumsUp(d: Diff, before: set<RecordId>, now: set<RecordId>, touched: set<RecordId>, e: Event)
    requires SumsUp(d, before, now, touched) && Possible(now, e)
    requires (before - now) + (now - before) <= touched
    ensures SumsUp(Record(d, e), before, After(now, e), touched + {e.id})
  {
  }

  lemma {:induction false} RunSumsUp(d: Diff, before: set<RecordId>, now: set<RecordId>, touched: set<RecordId>,
                                     events: seq<Event>)
    requires SumsUp(d, before, now, touched) && PossibleRun(now, events)
    requires (before - now) + (now - before) <= touched
    ensures SumsUp(RecordAll(d, events), before, AfterRun(now, events), touched + Touched(events))
    decreases events
  {
    if events != [] {
      var e := events[0];
      RecordSumsUp(d, before, now, touched, e);
      RunSumsUp(Record(d, e), before, After(now, e), touched + {e.id}, events[1..]);
      assert events == [e] + events[1..];
      assert touched + {e.id} + Touched(events[1..]) == touched + Touched(events);
    } else {
      assert touched + Touched(events) == touched;
    }
  }

  /** For every possible run: exactly the ids added, the ids gone, and the touched ids that survived. */
  lemma RecorderIsFaithful(before: set<RecordId>, events: seq<Event>)
    requires PossibleRun(before, events)
    ensures var d, now := RecordAll(NO_CHANGES, events), AfterRun(before, events);
            && d.inserted == now - before
            && d.removed == before - now
            && d.updated == before * now * Touched(events)
            && d.inserted !! d.updated && d.updated !! d.removed && d.inserted !! d.removed
  {
    RunSumsUp(NO_CHANGES, before, before, {}, events);
    assert {} + Touched(events) == Touched(events);
  }

  /** And every such outcome is that of a possible run. */
  lemma {:induction false} SomeRunReaches(before: set<RecordId>, now: set<RecordId>, touched: set<RecordId>)
    returns (events: seq<Event>)
    requires (before - now) + (now - before) <= touched <= before + now
    ensures PossibleRun(before, events) && AfterRun(before, events) == now && Touched(events) == touched
    decreases touched
  {
    if touched == {} {
      events := [];
      assert before == now;
    } else {
      var x :| x in touched;
      var e := if x !in before then Insert(x) else if x in now then Update(x) else Remove(x);
      var rest := SomeRunReaches(After(before, e), now, touched - {x});
      events := [e] + rest;
      assert events[1..] == rest && Touched(events) == {x} + Touched(rest);
    }
  }

  class DiffRecorder {
    var inserted: set<RecordId>
    var updated: set<RecordId>
    var removed: set<RecordId>

    constructor ()
      ensures inserted == {} && updated == {} && removed == {}
    {
      inserted, updated, removed := {}, {}, {};
    }

    ghost function View(): Diff
      reads this
    {
      Diff(inserted, updated, removed, false, false)
    }

    method RecordInsert(id: RecordId)
      modifies this
      ensures View() == Record(old(View()), Insert(id))
    {
      if id in removed {
        removed := removed - {id};
        updated := updated + {id};
      } else {
        inserted := inserted + {id};
      }
    }

    method RecordUpdate(id: RecordId)
      modifies this
      ensures View() == Record(old(View()), Update(id))
    {
      if id !in inserted && id !in removed {
        updated := updated + {id};
      }
    }

    method RecordRemove(id: RecordId)
      modifies this
      ensures View() == Record(old(View()), Remove(id))
    {
      if id in inserted {
        inserted := inserted - {id};
        updated := updated - {id};
      } else {
        updated := updated - {id};
        removed := removed + {id};
      }
    }
  }

  // The difference of two documents.

  /** The record stored under `id` differs. */
  predicate Differs(current: Document, previous: Document, id: RecordId) {
    match id
    case NodeRecord(n) => current.nodes.Get(n) != previous.nodes.Get(n)
    case EdgeRecord(e) => current.edges.Get(e) != previous.edges.Get(e)
    case ShapeRecord(s) => current.shapes.Get(s) != previous.shapes.Get(s)
  }

  /** Names exactly the ids added and gone, and at least every id whose record changed. */
  ghost predicate Faithful(diff: Diff, current: Document, previous: Document) {
    && (forall id :: id in diff.inserted <==> current.Contains(id) && !previous.Contains(id))
    && (forall id :: id in diff.removed <==> previous.Contains(id) && !current.Contains(id))
    && (forall id :: id in diff.updated ==> current.Contains(id) && previous.Contains(id))
    && (forall id :: current.Contains(id) && previous.Contains(id) && Differs(current, previous, id) ==>
       id in diff.updated)
  }

  function NodeIds(d: Document): (ids: seq<RecordId>) {
    seq(|d.nodes.keys|, i requires 0 <= i < |d.nodes.keys| => NodeRecord(d.nodes.keys[i]))
  }

  function EdgeIds(d: Document): (ids: seq<RecordId>) {
    seq(|d.edges.keys|, i requires 0 <= i < |d.edges.keys| => EdgeRecord(d.edges.keys[i]))
  }

  function ShapeIds(d: Document): (ids: seq<RecordId>) {
    seq(|d.shapes.keys|, i requires 0 <= i < |d.shapes.keys| => ShapeRecord(d.shapes.keys[i]))
  }

  /** The three id lists together name exactly the records of the document. */
  lemma IdListsAreComplete(d: Document, id: RecordId)
    requires d.Filed()
    ensures id in NodeIds(d) <==> id.NodeRecord? && d.Contains(id)
    ensures id in EdgeIds(d) <==> id.EdgeRecord? && d.Contains(id)
    ensures id in ShapeIds(d) <==> id.ShapeRecord? && d.Contains(id)
  {
    match id
    case NodeRecord(n) =>
      if n in d.nodes.keys {
        var i :| 0 <= i < |d.nodes.keys| && d.nodes.keys[i] == n;
        assert NodeIds(d)[i] == id;
      }
    case EdgeRecord(e) =>
      if e in d.edges.keys {
        var i :| 0 <= i < |d.edges.keys| && d.edges.keys[i] == e;
        assert EdgeIds(d)[i] == id;
      }
    case ShapeRecord(s) =>
      if s in d.shapes.keys {
        var i :| 0 <= i < |d.shapes.keys| && d.shapes.keys[i] == s;
        assert ShapeIds(d)[i] == id;
      }
  }

  /** Records the ids of one kind that are gone. */
  method RecordGone(rec: DiffRecorder, ids: seq<RecordId>, current: Document)
    requires forall id :: id in ids ==> id !in rec.inserted && id !in rec.updated
    modifies rec
    ensures rec.inserted == old(rec.inserted) && rec.updated == old(rec.updated)
    ensures rec.removed == old(rec.removed) + set id | id in ids && !current.Contains(id)
  {
    ghost var removed := rec.removed;
    for i := 0 to |ids|
      invariant rec.inserted == old(rec.inserted) && rec.updated == old(rec.updated)
      invariant rec.removed == removed + set id | id in ids[..i] && !current.Contains(id)
    {
      assert ids[..i + 1] == ids[..i] + [ids[i]];
      if !current.Contains(ids[i]) {
        rec.RecordRemove(ids[i]);
      }
    }
    assert ids[..|ids|] == ids;
  }

  /** Records the ids of one kind that are new or changed. */
  method RecordPresent(rec: DiffRecorder, ids: seq<RecordId>, current: Document, previous: Document)
    requires forall id :: id in ids ==> id !in rec.removed
    requires forall id :: id in rec.inserted ==> !previous.Contains(id)
    modifies rec
    ensures rec.removed == old(rec.removed)
    ensures rec.inserted == old(rec.inserted) + set id | id in ids && !previous.Contains(id)
    ensures rec.updated == old(rec.updated) + set id | id in ids && previous.Contains(id) &&
            Differs(current, previous, id)
  {
    ghost var inserted, updated := rec.inserted, rec.updated;
    for i := 0 to |ids|
      invariant rec.removed == old(rec.removed)
      invariant rec.inserted == inserted + set id | id in ids[..i] && !previous.Contains(id)
      invariant rec.updated == updated + set id | id in ids[..i] && previous.Contains(id) &&
                Differs(current, previous, id)
    {
      assert ids[..i + 1] == ids[..i] + [ids[i]];
      if !previous.Contains(ids[i]) {
        rec.RecordInsert(ids[i]);
      } else if Differs(current, previous, ids[i]) {
        rec.RecordUpdate(ids[i]);
      }
    }
    assert ids[..|ids|] == ids;
  }

  method DiffAgainst(current: Document, previous: Document) returns (diff: Diff)
    requires current.Filed() && previous.Filed()
    ensures Faithful(diff, current, previous)
    ensures forall id :: id in diff.updated ==> Differs(current, previous, id)
    ensures diff.metadataChanged <==> current.metadata != previous.metadata
    ensures diff.relationsChanged <==> !SameRelations(current.relations, previous.relations)
  {
    forall id { IdListsAreComplete(current, id); }
    forall id { IdListsAreComplete(previous, id); }
    var rec := new DiffRecorder();
    RecordGone(rec, NodeIds(previous), current);
    RecordPresent(rec, NodeIds(current), current, previous);
    RecordGone(rec, EdgeIds(previous), current);
    RecordPresent(rec, EdgeIds(current), current, previous);
    RecordGone(rec, ShapeIds(previous), current);
    RecordPresent(rec, ShapeIds(current), current, previous);
    diff := Diff(rec.inserted, rec.updated, rec.removed,
                 current.metadata != previous.metadata,
                 !SameRelations(current.relations, previous.relations));
  }
}
