# Canvas document model

This project models the renderer-neutral core of the `open-gpui-canvas` crate and one byte codec of
the build tool, and proves what they promise for every document and every run.

A canvas document holds nodes, edges and shapes in insertion-ordered maps, and three lists of facts
between records: parents, group memberships and bindings. Around it the crate keeps caches that are
patched instead of rebuilt, closures over relations, command lists derived from pairs of states,
inverses for undo, a clipboard, a z-order engine, edge geometry and an exchange format.

The model follows the code. Code that updates fields in place is a class
(`RecordRelations`, `DiffRecorder`, `GraphIndex`, `Runtime`, `Store`, `Connection`), loops are loops, the
z-order engine works on an array, and expressions are functions. Every method is tied to a function or
predicate about which the lemmas then speak. Vocabulary used below:

- *filed*: each record stands under its own id. *sound*: filed, every node, edge and relation passes
  the document's checks, and the relations are acyclic. *well formed* (relations): one parent per
  child, no repeated membership, one binding per id.
- *closed*: both ends of every edge exist, which is all the caches need of a document.
- *faithful* (diff): names exactly the ids added and the ids gone, and at least every id that changed.
- `Same(x, y)`: equal records, metadata and relation facts, in any order, which is the program's own
  equality of documents.

How the main results build on each other:

1. `DocumentDiffs` shows that recorded and computed diffs are faithful; `GraphIndexes`, `GraphQueries`
   and `Runtimes` show that caches patched from faithful diffs are the caches of the current document.
2. `Reachability`, `RelationTraversal`, `RelationValidation` give the worklists and the cycle check
   their meaning, `Commands` and `CommandEffects` the validator and every command; `Scopes` and
   `ScopeTheorems` settle when normalising a selection loses nothing.
3. `RelationReplay`, `RelationReports`, `Mutations`, `Journal` show that an accepted transaction can be
   undone; `Acceptance` says exactly which transactions are accepted; `Histories` and `Undoing` show that
   a recorded inverse is itself accepted; `Stores` concludes for every run of commits, undos and redos.
4. `Gestures`, `GestureReplay`, `GestureCommits` say exactly when the commands between two states
   replay, and when the journal accepts them.
5. `Sorting`, `Layers`, `LayerNumbers`; `UniqueIds`, `Clipboard`, `PasteTheorems`, `PasteContents`,
   `PasteCommits`, `Copying`; `Routing`, `HitTesting`; `JsonFields`, `JsonCanvas`, `JsonImport`,
   `JsonContents`, `JsonRoundTrip`; `WebSocketFrames`, `WebSocketStreams` stand on their own.

`dafny verify dfyconfig.toml` checks the whole project.

## What turned out otherwise

Some properties one would expect do not hold of the code. Each has a lemma or method that shows the
failure, and an if-and-only-if that says when the code does meet the property.

| expectation | shown false by | holds exactly when |
|---|---|---|
| A patched graph index lists edges in document order. | `GraphQueries.ReinsertedEdgeIsStale` | `GraphQueries.StaleOrderIff`, and `Runtimes.Runtime.ApplyRun` for whole runs |
| Normalising a selection never loses a record from the action scope. | `ScopeTheorems.SuppressedEdgeLosesChild` | `ScopeTheorems.NormalScopeIsExactIff`, `ScopeTheorems.ExactForEverySelectionIff` |
| A transaction whose commands apply to a sound result is accepted. | `Journal.ReparentingAfterRemovalIsRejected` | `Acceptance.AcceptedIff` |
| The transaction between two valid states applies. | `GestureReplay.UpdateWithDroppedFrameFails` | `GestureReplay.TransactionAppliesIff`, `GestureCommits.GestureAcceptedIff` |
| What was undone can be redone as often. | `Stores.SecondRedoIsLost` | `Stores.Store.UndoRedo`: fewer than two undos, or an undo depth below two |
| The coarse bounds test passes every precise hit. | `HitTesting.CoarseTestDropsTip`, `HitTesting.ShrunkBoundsDropStart` | `HitTesting.CoarseTestPassesIff` |
| New z-indices reproduce the new order for every stack. | `LayerNumbers.LargeStackLosesOrder`, at `LayerNumbers.FlatStackLosesOrder` | `LayerNumbers.NewNumbersGiveNewOrderIff` |
| An imported JSON Canvas is exported unchanged. | `JsonRoundTrip.WideCoordinateIsLost` at `JsonRoundTrip.WideCanvasIsLost`, `JsonRoundTrip.ReservedKeyIsLost` | `JsonRoundTrip.CanvasRoundTripIff` |
| Relation equality is an equivalence. | `RelationSets.EqualityNeedsWellFormedness` | `RelationSets.EqualityBehavesIff`: a set equals itself and is equalled by all it equals exactly when it is well formed; all runs produce such sets |

## Model

| member | source | states |
|---|---|---|
| RelationSets.EqualityIsSameFacts | crates/canvas/src/relations.rs:150-165 | On well-formed sets the length-plus-containment equality is true exactly when both sets hold the same facts, hence it is an equivalence. |
| RelationSets.EqualityNeedsWellFormedness | crates/canvas/src/relations.rs:150-165 | Without well-formedness that equality is not symmetric: a repeated membership equals a set that does not equal it. |
| RelationSets.EqualityBehavesIff | crates/canvas/src/relations.rs:150-165 | For every set: equality is reflexive at it and symmetric from it, for all other sets, exactly when it is well formed; from such a set it is transitive as well. |
| RelationSets.WellFormedEqualsIff | crates/canvas/src/relations.rs:150-165 | A well-formed set equals exactly the well-formed sets of the same facts. |
| RelationSets.RunsStayWellFormed | crates/canvas/src/relations.rs:315-430 | Every run of the mutators and of pruning, from any well-formed set, keeps one parent per child, no repeated membership and one binding per id. |
| RelationSets.RecordRelations.SetParent | crates/canvas/src/relations.rs:315-337 | The child ends with exactly this parent, in the place of the old one, which is returned; all else is unchanged. |
| RelationSets.RecordRelations.ClearParent | crates/canvas/src/relations.rs:338-345 | The child ends without a parent; the old one is returned. |
| RelationSets.RecordRelations.AddToGroup | crates/canvas/src/relations.rs:346-359 | The membership is present once; reports whether it was new. |
| RelationSets.RecordRelations.RemoveFromGroup | crates/canvas/src/relations.rs:360-375 | The membership is gone; reports whether it was there. |
| RelationSets.RecordRelations.SetBinding | crates/canvas/src/relations.rs:376-396 | The binding is stored under its id, in the place of an older one, which is returned. |
| RelationSets.RecordRelations.RemoveBinding | crates/canvas/src/relations.rs:397-404 | No binding is left under the id; the removed one is returned. |
| RelationSets.RecordRelations.PruneMissing | crates/canvas/src/relations.rs:405-424 | Exactly the relations with both ends among the given records stay, in order; reports whether any went. |
| RelationTraversal.InsertRelated | crates/canvas/src/relations.rs:432-446 | Admits exactly the allowed records found; queues exactly the new ones. |
| RelationTraversal.CollectRelated | crates/canvas/src/relations.rs:231-253 | Ends on every relation set, cyclic ones included, with exactly the records reachable from an allowed seed through allowed records in zero or more steps. |
| RelationTraversal.CollectDescendants | crates/canvas/src/relations.rs:255-276 | As above in one or more steps: a seed is reported only when it lies below a seed. |
| RelationValidation.CheckAcyclicIff | crates/canvas/src/document/relations.rs:57-108 | The depth-first check accepts exactly the acyclic parent-and-group graphs, and the record it blames lies on a cycle. |
| RelationValidation.ValidateRelationsIff | crates/canvas/src/document/relations.rs:10-55 | All relation checks together accept exactly the sound relation sets. |
| CommandEffects.RelationRefusal | crates/canvas/src/document/relations.rs:10-55 | Relations are refused for what is wrong with them, parents before memberships before bindings before cycles: an id that occurs twice, a relation of a record with itself, a record that is missing, or a record on a cycle. |
| Commands.ValidateIntegrityIff | crates/canvas/src/document/validation.rs:16-28 | Document validation accepts exactly the filed documents that are sound: on every node the handle ids differ, every edge has a route kind that is not blank, a width that is not negative and two ends that fit, and the relations are sound. |
| Commands.ValidateNodeIff | crates/canvas/src/document/validation.rs:48-60 | A node passes exactly when no two of its handles share an id. |
| Commands.NodeRefusal | crates/canvas/src/document/validation.rs:48-60 | A refused node is refused for an id that two of its handles share. |
| Commands.ValidateEdgeIff | crates/canvas/src/document/validation.rs:62-154 | An edge passes exactly when its route kind has a character that is not white space, its width is not negative, both end nodes exist, and each named handle is on its node, connectable, and not a target at the source nor a source at the target. |
| Commands.EdgeRefusal | crates/canvas/src/document/validation.rs:9-14 | A refused edge is refused for what is wrong with it: the route first, then the source, then the target, with the node and handle at fault. |
| CommandEffects.ApplyIff | crates/canvas/src/document/commands.rs:94-216 | For every command and every filed document with well-formed relations: it succeeds exactly when what it names is there, or free, and fits (an update of a node: when the whole result is sound), and it then does just that: one entry appended, replaced in its place, or taken out with the edges at a removed node, the rest in order; or one relation fact set or gone. |
| CommandEffects.PruneMissingIs | crates/canvas/src/relations.rs:405-424 | Pruning a document keeps exactly the relations whose two records exist and touches nothing else. |
| Commands.ApplyKeepsRecordsSound | crates/canvas/src/document/commands.rs:94-216 | Every command that succeeds keeps nodes and edges valid and relation lists well formed. |
| Commands.ApplyAllKeepsRecordsSound | crates/canvas/src/document/commands.rs:5-36 | So does every run of commands that succeeds. |
| DocumentDiffs.RecorderIsFaithful | crates/canvas/src/document.rs:529-563 | For every possible run of inserts, updates and removes the three recorded sets are disjoint and are exactly the ids added, the ids gone, and the surviving original ids that were touched. |
| DocumentDiffs.SomeRunReaches | crates/canvas/src/document.rs:529-563 | Every outcome of that form is reached by some possible run. |
| DocumentDiffs.DiffRecorder.RecordInsert | crates/canvas/src/document.rs:538-545 | One recorded insert: a re-inserted removed id becomes an update. |
| DocumentDiffs.DiffRecorder.RecordUpdate | crates/canvas/src/document.rs:547-552 | One recorded update: a newly inserted id stays inserted. |
| DocumentDiffs.DiffRecorder.RecordRemove | crates/canvas/src/document.rs:554-562 | One recorded removal: a newly inserted id leaves no trace. |
| DocumentDiffs.DiffAgainst | crates/canvas/src/document/diff.rs:4-52 | The computed difference of two documents is faithful, names no unchanged record as updated, and flags metadata and relations exactly when they differ. |
| GraphIndexes.GraphIndex.Rebuild | crates/canvas/src/graph.rs:170-177 | The four maps describe the document, every list in document order. |
| GraphIndexes.GraphIndex.InsertEdge | crates/canvas/src/graph.rs:344-368 | The maps describe one more edge, self loops included; an edge already listed is moved. |
| GraphIndexes.GraphIndex.RemoveEdgeId | crates/canvas/src/graph.rs:370-382 | The maps describe one edge less, empty buckets dropped; an unknown id changes nothing. |
| GraphIndexes.GraphIndex.RefreshOrdinals | crates/canvas/src/graph.rs:384-389 | Each edge is numbered by its place in the document. |
| GraphIndexes.GraphIndex.SortAdjacency | crates/canvas/src/graph.rs:391-402 | Every list of an up-to-date index ends in document order. |
| GraphIndexes.GraphIndex.Patch | crates/canvas/src/graph.rs:186-221 | For every faithful diff over closed documents the three passes end with maps that describe the new document, even when an edge is re-pointed off a node removed in the same diff; reports a change exactly when an edge came, went or moved. |
| GraphIndexes.GraphIndex.ApplyDiff | crates/canvas/src/graph.rs:179-227 | After a faithful diff the maps describe the new document; the lists are in document order when an edge came, went or moved, and untouched otherwise. |
| GraphQueries.EndpointsDetermineBuckets | crates/canvas/src/graph.rs:559-571 | Two bucket maps that list the same endpoints have the same keys and the same members: no empty bucket survives. |
| GraphQueries.PatchedEqualsRebuilt | crates/canvas/src/graph.rs:170-227 | A patched index has the same buckets and members as a rebuilt one, and equal lists when both are in document order. |
| GraphQueries.QueriesMatchScan | crates/canvas/src/graph.rs:76-120 | On an up-to-date index in document order, the queries by direction, between two nodes and for neighbours return the same sequences as the full scan, self loops included; what these sequences hold is in the next three rows. |
| GraphQueries.EdgeIdsAreEdgesAt | crates/canvas/src/graph.rs:249-289 | The incoming, outgoing and incident lists of a node hold exactly the document's edges that end there, start there, or do either, each once, and in document order when the index is ordered. |
| GraphQueries.EdgeIdsBetweenAreEdges | crates/canvas/src/graph.rs:291-301 | The query between two nodes returns exactly the edges that start at the one and end at the other, each once, and in document order when the index is ordered. |
| GraphQueries.NeighborsAreOtherEnds | crates/canvas/src/graph.rs:307-338 | There is one neighbour for each listed edge, in the same order: the other end of the edge, which for a self loop is the node. |
| GraphQueries.StaleOrderIff | crates/canvas/src/graph.rs:223-226 | After a diff that moves no edge, the lists are in document order exactly when edges that meet at a node kept their relative order. |
| GraphQueries.ReinsertedEdgeIsStale | crates/canvas/src/graph.rs:223-226 | Removing an edge and inserting it again changes that order, and an empty diff is faithful for it. |
| Runtimes.Runtime.Rebuild | crates/canvas/src/runtime.rs:54-76 | Graph index and geometry cache describe the document for any router and geometry policy. |
| Runtimes.UnreachedKeepsGeometry | crates/canvas/src/runtime.rs:234-250 | An edge that no updated or inserted record reaches has the geometry it had before. |
| Runtimes.Runtime.RefreshRecord | crates/canvas/src/runtime.rs:252-298 | Refreshing a record recomputes the geometry of exactly the edges it reaches, through the graph index when it is a node. |
| Runtimes.Runtime.RemoveGeometries | crates/canvas/src/runtime.rs:300-314 | After the removals every entry not about to be refreshed is what a fresh resolve gives. |
| Runtimes.Runtime.ApplyDiff | crates/canvas/src/runtime.rs:133-168 | A faithful diff turns caches of the previous document into caches of the new one: same edges, same geometry as a fresh resolve. |
| Runtimes.Runtime.ApplyRun | crates/canvas/src/runtime.rs:133-168 | After any run of faithful diffs over closed documents the caches are those of the last document; the edge lists are in the order of the document after the last diff that moved an edge, so in the last document's order exactly when edges that meet have kept their relative order since. |
| Runtimes.ResolvedIffAnchored | crates/canvas/src/geometry_facts.rs:111-131 | An end resolves to a point exactly when that point is its anchor: with a handle the node's position plus the handle's, or what the policy says; without one the middle of the node, or of the bounds the policy gives it. |
| Runtimes.CachedIffAnchored | crates/canvas/src/geometry_facts.rs:133-166 | A runtime that describes a document caches an edge exactly when both ends have anchors, and holds the router's route from the source anchor to the target anchor, the hit radius, and the smallest box around the route extended by that radius. |
| Runtimes.SoundEdgesAreCached | crates/canvas/src/runtime.rs:54-76 | For a sound document every edge is cached so, and with the default router the cached route leads from the source anchor to the target anchor, or is the empty orthogonal route between two equal points. |
| Routing.OrthogonalRoute | crates/canvas/src/routing.rs:33-42 | The growing loop computes the polyline through the appended legs. |
| Routing.OrthogonalIsAligned | crates/canvas/src/routing.rs:212-228 | An orthogonal route has only axis-aligned, non-empty segments, runs without gaps from first to last point, and is empty exactly when all points coincide. |
| Routing.DefaultRouteRuns | crates/canvas/src/routing.rs:154-195 | The default router's route runs without gaps from source to target for every route kind; it is empty only for an orthogonal route that never leaves the source. |
| Routing.DefaultRouteShape | crates/canvas/src/routing.rs:154-228 | Kind by kind: an orthogonal route connects the corners of its legs, which turn halfway along x, with repetitions dropped; a straight or unknown kind connects source, waypoints and target in turn; a cubic one is a single curve with the two given controls, or with controls that leave both ends horizontally by half the horizontal distance, at least 40. |
| Routing.RouteBoundsCover | crates/canvas/src/routing.rs:74-96 | The box of a route covers every control point of every segment. |
| Routing.RouteBoundsTight | crates/canvas/src/routing.rs:74-96 | A route has a box exactly when it has a segment, and the box is the smallest around all ends and control points. |
| HitTesting.BernsteinBetween | crates/canvas/src/geometry_facts.rs:680-698 | A cubic coordinate stays between bounds on its four control coordinates, for every parameter in the unit interval. |
| HitTesting.NearestOnCubic | crates/canvas/src/geometry_facts.rs:655-678 | The sampling loop returns the nearest point of some chord, and no chord comes nearer. |
| HitTesting.ChordMinimum | crates/canvas/src/geometry_facts.rs:655-678 | The running minimum over the first chords is the nearest point of one of them and at most the minimum of each. |
| HitTesting.SamplesAre | crates/canvas/src/geometry_facts.rs:655-698 | The sampled points run from the start to the end of the curve, each by repeated interpolation at a multiple of 1/24. |
| HitTesting.FirstNearest | crates/canvas/src/geometry_facts.rs:38-44 | Over a route, the nearest point is that of the first of the segments that come nearest. |
| HitTesting.NearestPointIs | crates/canvas/src/geometry_facts.rs:700-733 | The nearest point of a segment lies on it and comes with its squared distance; it is the start when the squared length is at most 2^-23, and otherwise no point of the segment is nearer. |
| HitTesting.NearestOnLineIsNearest | crates/canvas/src/geometry_facts.rs:700-733 | For a segment longer than the shortcut threshold no point of the segment is nearer. |
| HitTesting.StraightHitIff | crates/canvas/src/geometry_facts.rs:20-45 | A straight route of such segments is hit exactly when some point of it lies within radius plus margin. |
| HitTesting.HitInsideBounds | crates/canvas/src/geometry_facts.rs:143-166 | Every precise hit, for polyline, orthogonal and cubic routes of any router and any margin, lies in the stored bounds dilated by the margin, as closed rectangles; a margin below minus the hit radius counts as minus the hit radius, as in the hit test. |
| HitTesting.GeometryBoundsTight | crates/canvas/src/geometry_facts.rs:143-166 | The stored bounds are the smallest box around the route, or around the two anchors when the route is empty, extended by the hit radius on every side. |
| HitTesting.CoarseTestPassesIff | crates/canvas/src/geometry_facts.rs:410-428 | The half-open coarse test lets a precise hit through exactly when it is not on the right or bottom border and, for a margin below minus the hit radius, the shrunk bounds still cover it. |
| HitTesting.CoarseTestDropsTip | crates/canvas/src/geometry_facts.rs:410-428 | A precise hit at the tip of a horizontal line that the coarse test drops. |
| HitTesting.ShrunkBoundsDropStart | crates/canvas/src/geometry_facts.rs:410-428 | With any margin below minus the hit radius, the start of a line is a precise hit outside the dilated bounds. |
| Scopes.HasCandidateAncestor | crates/canvas/src/record_scope.rs:275-301 | Answers true exactly when a strict ancestor is a candidate, on every relation set, cyclic ones included. |
| Scopes.SuppressInternalEdges | crates/canvas/src/record_scope.rs:303-329 | Drops exactly the edges whose two ends lie in the scope of the other candidates. |
| Scopes.Normalize | crates/canvas/src/record_scope.rs:153-170 | The kept candidates are the existing ones without a candidate above them, less the internal edges. |
| Scopes.IncludeInternalEdges | crates/canvas/src/record_scope.rs:251-273 | Adds exactly the admissible edges with both ends in the scope. |
| Scopes.ResolveScope | crates/canvas/src/record_scope.rs:186-224 | The three record sets of a resolved scope, with separate tests for walking through and for including a record. |
| ScopeTheorems.NormalScopeIsExactIff | crates/canvas/src/record_scope.rs:153-170 | On sound relations, normalising first neither adds to nor takes from the action scope exactly when whatever hangs under an enclosed edge (an outermost candidate edge with both ends under outermost candidates that are not edges) also lies under another outermost candidate, or is an edge between such nodes. |
| ScopeTheorems.ExactForEverySelectionIff | crates/canvas/src/record_scope.rs:303-329 | It is exact for every selection exactly when no record hangs under an edge and outside the scope of two records that cover the edge's ends. |
| ScopeTheorems.NormalScopeIsExact | crates/canvas/src/record_scope.rs:153-224 | In particular it is exact when no edge is a parent or a group. |
| ScopeTheorems.SuppressedEdgeLosesChild | crates/canvas/src/record_scope.rs:303-329 | When an edge is a parent, selecting it with both its nodes loses its child. |
| ScopeTheorems.NormalIsIdempotent | crates/canvas/src/record_scope.rs:153-170 | Normalising twice is normalising once, and nothing kept has a kept record above it, on every relation set. |
| ScopeTheorems.DroppedHasReason | crates/canvas/src/record_scope.rs:275-329 | On sound relations in which no edge is a parent or a group, each dropped candidate has a kept record above it or is an edge with both ends in the kept scope. |
| ScopeTheorems.ResolveFullScope | crates/canvas/src/record_scope.rs:172-224 | On sound relations in which no edge is a parent or a group, the resolved action scope with descendants and internal edges is exactly the existing selected records, everything below them and every edge between those. |
| RelationReports.RelationChanges | crates/canvas/src/mutation.rs:164-221 | The six loops, on well-formed lists: a fact is reported as deleted exactly when only the previous state has it, and as upserted exactly when only the current state has it; parents come before memberships before bindings, deleted ones first, each kind in the order of its list; nothing is reported exactly when the states hold the same facts. |
| RelationReports.ChangesReportFacts | crates/canvas/src/mutation.rs:164-221 | The report names exactly the facts that one of two well-formed states lacks. |
| RelationReports.ChangesInOrder | crates/canvas/src/mutation.rs:164-221 | It names them in turn: by kind, deleted before upserted, and within that in list order. |
| RelationReports.NoChangesIff | crates/canvas/src/mutation.rs:164-221 | Nothing is reported exactly when both states hold the same facts. |
| RelationReports.ChangesAsCommands | crates/canvas/src/mutation.rs:234-284 | Turned into commands, the reported changes are the commands that the replay theorems are about. |
| RelationReplay.ReplayReachesTarget | crates/canvas/src/mutation.rs:164-284 | For any two well-formed relation sets over existing records the derived commands all apply and end in a set equal to the target. |
| Mutations.InvertRestoresRecords | crates/canvas/src/document/commands.rs:76-92 | An inverted transaction that applies restores every node, edge and shape, whatever the relations were. |
| Journal.CompleteInverseIff | crates/canvas/src/mutation.rs:223-250 | Completion succeeds exactly when the plain inverse applies and leaves sound relations. |
| Journal.NormalizeAllIs | crates/canvas/src/schema.rs:560-599 | Every command of a transaction is rewritten on its own, in its place; the registry refuses the transaction exactly when it refuses one of them. |
| Journal.RegistryValidateIff | crates/canvas/src/schema.rs:643-680 | The registry lets a document through exactly when it lets each of its records through. |
| Journal.CompleteInverseRestores | crates/canvas/src/mutation.rs:223-250 | A completed inverse applies and brings back the earlier records, parents, groups and bindings. |
| Journal.UndoRestores | crates/canvas/src/mutation.rs:89-121 | Whenever a transaction is accepted, the new document is sound and the recorded inverse restores every record and relation of the old one. |
| Journal.ReparentingAfterRemovalIsRejected | crates/canvas/src/mutation.rs:98-106 | Removing a frame and giving its child another parent is rejected, though the commands apply and the result is sound. |
| Acceptance.TakenBackIff | crates/canvas/src/document/commands.rs:239-383 | One command can be taken back exactly when it overwrites nothing that could not be set again. |
| Acceptance.InvertsIff | crates/canvas/src/document/commands.rs:76-92 | A run can be taken back exactly when each of its commands can. |
| Acceptance.AcceptedIff | crates/canvas/src/mutation.rs:89-121 | A transaction is accepted exactly when its commands apply, leave sound relations that the registry accepts, and no command overwrites or removes a relation whose ends are already gone. |
| Histories.ApplyAllSame | crates/canvas/src/document/commands.rs:5-36 | A run of commands succeeds on one of two equal documents exactly when it does on the other, and the results are equal. |
| Histories.InvertIsLive | crates/canvas/src/document/commands.rs:239-383 | An inverse overwrites nothing that could not be set again, so it can be taken back in turn. |
| Undoing.UndoIsAccepted | crates/canvas/src/store.rs:270-287 | From every sound document equal to the one an accepted transaction left, the recorded inverse is accepted and leads to a document equal to the one before. |
| Undoing.PreparedIsGood | crates/canvas/src/mutation.rs:89-121 | Accepted transactions keep documents sound, in the registry's normal form, and accepted by it. |
| Undoing.OpenRegistryIsConsistent | crates/canvas/src/schema.rs:530-534 | The registry of a store that is given none meets the assumptions of the history theorems, and every sound document is good for it. |
| Stores.EmptyDiffIff | crates/canvas/src/document.rs:530-536 | No difference is reported exactly when the documents are equal. |
| Stores.Store.constructor | crates/canvas/src/store.rs:105-125 | A new store of a sound document has caches of it and an empty history. |
| Stores.Store.Replace | crates/canvas/src/store.rs:478-489 | Takes over a prepared document, patches the caches, and reports a change exactly when the documents differ. |
| Stores.Store.CommitTransaction | crates/canvas/src/store.rs:235-249 | Fails exactly when preparing fails, and then changes nothing; otherwise takes over the prepared document, and exactly when that differs the history grows and what was undone is forgotten. |
| Stores.Store.UndoLast | crates/canvas/src/store.rs:308-313 | Undo never fails: it works exactly when the history is not empty, and leads to the document before the last commit, which differs from the present one. |
| Stores.Store.RedoLast | crates/canvas/src/store.rs:315-320 | Redo never fails: it works exactly when something was undone last, leads to that document, and forgets whatever else was undone. |
| Stores.Store.Run | crates/canvas/src/store.rs:392-458 | Any run of commits, undos and redos keeps the caches exact, both stacks replayable, and the document that undoing everything leads to. |
| Stores.Store.UndoAll | crates/canvas/src/store.rs:410-458 | Undoing until the stack is empty leads to that document. |
| Stores.Store.UndoRedo | crates/canvas/src/tool/history.rs:40-45 | For every k: undoing up to k times and redoing as often works min(k, undo depth) and min(that, 1) times, so it redoes what it undid exactly when k or the undo depth is below two; it ends one step after the last document undone to, with nothing left to redo. |
| Stores.Store.RunThenUndoAll | crates/canvas/src/store.rs:392-458 | Whatever is done to a store, undoing everything brings back the document it started with. |
| Stores.Store.UndoThenRedo | crates/canvas/src/store.rs:308-320 | An undo followed by a redo leaves an equal document. |
| Stores.Store.UndoTwiceThenRedo | crates/canvas/src/tool/history.rs:40-45 | Two undos and two redos lead back exactly when the undo depth is below two; otherwise they end one step before the present document, with nothing left to redo. |
| Stores.SecondRedoIsLost | crates/canvas/src/store.rs:410-458 | In every sound document: after committing two fresh shapes, two undos and a redo, the second redo does nothing and the second shape stays gone. |
| Gestures.TransactionBetween | crates/canvas/src/gesture.rs:57-114 | Between any filed documents with well-formed earlier relations: a removal names exactly a record that only the previous one has, an insert one that only the target has, an update one that differs; the relation commands are as in the next row; edges are removed first and put last, and each step follows the order of the document that has what is named. |
| Gestures.AppendRelationCommands | crates/canvas/src/gesture.rs:116-166 | A set or join names exactly a parent or membership that only the target has; a clear exactly a surviving child that had a parent and has none in the target; a leave exactly an earlier membership of two surviving records that the target lacks; nothing is said of bindings. |
| Gestures.BetweenNames | crates/canvas/src/gesture.rs:57-166 | The same of the whole list, for records and relations. |
| Gestures.BetweenInOrder | crates/canvas/src/gesture.rs:57-166 | The steps come in the order of the code, and within a step in the order of the document that has what is named. |
| Gestures.NothingToDoIff | crates/canvas/src/gesture.rs:26-29 | The list is empty exactly when the records agree, every parent and membership of the target is an earlier one, and earlier ones that are not kept have lost an end. |
| Gestures.NothingBetweenSoundIff | crates/canvas/src/gesture.rs:26-29 | Between sound documents: exactly when records, parents and memberships agree. |
| GestureReplay.TransactionAppliesIff | crates/canvas/src/gesture.rs:57-114 | Between any two sound states the commands all apply exactly when the kept edges fit the target's nodes in their old form too and, if a node is updated, no earlier relation names a dropped record; they then end in the target's records, parents and groups. |
| GestureReplay.BindingsReachTargetIff | crates/canvas/src/gesture.rs:57-174 | After a gesture the pruned result has all of the target's relations exactly when the earlier bindings between records that the target keeps are the target's bindings. |
| GestureReplay.EqualBindingsReachTarget | crates/canvas/src/gesture.rs:116-174 | In particular when the bindings were equal before. |
| GestureReplay.UpdateWithDroppedFrameFails | crates/canvas/src/gesture.rs:57-114 | Dragging a node out of a frame and deleting the frame in one gesture yields commands that fail. |
| GestureCommits.GestureAcceptedIff | crates/canvas/src/gesture.rs:21-39 | The journal, with a registry that neither rewrites nor rejects, accepts a gesture exactly when its commands apply and no surviving child is moved out of a parent the gesture drops. |
| GestureCommits.CommitGestureIs | crates/canvas/src/gesture.rs:21-39 | Committing a gesture, with such a registry: nothing is committed exactly when records, parents and memberships agree; it fails exactly when they do not and the journal refuses; what is committed has the records, parents and memberships of the state the gesture ended in. |
| Layers.ForwardInPlace | crates/canvas/src/layer.rs:79-91 | The downward swap loop computes the one-step-forward order. |
| Layers.BackwardInPlace | crates/canvas/src/layer.rs:92-102 | The upward swap loop computes the one-step-backward order. |
| Layers.ReorderInPlace | crates/canvas/src/layer.rs:52-103 | All four commands, in place. |
| Layers.KeepsBothOrders | crates/canvas/src/layer.rs:52-103 | Every command keeps the records and the relative order within the selected and within the others. |
| Layers.BackwardIsMirror | crates/canvas/src/layer.rs:79-102 | Sending backward is bringing forward in the mirror image. |
| Layers.ForwardLowersInversions | crates/canvas/src/layer.rs:79-91 | Each pass lowers the number of selected-below-unselected pairs, or moves nothing. |
| Layers.StillIsFront | crates/canvas/src/layer.rs:52-91 | Nothing moves exactly when the selected records are already in front, which is when no such pair is left. |
| Layers.RepeatedForwardIsFront | crates/canvas/src/layer.rs:52-91 | Bringing forward until nothing moves is bringing to front. |
| Layers.RepeatedBackwardIsBack | crates/canvas/src/layer.rs:52-102 | Sending backward until nothing moves is sending to back. |
| Layers.ForwardMovesBlocks | crates/canvas/src/layer.rs:79-91 | A block of selected records steps over the unselected record above it as a whole, whatever stands higher. |
| LayerNumbers.NumbersDoNotSaturate | crates/canvas/src/layer.rs:123-135 | No 32-bit sum saturates or overflows: each place gets base plus offset, also with z values at the maximum. |
| LayerNumbers.ZIndexUpdates | crates/canvas/src/layer.rs:105-121 | The loop reports exactly the records whose number changes. |
| LayerNumbers.UpdatesAre | crates/canvas/src/layer.rs:105-135 | An update names an id and a number exactly when a record of that id has another number and its place gives it this one: base plus place, with the place capped at 2^31 - 1. |
| LayerNumbers.ReorderZIndices | crates/canvas/src/layer.rs:28-50 | Reorders in place and returns the updates. |
| LayerNumbers.NewNumbersGiveNewOrderIff | crates/canvas/src/layer.rs:20-50 | Applying the updates to a sorted stack and sorting again gives the reordered stack exactly when nothing moved or the ordinals ascend from place 2^31 - 1 on. |
| LayerNumbers.LargeStackLosesOrder | crates/canvas/src/layer.rs:123-135 | In any sorted stack of more than 2^31 records with one z value, bringing the lowest record to the front is lost when sorting again. |
| LayerNumbers.FlatStackLosesOrder | crates/canvas/src/layer.rs:123-135 | Such stacks exist for every size above 2^31. |
| LayerNumbers.NewNumbersGiveNewOrder | crates/canvas/src/layer.rs:20-135 | In particular for every stack of at most 2^31 records. |
| UniqueIds.UniqueId | crates/canvas/src/clipboard.rs:269-283 | The search ends with the first candidate that is free. |
| UniqueIds.FirstFreeIsUnique | crates/canvas/src/clipboard.rs:269-283 | That candidate is determined by base and taken names. |
| UniqueIds.RemapIds | crates/canvas/src/clipboard.rs:233-251 | Every listed name gets a fresh name, no two the same. |
| Clipboard.PasteTransaction | crates/canvas/src/clipboard.rs:75-197 | For every payload and document: the commands and the selection are those of a renaming away from all names in use; what they add and select is in the `PasteContents` rows. |
| PasteTheorems.CopyIsFresh | crates/canvas/src/clipboard.rs:75-197 | A copy has a name the document does not use. |
| PasteTheorems.CopiesDiffer | crates/canvas/src/clipboard.rs:233-251 | Different records have different copies. |
| PasteTheorems.PasteAvoidsExisting | crates/canvas/src/clipboard.rs:75-197 | No paste command names a record or binding the document already has; pasted edges end at pasted nodes. |
| PasteTheorems.PasteApplies | crates/canvas/src/clipboard.rs:75-197 | Pasting a well-formed payload into a sound document applies as a whole and gives a sound document of the old records and relations and the copies. |
| PasteTheorems.SelectionIsPasted | crates/canvas/src/clipboard.rs:298-313 | Everything selected after a paste is a copy, and something is selected if anything was pasted. |
| PasteContents.PastedNodes | crates/canvas/src/clipboard.rs:109-115 | After a paste each payload node has a copy under its new, unused id that stands exactly the offset away on both axes and is otherwise the same; the old nodes are untouched and there are no others. |
| PasteContents.PastedShapes | crates/canvas/src/clipboard.rs:117-123 | The same for shapes: the origin is moved by the offset, the size stays. |
| PasteContents.PastedEdges | crates/canvas/src/clipboard.rs:125-141 | An edge has a copy exactly when both its nodes are in the payload; the copy joins their copies, at the same handles and with everything else unchanged. |
| PasteContents.PastedRelations | crates/canvas/src/clipboard.rs:143-187 | Parents, memberships and bindings of the result are the old ones and the copies of those whose two records have copies; a copied binding has a new id and its old kind. |
| PasteContents.PastedSelectionIs | crates/canvas/src/clipboard.rs:189-191 | Selected are the copies of the selected records and handles if something was selected and all of it was pasted, and otherwise everything pasted and no handle. |
| PasteCommits.PasteIsLive | crates/canvas/src/clipboard.rs:75-197 | No command of a paste overwrites or removes a relation whose ends are gone. |
| PasteCommits.PasteIsAcceptedIff | crates/canvas/src/mutation.rs:89-121 | A registry that does not rewrite the copies accepts a paste of a well-formed payload into a sound document exactly when it accepts the result; the recorded inverse then brings back the earlier records and relations. |
| Copying.FromRecords | crates/canvas/src/clipboard.rs:36-69 | On any relation lists, the loops collect the records and the relations among them; the copied lists are well formed, and are the filtered ones when these are. |
| Copying.PayloadHolds | crates/canvas/src/clipboard.rs:36-69 | The payload holds exactly the listed records that exist, the relations with both ends listed, and the selected records and handles that are listed. |
| Copying.FromSelection | crates/canvas/src/clipboard.rs:26-69 | Copying any selection of a sound document gives a payload of exactly the unlocked records of its scope, the unlocked edges between unlocked nodes of it, and the existing handles at such nodes; it can be pasted. |
| Copying.CopyIsPasteable | crates/canvas/src/clipboard.rs:26-69 | Whatever is copied from a sound document can be pasted. |
| Copying.CopyThenPaste | crates/canvas/src/clipboard.rs:26-197 | Copying from any sound document and pasting into any sound document applies and adds exactly the renamed copies. |
| JsonFields.FieldsRoundTripIff | crates/canvas/src/json_canvas.rs:464-494 | Storing optional fields in a data map and taking them out gives everything back exactly when no key is occupied. |
| JsonFields.CoordinateRoundTripIff | crates/canvas/src/json_canvas.rs:496-509 | A 64-bit coordinate survives single precision exactly when it is a multiple of the spacing at its magnitude, or the largest value. |
| JsonFields.SmallIsRepresentable | crates/canvas/src/json_canvas.rs:496-509 | All integers up to 2^24 in magnitude survive. |
| JsonContents.ToSingleIsNearest | crates/canvas/src/json_canvas.rs:180-184 | A coordinate goes to the nearest multiple of the spacing at its magnitude, on a tie to the even one. |
| JsonContents.RoundsToNearest | crates/canvas/src/json_canvas.rs:496-509 | A pixel goes to the nearest integer, on a tie to the one away from zero. |
| JsonCanvas.Build | crates/canvas/src/document/builder.rs:28-47 | The builder applies the inserts in order, prunes and validates. |
| JsonCanvas.ImportCanvas | crates/canvas/src/json_canvas.rs:81-116 | The import loops compute the import function, with its errors. |
| JsonImport.EnsureSidesFacts | crates/canvas/src/json_canvas.rs:409-428 | Handles are only added, every sided endpoint finds its handle, and a node never gets a side twice. |
| JsonImport.ImportIff | crates/canvas/src/json_canvas.rs:81-116 | A canvas is imported exactly when ids are distinct, required fields are present, sizes are not negative and edge ends exist; the document is sound and holds nodes and edges in order. |
| JsonContents.ImportedContents | crates/canvas/src/json_canvas.rs:168-200 | The imported document holds the nodes and edges in order, each with every stated field: coordinates, size, colour, place as z-index, neither hidden nor locked, text fields under their own names over the extra data, side handles in the middle of their sides; and nothing else. |
| JsonContents.RefusedNode | crates/canvas/src/json_canvas.rs:169-228 | A node is refused for the field its kind requires, for an unknown kind, or else for a negative size. |
| JsonRoundTrip.NodeRoundTripIff | crates/canvas/src/json_canvas.rs:168-242 | A node comes back exactly when its coordinates are representable and no extra key stands for a field. |
| JsonRoundTrip.EdgeRoundTripIff | crates/canvas/src/json_canvas.rs:341-397 | An edge comes back, sides included, exactly when no extra key stands for a field. |
| JsonContents.ExportedNode | crates/canvas/src/json_canvas.rs:202-228 | Any node, imported or not, is exported exactly when its size is not negative and its data has the string its kind demands, with rounded coordinates, the fill as colour and the string fields taken out of the data. |
| JsonRoundTrip.CanvasRoundTripIff | crates/canvas/src/json_canvas.rs:81-136 | Exporting an imported canvas gives back the same value, node and edge order included, exactly when there are at most 2^31 nodes and every node and edge comes back. |
| JsonRoundTrip.WideCoordinateIsLost | crates/canvas/src/json_canvas.rs:496-509 | A node at x = 2^24 + 1 makes the round trip fail. |
| JsonRoundTrip.WideCanvasIsLost | crates/canvas/src/json_canvas.rs:81-136 | A one-node canvas with that coordinate is imported and exported differently. |
| JsonRoundTrip.ReservedKeyIsLost | crates/canvas/src/json_canvas.rs:464-479 | A stated field under a key that the extra data also has makes the round trip fail; a parsed file never has such data, a value built in memory can. |
| JsonRoundTrip.SidePositionIff | crates/canvas/src/json_canvas.rs:449-462 | The position of a side handle gives its side back exactly when the sides are apart. |
| JsonContents.NearestSide | crates/canvas/src/json_canvas.rs:449-462 | The side read from a position is a nearest one, and the first of top, right, bottom and left among these. |
| WebSocketFrames.XorBitsAt | xtask/src/web_smoke.rs:1557-1559 | The masked byte has a bit set exactly where payload and mask byte differ. |
| WebSocketFrames.HeaderBits | xtask/src/web_smoke.rs:1564-1575 | Bit by bit: the opcode is the low four bits of the first byte, the length the low seven and the mask flag the top one of the second. |
| WebSocketFrames.WriteTextFrame | xtask/src/web_smoke.rs:1541-1562 | The loops write the masked text frame of RFC 6455, sections 5.2 and 5.3. |
| WebSocketFrames.WriteControlFrame | xtask/src/web_smoke.rs:1620-1633 | The control frame, refused above 125 bytes. |
| WebSocketFrames.FrameBytes | xtask/src/web_smoke.rs:1541-1562 | Where every byte of a frame stands: first byte, length in its shortest form with the mask flag, the four mask bytes, and each payload byte combined with the mask byte of its place modulo four. |
| WebSocketFrames.FrameRoundTrip | xtask/src/web_smoke.rs:1541-1618 | A frame of any length form, masked or not, is read back as its payload and exactly its bytes are consumed. |
| WebSocketFrames.FrameIsShortest | xtask/src/web_smoke.rs:1541-1553 | No byte string read as the same payload, masked alike, is shorter. |
| WebSocketStreams.Connection.ReadTextFrame | xtask/src/web_smoke.rs:1564-1618 | Reads up to the next text, answers pings, skips pongs, and fails on close, unknown opcodes, invalid UTF-8 and a short stream. |
| WebSocketStreams.ValidUtf8Iff | xtask/src/web_smoke.rs:1564-1618 | The byte strings accepted as text are exactly the UTF-8 encodings of sequences of Unicode scalar values, section 3 of RFC 3629. |
| WebSocketStreams.RefusedEvent | xtask/src/web_smoke.rs:1605-1633 | A text is refused exactly when it is not UTF-8, and a ping exactly when its payload is longer than an answer can hold. |
| WebSocketStreams.StreamRoundTrip | xtask/src/web_smoke.rs:1564-1633 | Any sequence of frames that ends with a text is read as its texts in order, with every ping answered and exactly the rest left unread. |

## Left out

- Floating point: pixels are exact reals, so rounding, NaN and infinity are not modelled, nor the checks that waypoints and routes are finite. JSON Canvas coordinates do model the rounding of integers to single precision.
- Spatial queries (`SpatialIndex`, `CanvasRuntimeQuery`): the runtime's third cache is not part of this model.
- Paint, labels, tools, snapping, GPUI adapters, persistence, serde formats, format migrations, operation batches (`changes.rs`) and `transform.rs`: callbacks, input and output, or facts settled by one branch.
- Kind registry: its policies are parameters, one function per kind of record for rewriting and one for checking. The history theorems assume (`Undoing.Consistent`) that a rewritten record is in normal form, that is, normalising it again changes nothing; the registry of a store that is given none meets this.
- Edge routers and geometry policies are parameters, assumed to be pure functions of their arguments.
- Store: listeners, transient transactions, gesture sessions inside the store, replacing the router or the registry, and the normalising constructor that takes a registry.
- Undoing.UndoIsAccepted: is stated for registries that meet `Undoing.Consistent`; a registry that rewrites a record differently the second time could change what an undo restores.
- Undoing.PreparedIsGood: likewise.
- Stores.Store.constructor: takes a sound document in the registry's normal form, although the code also wraps documents it has not validated.
- Transactions carry no metadata, and documents no format version.
- Iteration order of hash sets: sets are sets, and order is stated only where the code fixes it.
- Selection handles are modelled only where a selection is copied or pasted.
- Copying.FromSelection: does not fix the order in which the records of a scope are copied.
- WebSocket: sockets, timeouts and error texts are not modelled; payloads are shorter than 2^64 bytes.
- HitTesting.NearestOnLineIsNearest: excludes segments no longer than the code's shortcut threshold, for which the code returns an end of the segment; that this point lies on the segment is all `HitTesting.HitInsideBounds` needs.
- HitTesting.NearestOnCubic: is the nearest point of the sampled chords, as the code computes it, not of the curve.
- PasteCommits.PasteIsAcceptedIff: is stated for a registry that does not rewrite the copies; one that does pastes something else.
- GestureCommits.CommitGestureIs: is stated for a registry that neither rewrites nor rejects, as the next line.
- GestureCommits.GestureAcceptedIff: is stated for a registry that neither rewrites nor rejects, since an application's rules could reject any gesture.
