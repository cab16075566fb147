# Verified model of the GPUI core

This project models, in Dafny, the parts of the GPUI framework where the argument for correctness
spans several functions, several threads or a whole run, and proves what those parts are for.

| file | models | main results |
|---|---|---|
| `FrameTrace.dfy`, `FrameTraceProgress.dfy`, `FrameTraceLosses.dfy`, `FrameTraceRecords.dfy` | the lock-free bounded trace | exclusive slots, a stop bit that is never lost, an exact snapshot, in every interleaving; a claimed snapshot can always be completed, and without contention holds exactly the last ids; exactly when a call gets in and gets its slot |
| `RasterCache.dfy`, `RasterCacheUpdates.dfy` | the multi-writer sequence lock | no torn reads, monotone revisions, exact time lookup, in every interleaving; an update that returns is the newest value |
| `Geometry.dfy`, `BoundsTree.dfy` | bounds and the draw-order tree | the pruned tree search equals a linear scan; orders are the least that respect overlaps |
| `Transform.dfy`, `Scene.dfy`, `SceneLayers.dfy` | painting, replay, replay under a transform | replay rebuilds a scene; a transformed replay keeps every draw order; the recording is the visible part of the script; which layer each painting belongs to |
| `Brackets.dfy` | nested opening and closing | what is still open, used for layers and for tab groups |
| `Sorting.dfy`, `Batches.dfy`, `Painter.dfy`, `DrawingOrder.dfy` | finishing and drawing a scene | everything is drawn once; of overlapping tree entries the later is drawn later; the drawing is the recording stably sorted by order, kind and tile |
| `DispatchTree.dfy`, `PrepaintRanges.dfy`, `NodeIndices.dfy` | the dispatch tree, subtree reuse and the indices | the three stacks always follow the active path; a reused range keeps its parents exactly if it is in preorder, which every range recorded in one prepaint is |
| `KeyDispatch.dfy`, `Keymap.dfy`, `Context.dfy` | keystroke replay, binding lookup, context predicates | greedy replay loses no key; lookups equal their declarative meaning; when the covering test is sound |
| `Subscription.dfy`, `SubscriptionLog.dfy` | re-entrant subscriber emission, also of other keys inside | who is called, who is left, and exactly when an unsubscribed callback stays, from the operations alone |
| `TabStop.dfy`, `TabOrder.dfy` | tab order | where `next` and `prev` go from any handle, and exactly when they walk one cycle through all stops; where a handle stands by its groups and tab index |
| `Highlights.dfy` | merging highlight ranges | pieces are disjoint, ascending, and carry exactly the highlights over them |
| `Arena.dfy` | the bump arena | live elements are aligned and disjoint, dropped once; boxes validate until the next clear |
| `Color.dfy` | RGB and HSL | both round trips, the second with its exact condition |

Code that changes objects step by step is a class here too, with the fields of the source, and its
methods are proved against specification functions on values; the lemmas are about those functions.
The two concurrent protocols are state machines with one step per atomic access, and their results
hold in every state of every run of any number of threads.

Results where the source does less than one might expect:

- Unsubscribing, during an emission, a subscriber that was there before has no effect in two cases: some
  callback of the emission has already subscribed to the same key (`src/subscription.rs:71-89` finds the
  entry of the new subscribers and looks only there), or an emission of another key ends afterwards inside
  this one and takes all marks (`src/subscription.rs:143-147`; a debug build stops at the assertion there).
  `DroppedAfterInsertStays` and `OtherEmissionForgets` give the inputs, `RetainIsExact` the exact condition.
- `is_superset` promises that a predicate matches wherever the other does
  (`src/keymap/context.rs:319-320`). With a negation it may not: `!workspace` passes the test for
  `pane > !workspace`. `SoundExactlyIfMonotone` says for which predicates the promise holds, and
  `SoundWhenChecked` gives the conditions a caller can check. The promise is "whether or not", and the other
  direction holds for no predicate: no `p` passes the test for `p || p` (`NeverComplete`). What the test
  finds is exactly a shared part (`TestIsSharing`).
- A focus handle that is inserted twice as a tab stop misleads `next` and `prev`, which go on from its last
  insertion (`src/tab_stop.rs:89`): with the handles 7, 8, 7 at one index, tabbing from 7 never leaves it
  (`RepeatedHandleHidesAStop`). `TabbingIsACycle` and `NextFollowsExactlyIf` say exactly when tabbing visits
  all stops in order.
- Things painted later need not be drawn later: inside one layer drawing goes by kind, and a layer keeps its
  order when layers inside it have closed. `DrawnAsPaintedExactlyIf` compares the keys.
- `truncate` drops the index entry of an id that a kept node still carries, if a node cut off carries it too
  (`src/key_dispatch.rs:310-321`); `TruncateKeepsIndices` says that otherwise both indices stay right.
- `reuse_subtree` recovers the parents of a range exactly if the range is in preorder. A frame as a whole
  need not be: a deferred element is prepainted under an earlier node (`src/window.rs:2512-2514`), and
  `DeferredElementBreaksOrder` shows a range across two prepaints that is not. But every range recorded
  between the start and the end of one prepaint is, whatever came before and whatever comes after
  (`RecordedRangeIsPreorder`), and these are the ranges the window reuses.
- `move_node` leaves the view id of a copy empty where the copy already lies inside that view
  (`src/key_dispatch.rs:226-233`).
- `alloc` may panic for a type no larger than a chunk, because chunks are allocated with alignment 1
  (`src/arena.rs:42`): `PanicsThoughItFits` gives a case, and `NeverPanicsExactlyIf` the exact chunk size
  from which no address can make it panic.
- `set_key_context` and `set_view_id`, called twice on one node, leave the stacks out of step
  (`src/key_dispatch.rs:215-244`); the contracts say exactly when.
- HSL to RGB and back loses the hue of greys, and turns a hue of 1 into 0.

## Model

| member | source | states |
|---|---|---|
| FrameTrace.InvKept | src/frame_trace.rs:574-659 | one step of any thread or of the stopper keeps the inductive invariant over all program counters |
| FrameTrace.InitialInv | src/frame_trace.rs:557-572 | a new buffer satisfies that invariant |
| FrameTrace.NoSharedSlot | src/frame_trace.rs:588-619 | in every interleaving, two writers that own slots own different ones |
| FrameTrace.StopBitSurvives | src/frame_trace.rs:574-586 | in every run the stop bit is set exactly from the stopper's write on, and the count is exactly the calls in flight: no carry reaches it |
| FrameTrace.NoWriterAfterDrain | src/frame_trace.rs:621-650 | once the stopper saw no active writer, no `record` call is inside `write_registered`, then or ever after |
| FrameTrace.SnapshotIsExact | src/frame_trace.rs:621-659 | a finished snapshot holds for each slot exactly the newest event ever published there, whole; ids strictly increase; the stop marker is last; issued ids are published, superseded or contended; overwritten is published minus kept |
| FrameTraceProgress.SnapshotCanComplete | src/frame_trace.rs:588-659 | from every reachable state with the snapshot claimed, and ids left for the calls in flight and the marker, some continuation completes it |
| FrameTraceLosses.WithoutContentionTheLastAreKept | src/frame_trace.rs:588-659 | with no contended write, the snapshot holds the last ids handed out, one by one, as many as there are slots |
| FrameTraceLosses.StepKeepsLosses | src/frame_trace.rs:588-619 | in every step without contention, each id handed out is published, held by its writer, or outdone by a newer event in its slot |
| FrameTraceRecords.AdmittedExactlyIf | src/frame_trace.rs:574-586 | in every run, a call gets in if and only if the stop bit is not set and fewer calls are in flight than the count holds; otherwise it is turned away |
| FrameTraceRecords.UndisturbedCallPublishes | src/frame_trace.rs:574-619 | such a call, with an id left and no other call owning a slot, can run by itself to the answer yes, with its event whole in the slot of the next id and in the log, and nothing counted as lost |
| FrameTraceRecords.LookingAtTheSlot | src/frame_trace.rs:588-600 | what a writer finds, by owners and publications: contended if and only if another call owns the slot, superseded if and only if nobody does and a newer event was published there |
| FrameTraceRecords.ClaimingTheSlot | src/frame_trace.rs:601-613 | the exchange succeeds if and only if nobody owns the slot and nothing was published there since the writer looked |
| FrameTraceRecords.AnswerTellsPublished | src/frame_trace.rs:588-619 | in every run, a call answers yes if and only if its event was published |
| RasterCache.InvKept | src/raster_cache.rs:90-173 | one step of any thread keeps the invariant over all readers and writers |
| RasterCache.InitialInv | src/raster_cache.rs:71-82 | a new handle satisfies that invariant |
| RasterCache.SnapshotsAreCoherent | src/raster_cache.rs:150-173 | whatever a snapshot returned is one published transform under its own revision, no older than the newest at the start of the call; one reader's revisions never decrease |
| RasterCache.OneWriterAtATime | src/raster_cache.rs:100-145 | between the exchange to an odd generation and publication there is at most one writer |
| RasterCache.UpdatedAtIsExact | src/raster_cache.rs:180-188 | the backward search over a contiguous run of revisions finds exactly the entry of that revision |
| RasterCache.TimesAreAvailable | src/raster_cache.rs:119-146 | in every run the deque answers for exactly the newest 128 pushed revisions, with their own times, and always for the revision readers can observe |
| RasterCacheUpdates.UpdateTakesEffect | src/raster_cache.rs:90-147 | in every run, when an update returns its transform is the newest published one: it was already, and nothing changed, or the call added it with its time |
| RasterCacheUpdates.ComparisonDecides | src/raster_cache.rs:96-98 | a call leaves at its comparison if and only if it read the newest transform and that is its own; it goes on to publish if and only if that is another one; an overtaken pass starts again |
| RasterCacheUpdates.OnlyUpdatesPublish | src/raster_cache.rs:90-147 | the history grows by nothing but the transform and time of an update that returns with that step |
| RasterCacheUpdates.OnlyValidIsPublished | src/raster_cache.rs:90-95 | an invalid transform is refused: in every run all published scales are positive |
| RasterCacheUpdates.UndisturbedSnapshot | src/raster_cache.rs:150-173 | while nobody is writing, a snapshot by itself returns the newest revision and its transform |
| RasterCacheUpdates.UndisturbedUpdate | src/raster_cache.rs:90-147 | while nobody is writing, an update by itself publishes its transform as the next revision, unless it is the newest already |
| RasterCacheUpdates.HolderFinishes | src/raster_cache.rs:119-147 | a writer in its critical section publishes and lets go by itself |
| Geometry.UnionIsLeastCover | src/geometry.rs:1152-1156 | the union is the least bounds covering both |
| Geometry.IntersectIsOverlap | src/geometry.rs:1113-1117 | a point is inside the intersection exactly if inside both |
| Geometry.IntersectsIsCommonArea | src/geometry.rs:935-943 | bounds with area intersect exactly if some point is inside both, exactly if the clip is not empty |
| Geometry.CoverPreservesIntersection | src/bounds_tree.rs:130-162 | a query that meets a leaf meets every bounds covering it |
| DrawOrders.BoundsTree.constructor | src/bounds_tree.rs:184-194 | an empty tree |
| DrawOrders.BoundsTree.Clear | src/bounds_tree.rs:29-33 | forgets all insertions |
| DrawOrders.BoundsTree.Insert | src/bounds_tree.rs:35-128 | returns one more than the largest order of the earlier bounds that intersect, by a linear scan; the arena stays a proper tree with covering bounds and exact maxima; the stack ends empty |
| DrawOrders.BoundsTree.Descend | src/bounds_tree.rs:43-74 | the best-fit descent ends at a leaf with the stack naming its ancestors and the largest order hit beside the path |
| DrawOrders.BoundsTree.FindMaxOrdering | src/bounds_tree.rs:130-162 | the pruned search returns the maximum over all intersecting leaves of the subtree |
| DrawOrders.BoundsTree.Graft | src/bounds_tree.rs:94-111 | the new leaf hangs beside its sibling and nothing else moves |
| DrawOrders.BoundsTree.Propagate | src/bounds_tree.rs:113-125 | despite the early stop, every maximum on the path is right |
| DrawOrders.BoundsTree.PushLeaf | src/bounds_tree.rs:164-167 | appends a leaf |
| DrawOrders.BoundsTree.PushInternal | src/bounds_tree.rs:169-181 | appends a node with the union and the larger maximum of its children |
| DrawOrders.MaxHitIsTop | src/bounds_tree.rs:43-93 | the linear scan finds an upper bound of the intersecting orders that is attained |
| DrawOrders.LaterOverlapGetsLargerOrder | src/bounds_tree.rs:35-128 | of two overlapping insertions the later has the larger order |
| DrawOrders.OrdersAreBounded | src/bounds_tree.rs:80-93 | the n-th insertion has an order between 1 and n |
| DrawOrders.OrdersAreLeast | src/bounds_tree.rs:80-93 | the assignment is the least of all that order overlapping insertions |
| DrawOrders.PruningIsSound | src/bounds_tree.rs:130-162 | a subtree out of reach, or with no larger maximum, cannot improve the result |
| DrawOrders.HitIsMaxHit | src/bounds_tree.rs:43-93 | tree search and linear scan agree whenever they hold the same entries |
| DrawOrders.RaiseIsSound | src/bounds_tree.rs:43-125 | enlarged bounds and raised maxima on the path make the grown tree sound again |
| DrawOrders.Replace | src/bounds_tree.rs:94-111 | exchanging a subtree keeps the index arena a proper tree |
| DrawOrders.MaximaGrowUpwards | src/bounds_tree.rs:113-125 | maxima never shrink towards the root, which allows the early stop |
| Transform.ComposeApplies | src/scene.rs:1096-1137 | composing then applying is applying twice, also through the unit shortcut |
| Transform.ConjugateCommutes | src/scene.rs:567-581 | the conjugated matrix sends the moved point to the moved image |
| Transform.TransformKeepsIntersects | src/scene.rs:672-681 | a positive scale and a translation keep who intersects whom |
| Transform.TransformKeepsClip | src/scene.rs:672-681 | and what clipping leaves, and whether it leaves anything |
| Scenes.Scene.constructor | src/scene.rs:25-60 | an empty scene |
| Scenes.Scene.Clear | src/scene.rs:63-91 | back to the empty scene |
| Scenes.Scene.PushLayer | src/scene.rs:212-217 | the layer gets an order from the tree and is recorded |
| Scenes.Scene.PopLayer | src/scene.rs:219-222 | the innermost layer closes, without one only the operation is recorded |
| Scenes.Scene.InsertPrimitive | src/scene.rs:224-335 | a fully clipped primitive leaves no trace, any other gets its layer's order or its own and is filed and recorded |
| Scenes.Scene.Replay | src/scene.rs:337-345 | equals painting the recorded range again |
| Scenes.Scene.ReplayVectorTransform | src/scene.rs:358-375 | equals painting the transformed operations |
| Scenes.Scene.Finish | src/scene.rs:445-456 | each vector is stably sorted by order, sprites by order and tile |
| Scenes.ReplayRebuilds | src/scene.rs:337-345 | replaying a whole recording into an empty scene rebuilds operations, entries, orders and vectors |
| Scenes.TransformReplayCommutes | src/scene.rs:358-375 | painting transformed operations is transforming the painted scene: nothing is dropped or reordered |
| Scenes.TransformedReplayKeepsOrders | src/scene.rs:358-375 | a transformed replay of a recording has the same operations, transformed, and every draw order unchanged |
| Scenes.TransformedFields | src/scene.rs:561-657 | field by field: boxes and points moved and scaled, lengths scaled, everything else but the matrix as it was |
| Scenes.TransformedMatrix | src/scene.rs:567-581 | the matrix of the transformed primitive takes each moved point to the moved image |
| Scenes.Primitive.Stored | src/scene.rs:293-331 | storing writes the draw order, for a path also its id, and nothing else |
| SceneLayers.PopUndoesPush | src/scene.rs:212-222 | closing the layer just opened gives back the layers and entries there were |
| SceneLayers.BalancedKeepsLayers | src/scene.rs:212-222 | every balanced script leaves the open layers and their entries as they were |
| SceneLayers.BalancedKeepsOpen | src/scene.rs:212-222 | and so do balanced operations in a recording, for the layers open there |
| SceneLayers.OuterLayerAgain | src/scene.rs:293-297 | what is painted in a layer after inner layers have closed carries that layer's entry and order, and makes no entry |
| SceneLayers.OpenLayersAreOpen | src/scene.rs:212-222 | the open layers are exactly those started and not ended again, oldest first |
| SceneLayers.EntryIsInnermostLayer | src/scene.rs:293-297 | the entry of a painting is made by the newest layer start before it that is still open, or if there is none by the painting |
| SceneLayers.RecordingIsTheScript | src/scene.rs:224-335 | a scene records exactly the operations of which a point is inside the content mask, and all layers, in order and unchanged but for draw orders and path ids |
| SceneLayers.PathIdsArePositions | src/scene.rs:307-311 | the id of every path is its position among the paths |
| Sorting.SortByIsStableSort | src/scene.rs:445-456 | the sort is a sorted permutation keeping equal keys in order |
| Batches.BatchIterator.Next | src/scene.rs:720-895 | yields the next slice and advances one cursor to its end |
| Batches.Drain | src/scene.rs:465-493 | iteration ends, having yielded all batches |
| Batches.RankedIsMerge | src/scene.rs:721-757 | the two smallest heads are the least key of all and the least of the others |
| Batches.DrawnOnce | src/scene.rs:759-895 | the primitives emitted of each kind are exactly that kind's vector |
| Batches.DrawnInOrder | src/scene.rs:749-895 | everything is emitted in non-decreasing (order, kind) |
| Batches.NeighboursDiffer | src/scene.rs:759-895 | consecutive batches of one kind differ in texture |
| Batches.BatchIsUniform | src/scene.rs:759-895 | a batch is a non-empty slice of one vector with one texture |
| Painter.EveryRunIsTraced | src/scene.rs:212-335 | in every painted scene each primitive carries the order of the entry of its innermost layer, or of its own clipped bounds |
| Painter.EverythingIsDrawnOnce | src/scene.rs:445-895 | the drawing is, as a multiset, exactly what was recorded |
| Painter.EntriesFollowPositions | src/scene.rs:212-335 | tree entries are made in the order of the operations that make them: starts of layers, and paintings outside all layers |
| Painter.PaintersOrder | src/scene.rs:212-895 | if the operation that made the entry of one primitive comes after the other's in the recording and their bounds intersect, every drawing of the one comes strictly after every drawing of the other |
| DrawingOrder.DrawingIsStableSort | src/scene.rs:445-895 | the drawing is the recording, stably sorted by draw order, kind and for sprites tile |
| DrawingOrder.DrawnInOnePlace | src/scene.rs:445-895 | every painting is drawn in exactly one place |
| DrawingOrder.DrawnAsPaintedExactlyIf | src/scene.rs:445-895 | two paintings are drawn in the order they were painted if and only if the later's keys do not come before the earlier's |
| DispatchTrees.DispatchTree.constructor | src/key_dispatch.rs:140-151 | an empty tree |
| DispatchTrees.DispatchTree.Clear | src/key_dispatch.rs:153-160 | back to the empty tree, with both indices empty |
| DispatchTrees.DispatchTree.PushNode | src/key_dispatch.rs:166-176 | a child of the active node becomes active |
| DispatchTrees.DispatchTree.PopNode | src/key_dispatch.rs:235-244 | all three stacks go back to the parent's chain |
| DispatchTrees.DispatchTree.SetActiveNode | src/key_dispatch.rs:178-213 | from any active node to any other, the stacks are those of the new node's root path |
| DispatchTrees.DispatchTree.Rebuild | src/key_dispatch.rs:194-212 | refilling upwards and reversing gives the same stacks |
| DispatchTrees.DispatchTree.SetKeyContext | src/key_dispatch.rs:215-218 | stores and stacks the context; the stacks stay in step exactly if the node had none |
| DispatchTrees.DispatchTree.SetFocusId | src/key_dispatch.rs:220-224 | stores the focus id and indexes the node by it |
| DispatchTrees.DispatchTree.SetViewId | src/key_dispatch.rs:226-233 | skips the innermost view, else stores, stacks and indexes; in step exactly if skipped or first |
| DispatchTrees.DispatchTree.MoveNode | src/key_dispatch.rs:246-262 | the copy has everything but the parent, the source keeps all but its listeners, and both indices name the copy |
| DispatchTrees.DispatchTree.ReuseSubtree | src/key_dispatch.rs:264-308 | every node of the range is copied to its refreshed id and its listeners taken; parents are refreshed exactly if the range is in preorder; the stacks are restored; both indices and the flag are exact; the tree is in order from wherever it was |
| DispatchTrees.DispatchTree.Truncate | src/key_dispatch.rs:310-321 | cuts the nodes off and their ids out of both indices; in step exactly if the active node stays |
| DispatchTrees.DispatchTree.DispatchPath | src/key_dispatch.rs:552-561 | the path from the root to the target |
| DispatchTrees.ChainIsParentPath | src/key_dispatch.rs:552-561 | that path starts at a root, ends at the node, and steps by parents |
| DispatchTrees.SetContextKeepsValid | src/key_dispatch.rs:215-218 | setting a context keeps the stacks in step if and only if the node had none |
| DispatchTrees.SetViewKeepsValid | src/key_dispatch.rs:226-233 | setting a view id does if and only if the node had none or it is the innermost one |
| DispatchTrees.PreorderStep | src/key_dispatch.rs:281-296 | after the pops, a node's parent is the shifted one if and only if the range is still in preorder |
| DispatchTrees.EndIsInOrder | src/window.rs:2512-2516 | whatever came before, a tree in which nothing was added since some point is in order from there on |
| DispatchTrees.PushKeepsOrder | src/key_dispatch.rs:166-176 | from whatever node on the tree was in order, it still is after a push |
| DispatchTrees.MoveKeepsOrder | src/key_dispatch.rs:246-262 | and after a node was moved over |
| DispatchTrees.PopKeepsOrder | src/key_dispatch.rs:235-244 | and after popping one of these nodes |
| DispatchTrees.RewritingKeepsOrder | src/key_dispatch.rs:215-233 | and after setting contexts, focus ids, view ids and listeners |
| DispatchTrees.CuttingKeepsOrder | src/key_dispatch.rs:310-321 | and after cutting the tree off above the active node |
| DispatchTrees.PreorderPart | src/key_dispatch.rs:264-308 | every part of a range in preorder is in preorder |
| DispatchTrees.PreorderFrame | src/window.rs:2598-2602 | a range in preorder stays so when later nodes or anything but parents change |
| DispatchTrees.CutKeepsValid | src/key_dispatch.rs:310-321 | the stacks stay in step if and only if the active node is not cut off |
| PrepaintRanges.StepKeepsOrder | src/element.rs:419-428 | every operation of a prepaint keeps the stacks in step and its own nodes in order |
| PrepaintRanges.RecordedRangeIsPreorder | src/window.rs:2502-2539 | the range between the two indices of one prepaint, and every part of it, is in preorder at any later time |
| PrepaintRanges.DeferredElementBreaksOrder | src/window.rs:2512-2514 | a frame the code builds in which a range across two prepaints is not in preorder |
| NodeIndices.PushKeepsIndices | src/key_dispatch.rs:166-176 | a push keeps both indices in agreement with the nodes |
| NodeIndices.MoveKeepsIndices | src/key_dispatch.rs:246-262 | and so does moving a node over |
| NodeIndices.ReuseKeepsIndices | src/key_dispatch.rs:264-308 | and reusing a subtree |
| NodeIndices.SetFocusKeepsIndices | src/key_dispatch.rs:220-224 | setting a focus id does if and only if the entry of another id the node carried names some other node |
| NodeIndices.SetViewKeepsIndices | src/key_dispatch.rs:226-233 | the same for view ids |
| NodeIndices.TruncateKeepsIndices | src/key_dispatch.rs:310-321 | truncating never leaves a wrong entry, and keeps both indices complete if and only if no kept node carries an id of a node cut off |
| KeyDispatch.ReplayPrefix | src/key_dispatch.rs:527-550 | takes off the longest bound prefix, or else one key, and replays its last key |
| KeyDispatch.FlushDispatch | src/key_dispatch.rs:512-524 | ends, and replays exactly the greedy blocks of the input, in order |
| KeyDispatch.DispatchKey | src/key_dispatch.rs:472-508 | replayed blocks, remainder and new key concatenate to the input plus the new key; the remainder with the key is pending, bound, or one key |
| KeyDispatch.GreedyBlocksCover | src/key_dispatch.rs:512-550 | greedy blocks concatenate to the input, each bound or a single key |
| KeyDispatch.GreedyBlocksUnique | src/key_dispatch.rs:512-550 | there is only one such splitting |
| KeyDispatch.DispatchReplaysLikeFlush | src/key_dispatch.rs:472-524 | what a dispatch gives up is replayed as a flush of the whole input would begin |
| Keymaps.Keymap.AddBindings | src/keymap.rs:44-59 | appends the bindings; both indices stay exact; one new version |
| Keymaps.Keymap.Clear | src/keymap.rs:62-67 | no bindings, indices exact, one new version |
| Keymaps.Keymap.BindingsForAction | src/keymap.rs:76-114 | equals a linear scan of all bindings, minus those a later NoAction disables |
| Keymaps.Keymap.BindingsForInput | src/keymap.rs:144-208 | exactly the enabled full matches that no blocking NoAction precedes, by descending (depth, index); the flag is set exactly if some sequence's newest live longer binding acts |
| Keymaps.PositionsAreExact | src/keymap.rs:44-59 | an index lists exactly the matching positions, ascending |
| Keymaps.IndexedScanIsScan | src/keymap.rs:76-114 | scanning the index is scanning everything |
| Keymaps.RankedIsRanking | src/keymap.rs:167-169 | sorted by strictly descending precedence, none lost |
| Keymaps.MatchKeystrokes | src/keymap/binding.rs:89-101 | none unless the input is no longer than the binding and matches it key by key; then pending if and only if the binding is longer |
| Keymaps.AnswersMean | src/keymap.rs:144-197 | a binding is among the answers if and only if it acts, is as long as the input, matches it key by key, is enabled, and no matching NoAction of the user is deeper, or as deep and later |
| Keymaps.PendingMeans | src/keymap.rs:198-208 | the flag is raised only by an enabled, acting, longer binding that the input begins, not added before the first answer |
| Keymaps.NoContextIsDeepest | src/keymap.rs:211-217 | a binding without a context counts as the deepest: only later ones as deep precede it |
| ContextPredicates.EvalInner | src/keymap/context.rs:270-317 | the loops compute the declarative meaning of a predicate |
| ContextPredicates.DepthOf | src/keymap/context.rs:253-261 | the deepest depth that matches, or none |
| ContextPredicates.ComparisonsLookAtFirstEntry | src/keymap/context.rs:276-283 | equality holds if and only if the first entry with the key in the innermost context has the value, inequality if and only if not |
| ContextPredicates.SoundExactlyIfMonotone | src/keymap/context.rs:319-341 | the covering test is right about a predicate, whatever the other, if and only if its matches survive further ancestors |
| ContextPredicates.NotFreeIsMonotone | src/keymap/context.rs:270-341 | which every predicate without negation does |
| ContextPredicates.NegationBreaksIt | src/keymap/context.rs:319-341 | a predicate with negation for which the test is wrong |
| ContextPredicates.NeverComplete | src/keymap/context.rs:319-341 | for no predicate does the test find everything the predicate covers |
| ContextPredicates.TestIsSharing | src/keymap/context.rs:321-341 | the test passes if and only if a disjunct of the one is a conjunctive part of the other, or the other is one of its disjunctions |
| ContextPredicates.SoundWhenChecked | src/keymap/context.rs:319-341 | when the test passes, the promise holds if the predicate has no negation or the other no descendant among its conjunctive parts |
| Subscriptions.SubscriberSet.constructor | src/subscription.rs:36-42 | an empty set at rest |
| Subscriptions.SubscriberSet.Insert | src/subscription.rs:48-66 | an inactive subscriber with the next id joins its key's list |
| Subscriptions.SubscriberSet.Activate | src/subscription.rs:92 | sets the shared flag |
| Subscriptions.SubscriberSet.Unsubscribe | src/subscription.rs:69-91 | removes from the list, or during an emission marks as dropped, or does nothing once the key is gone |
| Subscriptions.SubscriberSet.Remove | src/subscription.rs:95-104 | takes the key out and hands back its subscribers, unfiltered |
| Subscriptions.SubscriberSet.NextRemoved | src/subscription.rs:105-112 | each step of consuming them finds the first that is active at that moment |
| Subscriptions.SubscriberSet.DrainRemoved | src/subscription.rs:105-112 | consumed in one go, they yield the callbacks of the active ones in insertion order |
| Subscriptions.SubscriberSet.Retain | src/subscription.rs:116-153 | calls exactly the subscribers present at the start and activated before the emission or by an earlier callback of it, once each, in insertion order; leaves the state of the specification |
| Subscriptions.SubscriberSet.Begin | src/subscription.rs:120-128 | takes the subscribers of the key out, if there are any in |
| Subscriptions.SubscriberSet.End | src/subscription.rs:137-152 | appends the new ones, removes all that are marked, takes the marks, and puts the rest back |
| Subscriptions.EmissionIsFlattened | src/subscription.rs:116-153 | an emission equals its beginning, what its callbacks do, and its end, so emissions inside emissions are operations like others |
| Subscriptions.CalledOnceInOrder | src/subscription.rs:129-136 | called, once each and in order, are those activated before the emission or by the callback of an earlier one that is called; kept are those not called and those whose callback says so |
| Subscriptions.ActiveExactlyIf | src/subscription.rs:92 | after any operations an id is active if and only if it was before or one of them activates it |
| SubscriptionLog.FreshIsInert | src/subscription.rs:43-66 | from an empty set: the next subscription to be handed out is never active, and any other exactly if it was activated |
| SubscriptionLog.CalledByLog | src/subscription.rs:129-136 | from the operations alone: a listed subscriber is called if and only if it was activated before the emission, or by the callback of an earlier one that is called |
| SubscriptionLog.ListedByLog | src/subscription.rs:48-91 | between emissions a key lists everyone inserted under it and not unsubscribed, in order of insertion |
| Subscriptions.RetainOutcome | src/subscription.rs:137-152 | afterwards: the kept ones without those marked (unsubscribed before the first new subscription and after the last other emission ended), then the new ones without those unsubscribed |
| Subscriptions.RetainIsExact | src/subscription.rs:116-153 | this is kept plus new minus unsubscribed if and only if every kept subscriber that was unsubscribed is marked |
| Subscriptions.DroppedAfterInsertStays | src/subscription.rs:71-89 | the one failing case: subscribe, then drop the old subscription, and it stays |
| Subscriptions.OtherEmissionForgets | src/subscription.rs:143-147 | the other: drop the subscription, then emit another key, and it stays |
| Subscriptions.RetainKeepsRest | src/subscription.rs:116-153 | after an emission nothing is taken out or marked dropped, and all lists ascend by id |
| Subscriptions.ApplyKeepsRest | src/subscription.rs:48-93 | the same for operations between emissions |
| TabStops.TabStopMap.constructor | src/tab_stop.rs:66-75 | an empty map |
| TabStops.TabStopMap.Insert | src/tab_stop.rs:78-90 | records the handle under the open groups and sorts it in |
| TabStops.TabStopMap.BeginGroup | src/tab_stop.rs:92-96 | opens a group |
| TabStops.TabStopMap.EndGroup | src/tab_stop.rs:98-101 | closes the innermost group, if any |
| TabStops.TabStopMap.Clear | src/tab_stop.rs:103-109 | an empty map |
| TabStops.TabStopMap.Next | src/tab_stop.rs:111-133 | the least later stop, else the first; none exactly if there are no stops |
| TabStops.TabStopMap.NextInner | src/tab_stop.rs:135-146 | the first stop after the node |
| TabStops.TabStopMap.Prev | src/tab_stop.rs:148-170 | the greatest earlier stop, else the last; none exactly if there are no stops |
| TabStops.TabStopMap.PrevInner | src/tab_stop.rs:172-183 | the last stop before the node |
| TabStops.TabStopMap.Replay | src/tab_stop.rs:185-193 | into an empty map, a whole history rebuilds the map it came from |
| TabStops.ApplyKeepsValid | src/tab_stop.rs:78-101 | the order stays sorted and holds exactly the nodes of the history; an id stands for its last insertion |
| TabStops.ReplayRebuilds | src/tab_stop.rs:185-193 | a state is determined by its history |
| TabStops.GroupsAreContiguous | src/tab_stop.rs:52-58 | nothing from outside a group sorts between its members |
| TabStops.NextIsLeastLater | src/tab_stop.rs:111-146 | from any handle, a stop or not: the least later stop, or the least of all |
| TabStops.PrevIsGreatestEarlier | src/tab_stop.rs:148-183 | from any handle: the greatest earlier stop, or the greatest of all |
| TabStops.NeighboursByCount | src/tab_stop.rs:111-183 | from any handle, inserted however often: `next` is the stop numbered by the count of stops up to its last insertion, `prev` the one before those ahead of it |
| TabStops.NeighbouringStops | src/tab_stop.rs:111-183 | `next` from a stop is the following one if and only if as many stops, modulo their number, lie up to the last insertion of its handle as up to itself |
| TabStops.PrevUndoesNext | src/tab_stop.rs:111-183 | on stops, each undoes the other if and only if the numbers of the stops they lead to say so |
| TabStops.TabbingIsACycle | src/tab_stop.rs:111-146 | n times `next` from stop k is stop k + n modulo their number, for all k and n, if and only if the stop after the last insertion of each stop's handle has the handle of the following stop |
| TabStops.InsertedOnceIsACycle | src/tab_stop.rs:111-183 | when no tab stop is inserted again later, `next` is that cycle and `prev` its inverse |
| TabStops.NextFollowsExactlyIf | src/tab_stop.rs:111-146 | when the insertions of a handle agree on its being a stop, `next` goes from every stop to the following if and only if no stop is inserted again |
| TabStops.RepeatedHandleHidesAStop | src/tab_stop.rs:78-146 | the failing case: with the handles 7, 8, 7 tabbing from 7 never leaves it |
| TabOrder.PathIsOpenGroups | src/tab_stop.rs:92-101 | the path a handle is inserted under is that of the groups begun and not ended again, outermost first |
| TabOrder.PathLessMeans | src/tab_stop.rs:52-58 | paths compare at the first place where they differ, and a path comes before its extensions |
| TabOrder.LowerTabIndexFirst | src/tab_stop.rs:78-90 | of handles inserted in the same groups the lower tab index comes first, and of equal ones the earlier insertion |
| TabOrder.GroupIndexCounts | src/tab_stop.rs:78-101 | beside a group, a handle stands before all its members if its tab index is at most that of the group, and after them otherwise |
| TabOrder.BeginsAtTheEnds | src/tab_stop.rs:111-170 | with nothing focused, or something unknown, `next` is the least stop and `prev` the greatest |
| TabOrder.NodesHaveTheirHandles | src/tab_stop.rs:199-206 | a node gives back the handle it was inserted for, with its stop flag and path |
| Highlights.Collect | src/style.rs:972-982 | two end points per highlight that is not empty; any sorting of them fits the sweep |
| Highlights.HighlightIterator.Next | src/style.rs:988-1007 | hands out the pieces of the sweep one by one |
| Highlights.Drain | src/style.rs:987-1008 | for any tie order of the sort, all pieces together are correct |
| Highlights.SweepIsCorrect | src/style.rs:983-1008 | pieces are not empty, ascending, disjoint, cut only at highlight ends, carry exactly the highlights over each position, and cover every highlighted position |
| Highlights.PiecesMatchInputs | src/style.rs:968-1008 | in terms of the inputs: the union of their ranges, and at each position exactly those containing it |
| Arenas.Chunk.Allocate | src/arena.rs:55-65 | bumps to the aligned end if it fits, else nothing changes |
| Arenas.Chunk.Reset | src/arena.rs:67-69 | empties the chunk |
| Arenas.Arena.constructor | src/arena.rs:87-96 | one empty chunk, no elements, a set flag |
| Arenas.Arena.Alloc | src/arena.rs:113-162 | all live elements stay aligned, inside used chunk space and disjoint; the box has the arena's flag; nothing is dropped |
| Arenas.Arena.Clear | src/arena.rs:102-110 | every element has then been dropped exactly once, in order of allocation; no earlier box validates |
| Arenas.AlignUpIsLeast | src/arena.rs:56 | the least aligned address from the offset on |
| Arenas.AllocKeepsInv | src/arena.rs:113-162 | allocation, panicking or not, keeps the invariant and all earlier elements |
| Arenas.ClearKeepsInv | src/arena.rs:102-110 | all chunks are empty again and nothing is live |
| Arenas.PanicsExactlyWhen | src/arena.rs:126-150 | it panics if and only if the current chunk has no room and the type does not fit an empty chunk at the next address; never when size plus alignment minus one fits a chunk, always when the size does not |
| Arenas.NeverPanicsExactlyIf | src/arena.rs:40-65 | no state and no chunk address make it panic if and only if a chunk has room for size plus alignment minus one |
| Arenas.PanicsThoughItFits | src/arena.rs:126-150 | a case where a type no larger than a chunk panics |
| Arenas.RepeatedFrameNeedsNoChunk | src/arena.rs:102-162 | after a clear, the same requests give the same addresses and need no new chunk |
| Colors.RgbRoundTrip | src/color.rs:132-160 | RGB to HSL and back is the identity on [0, 1], in all sectors and ties |
| Colors.HslRoundTrip | src/color.rs:589-625 | HSL to RGB and back is the identity exactly below a full turn, and for greys only without hue and saturation |
| Colors.SextantOfCorner | src/color.rs:589-625 | from the components of a hue and a positive chroma the hue is found again |
| Colors.HueMeans | src/color.rs:589-625 | the hue says which component is greatest and which least and where the third lies; the lightness is their middle; grey has hue zero |
| Colors.ChromaIsDelta | src/color.rs:132-160 | the saturation of one direction gives back the spread of the components in the other |

## Left out

- Floating point: coordinates and colour components are exact reals, without rounding, infinities or NaN.
- FrameTraceProgress.SnapshotCanComplete: a continuation exists; that a scheduler takes it, so that the spin loop ends, is not stated.
- Memory ordering: every atomic access is sequentially consistent, also where the source uses weaker orderings.
- FrameTrace.InvKept: fewer than 2^63 calls in flight and sequence ids below 2^63, so the id space does not wrap.
- FrameTrace.SnapshotIsExact: the process-wide trace globals, timestamps and payload contents are opaque; a second stop is refused and not modelled further.
- RasterCache.InvKept: the generation does not wrap; the critical section of the mutex is one step; a poisoned mutex is ignored as the source ignores it.
- RasterCacheUpdates.UpdateTakesEffect: the answer of an update, which says whether it published, is the difference of the histories and not a value of its own.
- FrameTraceRecords.UndisturbedCallPublishes: with at least one other call owning a slot the new call may find its own slot taken; that case is LookingAtTheSlot.
- Draw orders are unbounded numbers; `OrdersAreBounded` bounds them by the number of insertions. The drawing results ask for fewer than u32::MAX entries.
- `replay_cached_text`, `clone_vector_paint`, `clone_text_paint` and the frame-trace scene summary: plumbing beside the paths modelled.
- The eight primitive vectors of a scene are one sequence of eight, so the eight equal arms of the batch iterator are one.
- Scenes.TransformReplayCommutes: for a positive scale; a negative one turns bounds inside out.
- DispatchTrees.DispatchTree.ReuseSubtree: listeners' bodies and `available_actions` are left out; for ranges out of preorder only that the parents are not those expected is stated.
- PrepaintRanges.RecordedRangeIsPreorder: that elements pop what they push, and give a node its context and view id once, is the condition `Allowed` on the operations of a prepaint; the element code itself is not modelled.
- Keymaps.Keymap.BindingsForInput: `should_match` of single keystrokes, the depth of a predicate and the covering test are parameters; the last two are modelled in `Context.dfy`.
- ContextPredicates.EvalInner: parsing and printing of contexts and predicates.
- Subscriptions.SubscriberSet.Retain: what callbacks do is given beforehand as operations on the set; an emission of the same key inside its own emission, and a `remove` inside a callback, are not modelled.
- TabStops.TabStopMap.NextInner: the `SumTree` is its sorted sequence of items; its cursor is an index.
- Highlights.HighlightIterator.Next: pieces carry the set of highlights; the source folds their styles in the order of a `HashSet`, which is arbitrary.
- Arenas.Arena.Alloc: addresses do not overflow (`src/arena.rs:56-57`); the constructor closure and destructors are opaque; the addresses of new chunks are inputs, assumed not to overlap older chunks.
- Colors.RgbRoundTrip: alpha passes through; parsing, blending and packing of colours are left out.
- Windows, renderers, executors, the effect queue and platform code.
