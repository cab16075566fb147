/** From painting to drawing (src/scene.rs with src/bounds_tree.rs): everything recorded is drawn once, and of
    two things whose tree entries overlap, the one with the later entry is drawn later. */
module Painter {
  import opened Geometry
  import opened DrawOrders
  import opened Sorting
  import opened Scenes
  import opened Batches

  const NOTHING_DRAWN: seq<nat> := [0, 0, 0, 0, 0, 0, 0, 0]

  /** The operations that opened the layers which are open after the given operations, innermost last. */
  function OpenLayers(ops: seq<PaintOperation>): (starts: seq<nat>)
    ensures forall k :: 0 <= k < |starts| ==> starts[k] < |ops| && ops[starts[k]].StartLayer?
  {
    if ops == [] then []
    else
      var before := OpenLayers(ops[..|ops| - 1]);
      match ops[|ops| - 1]
      case Draw(_) => before
      case StartLayer(_) => before + [|ops| - 1]
      case EndLayer => DropLast(before)
  }

  /** The operation that made the tree entry of a painted primitive: the start of its innermost layer, or
      outside all layers the painting itself. */
  function EntryPosition(ops: seq<PaintOperation>, i: nat): (p: nat)
    requires i < |ops| && ops[i].Draw?
    ensures (p < i && ops[p].StartLayer?) || p == i
  {
    var layers := OpenLayers(ops[..i]);
    if layers != [] then layers[|layers| - 1] else i
  }

  /** The bounds that stand for a painted primitive in the tree: its innermost layer's, or outside
      all layers its own clipped bounds. */
  function EntryBounds(ops: seq<PaintOperation>, i: nat): Bounds
    requires i < |ops| && ops[i].Draw?
  {
    var p := EntryPosition(ops, i);
    if ops[p].StartLayer? then ops[p].bounds else ops[i].primitive.ClippedBounds()
  }

  predicate MakesEntry(ops: seq<PaintOperation>, op: PaintOperation) {
    op.StartLayer? || (op.Draw? && OpenLayers(ops) == [])
  }

  /** The number of tree entries the operations made. */
  function EntriesMade(ops: seq<PaintOperation>): nat {
    if ops == [] then 0
    else
      var rest := ops[..|ops| - 1];
      EntriesMade(rest) + if MakesEntry(rest, ops[|ops| - 1]) then 1 else 0
  }

  // Layers and recorded primitives carry the orders of their entries.
  ghost predicate LayersTraced(st: SceneState) {
    && |st.layers| == |st.layerEntries| == |OpenLayers(st.operations)|
    && |st.history| == EntriesMade(st.operations)
    && forall i :: 0 <= i < |st.layers| ==> LayerTraced(st, i, OpenLayers(st.operations)[i])
  }

  ghost predicate LayerTraced(st: SceneState, i: nat, start: nat)
    requires i < |st.layers| && i < |st.layerEntries| && start < |st.operations| && st.operations[start].StartLayer?
  {
    && st.layerEntries[i] < |st.history|
    && st.layerEntries[i] == EntriesMade(st.operations[..start])
    && st.history[st.layerEntries[i]] == Entry(st.operations[start].bounds, st.layers[i])
  }

  ghost predicate PrimitivesTraced(st: SceneState) {
    && |st.entryOf| == |st.operations|
    && forall i :: 0 <= i < |st.operations| && st.operations[i].Draw? ==> PrimitiveTraced(st, i, st.entryOf[i])
  }

  ghost predicate PrimitiveTraced(st: SceneState, i: nat, e: nat)
    requires i < |st.operations| && st.operations[i].Draw?
  {
    && e < |st.history|
    && e == EntriesMade(st.operations[..EntryPosition(st.operations, i)])
    && st.history[e] == Entry(EntryBounds(st.operations, i), st.operations[i].primitive.order)
  }

  ghost predicate Traced(st: SceneState) {
    WellFormed(st) && Ordered(st.history) && LayersTraced(st) && PrimitivesTraced(st)
  }

  lemma OpenLayersSnoc(ops: seq<PaintOperation>, op: PaintOperation)
    ensures OpenLayers(ops + [op])
         == if op.Draw? then OpenLayers(ops)
            else if op.StartLayer? then OpenLayers(ops) + [|ops|]
            else DropLast(OpenLayers(ops))
    ensures EntriesMade(ops + [op]) == EntriesMade(ops) + if MakesEntry(ops, op) then 1 else 0
  {
    assert (ops + [op])[..|ops|] == ops;
  }

  // Recording one more operation leaves an earlier one traced.
  lemma PrimitiveStaysTraced(st: SceneState, st': SceneState, i: nat, e: nat)
    requires i < |st.operations| && st.operations[i].Draw? && PrimitiveTraced(st, i, e)
    requires st.history <= st'.history && st.operations <= st'.operations
    ensures PrimitiveTraced(st', i, e)
  {
    hide OpenLayers, EntriesMade, Primitive.ClippedBounds;
    assert st'.operations[..i] == st.operations[..i];
    var p := EntryPosition(st.operations, i);
    assert st'.operations[..p] == st.operations[..p];
  }

  lemma LayerStaysTraced(st: SceneState, st': SceneState, i: nat, start: nat)
    requires i < |st.layers| == |st.layerEntries| && start < |st.operations| && st.operations[start].StartLayer?
    requires i < |st'.layers| == |st'.layerEntries|
    requires LayerTraced(st, i, start)
    requires st.history <= st'.history && st.operations <= st'.operations
    requires st'.layers[i] == st.layers[i] && st'.layerEntries[i] == st.layerEntries[i]
    ensures LayerTraced(st', i, start)
  {
    hide EntriesMade;
    assert st'.operations[..start] == st.operations[..start];
  }

  lemma PrimitivesStayTraced(st: SceneState, st': SceneState, op: PaintOperation)
    requires PrimitivesTraced(st) && st.history <= st'.history
    requires st'.operations == st.operations + [op] && |st'.entryOf| == |st'.operations|
    requires st'.entryOf[..|st.operations|] == st.entryOf
    requires op.Draw? ==> PrimitiveTraced(st', |st.operations|, st'.entryOf[|st.operations|])
    ensures PrimitivesTraced(st')
  {
    hide PrimitiveTraced;
    forall i | 0 <= i < |st'.operations| && st'.operations[i].Draw? ensures PrimitiveTraced(st', i, st'.entryOf[i]) {
      if i < |st.operations| {
        assert st'.entryOf[i] == st'.entryOf[..|st.operations|][i];
        PrimitiveStaysTraced(st, st', i, st.entryOf[i]);
      }
    }
  }

  // What is common to all three operations: the layers below the innermost are as before.
  lemma LayersStayTraced(st: SceneState, st': SceneState, n: nat)
    requires LayersTraced(st) && n <= |st.layers| && n <= |st'.layers| == |st'.layerEntries|
    requires st.history <= st'.history && st.operations <= st'.operations
    requires forall i :: 0 <= i < n ==> st'.layers[i] == st.layers[i] && st'.layerEntries[i] == st.layerEntries[i]
    ensures forall i :: 0 <= i < n ==>
      OpenLayers(st.operations)[i] < |st'.operations| && st'.operations[OpenLayers(st.operations)[i]].StartLayer?
    ensures forall i :: 0 <= i < n ==> LayerTraced(st', i, OpenLayers(st.operations)[i])
  {
    hide LayerTraced;
    forall i | 0 <= i < n
      ensures OpenLayers(st.operations)[i] < |st'.operations|
        && st'.operations[OpenLayers(st.operations)[i]].StartLayer?
      ensures LayerTraced(st', i, OpenLayers(st.operations)[i])
    {
      LayerStaysTraced(st, st', i, OpenLayers(st.operations)[i]);
    }
  }

  lemma FiledTraced(st: SceneState, clipped: Bounds, stored: Primitive)
    requires Traced(st) && stored.ClippedBounds() == clipped && stored.order == OrderFor(st, clipped)
    ensures var st' := Filed(st, clipped, EntryFor(st), stored);
      Ordered(st'.history) && LayersTraced(st') && PrimitivesTraced(st')
  {
    hide Primitive.ClippedBounds, Primitive.Kind, WellFormed, MaxHit, Ordered, OpenLayers, EntriesMade,
      PrimitivesTraced;
    WellFormedShape(st);
    var st' := Filed(st, clipped, EntryFor(st), stored);
    OrderedSnoc(st.history, clipped);
    OpenLayersSnoc(st.operations, Draw(stored));
    assert st'.operations[..|st.operations|] == st.operations;
    LayersStayTraced(st, st', |st.layers|);
    FiledPrimitiveTraced(st, clipped, stored);
    PrimitivesStayTraced(st, st', Draw(stored));
  }

  // The new primitive has the entry of its innermost layer, or the one just made.
  lemma FiledPrimitiveTraced(st: SceneState, clipped: Bounds, stored: Primitive)
    requires |st.vectors| == KINDS && LayersTraced(st)
    requires stored.ClippedBounds() == clipped && stored.order == OrderFor(st, clipped)
    ensures PrimitiveTraced(Filed(st, clipped, EntryFor(st), stored), |st.operations|, EntryFor(st))
  {
    hide Primitive.ClippedBounds, Primitive.Kind, MaxHit, OpenLayers, EntriesMade;
    var st' := Filed(st, clipped, EntryFor(st), stored);
    assert st'.operations[..|st.operations|] == st.operations;
    if st.layers != [] {
      var last := |st.layers| - 1;
      var start := OpenLayers(st.operations)[last];
      assert LayerTraced(st, last, start);
      assert st'.operations[..start] == st.operations[..start];
    }
  }

  lemma DrawTraced(st: SceneState, p: Primitive)
    requires Traced(st)
    ensures Traced(Step(st, Draw(p)))
  {
    StepIsWellFormed(st, Draw(p));
    InsertUnfolds(st, p);
    hide Primitive.ClippedBounds, Primitive.Stored, Step, WellFormed, Ordered, LayersTraced, PrimitivesTraced,
      Bounds.IsEmpty;
    if !p.ClippedBounds().IsEmpty() {
      FiledTraced(st, p.ClippedBounds(), p.Stored(OrderFor(st, p.ClippedBounds()), |st.vectors[PATH_KIND]|));
    }
  }

  lemma PushTraced(st: SceneState, bounds: Bounds)
    requires Traced(st)
    ensures var st' := PushLayerState(st, bounds); Ordered(st'.history) && LayersTraced(st') && PrimitivesTraced(st')
  {
    hide WellFormed, MaxHit, Ordered, OpenLayers, EntriesMade, PrimitivesTraced;
    WellFormedShape(st);
    var st' := PushLayerState(st, bounds);
    OrderedSnoc(st.history, bounds);
    OpenLayersSnoc(st.operations, StartLayer(bounds));
    assert st'.operations[..|st.operations|] == st.operations;
    LayersStayTraced(st, st', |st.layers|);
    PrimitivesStayTraced(st, st', StartLayer(bounds));
  }

  lemma PopTraced(st: SceneState)
    requires Traced(st)
    ensures var st' := PopLayerState(st); Ordered(st'.history) && LayersTraced(st') && PrimitivesTraced(st')
  {
    hide WellFormed, MaxHit, Ordered, OpenLayers, EntriesMade, PrimitivesTraced;
    WellFormedShape(st);
    var st' := PopLayerState(st);
    OpenLayersSnoc(st.operations, EndLayer);
    LayersStayTraced(st, st', |st'.layers|);
    PrimitivesStayTraced(st, st', EndLayer);
  }

  lemma LayerOpTraced(st: SceneState, op: PaintOperation)
    requires Traced(st) && !op.Draw?
    ensures Traced(Step(st, op))
  {
    hide WellFormed, Ordered, LayersTraced, PrimitivesTraced, PushLayerState, PopLayerState;
    StepIsWellFormed(st, op);
    if op.StartLayer? {
      PushTraced(st, op.bounds);
    } else {
      PopTraced(st);
    }
  }

  lemma EmptyIsTraced()
    ensures Traced(EmptyScene())
  {
  }

  /** In every scene that painting can produce, each layer and each recorded primitive has the order
      of a tree entry, and that entry's bounds are its layer's, or its own clipped bounds. */
  lemma {:induction false} EveryRunIsTraced(script: seq<PaintOperation>)
    ensures Traced(Run(EmptyScene(), script))
  {
    assert WellFormed(EmptyScene());
    hide Traced, WellFormed, Step;
    if script == [] {
      EmptyIsTraced();
    } else {
      var rest, op := script[..|script| - 1], script[|script| - 1];
      EveryRunIsTraced(rest);
      var st := Run(EmptyScene(), rest);
      if op.Draw? {
        DrawTraced(st, op.primitive);
      } else {
        LayerOpTraced(st, op);
      }
    }
  }

  // ---------------------------------------------------------------------------------------
  // What is recorded is what is drawn
  // ---------------------------------------------------------------------------------------

  function Recorded(ops: seq<PaintOperation>): multiset<Primitive> {
    if ops == [] then multiset{}
    else
      var last := ops[|ops| - 1];
      Recorded(ops[..|ops| - 1]) + if last.Draw? then multiset{last.primitive} else multiset{}
  }

  function AllOf(vectors: seq<seq<Primitive>>): multiset<Primitive> {
    if vectors == [] then multiset{}
    else AllOf(vectors[..|vectors| - 1]) + multiset(vectors[|vectors| - 1])
  }

  lemma {:induction false} AllOfAppend(vectors: seq<seq<Primitive>>, k: nat, p: Primitive)
    requires k < |vectors|
    ensures AllOf(vectors[k := vectors[k] + [p]]) == AllOf(vectors) + multiset{p}
  {
    var n := |vectors| - 1;
    var vectors' := vectors[k := vectors[k] + [p]];
    if k < n {
      AllOfAppend(vectors[..n], k, p);
      assert vectors'[..n] == vectors[..n][k := vectors[k] + [p]];
    } else {
      assert vectors'[..n] == vectors[..n];
    }
  }

  lemma {:induction false} RecordedIsFiled(script: seq<PaintOperation>)
    ensures var st := Run(EmptyScene(), script); Recorded(st.operations) == AllOf(st.vectors)
  {
    if script == [] {
      EmptyAllOf(EmptyScene().vectors);
    } else {
      RecordedIsFiled(script[..|script| - 1]);
      hide Recorded, AllOf, WellFormed, Step;
      StepFiles(Run(EmptyScene(), script[..|script| - 1]), script[|script| - 1]);
    }
  }

  lemma StepFiles(st: SceneState, op: PaintOperation)
    requires WellFormed(st) && Recorded(st.operations) == AllOf(st.vectors)
    ensures Recorded(Step(st, op).operations) == AllOf(Step(st, op).vectors)
  {
    if op.Draw? {
      var p := op.primitive;
      InsertUnfolds(st, p);
      hide Step, InsertState, Primitive.Stored, Primitive.ClippedBounds, Bounds.IsEmpty, OrderFor, EntryFor, WellFormed;
      if !p.ClippedBounds().IsEmpty() {
        FiledOnce(st, p.ClippedBounds(), EntryFor(st),
          p.Stored(OrderFor(st, p.ClippedBounds()), |st.vectors[PATH_KIND]|));
      }
    } else {
      assert (st.operations + [op])[..|st.operations|] == st.operations;
      hide AllOf;
    }
  }

  lemma FiledOnce(st: SceneState, clipped: Bounds, entry: nat, stored: Primitive)
    requires |st.vectors| == KINDS && Recorded(st.operations) == AllOf(st.vectors)
    ensures var st' := Filed(st, clipped, entry, stored); Recorded(st'.operations) == AllOf(st'.vectors)
  {
    assert (st.operations + [Draw(stored)])[..|st.operations|] == st.operations;
    AllOfAppend(st.vectors, stored.Kind(), stored);
    hide Primitive.Kind, AllOf;
  }

  lemma {:induction false} EmptyAllOf(vectors: seq<seq<Primitive>>)
    requires forall k :: 0 <= k < |vectors| ==> vectors[k] == []
    ensures AllOf(vectors) == multiset{}
  {
    if vectors != [] {
      EmptyAllOf(vectors[..|vectors| - 1]);
    }
  }

  function ByKind(s: seq<Primitive>): seq<seq<Primitive>> {
    seq(KINDS, k requires 0 <= k < KINDS => OfKind(s, k))
  }

  // Splitting a drawing by kind loses nothing.
  lemma {:induction false} KindsPartition(s: seq<Primitive>)
    ensures multiset(s) == AllOf(ByKind(s))
  {
    if s == [] {
      EmptyAllOf(ByKind(s));
    } else {
      KindsPartition(s[1..]);
      assert s == [s[0]] + s[1..];
      ByKindCons(s);
      hide AllOf, ByKind, Primitive.Kind;
      PrependToPart(ByKind(s[1..]), ByKind(s), s[0].Kind(), s[0]);
    }
  }

  lemma ByKindCons(s: seq<Primitive>)
    requires s != []
    ensures |ByKind(s)| == |ByKind(s[1..])| == KINDS
    ensures forall k :: 0 <= k < KINDS ==>
      ByKind(s)[k] == (if k == s[0].Kind() then [s[0]] else []) + ByKind(s[1..])[k]
  {
    hide Primitive.Kind;
  }

  lemma {:induction false} PrependToPart(parts: seq<seq<Primitive>>, parts': seq<seq<Primitive>>, kind: nat,
                                         p: Primitive)
    requires |parts'| == |parts| && kind < |parts|
    requires forall k :: 0 <= k < |parts| ==> parts'[k] == (if k == kind then [p] else []) + parts[k]
    ensures AllOf(parts') == AllOf(parts) + multiset{p}
  {
    var n := |parts| - 1;
    if kind < n {
      PrependToPart(parts[..n], parts'[..n], kind, p);
    } else {
      SameAllOf(parts[..n], parts'[..n]);
    }
  }

  lemma {:induction false} SameAllOf(a: seq<seq<Primitive>>, b: seq<seq<Primitive>>)
    requires |a| == |b| && forall k :: 0 <= k < |a| ==> multiset(a[k]) == multiset(b[k])
    ensures AllOf(a) == AllOf(b)
  {
    if a != [] {
      SameAllOf(a[..|a| - 1], b[..|b| - 1]);
    }
  }

  /** The draw order is bounded by the number of entries, so a scene with fewer entries than
      `u32::MAX` never reaches the order that stands for an exhausted vector. */
  lemma OrdersBelowMax(st: SceneState, i: nat)
    requires Traced(st) && |st.history| < DRAW_ORDER_MAX
    requires i < |st.operations| && st.operations[i].Draw?
    ensures 1 <= st.operations[i].primitive.order < DRAW_ORDER_MAX
  {
    OrdersAreBounded(st.history, st.entryOf[i]);
  }

  lemma {:induction false} InRecorded(ops: seq<PaintOperation>, p: Primitive)
    requires p in Recorded(ops)
    ensures exists i :: 0 <= i < |ops| && ops[i] == Draw(p)
  {
    var n := |ops| - 1;
    if ops[n] != Draw(p) {
      InRecorded(ops[..n], p);
      var i :| 0 <= i < n && ops[..n][i] == Draw(p);
      assert ops[i] == Draw(p);
    }
  }

  lemma {:induction false} InAllOf(vectors: seq<seq<Primitive>>, k: nat, p: Primitive)
    requires k < |vectors| && p in vectors[k]
    ensures p in AllOf(vectors)
  {
    if k < |vectors| - 1 {
      InAllOf(vectors[..|vectors| - 1], k, p);
    }
  }

  lemma FinishedPaint(script: seq<PaintOperation>)
    requires |Run(EmptyScene(), script).history| < DRAW_ORDER_MAX
    ensures Finished(FinishVectors(Run(EmptyScene(), script).vectors))
  {
    var st := Run(EmptyScene(), script);
    EveryRunIsTraced(script);
    RecordedIsFiled(script);
    hide Run, Recorded, AllOf, Traced;
    FinishedScene(st);
  }

  lemma FinishedScene(st: SceneState)
    requires Traced(st) && |st.history| < DRAW_ORDER_MAX && Recorded(st.operations) == AllOf(st.vectors)
    ensures Finished(FinishVectors(st.vectors))
  {
    hide Recorded, AllOf, SortBy, FinishedList, Finished, WellFormed, LayersTraced, PrimitivesTraced, Ordered;
    WellFormedShape(st);
    hide Traced;
    var lists := FinishVectors(st.vectors);
    forall k | 0 <= k < KINDS ensures FinishedList(lists[k], k) {
      FinishedVector(st, k);
    }
    AllFinished(lists);
  }

  // One vector, finished.
  ghost predicate FinishedList(list: seq<Primitive>, kind: nat) {
    && Uniform(list, kind)
    && (forall i :: 0 <= i < |list| ==> list[i].order < DRAW_ORDER_MAX)
    && (forall i, j :: 0 <= i < j < |list| ==> list[i].order <= list[j].order)
  }

  lemma AllFinished(lists: seq<seq<Primitive>>)
    requires |lists| == KINDS && forall k :: 0 <= k < KINDS ==> FinishedList(lists[k], k)
    ensures Finished(lists)
  {
  }

  lemma FinishedVector(st: SceneState, k: nat)
    requires Traced(st) && |st.history| < DRAW_ORDER_MAX && k < KINDS
    requires Recorded(st.operations) == AllOf(st.vectors)
    ensures FinishedList(SortBy(st.vectors[k], SortKey), k)
  {
    var list := SortBy(st.vectors[k], SortKey);
    SortByIsStableSort(st.vectors[k], SortKey);
    hide SortBy, Primitive.Kind, AllOf, Recorded;
    forall i | 0 <= i < |list|
      ensures list[i].Kind() == k && list[i].order < DRAW_ORDER_MAX
    {
      assert list[i] in multiset(st.vectors[k]);
      InAllOf(st.vectors, k, list[i]);
      InRecorded(st.operations, list[i]);
      var o: nat :| o < |st.operations| && st.operations[o] == Draw(list[i]);
      OrdersBelowMax(st, o);
    }
    forall i, j | 0 <= i < j < |list|
      ensures list[i].order <= list[j].order
    {
      assert SortKey(list[i]).AtMost(SortKey(list[j]));
    }
  }

  /** The drawing of a finished scene, all batches together. */
  function Drawing(vectors: seq<seq<Primitive>>): seq<Primitive>
    requires |vectors| == KINDS
  {
    Drawn(FinishVectors(vectors), AllBatches(FinishVectors(vectors), NOTHING_DRAWN))
  }

  /** Every recorded primitive is drawn exactly as often as it was recorded, and nothing else is. */
  lemma EverythingIsDrawnOnce(script: seq<PaintOperation>, st: SceneState)
    requires st == Run(EmptyScene(), script) && |st.history| < DRAW_ORDER_MAX
    ensures multiset(Drawing(st.vectors)) == Recorded(st.operations)
  {
    FinishedPaint(script);
    RecordedIsFiled(script);
    hide Run, Recorded, AllOf, WellFormed;
    DrawnIsFiled(st.vectors);
  }

  lemma DrawnIsFiled(vectors: seq<seq<Primitive>>)
    requires |vectors| == KINDS && Finished(FinishVectors(vectors))
    ensures multiset(Drawing(vectors)) == AllOf(vectors)
  {
    hide Finished, AllOf, SortBy, Drawn, AllBatches, OfKind;
    var drawn := Drawing(vectors);
    KindsPartition(drawn);
    forall k | 0 <= k < KINDS ensures multiset(ByKind(drawn)[k]) == multiset(vectors[k]) {
      DrawnOnce(FinishVectors(vectors), NOTHING_DRAWN, k);
      SortByIsStableSort(vectors[k], SortKey);
    }
    SameAllOf(ByKind(drawn), vectors);
  }

  lemma {:induction false} EntriesGrow(ops: seq<PaintOperation>, p: nat, q: nat)
    requires p <= q <= |ops|
    ensures EntriesMade(ops[..p]) <= EntriesMade(ops[..q])
    ensures p < q && MakesEntry(ops[..p], ops[p]) ==> EntriesMade(ops[..p]) < EntriesMade(ops[..q])
    decreases q
  {
    hide MakesEntry;
    if p < q {
      assert ops[..q][..q - 1] == ops[..q - 1];
      EntriesGrow(ops, p, q - 1);
    }
  }

  /** Entries are made in the order of the operations that make them. */
  lemma EntriesFollowPositions(st: SceneState, i: nat, j: nat)
    requires Traced(st)
    requires i < |st.operations| && st.operations[i].Draw?
    requires j < |st.operations| && st.operations[j].Draw?
    ensures st.entryOf[i] < st.entryOf[j] <==> EntryPosition(st.operations, i) < EntryPosition(st.operations, j)
  {
    hide WellFormed, Ordered, LayersTraced, EntriesMade;
    assert PrimitiveTraced(st, i, st.entryOf[i]) && PrimitiveTraced(st, j, st.entryOf[j]);
    var p, q := EntryPosition(st.operations, i), EntryPosition(st.operations, j);
    EntriesGrow(st.operations, if p < q then p else q, if p < q then q else p);
  }

  /** Painter's order: if the entry of one painted primitive (its innermost layer, or outside all layers
      itself) comes later in the recording than another's and their bounds overlap, then every drawing of
      the one comes strictly after every drawing of the other. */
  lemma PaintersOrder(script: seq<PaintOperation>, st: SceneState, i: nat, j: nat, a: nat, b: nat)
    requires st == Run(EmptyScene(), script) && |st.history| < DRAW_ORDER_MAX
    requires i < |st.operations| && st.operations[i].Draw?
    requires j < |st.operations| && st.operations[j].Draw?
    requires EntryPosition(st.operations, i) < EntryPosition(st.operations, j)
    requires EntryBounds(st.operations, i).Intersects(EntryBounds(st.operations, j))
    requires a < |Drawing(st.vectors)| && Drawing(st.vectors)[a] == st.operations[i].primitive
    requires b < |Drawing(st.vectors)| && Drawing(st.vectors)[b] == st.operations[j].primitive
    ensures a < b
  {
    hide Run, Drawn, AllBatches, WellFormed, LayersTraced, PrimitivesTraced, Ordered, EntryBounds, EntryPosition,
      Bounds.Intersects, Finished;
    EveryRunIsTraced(script);
    FinishedPaint(script);
    OverlapOrders(st, i, j);
    WellFormedShape(st);
    if b <= a {
      DrawnByOrder(st.vectors, b, a);
    }
  }

  lemma OverlapOrders(st: SceneState, i: nat, j: nat)
    requires Traced(st)
    requires i < |st.operations| && st.operations[i].Draw?
    requires j < |st.operations| && st.operations[j].Draw?
    requires EntryPosition(st.operations, i) < EntryPosition(st.operations, j)
    requires EntryBounds(st.operations, i).Intersects(EntryBounds(st.operations, j))
    ensures st.operations[i].primitive.order < st.operations[j].primitive.order
  {
    EntriesFollowPositions(st, i, j);
    assert PrimitiveTraced(st, i, st.entryOf[i]) && PrimitiveTraced(st, j, st.entryOf[j]);
    hide EntryBounds, EntryPosition, WellFormed, Bounds.Intersects, LayersTraced, Ordered;
    LaterOverlapGetsLargerOrder(st.history, st.entryOf[i], st.entryOf[j]);
  }

  lemma DrawnByOrder(vectors: seq<seq<Primitive>>, a: nat, b: nat)
    requires |vectors| == KINDS && Finished(FinishVectors(vectors))
    requires a <= b < |Drawing(vectors)|
    ensures Drawing(vectors)[a].order <= Drawing(vectors)[b].order
  {
    hide Finished, Drawn, AllBatches;
    DrawnInOrder(FinishVectors(vectors), NOTHING_DRAWN);
    if a < b {
      assert DrawKey(Drawing(vectors)[a]).AtMost(DrawKey(Drawing(vectors)[b]));
    }
  }
}
