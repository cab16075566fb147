/** Layers and the recording of a scene (src/scene.rs): closing a layer gives back what was open before it,
    and the recording is the script without what is clipped away. */
module SceneLayers {
  import opened Brackets
  import opened Geometry
  import opened DrawOrders
  import opened Scenes
  import opened Painter

  // ---------------------------------------------------------------------------------------
  // Balanced scripts
  // ---------------------------------------------------------------------------------------

  function MarkOf(op: PaintOperation): Mark {
    match op
    case Draw(_) => Other
    case StartLayer(_) => Open
    case EndLayer => Close
  }

  function Marks(ops: seq<PaintOperation>): (marks: seq<Mark>)
    ensures |marks| == |ops|
  {
    seq(|ops|, i requires 0 <= i < |ops| => MarkOf(ops[i]))
  }

  lemma MarksSnoc(ops: seq<PaintOperation>, op: PaintOperation)
    ensures Marks(ops + [op]) == Marks(ops) + [MarkOf(op)]
  {
  }

  lemma MarksPrefix(ops: seq<PaintOperation>, n: nat)
    requires n <= |ops|
    ensures Marks(ops[..n]) == Marks(ops)[..n]
  {
  }

  /** Closing the layer just opened gives back the layers and their entries. */
  lemma PopUndoesPush(st: SceneState, bounds: Bounds)
    requires WellFormed(st)
    ensures WellFormed(Step(st, StartLayer(bounds)))
    ensures var st' := Step(Step(st, StartLayer(bounds)), EndLayer);
      && st'.layers == st.layers && st'.layerEntries == st.layerEntries
      && st'.operations == st.operations + [StartLayer(bounds), EndLayer]
      && st'.vectors == st.vectors && st'.history == st.history + [Entry(bounds, 1 + MaxHit(st.history, bounds))]
  {
    StepIsWellFormed(st, StartLayer(bounds));
    hide MaxHit, WellFormed;
  }

  // The layers below what a nested script opened are untouched.
  lemma {:induction false} NestedKeepsOuter(st: SceneState, script: seq<PaintOperation>)
    requires WellFormed(st) && Nested(Marks(script))
    ensures var st', depth := Run(st, script), Depth(Marks(script));
      && st.layers <= st'.layers && st.layerEntries <= st'.layerEntries
      && |st'.layers| == |st.layers| + depth && |st'.layerEntries| == |st.layerEntries| + depth
  {
    WellFormedShape(st);
    if script != [] {
      var n := |script| - 1;
      NestedPrefix(Marks(script), n);
      MarksPrefix(script, n);
      NestedKeepsOuter(st, script[..n]);
      NestedDepth(Marks(script));
      hide WellFormed, MaxHit, Nested;
      assert script == script[..n] + [script[n]];
      MarksSnoc(script[..n], script[n]);
      DepthSnoc(Marks(script[..n]), MarkOf(script[n]));
      hide Marks, Depth;
      StepLayers(Run(st, script[..n]), script[n]);
      hide Step;
    }
  }

  lemma StepLayers(st: SceneState, op: PaintOperation)
    requires WellFormed(st)
    ensures |st.layers| == |st.layerEntries|
    ensures var st', n := Step(st, op), |st.layers|;
      && (op.Draw? ==> st'.layers == st.layers && st'.layerEntries == st.layerEntries)
      && (op.StartLayer? ==> |st'.layers| == |st'.layerEntries| == n + 1
                             && st'.layers[..n] == st.layers && st'.layerEntries[..n] == st.layerEntries)
      && (op.EndLayer? && n >= 1 ==> st'.layers == st.layers[..n - 1] && st'.layerEntries == st.layerEntries[..n - 1])
      && (op.EndLayer? && n == 0 ==> st'.layers == [] && st'.layerEntries == [])
  {
    WellFormedShape(st);
    hide MaxHit, WellFormed, Primitive.ClippedBounds, Primitive.Stored, Bounds.IsEmpty;
  }

  /** A balanced script leaves the open layers, and their entries, as they were. */
  lemma BalancedKeepsLayers(st: SceneState, script: seq<PaintOperation>)
    requires WellFormed(st) && Balanced(Marks(script))
    ensures Run(st, script).layers == st.layers && Run(st, script).layerEntries == st.layerEntries
  {
    hide WellFormed, Nested;
    NestedKeepsOuter(st, script);
  }

  /** What is painted in a layer after inner layers have come and gone carries that layer's entry and order. */
  lemma OuterLayerAgain(st: SceneState, bounds: Bounds, inner: seq<PaintOperation>, p: Primitive)
    requires WellFormed(st) && Balanced(Marks(inner)) && !p.ClippedBounds().IsEmpty()
    ensures WellFormed(Step(st, StartLayer(bounds)))
    ensures var before := Run(Step(st, StartLayer(bounds)), inner);
            var after, n := Step(before, Draw(p)), |before.operations|;
      && |after.operations| == |after.entryOf| == n + 1 && after.operations[n].Draw?
      && after.operations[n].primitive.order == 1 + MaxHit(st.history, bounds)
      && after.entryOf[n] == |st.history|
      && after.history == before.history
  {
    StepIsWellFormed(st, StartLayer(bounds));
    var first := Step(st, StartLayer(bounds));
    BalancedKeepsLayers(first, inner);
    var before := Run(first, inner);
    InsertUnfolds(before, p);
    WellFormedShape(before);
    hide WellFormed, MaxHit, Run, Balanced, InsertState, Primitive.Stored, Primitive.ClippedBounds, Bounds.IsEmpty;
  }

  // ---------------------------------------------------------------------------------------
  // Which layers are open
  // ---------------------------------------------------------------------------------------

  /** The open layers are those started and not ended again, oldest first. */
  lemma {:induction false} OpenLayersAreOpen(ops: seq<PaintOperation>)
    ensures OpenAre(Marks(ops), OpenLayers(ops))
  {
    if ops == [] {
      NothingOpen();
    } else {
      var rest, op := ops[..|ops| - 1], ops[|ops| - 1];
      assert ops == rest + [op];
      OpenLayersAreOpen(rest);
      OpenLayersSnoc(rest, op);
      MarksSnoc(rest, op);
      hide OpenLayers, OpenAre;
      OpenAreSnoc(Marks(rest), MarkOf(op), OpenLayers(rest));
    }
  }

  lemma {:induction false} NestedKeepsOpen(before: seq<PaintOperation>, inner: seq<PaintOperation>)
    requires Nested(Marks(inner))
    ensures OpenLayers(before) <= OpenLayers(before + inner)
    ensures |OpenLayers(before + inner)| == |OpenLayers(before)| + Depth(Marks(inner))
  {
    if inner == [] {
      assert before + inner == before;
    } else {
      var n := |inner| - 1;
      NestedPrefix(Marks(inner), n);
      MarksPrefix(inner, n);
      NestedKeepsOpen(before, inner[..n]);
      NestedDepth(Marks(inner));
      assert inner == inner[..n] + [inner[n]];
      MarksSnoc(inner[..n], inner[n]);
      DepthSnoc(Marks(inner[..n]), MarkOf(inner[n]));
      assert before + inner == (before + inner[..n]) + [inner[n]];
      OpenLayersSnoc(before + inner[..n], inner[n]);
      hide OpenLayers, Nested, Marks, Depth;
    }
  }

  /** Balanced operations leave the layers open that were open before them. */
  lemma BalancedKeepsOpen(before: seq<PaintOperation>, inner: seq<PaintOperation>)
    requires Balanced(Marks(inner))
    ensures OpenLayers(before + inner) == OpenLayers(before)
  {
    hide OpenLayers, Nested, Depth;
    NestedKeepsOpen(before, inner);
  }

  /** The entry of a painted primitive is made by the last layer start before it that is still open, or when
      there is none by the painting itself. */
  lemma EntryIsInnermostLayer(ops: seq<PaintOperation>, i: nat, p: nat)
    requires i < |ops| && ops[i].Draw?
    ensures EntryPosition(ops, i) == p <==>
            || NewestOpen(Marks(ops[..i]), p)
            || (p == i && !exists q: nat :: StillOpen(Marks(ops[..i]), q))
  {
    var before := ops[..i];
    OpenLayersAreOpen(before);
    LastIsNewest(Marks(before), OpenLayers(before));
    hide StillOpen, OpenLayers, Marks, OpenAre, NewestOpen;
  }

  // ---------------------------------------------------------------------------------------
  // What is recorded
  // ---------------------------------------------------------------------------------------

  /** Some point of the operation's primitive is inside its content mask; layers are always recorded. */
  ghost predicate Visible(op: PaintOperation) {
    op.Draw? ==> exists p :: op.primitive.bounds.Interior(p) && op.primitive.contentMask.Interior(p)
  }

  // An operation without what the scene writes into it: the draw order, and the id of a path.
  function Erased(op: PaintOperation): PaintOperation {
    if op.Draw? then Draw(op.primitive.Stored(0, 0)) else op
  }

  function AllErased(ops: seq<PaintOperation>): seq<PaintOperation> {
    if ops == [] then [] else AllErased(ops[..|ops| - 1]) + [Erased(ops[|ops| - 1])]
  }

  /** The visible part of a script, in order. */
  ghost function VisiblePart(script: seq<PaintOperation>): seq<PaintOperation> {
    if script == [] then []
    else
      var last := script[|script| - 1];
      VisiblePart(script[..|script| - 1]) + if Visible(last) then [last] else []
  }

  lemma EmptyClipIsInvisible(p: Primitive)
    ensures p.ClippedBounds().IsEmpty() <==> !Visible(Draw(p))
  {
    var clip := p.ClippedBounds();
    if clip.IsEmpty() {
      forall at | p.bounds.Interior(at) && p.contentMask.Interior(at) ensures false {
        IntersectIsOverlap(p.bounds, p.contentMask, at);
      }
    } else {
      var middle := Point(clip.origin.x + clip.size.width / 2.0, clip.origin.y + clip.size.height / 2.0);
      assert clip.Interior(middle);
      IntersectIsOverlap(p.bounds, p.contentMask, middle);
    }
  }

  lemma ErasedSnoc(ops: seq<PaintOperation>, op: PaintOperation)
    ensures AllErased(ops + [op]) == AllErased(ops) + [Erased(op)]
  {
    assert (ops + [op])[..|ops|] == ops;
  }

  lemma StepRecords(st: SceneState, op: PaintOperation)
    requires WellFormed(st)
    ensures AllErased(Step(st, op).operations)
         == AllErased(st.operations) + if Visible(op) then [Erased(op)] else []
  {
    hide AllErased, MaxHit, WellFormed, Primitive.Stored, Primitive.ClippedBounds, Bounds.IsEmpty, Visible, InsertState;
    if op.Draw? {
      var p := op.primitive;
      InsertUnfolds(st, p);
      EmptyClipIsInvisible(p);
      if !p.ClippedBounds().IsEmpty() {
        WellFormedShape(st);
        var order, pathCount := OrderFor(st, p.ClippedBounds()), |st.vectors[PATH_KIND]|;
        StoredAgain(p, order, pathCount, 0, 0);
        ErasedSnoc(st.operations, Draw(p.Stored(order, pathCount)));
      }
    } else {
      assert Visible(op) by { LayersAreVisible(op); }
      ErasedSnoc(st.operations, op);
    }
  }

  lemma LayersAreVisible(op: PaintOperation)
    requires !op.Draw?
    ensures Visible(op)
  {
  }

  /** A scene records the visible part of what was painted, in order and unchanged but for draw orders and
      path ids. */
  lemma {:induction false} RecordingIsTheScript(script: seq<PaintOperation>)
    ensures AllErased(Run(EmptyScene(), script).operations) == AllErased(VisiblePart(script))
  {
    assert WellFormed(EmptyScene());
    hide Step, WellFormed, AllErased, Visible;
    if script == [] {
      return;
    }
    var rest, op := script[..|script| - 1], script[|script| - 1];
    RecordingIsTheScript(rest);
    StepRecords(Run(EmptyScene(), rest), op);
    if Visible(op) {
      ErasedSnoc(VisiblePart(rest), op);
    } else {
      assert VisiblePart(script) == VisiblePart(rest);
    }
  }

  ghost predicate PathsNumbered(st: SceneState)
    requires WellFormed(st)
  {
    forall i :: 0 <= i < |st.vectors[PATH_KIND]| ==>
      st.vectors[PATH_KIND][i].Path? && st.vectors[PATH_KIND][i].id == i
  }

  lemma StepNumbersPaths(st: SceneState, op: PaintOperation)
    requires WellFormed(st) && PathsNumbered(st)
    ensures WellFormed(Step(st, op)) && PathsNumbered(Step(st, op))
  {
    StepIsWellFormed(st, op);
    WellFormedShape(st);
    if op.Draw? {
      InsertUnfolds(st, op.primitive);
      hide MaxHit, WellFormed, Primitive.ClippedBounds, Bounds.IsEmpty, InsertState, Step;
    } else {
      hide MaxHit, WellFormed;
    }
  }

  /** The id of a path is its position among the paths of the scene. */
  lemma {:induction false} PathIdsArePositions(script: seq<PaintOperation>)
    ensures PathsNumbered(Run(EmptyScene(), script))
  {
    assert WellFormed(EmptyScene());
    hide Step, WellFormed;
    if script != [] {
      PathIdsArePositions(script[..|script| - 1]);
      hide PathsNumbered;
      StepNumbersPaths(Run(EmptyScene(), script[..|script| - 1]), script[|script| - 1]);
    }
  }
}
