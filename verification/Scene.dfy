/** The scene (src/scene.rs): painting records operations, assigns draw orders and files every
    primitive under its kind; a recorded scene can be replayed, plainly or under a transform.

    The eight primitive vectors are one sequence of eight vectors, indexed by the discriminant
    of `PrimitiveKind`. */
module Scenes {
  import opened Common
  import opened Geometry
  import opened Transform
  import opened DrawOrders
  import opened Sorting

  const KINDS: nat := 8
  const PATH_KIND: nat := 2

  datatype Tile = Tile(tileId: nat, textureId: nat)

  datatype Corners = Corners(topLeft: real, topRight: real, bottomRight: real, bottomLeft: real) {
    function Times(scale: real): Corners {
      Corners(topLeft * scale, topRight * scale, bottomRight * scale, bottomLeft * scale)
    }
  }

  datatype Edges = Edges(top: real, right: real, bottom: real, left: real) {
    function Times(scale: real): Edges {
      Edges(top * scale, right * scale, bottom * scale, left * scale)
    }
  }

  datatype Vertex = Vertex(xyPosition: Point, stPosition: Point, contentMask: Bounds)

  // `paint` stands for the fields that no operation here looks at (colours, styles, identifiers).
  datatype Primitive =
    | Shadow(order: nat, bounds: Bounds, contentMask: Bounds, paint: nat,
             blurRadius: real, cornerRadii: Corners, transformation: Matrix)
    | Quad(order: nat, bounds: Bounds, contentMask: Bounds, paint: nat,
           cornerRadii: Corners, borderWidths: Edges, transformation: Matrix)
    | Path(order: nat, bounds: Bounds, contentMask: Bounds, paint: nat,
           id: nat, vertices: seq<Vertex>, start: Point, current: Point)
    | Underline(order: nat, bounds: Bounds, contentMask: Bounds, paint: nat, thickness: real)
    | MonochromeSprite(order: nat, bounds: Bounds, contentMask: Bounds, paint: nat,
                       tile: Tile, transformation: Matrix)
    | PolychromeSprite(order: nat, bounds: Bounds, contentMask: Bounds, paint: nat,
                       cornerRadii: Corners, tile: Tile, transformation: Matrix)
    | Surface(order: nat, bounds: Bounds, contentMask: Bounds, paint: nat)
    | RasterTile(order: nat, bounds: Bounds, contentMask: Bounds, paint: nat)
  {
    /** The discriminant of the primitive's `PrimitiveKind`. */
    function Kind(): (k: nat)
      ensures k < KINDS
    {
      match this
      case Shadow(_, _, _, _, _, _, _) => 0
      case Quad(_, _, _, _, _, _, _) => 1
      case Path(_, _, _, _, _, _, _, _) => 2
      case Underline(_, _, _, _, _) => 3
      case MonochromeSprite(_, _, _, _, _, _) => 4
      case PolychromeSprite(_, _, _, _, _, _, _) => 5
      case Surface(_, _, _, _) => 6
      case RasterTile(_, _, _, _) => 7
    }

    predicate IsSprite() {
      MonochromeSprite? || PolychromeSprite?
    }

    function ClippedBounds(): Bounds {
      bounds.Intersect(contentMask)
    }

    /** The primitive as it is stored: with its draw order, and for a path its position as id. */
    function Stored(newOrder: nat, pathCount: nat): (r: Primitive)
      ensures r.order == newOrder && (Path? ==> r.Path? && r.id == pathCount)
      ensures this == if Path? && r.Path? then r.(order := order, id := id) else r.(order := order)
    {
      match this
      case Shadow(_, b, m, p, r, c, t) => Shadow(newOrder, b, m, p, r, c, t)
      case Quad(_, b, m, p, c, e, t) => Quad(newOrder, b, m, p, c, e, t)
      case Path(_, b, m, p, _, v, s, c) => Path(newOrder, b, m, p, pathCount, v, s, c)
      case Underline(_, b, m, p, t) => Underline(newOrder, b, m, p, t)
      case MonochromeSprite(_, b, m, p, tile, t) => MonochromeSprite(newOrder, b, m, p, tile, t)
      case PolychromeSprite(_, b, m, p, c, tile, t) => PolychromeSprite(newOrder, b, m, p, c, tile, t)
      case Surface(_, b, m, p) => Surface(newOrder, b, m, p)
      case RasterTile(_, b, m, p) => RasterTile(newOrder, b, m, p)
    }

    function Transformed(scale: real, translation: Point): Primitive
      requires scale != 0.0
    {
      var box := (b: Bounds) => TransformBounds(b, scale, translation);
      var at := (p: Point) => TransformPoint(p, scale, translation);
      match this
      case Shadow(o, b, m, p, r, c, t) =>
        Shadow(o, box(b), box(m), p, r * scale, c.Times(scale), Conjugate(t, scale, translation))
      case Quad(o, b, m, p, c, e, t) =>
        Quad(o, box(b), box(m), p, c.Times(scale), e.Times(scale), Conjugate(t, scale, translation))
      case Path(o, b, m, p, id, v, s, c) =>
        Path(o, box(b), box(m), p, id,
             seq(|v|, i requires 0 <= i < |v| => Vertex(at(v[i].xyPosition), v[i].stPosition, box(v[i].contentMask))),
             at(s), at(c))
      case Underline(o, b, m, p, t) => Underline(o, box(b), box(m), p, t * scale)
      case MonochromeSprite(o, b, m, p, tile, t) =>
        MonochromeSprite(o, box(b), box(m), p, tile, Conjugate(t, scale, translation))
      case PolychromeSprite(o, b, m, p, c, tile, t) =>
        PolychromeSprite(o, box(b), box(m), p, c.Times(scale), tile, Conjugate(t, scale, translation))
      case Surface(o, b, m, p) => Surface(o, box(b), box(m), p)
      case RasterTile(o, b, m, p) => RasterTile(o, box(b), box(m), p)
    }
  }

  datatype PaintOperation = Draw(primitive: Primitive) | StartLayer(bounds: Bounds) | EndLayer {
    function Transformed(scale: real, translation: Point): PaintOperation
      requires scale != 0.0
    {
      match this
      case Draw(p) => Draw(p.Transformed(scale, translation))
      case StartLayer(b) => StartLayer(TransformBounds(b, scale, translation))
      case EndLayer => EndLayer
    }
  }

  // ---------------------------------------------------------------------------------------
  // What painting does, on values
  // ---------------------------------------------------------------------------------------

  /** The state of a scene. `history` is the bounds tree's list of entries; `layerEntries` and
      `entryOf` say which entry each open layer, and each recorded operation, was given. */
  datatype SceneState = SceneState(
    operations: seq<PaintOperation>,
    history: seq<Entry>,
    layers: seq<nat>,
    vectors: seq<seq<Primitive>>,
    layerEntries: seq<nat>,
    entryOf: seq<nat>)

  function EmptyScene(): SceneState {
    SceneState([], [], [], [[], [], [], [], [], [], [], []], [], [])
  }

  function DropLast<T>(s: seq<T>): seq<T> {
    if s == [] then [] else s[..|s| - 1]
  }

  function PushLayerState(st: SceneState, bounds: Bounds): SceneState {
    var order := 1 + MaxHit(st.history, bounds);
    SceneState(st.operations + [StartLayer(bounds)],
               st.history + [Entry(bounds, order)],
               st.layers + [order],
               st.vectors,
               st.layerEntries + [|st.history|],
               st.entryOf + [|st.history|])
  }

  function PopLayerState(st: SceneState): SceneState {
    SceneState(st.operations + [EndLayer], st.history, DropLast(st.layers), st.vectors,
               DropLast(st.layerEntries), st.entryOf + [0])
  }

  // The order and the entry for a primitive with these clipped bounds: the innermost layer's,
  // or outside all layers a new one.
  function OrderFor(st: SceneState, clipped: Bounds): nat {
    if st.layers != [] then st.layers[|st.layers| - 1] else 1 + MaxHit(st.history, clipped)
  }

  function EntryFor(st: SceneState): nat
    requires |st.layers| == |st.layerEntries|
  {
    if st.layers != [] then st.layerEntries[|st.layers| - 1] else |st.history|
  }

  function Filed(st: SceneState, clipped: Bounds, entry: nat, stored: Primitive): SceneState
    requires |st.vectors| == KINDS
  {
    var k := stored.Kind();
    SceneState(st.operations + [Draw(stored)],
               if st.layers != [] then st.history else st.history + [Entry(clipped, stored.order)],
               st.layers,
               st.vectors[k := st.vectors[k] + [stored]],
               st.layerEntries,
               st.entryOf + [entry])
  }

  /** A primitive whose clip is empty leaves no trace; any other one is filed under its kind. */
  function InsertState(st: SceneState, primitive: Primitive): SceneState
    requires |st.vectors| == KINDS && |st.layers| == |st.layerEntries|
  {
    var clipped := primitive.ClippedBounds();
    if clipped.IsEmpty() then st
    else Filed(st, clipped, EntryFor(st), primitive.Stored(OrderFor(st, clipped), |st.vectors[PATH_KIND]|))
  }

  lemma WellFormedShape(st: SceneState)
    requires WellFormed(st)
    ensures |st.vectors| == KINDS && |st.layers| == |st.layerEntries| && |st.entryOf| == |st.operations|
  {
  }

  lemma InsertUnfolds(st: SceneState, p: Primitive)
    requires WellFormed(st)
    ensures p.ClippedBounds().IsEmpty() ==> Step(st, Draw(p)) == st
    ensures !p.ClippedBounds().IsEmpty() ==>
      var stored := p.Stored(OrderFor(st, p.ClippedBounds()), |st.vectors[PATH_KIND]|);
      && Step(st, Draw(p)) == InsertState(st, p) == Filed(st, p.ClippedBounds(), EntryFor(st), stored)
      && stored.order == OrderFor(st, p.ClippedBounds())
      && stored.ClippedBounds() == p.ClippedBounds()
  {
    hide OrderFor, EntryFor, Filed, Bounds.IsEmpty, Bounds.Intersect;
  }

  function Step(st: SceneState, op: PaintOperation): SceneState
    requires WellFormed(st)
  {
    match op
    case Draw(primitive) => InsertState(st, primitive)
    case StartLayer(bounds) => PushLayerState(st, bounds)
    case EndLayer => PopLayerState(st)
  }

  function Run(st: SceneState, ops: seq<PaintOperation>): (r: SceneState)
    requires WellFormed(st)
    ensures WellFormed(r)
  {
    if ops == [] then st
    else
      var before := Run(st, ops[..|ops| - 1]);
      StepIsWellFormed(before, ops[|ops| - 1]);
      Step(before, ops[|ops| - 1])
  }

  predicate WellFormed(st: SceneState) {
    && |st.vectors| == KINDS
    && |st.layers| == |st.layerEntries|
    && |st.entryOf| == |st.operations|
    && forall k, i :: 0 <= k < KINDS && 0 <= i < |st.vectors[k]| ==> st.vectors[k][i].Kind() == k
  }

  lemma PushUnfolds(st: SceneState, bounds: Bounds)
    requires WellFormed(st)
    ensures Step(st, StartLayer(bounds))
         == SceneState(st.operations + [StartLayer(bounds)],
                       st.history + [Entry(bounds, 1 + MaxHit(st.history, bounds))],
                       st.layers + [1 + MaxHit(st.history, bounds)], st.vectors,
                       st.layerEntries + [|st.history|], st.entryOf + [|st.history|])
  {
    hide MaxHit, WellFormed;
  }

  lemma StepIsWellFormed(st: SceneState, op: PaintOperation)
    requires WellFormed(st)
    ensures WellFormed(Step(st, op))
  {
    if op.Draw? && !op.primitive.ClippedBounds().IsEmpty() {
      hide Bounds.Intersect, Bounds.IsEmpty, MaxHit;
      var k := op.primitive.Kind();
      var st' := Step(st, op);
      forall j, i | 0 <= j < KINDS && 0 <= i < |st'.vectors[j]|
        ensures st'.vectors[j][i].Kind() == j
      {
        if j != k {
          assert st'.vectors[j] == st.vectors[j];
        }
      }
    }
  }

  lemma RunSnoc(st: SceneState, ops: seq<PaintOperation>, op: PaintOperation)
    requires WellFormed(st)
    ensures Run(st, ops + [op]) == Step(Run(st, ops), op)
  {
    assert (ops + [op])[..|ops|] == ops;
  }

  // ---------------------------------------------------------------------------------------
  // Replay
  // ---------------------------------------------------------------------------------------

  // Storing a primitive a second time overwrites exactly what the first time wrote.
  lemma StoredAgain(p: Primitive, order: nat, pathCount: nat, order': nat, pathCount': nat)
    ensures var q := p.Stored(order, pathCount);
      && q.Stored(order', pathCount') == p.Stored(order', pathCount')
      && q.Kind() == p.Kind()
      && q.ClippedBounds() == p.ClippedBounds()
      && q.order == order && q.bounds == p.bounds && q.contentMask == p.contentMask
  {
  }

  // Recording is faithful: the recorded form of an operation does to a scene what the operation did.
  lemma RecordedStep(st: SceneState, op: PaintOperation) returns (recorded: Option<PaintOperation>)
    requires WellFormed(st)
    ensures recorded.None? ==> Step(st, op) == st
    ensures recorded.Some? ==>
      Step(st, op).operations == st.operations + [recorded.value] && Step(st, recorded.value) == Step(st, op)
  {
    hide Primitive.Stored, Primitive.Kind, Primitive.ClippedBounds, MaxHit, Bounds.IsEmpty, InsertState;
    if op.Draw? {
      var p := op.primitive;
      InsertUnfolds(st, p);
      if p.ClippedBounds().IsEmpty() {
        return None;
      }
      var order, pathCount := OrderFor(st, p.ClippedBounds()), |st.vectors[PATH_KIND]|;
      StoredAgain(p, order, pathCount, order, pathCount);
      InsertUnfolds(st, p.Stored(order, pathCount));
      return Some(Draw(p.Stored(order, pathCount)));
    }
    return Some(op);
  }

  /** Replaying everything a scene recorded into an empty scene rebuilds that scene: the same
      operations, the same tree entries and draw orders, and the same primitives in every vector. */
  lemma {:induction false} ReplayRebuilds(script: seq<PaintOperation>)
    ensures Run(EmptyScene(), Run(EmptyScene(), script).operations) == Run(EmptyScene(), script)
  {
    assert WellFormed(EmptyScene());
    hide Step, WellFormed;
    if script != [] {
      var rest := script[..|script| - 1];
      ReplayRebuilds(rest);
      var st := Run(EmptyScene(), rest);
      var recorded := RecordedStep(st, script[|script| - 1]);
      if recorded.Some? {
        RunSnoc(EmptyScene(), st.operations, recorded.value);
      }
    }
  }

  // ---------------------------------------------------------------------------------------
  // Replay under a transform
  // ---------------------------------------------------------------------------------------

  function TransformEntries(h: seq<Entry>, scale: real, translation: Point): seq<Entry> {
    seq(|h|, i requires 0 <= i < |h| => Entry(TransformBounds(h[i].bounds, scale, translation), h[i].order))
  }

  function TransformOperations(ops: seq<PaintOperation>, scale: real, translation: Point): seq<PaintOperation>
    requires scale != 0.0
  {
    seq(|ops|, i requires 0 <= i < |ops| => ops[i].Transformed(scale, translation))
  }

  function TransformVector(v: seq<Primitive>, scale: real, translation: Point): seq<Primitive>
    requires scale != 0.0
  {
    seq(|v|, i requires 0 <= i < |v| => v[i].Transformed(scale, translation))
  }

  /** The same scene, moved and scaled: orders, layers and entries are untouched. */
  function TransformState(st: SceneState, scale: real, translation: Point): SceneState
    requires scale != 0.0
  {
    SceneState(TransformOperations(st.operations, scale, translation),
               TransformEntries(st.history, scale, translation),
               st.layers,
               seq(|st.vectors|, k requires 0 <= k < |st.vectors|
                 => TransformVector(st.vectors[k], scale, translation)),
               st.layerEntries,
               st.entryOf)
  }

  lemma {:induction false} TransformKeepsMaxHit(h: seq<Entry>, b: Bounds, scale: real, translation: Point)
    requires scale > 0.0
    ensures MaxHit(TransformEntries(h, scale, translation), TransformBounds(b, scale, translation)) == MaxHit(h, b)
  {
    if h != [] {
      var n := |h| - 1;
      TransformKeepsMaxHit(h[..n], b, scale, translation);
      TransformKeepsIntersects(h[n].bounds, b, scale, translation);
      assert TransformEntries(h, scale, translation)[..n] == TransformEntries(h[..n], scale, translation);
      hide TransformBounds, Bounds.Intersects;
    }
  }

  lemma TransformedPrimitive(p: Primitive, scale: real, translation: Point)
    requires scale > 0.0
    ensures var q := p.Transformed(scale, translation);
      && q.Kind() == p.Kind()
      && q.order == p.order
      && q.bounds == TransformBounds(p.bounds, scale, translation)
      && q.contentMask == TransformBounds(p.contentMask, scale, translation)
  {
    hide TransformBounds, TransformPoint, Conjugate;
  }

  /** The transform of a primitive, field by field: boxes and points are moved and scaled, lengths are scaled;
      nothing else changes but the matrix, which is that of TransformedMatrix. */
  lemma TransformedFields(p: Primitive, scale: real, translation: Point)
    requires scale != 0.0
    ensures var q := p.Transformed(scale, translation);
      && q.order == p.order && q.paint == p.paint
      && q.bounds == TransformBounds(p.bounds, scale, translation)
      && q.contentMask == TransformBounds(p.contentMask, scale, translation)
      && (p.Shadow? <==> q.Shadow?) && (p.Quad? <==> q.Quad?) && (p.Path? <==> q.Path?)
      && (p.Underline? <==> q.Underline?) && (p.Surface? <==> q.Surface?) && (p.RasterTile? <==> q.RasterTile?)
      && (p.MonochromeSprite? <==> q.MonochromeSprite?) && (p.PolychromeSprite? <==> q.PolychromeSprite?)
      && (p.IsSprite() ==> q.IsSprite() && q.tile == p.tile)
      && (p.Shadow? ==> q.blurRadius == p.blurRadius * scale)
      && (p.Underline? ==> q.thickness == p.thickness * scale)
      && (p.Shadow? || p.Quad? || p.PolychromeSprite? ==> ScaledCorners(p.cornerRadii, q.cornerRadii, scale))
      && (p.Quad? ==> ScaledEdges(p.borderWidths, q.borderWidths, scale))
      && (p.Path? ==> q.id == p.id && MovedPath(p, q, scale, translation))
  {
    hide TransformBounds, TransformPoint, Conjugate, Corners.Times, Edges.Times, ScaledCorners, ScaledEdges, MovedPath;
    if p.Shadow? || p.Quad? || p.PolychromeSprite? {
      CornersScale(p.cornerRadii, scale);
    }
    if p.Quad? {
      EdgesScale(p.borderWidths, scale);
    }
    if p.Path? {
      PathMoves(p, scale, translation);
    }
  }

  lemma CornersScale(c: Corners, scale: real)
    ensures ScaledCorners(c, c.Times(scale), scale)
  {
  }

  lemma EdgesScale(e: Edges, scale: real)
    ensures ScaledEdges(e, e.Times(scale), scale)
  {
  }

  lemma PathMoves(p: Primitive, scale: real, translation: Point)
    requires p.Path? && scale != 0.0
    ensures var q := p.Transformed(scale, translation); q.Path? && q.id == p.id && MovedPath(p, q, scale, translation)
  {
    hide TransformBounds, TransformPoint;
  }

  predicate ScaledCorners(c: Corners, d: Corners, scale: real) {
    && d.topLeft == c.topLeft * scale && d.topRight == c.topRight * scale
    && d.bottomRight == c.bottomRight * scale && d.bottomLeft == c.bottomLeft * scale
  }

  predicate ScaledEdges(e: Edges, f: Edges, scale: real) {
    && f.top == e.top * scale && f.right == e.right * scale
    && f.bottom == e.bottom * scale && f.left == e.left * scale
  }

  predicate MovedPath(p: Primitive, q: Primitive, scale: real, translation: Point)
    requires p.Path? && q.Path?
  {
    && q.start == TransformPoint(p.start, scale, translation)
    && q.current == TransformPoint(p.current, scale, translation)
    && |q.vertices| == |p.vertices|
    && forall i :: 0 <= i < |p.vertices| ==>
         && q.vertices[i].xyPosition == TransformPoint(p.vertices[i].xyPosition, scale, translation)
         && q.vertices[i].stPosition == p.vertices[i].stPosition
         && q.vertices[i].contentMask == TransformBounds(p.vertices[i].contentMask, scale, translation)
  }

  /** Drawing the transformed primitive at a moved point is moving what the primitive drew there. */
  lemma TransformedMatrix(p: Primitive, scale: real, translation: Point, at: Point)
    requires scale != 0.0 && (p.Shadow? || p.Quad? || p.IsSprite())
    ensures var q := p.Transformed(scale, translation);
      && (q.Shadow? || q.Quad? || q.MonochromeSprite? || q.PolychromeSprite?)
      && q.transformation.Apply(TransformPoint(at, scale, translation))
      == TransformPoint(p.transformation.Apply(at), scale, translation)
  {
    hide TransformBounds, TransformPoint, Conjugate, Matrix.Apply;
    ConjugateCommutes(p.transformation, scale, translation, at);
  }

  lemma TransformedStored(p: Primitive, order: nat, pathCount: nat, scale: real, translation: Point)
    requires scale > 0.0
    ensures p.Transformed(scale, translation).Stored(order, pathCount)
         == p.Stored(order, pathCount).Transformed(scale, translation)
  {
    hide TransformBounds, TransformPoint, Conjugate;
  }

  lemma TransformedClip(p: Primitive, scale: real, translation: Point)
    requires scale > 0.0
    ensures var q := p.Transformed(scale, translation);
      && q.ClippedBounds() == TransformBounds(p.ClippedBounds(), scale, translation)
      && (q.ClippedBounds().IsEmpty() <==> p.ClippedBounds().IsEmpty())
  {
    TransformedPrimitive(p, scale, translation);
    TransformKeepsClip(p.bounds, p.contentMask, scale, translation);
    hide Primitive.Transformed, TransformBounds, Bounds.Intersect, Bounds.IsEmpty;
  }

  lemma TransformInsert(st: SceneState, p: Primitive, scale: real, translation: Point)
    requires WellFormed(st) && scale > 0.0
    ensures WellFormed(TransformState(st, scale, translation))
    ensures InsertState(TransformState(st, scale, translation), p.Transformed(scale, translation))
         == TransformState(InsertState(st, p), scale, translation)
  {
    TransformIsWellFormed(st, scale, translation);
    TransformedClip(p, scale, translation);
    hide Primitive.Transformed, Primitive.ClippedBounds, TransformBounds, Bounds.IsEmpty, WellFormed, Filed,
      Primitive.Stored;
    var clipped := p.ClippedBounds();
    if !clipped.IsEmpty() {
      TransformKeepsMaxHit(st.history, clipped, scale, translation);
      hide MaxHit;
      var order, pathCount := OrderFor(st, clipped), |st.vectors[PATH_KIND]|;
      TransformedStored(p, order, pathCount, scale, translation);
      FiledTransforms(st, clipped, EntryFor(st), p.Stored(order, pathCount), scale, translation);
    }
  }

  lemma FiledTransforms(st: SceneState, clipped: Bounds, entry: nat, stored: Primitive, scale: real, translation: Point)
    requires |st.vectors| == KINDS && scale > 0.0
    ensures Filed(TransformState(st, scale, translation), TransformBounds(clipped, scale, translation), entry,
                  stored.Transformed(scale, translation))
         == TransformState(Filed(st, clipped, entry, stored), scale, translation)
  {
    TransformedPrimitive(stored, scale, translation);
    TransformFiles(st, stored.Kind(), stored, scale, translation);
    AppendEntryTransforms(st.history, clipped, stored.order, scale, translation);
    hide Primitive.Transformed, Primitive.Kind, TransformBounds, TransformEntries, TransformOperations;
  }

  lemma AppendEntryTransforms(h: seq<Entry>, b: Bounds, order: nat, scale: real, translation: Point)
    ensures TransformEntries(h + [Entry(b, order)], scale, translation)
         == TransformEntries(h, scale, translation) + [Entry(TransformBounds(b, scale, translation), order)]
  {
    hide TransformBounds;
  }

  lemma TransformFiles(st: SceneState, k: nat, stored: Primitive, scale: real, translation: Point)
    requires |st.vectors| == KINDS && k < KINDS && scale > 0.0
    ensures TransformOperations(st.operations + [Draw(stored)], scale, translation)
         == TransformOperations(st.operations, scale, translation) + [Draw(stored.Transformed(scale, translation))]
    ensures var ts := TransformState(st, scale, translation);
         TransformState(st.(vectors := st.vectors[k := st.vectors[k] + [stored]]), scale, translation).vectors
         == ts.vectors[k := ts.vectors[k] + [stored.Transformed(scale, translation)]]
  {
    hide Primitive.Transformed;
    assert TransformVector(st.vectors[k] + [stored], scale, translation)
        == TransformVector(st.vectors[k], scale, translation) + [stored.Transformed(scale, translation)];
  }

  lemma TransformIsWellFormed(st: SceneState, scale: real, translation: Point)
    requires WellFormed(st) && scale > 0.0
    ensures WellFormed(TransformState(st, scale, translation))
  {
    hide Primitive.Transformed, Primitive.Kind;
    forall k, i | 0 <= k < KINDS && 0 <= i < |st.vectors[k]|
      ensures st.vectors[k][i].Transformed(scale, translation).Kind() == k
    {
      TransformedPrimitive(st.vectors[k][i], scale, translation);
    }
  }

  lemma TransformStep(st: SceneState, op: PaintOperation, scale: real, translation: Point)
    requires WellFormed(st) && scale > 0.0
    ensures WellFormed(TransformState(st, scale, translation))
    ensures Step(TransformState(st, scale, translation), op.Transformed(scale, translation))
         == TransformState(Step(st, op), scale, translation)
  {
    TransformIsWellFormed(st, scale, translation);
    match op
    case Draw(p) =>
      TransformInsert(st, p, scale, translation);
    case StartLayer(b) =>
      TransformKeepsMaxHit(st.history, b, scale, translation);
      hide MaxHit, TransformBounds, WellFormed, TransformVector;
      var l, r := PushLayerState(TransformState(st, scale, translation), TransformBounds(b, scale, translation)),
                  TransformState(PushLayerState(st, b), scale, translation);
      assert l.operations == r.operations && l.history == r.history && l.vectors == r.vectors;
    case EndLayer =>
      hide WellFormed, TransformVector, TransformEntries;
      var l, r := PopLayerState(TransformState(st, scale, translation)),
                  TransformState(PopLayerState(st), scale, translation);
      assert l.operations == r.operations && l.vectors == r.vectors;
  }

  /** Replaying a script under a positive scale and a translation yields the plainly replayed scene,
      transformed: nothing is dropped or added, and every draw order is the same. */
  lemma {:induction false} TransformReplayCommutes(st: SceneState, script: seq<PaintOperation>, scale: real,
                                                   translation: Point)
    requires WellFormed(st) && scale > 0.0
    ensures WellFormed(TransformState(st, scale, translation))
    ensures Run(TransformState(st, scale, translation), TransformOperations(script, scale, translation))
         == TransformState(Run(st, script), scale, translation)
  {
    hide TransformState, Step, WellFormed, TransformOperations;
    TransformIsWellFormed(st, scale, translation);
    LastTransforms(script, scale, translation);
    if script != [] {
      var n := |script| - 1;
      TransformReplayCommutes(st, script[..n], scale, translation);
      TransformStep(Run(st, script[..n]), script[n], scale, translation);
    }
  }

  /** Replaying a recording under a positive scale and a translation drops nothing and gives every
      layer, every operation and every filed primitive the draw order it had. */
  lemma TransformedReplayKeepsOrders(script: seq<PaintOperation>, st: SceneState, moved: SceneState,
                                     scale: real, translation: Point)
    requires scale > 0.0 && st == Run(EmptyScene(), script)
    requires moved == Run(EmptyScene(), TransformOperations(st.operations, scale, translation))
    ensures moved.operations == TransformOperations(st.operations, scale, translation)
    ensures |moved.operations| == |st.operations| && moved.layers == st.layers
    ensures forall k :: 0 <= k < KINDS ==> |moved.vectors[k]| == |st.vectors[k]|
    ensures forall k, i :: 0 <= k < KINDS && 0 <= i < |st.vectors[k]| ==>
      moved.vectors[k][i].order == st.vectors[k][i].order
  {
    hide Run, TransformState, TransformOperations;
    ReplayRebuilds(script);
    TransformReplayCommutes(EmptyScene(), st.operations, scale, translation);
    EmptyTransforms(scale, translation);
    TransformStateKeepsOrders(st, scale, translation);
  }

  lemma LastTransforms(script: seq<PaintOperation>, scale: real, translation: Point)
    requires scale != 0.0
    ensures var moved, n := TransformOperations(script, scale, translation), |script| - 1;
      && |moved| == |script|
      && (script != [] ==> moved[..n] == TransformOperations(script[..n], scale, translation)
                           && moved[n] == script[n].Transformed(scale, translation))
  {
    hide PaintOperation.Transformed;
  }

  lemma EmptyTransforms(scale: real, translation: Point)
    requires scale > 0.0
    ensures TransformState(EmptyScene(), scale, translation) == EmptyScene()
  {
  }

  lemma TransformStateKeepsOrders(st: SceneState, scale: real, translation: Point)
    requires scale > 0.0 && |st.vectors| == KINDS
    ensures var moved := TransformState(st, scale, translation);
      && moved.operations == TransformOperations(st.operations, scale, translation)
      && |moved.operations| == |st.operations| && moved.layers == st.layers
      && |moved.vectors| == KINDS
      && (forall k :: 0 <= k < KINDS ==> |moved.vectors[k]| == |st.vectors[k]|)
      && forall k, i :: 0 <= k < KINDS && 0 <= i < |st.vectors[k]| ==>
           moved.vectors[k][i].order == st.vectors[k][i].order
  {
    hide Primitive.Transformed, PaintOperation.Transformed;
    forall k, i | 0 <= k < KINDS && 0 <= i < |st.vectors[k]|
      ensures st.vectors[k][i].Transformed(scale, translation).order == st.vectors[k][i].order
    {
      TransformedPrimitive(st.vectors[k][i], scale, translation);
    }
  }

  // ---------------------------------------------------------------------------------------
  // Finishing
  // ---------------------------------------------------------------------------------------

  /** What `finish` sorts by: the draw order, and for sprites then the tile. */
  function SortKey(p: Primitive): Key {
    Key(p.order, if p.IsSprite() then p.tile.tileId else 0)
  }

  function FinishVectors(vectors: seq<seq<Primitive>>): seq<seq<Primitive>> {
    seq(|vectors|, k requires 0 <= k < |vectors| => SortBy(vectors[k], SortKey))
  }

  // ---------------------------------------------------------------------------------------
  // The class
  // ---------------------------------------------------------------------------------------

  class Scene {
    var paintOperations: seq<PaintOperation>
    const primitiveBounds: BoundsTree
    var layerStack: seq<nat>
    var vectors: seq<seq<Primitive>>
    ghost var layerEntries: seq<nat>
    ghost var entryOf: seq<nat>

    ghost function State(): SceneState
      reads this, primitiveBounds
    {
      SceneState(paintOperations, primitiveBounds.history, layerStack, vectors, layerEntries, entryOf)
    }

    ghost predicate Valid()
      reads this, primitiveBounds
    {
      primitiveBounds.Valid() && WellFormed(State())
    }

    constructor ()
      ensures Valid() && fresh(primitiveBounds) && State() == EmptyScene()
    {
      primitiveBounds := new BoundsTree();
      paintOperations, layerStack := [], [];
      vectors := [[], [], [], [], [], [], [], []];
      layerEntries, entryOf := [], [];
    }

    method Clear()
      modifies this, primitiveBounds
      ensures Valid() && State() == EmptyScene()
    {
      paintOperations := [];
      primitiveBounds.Clear();
      layerStack := [];
      vectors := [[], [], [], [], [], [], [], []];
      layerEntries, entryOf := [], [];
    }

    method PushLayer(bounds: Bounds)
      requires Valid()
      modifies this, primitiveBounds
      ensures Valid() && State() == Step(old(State()), StartLayer(bounds))
    {
      hide MaxHit, WellFormed, Step, PushLayerState, BoundsTree.Valid;
      StepIsWellFormed(State(), StartLayer(bounds));
      PushUnfolds(State(), bounds);
      layerEntries, entryOf := layerEntries + [|primitiveBounds.history|], entryOf + [|primitiveBounds.history|];
      var order := primitiveBounds.Insert(bounds);
      layerStack := layerStack + [order];
      paintOperations := paintOperations + [StartLayer(bounds)];
    }

    method PopLayer()
      requires Valid()
      modifies this
      ensures Valid() && State() == Step(old(State()), EndLayer)
    {
      StepIsWellFormed(State(), EndLayer);
      if |layerStack| > 0 {
        layerStack := layerStack[..|layerStack| - 1];
      }
      layerEntries, entryOf := DropLast(layerEntries), entryOf + [0];
      paintOperations := paintOperations + [EndLayer];
    }

    method InsertPrimitive(primitive: Primitive)
      requires Valid()
      modifies this, primitiveBounds
      ensures Valid() && State() == Step(old(State()), Draw(primitive))
    {
      hide MaxHit, Primitive.ClippedBounds, Bounds.IsEmpty, WellFormed, Step, InsertState, Primitive.Stored,
        Primitive.Kind, BoundsTree.Valid;
      ghost var st := State();
      WellFormedShape(st);
      StepIsWellFormed(st, Draw(primitive));
      InsertUnfolds(st, primitive);
      var clippedBounds := primitive.ClippedBounds();
      if clippedBounds.IsEmpty() {
        return;
      }
      var order;
      if |layerStack| > 0 {
        order := layerStack[|layerStack| - 1];
      } else {
        order := primitiveBounds.Insert(clippedBounds);
      }
      File(primitive.Stored(order, |vectors[PATH_KIND]|));
      entryOf := entryOf + [EntryFor(st)];
    }

    // The second half of `InsertPrimitive`: the stored primitive goes to its vector and is recorded.
    method File(stored: Primitive)
      requires |vectors| == KINDS
      modifies this`vectors, this`paintOperations
      ensures vectors == old(vectors)[stored.Kind() := old(vectors)[stored.Kind()] + [stored]]
      ensures paintOperations == old(paintOperations) + [Draw(stored)]
    {
      var kind := stored.Kind();
      vectors := vectors[kind := vectors[kind] + [stored]];
      paintOperations := paintOperations + [Draw(stored)];
    }

    method Replay(lo: nat, hi: nat, prevScene: Scene)
      requires Valid() && prevScene != this && lo <= hi <= |prevScene.paintOperations|
      modifies this, primitiveBounds
      ensures Valid()
      ensures State() == Run(old(State()), old(prevScene.paintOperations)[lo..hi])
    {
      var operations := prevScene.paintOperations[lo..hi];
      var i := 0;
      while i < |operations|
        invariant Valid() && i <= |operations|
        invariant State() == Run(old(State()), operations[..i])
      {
        hide WellFormed, Step, MaxHit;
        Apply(operations[i]);
        assert operations[..i + 1] == operations[..i] + [operations[i]];
        RunSnoc(old(State()), operations[..i], operations[i]);
        i := i + 1;
      }
      assert operations[..i] == operations;
    }

    method ReplayVectorTransform(operations: seq<PaintOperation>, scale: real, translation: Point)
      requires Valid() && scale != 0.0
      modifies this, primitiveBounds
      ensures Valid()
      ensures State() == Run(old(State()), TransformOperations(operations, scale, translation))
    {
      hide WellFormed, Step, MaxHit, PaintOperation.Transformed;
      ghost var moved := TransformOperations(operations, scale, translation);
      var i := 0;
      while i < |operations|
        invariant Valid() && i <= |operations|
        invariant State() == Run(old(State()), moved[..i])
      {
        Apply(operations[i].Transformed(scale, translation));
        assert moved[..i + 1] == moved[..i] + [moved[i]];
        RunSnoc(old(State()), moved[..i], moved[i]);
        i := i + 1;
      }
      assert moved[..i] == moved;
    }

    // The `match` that both replay loops share.
    method Apply(operation: PaintOperation)
      requires Valid()
      modifies this, primitiveBounds
      ensures Valid() && State() == Step(old(State()), operation)
    {
      match operation {
        case Draw(primitive) => InsertPrimitive(primitive);
        case StartLayer(bounds) => PushLayer(bounds);
        case EndLayer => PopLayer();
      }
    }

    method Finish()
      requires Valid()
      modifies this`vectors
      ensures vectors == FinishVectors(old(vectors))
    {
      hide SortBy;
      vectors := [SortBy(vectors[0], SortKey), SortBy(vectors[1], SortKey),
                  SortBy(vectors[2], SortKey), SortBy(vectors[3], SortKey),
                  SortBy(vectors[4], SortKey), SortBy(vectors[5], SortKey),
                  SortBy(vectors[6], SortKey), SortBy(vectors[7], SortKey)];
    }
  }
}
