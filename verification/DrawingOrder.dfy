/** The order in which a scene is drawn, exactly (src/scene.rs): the recording, stably sorted by draw order,
    then kind, then for sprites tile. */
module DrawingOrder {
  import opened Batches
  import opened DrawOrders
  import opened Geometry
  import opened Painter
  import opened Scenes
  import opened Sorting

  predicate BothSprites(p: Primitive, q: Primitive) {
    (p.MonochromeSprite? && q.MonochromeSprite?) || (p.PolychromeSprite? && q.PolychromeSprite?)
  }

  /** By draw order, then by kind, then for sprites by tile. */
  predicate Before(p: Primitive, q: Primitive) {
    || p.order < q.order
    || (p.order == q.order && p.Kind() < q.Kind())
    || (p.order == q.order && BothSprites(p, q) && p.tile.tileId < q.tile.tileId)
  }

  predicate SameKeys(p: Primitive, q: Primitive) {
    p.order == q.order && p.Kind() == q.Kind() && (BothSprites(p, q) ==> p.tile.tileId == q.tile.tileId)
  }

  /** The painted primitives of a recording, in the order they were painted. */
  function Painted(ops: seq<PaintOperation>): seq<Primitive> {
    if ops == [] then []
    else
      var last := ops[|ops| - 1];
      Painted(ops[..|ops| - 1]) + if last.Draw? then [last.primitive] else []
  }

  /** The primitives with the keys of `q`, in order. */
  function Alike(s: seq<Primitive>, q: Primitive): seq<Primitive> {
    if s == [] then []
    else Alike(s[..|s| - 1], q) + if SameKeys(s[|s| - 1], q) then [s[|s| - 1]] else []
  }

  // ---------------------------------------------------------------------------------------
  // Sequences of primitives
  // ---------------------------------------------------------------------------------------

  lemma AlikeSnoc(s: seq<Primitive>, x: Primitive, q: Primitive)
    ensures Alike(s + [x], q) == if SameKeys(x, q) then Alike(s, q) + [x] else Alike(s, q)
  {
    assert (s + [x])[..|s|] == s;
  }

  lemma SingleOfKind(x: Primitive, k: nat)
    ensures OfKind([x], k) == if x.Kind() == k then [x] else []
  {
    hide Primitive.Kind;
    assert OfKind([x][1..], k) == [];
  }

  // Alike primitives are of one kind.
  lemma {:induction false} AlikeOfKind(s: seq<Primitive>, q: Primitive)
    ensures Alike(OfKind(s, q.Kind()), q) == Alike(s, q)
  {
    if s != [] {
      hide SameKeys, OfKind, Primitive.Kind;
      var rest, last := s[..|s| - 1], s[|s| - 1];
      assert s == rest + [last];
      AlikeOfKind(rest, q);
      OfKindAppend(rest, [last], q.Kind());
      SingleOfKind(last, q.Kind());
      AlikeSnoc(rest, last, q);
      KeysHaveKind(last, q);
      if last.Kind() == q.Kind() {
        AlikeSnoc(OfKind(rest, q.Kind()), last, q);
      } else {
        assert OfKind(rest, q.Kind()) + [] == OfKind(rest, q.Kind());
      }
    }
  }

  lemma KeysHaveKind(p: Primitive, q: Primitive)
    ensures SameKeys(p, q) ==> p.Kind() == q.Kind()
    ensures p.Kind() == q.Kind() ==> (SameKeys(p, q) <==> SortKey(p) == SortKey(q))
  {
  }

  // In one vector, the alike primitives are those with the same sort key.
  lemma {:induction false} AlikeIsHaving(s: seq<Primitive>, q: Primitive)
    requires forall i :: 0 <= i < |s| ==> s[i].Kind() == q.Kind()
    ensures Alike(s, q) == Having(s, SortKey, SortKey(q))
  {
    if s != [] {
      hide SameKeys, Primitive.Kind, SortKey;
      AlikeIsHaving(s[..|s| - 1], q);
      KeysHaveKind(s[|s| - 1], q);
    }
  }

  // Two primitives of a kind keep their order among those of that kind.
  lemma {:induction false} OrderOfKind(s: seq<Primitive>, k: nat, a: nat, b: nat) returns (x: nat, y: nat)
    requires a < b < |s| && s[a].Kind() == k && s[b].Kind() == k
    ensures x < y < |OfKind(s, k)| && OfKind(s, k)[x] == s[a] && OfKind(s, k)[y] == s[b]
  {
    hide Primitive.Kind, OfKind;
    var mid := s[a + 1..b];
    assert s == s[..a] + ([s[a]] + (mid + ([s[b]] + s[b + 1..])));
    OfKindAppend([s[b]], s[b + 1..], k);
    OfKindAppend(mid, [s[b]] + s[b + 1..], k);
    OfKindAppend([s[a]], mid + ([s[b]] + s[b + 1..]), k);
    OfKindAppend(s[..a], [s[a]] + (mid + ([s[b]] + s[b + 1..])), k);
    SingleOfKind(s[a], k);
    SingleOfKind(s[b], k);
    x := |OfKind(s[..a], k)|;
    y := x + 1 + |OfKind(mid, k)|;
  }

  // ---------------------------------------------------------------------------------------
  // The vectors hold what was painted
  // ---------------------------------------------------------------------------------------

  ghost predicate VectorsHold(vectors: seq<seq<Primitive>>, painted: seq<Primitive>) {
    |vectors| == KINDS && forall k :: 0 <= k < KINDS ==> vectors[k] == OfKind(painted, k)
  }

  lemma FiledHolds(vectors: seq<seq<Primitive>>, painted: seq<Primitive>, p: Primitive)
    requires VectorsHold(vectors, painted)
    ensures VectorsHold(vectors[p.Kind() := vectors[p.Kind()] + [p]], painted + [p])
  {
    hide Primitive.Kind, OfKind;
    forall k | 0 <= k < KINDS
      ensures vectors[p.Kind() := vectors[p.Kind()] + [p]][k] == OfKind(painted + [p], k)
    {
      OfKindAppend(painted, [p], k);
      SingleOfKind(p, k);
      assert OfKind(painted, k) + [] == OfKind(painted, k);
    }
  }

  lemma PaintedSnoc(ops: seq<PaintOperation>, op: PaintOperation)
    ensures Painted(ops + [op]) == if op.Draw? then Painted(ops) + [op.primitive] else Painted(ops)
  {
    assert (ops + [op])[..|ops|] == ops;
  }

  lemma StepHolds(st: SceneState, op: PaintOperation)
    requires WellFormed(st) && VectorsHold(st.vectors, Painted(st.operations))
    ensures VectorsHold(Step(st, op).vectors, Painted(Step(st, op).operations))
  {
    hide Painted, VectorsHold, MaxHit;
    if op.Draw? {
      var p := op.primitive;
      WellFormedShape(st);
      InsertUnfolds(st, p);
      hide Step, InsertState, Primitive.Stored, Primitive.ClippedBounds, Bounds.IsEmpty, WellFormed;
      if !p.ClippedBounds().IsEmpty() {
        var stored := p.Stored(OrderFor(st, p.ClippedBounds()), |st.vectors[PATH_KIND]|);
        PaintedSnoc(st.operations, Draw(stored));
        FiledHolds(st.vectors, Painted(st.operations), stored);
      }
    } else {
      PaintedSnoc(st.operations, op);
    }
  }

  lemma NothingHeld()
    ensures VectorsHold(EmptyScene().vectors, Painted(EmptyScene().operations))
  {
  }

  lemma {:induction false} VectorsHoldThePainted(script: seq<PaintOperation>)
    ensures var st := Run(EmptyScene(), script); VectorsHold(st.vectors, Painted(st.operations))
  {
    assert WellFormed(EmptyScene());
    hide VectorsHold, Painted, Step, WellFormed;
    if script == [] {
      NothingHeld();
    } else {
      VectorsHoldThePainted(script[..|script| - 1]);
      StepHolds(Run(EmptyScene(), script[..|script| - 1]), script[|script| - 1]);
    }
  }

  // ---------------------------------------------------------------------------------------
  // The drawing is the stable sort of the recording
  // ---------------------------------------------------------------------------------------

  lemma DrawnOfKind(vectors: seq<seq<Primitive>>, k: nat)
    requires |vectors| == KINDS && Finished(FinishVectors(vectors)) && k < KINDS
    ensures OfKind(Drawing(vectors), k) == SortBy(vectors[k], SortKey)
  {
    hide Finished, SortBy, Drawn, AllBatches, OfKind;
    DrawnOnce(FinishVectors(vectors), NOTHING_DRAWN, k);
    assert FinishVectors(vectors)[k][0..] == FinishVectors(vectors)[k];
  }

  lemma DrawingIsSorted(vectors: seq<seq<Primitive>>, a: nat, b: nat)
    requires |vectors| == KINDS && Finished(FinishVectors(vectors))
    requires a < b < |Drawing(vectors)|
    ensures !Before(Drawing(vectors)[b], Drawing(vectors)[a])
  {
    var drawing := Drawing(vectors);
    var p, q := drawing[a], drawing[b];
    KeysInOrder(vectors, a, b);
    hide *;
    if DrawKey(p) == DrawKey(q) {
      var k := p.Kind();
      SameKind(p, q);
      DrawnOfKind(vectors, k);
      SortByIsStableSort(vectors[k], SortKey);
      var x, y := OrderOfKind(drawing, k, a, b);
      SortedAt(SortBy(vectors[k], SortKey), x, y);
    }
    NotBefore(p, q);
  }

  lemma KeysInOrder(vectors: seq<seq<Primitive>>, a: nat, b: nat)
    requires |vectors| == KINDS && Finished(FinishVectors(vectors))
    requires a < b < |Drawing(vectors)|
    ensures DrawKey(Drawing(vectors)[a]).AtMost(DrawKey(Drawing(vectors)[b]))
  {
    hide *;
    DrawingIsDrawn(vectors);
    DrawnInOrder(FinishVectors(vectors), NOTHING_DRAWN);
    InOrderAt(Drawing(vectors), a, b);
  }

  lemma DrawingIsDrawn(vectors: seq<seq<Primitive>>)
    requires |vectors| == KINDS
    ensures |FinishVectors(vectors)| == KINDS && Cursors(FinishVectors(vectors), NOTHING_DRAWN)
    ensures Drawing(vectors) == Drawn(FinishVectors(vectors), AllBatches(FinishVectors(vectors), NOTHING_DRAWN))
  {
    hide SortBy, Drawn, AllBatches;
  }

  lemma InOrderAt(s: seq<Primitive>, a: nat, b: nat)
    requires InOrder(s) && a < b < |s|
    ensures DrawKey(s[a]).AtMost(DrawKey(s[b]))
  {
    hide DrawKey, Key.AtMost;
  }

  lemma SameKind(p: Primitive, q: Primitive)
    requires DrawKey(p) == DrawKey(q)
    ensures p.Kind() == q.Kind() && p.Kind() < KINDS
  {
    hide Primitive.Kind;
  }

  lemma SortedAt(s: seq<Primitive>, x: nat, y: nat)
    requires Sorted(s, SortKey) && x < y < |s|
    ensures SortKey(s[x]).AtMost(SortKey(s[y]))
  {
    hide SortKey;
  }

  lemma NotBefore(p: Primitive, q: Primitive)
    requires DrawKey(p).AtMost(DrawKey(q)) && (DrawKey(p) == DrawKey(q) ==> SortKey(p).AtMost(SortKey(q)))
    ensures !Before(q, p)
  {
  }

  lemma AlikeAreDrawnAsPainted(script: seq<PaintOperation>, st: SceneState, q: Primitive)
    requires st == Run(EmptyScene(), script) && |st.history| < DRAW_ORDER_MAX
    ensures Alike(Drawing(st.vectors), q) == Alike(Painted(st.operations), q)
  {
    var k := q.Kind();
    FinishedPaint(script);
    VectorsHoldThePainted(script);
    hide Run, Drawing, Finished, FinishVectors, SortBy, Drawn, AllBatches, OfKind, Primitive.Kind, Painted, Alike;
    var vector := st.vectors[k];
    DrawnOfKind(st.vectors, k);
    SortByIsStableSort(vector, SortKey);
    AlikeOfKind(Drawing(st.vectors), q);
    AlikeOfKind(Painted(st.operations), q);
    WellFormedShape(st);
    OneKind(st, k);
    AlikeIsHaving(vector, q);
    AlikeIsHaving(SortBy(vector, SortKey), q);
  }

  lemma OneKind(st: SceneState, k: nat)
    requires WellFormed(st) && k < KINDS
    ensures forall i :: 0 <= i < |st.vectors[k]| ==> st.vectors[k][i].Kind() == k
    ensures forall i :: 0 <= i < |SortBy(st.vectors[k], SortKey)| ==> SortBy(st.vectors[k], SortKey)[i].Kind() == k
  {
    var sorted := SortBy(st.vectors[k], SortKey);
    SortByIsStableSort(st.vectors[k], SortKey);
    hide SortBy, Primitive.Kind;
    forall i | 0 <= i < |sorted| ensures sorted[i].Kind() == k {
      assert sorted[i] in multiset(st.vectors[k]);
    }
  }

  /** The drawing is the recording, stably sorted: it is in order, and primitives with the same keys are
      drawn as they were painted. */
  lemma DrawingIsStableSort(script: seq<PaintOperation>, st: SceneState)
    requires st == Run(EmptyScene(), script) && |st.history| < DRAW_ORDER_MAX
    ensures var drawing := Drawing(st.vectors);
      && (forall a, b :: 0 <= a < b < |drawing| ==> !Before(drawing[b], drawing[a]))
      && forall q :: Alike(drawing, q) == Alike(Painted(st.operations), q)
  {
    FinishedPaint(script);
    hide Run, Drawing, Finished, FinishVectors, Painted, Alike, Before;
    WellFormedShape(st);
    forall a, b | 0 <= a < b < |Drawing(st.vectors)|
      ensures !Before(Drawing(st.vectors)[b], Drawing(st.vectors)[a])
    {
      DrawingIsSorted(st.vectors, a, b);
    }
    forall q ensures Alike(Drawing(st.vectors), q) == Alike(Painted(st.operations), q) {
      AlikeAreDrawnAsPainted(script, st, q);
    }
  }

  // ---------------------------------------------------------------------------------------
  // Two paintings
  // ---------------------------------------------------------------------------------------

  /** The i-th operation's painting is drawn at `a`: the same primitive, with as many alike drawn before as
      were painted before. */
  ghost predicate DrawnAt(ops: seq<PaintOperation>, drawing: seq<Primitive>, i: nat, a: nat)
    requires i < |ops| && ops[i].Draw?
  {
    && a < |drawing| && drawing[a] == ops[i].primitive
    && |Alike(drawing[..a], ops[i].primitive)| == |Alike(Painted(ops[..i]), ops[i].primitive)|
  }

  lemma {:induction false} AlikeGrow(s: seq<Primitive>, q: Primitive, a: nat, b: nat)
    requires a <= b <= |s|
    ensures Alike(s[..a], q) <= Alike(s[..b], q)
    ensures a < b && SameKeys(s[a], q) ==> |Alike(s[..a], q)| < |Alike(s[..b], q)|
    decreases b
  {
    hide SameKeys;
    if a < b {
      AlikeGrow(s, q, a, b - 1);
      assert s[..b] == s[..b - 1] + [s[b - 1]];
      hide Alike;
      AlikeSnoc(s[..b - 1], s[b - 1], q);
    }
  }

  // The r-th alike element has exactly r alike before it.
  lemma {:induction false} NthAlike(s: seq<Primitive>, q: Primitive, r: nat) returns (a: nat)
    requires r < |Alike(s, q)|
    ensures a < |s| && s[a] == Alike(s, q)[r] && |Alike(s[..a], q)| == r
  {
    hide SameKeys;
    var rest := s[..|s| - 1];
    if r < |Alike(rest, q)| {
      a := NthAlike(rest, q, r);
      assert s[..a] == rest[..a];
    } else {
      a := |s| - 1;
    }
  }

  lemma {:induction false} PaintedGrow(ops: seq<PaintOperation>, i: nat, n: nat)
    requires i < n <= |ops| && ops[i].Draw?
    ensures Painted(ops[..i]) + [ops[i].primitive] <= Painted(ops[..n])
    decreases n
  {
    assert ops[..n] == ops[..n - 1] + [ops[n - 1]];
    PaintedSnoc(ops[..n - 1], ops[n - 1]);
    if i < n - 1 {
      hide Painted;
      PaintedGrow(ops, i, n - 1);
    }
  }

  // As many alike were painted before the i-th operation as say where its primitive is among the alike.
  lemma PlaceAmongAlike(ops: seq<PaintOperation>, i: nat)
    requires i < |ops| && ops[i].Draw?
    ensures var p := ops[i].primitive;
      var r := |Alike(Painted(ops[..i]), p)|;
      r < |Alike(Painted(ops), p)| && Alike(Painted(ops), p)[r] == p
  {
    hide Painted, Alike, SameKeys;
    var p, before, all := ops[i].primitive, Painted(ops[..i]), Painted(ops);
    assert ops[..|ops|] == ops;
    PaintedGrow(ops, i, |ops|);
    AlikeSnoc(before, p, p);
    assert SameKeys(p, p) by { Reflexive(p); }
    AlikeGrow(all, p, |before| + 1, |all|);
    assert all[..|before| + 1] == before + [p] && all[..|all|] == all;
  }

  lemma Reflexive(p: Primitive)
    ensures SameKeys(p, p)
  {
  }

  /** Every painting is drawn in exactly one place. */
  lemma DrawnInOnePlace(script: seq<PaintOperation>, st: SceneState, i: nat)
    requires st == Run(EmptyScene(), script) && |st.history| < DRAW_ORDER_MAX
    requires i < |st.operations| && st.operations[i].Draw?
    ensures exists a :: DrawnAt(st.operations, Drawing(st.vectors), i, a)
    ensures var drawing := Drawing(st.vectors);
      forall a: nat, b: nat :: DrawnAt(st.operations, drawing, i, a) && DrawnAt(st.operations, drawing, i, b) ==> a == b
  {
    var drawing, p := Drawing(st.vectors), st.operations[i].primitive;
    AlikeAreDrawnAsPainted(script, st, p);
    hide Run, Drawing, Painted, Alike, SameKeys;
    PlaceAmongAlike(st.operations, i);
    var a := NthAlike(drawing, p, |Alike(Painted(st.operations[..i]), p)|);
    assert DrawnAt(st.operations, drawing, i, a);
    forall a: nat, b: nat | DrawnAt(st.operations, drawing, i, a) && DrawnAt(st.operations, drawing, i, b)
      ensures a == b
    {
      OnlyPlace(st.operations, drawing, i, a, b);
    }
    hide DrawnAt;
  }

  lemma OnlyPlace(ops: seq<PaintOperation>, drawing: seq<Primitive>, i: nat, a: nat, b: nat)
    requires i < |ops| && ops[i].Draw? && DrawnAt(ops, drawing, i, a) && DrawnAt(ops, drawing, i, b)
    ensures a == b
  {
    hide Painted, Alike, SameKeys;
    Reflexive(ops[i].primitive);
    AlikeGrow(drawing, ops[i].primitive, if a < b then a else b, if a < b then b else a);
  }

  /** Two paintings are drawn in the order they were painted if and only if the keys (order, kind, and for
      sprites tile) of the later do not come before those of the earlier. */
  lemma DrawnAsPaintedExactlyIf(script: seq<PaintOperation>, st: SceneState, i: nat, j: nat, a: nat, b: nat)
    requires st == Run(EmptyScene(), script) && |st.history| < DRAW_ORDER_MAX
    requires i < j < |st.operations| && st.operations[i].Draw? && st.operations[j].Draw?
    requires DrawnAt(st.operations, Drawing(st.vectors), i, a)
    requires DrawnAt(st.operations, Drawing(st.vectors), j, b)
    ensures a < b <==> !Before(st.operations[j].primitive, st.operations[i].primitive)
  {
    var drawing, p, q := Drawing(st.vectors), st.operations[i].primitive, st.operations[j].primitive;
    DrawingIsStableSort(script, st);
    hide Run, Drawing, Painted, Alike, WellFormed;
    ThreeWays(p, q);
    if SameKeys(p, q) {
      AlikeSame(drawing[..b], p, q);
      AlikeSame(Painted(st.operations[..j]), p, q);
      PaintedBefore(st.operations, i, j);
      if b < a { AlikeGrow(drawing, p, b, a); }
    }
    hide SameKeys, Before;
  }

  lemma ThreeWays(p: Primitive, q: Primitive)
    ensures Before(p, q) || Before(q, p) || SameKeys(p, q)
    ensures !(Before(p, q) && Before(q, p)) && !(SameKeys(p, q) && (Before(p, q) || Before(q, p)))
    ensures !SameKeys(p, q) ==> p != q
  {
  }

  lemma {:induction false} AlikeSame(s: seq<Primitive>, p: Primitive, q: Primitive)
    requires SameKeys(p, q)
    ensures Alike(s, p) == Alike(s, q)
  {
    if s != [] {
      AlikeSame(s[..|s| - 1], p, q);
    }
  }

  lemma PaintedBefore(ops: seq<PaintOperation>, i: nat, j: nat)
    requires i < j < |ops| && ops[i].Draw?
    ensures var p := ops[i].primitive; |Alike(Painted(ops[..i]), p)| < |Alike(Painted(ops[..j]), p)|
  {
    hide Painted, Alike, SameKeys;
    var p, before, later := ops[i].primitive, Painted(ops[..i]), Painted(ops[..j]);
    PaintedGrow(ops, i, j);
    Reflexive(p);
    AlikeSnoc(before, p, p);
    AlikeGrow(later, p, |before| + 1, |later|);
    assert later[..|before| + 1] == before + [p] && later[..|later|] == later;
  }
}
