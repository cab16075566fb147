/** Affine transformations of a scene: matrices, points and bounds (src/scene.rs), over exact reals. */
module Transform {
  import opened Geometry

  // One coordinate of an affine image.
  function Row(t: real, u: real, v: real, p: Point): real {
    t + u * p.x + v * p.y
  }

  datatype Matrix = Matrix(xx: real, xy: real, yx: real, yy: real, tx: real, ty: real) {
    static function Unit(): Matrix {
      Matrix(1.0, 0.0, 0.0, 1.0, 0.0, 0.0)
    }

    function Compose(other: Matrix): Matrix {
      if other == Unit() then this
      else
        Matrix(xx * other.xx + xy * other.yx, xx * other.xy + xy * other.yy,
               yx * other.xx + yy * other.yx, yx * other.xy + yy * other.yy,
               tx + xx * other.tx + xy * other.ty,
               ty + yx * other.tx + yy * other.ty)
    }

    function Apply(p: Point): Point {
      Point(Row(tx, xx, xy, p), Row(ty, yx, yy, p))
    }
  }

  function Scaled(x: real, scale: real): real {
    x * scale
  }

  function TransformPoint(p: Point, scale: real, translation: Point): Point {
    Point(Scaled(p.x, scale) + translation.x, Scaled(p.y, scale) + translation.y)
  }

  function TransformBounds(b: Bounds, scale: real, translation: Point): Bounds {
    Bounds(TransformPoint(b.origin, scale, translation),
      Size(Scaled(b.size.width, scale), Scaled(b.size.height, scale)))
  }

  // The matrix of `TransformPoint`, and its inverse.
  function Global(scale: real, translation: Point): Matrix {
    Matrix(scale, 0.0, 0.0, scale, translation.x, translation.y)
  }

  function Inverse(scale: real, translation: Point): Matrix
    requires scale != 0.0
  {
    var inverseScale := 1.0 / scale;
    Matrix(inverseScale, 0.0, 0.0, inverseScale, -translation.x * inverseScale, -translation.y * inverseScale)
  }

  function Conjugate(m: Matrix, scale: real, translation: Point): Matrix
    requires scale != 0.0
  {
    Global(scale, translation).Compose(m).Compose(Inverse(scale, translation))
  }

  /** Composition is what it says: first `other`, then `self`; the shortcut for the unit agrees. */
  lemma ComposeApplies(a: Matrix, b: Matrix, p: Point)
    ensures a.Compose(b).Apply(p) == a.Apply(b.Apply(p))
  {
    if b == Matrix.Unit() {
      UnitApplies(p);
    } else {
      ComposeRow(a.xx, a.xy, a.tx, b, p);
      ComposeRow(a.yx, a.yy, a.ty, b, p);
    }
  }

  lemma UnitApplies(p: Point)
    ensures Matrix.Unit().Apply(p) == p
  {
  }

  lemma ComposeRow(u: real, v: real, t: real, b: Matrix, p: Point)
    ensures Row(t + u * b.tx + v * b.ty, u * b.xx + v * b.yx, u * b.xy + v * b.yy, p) == Row(t, u, v, b.Apply(p))
  {
    RowScales(u, b.tx, b.xx, b.xy, p);
    RowScales(v, b.ty, b.yx, b.yy, p);
    RowAdds(t, u * b.tx, u * b.xx, u * b.xy, v * b.ty, v * b.yx, v * b.yy, p);
  }

  lemma RowScales(c: real, t: real, u: real, v: real, p: Point)
    ensures c * Row(t, u, v, p) == Row(c * t, c * u, c * v, p)
  {
    assert c * (u * p.x) == (c * u) * p.x;
    assert c * (v * p.y) == (c * v) * p.y;
    assert c * (t + u * p.x + v * p.y) == c * t + c * (u * p.x) + c * (v * p.y);
  }

  lemma RowAdds(t: real, t1: real, u1: real, v1: real, t2: real, u2: real, v2: real, p: Point)
    ensures t + Row(t1, u1, v1, p) + Row(t2, u2, v2, p) == Row(t + t1 + t2, u1 + u2, v1 + v2, p)
  {
    assert (u1 + u2) * p.x == u1 * p.x + u2 * p.x;
    assert (v1 + v2) * p.y == v1 * p.y + v2 * p.y;
  }

  /** Transforming a primitive and its matrix together commutes with drawing it:
      the conjugated matrix sends the moved point to the moved image. */
  lemma ConjugateCommutes(m: Matrix, scale: real, translation: Point, p: Point)
    requires scale != 0.0
    ensures Conjugate(m, scale, translation).Apply(TransformPoint(p, scale, translation))
         == TransformPoint(m.Apply(p), scale, translation)
  {
    hide Matrix.Apply, Matrix.Compose, TransformPoint, Global, Inverse;
    var global, inverse := Global(scale, translation), Inverse(scale, translation);
    var moved := TransformPoint(p, scale, translation);
    InverseApplies(p, scale, translation);
    GlobalApplies(m.Apply(p), scale, translation);
    ComposeApplies(global.Compose(m), inverse, moved);
    ComposeApplies(global, m, p);
  }

  lemma GlobalApplies(p: Point, scale: real, translation: Point)
    ensures Global(scale, translation).Apply(p) == TransformPoint(p, scale, translation)
  {
  }

  lemma InverseApplies(p: Point, scale: real, translation: Point)
    requires scale != 0.0
    ensures Inverse(scale, translation).Apply(TransformPoint(p, scale, translation)) == p
  {
    InverseUndoes(p.x, scale, translation.x);
    InverseUndoes(p.y, scale, translation.y);
  }

  lemma InverseUndoes(x: real, scale: real, t: real)
    requires scale != 0.0
    ensures -t * (1.0 / scale) + (1.0 / scale) * (Scaled(x, scale) + t) == x
  {
    var i := 1.0 / scale;
    assert i * scale == 1.0;
    assert i * (x * scale) == x * (i * scale);
    assert i * (x * scale + t) == i * (x * scale) + i * t;
    assert -t * i == -(i * t);
  }

  lemma ScaleMonotone(a: real, b: real, scale: real)
    requires scale > 0.0
    ensures a < b <==> Scaled(a, scale) < Scaled(b, scale)
  {
    if a < b {
      assert (b - a) * scale > 0.0;
    }
    if b < a {
      assert (a - b) * scale > 0.0;
    }
  }

  lemma ScaleAdds(a: real, b: real, scale: real)
    ensures Scaled(a + b, scale) == Scaled(a, scale) + Scaled(b, scale)
    ensures Scaled(a - b, scale) == Scaled(a, scale) - Scaled(b, scale)
  {
  }

  lemma TransformBottomRight(b: Bounds, scale: real, translation: Point)
    ensures TransformBounds(b, scale, translation).BottomRight() == TransformPoint(b.BottomRight(), scale, translation)
  {
    ScaleAdds(b.origin.x, b.size.width, scale);
    ScaleAdds(b.origin.y, b.size.height, scale);
    hide Scaled;
  }

  lemma TransformKeepsOrder(p: Point, q: Point, scale: real, translation: Point)
    requires scale > 0.0
    ensures var p', q' := TransformPoint(p, scale, translation), TransformPoint(q, scale, translation);
      && (p.x < q.x <==> p'.x < q'.x) && (q.x < p.x <==> q'.x < p'.x)
      && (p.y < q.y <==> p'.y < q'.y) && (q.y < p.y <==> q'.y < p'.y)
  {
    ScaleMonotone(p.x, q.x, scale);
    ScaleMonotone(q.x, p.x, scale);
    ScaleMonotone(p.y, q.y, scale);
    ScaleMonotone(q.y, p.y, scale);
    hide Scaled;
  }

  /** A positive scale and a translation change neither who overlaps whom ... */
  lemma TransformKeepsIntersects(a: Bounds, b: Bounds, scale: real, translation: Point)
    requires scale > 0.0
    ensures TransformBounds(a, scale, translation).Intersects(TransformBounds(b, scale, translation))
        <==> a.Intersects(b)
  {
    TransformBottomRight(a, scale, translation);
    TransformBottomRight(b, scale, translation);
    TransformKeepsOrder(a.origin, b.BottomRight(), scale, translation);
    TransformKeepsOrder(a.BottomRight(), b.origin, scale, translation);
    hide TransformPoint;
  }

  /** ... nor what clipping leaves, nor whether it leaves anything. */
  lemma TransformKeepsClip(a: Bounds, b: Bounds, scale: real, translation: Point)
    requires scale > 0.0
    ensures TransformBounds(a, scale, translation).Intersect(TransformBounds(b, scale, translation))
         == TransformBounds(a.Intersect(b), scale, translation)
    ensures TransformBounds(a.Intersect(b), scale, translation).IsEmpty() <==> a.Intersect(b).IsEmpty()
  {
    TransformBottomRight(a, scale, translation);
    TransformBottomRight(b, scale, translation);
    FromCornersTransforms(a.origin.Max(b.origin), a.BottomRight().Min(b.BottomRight()), scale, translation);
    TransformKeepsEmpty(a.Intersect(b), scale, translation);
    hide Scaled, TransformPoint, Bounds.BottomRight, Bounds.FromCorners, Bounds.IsEmpty;
    MaxTransforms(a.origin, b.origin, scale, translation);
    MinTransforms(a.BottomRight(), b.BottomRight(), scale, translation);
    hide TransformBounds, Point.Max, Point.Min;
  }

  lemma MaxTransforms(p: Point, q: Point, scale: real, translation: Point)
    requires scale > 0.0
    ensures TransformPoint(p, scale, translation).Max(TransformPoint(q, scale, translation))
         == TransformPoint(p.Max(q), scale, translation)
  {
    TransformKeepsOrder(p, q, scale, translation);
    hide Scaled;
  }

  lemma MinTransforms(p: Point, q: Point, scale: real, translation: Point)
    requires scale > 0.0
    ensures TransformPoint(p, scale, translation).Min(TransformPoint(q, scale, translation))
         == TransformPoint(p.Min(q), scale, translation)
  {
    TransformKeepsOrder(p, q, scale, translation);
    hide Scaled;
  }

  lemma TransformKeepsEmpty(b: Bounds, scale: real, translation: Point)
    requires scale > 0.0
    ensures TransformBounds(b, scale, translation).IsEmpty() <==> b.IsEmpty()
  {
    ScaleMonotone(0.0, b.size.width, scale);
    ScaleMonotone(0.0, b.size.height, scale);
    assert Scaled(0.0, scale) == 0.0;
    hide Scaled;
  }

  lemma FromCornersTransforms(p: Point, q: Point, scale: real, translation: Point)
    ensures Bounds.FromCorners(TransformPoint(p, scale, translation), TransformPoint(q, scale, translation))
         == TransformBounds(Bounds.FromCorners(p, q), scale, translation)
  {
    ScaleAdds(q.x, p.x, scale);
    ScaleAdds(q.y, p.y, scale);
    hide Scaled;
  }
}
