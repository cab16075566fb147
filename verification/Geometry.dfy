/** Points and axis-aligned bounds, as far as the bounds tree and the scene use them.
    Coordinates are exact reals; a bounds is stored as origin and size, as in src/geometry.rs. */
module Geometry {

  datatype Point = Point(x: real, y: real) {
    function Max(other: Point): Point {
      Point(if x > other.x then x else other.x, if y > other.y then y else other.y)
    }

    function Min(other: Point): Point {
      Point(if x <= other.x then x else other.x, if y <= other.y then y else other.y)
    }
  }

  datatype Size = Size(width: real, height: real)

  datatype Bounds = Bounds(origin: Point, size: Size) {
    static function FromCorners(topLeft: Point, bottomRight: Point): Bounds {
      Bounds(topLeft, Size(bottomRight.x - topLeft.x, bottomRight.y - topLeft.y))
    }

    function BottomRight(): Point {
      Point(origin.x + size.width, origin.y + size.height)
    }

    predicate Intersects(other: Bounds) {
      && origin.x < other.BottomRight().x
      && BottomRight().x > other.origin.x
      && origin.y < other.BottomRight().y
      && BottomRight().y > other.origin.y
    }

    function Intersect(other: Bounds): Bounds {
      FromCorners(origin.Max(other.origin), BottomRight().Min(other.BottomRight()))
    }

    function Union(other: Bounds): Bounds {
      FromCorners(origin.Min(other.origin), BottomRight().Max(other.BottomRight()))
    }

    function HalfPerimeter(): real {
      size.width + size.height
    }

    predicate IsEmpty() {
      size.width <= 0.0 || size.height <= 0.0
    }

    /** `this` extends at least as far as `inner` on all four sides. */
    predicate Covers(inner: Bounds) {
      && origin.x <= inner.origin.x
      && origin.y <= inner.origin.y
      && BottomRight().x >= inner.BottomRight().x
      && BottomRight().y >= inner.BottomRight().y
    }

    /** `p` lies strictly inside `this`. */
    predicate Interior(p: Point) {
      && origin.x < p.x < BottomRight().x
      && origin.y < p.y < BottomRight().y
    }
  }

  /** What a union is for: it is the least bounds covering both operands. */
  lemma UnionIsLeastCover(a: Bounds, b: Bounds, c: Bounds)
    ensures a.Union(b).Covers(a) && a.Union(b).Covers(b)
    ensures c.Covers(a.Union(b)) <==> c.Covers(a) && c.Covers(b)
  {
    var u := a.Union(b);
    assert u.BottomRight() == a.BottomRight().Max(b.BottomRight());
  }

  lemma CoversTransitive(a: Bounds, b: Bounds, c: Bounds)
    requires a.Covers(b) && b.Covers(c)
    ensures a.Covers(c)
  {
  }

  /** An intersection query against a covering bounds never misses: this is what makes pruning sound. */
  lemma CoverPreservesIntersection(outer: Bounds, inner: Bounds, probe: Bounds)
    requires outer.Covers(inner) && probe.Intersects(inner)
    ensures probe.Intersects(outer)
  {
  }

  /** `Intersect` is the overlap: a point is inside it exactly when it is inside both operands. */
  lemma IntersectIsOverlap(a: Bounds, b: Bounds, p: Point)
    ensures a.Intersect(b).Interior(p) <==> a.Interior(p) && b.Interior(p)
  {
    var i := a.Intersect(b);
    assert i.BottomRight() == a.BottomRight().Min(b.BottomRight());
  }

  /** For bounds with area, `Intersects` says exactly that the overlap has area,
      and then some point lies inside both. */
  lemma IntersectsIsCommonArea(a: Bounds, b: Bounds)
    requires !a.IsEmpty() && !b.IsEmpty()
    ensures a.Intersects(b) <==> !a.Intersect(b).IsEmpty()
    ensures a.Intersects(b) <==> exists p :: a.Interior(p) && b.Interior(p)
  {
    var i := a.Intersect(b);
    assert i.BottomRight() == a.BottomRight().Min(b.BottomRight());
    if !i.IsEmpty() {
      var p := Point(i.origin.x + i.size.width / 2.0, i.origin.y + i.size.height / 2.0);
      assert i.Interior(p);
      IntersectIsOverlap(a, b, p);
    }
    forall p | a.Interior(p) && b.Interior(p)
      ensures a.Intersects(b)
    {
      IntersectIsOverlap(a, b, p);
    }
  }
}
