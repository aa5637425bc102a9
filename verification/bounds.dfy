/** Axis-aligned bounds in layout space: the bound of a node, the bound of
    the visible viewport, and the inclusive overlap test between them. */
module Bounds {
  import opened Transforms
  import opened Layout
  import opened RealArith

  /** `[minX, minY, maxX, maxY]`, the array layout the zoom code uses. */
  datatype Bound = Bound(minX: real, minY: real, maxX: real, maxY: real)

  predicate WellFormed(b: Bound) {
    b.minX <= b.maxX && b.minY <= b.maxY
  }

  predicate ContainsPoint(b: Bound, p: Point) {
    b.minX <= p.x <= b.maxX && b.minY <= p.y <= b.maxY
  }

  predicate ContainsBound(outer: Bound, inner: Bound) {
    outer.minX <= inner.minX && inner.maxX <= outer.maxX &&
    outer.minY <= inner.minY && inner.maxY <= outer.maxY
  }

  /** `Math.min` */
  function Min(a: real, b: real): (m: real)
    ensures m <= a && m <= b && (m == a || m == b)
  {
    if a <= b then a else b
  }

  /** `Math.max` */
  function Max(a: real, b: real): (m: real)
    ensures a <= m && b <= m && (m == a || m == b)
  {
    if a <= b then b else a
  }

  /** The box around a node's circle. */
  function NodeBound(n: Node): (b: Bound)
    ensures (b.minX + b.maxX) / 2.0 == n.x && (b.minY + b.maxY) / 2.0 == n.y
    ensures b.maxX - b.minX == 2.0 * n.r && b.maxY - b.minY == 2.0 * n.r
    ensures n.r >= 0.0 ==> WellFormed(b) && ContainsPoint(b, Point(n.x, n.y))
  {
    Bound(n.x - n.r, n.y - n.r, n.x + n.r, n.y + n.r)
  }

  /** Inclusive rectangle intersection: touching edges count as overlap. */
  predicate Overlap(b0: Bound, b1: Bound) {
    b0.minX <= b1.maxX &&
    b0.maxX >= b1.minX &&
    b0.minY <= b1.maxY &&
    b0.maxY >= b1.minY
  }

  /** The two boxes lie strictly apart along the x axis or along the y axis. */
  predicate Separated(b0: Bound, b1: Bound) {
    b0.maxX < b1.minX || b1.maxX < b0.minX ||
    b0.maxY < b1.minY || b1.maxY < b0.minY
  }

  /** The layout-space box shown by a `width` x `height` viewport under `t`.
      Its sides are `min(w, h) * max(w / h, 1)` and `min(w, h) * max(h / w, 1)`
      before scaling, which for a positive viewport are just `width` and
      `height`. */
  function ViewBound(width: real, height: real, t: Transform): (b: Bound)
    requires width != 0.0 && height != 0.0 && t.k != 0.0
    ensures width > 0.0 && height > 0.0 ==>
      b == Bound(-t.x / t.k, -t.y / t.k, (-t.x + width) / t.k, (-t.y + height) / t.k)
    ensures width > 0.0 && height > 0.0 && t.k > 0.0 ==>
      WellFormed(b) && b.maxX - b.minX == width / t.k && b.maxY - b.minY == height / t.k
  {
    var size := Min(width, height);
    var boundWidth := SideLength(size, width, height);
    var boundHeight := SideLength(size, height, width);
    var b := Bound(-t.x / t.k, -t.y / t.k, (-t.x + boundWidth) / t.k, (-t.y + boundHeight) / t.k);
    assert width > 0.0 && height > 0.0 ==>
      (-t.x + boundWidth) / t.k == (-t.x + width) / t.k &&
      (-t.y + boundHeight) / t.k == (-t.y + height) / t.k
    by {
      if width > 0.0 && height > 0.0 {
        DivCongruence(-t.x + boundWidth, -t.x + width, t.k);
        DivCongruence(-t.y + boundHeight, -t.y + height, t.k);
      }
    }
    assert width > 0.0 && height > 0.0 && t.k > 0.0 ==>
      (-t.x + width) / t.k - -t.x / t.k == width / t.k && -t.x / t.k <= (-t.x + width) / t.k &&
      (-t.y + height) / t.k - -t.y / t.k == height / t.k && -t.y / t.k <= (-t.y + height) / t.k
    by {
      if width > 0.0 && height > 0.0 && t.k > 0.0 {
        DivSpan(-t.x, width, t.k);
        DivSpan(-t.y, height, t.k);
      }
    }
    b
  }

  /** One side of the view box before scaling, `size * max(side / other, 1)`
      with `size = min(side, other)`: for a positive viewport it is `side`. */
  function SideLength(size: real, side: real, other: real): (s: real)
    requires other != 0.0
    ensures size == Min(side, other) && side > 0.0 && other > 0.0 ==> s == side
  {
    SideLengthIsSide(size, side, other);
    size * Max(side / other, 1.0)
  }

  lemma SideLengthIsSide(size: real, side: real, other: real)
    requires other != 0.0
    ensures size == Min(side, other) && side > 0.0 && other > 0.0 ==>
      size * Max(side / other, 1.0) == side
  {
    if size == Min(side, other) && side > 0.0 && other > 0.0 {
      if side <= other {
        RatioAtMostOne(side, other);
        MulOne(size);
      } else {
        RatioAtLeastOne(side, other);
        MulDivCancel(other, side);
      }
    }
  }

  lemma OverlapSymmetric(b0: Bound, b1: Bound)
    ensures Overlap(b0, b1) <==> Overlap(b1, b0)
  {
  }

  lemma OverlapReflexive(b: Bound)
    requires WellFormed(b)
    ensures Overlap(b, b)
  {
  }

  /** The overlap test fails exactly when the boxes are strictly apart on
      some axis. */
  lemma OverlapIffNotSeparated(b0: Bound, b1: Bound)
    ensures Overlap(b0, b1) <==> !Separated(b0, b1)
  {
  }

  /** For well-formed boxes the overlap test is the geometric one: the boxes
      share a point. */
  lemma OverlapIffCommonPoint(b0: Bound, b1: Bound)
    requires WellFormed(b0) && WellFormed(b1)
    ensures Overlap(b0, b1) <==> exists p :: ContainsPoint(b0, p) && ContainsPoint(b1, p)
  {
    if Overlap(b0, b1) {
      var p := Point(Max(b0.minX, b1.minX), Max(b0.minY, b1.minY));
      assert ContainsPoint(b0, p) && ContainsPoint(b1, p);
    }
  }

  /** Every point of a node's disk lies in its bound, so culling by bound
      never drops a node part of whose disk is in view. */
  lemma DiskInsideNodeBound(n: Node, p: Point)
    requires n.r >= 0.0
    requires (p.x - n.x) * (p.x - n.x) + (p.y - n.y) * (p.y - n.y) <= n.r * n.r
    ensures ContainsPoint(NodeBound(n), p)
  {
    SquareBound(p.x - n.x, n.r, (p.y - n.y) * (p.y - n.y));
    SquareBound(p.y - n.y, n.r, (p.x - n.x) * (p.x - n.x));
  }

  /** The view bound spans the layout points `t` draws at the screen's
      top-left corner `(0, 0)` and bottom-right corner `(width, height)`. */
  lemma ViewBoundCorners(width: real, height: real, t: Transform)
    requires width > 0.0 && height > 0.0 && t.k != 0.0
    ensures
      var b := ViewBound(width, height, t);
      && Point(b.minX, b.minY) == Invert(t, Point(0.0, 0.0))
      && Point(b.maxX, b.maxY) == Invert(t, Point(width, height))
  {
    DivCongruence(0.0 - t.x, -t.x, t.k);
    DivCongruence(0.0 - t.y, -t.y, t.k);
    DivCongruence(width - t.x, -t.x + width, t.k);
    DivCongruence(height - t.y, -t.y + height, t.k);
  }

  /** A layout point lies in the view bound exactly when `t` draws it inside
      the `width` x `height` screen rectangle. */
  lemma ViewBoundIsVisibleRegion(width: real, height: real, t: Transform, p: Point)
    requires width > 0.0 && height > 0.0 && t.k > 0.0
    ensures ContainsPoint(ViewBound(width, height, t), p) <==>
      (0.0 <= Apply(t, p).x <= width && 0.0 <= Apply(t, p).y <= height)
  {
    var b := ViewBound(width, height, t);
    assert b == Bound(-t.x / t.k, -t.y / t.k, (-t.x + width) / t.k, (-t.y + height) / t.k);
    ScaledIntervalIff(p.x, t.x, t.k, width);
    ScaledIntervalIff(p.y, t.y, t.k, height);
  }
}
