/** d3-zoom's view transform, modelled over the reals.

    d3's own transform code is not part of this model. What the zoom logic
    relies on is taken as a stated assumption about d3 and written out here:
    - `zoomIdentity` is `(k, x, y) = (1, 0, 0)`;
    - `t.scale(s)` on `(k, x, y)` is `(k * s, x, y)`;
    - `t.translate(tx, ty)` on `(k, x, y)` is `(k, x + k * tx, y + k * ty)`;
    - a layout point `p` is drawn on screen at `p * k + (x, y)`.
    The lemmas below show that these four statements agree with each other:
    the identity draws every point where it is and is neutral for
    composition, and scaling and translating are both composition on the
    right. */
module Transforms {
  import opened RealArith

  /** A point in layout space or in screen space. */
  datatype Point = Point(x: real, y: real)

  /** A zoom transform `{x, y, k}`: uniform scale by `k`, then translation
      by `(x, y)`. */
  datatype Transform = Transform(k: real, x: real, y: real)

  /** d3's `zoomIdentity`. */
  const Identity: Transform := Transform(1.0, 0.0, 0.0)

  /** Where `t` draws the layout point `p`: `p * k + (x, y)`. */
  function Apply(t: Transform, p: Point): Point {
    Point(p.x * t.k + t.x, p.y * t.k + t.y)
  }

  /** d3's `t.scale(s)`. */
  function Scale(t: Transform, s: real): Transform {
    Transform(t.k * s, t.x, t.y)
  }

  /** d3's `t.translate(tx, ty)`: a translation expressed in the units of
      the space `t` maps from. */
  function Translate(t: Transform, tx: real, ty: real): Transform {
    Transform(t.k, t.x + t.k * tx, t.y + t.k * ty)
  }

  /** The transform of an element nested inside an element transformed by
      `outer`, when the nested element carries `inner` itself. */
  function Compose(outer: Transform, inner: Transform): (c: Transform)
    ensures c.k == outer.k * inner.k
  {
    Transform(outer.k * inner.k, outer.x + outer.k * inner.x, outer.y + outer.k * inner.y)
  }

  /** The layout point that `t` draws at the screen point `s`. */
  function Invert(t: Transform, s: Point): (p: Point)
    requires t.k != 0.0
    ensures Apply(t, p) == s
  {
    DivMulCancel(s.x - t.x, t.k);
    DivMulCancel(s.y - t.y, t.k);
    Point((s.x - t.x) / t.k, (s.y - t.y) / t.k)
  }

  /** Drawing with a composed transform is drawing with the inner one and
      then with the outer one. */
  lemma ComposeApply(outer: Transform, inner: Transform, p: Point)
    ensures Apply(Compose(outer, inner), p) == Apply(outer, Apply(inner, p))
  {
    var c := Compose(outer, inner);
    assert c.k == outer.k * inner.k && c.x == outer.x + outer.k * inner.x && c.y == outer.y + outer.k * inner.y;
    var q := Apply(inner, p);
    assert q.x == p.x * inner.k + inner.x && q.y == p.y * inner.k + inner.y;
    assert Apply(c, p).x == Apply(outer, q).x by {
      ComposeArith(p.x, inner.k, inner.x, outer.k, outer.x);
    }
    assert Apply(c, p).y == Apply(outer, q).y by {
      ComposeArith(p.y, inner.k, inner.y, outer.k, outer.y);
    }
  }

  /** `zoomIdentity` draws every layout point where it is, and nesting inside
      or around it changes nothing. */
  lemma IdentityNeutral(t: Transform, p: Point)
    ensures Apply(Identity, p) == p
    ensures Compose(Identity, t) == t && Compose(t, Identity) == t
  {
    MulOne(p.x);
    MulOne(p.y);
    MulOne(t.k);
    MulZero(t.k);
  }

  /** `t.translate(tx, ty)` shifts the layout point by `(tx, ty)` before `t`
      draws it. */
  lemma TranslateApply(t: Transform, tx: real, ty: real, p: Point)
    ensures Translate(t, tx, ty) == Compose(t, Transform(1.0, tx, ty))
    ensures Apply(Translate(t, tx, ty), p) == Apply(t, Point(p.x + tx, p.y + ty))
  {
    MulOne(t.k);
    ShiftArith(p.x, tx, t.k, t.x);
    ShiftArith(p.y, ty, t.k, t.y);
  }

  /** `t.scale(s)` scales the layout point by `s` before `t` draws it. */
  lemma ScaleApply(t: Transform, s: real, p: Point)
    ensures Scale(t, s) == Compose(t, Transform(s, 0.0, 0.0))
    ensures Apply(Scale(t, s), p) == Apply(t, Point(p.x * s, p.y * s))
  {
    MulZero(t.k);
    MulSwap(p.x, s, t.k);
    MulSwap(p.y, s, t.k);
  }
}
