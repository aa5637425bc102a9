/** The zoom constraints derived once from the layout and the viewport:
    the allowed range of scales and the allowed range of panning. */
module Extents {
  import opened Layout
  import opened Bounds
  import opened RealArith

  /** Room left around a node that is zoomed into, as a fraction of its
      diameter (`viewPadding`). */
  const ViewPadding: real := 0.25

  /** `packedData.leaves()[0]` on an empty leaf list raises a TypeError. */
  datatype ConfigError = NoLeaves

  datatype Result<T> = Ok(value: T) | Err(error: ConfigError)

  /** `[kMin, kMax]` */
  datatype ScaleExtent = ScaleExtent(kMin: real, kMax: real)

  /** What the zoom behaviour is configured with: the scale extent and the
      translate extent `[[minX, minY], [maxX, maxY]]`, kept as a bound. */
  datatype Constraints = Constraints(scale: ScaleExtent, translate: Bound)

  /** `min(width, height) / (r * 2 * (1 + viewPadding))`: the scale at which
      a circle of radius `r`, padded by `ViewPadding`, just fills the
      smaller side of the viewport. */
  function PaddedScale(width: real, height: real, r: real): (k: real)
    requires r != 0.0
    ensures k * (r * 2.0 * (1.0 + ViewPadding)) == Min(width, height)
    ensures r > 0.0 && width > 0.0 && height > 0.0 ==> k > 0.0
  {
    Min(width, height) / (r * 2.0 * (1.0 + ViewPadding))
  }

  /** The scale extent: at `kMin` the root circle's diameter fills the
      smaller side of the viewport; `kMax` is the padded scale of the first
      leaf in the layout's leaf order. */
  function ScaleExtentOf(width: real, height: real, data: PackedData): (r: Result<ScaleExtent>)
    requires data.root.r != 0.0
    requires |data.leaves| > 0 ==> data.leaves[0].r != 0.0
    ensures r.Err? <==> |data.leaves| == 0
    ensures r.Ok? ==> r.value.kMin * (data.root.r * 2.0) == Min(width, height)
    ensures r.Ok? ==> r.value.kMax == PaddedScale(width, height, data.leaves[0].r)
  {
    if |data.leaves| == 0 then Err(NoLeaves)
    else
      var kMin := Min(width, height) / (data.root.r * 2.0);
      Ok(ScaleExtent(kMin, PaddedScale(width, height, data.leaves[0].r)))
  }

  /** The translate extent: a box centred on the root whose half-sides are
      `width / 2 / kMin * 2` and `height / 2 / kMin * 2`, i.e. a full
      viewport at minimum zoom on each side of the root centre. */
  function TranslateExtentOf(width: real, height: real, root: Node, kMin: real): (b: Bound)
    requires kMin != 0.0
    ensures (b.minX + b.maxX) / 2.0 == root.x && (b.minY + b.maxY) / 2.0 == root.y
    ensures b.maxX - root.x == width / kMin && b.maxY - root.y == height / kMin
    ensures width >= 0.0 && height >= 0.0 && kMin > 0.0 ==> WellFormed(b)
  {
    Bound(
      root.x - width / 2.0 / kMin * 2.0,
      root.y - height / 2.0 / kMin * 2.0,
      root.x + width / 2.0 / kMin * 2.0,
      root.y + height / 2.0 / kMin * 2.0)
  }

  /** The scale and translate extents `setupZoom` configures the zoom
      behaviour with. */
  function ZoomConstraints(width: real, height: real, data: PackedData): (r: Result<Constraints>)
    requires data.root.r != 0.0 && Min(width, height) != 0.0
    requires |data.leaves| > 0 ==> data.leaves[0].r != 0.0
    ensures r.Err? <==> |data.leaves| == 0
    ensures r.Ok? ==> ScaleExtentOf(width, height, data) == Ok(r.value.scale)
    ensures r.Ok? ==> r.value.translate == TranslateExtentOf(width, height, data.root, r.value.scale.kMin)
  {
    match ScaleExtentOf(width, height, data)
    case Err(e) => Err(e)
    case Ok(scale) =>
      Ok(Constraints(scale, TranslateExtentOf(width, height, data.root, scale.kMin)))
  }

  /** A root at least as large as the padded first leaf gives a non-empty
      scale range. */
  lemma ScaleExtentOrdered(width: real, height: real, data: PackedData)
    requires width > 0.0 && height > 0.0
    requires |data.leaves| > 0
    requires 0.0 < data.leaves[0].r * (1.0 + ViewPadding) <= data.root.r
    ensures ScaleExtentOf(width, height, data).Ok?
    ensures ScaleExtentOf(width, height, data).value.kMin <= ScaleExtentOf(width, height, data).value.kMax
  {
    var m := Min(width, height);
    var leafSide := data.leaves[0].r * 2.0 * (1.0 + ViewPadding);
    assert leafSide <= data.root.r * 2.0;
    DivAntitone(m, leafSide, data.root.r * 2.0);
  }

  /** The whole root circle lies inside the translate extent, so the root
      can always be panned to. */
  lemma RootInsideTranslateExtent(width: real, height: real, data: PackedData)
    requires width > 0.0 && height > 0.0 && data.root.r > 0.0
    requires |data.leaves| > 0 && data.leaves[0].r != 0.0
    ensures ZoomConstraints(width, height, data).Ok?
    ensures ContainsBound(ZoomConstraints(width, height, data).value.translate, NodeBound(data.root))
  {
    var c := ZoomConstraints(width, height, data).value;
    var kMin := c.scale.kMin;
    var m := Min(width, height);
    var r := data.root.r;
    assert kMin * (r * 2.0) == m;
    var rk := r * kMin;
    assert rk * 2.0 == m;
    assert kMin > 0.0 by {
      if kMin <= 0.0 {
        NonPositiveProduct(kMin, r * 2.0);
        assert false;
      }
    }
    LeDivIff(r, width, kMin);
    LeDivIff(r, height, kMin);
  }
}
