/** The zoom controller: the transform `zoomTo` aims at, and what one
    transform change (`zoomToTransform`) writes to the nodes. */
module Zoom {
  import opened Transforms
  import opened Layout
  import opened Bounds
  import opened Culling
  import opened Labels
  import opened Extents
  import opened RealArith

  /** `zoomTo`'s target: the node's padded scale, translated so that the
      node's centre is drawn at the centre of the viewport. */
  function ZoomTo(width: real, height: real, n: Node): (t: Transform)
    requires n.r != 0.0 && Min(width, height) != 0.0
    ensures t.k == PaddedScale(width, height, n.r)
    ensures n.r > 0.0 && width > 0.0 && height > 0.0 ==> t.k > 0.0
    ensures Apply(t, Point(n.x, n.y)) == Point(width / 2.0, height / 2.0)
  {
    var k := PaddedScale(width, height, n.r);
    assert k != 0.0;
    var t := Translate(Scale(Identity, k), -n.x + width / 2.0 / k, -n.y + height / 2.0 / k);
    assert n.x * k + k * (-n.x + width / 2.0 / k) == width / 2.0;
    assert n.y * k + k * (-n.y + height / 2.0 / k) == height / 2.0;
    t
  }

  /** After `zoomTo`, the node's circle grown by `ViewPadding` lies inside
      the view bound: the whole node is on screen with room around it. */
  lemma ZoomToFramesNode(width: real, height: real, n: Node)
    requires n.r > 0.0 && width > 0.0 && height > 0.0
    ensures
      var t := ZoomTo(width, height, n);
      ContainsBound(ViewBound(width, height, t), NodeBound(n.(r := n.r * (1.0 + ViewPadding))))
  {
    CentredAtPaddedScaleFrames(width, height, n, ZoomTo(width, height, n));
  }

  /** Any transform at the node's padded scale that draws the node's centre
      at the viewport centre shows the whole padded node. */
  lemma CentredAtPaddedScaleFrames(width: real, height: real, n: Node, t: Transform)
    requires n.r > 0.0 && width > 0.0 && height > 0.0
    requires t.k == PaddedScale(width, height, n.r)
    requires Apply(t, Point(n.x, n.y)) == Point(width / 2.0, height / 2.0)
    ensures ContainsBound(ViewBound(width, height, t), NodeBound(n.(r := n.r * (1.0 + ViewPadding))))
  {
    var b := NodeBound(n.(r := n.r * (1.0 + ViewPadding)));
    var lo, hi := Point(b.minX, b.minY), Point(b.maxX, b.maxY);
    var screenR := PaddedCornersOnScreen(width, height, n, t);
    ViewBoundIsVisibleRegion(width, height, t, lo);
    ViewBoundIsVisibleRegion(width, height, t, hi);
  }

  /** Under such a transform the corners of the padded node's bound are
      drawn half the smaller viewport side away from the viewport centre. */
  lemma PaddedCornersOnScreen(width: real, height: real, n: Node, t: Transform) returns (screenR: real)
    requires n.r > 0.0 && width > 0.0 && height > 0.0
    requires t.k == PaddedScale(width, height, n.r)
    requires Apply(t, Point(n.x, n.y)) == Point(width / 2.0, height / 2.0)
    ensures screenR * 2.0 == Min(width, height)
    ensures
      var b := NodeBound(n.(r := n.r * (1.0 + ViewPadding)));
      && Apply(t, Point(b.minX, b.minY)) == Point(width / 2.0 - screenR, height / 2.0 - screenR)
      && Apply(t, Point(b.maxX, b.maxY)) == Point(width / 2.0 + screenR, height / 2.0 + screenR)
  {
    var b := NodeBound(n.(r := n.r * (1.0 + ViewPadding)));
    var lo, hi := Point(b.minX, b.minY), Point(b.maxX, b.maxY);
    screenR := PaddedRadiusOnScreen(width, height, n, t.k);
    OffsetArith(n.x, n.r * (1.0 + ViewPadding), t.k, t.x);
    OffsetArith(n.y, n.r * (1.0 + ViewPadding), t.k, t.y);
    assert n.x * t.k + t.x == width / 2.0 && n.y * t.k + t.y == height / 2.0;
    assert Apply(t, lo).x == (n.x - n.r * (1.0 + ViewPadding)) * t.k + t.x;
    assert Apply(t, lo).y == (n.y - n.r * (1.0 + ViewPadding)) * t.k + t.y;
    assert Apply(t, hi).x == (n.x + n.r * (1.0 + ViewPadding)) * t.k + t.x;
    assert Apply(t, hi).y == (n.y + n.r * (1.0 + ViewPadding)) * t.k + t.y;
  }

  /** The padded radius `r * (1 + ViewPadding)` drawn at the node's padded
      scale is half the smaller side of the viewport. */
  lemma PaddedRadiusOnScreen(width: real, height: real, n: Node, k: real) returns (screenR: real)
    requires n.r != 0.0 && k == PaddedScale(width, height, n.r)
    ensures screenR == n.r * (1.0 + ViewPadding) * k
    ensures screenR * 2.0 == Min(width, height)
  {
    screenR := n.r * (1.0 + ViewPadding) * k;
    assert k * (n.r * 2.0 * (1.0 + ViewPadding)) == Min(width, height);
  }

  /** When the leaves are sorted by radius, ascending, `zoomTo` on any leaf
      never asks for more than `kMax`. */
  lemma LeafZoomWithinScaleExtent(width: real, height: real, data: PackedData, i: nat)
    requires width > 0.0 && height > 0.0 && data.root.r != 0.0
    requires i < |data.leaves| && data.leaves[0].r > 0.0
    requires forall a, b :: 0 <= a < b < |data.leaves| ==> data.leaves[a].r <= data.leaves[b].r
    ensures ZoomTo(width, height, data.leaves[i]).k <= ScaleExtentOf(width, height, data).value.kMax
  {
    var first := data.leaves[0].r * 2.0 * (1.0 + ViewPadding);
    var leaf := data.leaves[i].r * 2.0 * (1.0 + ViewPadding);
    if i > 0 {
      assert data.leaves[0].r <= data.leaves[i].r;
    }
    assert first <= leaf;
    DivAntitone(Min(width, height), first, leaf);
  }

  /** When the first leaf is not the smallest, `zoomTo` on a smaller leaf
      asks for a scale above `kMax`: a 1000 x 1000 viewport, root radius
      100, leaves of radius 10 then 5 give `kMax = 40` but a target scale
      of 80. */
  lemma UnsortedLeavesExceedScaleExtent()
    ensures
      var leaf := Node(0.0, 0.0, 5.0, 0.0, 0.0, "", 0);
      var data := PackedData(Node(0.0, 0.0, 100.0, 0.0, 0.0, "", 0),
                             [Node(0.0, 0.0, 10.0, 0.0, 0.0, "", 0), leaf]);
      && ScaleExtentOf(1000.0, 1000.0, data).value.kMax == 40.0
      && ZoomTo(1000.0, 1000.0, leaf).k == 80.0
  {
  }

  /** 800 x 600 viewport, node at (100, 50) of radius 20: scale 12 and
      translation `12 * (-100 + 400 / 12, -50 + 300 / 12)`. */
  lemma ZoomToExample()
    ensures ZoomTo(800.0, 600.0, Node(100.0, 50.0, 20.0, 0.0, 0.0, "", 0)) ==
      Transform(12.0, -800.0, -300.0)
  {
  }

  /** Root of radius 100 at the origin, one leaf of radius 10 at (50, 50),
      1000 x 1000 viewport: `kMin = 5` and `zoomTo(leaf)` has scale 40. */
  lemma EndToEndExample()
    ensures
      var leaf := Node(50.0, 50.0, 10.0, 0.0, 0.0, "", 0);
      var data := PackedData(Node(0.0, 0.0, 100.0, 0.0, 0.0, "", 0), [leaf]);
      && ScaleExtentOf(1000.0, 1000.0, data).value.kMin == 5.0
      && ZoomTo(1000.0, 1000.0, leaf).k == 40.0
  {
  }

  /** A shown label's width is the floor of its room in pixels, its text is
      what `fitText` returns for the label text and that width, and its
      placement counter-scales by `1 / k` and puts its origin at
      `(0, labelY)`. */
  predicate ShownLabelFitted(n: Node, t: Transform, u: LabelUpdate,
                             fitText: (string, int) -> string)
    requires u.LabelShown?
  {
    && u.width as real <= n.labelSize * t.k < u.width as real + 1.0
    && u.text == fitText(LabelText(n.fieldValue, n.count), u.width)
    && u.placement.k * t.k == 1.0
    && Apply(u.placement, Point(0.0, 0.0)) == Point(0.0, n.labelY)
  }

  /** What one transform change writes for one in-view node. */
  datatype NodeUpdate = NodeUpdate(node: Node, visibility: Visibility, labelUpdate: LabelUpdate)

  /** What `zoomToTransform` writes: the root group's transform and one
      update per in-view node, in node order. Out-of-view nodes get none. */
  datatype Frame = Frame(rootTransform: Transform, updates: seq<NodeUpdate>)

  /** `zoomToTransform`: set the root transform, cull to the view bound,
      then run `hideSmall` and `fitLabels` over the nodes in view.
      `labelHeight` and `fitText` stand for the measured label style. */
  function ZoomToTransform(nodes: seq<Node>, width: real, height: real, t: Transform,
                           labelHeight: real, fitText: (string, int) -> string): (f: Frame)
    requires width != 0.0 && height != 0.0 && t.k != 0.0
    ensures f.rootTransform == t
    ensures |f.updates| == |NodesInView(nodes, ViewBound(width, height, t))|
    ensures forall i :: 0 <= i < |f.updates| ==>
      f.updates[i].node == NodesInView(nodes, ViewBound(width, height, t))[i]
  {
    var kept := NodesInView(nodes, ViewBound(width, height, t));
    Frame(t, seq(|kept|, i requires 0 <= i < |kept| =>
      NodeUpdate(kept[i], HideSmall(kept[i], t), FitLabel(kept[i], t, labelHeight, fitText))))
  }

  /** A node is updated exactly when its bound overlaps the view, and every
      update hides the node iff its on-screen radius is below one pixel and
      shows its label iff the label fits vertically. A shown label carries
      the floor of its room in pixels as its width, the text `fitText`
      returns for the label text and that width, and a placement at scale
      `1 / k` that puts its origin at `(0, labelY)`. */
  lemma ZoomToTransformUpdates(nodes: seq<Node>, width: real, height: real, t: Transform,
                               labelHeight: real, fitText: (string, int) -> string, n: Node)
    requires width != 0.0 && height != 0.0 && t.k != 0.0
    ensures
      var f := ZoomToTransform(nodes, width, height, t, labelHeight, fitText);
      && ((exists u :: u in f.updates && u.node == n) <==>
          n in nodes && Overlap(ViewBound(width, height, t), NodeBound(n)))
      && (forall u :: u in f.updates ==>
            && (u.visibility == Hidden <==> ScreenRadius(u.node, t) < 1.0)
            && (u.labelUpdate.LabelShown? <==> LabelPixels(u.node, t.k) >= labelHeight)
            && (u.labelUpdate.LabelShown? ==> ShownLabelFitted(u.node, t, u.labelUpdate, fitText)))
  {
    var view := ViewBound(width, height, t);
    var kept := NodesInView(nodes, view);
    var f := ZoomToTransform(nodes, width, height, t, labelHeight, fitText);
    NodesInViewMembership(nodes, view, n);
    if n in kept {
      var i :| 0 <= i < |kept| && kept[i] == n;
      assert f.updates[i].node == n;
    }
    forall u | u in f.updates
      ensures u.visibility == Hidden <==> ScreenRadius(u.node, t) < 1.0
      ensures u.labelUpdate.LabelShown? <==> LabelPixels(u.node, t.k) >= labelHeight
      ensures u.labelUpdate.LabelShown? ==> ShownLabelFitted(u.node, t, u.labelUpdate, fitText)
    {
      var i :| 0 <= i < |f.updates| && f.updates[i] == u;
      assert u == NodeUpdate(kept[i], HideSmall(kept[i], t), FitLabel(kept[i], t, labelHeight, fitText));
      NodeUpdateFacts(kept[i], t, labelHeight, fitText);
    }
  }

  /** The update written for one in-view node. */
  lemma NodeUpdateFacts(n: Node, t: Transform, labelHeight: real,
                        fitText: (string, int) -> string)
    requires t.k != 0.0
    ensures
      var u := NodeUpdate(n, HideSmall(n, t), FitLabel(n, t, labelHeight, fitText));
      && (u.visibility == Hidden <==> ScreenRadius(n, t) < 1.0)
      && (u.labelUpdate.LabelShown? <==> LabelPixels(n, t.k) >= labelHeight)
      && (u.labelUpdate.LabelShown? ==> ShownLabelFitted(n, t, u.labelUpdate, fitText))
  {
    FitLabelDecision(n, t, labelHeight, fitText);
  }
}
