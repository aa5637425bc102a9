/** Visibility culling: which nodes are touched on a transform change, and
    which of those are too small to draw. */
module Culling {
  import opened Transforms
  import opened Layout
  import opened Bounds
  import opened RealArith

  /** `nodes.filter(d => boundOverlap(bound, nodeBound(d)))`: the nodes
      whose bound overlaps the view bound, in their original order. */
  function NodesInView(nodes: seq<Node>, view: Bound): (kept: seq<Node>)
    ensures |kept| <= |nodes|
    ensures forall n :: n in kept ==> n in nodes && Overlap(view, NodeBound(n))
    decreases |nodes|
  {
    if |nodes| == 0 then []
    else
      var rest := NodesInView(nodes[..|nodes| - 1], view);
      var last := nodes[|nodes| - 1];
      if Overlap(view, NodeBound(last)) then rest + [last] else rest
  }

  /** The positions in `nodes` that the filter keeps, in increasing order. */
  function KeptIndices(nodes: seq<Node>, view: Bound): (idx: seq<nat>)
    decreases |nodes|
  {
    if |nodes| == 0 then []
    else
      var rest := KeptIndices(nodes[..|nodes| - 1], view);
      if Overlap(view, NodeBound(nodes[|nodes| - 1])) then rest + [|nodes| - 1] else rest
  }

  /** `kept` is `nodes` read at the positions `idx`. */
  ghost predicate ReadsAt(kept: seq<Node>, nodes: seq<Node>, idx: seq<nat>) {
    && |idx| == |kept|
    && (forall i :: 0 <= i < |idx| ==> idx[i] < |nodes| && kept[i] == nodes[idx[i]])
  }

  ghost predicate Increasing(idx: seq<nat>) {
    forall i, j :: 0 <= i < j < |idx| ==> idx[i] < idx[j]
  }

  /** `idx` holds exactly the positions whose node overlaps `view`. */
  ghost predicate OverlappingPositions(nodes: seq<Node>, idx: seq<nat>, view: Bound) {
    forall j: nat :: j < |nodes| ==> (j in idx <==> Overlap(view, NodeBound(nodes[j])))
  }

  /** `kept` is the order-preserving subsequence of `nodes` at the positions
      `idx`, which are exactly those whose node overlaps `view`. */
  ghost predicate IsSelection(kept: seq<Node>, nodes: seq<Node>, idx: seq<nat>, view: Bound) {
    ReadsAt(kept, nodes, idx) && Increasing(idx) && OverlappingPositions(nodes, idx, view)
  }

  /** The in-view set is the order-preserving subsequence of `nodes` made of
      exactly the nodes whose bound overlaps the view: none that overlaps is
      dropped, none that does not is kept. */
  lemma {:induction false} NodesInViewIsSelection(nodes: seq<Node>, view: Bound)
    ensures IsSelection(NodesInView(nodes, view), nodes, KeptIndices(nodes, view), view)
    decreases |nodes|
  {
    if |nodes| > 0 {
      var prefix, last := nodes[..|nodes| - 1], nodes[|nodes| - 1];
      assert nodes == prefix + [last];
      NodesInViewIsSelection(prefix, view);
      if Overlap(view, NodeBound(last)) {
        SelectionKeep(NodesInView(prefix, view), prefix, KeptIndices(prefix, view), view, last);
      } else {
        SelectionSkip(NodesInView(prefix, view), prefix, KeptIndices(prefix, view), view, last);
      }
    }
  }

  /** Appending an overlapping node extends the selection by it. */
  lemma SelectionKeep(kept: seq<Node>, nodes: seq<Node>, idx: seq<nat>, view: Bound, last: Node)
    requires IsSelection(kept, nodes, idx, view)
    requires Overlap(view, NodeBound(last))
    ensures IsSelection(kept + [last], nodes + [last], idx + [|nodes|], view)
  {
    var kept', nodes', idx' := kept + [last], nodes + [last], idx + [|nodes|];
    forall i | 0 <= i < |idx'|
      ensures idx'[i] < |nodes'| && kept'[i] == nodes'[idx'[i]]
    {
      if i < |idx| {
        assert idx'[i] == idx[i] && kept'[i] == kept[i];
      }
    }
    forall j: nat | j < |nodes'|
      ensures j in idx' <==> Overlap(view, NodeBound(nodes'[j]))
    {
      if j < |nodes| {
        assert nodes'[j] == nodes[j];
        assert j in idx' <==> j in idx;
      }
    }
  }

  /** Appending a node that does not overlap leaves the selection as it is. */
  lemma SelectionSkip(kept: seq<Node>, nodes: seq<Node>, idx: seq<nat>, view: Bound, last: Node)
    requires IsSelection(kept, nodes, idx, view)
    requires !Overlap(view, NodeBound(last))
    ensures IsSelection(kept, nodes + [last], idx, view)
  {
    var nodes' := nodes + [last];
    forall i | 0 <= i < |idx|
      ensures idx[i] < |nodes'| && kept[i] == nodes'[idx[i]]
    {
      assert nodes'[idx[i]] == nodes[idx[i]];
    }
    forall j: nat | j < |nodes'|
      ensures j in idx <==> Overlap(view, NodeBound(nodes'[j]))
    {
      if j < |nodes| {
        assert nodes'[j] == nodes[j];
      } else {
        assert j !in idx;
      }
    }
  }

  /** Every overlapping node, and only those, appears in the in-view set. */
  lemma NodesInViewMembership(nodes: seq<Node>, view: Bound, n: Node)
    ensures n in NodesInView(nodes, view) <==> n in nodes && Overlap(view, NodeBound(n))
  {
    if n in nodes && Overlap(view, NodeBound(n)) {
      NodesInViewIsSelection(nodes, view);
      var idx := KeptIndices(nodes, view);
      var j :| 0 <= j < |nodes| && nodes[j] == n;
      assert j in idx;
      var i :| 0 <= i < |idx| && idx[i] == j;
      assert NodesInView(nodes, view)[i] == n;
    }
  }

  /** The `visibility` attribute `hideSmall` writes. */
  datatype Visibility = Visible | Hidden

  /** A node's radius in screen pixels under `t`. */
  function ScreenRadius(n: Node, t: Transform): real {
    n.r * t.k
  }

  /** `hideSmall`: a node is hidden when its radius on screen is below one
      pixel. */
  function HideSmall(n: Node, t: Transform): Visibility {
    if ScreenRadius(n, t) < 1.0 then Hidden else Visible
  }

  /** The on-screen width of a bound drawn by `t`. */
  function ScreenWidth(t: Transform, b: Bound): real {
    Apply(t, Point(b.maxX, b.minY)).x - Apply(t, Point(b.minX, b.minY)).x
  }

  /** A node is hidden exactly when `t` draws its bound narrower than two
      pixels, i.e. its circle would be a sub-pixel dot. */
  lemma HideSmallIffSubPixel(n: Node, t: Transform)
    ensures HideSmall(n, t) == Hidden <==> ScreenWidth(t, NodeBound(n)) < 2.0
  {
    var b := NodeBound(n);
    calc {
      ScreenWidth(t, b);
      (n.x + n.r) * t.k - (n.x - n.r) * t.k;
      2.0 * ScreenRadius(n, t);
    }
  }

  /** Where a node sits has no bearing on whether it is hidden. */
  lemma HideSmallIgnoresPosition(n: Node, t: Transform, x: real, y: real)
    ensures HideSmall(n.(x := x, y := y), t) == HideSmall(n, t)
  {
  }

  /** Zooming in never hides a node that was shown. */
  lemma HideSmallMonotone(n: Node, t: Transform, t': Transform)
    requires n.r >= 0.0 && t.k <= t'.k
    ensures HideSmall(n, t) == Visible ==> HideSmall(n, t') == Visible
  {
    MulMonotone(n.r, t.k, t'.k);
  }
}
