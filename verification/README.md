# Zoomable circle-packing viewport, modelled in Dafny

This project models the pure geometry and decision logic of CRviz's zoom
setup (`setupZoom` in `src/features/visualization/d3-viz/setup-zoom.js`).
The viewport shows a circle-packing layout. Each time the view transform
`{x, y, k}` changes, the code does four things:

- it computes the layout-space box the viewport shows (`viewBound`);
- it keeps the nodes whose box (`nodeBound`) overlaps it (`boundOverlap`);
- it hides the nodes whose radius on screen is below one pixel (`hideSmall`);
- it shows a node's label only if the label fits vertically. A shown label
  gets its text fitted to a floored pixel width and a placement transform
  that counter-scales by `1/k` (`fitLabels`).

When it is first set up, the code derives the allowed scale range and pan
range from the root and first-leaf radii (`scaleExtent`, `translateExtent`).
`zoomTo` computes the transform that frames a node.

Numbers are modelled as `real`. d3's transform code is not part of this
model. Its behaviour is a stated assumption, written out in `transforms.dfy`:

- `zoomIdentity` is `(k, x, y) = (1, 0, 0)`.
- `t.scale(s)` is `(k·s, x, y)`.
- `t.translate(tx, ty)` is `(k, x + k·tx, y + k·ty)`.
- A layout point `p` is drawn at `p·k + (x, y)`.

The lemmas in that file show these four statements agree with one another.
The identity draws every point where it is and is neutral for composition.
Scaling and translating are both composition on the right.

Modules, one per file: `RealArith` (arithmetic facts), `Transforms`,
`Layout` (the node and packed-data records), `Bounds`, `Culling`, `Labels`,
`Extents` and `Zoom`.

Three behaviours of `setup-zoom.js` are worth stating. The model keeps
each of them as the code has it:

- `kMax` uses the first leaf of `packedData.leaves()`, not the smallest
  leaf. `Zoom.LeafZoomWithinScaleExtent` shows this is sound when the leaves
  are sorted by radius, ascending. `Zoom.UnsortedLeavesExceedScaleExtent`
  gives an unsorted layout whose `zoomTo` target lies above `kMax`.
- The only error path at set-up is an empty leaf list. Indexing
  `leaves()[0]` then gives `undefined`, and reading `.r` of it at line 29
  throws a `TypeError`. This is modelled as `Err(NoLeaves)`. A zero or
  negative root radius is not rejected by the source. Zero is excluded by a
  precondition because it would divide by zero. A negative radius is
  modelled as computed.
- Culling and hiding apply only to nodes in view. An out-of-view node gets
  no update, even when `r·k < 1`. So "small nodes are always hidden" holds
  only for the nodes a transform change touches.
  `Zoom.ZoomToTransformUpdates` states it that way.

## Model

| member | source | states |
|---|---|---|
| Transforms.Invert | src/features/visualization/d3-viz/setup-zoom.js:119-124 | the layout point a transform maps to a given screen point; drawing that point gives back the screen point |
| Transforms.IdentityNeutral | src/features/visualization/d3-viz/setup-zoom.js:62-67 | `zoomIdentity` draws every point where it is, and composing it on either side of a transform gives that transform back |
| Transforms.ComposeApply | src/features/visualization/d3-viz/setup-zoom.js:104-107 | drawing an element nested in a transformed parent is drawing with its own transform and then with the parent's |
| Transforms.TranslateApply | src/features/visualization/d3-viz/setup-zoom.js:62-67 | `.translate(tx, ty)` is composition with a pure translation, so it shifts the layout point by `(tx, ty)` before the transform draws it |
| Transforms.ScaleApply | src/features/visualization/d3-viz/setup-zoom.js:62-63 | `.scale(s)` is composition with a pure scale, so it scales the layout point by `s` before the transform draws it |
| Bounds.NodeBound | src/features/visualization/d3-viz/setup-zoom.js:128-133 | the node box is centred on the node, has side `2r`, and for `r >= 0` is well-formed and contains the centre |
| Bounds.DiskInsideNodeBound | src/features/visualization/d3-viz/setup-zoom.js:128-133 | every point of the node's disk lies in its box, so culling by box never drops a node whose disk reaches into the view |
| Bounds.SideLength | src/features/visualization/d3-viz/setup-zoom.js:115-117 | `min(w, h) * max(w / h, 1)` equals `w` for a positive viewport, and likewise for `h` |
| Bounds.ViewBound | src/features/visualization/d3-viz/setup-zoom.js:114-126 | for a positive viewport the view box starts at `(-x/k, -y/k)` and ends at `((-x + w)/k, (-y + h)/k)`; for `k > 0` it is well-formed with sides exactly `w/k` and `h/k` |
| Bounds.ViewBoundCorners | src/features/visualization/d3-viz/setup-zoom.js:119-124 | the view box's corners are the layout points drawn at the screen corners `(0, 0)` and `(w, h)` |
| Bounds.ViewBoundIsVisibleRegion | src/features/visualization/d3-viz/setup-zoom.js:114-126 | a layout point is in the view box iff the transform draws it inside the `w` x `h` screen rectangle |
| Bounds.OverlapSymmetric | src/features/visualization/d3-viz/setup-zoom.js:135-142 | the overlap test does not depend on argument order |
| Bounds.OverlapReflexive | src/features/visualization/d3-viz/setup-zoom.js:135-142 | a well-formed box overlaps itself |
| Bounds.OverlapIffNotSeparated | src/features/visualization/d3-viz/setup-zoom.js:135-142 | the test fails exactly when the boxes are strictly apart on the x or the y axis; touching edges overlap |
| Bounds.OverlapIffCommonPoint | src/features/visualization/d3-viz/setup-zoom.js:135-142 | for well-formed boxes the test holds iff the boxes share a point |
| Culling.NodesInView | src/features/visualization/d3-viz/setup-zoom.js:50-52 | the filter keeps at most the input's nodes, and only nodes of the input whose box overlaps the view box |
| Culling.NodesInViewIsSelection | src/features/visualization/d3-viz/setup-zoom.js:52 | the in-view list is the input read at increasing positions, and those positions are exactly the ones whose node overlaps the view box |
| Culling.NodesInViewMembership | src/features/visualization/d3-viz/setup-zoom.js:52 | a node is in view iff it is one of the nodes and its box overlaps the view box |
| Culling.HideSmallIffSubPixel | src/features/visualization/d3-viz/setup-zoom.js:81-83 | a node is hidden iff its box is drawn narrower than two pixels, i.e. `r * k < 1` |
| Culling.HideSmallIgnoresPosition | src/features/visualization/d3-viz/setup-zoom.js:81-83 | moving a node does not change whether it is hidden |
| Culling.HideSmallMonotone | src/features/visualization/d3-viz/setup-zoom.js:81-83 | for `r >= 0`, zooming in never hides a node that was visible |
| Labels.FitWidth | src/features/visualization/d3-viz/setup-zoom.js:100 | the fit width is the greatest integer not above the label's room in pixels, `labelSize * k` |
| Labels.Decimal | src/features/visualization/d3-viz/setup-zoom.js:96 | a count is written as a non-empty string of decimal digits with no leading zero (only 0 starts with `0`) |
| Labels.DecimalRoundTrip | src/features/visualization/d3-viz/setup-zoom.js:96 | reading the written digits back gives the count |
| Labels.LabelText | src/features/visualization/d3-viz/setup-zoom.js:95-96 | the label text is the field value, then ` (`, then the count's decimal digits, then `)`; the digits are non-empty, start with `0` only for a zero count, and read back as the count |
| Labels.LabelPlacement | src/features/visualization/d3-viz/setup-zoom.js:104-108 | the label transform's scale is the inverse of `k`, and it puts the label origin at `(0, labelY)` |
| Labels.FitLabelDecision | src/features/visualization/d3-viz/setup-zoom.js:86-108 | a label is shown and gets text iff `labelSize * k >= labelHeight`; a shown label's text is fitted to the floored pixel room, and it is placed at `(0, labelY)` with scale `1/k` |
| Labels.LabelScaleIndependentOfZoom | src/features/visualization/d3-viz/setup-zoom.js:104-108 | the label's net scale inside the zoomed root equals its group's own scale, whatever `k` is |
| Labels.LabelPixelHeightConstant | src/features/visualization/d3-viz/setup-zoom.js:104-108 | inside a translate-only group, a glyph of height `h` is `h` pixels tall at every zoom (net scale `k * (1/k) = 1`) |
| Extents.PaddedScale | src/features/visualization/d3-viz/setup-zoom.js:29 | at this scale a circle's padded diameter `2r * 1.25` equals the smaller viewport side; the scale is positive for a positive radius and viewport |
| Extents.ScaleExtentOf | src/features/visualization/d3-viz/setup-zoom.js:25-30 | fails iff there are no leaves; at `kMin` the root diameter fills the smaller viewport side; `kMax` is the first leaf's padded scale |
| Extents.TranslateExtentOf | src/features/visualization/d3-viz/setup-zoom.js:32-41 | the pan box is centred on the root, with half-sides `width / kMin` and `height / kMin`, and is well-formed for `kMin > 0` |
| Extents.ZoomConstraints | src/features/visualization/d3-viz/setup-zoom.js:25-43 | set-up fails iff there are no leaves; otherwise the translate extent is built from the computed `kMin` |
| Extents.ScaleExtentOrdered | src/features/visualization/d3-viz/setup-zoom.js:27-30 | `kMin <= kMax` whenever `0 < leaves[0].r * 1.25 <= rootR` and the viewport is positive |
| Extents.RootInsideTranslateExtent | src/features/visualization/d3-viz/setup-zoom.js:32-41 | the whole root circle lies inside the translate extent |
| Zoom.ZoomTo | src/features/visualization/d3-viz/setup-zoom.js:59-67 | the target scale is the node's padded scale, which is positive for a positive radius and viewport; the target draws the node centre exactly at the viewport centre `(w/2, h/2)` |
| Zoom.ZoomToFramesNode | src/features/visualization/d3-viz/setup-zoom.js:59-67 | after `zoomTo`, the node's circle grown by the 25% padding lies wholly inside the view box |
| Zoom.LeafZoomWithinScaleExtent | src/features/visualization/d3-viz/setup-zoom.js:27-30 | with leaves sorted by radius, ascending, `zoomTo` on any leaf asks for at most `kMax` |
| Zoom.UnsortedLeavesExceedScaleExtent | src/features/visualization/d3-viz/setup-zoom.js:29 | with leaves of radius 10 then 5, `kMax` is 40 but `zoomTo` on the second leaf asks for 80 |
| Zoom.ZoomToExample | src/features/visualization/d3-viz/setup-zoom.js:59-67 | an 800 x 600 viewport and a node at (100, 50) with radius 20 give the target `(12, -800, -300)` |
| Zoom.EndToEndExample | src/features/visualization/d3-viz/setup-zoom.js:25-30 | a root of radius 100, a leaf of radius 10 and a 1000 x 1000 viewport give `kMin = 5` and a leaf target scale of 40 |
| Zoom.ZoomToTransform | src/features/visualization/d3-viz/setup-zoom.js:47-57 | a transform change sets the root transform to the new one and writes exactly one update per in-view node; update `i` is for the `i`-th in-view node, in node order |
| Zoom.ZoomToTransformUpdates | src/features/visualization/d3-viz/setup-zoom.js:47-57 | a node is updated iff its box overlaps the view box; each update hides the node iff `r * k < 1` and shows its label iff the label fits vertically; a shown label has the floored pixel width, the text `fitText` returns for the label text and that width, and a placement at scale `1/k` with origin at `(0, labelY)` |
| Zoom.NodeUpdateFacts | src/features/visualization/d3-viz/setup-zoom.js:54-56 | the update for one in-view node: hidden iff `r * k < 1`, label shown iff it fits vertically, and a shown label carries the floored width, the fitted text and the `1/k` placement |

## Left out

- d3 zoom wiring is not modelled: `zoom()`, the `zoom` event handler, `zoomRoot.call`, and passing the extents and the target to `zoomBehavior`. It is library behaviour and event plumbing. The model returns the extents and the target transform instead.
- The 1000 ms animated transition in `zoomTo` is not modelled. It is library scheduling, and only the target transform is computed.
- DOM writes are not modelled. `attr("transform")`, `attr("visibility")`, `style("visibility")`, `text(...)` and `select("text")` are rendering side effects. The model returns them as data: a `Frame` holding the root transform and one `NodeUpdate` per in-view node.
- `getLabelStyle`, `getFont`, `measureText` and `fitText` are not modelled. They measure text against the DOM. `labelHeight` is a parameter. `fitText`, together with its font, is a function-valued parameter with no interpretation. `./text-utils` is not part of this model.
- When no labels exist, `getLabelStyle` returns a `null` height, and JavaScript compares `>= null` as `>= 0`. This case is not modelled. No `<text>` element exists then, so nothing is written anyway.
- IEEE floating point is not modelled; numbers are reals. Division by zero would give `Infinity`/`NaN` in JavaScript. The model excludes it with preconditions instead: a non-zero viewport side and `k` in `ViewBound`, a non-zero radius in `PaddedScale`, `ScaleExtentOf` and `ZoomTo`, a non-zero smaller viewport side `Min(width, height)` in `ZoomTo` and `ZoomConstraints` (otherwise `k` is 0 and `width / 2 / k` is `Infinity` or `NaN`), and a non-zero `kMin` in `TranslateExtentOf`. A "bit-for-bit" final transform has no meaning over reals.
- `Node.count` is modelled as a natural number written in decimal. A non-integer d3 `value` would be formatted differently by JavaScript.
- `Labels.Decimal` writes every digit of the count. JavaScript writes an integer of `1e21` or more in exponent form (`${1e21}` is `"1e+21"`), so `Labels.Decimal` and `Labels.LabelText` do not model counts that large.
- `fitLabels` receives the view bound but never uses it, so the model does not pass it.
