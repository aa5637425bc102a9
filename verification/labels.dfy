/** Label fitting: whether a node's label is shown at the current scale,
    the width its text is fitted to, and the counter-scaling transform that
    keeps its on-screen size independent of the zoom. */
module Labels {
  import opened Transforms
  import opened Layout
  import opened RealArith

  /** What `fitLabels` writes to a node's `<text>` element: hidden, or shown
      with the width its text was fitted to, the fitted text and the
      placement transform. */
  datatype LabelUpdate =
    | LabelHidden
    | LabelShown(width: int, text: string, placement: Transform)

  /** The vertical room a node's label has in screen pixels under zoom `k`. */
  function LabelPixels(n: Node, k: real): real {
    n.labelSize * k
  }

  /** `fitVertically`: the label has at least `labelHeight` pixels of room. */
  predicate FitsVertically(n: Node, k: real, labelHeight: real) {
    LabelPixels(n, k) >= labelHeight
  }

  /** `Math.floor(labelSize * k)`: the whole number of pixels available to
      the label text. */
  function FitWidth(n: Node, k: real): (w: int)
    ensures w as real <= LabelPixels(n, k) < w as real + 1.0
  {
    LabelPixels(n, k).Floor
  }

  /** The decimal digit for `d`. */
  function Digit(d: nat): char
    requires d < 10
  {
    "0123456789"[d]
  }

  predicate IsDigit(c: char) {
    '0' <= c <= '9'
  }

  function DigitValue(c: char): nat
    requires IsDigit(c)
  {
    (c as int) - ('0' as int)
  }

  /** How a non-negative integer count is written into a template string:
      its decimal digits, with no leading zero. */
  function Decimal(n: nat): (s: string)
    ensures |s| > 0
    ensures forall i :: 0 <= i < |s| ==> IsDigit(s[i])
    ensures s[0] == '0' <==> n == 0
    decreases n
  {
    if n < 10 then [Digit(n)] else Decimal(n / 10) + [Digit(n % 10)]
  }

  /** The number a string of decimal digits denotes. */
  function DecimalValue(s: string): nat
    requires forall i :: 0 <= i < |s| ==> IsDigit(s[i])
    decreases |s|
  {
    if |s| == 0 then 0
    else DecimalValue(s[..|s| - 1]) * 10 + DigitValue(s[|s| - 1])
  }

  /** Reading the decimal text back gives the count. */
  lemma {:induction false} DecimalRoundTrip(n: nat)
    ensures DecimalValue(Decimal(n)) == n
    decreases n
  {
    var s := Decimal(n);
    if n >= 10 {
      DecimalRoundTrip(n / 10);
      assert s[..|s| - 1] == Decimal(n / 10);
    }
  }

  /** `${fieldValue} (${count})`: the field value, then the count's
      decimal digits, at least one and with no leading zero, in parentheses. */
  function LabelText(fieldValue: string, count: nat): (s: string)
    ensures |s| >= |fieldValue| + 4
    ensures s[|fieldValue| + 2..|s| - 1] == Decimal(count)
    ensures s[|fieldValue| + 2] == '0' <==> count == 0
    ensures s[..|fieldValue|] == fieldValue
    ensures s[|fieldValue|..|fieldValue| + 2] == " ("
    ensures s[|s| - 1] == ')'
    ensures forall i :: |fieldValue| + 2 <= i < |s| - 1 ==> IsDigit(s[i])
    ensures DecimalValue(s[|fieldValue| + 2..|s| - 1]) == count
  {
    var digits := Decimal(count);
    var s := fieldValue + " (" + digits + ")";
    assert s[|fieldValue| + 2..|s| - 1] == digits;
    DecimalRoundTrip(count);
    s
  }

  /** `zoomIdentity.translate(0, labelY).scale(1 / k)`: the label is moved to
      its offset and then shrunk by the zoom factor. */
  function LabelPlacement(labelY: real, k: real): (p: Transform)
    requires k != 0.0
    ensures p.k * k == 1.0
    ensures Apply(p, Point(0.0, 0.0)) == Point(0.0, labelY)
  {
    Scale(Translate(Identity, 0.0, labelY), 1.0 / k)
  }

  /** `fitLabels` for one in-view node: a label that does not fit
      vertically is hidden and left untouched; one that fits gets the text
      `fitText` returns for the label text and the floored width, and the
      counter-scaling placement. `fitText`, which measures glyphs in the
      label font, is taken as a parameter and not interpreted. */
  function FitLabel(n: Node, t: Transform, labelHeight: real,
                    fitText: (string, int) -> string): LabelUpdate
    requires t.k != 0.0
  {
    if FitsVertically(n, t.k, labelHeight) then
      var width := FitWidth(n, t.k);
      LabelShown(width, fitText(LabelText(n.fieldValue, n.count), width),
                 LabelPlacement(n.labelY, t.k))
    else
      LabelHidden
  }

  /** A label is shown, with its text set, exactly when it fits vertically;
      a shown label's text is fitted to the floor of its room in pixels and
      it is placed at `(0, labelY)` at scale `1 / k`. */
  lemma FitLabelDecision(n: Node, t: Transform, labelHeight: real,
                         fitText: (string, int) -> string)
    requires t.k != 0.0
    ensures FitLabel(n, t, labelHeight, fitText).LabelShown? <==>
      n.labelSize * t.k >= labelHeight
    ensures FitLabel(n, t, labelHeight, fitText).LabelShown? ==>
      var u := FitLabel(n, t, labelHeight, fitText);
      && u.width as real <= n.labelSize * t.k < u.width as real + 1.0
      && u.text == fitText(LabelText(n.fieldValue, n.count), u.width)
      && u.placement.k * t.k == 1.0
      && Apply(u.placement, Point(0.0, 0.0)) == Point(0.0, n.labelY)
  {
  }

  /** Scale compensation: the label sits in a node group with transform
      `group` inside the zoomed root with transform `t`; whatever the zoom,
      the label is drawn at the group's own scale, so its size on screen
      does not change as the view zooms. */
  lemma LabelScaleIndependentOfZoom(t: Transform, group: Transform, labelY: real)
    requires t.k != 0.0
    ensures Compose(Compose(t, group), LabelPlacement(labelY, t.k)).k == group.k
  {
    var p := LabelPlacement(labelY, t.k);
    MulAssocOne(group.k, p.k, t.k);
  }

  /** In particular the net rendered scale `k * (1 / k)` of a label whose
      group only translates is exactly 1, so a glyph of height `h` in the
      label's own units is `h` pixels tall at every zoom. */
  lemma LabelPixelHeightConstant(t: Transform, group: Transform, labelY: real, h: real)
    requires t.k != 0.0 && group.k == 1.0
    ensures
      var net := Compose(Compose(t, group), LabelPlacement(labelY, t.k));
      Apply(net, Point(0.0, h)).y - Apply(net, Point(0.0, 0.0)).y == h
  {
    LabelScaleIndependentOfZoom(t, group, labelY);
  }
}
