/** The circle-packing layout as the zoom logic reads it. The layout itself
    is computed elsewhere; these records are its output. */
module Layout {

  /** One circle of the packing: its centre and radius in layout space,
      the vertical room its label needs at scale 1 (`labelSize`), the
      label's vertical offset from the centre (`labelY`), and the payload
      the label text is built from (`data.fieldValue` and `value`). */
  datatype Node = Node(
    x: real,
    y: real,
    r: real,
    labelSize: real,
    labelY: real,
    fieldValue: string,
    count: nat)

  /** The packed hierarchy: its root circle and its leaves in the layout's
      own order (`packedData.leaves()`). */
  datatype PackedData = PackedData(root: Node, leaves: seq<Node>)
}
