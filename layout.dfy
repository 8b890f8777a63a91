/**
 * The integer geometry of a node's visuals: the box around its centre, the
 * size of the editable text region in character cells, the text window and
 * the resize handle at the box's bottom-right corner.
 *
 * Python's `//` rounds toward negative infinity; for the positive divisors
 * used here Dafny's `/` on `int` does the same.
 */
module Layout {

  const Padding := 4
  const CharWidthPx := 8
  const CharHeightPx := 20
  const HandleSize := 6

  datatype Rect = Rect(x1: int, y1: int, x2: int, y2: int)

  /** The box of a node centred at (x, y): corners x -/+ width//2, y -/+ height//2. */
  function BoxCorners(x: int, y: int, width: int, height: int): (r: Rect)
    ensures x - r.x1 == r.x2 - x && y - r.y1 == r.y2 - y
    ensures width >= 0 ==> width - 1 <= r.x2 - r.x1 <= width
    ensures height >= 0 ==> height - 1 <= r.y2 - r.y1 <= height
  {
    Rect(x - width / 2, y - height / 2, x + width / 2, y + height / 2)
  }

  /** The text region's width in characters: max(1, (width - 2*padding) // 8). */
  function TextColumns(width: int): (cols: int)
    ensures cols >= 1
    ensures width - 2 * Padding < CharWidthPx ==> cols == 1
    ensures width - 2 * Padding >= CharWidthPx ==>
      CharWidthPx * cols <= width - 2 * Padding < CharWidthPx * (cols + 1)
  {
    var cells := (width - 2 * Padding) / CharWidthPx;
    if cells < 1 then 1 else cells
  }

  /** The text region's height in lines: max(1, (height - 2*padding) // 20). */
  function TextRows(height: int): (rows: int)
    ensures rows >= 1
    ensures height - 2 * Padding < CharHeightPx ==> rows == 1
    ensures height - 2 * Padding >= CharHeightPx ==>
      CharHeightPx * rows <= height - 2 * Padding < CharHeightPx * (rows + 1)
  {
    var cells := (height - 2 * Padding) / CharHeightPx;
    if cells < 1 then 1 else cells
  }

  /** The 6-pixel resize handle whose bottom-right corner is the box's. */
  function HandleRect(box: Rect): (h: Rect)
    ensures h.x2 == box.x2 && h.y2 == box.y2
    ensures h.x2 - h.x1 == HandleSize && h.y2 - h.y1 == HandleSize
  {
    Rect(box.x2 - HandleSize, box.y2 - HandleSize, box.x2, box.y2)
  }

  /** Everything drawn for one node, as draw_node and redraw_node compute it. */
  datatype NodeView = NodeView(
    box: Rect,
    columns: int,
    rows: int,
    windowWidth: int,
    windowHeight: int,
    handle: Rect)

  function ViewOf(x: int, y: int, width: int, height: int): NodeView {
    var box := BoxCorners(x, y, width, height);
    NodeView(box, TextColumns(width), TextRows(height), width - 2, height - 2, HandleRect(box))
  }

  predicate Inside(inner: Rect, outer: Rect) {
    outer.x1 <= inner.x1 <= inner.x2 <= outer.x2 && outer.y1 <= inner.y1 <= inner.y2 <= outer.y2
  }

  /**
   * For a box wider and taller than the handle, the handle lies inside the box,
   * and once the text region has room for more than one cell its padded
   * character cells fit within the box's size; the text window fits within
   * the drawn box.
   */
  lemma ViewFitsBox(x: int, y: int, width: int, height: int)
    requires width > HandleSize && height > HandleSize
    ensures Inside(ViewOf(x, y, width, height).handle, ViewOf(x, y, width, height).box)
    ensures width - 2 * Padding >= CharWidthPx ==>
      CharWidthPx * ViewOf(x, y, width, height).columns + 2 * Padding <= width
    ensures height - 2 * Padding >= CharHeightPx ==>
      CharHeightPx * ViewOf(x, y, width, height).rows + 2 * Padding <= height
    ensures ViewOf(x, y, width, height).windowWidth <= ViewOf(x, y, width, height).box.x2 - ViewOf(x, y, width, height).box.x1
    ensures ViewOf(x, y, width, height).windowHeight <= ViewOf(x, y, width, height).box.y2 - ViewOf(x, y, width, height).box.y1
  {
  }
}
