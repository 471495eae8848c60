/** `GridSpacingItemDecoration`: offsets for the cells of a grid with `spanCount` columns so
    that neighbouring cells are `spacing` apart, optionally with `spacing` on the outer edges
    as well (`includeEdge`). */
module GridSpacing {
  import opened Common
  import opened Rects

  /** Column of an adapter position (Kotlin's truncating `%`). */
  function Column(position: int, spanCount: int): (c: int)
    requires spanCount != 0
    ensures position >= 0 && spanCount > 0 ==> 0 <= c < spanCount
  {
    TMod(position, spanCount)
  }

  function LeftOffset(column: int, spanCount: int, spacing: int, includeEdge: bool): int
    requires spanCount != 0
  {
    if includeEdge then spacing - TDiv(column * spacing, spanCount)
    else TDiv(column * spacing, spanCount)
  }

  function RightOffset(column: int, spanCount: int, spacing: int, includeEdge: bool): int
    requires spanCount != 0
  {
    if includeEdge then TDiv((column + 1) * spacing, spanCount)
    else spacing - TDiv((column + 1) * spacing, spanCount)
  }

  /** The rect after `getItemOffsets` for the item at `position`, starting from `prior`. */
  function ItemOffsets(position: int, spanCount: int, spacing: int, includeEdge: bool, prior: Offsets): Offsets
    requires spanCount != 0
  {
    if position == NO_POSITION then prior
    else
      var column := Column(position, spanCount);
      var left := LeftOffset(column, spanCount, spacing, includeEdge);
      var right := RightOffset(column, spanCount, spacing, includeEdge);
      if includeEdge then
        Offsets(left, if position < spanCount then spacing else prior.top, right, spacing)
      else
        Offsets(left, if position >= spanCount then spacing else prior.top, right, prior.bottom)
  }

  class GridSpacingItemDecoration {
    const spanCount: int
    const spacing: int
    const includeEdge: bool

    constructor (spanCount: int, spacing: int, includeEdge: bool)
      ensures this.spanCount == spanCount && this.spacing == spacing && this.includeEdge == includeEdge
    {
      this.spanCount := spanCount;
      this.spacing := spacing;
      this.includeEdge := includeEdge;
    }

    method GetItemOffsets(outRect: Rect, position: int)
      requires spanCount != 0
      modifies outRect
      ensures outRect.Value() == ItemOffsets(position, spanCount, spacing, includeEdge, old(outRect.Value()))
    {
      if position == NO_POSITION {
        return;
      }
      var column := TMod(position, spanCount);
      if includeEdge {
        outRect.left := spacing - TDiv(column * spacing, spanCount);
        outRect.right := TDiv((column + 1) * spacing, spanCount);
        if position < spanCount {
          outRect.top := spacing;
        }
        outRect.bottom := spacing;
      } else {
        outRect.left := TDiv(column * spacing, spanCount);
        outRect.right := spacing - TDiv((column + 1) * spacing, spanCount);
        if position >= spanCount {
          outRect.top := spacing;
        }
      }
    }
  }

  /** `NO_POSITION` leaves the rect as it was. */
  lemma NoPositionUntouched(spanCount: int, spacing: int, includeEdge: bool, prior: Offsets)
    requires spanCount != 0
    ensures ItemOffsets(NO_POSITION, spanCount, spacing, includeEdge, prior) == prior
  {
  }

  /** In both modes the right offset of one column and the left offset of the next add up to
      `spacing`, so every gap between horizontally adjacent cells is `spacing` wide. */
  lemma ColumnGapIsSpacing(column: int, spanCount: int, spacing: int, includeEdge: bool)
    requires spanCount != 0
    ensures RightOffset(column, spanCount, spacing, includeEdge)
          + LeftOffset(column + 1, spanCount, spacing, includeEdge) == spacing
  {
  }

  /** The next position in the same row is the next column. */
  lemma NextColumn(position: int, spanCount: int)
    requires position >= 0 && spanCount > 0
    requires Column(position, spanCount) < spanCount - 1
    ensures Column(position + 1, spanCount) == Column(position, spanCount) + 1
  {
    var q, r := position / spanCount, position % spanCount;
    assert position == q * spanCount + r;
    DivModUnique(position + 1, spanCount, q, r + 1);
  }

  /** Two cells side by side in a row are `spacing` apart, whatever the mode. */
  lemma AdjacentCellsGap(position: int, spanCount: int, spacing: int, includeEdge: bool, prior: Offsets)
    requires position >= 0 && spanCount > 0
    requires Column(position, spanCount) < spanCount - 1
    ensures ItemOffsets(position, spanCount, spacing, includeEdge, prior).right
          + ItemOffsets(position + 1, spanCount, spacing, includeEdge, prior).left == spacing
  {
    NextColumn(position, spanCount);
    ColumnGapIsSpacing(Column(position, spanCount), spanCount, spacing, includeEdge);
  }

  /** The outer edges: the first column's left offset and the last column's right offset are
      `spacing` with `includeEdge` and 0 without. */
  lemma OuterEdges(spanCount: int, spacing: int, includeEdge: bool)
    requires spanCount > 0
    ensures LeftOffset(0, spanCount, spacing, includeEdge) == (if includeEdge then spacing else 0)
    ensures RightOffset(spanCount - 1, spanCount, spacing, includeEdge) == (if includeEdge then spacing else 0)
  {
    assert 0 * spacing == 0;
    TDivOfMultiple(spanCount, spacing);
    assert (spanCount - 1 + 1) * spacing == spanCount * spacing;
  }

  /** A cell and the cell below it are `spacing` apart (from a cleared rect): with `includeEdge`
      every cell carries the gap as its bottom, without it the lower cell carries it as its top. */
  lemma RowGapIsSpacing(position: int, spanCount: int, spacing: int, includeEdge: bool)
    requires position >= 0 && spanCount > 0
    ensures ItemOffsets(position, spanCount, spacing, includeEdge, Offsets(0, 0, 0, 0)).bottom
          + ItemOffsets(position + spanCount, spanCount, spacing, includeEdge, Offsets(0, 0, 0, 0)).top == spacing
  {
  }

  /** Cells of the first row get the top edge exactly when `includeEdge` is set; later rows
      never get an extra top offset with `includeEdge`. */
  lemma FirstRowTop(position: int, spanCount: int, spacing: int, includeEdge: bool, prior: Offsets)
    requires 0 <= position && spanCount > 0
    ensures position < spanCount ==>
      ItemOffsets(position, spanCount, spacing, includeEdge, prior).top == (if includeEdge then spacing else prior.top)
    ensures position >= spanCount ==>
      ItemOffsets(position, spanCount, spacing, includeEdge, prior).top == (if includeEdge then prior.top else spacing)
    ensures ItemOffsets(position, spanCount, spacing, includeEdge, prior).bottom == (if includeEdge then spacing else prior.bottom)
  {
  }
}
