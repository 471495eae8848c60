/** `VideoCardItemDecoration`: the video grid with `spanCount` columns, `horizontalSpacing`
    between columns shared out between the cells, and `verticalSpacing` above every row but
    the first. */
module VideoCardDecoration {
  import opened Common
  import opened Rects

  function Column(position: int, spanCount: int): int
    requires spanCount != 0
  {
    TMod(position, spanCount)
  }

  function LeftOffset(column: int, spanCount: int, horizontalSpacing: int): int
    requires spanCount != 0
  {
    TDiv(horizontalSpacing * column, spanCount)
  }

  function RightOffset(column: int, spanCount: int, horizontalSpacing: int): int
    requires spanCount != 0
  {
    TDiv(horizontalSpacing * (spanCount - 1 - column), spanCount)
  }

  /** The rect after `getItemOffsets`. There is no `NO_POSITION` guard here: position -1 is
      laid out like any other. */
  function ItemOffsets(spanCount: int, horizontalSpacing: int, verticalSpacing: int,
                       position: int, prior: Offsets): Offsets
    requires spanCount != 0
  {
    var column := Column(position, spanCount);
    Offsets(LeftOffset(column, spanCount, horizontalSpacing),
            if position >= spanCount then verticalSpacing else prior.top,
            RightOffset(column, spanCount, horizontalSpacing),
            prior.bottom)
  }

  class VideoCardItemDecoration {
    const spanCount: int
    const horizontalSpacing: int
    const verticalSpacing: int

    constructor (spanCount: int, horizontalSpacing: int, verticalSpacing: int)
      ensures this.spanCount == spanCount && this.horizontalSpacing == horizontalSpacing
      ensures this.verticalSpacing == verticalSpacing
    {
      this.spanCount := spanCount;
      this.horizontalSpacing := horizontalSpacing;
      this.verticalSpacing := verticalSpacing;
    }

    method GetItemOffsets(outRect: Rect, position: int)
      requires spanCount != 0
      modifies outRect
      ensures outRect.Value() == ItemOffsets(spanCount, horizontalSpacing, verticalSpacing, position, old(outRect.Value()))
    {
      var column := TMod(position, spanCount);
      outRect.left := TDiv(horizontalSpacing * column, spanCount);
      outRect.right := TDiv(horizontalSpacing * (spanCount - 1 - column), spanCount);
      if position >= spanCount {
        outRect.top := verticalSpacing;
      }
    }
  }

  /** The grid's outer edges get no horizontal offset: the first column's left and the last
      column's right are 0. */
  lemma OuterEdgesFlush(spanCount: int, horizontalSpacing: int)
    requires spanCount > 0
    ensures LeftOffset(0, spanCount, horizontalSpacing) == 0
    ensures RightOffset(spanCount - 1, spanCount, horizontalSpacing) == 0
  {
  }

  /** Each offset is between 0 and `horizontalSpacing` for a real column. */
  lemma OffsetsInRange(column: int, spanCount: int, horizontalSpacing: int)
    requires spanCount > 0 && 0 <= column < spanCount && horizontalSpacing >= 0
    ensures 0 <= LeftOffset(column, spanCount, horizontalSpacing) <= horizontalSpacing
    ensures 0 <= RightOffset(column, spanCount, horizontalSpacing) <= horizontalSpacing
  {
    ShareInRange(horizontalSpacing, column, spanCount);
    ShareInRange(horizontalSpacing, spanCount - 1 - column, spanCount);
  }

  /** `h * k / n` lies in `[0, h]` when `0 <= k <= n`. */
  lemma ShareInRange(h: int, k: int, n: int)
    requires n > 0 && 0 <= k <= n && h >= 0
    ensures 0 <= TDiv(h * k, n) <= h
  {
    var p := h * k;
    MulMonotone(h, k, n);
    DivModUnique(h * n, n, h, 0);
    DivMonotone(p, h * n, n);
    assert TDiv(p, n) == p / n;
  }

  /** Rounding down each of two non-negative shares loses less than one unit in total. */
  lemma SumOfQuotients(a: int, b: int, n: int)
    requires n > 0 && a >= 0 && b >= 0
    ensures (a + b) / n - 1 <= a / n + b / n <= (a + b) / n
  {
    var qa, ra, qb, rb := a / n, a % n, b / n, b % n;
    if ra + rb < n {
      DivModUnique(a + b, n, qa + qb, ra + rb);
    } else {
      DivModUnique(a + b, n, qa + qb + 1, ra + rb - n);
    }
  }

  /** Because both offsets round down, the gap between two horizontally adjacent cells is
      `horizontalSpacing` or one pixel less. */
  lemma AdjacentGap(column: int, spanCount: int, horizontalSpacing: int)
    requires spanCount > 0 && 0 <= column && column + 1 < spanCount && horizontalSpacing >= 0
    ensures var gap := RightOffset(column, spanCount, horizontalSpacing)
                     + LeftOffset(column + 1, spanCount, horizontalSpacing);
      horizontalSpacing - 1 <= gap <= horizontalSpacing
  {
    var h, n := horizontalSpacing, spanCount;
    var a, b := h * (n - 1 - column), h * (column + 1);
    MulMonotone(h, 0, n - 1 - column);
    MulMonotone(h, 0, column + 1);
    assert a + b == h * n by {
      assert h * (n - 1 - column) + h * (column + 1) == h * ((n - 1 - column) + (column + 1));
    }
    SumOfQuotients(a, b, n);
    DivModUnique(h * n, n, h, 0);
  }

  /** Every row but the first is pushed down by `verticalSpacing`; the bottom is never set. */
  lemma RowSpacing(spanCount: int, horizontalSpacing: int, verticalSpacing: int, position: int, prior: Offsets)
    requires spanCount != 0
    ensures var r := ItemOffsets(spanCount, horizontalSpacing, verticalSpacing, position, prior);
      && r.top == (if position >= spanCount then verticalSpacing else prior.top)
      && r.bottom == prior.bottom
  {
  }

  /** Without a `NO_POSITION` guard, a detached view (position -1) in a grid of two or more
      columns is placed in column -1: it gets a full `horizontalSpacing` on the right and a
      non-positive left offset. */
  lemma DetachedViewOffsets(spanCount: int, horizontalSpacing: int, verticalSpacing: int, prior: Offsets)
    requires spanCount >= 2 && horizontalSpacing >= 0
    ensures var r := ItemOffsets(spanCount, horizontalSpacing, verticalSpacing, NO_POSITION, prior);
      && Column(NO_POSITION, spanCount) == -1
      && r.right == horizontalSpacing
      && r.left <= 0
      && r.top == prior.top
  {
    assert spanCount - 1 - -1 == spanCount;
    TDivOfMultiple(spanCount, horizontalSpacing);
    assert horizontalSpacing * spanCount == spanCount * horizontalSpacing;
  }
}
