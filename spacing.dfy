/** `SpacingItemDecoration`: a linear list whose items are `spacing` apart along the list's
    orientation, optionally with `spacing` before the first and after the last item too. */
module Spacing {
  import opened Rects

  /** The rect after `getItemOffsets` for the item at `position` of `itemCount`, from `prior`. */
  function ItemOffsets(spacing: int, orientation: int, includeEdge: bool,
                       position: int, itemCount: int, prior: Offsets): Offsets
  {
    if position == NO_POSITION then prior
    else
      var isLast := position == itemCount - 1;
      if orientation == HORIZONTAL then
        var left := if position > 0 || (includeEdge && position == 0) then spacing else prior.left;
        var right := if includeEdge && isLast then spacing else prior.right;
        prior.(left := left, right := right)
      else if orientation == VERTICAL then
        var top := if position > 0 || (includeEdge && position == 0) then spacing else prior.top;
        var bottom := if includeEdge && isLast then spacing else prior.bottom;
        prior.(top := top, bottom := bottom)
      else prior
  }

  /** The offset an item gets before it along the list (left or top). */
  function Leading(orientation: int, o: Offsets): int {
    if orientation == HORIZONTAL then o.left else o.top
  }

  /** The offset an item gets after it along the list (right or bottom). */
  function Trailing(orientation: int, o: Offsets): int {
    if orientation == HORIZONTAL then o.right else o.bottom
  }

  class SpacingItemDecoration {
    const spacing: int
    const orientation: int
    const includeEdge: bool

    /** The defaults are a vertical list without edges. */
    constructor (spacing: int, orientation: int := VERTICAL, includeEdge: bool := false)
      ensures this.spacing == spacing && this.orientation == orientation && this.includeEdge == includeEdge
    {
      this.spacing := spacing;
      this.orientation := orientation;
      this.includeEdge := includeEdge;
    }

    method GetItemOffsets(outRect: Rect, position: int, itemCount: int)
      modifies outRect
      ensures outRect.Value() == ItemOffsets(spacing, orientation, includeEdge, position, itemCount, old(outRect.Value()))
    {
      if position == NO_POSITION {
        return;
      }
      var isLast := position == itemCount - 1;
      if orientation == HORIZONTAL {
        if position > 0 {
          outRect.left := spacing;
        }
        if includeEdge {
          if position == 0 {
            outRect.left := spacing;
          }
          if isLast {
            outRect.right := spacing;
          }
        }
      } else if orientation == VERTICAL {
        if position > 0 {
          outRect.top := spacing;
        }
        if includeEdge {
          if position == 0 {
            outRect.top := spacing;
          }
          if isLast {
            outRect.bottom := spacing;
          }
        }
      }
    }
  }

  /** Between two consecutive items of a list the gap is exactly `spacing` (from cleared
      rects), in either orientation and either mode. */
  lemma ConsecutiveGap(spacing: int, orientation: int, includeEdge: bool, position: int, itemCount: int)
    requires orientation == HORIZONTAL || orientation == VERTICAL
    requires 0 <= position && position + 1 < itemCount
    ensures var zero := Offsets(0, 0, 0, 0);
      Trailing(orientation, ItemOffsets(spacing, orientation, includeEdge, position, itemCount, zero))
      + Leading(orientation, ItemOffsets(spacing, orientation, includeEdge, position + 1, itemCount, zero)) == spacing
  {
  }

  /** The ends of the list: the first item's leading offset and the last item's trailing
      offset are `spacing` with `includeEdge` and untouched without it. */
  lemma ListEnds(spacing: int, orientation: int, includeEdge: bool, itemCount: int, prior: Offsets)
    requires orientation == HORIZONTAL || orientation == VERTICAL
    requires itemCount >= 1
    ensures Leading(orientation, ItemOffsets(spacing, orientation, includeEdge, 0, itemCount, prior))
         == (if includeEdge then spacing else Leading(orientation, prior))
    ensures Trailing(orientation, ItemOffsets(spacing, orientation, includeEdge, itemCount - 1, itemCount, prior))
         == (if includeEdge then spacing else Trailing(orientation, prior))
  {
  }

  /** Only the two sides along the orientation are ever written; an unknown orientation or
      `NO_POSITION` leaves the rect as it was. */
  lemma CrossAxisUntouched(spacing: int, orientation: int, includeEdge: bool, position: int, itemCount: int, prior: Offsets)
    ensures var r := ItemOffsets(spacing, orientation, includeEdge, position, itemCount, prior);
      && (orientation == HORIZONTAL ==> r.top == prior.top && r.bottom == prior.bottom)
      && (orientation == VERTICAL ==> r.left == prior.left && r.right == prior.right)
      && (orientation != HORIZONTAL && orientation != VERTICAL ==> r == prior)
      && (position == NO_POSITION ==> r == prior)
  {
  }

  /** Without `includeEdge` no item gets a trailing offset, so spacing is only ever placed
      before an item. */
  lemma NoTrailingWithoutEdge(spacing: int, orientation: int, position: int, itemCount: int, prior: Offsets)
    requires orientation == HORIZONTAL || orientation == VERTICAL
    ensures Trailing(orientation, ItemOffsets(spacing, orientation, false, position, itemCount, prior))
         == Trailing(orientation, prior)
  {
  }
}
