/** `SectionChipItemDecoration`: a horizontal row of section chips with `spacing` to the right
    of every chip but the last. */
module SectionChipDecoration {
  import opened Rects

  function ItemOffsets(spacing: int, position: int, itemCount: int, prior: Offsets): Offsets {
    if position < itemCount - 1 then prior.(right := spacing) else prior
  }

  class SectionChipItemDecoration {
    const spacing: int

    constructor (spacing: int)
      ensures this.spacing == spacing
    {
      this.spacing := spacing;
    }

    method GetItemOffsets(outRect: Rect, position: int, itemCount: int)
      modifies outRect
      ensures outRect.Value() == ItemOffsets(spacing, position, itemCount, old(outRect.Value()))
    {
      if position < itemCount - 1 {
        outRect.right := spacing;
      }
    }
  }

  /** Every chip but the last has `spacing` on its right, the last keeps its right offset, and
      nothing else is ever changed. */
  lemma RightSpacingExceptLast(spacing: int, position: int, itemCount: int, prior: Offsets)
    requires 0 <= position < itemCount
    ensures var r := ItemOffsets(spacing, position, itemCount, prior);
      && (r.right == spacing <== position < itemCount - 1)
      && (position == itemCount - 1 ==> r == prior)
      && r.left == prior.left && r.top == prior.top && r.bottom == prior.bottom
  {
  }

  /** There is no `NO_POSITION` guard: a detached view (position -1) in a non-empty row gets the
      right spacing like an inner chip. */
  lemma DetachedViewGetsSpacing(spacing: int, itemCount: int, prior: Offsets)
    requires itemCount >= 1
    ensures ItemOffsets(spacing, NO_POSITION, itemCount, prior).right == spacing
  {
  }
}
