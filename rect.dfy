/** `android.graphics.Rect` as RecyclerView hands it to `ItemDecoration.getItemOffsets`: a
    mutable out-parameter whose four fields the decoration may overwrite. */
module Rects {

  /** The four offsets of a rect, as a value. */
  datatype Offsets = Offsets(left: int, top: int, right: int, bottom: int)

  /** `RecyclerView.NO_POSITION`. */
  const NO_POSITION: int := -1

  /** `RecyclerView.HORIZONTAL` and `RecyclerView.VERTICAL`. */
  const HORIZONTAL: int := 0
  const VERTICAL: int := 1

  class Rect {
    var left: int
    var top: int
    var right: int
    var bottom: int

    /** RecyclerView clears the rect before asking each decoration for offsets. */
    constructor ()
      ensures Value() == Offsets(0, 0, 0, 0)
    {
      left, top, right, bottom := 0, 0, 0, 0;
    }

    function Value(): Offsets
      reads this
    {
      Offsets(left, top, right, bottom)
    }
  }
}
