/** `OptionPopup`: a small menu shown next to an anchor view. A `Builder` collects the entries
    and the selection listener; `show` places the popup right-aligned with the anchor, kept
    16 px inside the screen horizontally, and below the anchor when there is room, above it
    otherwise. Picking an entry hands it to the listener and closes the popup. */
module OptionPopups {
  import opened Common
  import opened Options
  import opened Res

  const EDGE_MARGIN := 16
  const ANCHOR_MARGIN := 8

  /** The sizes and positions `show` reads from the views and the display, in pixels. */
  datatype Geometry = Geometry(anchorX: int, anchorY: int, anchorWidth: int, anchorHeight: int,
                               popupWidth: int, popupHeight: int, screenWidth: int, screenHeight: int)

  /** Kotlin's `coerceIn(lo, hi)`, which throws when the range is empty. */
  function CoerceIn(v: int, lo: int, hi: int): (r: Option<int>)
    ensures r.None? <==> lo > hi
    ensures r.Some? ==> lo <= r.value <= hi
    ensures r.Some? && lo <= v <= hi ==> r.value == v
    ensures r.Some? && v < lo ==> r.value == lo
    ensures r.Some? && v > hi ==> r.value == hi
  {
    if lo > hi then None else if v < lo then Some(lo) else if v > hi then Some(hi) else Some(v)
  }

  /** The horizontal position, or None where `coerceIn` throws. */
  function PopupX(g: Geometry): (r: Option<int>)
    ensures r.None? <==> g.screenWidth - g.popupWidth < 2 * EDGE_MARGIN
    ensures r.Some? ==> EDGE_MARGIN <= r.value && r.value + g.popupWidth <= g.screenWidth - EDGE_MARGIN
    ensures r.Some? && EDGE_MARGIN <= g.anchorX + g.anchorWidth - g.popupWidth
                    && g.anchorX + g.anchorWidth <= g.screenWidth - EDGE_MARGIN ==>
      r.value + g.popupWidth == g.anchorX + g.anchorWidth
  {
    CoerceIn(g.anchorX + g.anchorWidth - g.popupWidth, EDGE_MARGIN, g.screenWidth - g.popupWidth - EDGE_MARGIN)
  }

  /** Whether the popup goes below the anchor. */
  predicate FitsBelow(g: Geometry) {
    g.screenHeight - g.anchorY - g.anchorHeight >= g.popupHeight + ANCHOR_MARGIN
  }

  /** The vertical position. */
  function PopupY(g: Geometry): (r: int)
    ensures FitsBelow(g) ==> r == g.anchorY + g.anchorHeight + ANCHOR_MARGIN && r + g.popupHeight <= g.screenHeight
    ensures !FitsBelow(g) ==> r + g.popupHeight + ANCHOR_MARGIN == g.anchorY
  {
    if FitsBelow(g) then g.anchorY + g.anchorHeight + ANCHOR_MARGIN else g.anchorY - g.popupHeight - ANCHOR_MARGIN
  }

  /** Wherever it goes, the popup keeps a gap of 8 px to the anchor: it starts 8 px under the
      anchor's bottom edge or ends 8 px over its top edge. Only below does it surely fit on
      screen; above, it may start off the top of the screen. */
  lemma PopupClearsAnchor(g: Geometry)
    ensures PopupY(g) >= g.anchorY + g.anchorHeight + ANCHOR_MARGIN || PopupY(g) + g.popupHeight + ANCHOR_MARGIN <= g.anchorY
    ensures !FitsBelow(g) && g.anchorY < g.popupHeight + ANCHOR_MARGIN ==> PopupY(g) < 0
  {
  }

  /** The popup window: absent, created but not (or no longer) on screen, or shown at a
      position. */
  datatype Window = NoWindow | Created | Shown(x: int, y: int)

  class OptionPopup {
    const options: seq<OptionItem>
    const hasListener: bool
    var window: Window
    /** The entries handed to `onOptionSelected`, in order. */
    var delivered: seq<OptionItem>
    /** Windows still on screen that no reference reaches any more: `show` on a shown popup
        replaces `popupWindow` without dismissing the old window. */
    var strayWindows: nat

    constructor (options: seq<OptionItem>, hasListener: bool)
      ensures this.options == options && this.hasListener == hasListener
      ensures window == NoWindow && delivered == [] && strayWindows == 0
    {
      this.options := options;
      this.hasListener := hasListener;
      window := NoWindow;
      delivered := [];
      strayWindows := 0;
    }

    /** `isShowing`. */
    predicate IsShowing()
      reads this
    {
      window.Shown?
    }

    /** `show`: a new window replaces the old one; it is shown at the computed position, or,
        when the horizontal range is empty, `coerceIn` throws (`ok` is false) and the new
        window is left created but not shown. */
    method Show(g: Geometry) returns (ok: bool)
      modifies this
      ensures ok <==> PopupX(g).Some?
      ensures ok ==> window == Shown(PopupX(g).value, PopupY(g))
      ensures !ok ==> window == Created && !IsShowing()
      ensures strayWindows == old(strayWindows) + (if old(window).Shown? then 1 else 0)
      ensures delivered == old(delivered)
    {
      if window.Shown? {
        strayWindows := strayWindows + 1;
      }
      window := Created;
      var x := CoerceIn(g.anchorX + g.anchorWidth - g.popupWidth, EDGE_MARGIN, g.screenWidth - g.popupWidth - EDGE_MARGIN);
      if x.None? {
        return false;
      }
      var y := if g.screenHeight - g.anchorY - g.anchorHeight >= g.popupHeight + ANCHOR_MARGIN
               then g.anchorY + g.anchorHeight + ANCHOR_MARGIN
               else g.anchorY - g.popupHeight - ANCHOR_MARGIN;
      window := Shown(x.value, y);
      ok := true;
    }

    /** `dismiss`: the window is closed and dropped. */
    method Dismiss()
      modifies this
      ensures window == NoWindow && !IsShowing()
      ensures delivered == old(delivered) && strayWindows == old(strayWindows)
    {
      window := NoWindow;
    }

    /** A tap on the entry at `index` of the shown popup: the listener, if any, receives it,
        then the popup is dismissed. */
    method SelectOption(index: int)
      requires IsShowing() && 0 <= index < |options|
      modifies this
      ensures delivered == old(delivered) + (if hasListener then [options[index]] else [])
      ensures window == NoWindow && !IsShowing()
      ensures strayWindows == old(strayWindows)
    {
      if hasListener {
        delivered := delivered + [options[index]];
      }
      Dismiss();
    }
  }

  class Builder {
    var options: seq<OptionItem>
    var hasListener: bool

    constructor ()
      ensures options == [] && !hasListener
    {
      options := [];
      hasListener := false;
    }

    /** `addOption`: the entry goes last. */
    method AddOption(option: OptionItem)
      modifies this
      ensures options == old(options) + [option] && hasListener == old(hasListener)
    {
      options := options + [option];
    }

    /** `addOptions`: the entries go last, in the order given. */
    method AddOptions(optionList: seq<OptionItem>)
      modifies this
      ensures options == old(options) + optionList && hasListener == old(hasListener)
    {
      options := options + optionList;
    }

    method SetOnOptionSelectedListener()
      modifies this
      ensures options == old(options) && hasListener
    {
      hasListener := true;
    }

    /** `build`: a popup over a copy of the entries collected so far, not yet shown; entries
        added to the builder afterwards do not reach it. */
    method Build() returns (popup: OptionPopup)
      ensures fresh(popup)
      ensures popup.options == options && popup.hasListener == hasListener
      ensures popup.window == NoWindow && popup.delivered == [] && popup.strayWindows == 0
    {
      popup := new OptionPopup(options, hasListener);
    }

    /** The builder's `show`: build, then show the new popup. */
    method Show(g: Geometry) returns (popup: OptionPopup, ok: bool)
      ensures fresh(popup)
      ensures popup.options == options && popup.hasListener == hasListener
      ensures ok <==> PopupX(g).Some?
      ensures ok ==> popup.window == Shown(PopupX(g).value, PopupY(g))
      ensures !ok ==> !popup.IsShowing()
      ensures popup.delivered == []
    {
      popup := Build();
      ok := popup.Show(g);
    }
  }

  /** The preset builders: the entries they add, in order, with the listener set. */
  method BasicOptions() returns (b: Builder)
    ensures fresh(b) && b.options == [EditName(), Delete()] && b.hasListener
  {
    b := new Builder();
    b.AddOption(EditName());
    b.AddOption(Delete());
    b.SetOnOptionSelectedListener();
  }

  method VideoOptions() returns (b: Builder)
    ensures fresh(b) && b.options == [EditName(), MovePart(), Delete()] && b.hasListener
  {
    b := new Builder();
    b.AddOption(EditName());
    b.AddOption(MovePart());
    b.AddOption(Delete());
    b.SetOnOptionSelectedListener();
  }

  method ReportOptions() returns (b: Builder)
    ensures fresh(b) && b.options == [ReportAsWritten()] && b.hasListener
  {
    b := new Builder();
    b.AddOption(ReportAsWritten());
    b.SetOnOptionSelectedListener();
  }

  method FeedbackOptions() returns (b: Builder)
    ensures fresh(b) && b.options == [EditFeedbackAsWritten(), ReportAsWritten()] && b.hasListener
  {
    b := new Builder();
    b.AddOption(EditFeedbackAsWritten());
    b.AddOption(ReportAsWritten());
    b.SetOnOptionSelectedListener();
  }

  /** `reportOptions` over the corrected report entry. */
  method CorrectedReportOptions() returns (b: Builder)
    ensures fresh(b) && b.options == [Report()] && b.hasListener
  {
    b := new Builder();
    b.AddOption(Report());
    b.SetOnOptionSelectedListener();
  }

  /** `feedbackOptions` over the corrected entries. */
  method CorrectedFeedbackOptions() returns (b: Builder)
    ensures fresh(b) && b.options == [EditFeedback(), Report()] && b.hasListener
  {
    b := new Builder();
    b.AddOption(EditFeedback());
    b.AddOption(Report());
    b.SetOnOptionSelectedListener();
  }

  method TeamspaceOptions() returns (b: Builder)
    ensures fresh(b) && b.options == [RenameTeamspace(), KickMember()] && b.hasListener
  {
    b := new Builder();
    b.AddOption(RenameTeamspace());
    b.AddOption(KickMember());
    b.SetOnOptionSelectedListener();
  }

  /** Picking from a preset popup of the video list, as written: the delete entry and the
      report entry both reach the delete branch, and no preset reaches the report branch. */
  lemma VideoPresetsDispatch()
    ensures forall o :: o in [EditName(), MovePart(), Delete()] + [ReportAsWritten()] ==>
      (HandleVideoOption(o) == ShowDeleteToast <==> o.titleRes in {DeleteOption, ReportOption})
    ensures HandleVideoOption(ReportAsWritten()) == ShowDeleteToast
    ensures forall o :: o in Presets() ==> HandleVideoOption(o) != ShowReportToast
  {
  }

  /** With the corrected entries, the delete entry deletes, and only it, and the report
      entry reports. */
  lemma CorrectedVideoPresetsDispatch()
    ensures forall o :: o in [EditName(), MovePart(), Delete()] + [Report()] ==>
      (HandleVideoOption(o) == ShowDeleteToast <==> o == Delete())
    ensures HandleVideoOption(Report()) == ShowReportToast
  {
  }
}
