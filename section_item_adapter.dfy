/** `SectionItemAdapter`: the rows of the section-setting screen. The adapter decides how a
    row changed between two lists and keeps the character counter of the edited row. */
module SectionItemAdapter {
  import opened Common
  import opened Res
  import SectionSetting

  type SectionItem = SectionSetting.SectionItem

  /** The longest section name the counter counts towards. */
  const COUNTER_LIMIT: nat := 10
  const PAYLOAD_EDITING_CHANGED: string := "payload_editing_changed"

  /** `areItemsTheSame`. */
  predicate AreItemsTheSame(oldItem: SectionItem, newItem: SectionItem) {
    oldItem.id == newItem.id
  }

  /** `areContentsTheSame`: the records are equal. */
  predicate AreContentsTheSame(oldItem: SectionItem, newItem: SectionItem) {
    oldItem == newItem
  }

  /** `getChangePayload`: the editing payload when only the edit state moved. */
  function ChangePayload(oldItem: SectionItem, newItem: SectionItem): (r: Option<string>)
    ensures r.Some? <==> oldItem.name == newItem.name && oldItem.isEditing != newItem.isEditing
    ensures r.Some? ==> r.value == PAYLOAD_EDITING_CHANGED
  {
    if oldItem.name == newItem.name && oldItem.isEditing != newItem.isEditing then Some(PAYLOAD_EDITING_CHANGED)
    else None
  }

  /** A payload is only produced for a real content change, and for the same row it is
      produced exactly when the edit state is all that changed. */
  lemma PayloadOnlyForEditToggle(oldItem: SectionItem, newItem: SectionItem)
    ensures ChangePayload(oldItem, newItem).Some? ==> !AreContentsTheSame(oldItem, newItem)
    ensures AreItemsTheSame(oldItem, newItem) ==>
      (ChangePayload(oldItem, newItem).Some? <==> newItem == oldItem.(isEditing := !oldItem.isEditing))
  {
  }

  /** The two DiffUtil callbacks agree: rows with equal contents are the same item and are
      never rebound with a payload, and being the same item does not depend on the order. */
  lemma DiffCallbacksAgree(oldItem: SectionItem, newItem: SectionItem)
    ensures AreContentsTheSame(oldItem, newItem) ==>
      AreItemsTheSame(oldItem, newItem) && ChangePayload(oldItem, newItem).None?
    ensures AreItemsTheSame(oldItem, newItem) <==> AreItemsTheSame(newItem, oldItem)
  {
  }

  /** Toggling a row's edit state, as `startEditSection` and `cancelEditing` do, is always
      rebound through the payload. */
  lemma EditToggleUsesPayload(item: SectionItem)
    ensures ChangePayload(item, item.(isEditing := !item.isEditing)) == Some(PAYLOAD_EDITING_CHANGED)
    ensures ChangePayload(item, item).None?
  {
  }

  /** The counter colour: red at or past the limit, assistive when empty, else secondary. */
  function CounterColor(length: nat): (c: ColorRes)
    ensures c == AccentRedNormal <==> length >= COUNTER_LIMIT
    ensures c == LabelAssistive <==> length == 0
    ensures c == SecondaryNormal <==> 0 < length < COUNTER_LIMIT
  {
    if length >= COUNTER_LIMIT then AccentRedNormal
    else if length == 0 then LabelAssistive
    else SecondaryNormal
  }

  /** The counter text `"<length>/10"`. */
  function CounterText(length: nat): (s: string)
    ensures exists k :: 1 <= k && k + 3 == |s| && IsDigits(s[..k]) && ParseDigits(s[..k]) == length && s[k..] == "/10"
  {
    var digits := NatToString(length);
    var s := digits + "/10";
    ParseNatToString(length);
    assert s[..|digits|] == digits && s[|digits|..] == "/10";
    s
  }

  /** The counter of an edited row. */
  class SectionViewHolder {
    var countText: string
    var countColor: ColorRes
    var underlineColor: ColorRes
    /** Every length handed to `onTextLengthChanged`, in order. */
    var reportedLengths: seq<nat>

    constructor ()
      ensures countText == "" && reportedLengths == []
    {
      countText := "";
      countColor := LabelAssistive;
      underlineColor := LabelAssistive;
      reportedLengths := [];
    }

    /** `updateCharCount`: text and both colours follow the length, which is reported. */
    method UpdateCharCount(length: nat)
      modifies this
      ensures countText == CounterText(length)
      ensures countColor == CounterColor(length) && underlineColor == countColor
      ensures reportedLengths == old(reportedLengths) + [length]
    {
      countText := NatToString(length) + "/10";
      var colorRes := if length >= COUNTER_LIMIT then AccentRedNormal else if length == 0 then LabelAssistive else SecondaryNormal;
      countColor := colorRes;
      underlineColor := colorRes;
      reportedLengths := reportedLengths + [length];
    }

    /** The text watcher's `afterTextChanged`: a null text counts as empty. */
    method AfterTextChanged(s: Option<string>)
      modifies this
      ensures var length := if s.Some? then |s.value| else 0;
        countText == CounterText(length) && countColor == CounterColor(length)
        && reportedLengths == old(reportedLengths) + [length]
    {
      var length := if s.Some? then |s.value| else 0;
      UpdateCharCount(length);
    }
  }
}
