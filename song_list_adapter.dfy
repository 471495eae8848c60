/** `SongListAdapter`: the song lists of one project, at most one of which has its name being
    edited in place, and the length filter it declares for that name. */
module SongList {
  import opened Common
  import MaxLengthFilter

  /** A song list as the adapter shows it (its other fields are not part of this model). */
  datatype SongListSummary = SongListSummary(id: string, title: string)

  /** The first list item with the given id (`firstOrNull { it.id == id }`). */
  function FirstWithId(items: seq<SongListSummary>, id: string): (r: Option<SongListSummary>)
    ensures r.Some? ==> r.value in items && r.value.id == id
    ensures r.None? <==> forall i :: 0 <= i < |items| ==> items[i].id != id
    ensures r.Some? ==> exists i :: 0 <= i < |items| && items[i] == r.value
                                    && forall j :: 0 <= j < i ==> items[j].id != id
  {
    if items == [] then None
    else if items[0].id == id then Some(items[0])
    else
      var rest := FirstWithId(items[1..], id);
      assert forall i :: 1 <= i < |items| ==> items[i] == items[1..][i - 1];
      rest
  }

  /** The `onRename` call `commitEditAndExit` makes, if any: the first item with the edited id,
      with the trimmed draft, when that is not empty. */
  function RenameCall(items: seq<SongListSummary>, id: string, draft: string): Option<(SongListSummary, string)> {
    var newName := Trim(draft);
    if newName != [] && FirstWithId(items, id).Some? then Some((FirstWithId(items, id).value, newName))
    else None
  }

  /** Rename is requested exactly when the trimmed draft is not empty and some item has the
      edited id, and then with that item and the trimmed draft. */
  lemma RenameCallSpec(items: seq<SongListSummary>, id: string, draft: string)
    ensures RenameCall(items, id, draft).Some? <==>
      !IsBlank(draft) && exists i :: 0 <= i < |items| && items[i].id == id
    ensures RenameCall(items, id, draft).Some? ==>
      var (item, name) := RenameCall(items, id, draft).value;
      item in items && item.id == id && name == Trim(draft) && name != []
  {
    TrimEmptyIffBlank(draft);
  }

  class SongListAdapter {
    var currentList: seq<SongListSummary>
    var editingId: Option<string>
    var editingDraft: string
    /** The `onRename` calls made so far. */
    var renames: seq<(SongListSummary, string)>
    /** The values reported through `onEditStateChanged` so far. */
    var editStateEvents: seq<bool>

    constructor ()
      ensures currentList == [] && editingId == None && editingDraft == ""
      ensures renames == [] && editStateEvents == []
    {
      currentList := [];
      editingId := None;
      editingDraft := "";
      renames := [];
      editStateEvents := [];
    }

    /** A row shows its edit card exactly when its id is the one being edited. */
    predicate ShowsEditCard(item: SongListSummary)
      reads this
    {
      editingId == Some(item.id)
    }

    method SubmitList(items: seq<SongListSummary>)
      modifies this
      ensures currentList == items
      ensures editingId == old(editingId) && editingDraft == old(editingDraft)
      ensures renames == old(renames) && editStateEvents == old(editStateEvents)
    {
      currentList := items;
    }

    method SetEditMode(id: string, current: string)
      modifies this
      ensures editingId == Some(id) && editingDraft == current
      ensures editStateEvents == old(editStateEvents) + [true]
      ensures currentList == old(currentList) && renames == old(renames)
    {
      editingId := Some(id);
      editingDraft := current;
      editStateEvents := editStateEvents + [true];
    }

    method ClearEditMode()
      modifies this
      ensures editingId == None && editingDraft == ""
      ensures editStateEvents == old(editStateEvents) + [false]
      ensures currentList == old(currentList) && renames == old(renames)
    {
      editingId := None;
      editingDraft := "";
      editStateEvents := editStateEvents + [false];
    }

    /** The edit field's text watcher keeps the draft in step with the text. */
    method OnDraftChanged(text: string)
      modifies this
      ensures editingDraft == text
      ensures editingId == old(editingId) && currentList == old(currentList)
      ensures renames == old(renames) && editStateEvents == old(editStateEvents)
    {
      editingDraft := text;
    }

    method CommitEditAndExit() returns (committed: bool)
      modifies this
      ensures committed <==> old(editingId).Some?
      ensures !committed ==> unchanged(this)
      ensures committed ==> (editingId == None && editingDraft == ""
                             && editStateEvents == old(editStateEvents) + [false])
      ensures committed ==> (renames == old(renames) +
        match RenameCall(old(currentList), old(editingId).value, old(editingDraft))
        case Some(call) => [call]
        case None => [])
      ensures currentList == old(currentList)
    {
      if editingId.None? {
        return false;
      }
      var id := editingId.value;
      var newName := Trim(editingDraft);
      if newName != [] {
        var item := FirstWithId(currentList, id);
        if item.Some? {
          renames := renames + [(item.value, newName)];
        }
      }
      ClearEditMode();
      return true;
    }
  }

  /** At most one id is in edit mode: two rows showing the edit card have the same id. */
  lemma AtMostOneRowEditing(adapter: SongListAdapter, a: SongListSummary, b: SongListSummary)
    requires adapter.ShowsEditCard(a) && adapter.ShowsEditCard(b)
    ensures a.id == b.id
  {
  }

  // ---------------------------------------------------------------------------------------
  // `LengthFilterWithToast`, a private filter declared beside the adapter.

  /** `LengthFilterWithToast.filter`; `exceeded` says whether `onOverflow` ran. With a `null`
      source in the truncating branch the nullable `toString()` yields the text "null". */
  function LengthFilterWithToast(max: int, source: Option<string>, start: int, end: int,
                                 dest: Option<string>, dstart: int, dend: int): (r: MaxLengthFilter.Filtered)
    requires MaxLengthFilter.FilterArgs(source, start, end, dest, dstart, dend)
    ensures r.exceeded <==> r.result.Replace?
  {
    var keep := MaxLengthFilter.Keep(max, MaxLengthFilter.Len(dest), dstart, dend);
    if keep >= end - start then MaxLengthFilter.Filtered(MaxLengthFilter.Accept, false)
    else if keep <= 0 then MaxLengthFilter.Filtered(MaxLengthFilter.Replace(""), true)
    else MaxLengthFilter.Filtered(
      MaxLengthFilter.Replace(if source.Some? then source.value[start..start + keep] else "null"), true)
  }

  /** For a real source the toast filter edits the text exactly as `MaxLengthInputFilter`
      does. They differ only in when the callback runs, in two corner cases: an empty source
      into an over-full field is reported by the toast filter alone, and a non-empty source
      offering an empty span into a field with no room left is reported by
      `MaxLengthInputFilter` alone. */
  lemma ToastFilterAgreesWithMaxLengthFilter(max: int, source: string, start: int, end: int,
                                             dest: Option<string>, dstart: int, dend: int)
    requires MaxLengthFilter.FilterArgs(Some(source), start, end, dest, dstart, dend)
    ensures var t := LengthFilterWithToast(max, Some(source), start, end, dest, dstart, dend);
      var m := MaxLengthFilter.Filter(max, Some(source), start, end, dest, dstart, dend);
      && MaxLengthFilter.Inserted(source, start, end, t.result) == MaxLengthFilter.Inserted(source, start, end, m.result)
      && var keep := MaxLengthFilter.Keep(max, MaxLengthFilter.Len(dest), dstart, dend);
      && (t.exceeded && !m.exceeded <==> source == [] && keep < 0)
      && (m.exceeded && !t.exceeded <==> source != [] && start == end && keep == 0)
  {
  }
}
