/** `SectionSettingViewModel`: the screen that renames, adds and deletes the sections of a
    track. At most one row is edited at a time; adding uses a placeholder row with a reserved
    id until the name is confirmed. */
module SectionSetting {
  import opened Common

  /** The default section, which the screen never lists. */
  const DEFAULT_SECTION_TITLE: string := "일반"
  /** The id of the placeholder row of a section being added. */
  const NEW_ID: string := "NEW_SECTION_ITEM"

  datatype SectionItem = SectionItem(id: string, name: string, isEditing: bool)

  /** `editingItem`: the first row being edited. */
  function EditingItem(list: seq<SectionItem>): (r: Option<SectionItem>)
    ensures r.None? <==> forall i :: 0 <= i < |list| ==> !list[i].isEditing
    ensures r.Some? ==> exists i :: 0 <= i < |list| && list[i] == r.value && r.value.isEditing
                                    && forall j :: 0 <= j < i ==> !list[j].isEditing
  {
    if list == [] then None
    else if list[0].isEditing then Some(list[0])
    else
      var r := EditingItem(list[1..]);
      assert r.Some? ==> exists i :: 0 <= i < |list[1..]| && list[1..][i] == r.value && forall j :: 0 <= j < i ==> !list[1..][j].isEditing;
      if r.Some? then
        var i :| 0 <= i < |list[1..]| && list[1..][i] == r.value && forall j :: 0 <= j < i ==> !list[1..][j].isEditing;
        assert list[i + 1] == r.value && forall j :: 0 <= j < i + 1 ==> !list[j].isEditing;
        r
      else r
  }

  /** `loadSections`' rows: every section except the default one, in order, none edited. */
  function Rows(sections: seq<Section>): (r: seq<SectionItem>)
    ensures |r| <= |sections|
    ensures forall x :: x in r <==> exists s :: s in sections && s.title != DEFAULT_SECTION_TITLE && x == SectionItem(s.id, s.title, false)
    ensures forall i :: 0 <= i < |r| ==> !r[i].isEditing
  {
    if sections == [] then []
    else
      var s := sections[0];
      assert sections == [s] + sections[1..];
      (if s.title == DEFAULT_SECTION_TITLE then [] else [SectionItem(s.id, s.title, false)]) + Rows(sections[1..])
  }

  /** `indexOfFirst { it.id == id }`. */
  function IndexOfId(list: seq<SectionItem>, id: string): (r: int)
    ensures -1 <= r < |list|
    ensures r == -1 <==> forall i :: 0 <= i < |list| ==> list[i].id != id
    ensures r >= 0 ==> list[r].id == id && forall j :: 0 <= j < r ==> list[j].id != id
  {
    if list == [] then -1
    else if list[0].id == id then 0
    else
      var k := IndexOfId(list[1..], id);
      if k == -1 then -1 else k + 1
  }

  /** `getEditingPosition`: -1 without an edited row, else the first position with its id. */
  function EditingPosition(list: seq<SectionItem>): (r: int)
    ensures r == -1 <==> EditingItem(list).None?
    ensures r >= 0 ==> r < |list| && list[r].id == EditingItem(list).value.id
                       && forall j :: 0 <= j < r ==> list[j].id != EditingItem(list).value.id
  {
    var item := EditingItem(list);
    if item.None? then -1 else IndexOfId(list, item.value.id)
  }

  /** `startAddSection`'s update. */
  function WithPlaceholder(list: seq<SectionItem>): seq<SectionItem> {
    list + [SectionItem(NEW_ID, "", true)]
  }

  /** `startEditSection`'s update: exactly the rows with the id are edited. */
  function MarkEditing(list: seq<SectionItem>, id: string): (r: seq<SectionItem>)
    ensures |r| == |list|
    ensures forall i :: 0 <= i < |list| ==>
      r[i].id == list[i].id && r[i].name == list[i].name && (r[i].isEditing <==> list[i].id == id)
  {
    seq(|list|, i requires 0 <= i < |list| => list[i].(isEditing := list[i].id == id))
  }

  /** `cancelEditing`'s update: an edited placeholder goes, other edited rows stop editing. */
  function Cancelled(list: seq<SectionItem>): (r: seq<SectionItem>)
    ensures |r| <= |list|
    ensures forall i :: 0 <= i < |r| ==> !r[i].isEditing
  {
    if list == [] then []
    else
      var item := list[0];
      (if item.isEditing && item.id == NEW_ID then []
       else if item.isEditing then [item.(isEditing := false)]
       else [item]) + Cancelled(list[1..])
  }

  /** A request the screen sends to the repository. */
  datatype SectionRequest = AddSection(title: string) | EditSection(sectionId: string, title: string) | DeleteSection(sectionId: string)

  datatype Toast = ErrorEditSection | ErrorDeleteSection

  /** What `completeEditSection` asks for: nothing for a blank name or with no edited row; an
      add for the placeholder; otherwise a rename of the edited section. */
  function CompleteRequest(list: seq<SectionItem>, newName: string): (r: Option<SectionRequest>)
    ensures r.None? <==> IsBlank(newName) || EditingItem(list).None?
    ensures r.Some? ==> (r.value.AddSection? <==> EditingItem(list).value.id == NEW_ID)
    ensures r.Some? && r.value.AddSection? ==> r.value == AddSection(newName)
    ensures r.Some? && !r.value.AddSection? ==> r.value == EditSection(EditingItem(list).value.id, newName)
  {
    var item := EditingItem(list);
    if IsBlank(newName) || item.None? then None
    else if item.value.id == NEW_ID then Some(AddSection(newName))
    else Some(EditSection(item.value.id, newName))
  }

  class SectionSettingViewModel {
    var sectionItems: seq<SectionItem>
    var uiState: UiState<()>
    var requests: seq<SectionRequest>
    var toasts: seq<Toast>

    constructor ()
      ensures sectionItems == [] && uiState == Idle && requests == [] && toasts == []
    {
      sectionItems := [];
      uiState := Idle;
      requests := [];
      toasts := [];
    }

    /** `loadSections`' coroutine, given the repository's answer. */
    method LoadSections(result: DataResult<seq<Section>>)
      modifies this
      ensures result.Success? ==> sectionItems == Rows(result.data) && uiState == Loaded(())
      ensures result.Error? ==> sectionItems == old(sectionItems) && uiState == Failure(result.message)
      ensures requests == old(requests) && toasts == old(toasts)
    {
      uiState := Loading;
      match result {
        case Success(sections) =>
          var rows := [];
          for i := 0 to |sections|
            invariant rows == Rows(sections[..i])
            invariant requests == old(requests) && toasts == old(toasts)
          {
            assert sections[..i + 1] == sections[..i] + [sections[i]];
            RowsAppend(sections[..i], [sections[i]]);
            if sections[i].title != DEFAULT_SECTION_TITLE {
              rows := rows + [SectionItem(sections[i].id, sections[i].title, false)];
            }
          }
          assert sections[..|sections|] == sections;
          sectionItems := rows;
          uiState := Loaded(());
        case Error(m) =>
          uiState := Failure(m);
      }
    }

    method StartAddSection()
      modifies this
      ensures EditingItem(old(sectionItems)).Some? ==> sectionItems == old(sectionItems)
      ensures EditingItem(old(sectionItems)).None? ==> sectionItems == WithPlaceholder(old(sectionItems))
      ensures uiState == old(uiState) && requests == old(requests) && toasts == old(toasts)
    {
      if EditingItem(sectionItems).Some? {
        return;
      }
      sectionItems := sectionItems + [SectionItem(NEW_ID, "", true)];
    }

    method StartEditSection(item: SectionItem)
      modifies this
      ensures EditingItem(old(sectionItems)).Some? ==> sectionItems == old(sectionItems)
      ensures EditingItem(old(sectionItems)).None? ==> sectionItems == MarkEditing(old(sectionItems), item.id)
      ensures uiState == old(uiState) && requests == old(requests) && toasts == old(toasts)
    {
      if EditingItem(sectionItems).Some? {
        return;
      }
      sectionItems := MarkEditing(sectionItems, item.id);
    }

    /** `completeEditSection`: sends the request `CompleteRequest` picks; on success the
        sections are loaded again (`reload` is that answer), on failure a toast is shown. */
    method CompleteEditSection(newName: string, result: DataResult<()>, reload: DataResult<seq<Section>>)
      modifies this
      ensures var req := CompleteRequest(old(sectionItems), newName);
        req.None? ==> sectionItems == old(sectionItems) && uiState == old(uiState)
                      && requests == old(requests) && toasts == old(toasts)
      ensures var req := CompleteRequest(old(sectionItems), newName);
        req.Some? ==> requests == old(requests) + [req.value]
      ensures var req := CompleteRequest(old(sectionItems), newName);
        req.Some? && result.Error? ==>
          sectionItems == old(sectionItems) && uiState == Loaded(()) && toasts == old(toasts) + [ErrorEditSection]
      ensures var req := CompleteRequest(old(sectionItems), newName);
        req.Some? && result.Success? ==>
          toasts == old(toasts)
          && (reload.Success? ==> sectionItems == Rows(reload.data) && uiState == Loaded(()))
          && (reload.Error? ==> sectionItems == old(sectionItems) && uiState == Failure(reload.message))
    {
      var item := EditingItem(sectionItems);
      if IsBlank(newName) || item.None? {
        return;
      }
      uiState := Loading;
      if item.value.id == NEW_ID {
        requests := requests + [AddSection(newName)];
      } else {
        requests := requests + [EditSection(item.value.id, newName)];
      }
      match result {
        case Success(_) =>
          LoadSections(reload);
        case Error(_) =>
          uiState := Loaded(());
          toasts := toasts + [ErrorEditSection];
      }
    }

    method CancelEditing()
      modifies this
      ensures sectionItems == Cancelled(old(sectionItems))
      ensures uiState == old(uiState) && requests == old(requests) && toasts == old(toasts)
    {
      sectionItems := Cancelled(sectionItems);
    }

    /** `deleteSection`: on success the sections are loaded again, on failure a toast. */
    method DeleteSection(item: SectionItem, result: DataResult<()>, reload: DataResult<seq<Section>>)
      modifies this
      ensures requests == old(requests) + [SectionRequest.DeleteSection(item.id)]
      ensures result.Error? ==>
        sectionItems == old(sectionItems) && uiState == Loaded(()) && toasts == old(toasts) + [ErrorDeleteSection]
      ensures result.Success? ==>
        toasts == old(toasts)
        && (reload.Success? ==> sectionItems == Rows(reload.data) && uiState == Loaded(()))
        && (reload.Error? ==> sectionItems == old(sectionItems) && uiState == Failure(reload.message))
    {
      uiState := Loading;
      requests := requests + [SectionRequest.DeleteSection(item.id)];
      match result {
        case Success(_) =>
          LoadSections(reload);
        case Error(_) =>
          uiState := Loaded(());
          toasts := toasts + [ErrorDeleteSection];
      }
    }
  }

  lemma {:induction false} RowsAppend(a: seq<Section>, b: seq<Section>)
    ensures Rows(a + b) == Rows(a) + Rows(b)
  {
    if a == [] {
      assert a + b == b;
    } else {
      assert (a + b)[1..] == a[1..] + b;
      RowsAppend(a[1..], b);
    }
  }

  // ---------------------------------------------------------------------------------------
  // The single-edit discipline.

  function EditingCount(list: seq<SectionItem>): nat {
    if list == [] then 0 else (if list[0].isEditing then 1 else 0) + EditingCount(list[1..])
  }

  predicate UniqueIds(list: seq<SectionItem>) {
    forall i, j :: 0 <= i < j < |list| ==> list[i].id != list[j].id
  }

  lemma {:induction false} NoneEditingCount(list: seq<SectionItem>)
    requires forall i :: 0 <= i < |list| ==> !list[i].isEditing
    ensures EditingCount(list) == 0
  {
    if list != [] {
      NoneEditingCount(list[1..]);
    }
  }

  lemma {:induction false} EditingCountAppend(a: seq<SectionItem>, b: seq<SectionItem>)
    ensures EditingCount(a + b) == EditingCount(a) + EditingCount(b)
  {
    if a == [] {
      assert a + b == b;
    } else {
      assert (a + b)[1..] == a[1..] + b;
      EditingCountAppend(a[1..], b);
    }
  }

  /** Adding from a list with no edited row leaves exactly one edited row, the placeholder,
      which `getEditingPosition` finds at the end. */
  lemma StartAddEditsOnlyPlaceholder(list: seq<SectionItem>)
    requires EditingItem(list).None?
    ensures EditingCount(WithPlaceholder(list)) == 1
    ensures EditingItem(WithPlaceholder(list)) == Some(SectionItem(NEW_ID, "", true))
  {
    NoneEditingCount(list);
    EditingCountAppend(list, [SectionItem(NEW_ID, "", true)]);
    assert [SectionItem(NEW_ID, "", true)][1..] == [];
    EditingItemSkipsClean(list, [SectionItem(NEW_ID, "", true)]);
  }

  lemma {:induction false} EditingItemSkipsClean(a: seq<SectionItem>, b: seq<SectionItem>)
    requires forall i :: 0 <= i < |a| ==> !a[i].isEditing
    ensures EditingItem(a + b) == EditingItem(b)
  {
    if a == [] {
      assert a + b == b;
    } else {
      assert (a + b)[1..] == a[1..] + b;
      EditingItemSkipsClean(a[1..], b);
    }
  }

  /** Starting to edit a listed section when ids are unique edits that one row only. */
  lemma {:induction false} StartEditEditsOneRow(list: seq<SectionItem>, id: string)
    requires UniqueIds(list)
    ensures EditingCount(MarkEditing(list, id)) == (if exists i :: 0 <= i < |list| && list[i].id == id then 1 else 0)
    decreases |list|
  {
    if list != [] {
      var r := MarkEditing(list, id);
      assert r[1..] == MarkEditing(list[1..], id);
      StartEditEditsOneRow(list[1..], id);
      if list[0].id == id {
        assert !exists i :: 0 <= i < |list[1..]| && list[1..][i].id == id by {
          forall i | 0 <= i < |list[1..]| ensures list[1..][i].id != id {
            assert list[i + 1].id != list[0].id;
          }
        }
      } else {
        assert (exists i :: 0 <= i < |list| && list[i].id == id) <==> (exists i :: 0 <= i < |list[1..]| && list[1..][i].id == id) by {
          forall i | 0 <= i < |list| && list[i].id == id ensures 0 <= i - 1 < |list[1..]| && list[1..][i - 1].id == id { }
        }
      }
    }
  }

  /** Cancelling with no edited row changes nothing. */
  lemma {:induction false} CancelWithoutEditing(list: seq<SectionItem>)
    requires forall i :: 0 <= i < |list| ==> !list[i].isEditing
    ensures Cancelled(list) == list
  {
    if list != [] {
      CancelWithoutEditing(list[1..]);
      assert [list[0]] + list[1..] == list;
    }
  }

  lemma {:induction false} CancelledAppend(a: seq<SectionItem>, b: seq<SectionItem>)
    ensures Cancelled(a + b) == Cancelled(a) + Cancelled(b)
  {
    if a == [] {
      assert a + b == b;
    } else {
      assert (a + b)[1..] == a[1..] + b;
      CancelledAppend(a[1..], b);
    }
  }

  /** Cancel restores a clean list: cancelling a fresh add drops the placeholder, and
      cancelling a fresh edit of a real section gives back the list as it was before. */
  lemma CancelRestores(list: seq<SectionItem>, id: string)
    requires forall i :: 0 <= i < |list| ==> !list[i].isEditing
    requires id != NEW_ID
    ensures Cancelled(WithPlaceholder(list)) == list
    ensures Cancelled(MarkEditing(list, id)) == list
  {
    CancelledAppend(list, [SectionItem(NEW_ID, "", true)]);
    CancelWithoutEditing(list);
    assert Cancelled([SectionItem(NEW_ID, "", true)]) == [];
    CancelEditedRows(list, id);
  }

  lemma {:induction false} CancelEditedRows(list: seq<SectionItem>, id: string)
    requires forall i :: 0 <= i < |list| ==> !list[i].isEditing
    requires id != NEW_ID
    ensures Cancelled(MarkEditing(list, id)) == list
    decreases |list|
  {
    if list != [] {
      var r := MarkEditing(list, id);
      assert r[1..] == MarkEditing(list[1..], id);
      CancelEditedRows(list[1..], id);
      assert r[0].(isEditing := false) == list[0];
      assert [list[0]] + list[1..] == list;
    }
  }
}
