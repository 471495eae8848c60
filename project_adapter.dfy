/** `ProjectAdapter`: the home screen's project list. At most one project is expanded to show
    its song lists, one project's name may be under edit, and the adapter remembers which
    nested `SongListAdapter` has a song-list name under edit. */
module Projects {
  import opened Common
  import SongList

  /** A project as the adapter shows it (its other fields are not part of this model). */
  datatype ProjectSummary = ProjectSummary(id: string, name: string)

  /** `indexOfFirst { it.id == id }`: the first index with the id, or -1. */
  function IndexOfFirst(items: seq<ProjectSummary>, id: string): (i: int)
    ensures -1 <= i < |items|
    ensures i == -1 <==> forall k :: 0 <= k < |items| ==> items[k].id != id
    ensures i >= 0 ==> items[i].id == id && forall k :: 0 <= k < i ==> items[k].id != id
  {
    if items == [] then -1
    else if items[0].id == id then 0
    else
      var j := IndexOfFirst(items[1..], id);
      assert forall k :: 1 <= k < |items| ==> items[k] == items[1..][k - 1];
      if j == -1 then -1 else j + 1
  }

  /** The positions `notifyItemChanged` is called with for an id, if it is in the list. */
  function PositionOf(items: seq<ProjectSummary>, id: Option<string>): (r: seq<int>)
    ensures |r| <= 1
    ensures |r| == 1 <==> id.Some? && exists k :: 0 <= k < |items| && items[k].id == id.value
    ensures |r| == 1 ==>
      0 <= r[0] < |items| && items[r[0]].id == id.value && forall k :: 0 <= k < r[0] ==> items[k].id != id.value
  {
    if id.None? then []
    else
      var pos := IndexOfFirst(items, id.value);
      if pos != -1 then [pos] else []
  }

  /** The expanded id after toggling `projectId`: collapse it if it was the expanded one,
      otherwise expand it (collapsing whichever was expanded). */
  function Toggled(expanded: Option<string>, projectId: string): (r: Option<string>)
    ensures r == Some(projectId) <==> expanded != Some(projectId)
    ensures r.Some? ==> r.value == projectId
  {
    if expanded == Some(projectId) then None else Some(projectId)
  }

  /** Toggling the same project twice restores the state when that project or none was
      expanded; when another project was expanded, it stays collapsed. */
  lemma ToggleTwice(expanded: Option<string>, projectId: string)
    ensures expanded == None || expanded == Some(projectId) ==>
      Toggled(Toggled(expanded, projectId), projectId) == expanded
    ensures expanded.Some? && expanded != Some(projectId) ==>
      Toggled(Toggled(expanded, projectId), projectId) == None
  {
  }

  class ProjectAdapter {
    var currentList: seq<ProjectSummary>
    var expandedProjectId: Option<string>
    var editingProjectId: Option<string>
    var editingDraft: string
    var songListsByProjectId: map<string, seq<SongList.SongListSummary>>
    var activeSongEditor: SongList.SongListAdapter?
    /** The positions passed to `notifyItemChanged` so far. */
    var changedPositions: seq<int>
    /** The values passed on through `onSongListEditStateChanged` so far. */
    var songEditEvents: seq<bool>

    constructor (items: seq<ProjectSummary>)
      ensures currentList == items && expandedProjectId == None
      ensures editingProjectId == None && editingDraft == ""
      ensures songListsByProjectId == map[] && activeSongEditor == null
      ensures changedPositions == [] && songEditEvents == []
    {
      currentList := items;
      expandedProjectId := None;
      editingProjectId := None;
      editingDraft := "";
      songListsByProjectId := map[];
      activeSongEditor := null;
      changedPositions := [];
      songEditEvents := [];
    }

    method SetEditMode(projectId: string, currentName: string)
      modifies this
      ensures editingProjectId == Some(projectId) && editingDraft == currentName
      ensures currentList == old(currentList) && expandedProjectId == old(expandedProjectId)
      ensures songListsByProjectId == old(songListsByProjectId) && activeSongEditor == old(activeSongEditor)
      ensures changedPositions == old(changedPositions) && songEditEvents == old(songEditEvents)
    {
      editingProjectId := Some(projectId);
      editingDraft := currentName;
    }

    method ClearEditMode()
      modifies this
      ensures editingProjectId == None && editingDraft == ""
      ensures currentList == old(currentList) && expandedProjectId == old(expandedProjectId)
      ensures songListsByProjectId == old(songListsByProjectId) && activeSongEditor == old(activeSongEditor)
      ensures changedPositions == old(changedPositions) && songEditEvents == old(songEditEvents)
    {
      editingProjectId := None;
      editingDraft := "";
    }

    method SetSongLists(projectId: string, lists: seq<SongList.SongListSummary>)
      modifies this
      ensures songListsByProjectId == old(songListsByProjectId)[projectId := lists]
      ensures changedPositions == old(changedPositions) + PositionOf(currentList, Some(projectId))
      ensures currentList == old(currentList) && expandedProjectId == old(expandedProjectId)
      ensures editingProjectId == old(editingProjectId) && editingDraft == old(editingDraft)
      ensures activeSongEditor == old(activeSongEditor) && songEditEvents == old(songEditEvents)
    {
      songListsByProjectId := songListsByProjectId[projectId := lists];
      var pos := IndexOfFirst(currentList, projectId);
      if pos != -1 {
        changedPositions := changedPositions + [pos];
      }
    }

    method ToggleExpanded(projectId: string)
      modifies this
      ensures expandedProjectId == Toggled(old(expandedProjectId), projectId)
      ensures changedPositions == old(changedPositions)
        + PositionOf(currentList, old(expandedProjectId)) + PositionOf(currentList, expandedProjectId)
      ensures currentList == old(currentList) && songListsByProjectId == old(songListsByProjectId)
      ensures editingProjectId == old(editingProjectId) && editingDraft == old(editingDraft)
      ensures activeSongEditor == old(activeSongEditor) && songEditEvents == old(songEditEvents)
    {
      var prevId := expandedProjectId;
      expandedProjectId := if prevId == Some(projectId) then None else Some(projectId);
      if prevId.Some? {
        var prevPos := IndexOfFirst(currentList, prevId.value);
        if prevPos != -1 {
          changedPositions := changedPositions + [prevPos];
        }
      }
      if expandedProjectId.Some? {
        var newPos := IndexOfFirst(currentList, expandedProjectId.value);
        if newPos != -1 {
          changedPositions := changedPositions + [newPos];
        }
      }
    }

    /** The `onEditStateChanged` callback each row gives its `SongListAdapter`: editing makes
        that adapter the active editor; leaving edit mode clears the pointer only when it
        points at that same adapter. The value is passed on to the screen. */
    method OnSongEditStateChanged(editor: SongList.SongListAdapter, isEditing: bool)
      modifies this
      ensures isEditing ==> activeSongEditor == editor
      ensures !isEditing ==> activeSongEditor == (if old(activeSongEditor) == editor then null else old(activeSongEditor))
      ensures songEditEvents == old(songEditEvents) + [isEditing]
      ensures currentList == old(currentList) && expandedProjectId == old(expandedProjectId)
      ensures editingProjectId == old(editingProjectId) && editingDraft == old(editingDraft)
      ensures songListsByProjectId == old(songListsByProjectId) && changedPositions == old(changedPositions)
    {
      if isEditing {
        activeSongEditor := editor;
      } else {
        if activeSongEditor == editor {
          activeSongEditor := null;
        }
      }
      songEditEvents := songEditEvents + [isEditing];
    }

    /** The screen's confirm button: commit the active song-list edit, if any. Committing ends
        the editor's edit mode, whose callback then clears the pointer. */
    method CommitActiveSongEditAndExit() returns (committed: bool)
      modifies this, activeSongEditor
      ensures old(activeSongEditor) == null ==> !committed && activeSongEditor == null
      ensures old(activeSongEditor) != null ==> committed == old(activeSongEditor.editingId).Some?
      ensures committed ==> activeSongEditor == null && old(activeSongEditor).editingId == None
      ensures !committed ==> activeSongEditor == old(activeSongEditor) && songEditEvents == old(songEditEvents)
      ensures committed ==> songEditEvents == old(songEditEvents) + [false]
      ensures old(activeSongEditor) != null && !committed ==> unchanged(old(activeSongEditor))
      ensures committed ==> var editor := old(activeSongEditor);
        && editor.editingDraft == "" && editor.currentList == old(editor.currentList)
        && editor.editStateEvents == old(editor.editStateEvents) + [false]
        && editor.renames == old(editor.renames) +
          match SongList.RenameCall(old(editor.currentList), old(editor.editingId).value, old(editor.editingDraft))
          case Some(call) => [call]
          case None => []
      ensures currentList == old(currentList) && expandedProjectId == old(expandedProjectId)
      ensures editingProjectId == old(editingProjectId) && editingDraft == old(editingDraft)
      ensures songListsByProjectId == old(songListsByProjectId) && changedPositions == old(changedPositions)
    {
      var editor := activeSongEditor;
      if editor == null {
        return false;
      }
      committed := editor.CommitEditAndExit();
      if committed {
        OnSongEditStateChanged(editor, false);
      }
    }
  }

  /** Only a project that exists in the list is refreshed, and toggling refreshes at most the
      previously expanded and the newly expanded rows. */
  lemma ToggleRefreshesAtMostTwo(items: seq<ProjectSummary>, expanded: Option<string>, projectId: string)
    ensures var ps := PositionOf(items, expanded) + PositionOf(items, Toggled(expanded, projectId));
      && |ps| <= 2
      && forall k :: 0 <= k < |ps| ==> 0 <= ps[k] < |items|
  {
  }
}
