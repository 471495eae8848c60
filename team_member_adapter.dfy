/** `TeamMemberAdapter`: the member list of a teamspace. In kick mode the leader of the
    teamspace picks members to remove; the picked ids are kept as an insertion-ordered set. */
module TeamMembers {
  import opened Common

  datatype TeamMemberUi = TeamMemberUi(id: string, name: string, isLeader: bool)

  function Without(s: seq<string>, x: string): (r: seq<string>)
    ensures forall y :: y in r <==> y in s && y != x
    ensures NoDuplicates(s) ==> NoDuplicates(r)
    ensures x !in s ==> r == s
  {
    if s == [] then []
    else
      assert s == [s[0]] + s[1..];
      var rest := Without(s[1..], x);
      assert NoDuplicates(s) ==> s[0] !in s[1..];
      (if s[0] == x then [] else [s[0]]) + rest
  }

  /** `selectedIds.remove(id)` if present, else `selectedIds.add(id)`. */
  function Toggled(s: seq<string>, id: string): (r: seq<string>)
    ensures forall y :: y in r <==> (if y == id then id !in s else y in s)
    ensures NoDuplicates(s) ==> NoDuplicates(r)
  {
    if id in s then Without(s, id) else s + [id]
  }

  /** Toggling the same member twice gives back the same set, and the very same insertion
      order when the member was not selected. */
  lemma ToggleTwice(s: seq<string>, id: string)
    ensures (set y | y in Toggled(Toggled(s, id), id)) == (set y | y in s)
    ensures id !in s ==> Toggled(Toggled(s, id), id) == s
  {
    if id !in s {
      WithoutLast(s, id);
    }
  }

  lemma {:induction false} WithoutLast(s: seq<string>, id: string)
    requires id !in s
    ensures Without(s + [id], id) == s
  {
    if s == [] {
      assert Without([id], id) == [] + Without([], id);
    } else {
      assert (s + [id])[1..] == s[1..] + [id];
      WithoutLast(s[1..], id);
      assert [s[0]] + s[1..] == s;
    }
  }

  /** What a tap on a row toggles in `bind`: only a non-leader's row in kick mode has a
      selection listener. */
  function TapTarget(item: TeamMemberUi, isKickMode: bool): (r: Option<string>)
    ensures r.Some? <==> isKickMode && !item.isLeader
    ensures r.Some? ==> r.value == item.id
  {
    if isKickMode && !item.isLeader then Some(item.id) else None
  }

  class TeamMemberAdapter {
    var items: seq<TeamMemberUi>
    var isKickMode: bool
    var selectedIds: seq<string>
    var isLeaderUser: bool
    /** Every set handed to `onSelectionChanged`, in order. */
    var selectionEvents: seq<set<string>>

    ghost predicate Valid()
      reads this
    {
      NoDuplicates(selectedIds)
    }

    function SelectedSet(): set<string>
      reads this
    {
      set y | y in selectedIds
    }

    constructor ()
      ensures Valid() && items == [] && !isKickMode && selectedIds == [] && !isLeaderUser && selectionEvents == []
    {
      items := [];
      isKickMode := false;
      selectedIds := [];
      isLeaderUser := false;
      selectionEvents := [];
    }

    method SetLeaderUser(isLeader: bool)
      modifies this
      ensures isLeaderUser == isLeader
      ensures items == old(items) && isKickMode == old(isKickMode) && selectedIds == old(selectedIds)
      ensures selectionEvents == old(selectionEvents)
    {
      isLeaderUser := isLeader;
    }

    /** `submitList`: the items become exactly the given list. */
    method SubmitList(list: seq<TeamMemberUi>)
      modifies this
      ensures items == list
      ensures isKickMode == old(isKickMode) && selectedIds == old(selectedIds) && isLeaderUser == old(isLeaderUser)
      ensures selectionEvents == old(selectionEvents)
    {
      items := [];
      for i := 0 to |list|
        invariant items == list[..i]
        invariant isKickMode == old(isKickMode) && selectedIds == old(selectedIds) && isLeaderUser == old(isLeaderUser)
        invariant selectionEvents == old(selectionEvents)
      {
        items := items + [list[i]];
      }
    }

    /** `setKickMode`: leaving kick mode clears the selection; either way the current
        selection is reported. */
    method SetKickMode(enabled: bool)
      requires Valid()
      modifies this
      ensures Valid()
      ensures isKickMode == enabled
      ensures selectedIds == (if enabled then old(selectedIds) else [])
      ensures selectionEvents == old(selectionEvents) + [SelectedSet()]
      ensures items == old(items) && isLeaderUser == old(isLeaderUser)
    {
      isKickMode := enabled;
      if !enabled {
        selectedIds := [];
      }
      selectionEvents := selectionEvents + [set y | y in selectedIds];
    }

    /** `getSelectedIds`: a snapshot of the selection. */
    method GetSelectedIds() returns (r: set<string>)
      ensures r == SelectedSet()
      ensures forall y :: y in r <==> y in selectedIds
    {
      r := set y | y in selectedIds;
    }

    /** `toggleSelection`: nothing outside kick mode; otherwise the member is removed if
        selected and added if not, and the new selection is reported. */
    method ToggleSelection(memberId: string)
      requires Valid()
      modifies this
      ensures Valid()
      ensures !old(isKickMode) ==> selectedIds == old(selectedIds) && selectionEvents == old(selectionEvents)
      ensures old(isKickMode) ==> selectedIds == Toggled(old(selectedIds), memberId)
                                  && selectionEvents == old(selectionEvents) + [SelectedSet()]
      ensures items == old(items) && isKickMode == old(isKickMode) && isLeaderUser == old(isLeaderUser)
    {
      if !isKickMode {
        return;
      }
      if memberId in selectedIds {
        selectedIds := Without(selectedIds, memberId);
      } else {
        selectedIds := selectedIds + [memberId];
      }
      selectionEvents := selectionEvents + [set y | y in selectedIds];
    }

    /** A tap on the row at `position`, through the listener `bind` installed: a leader's row
        never changes the selection. */
    method TapRow(position: int)
      requires Valid() && 0 <= position < |items|
      modifies this
      ensures Valid()
      ensures items == old(items) && isKickMode == old(isKickMode) && isLeaderUser == old(isLeaderUser)
      ensures items[position].isLeader || !isKickMode ==>
        selectedIds == old(selectedIds) && selectionEvents == old(selectionEvents)
      ensures !items[position].isLeader && isKickMode ==>
        selectedIds == Toggled(old(selectedIds), items[position].id)
        && selectionEvents == old(selectionEvents) + [SelectedSet()]
    {
      var target := TapTarget(items[position], isKickMode);
      if target.Some? {
        ToggleSelection(target.value);
      }
    }
  }
}
