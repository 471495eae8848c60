/** `MoveVideoViewModel`: moving one video of a section to another section of the same
    track. The screen opens on the video's current section and moves only when a different
    one has been chosen. */
module MoveVideo {
  import opened Common

  /** The repository call a move makes. */
  datatype MoveRequest = MoveRequest(tracksId: string, fromSectionId: string, toSectionId: string, trackId: string)

  datatype ToastMessage = ErrorLoadFailed | ToastMoveVideo | ToastFailedMoveVideo
  datatype ToastEvent = ToastEvent(message: ToastMessage, isError: bool)

  /** `moveVideo`'s guard and call: none while the original section is selected, otherwise
      from the original section to the selected one. */
  function MovePlan(tracksId: string, defaultSectionId: string, selectedSectionId: string, trackId: string): (r: Option<MoveRequest>)
    ensures r.None? <==> selectedSectionId == defaultSectionId
    ensures r.Some? ==> r.value.tracksId == tracksId
                        && r.value.fromSectionId == defaultSectionId && r.value.toSectionId == selectedSectionId
                        && r.value.trackId == trackId && r.value.fromSectionId != r.value.toSectionId
  {
    if selectedSectionId == defaultSectionId then None
    else Some(MoveRequest(tracksId, defaultSectionId, selectedSectionId, trackId))
  }

  class MoveVideoViewModel {
    const tracksId: string
    const trackId: string
    const defaultSectionId: string
    var sections: seq<Section>
    var selectedSectionId: string
    var loadState: UiState<()>
    var moveState: UiState<string>
    var toasts: seq<ToastEvent>
    /** The repository calls made so far. */
    var moveRequests: seq<MoveRequest>

    /** The selection starts at the video's current section. */
    constructor (tracksId: string, trackId: string, sectionId: string)
      ensures this.tracksId == tracksId && this.trackId == trackId && defaultSectionId == sectionId && selectedSectionId == sectionId
      ensures sections == [] && loadState == Idle && moveState == Idle && toasts == [] && moveRequests == []
      ensures !IsMoved()
    {
      this.tracksId := tracksId;
      this.trackId := trackId;
      defaultSectionId := sectionId;
      selectedSectionId := sectionId;
      sections := [];
      loadState := Idle;
      moveState := Idle;
      toasts := [];
      moveRequests := [];
    }

    /** `isMoved`. */
    predicate IsMoved()
      reads this
    {
      selectedSectionId != defaultSectionId
    }

    method LoadSections(result: DataResult<seq<Section>>)
      modifies this
      ensures result.Success? ==> sections == result.data && loadState == Loaded(()) && toasts == old(toasts)
      ensures result.Error? ==> sections == old(sections) && loadState == Failure(result.message)
                                && toasts == old(toasts) + [ToastEvent(ErrorLoadFailed, true)]
      ensures selectedSectionId == old(selectedSectionId) && moveState == old(moveState) && moveRequests == old(moveRequests)
    {
      loadState := Loading;
      match result {
        case Success(data) =>
          sections := data;
          loadState := Loaded(());
        case Error(m) =>
          loadState := Failure(m);
          toasts := toasts + [ToastEvent(ErrorLoadFailed, true)];
      }
    }

    method SelectSection(section: Section)
      modifies this
      ensures selectedSectionId == section.id
      ensures IsMoved() <==> section.id != defaultSectionId
      ensures sections == old(sections) && loadState == old(loadState) && moveState == old(moveState)
      ensures toasts == old(toasts) && moveRequests == old(moveRequests)
    {
      selectedSectionId := section.id;
    }

    /** `moveVideo`: with the original section selected nothing happens; otherwise the move
        `MovePlan` picks is requested and its outcome shown. */
    method MoveVideo(result: DataResult<()>)
      modifies this
      ensures var plan := MovePlan(tracksId, defaultSectionId, old(selectedSectionId), trackId);
        plan.None? ==> moveState == old(moveState) && toasts == old(toasts) && moveRequests == old(moveRequests)
      ensures var plan := MovePlan(tracksId, defaultSectionId, old(selectedSectionId), trackId);
        plan.Some? ==>
          (moveRequests == old(moveRequests) + [plan.value]
          && (result.Success? ==> moveState == Loaded(plan.value.toSectionId) && toasts == old(toasts) + [ToastEvent(ToastMoveVideo, false)])
          && (result.Error? ==> moveState == Failure(result.message) && toasts == old(toasts) + [ToastEvent(ToastFailedMoveVideo, true)]))
      ensures sections == old(sections) && selectedSectionId == old(selectedSectionId) && loadState == old(loadState)
    {
      var toSectionId := selectedSectionId;
      if toSectionId == defaultSectionId {
        return;
      }
      moveState := Loading;
      moveRequests := moveRequests + [MoveRequest(tracksId, defaultSectionId, toSectionId, trackId)];
      match result {
        case Success(_) =>
          moveState := Loaded(toSectionId);
          toasts := toasts + [ToastEvent(ToastMoveVideo, false)];
        case Error(m) =>
          moveState := Failure(m);
          toasts := toasts + [ToastEvent(ToastFailedMoveVideo, true)];
      }
    }
  }
}
