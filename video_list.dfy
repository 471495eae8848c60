/** `VideoListViewModel`: the video list of one track. It holds the cards of the selected
    section (finished videos plus the uploads in progress or failed), the track's sections
    and the selected section, and drives uploads and their retries through
    `UploadVideoUseCase`, rewriting the card of that upload as its states arrive. */
module VideoList {
  import opened Common
  import UC = UploadUseCase

  type Uri = UC.Uri

  /** A finished video as the list shows it (its other fields are not part of this model). */
  datatype VideoSummary = VideoSummary(id: string, title: string, uploaderId: string)

  datatype FailType = COMPRESSION | UPLOAD | EXCEEDED

  /** What a failed card keeps so that its upload can be retried. */
  datatype RetryInfo = RetryInfo(originalUri: Uri, title: string,
                                 compressedUri: Option<Uri>, thumbnailUri: Option<Uri>, duration: Option<real>)

  datatype VideoCardItem =
    | Completed(data: VideoSummary)
    | Compressing(cardId: string, progress: int)
    | Uploading(cardId: string, progress: int)
    | Failed(cardId: string, failType: FailType, message: Option<string>, retryInfo: Option<RetryInfo>)
  {
    function Id(): string {
      if Completed? then data.id else cardId
    }
  }

  datatype SectionChipItem = SetSection | SectionUi(id: string, name: string, isSelected: bool)

  datatype VideoType = OTHER_USER_VIDEO | MY_VIDEO_NO_PART | MY_VIDEO_DEFAULT

  function Ids(list: seq<VideoCardItem>): (r: seq<string>)
    ensures |r| == |list| && forall i :: 0 <= i < |list| ==> r[i] == list[i].Id()
  {
    seq(|list|, i requires 0 <= i < |list| => list[i].Id())
  }

  // ---------------------------------------------------------------------------------------
  // Card-list transforms (each the lambda handed to `updateVideoList`).

  /** `addCompressingItem`. */
  function AddCompressing(list: seq<VideoCardItem>, id: string): (r: seq<VideoCardItem>)
    ensures Ids(r) == [id] + Ids(list)
  {
    [Compressing(id, 0)] + list
  }

  /** `changeToCompressingState`: every card with the id restarts compressing at 0. */
  function ChangeToCompressing(list: seq<VideoCardItem>, id: string): (r: seq<VideoCardItem>)
    ensures Ids(r) == Ids(list)
  {
    seq(|list|, i requires 0 <= i < |list| => if list[i].Id() == id then Compressing(id, 0) else list[i])
  }

  /** `changeToUploadingState`. */
  function ChangeToUploading(list: seq<VideoCardItem>, id: string): (r: seq<VideoCardItem>)
    ensures Ids(r) == Ids(list)
  {
    seq(|list|, i requires 0 <= i < |list| => if list[i].Id() == id then Uploading(id, 0) else list[i])
  }

  /** `changeToFailedState`. */
  function ChangeToFailed(list: seq<VideoCardItem>, id: string, failType: FailType, message: Option<string>,
                          retryInfo: RetryInfo): (r: seq<VideoCardItem>)
    ensures Ids(r) == Ids(list)
  {
    seq(|list|, i requires 0 <= i < |list| =>
      if list[i].Id() == id then Failed(id, failType, message, Some(retryInfo)) else list[i])
  }

  /** `updateCompressionProgress`: only a card with the id that is still compressing. */
  function UpdateCompressionProgress(list: seq<VideoCardItem>, id: string, progress: int): (r: seq<VideoCardItem>)
    ensures Ids(r) == Ids(list)
  {
    seq(|list|, i requires 0 <= i < |list| =>
      if list[i].Id() == id && list[i].Compressing? then Compressing(id, progress) else list[i])
  }

  /** `updateUploadProgress`: only a card with the id that is already uploading. */
  function UpdateUploadProgress(list: seq<VideoCardItem>, id: string, progress: int): (r: seq<VideoCardItem>)
    ensures Ids(r) == Ids(list)
  {
    seq(|list|, i requires 0 <= i < |list| =>
      if list[i].Id() == id && list[i].Uploading? then Uploading(id, progress) else list[i])
  }

  /** `removeItem` / `cancelFailedItem`: `filter { it.id != id }`. */
  function Remove(list: seq<VideoCardItem>, id: string): (r: seq<VideoCardItem>)
    ensures |r| <= |list|
    ensures forall c :: c in r ==> c in list && c.Id() != id
    ensures forall c :: c in list && c.Id() != id ==> c in r
  {
    if list == [] then []
    else (if list[0].Id() != id then [list[0]] else []) + Remove(list[1..], id)
  }

  /** The cards of uploads that are not finished: compressing, uploading or failed. */
  predicate InProgress(c: VideoCardItem) {
    c.Compressing? || c.Uploading? || c.Failed?
  }

  function KeepInProgress(list: seq<VideoCardItem>): (r: seq<VideoCardItem>)
    ensures |r| <= |list|
    ensures forall c :: c in r <==> c in list && InProgress(c)
  {
    if list == [] then []
    else (if InProgress(list[0]) then [list[0]] else []) + KeepInProgress(list[1..])
  }

  function AsCompleted(videos: seq<VideoSummary>): (r: seq<VideoCardItem>)
    ensures |r| == |videos| && forall i :: 0 <= i < |videos| ==> r[i] == Completed(videos[i])
  {
    seq(|videos|, i requires 0 <= i < |videos| => Completed(videos[i]))
  }

  /** What `loadVideosForSection` shows after a successful fetch. */
  function Reload(list: seq<VideoCardItem>, videos: seq<VideoSummary>): seq<VideoCardItem> {
    KeepInProgress(list) + AsCompleted(videos)
  }

  // ---------------------------------------------------------------------------------------
  // Reacting to the use case's states.

  function FailTypeOf(phase: UC.FailPhase): FailType {
    match phase
    case COMPRESSION => COMPRESSION
    case UPLOAD => UPLOAD
  }

  /** `handleUploadState`'s retry info: what the failure reports wins over what was known. */
  function MergeRetryInfo(base: RetryInfo, state: UC.UploadState): (r: RetryInfo)
    requires state.Failed?
    ensures r.originalUri == base.originalUri && r.title == base.title
    ensures r.compressedUri == (if state.compressedUri.Some? then state.compressedUri else base.compressedUri)
    ensures r.thumbnailUri == (if state.thumbnailUri.Some? then state.thumbnailUri else base.thumbnailUri)
    ensures r.duration == (if state.duration.Some? then state.duration else base.duration)
  {
    base.(compressedUri := if state.compressedUri.Some? then state.compressedUri else base.compressedUri,
          thumbnailUri := if state.thumbnailUri.Some? then state.thumbnailUri else base.thumbnailUri,
          duration := if state.duration.Some? then state.duration else base.duration)
  }

  /** The retry info `uploadVideo` builds afresh for a failure. */
  function FreshRetryInfo(videoUri: Uri, title: string, state: UC.UploadState): RetryInfo
    requires state.Failed?
  {
    RetryInfo(videoUri, title, state.compressedUri, state.thumbnailUri, state.duration)
  }

  /** `uploadVideo`'s inline handler builds the same retry info as `handleUploadState` would
      from a retry info that knows nothing yet. */
  lemma FreshIsMergeIntoEmpty(videoUri: Uri, title: string, state: UC.UploadState)
    requires state.Failed?
    ensures FreshRetryInfo(videoUri, title, state) == MergeRetryInfo(RetryInfo(videoUri, title, None, None, None), state)
  {
  }

  /** The card list after one state of upload `id` arrives; `retry` is the retry info a
      failure builds. A `Completed` state removes the card (and launches a refresh). */
  function HandleState(list: seq<VideoCardItem>, id: string, state: UC.UploadState, retry: UC.UploadState -> RetryInfo): seq<VideoCardItem> {
    match state
    case Compressing(p) => UpdateCompressionProgress(list, id, p)
    case Uploading(p) => UpdateUploadProgress(ChangeToUploading(list, id), id, p)
    case Completed => Remove(list, id)
    case Failed(phase, message, _, _, _) => ChangeToFailed(list, id, FailTypeOf(phase), message, retry(state))
  }

  /** The card list after a whole run of states, in order. */
  function HandleAll(list: seq<VideoCardItem>, id: string, states: seq<UC.UploadState>,
                     retry: UC.UploadState -> RetryInfo): seq<VideoCardItem>
    decreases |states|
  {
    if states == [] then list
    else HandleState(HandleAll(list, id, states[..|states| - 1], retry), id, states[|states| - 1], retry)
  }

  /** The number of refreshes a run of states launches. */
  function CountCompleted(states: seq<UC.UploadState>): nat {
    if states == [] then 0
    else CountCompleted(states[..|states| - 1]) + (if states[|states| - 1].Completed? then 1 else 0)
  }

  /** The retry info a handler builds: merged into `base` (`handleUploadState`), or fresh
      (`uploadVideo`). */
  function Merging(base: RetryInfo): UC.UploadState -> RetryInfo {
    (s: UC.UploadState) => if s.Failed? then MergeRetryInfo(base, s) else base
  }

  function Fresh(videoUri: Uri, title: string): UC.UploadState -> RetryInfo {
    (s: UC.UploadState) => if s.Failed? then FreshRetryInfo(videoUri, title, s) else RetryInfo(videoUri, title, None, None, None)
  }

  // ---------------------------------------------------------------------------------------
  // Pure views.

  /** `refreshAll`'s choice: keep the selection if the section still exists, else the first
      section, else none. */
  function ChooseSection(selected: Option<string>, sections: seq<Section>): (r: Option<string>)
    ensures r.None? <==> sections == []
    ensures r.Some? ==> exists i :: 0 <= i < |sections| && sections[i].id == r.value
    ensures selected.Some? && (exists i :: 0 <= i < |sections| && sections[i].id == selected.value) ==> r == selected
    ensures (selected.None? || forall i :: 0 <= i < |sections| ==> sections[i].id != selected.value) && sections != [] ==>
      r == Some(sections[0].id)
  {
    if selected.Some? && exists i :: 0 <= i < |sections| && sections[i].id == selected.value then selected
    else if sections != [] then Some(sections[0].id)
    else None
  }

  /** `sectionChipItems`. */
  function ChipItems(sections: seq<Section>, selectedId: Option<string>): (r: seq<SectionChipItem>)
    ensures |r| == |sections| + 1 && r[0] == SetSection
    ensures forall i :: 0 <= i < |sections| ==>
      r[i + 1].SectionUi? && r[i + 1].id == sections[i].id && r[i + 1].name == sections[i].title
      && (r[i + 1].isSelected <==> selectedId == Some(sections[i].id))
  {
    [SetSection] + seq(|sections|, i requires 0 <= i < |sections| =>
      SectionUi(sections[i].id, sections[i].title, Some(sections[i].id) == selectedId))
  }

  /** `getVideoType`: someone else's video, or one's own with or without other parts. */
  function GetVideoType(item: VideoSummary, currentUid: Option<string>, sections: seq<Section>): (t: VideoType)
    ensures t == OTHER_USER_VIDEO <==> Some(item.uploaderId) != currentUid
    ensures t == MY_VIDEO_NO_PART <==> Some(item.uploaderId) == currentUid && |sections| <= 1
    ensures t == MY_VIDEO_DEFAULT <==> Some(item.uploaderId) == currentUid && |sections| > 1
  {
    if Some(item.uploaderId) != currentUid then OTHER_USER_VIDEO
    else if |sections| <= 1 then MY_VIDEO_NO_PART
    else MY_VIDEO_DEFAULT
  }

  /** What a retry of a failed card launches. */
  datatype RetryJob =
    | Recompress(originalUri: Uri, title: string, sectionId: string, uploaderId: string)
    | Reupload(compressedUri: Uri, thumbnailUri: Uri, duration: real, title: string, sectionId: string, uploaderId: string)

  /** `retryFailedItem`'s decision: nothing without retry info, a selected section or a
      signed-in user; a compression failure starts over from the original file; an upload
      failure re-uploads the compressed file only if the file, its thumbnail and the
      duration are all known; EXCEEDED is never retried. */
  function RetryPlan(item: VideoCardItem, selectedSectionId: Option<string>, uploader: Option<string>): (r: Option<RetryJob>)
    requires item.Failed?
    ensures r.Some? ==> item.retryInfo.Some? && selectedSectionId.Some? && uploader.Some?
    ensures r.Some? ==> r.value.sectionId == selectedSectionId.value && r.value.uploaderId == uploader.value
                        && r.value.title == item.retryInfo.value.title
    ensures item.failType == EXCEEDED ==> r.None?
    ensures r.Some? && r.value.Recompress? <==> r.Some? && item.failType == COMPRESSION
    ensures r.Some? && r.value.Recompress? ==> r.value.originalUri == item.retryInfo.value.originalUri
    ensures r.Some? && r.value.Reupload? ==>
      && item.retryInfo.value.compressedUri == Some(r.value.compressedUri)
      && item.retryInfo.value.thumbnailUri == Some(r.value.thumbnailUri)
      && item.retryInfo.value.duration == Some(r.value.duration)
  {
    if item.retryInfo.None? || selectedSectionId.None? || uploader.None? then None
    else
      var info := item.retryInfo.value;
      match item.failType
      case COMPRESSION => Some(Recompress(info.originalUri, info.title, selectedSectionId.value, uploader.value))
      case UPLOAD =>
        if info.compressedUri.None? || info.thumbnailUri.None? || info.duration.None? then None
        else Some(Reupload(info.compressedUri.value, info.thumbnailUri.value, info.duration.value,
                           info.title, selectedSectionId.value, uploader.value))
      case EXCEEDED => None
  }

  // ---------------------------------------------------------------------------------------
  // The view model.

  class VideoListViewModel {
    const trackId: string
    var videoItems: seq<VideoCardItem>
    var sections: seq<Section>
    var selectedSectionId: Option<string>
    var uiState: UiState<()>
    var editUiState: UiState<()>
    /** How many `refresh()` coroutines the model has launched so far. */
    var refreshLaunches: nat

    constructor (trackId: string)
      ensures this.trackId == trackId && videoItems == [] && sections == [] && selectedSectionId == None
      ensures uiState == Idle && editUiState == Idle && refreshLaunches == 0
    {
      this.trackId := trackId;
      videoItems := [];
      sections := [];
      selectedSectionId := None;
      uiState := Idle;
      editUiState := Idle;
      refreshLaunches := 0;
    }

    /** `loadVideosForSection`, given what the repository returned. */
    method LoadVideosForSection(videosResult: DataResult<seq<VideoSummary>>)
      modifies this
      ensures videosResult.Success? ==> videoItems == Reload(old(videoItems), videosResult.data) && uiState == Loaded(())
      ensures videosResult.Error? ==> videoItems == old(videoItems) && uiState == Failure(videosResult.message)
      ensures sections == old(sections) && selectedSectionId == old(selectedSectionId)
      ensures editUiState == old(editUiState) && refreshLaunches == old(refreshLaunches)
    {
      match videosResult {
        case Success(videos) =>
          videoItems := KeepInProgress(videoItems) + AsCompleted(videos);
          uiState := Loaded(());
        case Error(m) =>
          uiState := Failure(m);
      }
    }

    /** `refreshAll`'s coroutine, given the repository's answers for the sections and for the
        videos of the chosen section. */
    method RefreshAll(sectionsResult: DataResult<seq<Section>>, videosResult: DataResult<seq<VideoSummary>>)
      modifies this
      ensures sectionsResult.Error? ==>
        (uiState == Failure(sectionsResult.message)
        && videoItems == old(videoItems) && sections == old(sections) && selectedSectionId == old(selectedSectionId))
      ensures sectionsResult.Success? ==>
        (sections == sectionsResult.data
        && selectedSectionId == ChooseSection(old(selectedSectionId), sectionsResult.data))
      ensures sectionsResult.Success? && sectionsResult.data == [] ==> videoItems == [] && uiState == Loaded(())
      ensures sectionsResult.Success? && sectionsResult.data != [] && videosResult.Success? ==>
        videoItems == Reload(old(videoItems), videosResult.data) && uiState == Loaded(())
      ensures sectionsResult.Success? && sectionsResult.data != [] && videosResult.Error? ==>
        videoItems == old(videoItems) && uiState == Failure(videosResult.message)
      ensures editUiState == old(editUiState) && refreshLaunches == old(refreshLaunches)
    {
      uiState := Loading;
      match sectionsResult {
        case Success(data) =>
          sections := data;
          var defaultSectionId := ChooseSection(selectedSectionId, data);
          selectedSectionId := defaultSectionId;
          if defaultSectionId.Some? {
            LoadVideosForSection(videosResult);
          } else {
            videoItems := [];
            uiState := Loaded(());
          }
        case Error(m) =>
          uiState := Failure(m);
      }
    }

    /** `refresh`'s coroutine. */
    method Refresh(videosResult: DataResult<seq<VideoSummary>>)
      modifies this
      ensures selectedSectionId.None? ==> videoItems == old(videoItems) && uiState == Loaded(())
      ensures selectedSectionId.Some? && videosResult.Success? ==>
        videoItems == Reload(old(videoItems), videosResult.data) && uiState == Loaded(())
      ensures selectedSectionId.Some? && videosResult.Error? ==>
        videoItems == old(videoItems) && uiState == Failure(videosResult.message)
      ensures sections == old(sections) && selectedSectionId == old(selectedSectionId)
      ensures editUiState == old(editUiState) && refreshLaunches == old(refreshLaunches)
    {
      uiState := Loading;
      if selectedSectionId.Some? {
        LoadVideosForSection(videosResult);
        return;
      }
      uiState := Loaded(());
    }

    /** `selectSection`: re-selecting the current section does nothing; otherwise the section
        is selected and its videos are loaded. */
    method SelectSection(sectionId: string, videosResult: DataResult<seq<VideoSummary>>)
      modifies this
      ensures old(selectedSectionId) == Some(sectionId) ==>
        videoItems == old(videoItems) && uiState == old(uiState) && selectedSectionId == old(selectedSectionId)
      ensures old(selectedSectionId) != Some(sectionId) ==>
        (selectedSectionId == Some(sectionId)
        && (videosResult.Success? ==> videoItems == Reload(old(videoItems), videosResult.data) && uiState == Loaded(()))
        && (videosResult.Error? ==> videoItems == old(videoItems) && uiState == Failure(videosResult.message)))
      ensures sections == old(sections) && editUiState == old(editUiState) && refreshLaunches == old(refreshLaunches)
    {
      if selectedSectionId == Some(sectionId) {
        return;
      }
      selectedSectionId := Some(sectionId);
      uiState := Loading;
      LoadVideosForSection(videosResult);
    }

    /** `cancelFailedItem`. */
    method CancelFailedItem(item: VideoCardItem)
      requires item.Failed?
      modifies this
      ensures videoItems == Remove(old(videoItems), item.Id())
      ensures sections == old(sections) && selectedSectionId == old(selectedSectionId)
      ensures uiState == old(uiState) && editUiState == old(editUiState) && refreshLaunches == old(refreshLaunches)
    {
      videoItems := Remove(videoItems, item.Id());
    }

    /** Applies the states of upload `id` in order, as the use case's `onStateChanged` does. */
    method ApplyStates(id: string, states: seq<UC.UploadState>, retry: UC.UploadState -> RetryInfo)
      modifies this
      ensures videoItems == HandleAll(old(videoItems), id, states, retry)
      ensures refreshLaunches == old(refreshLaunches) + CountCompleted(states)
      ensures sections == old(sections) && selectedSectionId == old(selectedSectionId)
      ensures uiState == old(uiState) && editUiState == old(editUiState)
    {
      for i := 0 to |states|
        invariant videoItems == HandleAll(old(videoItems), id, states[..i], retry)
        invariant refreshLaunches == old(refreshLaunches) + CountCompleted(states[..i])
        invariant sections == old(sections) && selectedSectionId == old(selectedSectionId)
        invariant uiState == old(uiState) && editUiState == old(editUiState)
      {
        assert states[..i + 1][..i] == states[..i];
        var state := states[i];
        match state {
          case Compressing(p) =>
            videoItems := UpdateCompressionProgress(videoItems, id, p);
          case Uploading(p) =>
            videoItems := ChangeToUploading(videoItems, id);
            videoItems := UpdateUploadProgress(videoItems, id, p);
          case Completed =>
            videoItems := Remove(videoItems, id);
            refreshLaunches := refreshLaunches + 1;
          case Failed(phase, message, _, _, _) =>
            videoItems := ChangeToFailed(videoItems, id, FailTypeOf(phase), message, retry(state));
        }
      }
      assert states[..|states|] == states;
    }

    /** `uploadVideo`: without a selected section or a signed-in user nothing happens;
        otherwise a compressing card for the new upload id goes on top and the use case's
        states are applied to it as they arrive. */
    method UploadVideo(videoUri: Uri, title: string, uploadId: string, uploader: Option<string>,
                       compression: UC.CompressionRun, addVideo: UC.AddVideoRun)
      modifies this
      ensures selectedSectionId.None? || uploader.None? ==>
        videoItems == old(videoItems) && refreshLaunches == old(refreshLaunches)
      ensures selectedSectionId.Some? && uploader.Some? ==>
        videoItems == HandleAll(AddCompressing(old(videoItems), uploadId), uploadId,
                                UC.InvokeTrace(compression, addVideo), Fresh(videoUri, title))
        && refreshLaunches == old(refreshLaunches) + CountCompleted(UC.InvokeTrace(compression, addVideo))
      ensures sections == old(sections) && selectedSectionId == old(selectedSectionId)
      ensures uiState == old(uiState) && editUiState == old(editUiState)
    {
      if selectedSectionId.None? || uploader.None? {
        return;
      }
      videoItems := [Compressing(uploadId, 0)] + videoItems;
      var result, emitted := UC.Invoke(compression, addVideo);
      ApplyStates(uploadId, emitted, Fresh(videoUri, title));
    }

    /** `retryFailedItem`: when `RetryPlan` allows it, the card restarts as compressing (or
        uploading) and the use case's states for the launched job are applied to it. */
    method RetryFailedItem(item: VideoCardItem, uploader: Option<string>,
                           compression: UC.CompressionRun, addVideo: UC.AddVideoRun)
      requires item.Failed?
      modifies this
      ensures RetryPlan(item, old(selectedSectionId), uploader).None? ==>
        videoItems == old(videoItems) && refreshLaunches == old(refreshLaunches)
      ensures var plan := RetryPlan(item, old(selectedSectionId), uploader);
        plan.Some? && plan.value.Recompress? ==>
          var t := UC.InvokeTrace(compression, addVideo);
          videoItems == HandleAll(ChangeToCompressing(old(videoItems), item.Id()), item.Id(), t, Merging(item.retryInfo.value))
          && refreshLaunches == old(refreshLaunches) + CountCompleted(t)
      ensures var plan := RetryPlan(item, old(selectedSectionId), uploader);
        plan.Some? && plan.value.Reupload? ==>
          var t := UC.UploadOnlyTrace(plan.value.compressedUri, plan.value.thumbnailUri, plan.value.duration, addVideo);
          videoItems == HandleAll(ChangeToUploading(old(videoItems), item.Id()), item.Id(), t, Merging(item.retryInfo.value))
          && refreshLaunches == old(refreshLaunches) + CountCompleted(t)
      ensures sections == old(sections) && selectedSectionId == old(selectedSectionId)
      ensures uiState == old(uiState) && editUiState == old(editUiState)
    {
      var plan := RetryPlan(item, selectedSectionId, uploader);
      if plan.None? {
        return;
      }
      var retryId := item.Id();
      var retryInfo := item.retryInfo.value;
      match plan.value {
        case Recompress(_, _, _, _) =>
          videoItems := ChangeToCompressing(videoItems, retryId);
          var result, emitted := UC.Invoke(compression, addVideo);
          ApplyStates(retryId, emitted, Merging(retryInfo));
        case Reupload(compressedUri, thumbnailUri, duration, _, _, _) =>
          videoItems := ChangeToUploading(videoItems, retryId);
          var result, emitted := UC.UploadOnly(compressedUri, thumbnailUri, duration, addVideo);
          ApplyStates(retryId, emitted, Merging(retryInfo));
      }
    }

    /** `editVideoName`'s coroutine: success launches a refresh. */
    method EditVideoName(editResult: DataResult<()>)
      modifies this
      ensures editResult.Success? ==> editUiState == Loaded(()) && refreshLaunches == old(refreshLaunches) + 1
      ensures editResult.Error? ==> editUiState == Failure(editResult.message) && refreshLaunches == old(refreshLaunches)
      ensures videoItems == old(videoItems) && sections == old(sections)
      ensures selectedSectionId == old(selectedSectionId) && uiState == old(uiState)
    {
      editUiState := Loading;
      match editResult {
        case Success(_) =>
          editUiState := Loaded(());
          refreshLaunches := refreshLaunches + 1;
        case Error(m) =>
          editUiState := Failure(m);
      }
    }

    method ResetEditUiState()
      modifies this
      ensures editUiState == Idle
      ensures videoItems == old(videoItems) && sections == old(sections) && selectedSectionId == old(selectedSectionId)
      ensures uiState == old(uiState) && refreshLaunches == old(refreshLaunches)
    {
      editUiState := Idle;
    }
  }

  // ---------------------------------------------------------------------------------------
  // Properties of the card list.

  /** A progress update touches only a card with the id that is in the matching variant,
      and a later update of the same kind overrides an earlier one. */
  lemma ProgressUpdatesOnlyMatching(list: seq<VideoCardItem>, id: string, p: int, q: int)
    ensures var r := UpdateCompressionProgress(list, id, p);
      forall i :: 0 <= i < |list| ==>
        r[i] == (if list[i].Id() == id && list[i].Compressing? then Compressing(id, p) else list[i])
    ensures var r := UpdateUploadProgress(list, id, p);
      forall i :: 0 <= i < |list| ==>
        r[i] == (if list[i].Id() == id && list[i].Uploading? then Uploading(id, p) else list[i])
    ensures UpdateCompressionProgress(UpdateCompressionProgress(list, id, p), id, q) == UpdateCompressionProgress(list, id, q)
    ensures UpdateUploadProgress(UpdateUploadProgress(list, id, p), id, q) == UpdateUploadProgress(list, id, q)
  {
  }

  /** Switching variant rewrites every card with the id, whatever it was, with progress back
      at 0, and leaves all other cards as they were. */
  lemma SwitchesRewriteEveryCardWithId(list: seq<VideoCardItem>, id: string, t: FailType, m: Option<string>, info: RetryInfo)
    ensures forall i :: 0 <= i < |list| && list[i].Id() != id ==>
      ChangeToCompressing(list, id)[i] == list[i] && ChangeToUploading(list, id)[i] == list[i]
      && ChangeToFailed(list, id, t, m, info)[i] == list[i]
    ensures forall i :: 0 <= i < |list| && list[i].Id() == id ==>
      ChangeToCompressing(list, id)[i] == Compressing(id, 0) && ChangeToUploading(list, id)[i] == Uploading(id, 0)
      && ChangeToFailed(list, id, t, m, info)[i] == Failed(id, t, m, Some(info))
  {
  }

  /** `b` differs from `a` only in cards that carry the id, at the same places. */
  predicate SameOutsideId(a: seq<VideoCardItem>, b: seq<VideoCardItem>, id: string) {
    |a| == |b| && forall i :: 0 <= i < |a| ==> (a[i].Id() == id <==> b[i].Id() == id) && (a[i].Id() != id ==> a[i] == b[i])
  }

  lemma {:induction false} RemoveAgrees(a: seq<VideoCardItem>, b: seq<VideoCardItem>, id: string)
    requires SameOutsideId(a, b, id)
    ensures Remove(a, id) == Remove(b, id)
  {
    if a != [] {
      assert SameOutsideId(a[1..], b[1..], id);
      RemoveAgrees(a[1..], b[1..], id);
    }
  }

  /** Removing twice removes nothing more. */
  lemma {:induction false} RemoveIdempotent(list: seq<VideoCardItem>, id: string)
    ensures Remove(Remove(list, id), id) == Remove(list, id)
  {
    if list != [] {
      RemoveIdempotent(list[1..], id);
      var head := if list[0].Id() != id then [list[0]] else [];
      var rest := Remove(list[1..], id);
      if list[0].Id() != id {
        assert ([list[0]] + rest)[1..] == rest;
      } else {
        assert head + rest == rest;
      }
    }
  }

  /** Removing an id no card carries changes nothing. */
  lemma {:induction false} RemoveAbsent(list: seq<VideoCardItem>, id: string)
    requires id !in Ids(list)
    ensures Remove(list, id) == list
  {
    if list != [] {
      var rest := list[1..];
      assert list[0].Id() == Ids(list)[0];
      forall k | 0 <= k < |rest|
        ensures Ids(rest)[k] != id
      {
        assert Ids(rest)[k] == Ids(list)[k + 1];
      }
      RemoveAbsent(rest, id);
      assert Remove(list, id) == [list[0]] + Remove(rest, id);
      assert [list[0]] + rest == list;
    }
  }

  /** Cancelling a card that was just added for a fresh upload id gives back the list. */
  lemma CancelUndoesAdd(list: seq<VideoCardItem>, id: string)
    requires id !in Ids(list)
    ensures Remove(AddCompressing(list, id), id) == list
  {
    assert AddCompressing(list, id)[1..] == list;
    RemoveAbsent(list, id);
  }

  /** One state of upload `id` never changes the other cards or their order. */
  lemma HandleStateKeepsOthers(list: seq<VideoCardItem>, id: string, state: UC.UploadState, retry: UC.UploadState -> RetryInfo)
    ensures Remove(HandleState(list, id, state, retry), id) == Remove(list, id)
  {
    match state {
      case Compressing(p) =>
        RemoveAgrees(list, UpdateCompressionProgress(list, id, p), id);
      case Uploading(p) =>
        var u := ChangeToUploading(list, id);
        RemoveAgrees(list, u, id);
        RemoveAgrees(u, UpdateUploadProgress(u, id, p), id);
      case Completed =>
        RemoveIdempotent(list, id);
      case Failed(phase, message, _, _, _) =>
        RemoveAgrees(list, ChangeToFailed(list, id, FailTypeOf(phase), message, retry(state)), id);
    }
  }

  /** Whatever upload `id` reports, the cards of the other uploads and videos stay as they
      were, in the same order. */
  lemma {:induction false} OtherCardsUntouched(list: seq<VideoCardItem>, id: string, states: seq<UC.UploadState>,
                                               retry: UC.UploadState -> RetryInfo)
    ensures Remove(HandleAll(list, id, states, retry), id) == Remove(list, id)
    decreases |states|
  {
    if states != [] {
      var prefix := states[..|states| - 1];
      OtherCardsUntouched(list, id, prefix, retry);
      HandleStateKeepsOthers(HandleAll(list, id, prefix, retry), id, states[|states| - 1], retry);
    }
  }

  /** Until a `Completed` arrives no card is added or dropped: the ids stay in place. */
  lemma {:induction false} NonTerminalKeepsIds(list: seq<VideoCardItem>, id: string, states: seq<UC.UploadState>,
                                               retry: UC.UploadState -> RetryInfo)
    requires forall k :: 0 <= k < |states| ==> !states[k].Completed?
    ensures Ids(HandleAll(list, id, states, retry)) == Ids(list)
    decreases |states|
  {
    if states != [] {
      NonTerminalKeepsIds(list, id, states[..|states| - 1], retry);
    }
  }

  /** After a run ending in `Failed`, every card of the upload shows that failure with the
      retry info built for it; after a run ending in `Completed`, the upload has no card. */
  lemma LastStateDecidesCard(list: seq<VideoCardItem>, id: string, states: seq<UC.UploadState>,
                             retry: UC.UploadState -> RetryInfo)
    requires states != []
    ensures var r := HandleAll(list, id, states, retry); var last := states[|states| - 1];
      && (last.Failed? ==> forall c :: c in r && c.Id() == id ==>
            c == Failed(id, FailTypeOf(last.phase), last.message, Some(retry(last))))
      && (last.Completed? ==> forall c :: c in r ==> c.Id() != id)
  {
    var before := HandleAll(list, id, states[..|states| - 1], retry);
    var last := states[|states| - 1];
    if last.Failed? {
      var r := ChangeToFailed(before, id, FailTypeOf(last.phase), last.message, retry(last));
      forall c | c in r && c.Id() == id
        ensures c == Failed(id, FailTypeOf(last.phase), last.message, Some(retry(last)))
      {
        var i :| 0 <= i < |r| && r[i] == c;
        assert Ids(r)[i] == Ids(before)[i];
      }
    }
  }

  /** A run with no `Completed` before its failing last state leaves the card at the top
      showing that failure. */
  lemma FailedRunLeavesCard(start: seq<VideoCardItem>, id: string, t: seq<UC.UploadState>, retry: UC.UploadState -> RetryInfo)
    requires |start| > 0 && start[0].Id() == id
    requires t != [] && t[|t| - 1].Failed?
    requires forall k :: 0 <= k < |t| - 1 ==> !t[k].Completed?
    ensures var r := HandleAll(start, id, t, retry); var last := t[|t| - 1];
      |r| == |start| && r[0] == Failed(id, FailTypeOf(last.phase), last.message, Some(retry(last)))
  {
    var prefix := t[..|t| - 1];
    assert forall k :: 0 <= k < |prefix| ==> prefix[k] == t[k];
    NonTerminalKeepsIds(start, id, prefix, retry);
    var before := HandleAll(start, id, prefix, retry);
    assert Ids(before)[0] == Ids(start)[0];
  }

  /** A run ending in `Completed` leaves no card of the upload. */
  lemma CompletedRunLeavesNoCard(start: seq<VideoCardItem>, id: string, t: seq<UC.UploadState>, retry: UC.UploadState -> RetryInfo)
    requires t != [] && t[|t| - 1] == UC.Completed
    ensures HandleAll(start, id, t, retry) == Remove(start, id)
  {
    var r := HandleAll(start, id, t, retry);
    LastStateDecidesCard(start, id, t, retry);
    OtherCardsUntouched(start, id, t, retry);
    forall i | 0 <= i < |r| ensures Ids(r)[i] != id {
      assert r[i] in r;
    }
    RemoveAbsent(r, id);
  }

  /** `uploadVideo` end to end: the other cards are never touched; a successful upload
      leaves no card behind; a failed one leaves its card on top, showing the reported
      message with retry info for the picked file. */
  lemma UploadVideoOutcome(list: seq<VideoCardItem>, id: string, videoUri: Uri, title: string,
                           c: UC.CompressionRun, a: UC.AddVideoRun)
    requires id !in Ids(list)
    ensures var r := HandleAll(AddCompressing(list, id), id, UC.InvokeTrace(c, a), Fresh(videoUri, title));
      && Remove(r, id) == list
      && (UC.InvokeResult(c, a).Success? ==> r == list)
      && (UC.InvokeResult(c, a).Error? ==>
            |r| == |list| + 1 && r[0].Failed? && r[0].Id() == id && r[0].message == UC.InvokeResult(c, a).message
            && r[0].retryInfo.Some? && r[0].retryInfo.value.originalUri == videoUri && r[0].retryInfo.value.title == title)
  {
    var t := UC.InvokeTrace(c, a);
    var start := AddCompressing(list, id);
    UC.InvokeTraceShape(c, a);
    OtherCardsUntouched(start, id, t, Fresh(videoUri, title));
    CancelUndoesAdd(list, id);
    if UC.InvokeResult(c, a).Success? {
      CompletedRunLeavesNoCard(start, id, t, Fresh(videoUri, title));
    } else {
      FailedRunLeavesCard(start, id, t, Fresh(videoUri, title));
    }
  }

  /** A card whose upload failed after compression can be retried with exactly the
      compressed file, thumbnail and duration the compressor produced. */
  lemma UploadFailureIsRetryable(list: seq<VideoCardItem>, id: string, videoUri: Uri, title: string,
                                 c: UC.CompressionRun, a: UC.AddVideoRun, section: string, uploader: string)
    requires id !in Ids(list)
    requires UC.InvokeResult(c, a).Error?
    ensures var r := HandleAll(AddCompressing(list, id), id, UC.InvokeTrace(c, a), Fresh(videoUri, title));
      |r| > 0 && r[0].Failed? &&
      (r[0].failType == UPLOAD ==>
        c.outcome.Returned?
        && RetryPlan(r[0], Some(section), Some(uploader))
           == Some(Reupload(c.outcome.value.compressedUri, c.outcome.value.thumbnailUri,
                            c.outcome.value.durationSeconds, title, section, uploader)))
  {
    var t := UC.InvokeTrace(c, a);
    UC.InvokeTraceShape(c, a);
    UC.InvokeFailureCarriesCompressedFile(c, a);
    FailedRunLeavesCard(AddCompressing(list, id), id, t, Fresh(videoUri, title));
    var last := t[|t| - 1];
    assert last.phase == UC.UPLOAD <==> FailTypeOf(last.phase) == UPLOAD;
  }

  /** What a reload keeps of the old list. */
  lemma {:induction false} KeepInProgressAppend(a: seq<VideoCardItem>, b: seq<VideoCardItem>)
    ensures KeepInProgress(a + b) == KeepInProgress(a) + KeepInProgress(b)
  {
    if a != [] {
      assert (a + b)[1..] == a[1..] + b;
      KeepInProgressAppend(a[1..], b);
    } else {
      assert a + b == b;
    }
  }

  lemma {:induction false} KeepInProgressIdempotent(list: seq<VideoCardItem>)
    ensures KeepInProgress(KeepInProgress(list)) == KeepInProgress(list)
  {
    if list != [] {
      var head := if InProgress(list[0]) then [list[0]] else [];
      KeepInProgressAppend(head, KeepInProgress(list[1..]));
      KeepInProgressIdempotent(list[1..]);
      if InProgress(list[0]) {
        assert [list[0]][1..] == [];
      }
    }
  }

  lemma {:induction false} KeepInProgressOfCompleted(videos: seq<VideoSummary>)
    ensures KeepInProgress(AsCompleted(videos)) == []
  {
    if videos != [] {
      assert AsCompleted(videos)[1..] == AsCompleted(videos[1..]);
      KeepInProgressOfCompleted(videos[1..]);
    }
  }

  /** A reload keeps exactly the unfinished cards, in order, ahead of the fetched videos, so
      reloading again keeps the same unfinished cards and shows only the newest fetch. */
  lemma ReloadTwice(list: seq<VideoCardItem>, v1: seq<VideoSummary>, v2: seq<VideoSummary>)
    ensures KeepInProgress(Reload(list, v1)) == KeepInProgress(list)
    ensures Reload(Reload(list, v1), v2) == Reload(list, v2)
  {
    KeepInProgressAppend(KeepInProgress(list), AsCompleted(v1));
    KeepInProgressIdempotent(list);
    KeepInProgressOfCompleted(v1);
    assert KeepInProgress(list) + [] == KeepInProgress(list);
  }

  /** Merging the same failure twice is merging it once, and a failure that reports all three
      values replaces whatever was known. */
  lemma MergeRetryInfoProperties(base: RetryInfo, state: UC.UploadState)
    requires state.Failed?
    ensures MergeRetryInfo(MergeRetryInfo(base, state), state) == MergeRetryInfo(base, state)
    ensures state.compressedUri.Some? && state.thumbnailUri.Some? && state.duration.Some? ==>
      MergeRetryInfo(base, state) == FreshRetryInfo(base.originalUri, base.title, state)
  {
  }
}
