# diract: a verified model of the app's list, upload and editing rules

diract is an Android app for dance teams. A team shares projects, each holding tracks. A track's videos are grouped into sections ("parts"). Members upload practice videos, which are compressed on the device and stored in Firebase, and the team leader manages the teamspace's members. Most of the app is view binding and pass-through Firebase calls. This project models the small, exact rules underneath:

- **text-length validators**: the `InputFilter`s, the input dialog's confirm, counter and background rules, and the section row's 10-character counter and diff payload;
- **item decorations**: the integer spacing arithmetic of the grid, linear, video-card and section-chip decorations;
- **upload-card state machine**: `UploadVideoUseCase`'s phase-tagged state reports, how `VideoListViewModel` rewrites the card of an upload as they arrive, how a failed upload is retried, and the progress mapping and document bookkeeping of `VideoRemoteDataSourceImpl`;
- **section editing**: `SectionSettingViewModel`, which has at most one row in edit mode and a placeholder row for "add", and `MoveVideoViewModel`'s move-only-if-changed guard;
- **adapter and view-model selection state**: `TeamMemberAdapter`'s kick-mode selection, `ProjectAdapter`'s single expanded project and edit bookkeeping, `SongListAdapter`'s edit row, and `UploadVideoViewModel`'s favourite filter and upload gate;
- **small helpers**: the `mm:ss` duration formatter, `TeamspaceRepositoryImpl`'s member–user join and error folding, and `OptionPopup`/`OptionItem` with its builder, presets and placement.

Each Kotlin file is one Dafny module. The modules are:

- `Common`: result types, Kotlin's truncating `/` and `%`, `trim`/`isBlank`, and decimal digits.
- `Res`: the colour, drawable and string resources the code picks between.
- `Rects`: the `outRect` the decorations write.

Objects whose fields the app updates in place are classes:

- the view models, adapters, view holders, decorations and the popup;
- `VideoStore`, an in-memory copy of a track's Firestore documents and storage files.

Every class method states its whole new state. Their partners are pure functions, and lemmas relate those functions to one another. Repository, Firebase, compressor and gallery calls are parameters: a `DataResult` (success or error) or an `Outcome` (returned or threw), plus the progress reports they make. Each `viewModelScope.launch` body is one atomic step.

The sources are mid-refactor. Where a data class lags behind the code that uses it, the model follows the using code:

- A failed card keeps its `retryInfo`, because `VideoListViewModel.kt:154` reads it.
- `UploadState.Failed` carries the thumbnail. `VideoListViewModel.kt:231` reads it, the compressor produces it, and the repository's `addVideo` takes it. The use case therefore passes it through, like the compressed file and the duration.
- The chip list starts with a set-section chip, as `VideoListViewModel.kt:55` builds it.

## Model

| member | source | states |
|---|---|---|
| Formatter.Pad2 | app/src/main/java/com/baek/diract/presentation/common/Formatter.kt:18 | `%02d` renders a non-negative number as at least two decimal digits, exactly two below 100, and a negative one as a minus sign and digits |
| Formatter.Minutes | app/src/main/java/com/baek/diract/presentation/common/Formatter.kt:16 | the minutes field with Kotlin's truncating `/`; Formatter.SplitRecombines and Formatter.FieldRanges state that it and the seconds recombine to the duration and their ranges |
| Formatter.Seconds | app/src/main/java/com/baek/diract/presentation/common/Formatter.kt:17 | the seconds field with Kotlin's truncating `%`, in 0..59 for a non-negative duration (Formatter.FieldRanges) |
| Formatter.ToUiString | app/src/main/java/com/baek/diract/presentation/common/Formatter.kt:14-19 | the zero-padded minutes, a colon and the zero-padded seconds; Formatter.FiveCharacters and Formatter.RoundTrip state its shape and that it reads back as the duration |
| Formatter.SplitRecombines | app/src/main/java/com/baek/diract/presentation/common/Formatter.kt:15-17 | the minutes and seconds fields, with Kotlin's truncating `/` and `%`, recombine to the whole seconds for either sign |
| Formatter.FieldRanges | app/src/main/java/com/baek/diract/presentation/common/Formatter.kt:16-17 | for a non-negative duration the seconds are in 0..59 and the minutes non-negative; for a negative one both fields are non-positive |
| Formatter.FiveCharacters | app/src/main/java/com/baek/diract/presentation/common/Formatter.kt:14-19 | under 100 minutes the text is `mm:ss`: five characters with two digits either side of the colon |
| Formatter.ParsePad2 | app/src/main/java/com/baek/diract/presentation/common/Formatter.kt:18 | reading back a zero-padded field gives the number |
| Formatter.RoundTrip | app/src/main/java/com/baek/diract/presentation/common/Formatter.kt:14-19 | the digits before the colon read back as the minutes (truncating `/ 60`), the two after it as the seconds (truncating `% 60`), and minutes * 60 + seconds is the duration |
| MaxLengthFilter.Filter | app/src/main/java/com/baek/diract/presentation/common/MaxLengthInputFilter.kt:25-50 | with `keep` the room left after removing the replaced span: no room gives "" (callback only for a non-empty source), room for the whole span gives null, otherwise the first `keep` characters of the span with the callback |
| MaxLengthFilter.InsertedIsLongestFittingPrefix | app/src/main/java/com/baek/diract/presentation/common/MaxLengthInputFilter.kt:35-48 | what is inserted is the longest prefix of the offered span that fits in the room left |
| MaxLengthFilter.ResultWithinMaxLength | app/src/main/java/com/baek/diract/presentation/common/MaxLengthInputFilter.kt:35-49 | when the kept part of the old text is within `maxLength`, so is the edited text |
| MaxLengthFilter.ExceedReportsCuts | app/src/main/java/com/baek/diract/presentation/common/MaxLengthInputFilter.kt:38-48 | `onExceed` never fires on the accepting branch or for an empty source, and always fires when characters of the offered span are lost; it fires with nothing lost only for an empty span offered into a full field |
| MaxLengthFilter.NullSourceInTruncatingBranch | app/src/main/java/com/baek/diract/presentation/common/MaxLengthInputFilter.kt:45-48 | a null source in the truncating branch still fires the callback and returns null, so the span is taken unchanged |
| GridSpacing.Column | app/src/main/java/com/baek/diract/presentation/common/recyclerview/GridSpacingItemDecoration.kt:29 | the column of a non-negative position is in `[0, spanCount)` |
| GridSpacing.GridSpacingItemDecoration.GetItemOffsets | app/src/main/java/com/baek/diract/presentation/common/recyclerview/GridSpacingItemDecoration.kt:20-49 | the rect becomes the edge-including or edge-excluding offsets of the item's column and row, nothing written for `NO_POSITION` |
| GridSpacing.NoPositionUntouched | app/src/main/java/com/baek/diract/presentation/common/recyclerview/GridSpacingItemDecoration.kt:26-27 | a view without an adapter position keeps its rect |
| GridSpacing.ColumnGapIsSpacing | app/src/main/java/com/baek/diract/presentation/common/recyclerview/GridSpacingItemDecoration.kt:33-43 | in both modes the right offset of a column and the left offset of the next add up to `spacing` |
| GridSpacing.NextColumn | app/src/main/java/com/baek/diract/presentation/common/recyclerview/GridSpacingItemDecoration.kt:29 | the next position in the same row is in the next column |
| GridSpacing.AdjacentCellsGap | app/src/main/java/com/baek/diract/presentation/common/recyclerview/GridSpacingItemDecoration.kt:29-43 | two cells side by side in a row are `spacing` apart |
| GridSpacing.OuterEdges | app/src/main/java/com/baek/diract/presentation/common/recyclerview/GridSpacingItemDecoration.kt:31-43 | the first column's left and the last column's right offsets are `spacing` with `includeEdge` and 0 without |
| GridSpacing.RowGapIsSpacing | app/src/main/java/com/baek/diract/presentation/common/recyclerview/GridSpacingItemDecoration.kt:36-47 | a cell and the cell below it are `spacing` apart in both modes |
| GridSpacing.FirstRowTop | app/src/main/java/com/baek/diract/presentation/common/recyclerview/GridSpacingItemDecoration.kt:36-47 | with `includeEdge` only first-row cells get `spacing` on top and later rows keep their prior top; without it only later rows get `spacing` on top; the bottom is `spacing` only with `includeEdge` |
| Spacing.SpacingItemDecoration.GetItemOffsets | app/src/main/java/com/baek/diract/presentation/common/recyclerview/SpacingItemDecoration.kt:29-62 | the rect becomes the offsets for the position along the orientation, nothing written for `NO_POSITION` |
| Spacing.ConsecutiveGap | app/src/main/java/com/baek/diract/presentation/common/recyclerview/SpacingItemDecoration.kt:42-55 | between two consecutive items the gap is exactly `spacing` |
| Spacing.ListEnds | app/src/main/java/com/baek/diract/presentation/common/recyclerview/SpacingItemDecoration.kt:45-59 | with `includeEdge` the first item's leading and the last item's trailing offset are `spacing` |
| Spacing.CrossAxisUntouched | app/src/main/java/com/baek/diract/presentation/common/recyclerview/SpacingItemDecoration.kt:40-61 | only the two sides along the orientation are written; an unknown orientation writes nothing |
| Spacing.NoTrailingWithoutEdge | app/src/main/java/com/baek/diract/presentation/common/recyclerview/SpacingItemDecoration.kt:42-55 | without `includeEdge` no item gets a trailing offset written |
| VideoCardDecoration.VideoCardItemDecoration.GetItemOffsets | app/src/main/java/com/baek/diract/presentation/home/video/VideoCardItemDecoration.kt:14-31 | the rect's left and right become the column's shares of `horizontalSpacing` and rows after the first get `verticalSpacing` on top |
| VideoCardDecoration.OuterEdgesFlush | app/src/main/java/com/baek/diract/presentation/home/video/VideoCardItemDecoration.kt:24-25 | the first column's left and the last column's right offsets are 0 |
| VideoCardDecoration.OffsetsInRange | app/src/main/java/com/baek/diract/presentation/home/video/VideoCardItemDecoration.kt:24-25 | for a real column both offsets lie in `[0, horizontalSpacing]` |
| VideoCardDecoration.AdjacentGap | app/src/main/java/com/baek/diract/presentation/home/video/VideoCardItemDecoration.kt:23-25 | because both offsets round down, adjacent cells are `horizontalSpacing` or one pixel less apart |
| VideoCardDecoration.RowSpacing | app/src/main/java/com/baek/diract/presentation/home/video/VideoCardItemDecoration.kt:27-30 | every row but the first gets `verticalSpacing` on top; the bottom is never written |
| VideoCardDecoration.DetachedViewOffsets | app/src/main/java/com/baek/diract/presentation/home/video/VideoCardItemDecoration.kt:20-25 | with no `NO_POSITION` guard, position -1 falls in column -1: a full `horizontalSpacing` on the right and a non-positive left |
| SectionChipDecoration.SectionChipItemDecoration.GetItemOffsets | app/src/main/java/com/baek/diract/presentation/home/video/SectionChipItemDecoration.kt:11-21 | the rect becomes the chip's offsets |
| SectionChipDecoration.RightSpacingExceptLast | app/src/main/java/com/baek/diract/presentation/home/video/SectionChipItemDecoration.kt:18-20 | every chip but the last gets `spacing` on its right; the last keeps its right offset |
| SectionChipDecoration.DetachedViewGetsSpacing | app/src/main/java/com/baek/diract/presentation/home/video/SectionChipItemDecoration.kt:17-20 | without a `NO_POSITION` guard a detached view in a non-empty row gets the spacing |
| InputDialog.MaxLength | app/src/main/java/com/baek/diract/presentation/common/dialog/InputDialogFragment.kt:56-57 | the limit is the one in the arguments, and 20 when there are no arguments or no limit in them |
| InputDialog.NewInstanceArguments | app/src/main/java/com/baek/diract/presentation/common/dialog/InputDialogFragment.kt:261-279 | the arguments built by `newInstance` always carry the limit, so the dialog reads back the limit it was given (20 by default) |
| InputDialog.ConfirmedText | app/src/main/java/com/baek/diract/presentation/common/dialog/InputDialogFragment.kt:146-155 | a confirm click yields a text exactly when the trimmed text is non-empty and within the limit, and the text it yields is the trimmed one |
| InputDialog.Background | app/src/main/java/com/baek/diract/presentation/common/dialog/InputDialogFragment.kt:218-225 | the error background exactly when the error flag is set, else the focus background exactly when focused, else the default |
| InputDialog.FilteredInitialText | app/src/main/java/com/baek/diract/presentation/common/dialog/InputDialogFragment.kt:126-127 | the length filter keeps the initial text when it fits and otherwise its prefix of exactly the limit |
| InputDialog.InputDialogFragment.constructor | app/src/main/java/com/baek/diract/presentation/common/dialog/InputDialogFragment.kt:114-136 | after setup the field holds the filtered initial text and has focus, while the button, clear button, counter and error flag are computed from the unfiltered initial text; no `onConfirm` is set yet |
| InputDialog.InputDialogFragment.UpdateButtonState | app/src/main/java/com/baek/diract/presentation/common/dialog/InputDialogFragment.kt:188-190 | confirm is enabled exactly for a non-empty text within the limit; nothing else changes |
| InputDialog.InputDialogFragment.UpdateClearButtonVisibility | app/src/main/java/com/baek/diract/presentation/common/dialog/InputDialogFragment.kt:192-194 | the clear button is visible exactly for a non-empty text; nothing else changes |
| InputDialog.InputDialogFragment.UpdateInputBackground | app/src/main/java/com/baek/diract/presentation/common/dialog/InputDialogFragment.kt:218-225 | the background follows the error flag and the given focus; nothing else changes |
| InputDialog.InputDialogFragment.UpdateCounter | app/src/main/java/com/baek/diract/presentation/common/dialog/InputDialogFragment.kt:196-216 | an empty text hides the counter and clears the error; otherwise the counter shows, the error is set exactly at or over the limit with the limit message in red, or "length/max" in the normal colour below it; the background is refreshed |
| InputDialog.InputDialogFragment.AfterTextChanged | app/src/main/java/com/baek/diract/presentation/common/dialog/InputDialogFragment.kt:179-184 | every edit recomputes the confirm button, the clear button and the counter from the new text |
| InputDialog.InputDialogFragment.OnFocusChange | app/src/main/java/com/baek/diract/presentation/common/dialog/InputDialogFragment.kt:159-161 | a focus change only updates the background |
| InputDialog.InputDialogFragment.SetOnConfirm | app/src/main/java/com/baek/diract/presentation/common/dialog/InputDialogFragment.kt:54 | the caller sets the nullable `onConfirm` callback; nothing else changes |
| InputDialog.InputDialogFragment.OnConfirmClick | app/src/main/java/com/baek/diract/presentation/common/dialog/InputDialogFragment.kt:146-155 | a valid trimmed text is handed to `onConfirm` when one is set, and the loading overlay is shown either way; an invalid text changes nothing |
| InputDialog.AtLimitConfirmableButFlagged | app/src/main/java/com/baek/diract/presentation/common/dialog/InputDialogFragment.kt:189-203 | a text of exactly the limit can be confirmed, yet the counter already shows the limit error |
| InputDialog.ConfirmNeedsMoreThanEnabled | app/src/main/java/com/baek/diract/presentation/common/dialog/InputDialogFragment.kt:150-189 | a blank text within the limit enables the button but confirms nothing; an enabled button with a non-blank text always confirms |
| InputDialog.OverlongInitialText | app/src/main/java/com/baek/diract/presentation/common/dialog/InputDialogFragment.kt:126-136 | an initial text over the limit leaves the button disabled and the error set, though the field holds a prefix that would be confirmable |
| SongList.FirstWithId | app/src/main/java/com/baek/diract/presentation/home/SongListAdapter.kt:67 | `firstOrNull`: some item with the id when one exists, and none exactly when no item has it |
| SongList.RenameCallSpec | app/src/main/java/com/baek/diract/presentation/home/SongListAdapter.kt:61-74 | a rename is requested exactly when the trimmed draft is non-empty and the list holds the edited id, with the first such item and the trimmed name |
| SongList.RenameCall | app/src/main/java/com/baek/diract/presentation/home/SongListAdapter.kt:61-74 | the rename the editor requests on commit, if any; SongList.RenameCallSpec states exactly when one is requested and with which item and name |
| SongList.SongListAdapter.constructor | app/src/main/java/com/baek/diract/presentation/home/SongListAdapter.kt:25-33 | a new adapter edits nothing, with an empty draft |
| SongList.SongListAdapter.SubmitList | app/src/main/java/com/baek/diract/presentation/home/SongListAdapter.kt:30 | submitting a list replaces the current list and leaves the edit state alone |
| SongList.SongListAdapter.SetEditMode | app/src/main/java/com/baek/diract/presentation/home/SongListAdapter.kt:35-40 | the id and draft are recorded and `true` is reported |
| SongList.SongListAdapter.ClearEditMode | app/src/main/java/com/baek/diract/presentation/home/SongListAdapter.kt:42-47 | the edit state is cleared and `false` is reported |
| SongList.SongListAdapter.OnDraftChanged | app/src/main/java/com/baek/diract/presentation/home/SongListAdapter.kt:168-173 | the draft follows the edit field's text |
| SongList.SongListAdapter.CommitEditAndExit | app/src/main/java/com/baek/diract/presentation/home/SongListAdapter.kt:61-74 | without an edited id nothing happens and false is returned; otherwise the rename (if any) is requested, the edit mode is left, `false` is reported and true returned |
| SongList.AtMostOneRowEditing | app/src/main/java/com/baek/diract/presentation/home/SongListAdapter.kt:83-87 | two rows that both show the edit card have the same id |
| SongList.LengthFilterWithToast | app/src/main/java/com/baek/diract/presentation/home/SongListAdapter.kt:188-206 | the callback runs exactly when the filter replaces the span |
| SongList.ToastFilterAgreesWithMaxLengthFilter | app/src/main/java/com/baek/diract/presentation/home/SongListAdapter.kt:188-206 | for a real source it edits the text like `MaxLengthInputFilter`, and reports differently only for an empty source into an over-full field or an empty span into a full one |
| Projects.IndexOfFirst | app/src/main/java/com/baek/diract/presentation/home/ProjectAdapter.kt:64-77 | `indexOfFirst`: -1 exactly when no project has the id, else the first index that has it |
| Projects.PositionOf | app/src/main/java/com/baek/diract/presentation/home/ProjectAdapter.kt:73-78 | at most one position, present exactly when an id is given and some project has it, and then the first index with that id |
| Projects.Toggled | app/src/main/java/com/baek/diract/presentation/home/ProjectAdapter.kt:68-70 | the project ends up expanded exactly when it was not the expanded one, and nothing else is ever expanded |
| Projects.ToggleTwice | app/src/main/java/com/baek/diract/presentation/home/ProjectAdapter.kt:68-70 | toggling a project twice restores the state when it or nothing was expanded; when another project was expanded, nothing is expanded afterwards |
| Projects.ProjectAdapter.constructor | app/src/main/java/com/baek/diract/presentation/home/ProjectAdapter.kt:19-41 | a new adapter has nothing expanded, nothing edited, no song lists and no active song-list editor |
| Projects.ProjectAdapter.SetEditMode | app/src/main/java/com/baek/diract/presentation/home/ProjectAdapter.kt:49-53 | the edited project and its draft name are recorded; nothing else changes |
| Projects.ProjectAdapter.ClearEditMode | app/src/main/java/com/baek/diract/presentation/home/ProjectAdapter.kt:56-60 | project editing ends with an empty draft; nothing else changes |
| Projects.ProjectAdapter.SetSongLists | app/src/main/java/com/baek/diract/presentation/home/ProjectAdapter.kt:62-66 | the project's song lists are stored and its row, if in the list, is refreshed |
| Projects.ProjectAdapter.ToggleExpanded | app/src/main/java/com/baek/diract/presentation/home/ProjectAdapter.kt:68-80 | the expanded id becomes the toggled one and the rows of the previous and the new expanded project are refreshed, in that order |
| Projects.ProjectAdapter.OnSongEditStateChanged | app/src/main/java/com/baek/diract/presentation/home/ProjectAdapter.kt:110-123 | a row's song-list editor becomes the active one when it starts editing, and is dropped only by itself when it stops; the state is passed on |
| Projects.ProjectAdapter.CommitActiveSongEditAndExit | app/src/main/java/com/baek/diract/presentation/home/ProjectAdapter.kt:44-46 | false without an active editor, or with the editor left untouched when it is not editing; otherwise the editor requests the rename of the first song list with the edited id under the trimmed draft (when that is non-empty and the id is listed), leaves edit mode and reports `false`, which also clears the active editor |
| Projects.ToggleRefreshesAtMostTwo | app/src/main/java/com/baek/diract/presentation/home/ProjectAdapter.kt:68-80 | a toggle refreshes at most two rows, all of them positions in the list |
| UploadUseCase.Invoke | app/src/main/java/com/baek/diract/domain/usecase/UploadVideoUseCase.kt:28-86 | the states handed to the callback are exactly Compressing(0), the compressor's progress, Uploading(0), the repository's progress and one terminal state, and the result is the repository's (or the exception's) result |
| UploadUseCase.UploadOnly | app/src/main/java/com/baek/diract/domain/usecase/UploadVideoUseCase.kt:89-141 | the states are Uploading(0), the repository's progress and one terminal state; a returned error and an exception both become an UPLOAD failure carrying the caller's file |
| UploadUseCase.RunUpload | app/src/main/java/com/baek/diract/domain/usecase/UploadVideoUseCase.kt:50-62 | the upload step emits Uploading(0) and then one Uploading per progress report, in order |
| UploadUseCase.UploadResult | app/src/main/java/com/baek/diract/domain/usecase/UploadVideoUseCase.kt:65-85 | the repository's result, or an error with the exception's message; UploadUseCase.InvokeTraceShape and UploadUseCase.UploadOnlyTraceShape tie it to the final state |
| UploadUseCase.InvokeTrace | app/src/main/java/com/baek/diract/domain/usecase/UploadVideoUseCase.kt:28-86 | the states invoke emits; UploadUseCase.InvokeTraceShape, UploadUseCase.UploadingStartsAfterCompression and UploadUseCase.InvokeFailureCarriesCompressedFile state their order, their single terminal state and what a failure carries |
| UploadUseCase.InvokeResult | app/src/main/java/com/baek/diract/domain/usecase/UploadVideoUseCase.kt:28-86 | what invoke returns; UploadUseCase.InvokeTraceShape states it is Success exactly when the last state is Completed, and a failure's message otherwise |
| UploadUseCase.UploadOnlyTrace | app/src/main/java/com/baek/diract/domain/usecase/UploadVideoUseCase.kt:89-141 | the states uploadOnly emits; UploadUseCase.UploadOnlyTraceShape and UploadUseCase.RetryRepeatsUploadStep state their shape and that they repeat the upload step of invoke |
| UploadUseCase.InvokeTraceShape | app/src/main/java/com/baek/diract/domain/usecase/UploadVideoUseCase.kt:28-86 | invoke's report starts at Compressing(0), never goes back a stage, ends with exactly one terminal state, ends with Completed exactly when it returns Success, and a failure carries the returned message |
| UploadUseCase.UploadingStartsAfterCompression | app/src/main/java/com/baek/diract/domain/usecase/UploadVideoUseCase.kt:38-50 | Uploading(0) is emitted exactly when compression returned, right after its last progress report |
| UploadUseCase.InvokeFailureCarriesCompressedFile | app/src/main/java/com/baek/diract/domain/usecase/UploadVideoUseCase.kt:70-84 | an UPLOAD failure carries the compressed file, thumbnail and duration the compressor produced; a COMPRESSION failure carries none |
| UploadUseCase.UploadOnlyTraceShape | app/src/main/java/com/baek/diract/domain/usecase/UploadVideoUseCase.kt:89-141 | uploadOnly's report is well formed, never reports compression, every failure is an UPLOAD failure with the caller's file, and it ends with Completed exactly on Success |
| UploadUseCase.RetryRepeatsUploadStep | app/src/main/java/com/baek/diract/domain/usecase/UploadVideoUseCase.kt:28-141 | after a successful compression, invoke's report is the compression report followed by exactly uploadOnly's report for the compressed file, with the same result, when the repository returns rather than throws |
| VideoList.AddCompressing | app/src/main/java/com/baek/diract/presentation/home/video/VideoListViewModel.kt:327-331 | a new card with the upload's id goes first; the other cards follow unchanged |
| VideoList.ChangeToCompressing | app/src/main/java/com/baek/diract/presentation/home/video/VideoListViewModel.kt:240-250 | the ids of the cards are kept, in order |
| VideoList.ChangeToUploading | app/src/main/java/com/baek/diract/presentation/home/video/VideoListViewModel.kt:347-357 | the ids of the cards are kept, in order |
| VideoList.ChangeToFailed | app/src/main/java/com/baek/diract/presentation/home/video/VideoListViewModel.kt:360-380 | the ids of the cards are kept, in order |
| VideoList.UpdateCompressionProgress | app/src/main/java/com/baek/diract/presentation/home/video/VideoListViewModel.kt:334-344 | the ids of the cards are kept, in order |
| VideoList.UpdateUploadProgress | app/src/main/java/com/baek/diract/presentation/home/video/VideoListViewModel.kt:402-412 | the ids of the cards are kept, in order |
| VideoList.Remove | app/src/main/java/com/baek/diract/presentation/home/video/VideoListViewModel.kt:383-385 | exactly the cards with another id remain, none added |
| VideoList.KeepInProgress | app/src/main/java/com/baek/diract/presentation/home/video/VideoListViewModel.kt:125-131 | exactly the unfinished cards remain |
| VideoList.AsCompleted | app/src/main/java/com/baek/diract/presentation/home/video/VideoListViewModel.kt:125 | one finished card per fetched video, in order |
| VideoList.Reload | app/src/main/java/com/baek/diract/presentation/home/video/VideoListViewModel.kt:122-145 | on a successful fetch, the unfinished cards followed by one finished card per fetched video; VideoList.ReloadTwice states what a second reload keeps |
| VideoList.MergeRetryInfo | app/src/main/java/com/baek/diract/presentation/home/video/VideoListViewModel.kt:229-233 | each value the failure reports replaces the known one; the others and the original file and title are kept |
| VideoList.FreshIsMergeIntoEmpty | app/src/main/java/com/baek/diract/presentation/home/video/VideoListViewModel.kt:302-308 | the retry info uploadVideo builds is the merge of the failure into retry info knowing nothing yet |
| VideoList.ChooseSection | app/src/main/java/com/baek/diract/presentation/home/video/VideoListViewModel.kt:97-100 | the kept selection if that section still exists, else the first section; none exactly when there are no sections |
| VideoList.ChipItems | app/src/main/java/com/baek/diract/presentation/home/video/VideoListViewModel.kt:50-64 | the settings chip first, then one chip per section in order, selected exactly when its id is the selected one |
| VideoList.GetVideoType | app/src/main/java/com/baek/diract/presentation/home/video/VideoListViewModel.kt:414-422 | another user's video exactly when the uploader is not the signed-in user; for one's own video, with or without parts by the number of sections |
| VideoList.RetryPlan | app/src/main/java/com/baek/diract/presentation/home/video/VideoListViewModel.kt:153-201 | nothing without retry info, a selection or a user, and never for EXCEEDED; a compression failure restarts from the original file; an upload failure re-uploads only with the compressed file, thumbnail and duration known |
| VideoList.VideoListViewModel.constructor | app/src/main/java/com/baek/diract/presentation/home/video/VideoListViewModel.kt:33-48 | no cards, no sections, no selection, idle states |
| VideoList.VideoListViewModel.LoadVideosForSection | app/src/main/java/com/baek/diract/presentation/home/video/VideoListViewModel.kt:122-145 | on success the unfinished cards stay ahead of the fetched videos; on error the cards are kept and the message is shown |
| VideoList.VideoListViewModel.RefreshAll | app/src/main/java/com/baek/diract/presentation/home/video/VideoListViewModel.kt:87-119 | a section error keeps everything and shows it; otherwise the sections are stored, the selection is chosen, and the cards are emptied, reloaded or kept by the video fetch |
| VideoList.VideoListViewModel.Refresh | app/src/main/java/com/baek/diract/presentation/home/video/VideoListViewModel.kt:388-399 | without a selection nothing is fetched; otherwise the cards are reloaded or the error shown |
| VideoList.VideoListViewModel.SelectSection | app/src/main/java/com/baek/diract/presentation/home/video/VideoListViewModel.kt:253-263 | picking the selected section again does nothing; another section becomes selected and its videos are loaded |
| VideoList.VideoListViewModel.CancelFailedItem | app/src/main/java/com/baek/diract/presentation/home/video/VideoListViewModel.kt:148-150 | the failed card, and every card with its id, is removed |
| VideoList.VideoListViewModel.ApplyStates | app/src/main/java/com/baek/diract/presentation/home/video/VideoListViewModel.kt:204-237 | applying a run of states rewrites the list state by state and launches one refresh per Completed |
| VideoList.VideoListViewModel.UploadVideo | app/src/main/java/com/baek/diract/presentation/home/video/VideoListViewModel.kt:266-319 | without a selection or a user nothing happens; otherwise a compressing card goes first and every state of the use case is applied to it |
| VideoList.VideoListViewModel.RetryFailedItem | app/src/main/java/com/baek/diract/presentation/home/video/VideoListViewModel.kt:153-201 | when the retry plan allows it, the card restarts as compressing or uploading and the states of the launched job are applied to it with the retry info merged; otherwise nothing changes |
| VideoList.VideoListViewModel.EditVideoName | app/src/main/java/com/baek/diract/presentation/home/video/VideoListViewModel.kt:426-444 | success shows Loaded and launches a refresh; an error shows its message; the cards are not touched |
| VideoList.VideoListViewModel.ResetEditUiState | app/src/main/java/com/baek/diract/presentation/home/video/VideoListViewModel.kt:446-448 | the edit state goes back to idle and nothing else changes |
| VideoList.ProgressUpdatesOnlyMatching | app/src/main/java/com/baek/diract/presentation/home/video/VideoListViewModel.kt:334-344 | a progress update rewrites only the cards with the id in the matching phase, and the last update wins |
| VideoList.SwitchesRewriteEveryCardWithId | app/src/main/java/com/baek/diract/presentation/home/video/VideoListViewModel.kt:240-380 | switching phase rewrites every card with the id with progress back at 0 and leaves every other card unchanged |
| VideoList.RemoveAgrees | app/src/main/java/com/baek/diract/presentation/home/video/VideoListViewModel.kt:383-385 | two lists that differ only in cards with the id give the same list once those are removed |
| VideoList.RemoveIdempotent | app/src/main/java/com/baek/diract/presentation/home/video/VideoListViewModel.kt:383-385 | removing twice is removing once |
| VideoList.RemoveAbsent | app/src/main/java/com/baek/diract/presentation/home/video/VideoListViewModel.kt:383-385 | removing an id not in the list changes nothing |
| VideoList.CancelUndoesAdd | app/src/main/java/com/baek/diract/presentation/home/video/VideoListViewModel.kt:148-150 | cancelling the card of a new upload gives back the list from before it was added |
| VideoList.HandleStateKeepsOthers | app/src/main/java/com/baek/diract/presentation/home/video/VideoListViewModel.kt:204-237 | handling a state of one upload never changes the cards of other uploads |
| VideoList.HandleState | app/src/main/java/com/baek/diract/presentation/home/video/VideoListViewModel.kt:204-237 | the card list after one state of an upload; VideoList.HandleStateKeepsOthers states that the cards of other uploads never change |
| VideoList.HandleAll | app/src/main/java/com/baek/diract/presentation/home/video/VideoListViewModel.kt:204-237 | the card list after a whole run of states; VideoList.OtherCardsUntouched and VideoList.LastStateDecidesCard state what it keeps and that the last state decides the upload's card |
| VideoList.OtherCardsUntouched | app/src/main/java/com/baek/diract/presentation/home/video/VideoListViewModel.kt:204-237 | a whole run of states of one upload never changes the cards of other uploads |
| VideoList.NonTerminalKeepsIds | app/src/main/java/com/baek/diract/presentation/home/video/VideoListViewModel.kt:204-237 | a run without Completed keeps the ids of the cards in order |
| VideoList.LastStateDecidesCard | app/src/main/java/com/baek/diract/presentation/home/video/VideoListViewModel.kt:204-237 | after a run ending in failure every card of the upload shows that failure; after a run ending in Completed no card of the upload remains |
| VideoList.FailedRunLeavesCard | app/src/main/java/com/baek/diract/presentation/home/video/VideoListViewModel.kt:204-237 | a failing run leaves the upload's card on top showing the failure |
| VideoList.CompletedRunLeavesNoCard | app/src/main/java/com/baek/diract/presentation/home/video/VideoListViewModel.kt:217-220 | a run ending in Completed leaves exactly the other cards |
| VideoList.UploadVideoOutcome | app/src/main/java/com/baek/diract/presentation/home/video/VideoListViewModel.kt:266-319 | other cards are never touched; a successful upload leaves no card; a failed one leaves its card on top with the returned message and retry info for the picked file |
| VideoList.UploadFailureIsRetryable | app/src/main/java/com/baek/diract/presentation/home/video/VideoListViewModel.kt:153-201 | a card whose upload failed after compression is re-uploaded with exactly the compressor's file, thumbnail and duration |
| VideoList.KeepInProgressAppend | app/src/main/java/com/baek/diract/presentation/home/video/VideoListViewModel.kt:125-131 | filtering a concatenation filters each part |
| VideoList.KeepInProgressIdempotent | app/src/main/java/com/baek/diract/presentation/home/video/VideoListViewModel.kt:125-131 | filtering twice is filtering once |
| VideoList.KeepInProgressOfCompleted | app/src/main/java/com/baek/diract/presentation/home/video/VideoListViewModel.kt:125-131 | no fetched video is kept as an unfinished card |
| VideoList.ReloadTwice | app/src/main/java/com/baek/diract/presentation/home/video/VideoListViewModel.kt:122-145 | a reload keeps exactly the unfinished cards, so reloading again shows the same unfinished cards ahead of only the newest fetch |
| VideoList.MergeRetryInfoProperties | app/src/main/java/com/baek/diract/presentation/home/video/VideoListViewModel.kt:229-233 | merging the same failure twice is merging it once; a failure reporting all three values replaces what was known |
| RemoteVideos.VideoProgress | app/src/main/java/com/baek/diract/data/datasource/remote/VideoRemoteDataSourceImpl.kt:90-93 | a video upload event maps into 0..90 |
| RemoteVideos.ThumbnailProgress | app/src/main/java/com/baek/diract/data/datasource/remote/VideoRemoteDataSourceImpl.kt:105-108 | a thumbnail upload event maps into 90..100 |
| RemoteVideos.ProgressEnds | app/src/main/java/com/baek/diract/data/datasource/remote/VideoRemoteDataSourceImpl.kt:90-108 | a finished video file reports 90; the thumbnail starts at 90 and finishes at 100 |
| RemoteVideos.ProgressMonotone | app/src/main/java/com/baek/diract/data/datasource/remote/VideoRemoteDataSourceImpl.kt:90-108 | more bytes never mean less progress, in either phase |
| RemoteVideos.VideoProgresses | app/src/main/java/com/baek/diract/data/datasource/remote/VideoRemoteDataSourceImpl.kt:90-93 | one report per video event, in order |
| RemoteVideos.ThumbnailProgresses | app/src/main/java/com/baek/diract/data/datasource/remote/VideoRemoteDataSourceImpl.kt:105-108 | one report per thumbnail event, in order |
| RemoteVideos.ReportedProgressMonotone | app/src/main/java/com/baek/diract/data/datasource/remote/VideoRemoteDataSourceImpl.kt:70-141 | the progress addVideo reports stays within 0..100, never goes back, and ends with 100, after every event, exactly when no step threw |
| RemoteVideos.ReportedProgress | app/src/main/java/com/baek/diract/data/datasource/remote/VideoRemoteDataSourceImpl.kt:70-141 | the progress values addVideo reports, video then thumbnail, up to the step that throws; RemoteVideos.ReportedProgressMonotone states its range, order and end |
| RemoteVideos.Referenced | app/src/main/java/com/baek/diract/data/datasource/remote/VideoRemoteDataSourceImpl.kt:45-50 | exactly the track documents that have a video id are collected |
| RemoteVideos.Resolved | app/src/main/java/com/baek/diract/data/datasource/remote/VideoRemoteDataSourceImpl.kt:53-66 | exactly the collected pairs whose video document exists, each paired with that document |
| RemoteVideos.Insert | app/src/main/java/com/baek/diract/data/datasource/remote/VideoRemoteDataSourceImpl.kt:67 | inserting adds the element and loses nothing |
| RemoteVideos.InsertSorted | app/src/main/java/com/baek/diract/data/datasource/remote/VideoRemoteDataSourceImpl.kt:67 | inserting into a list sorted by creation time keeps it sorted |
| RemoteVideos.SortByCreatedAt | app/src/main/java/com/baek/diract/data/datasource/remote/VideoRemoteDataSourceImpl.kt:67 | the sort is a permutation |
| RemoteVideos.SortByCreatedAtSorted | app/src/main/java/com/baek/diract/data/datasource/remote/VideoRemoteDataSourceImpl.kt:67 | the sort orders by creation time, missing times first |
| RemoteVideos.VideoStore.constructor | app/src/main/java/com/baek/diract/data/datasource/remote/VideoRemoteDataSourceImpl.kt:14-17 | an empty store |
| RemoteVideos.VideoStore.GetVideos | app/src/main/java/com/baek/diract/data/datasource/remote/VideoRemoteDataSourceImpl.kt:33-68 | the listing is the resolved track documents of the section sorted by creation time |
| RemoteVideos.VideoStore.AddVideo | app/src/main/java/com/baek/diract/data/datasource/remote/VideoRemoteDataSourceImpl.kt:70-141 | the reported progress; the files, the video document and the track document are written exactly up to the step that throws |
| RemoteVideos.VideoStore.MoveVideoSection | app/src/main/java/com/baek/diract/data/datasource/remote/VideoRemoteDataSourceImpl.kt:156-187 | without a track document with a video id nothing changes and the call returns; otherwise a new track document with that video id is added to the target section, then the old one is deleted; a Firestore call that throws stops it there, so a throw at the delete leaves the video in both sections |
| RemoteVideos.VideoStore.DeleteVideo | app/src/main/java/com/baek/diract/data/datasource/remote/VideoRemoteDataSourceImpl.kt:189-225 | the track document goes, then every file listed directly under `video/{videoId}` if storage succeeds (a storage failure is ignored), then the video document; a Firestore call that throws stops it there |
| RemoteVideos.VideoStore.DeleteSection | app/src/main/java/com/baek/diract/data/datasource/remote/VideoRemoteDataSourceImpl.kt:277-293 | the listed track documents are deleted one by one, then the section document; a Firestore call that throws stops it there; videos and files stay |
| RemoteVideos.VideoStore.DeleteListedTracks | app/src/main/java/com/baek/diract/data/datasource/remote/VideoRemoteDataSourceImpl.kt:287-289 | the loop deletes the first n listed track documents and leaves the others in order |
| RemoteVideos.TracksDeleted | app/src/main/java/com/baek/diract/data/datasource/remote/VideoRemoteDataSourceImpl.kt:286-289 | how many listed track documents are deleted: none if listing throws, those before a throwing delete, otherwise all |
| RemoteVideos.SectionDeleted | app/src/main/java/com/baek/diract/data/datasource/remote/VideoRemoteDataSourceImpl.kt:286-292 | the section document is deleted exactly when no Firestore call throws |
| RemoteVideos.FolderFiles | app/src/main/java/com/baek/diract/data/datasource/remote/VideoRemoteDataSourceImpl.kt:207-212 | exactly the stored files directly inside the folder `video/{videoId}` |
| RemoteVideos.StoredFilesInFolder | app/src/main/java/com/baek/diract/data/datasource/remote/VideoRemoteDataSourceImpl.kt:207-212 | the video file and thumbnail `addVideo` stores lie in that folder, so `deleteVideo` removes them |
| RemoteVideos.WithoutOneMore | app/src/main/java/com/baek/diract/data/datasource/remote/VideoRemoteDataSourceImpl.kt:287-289 | deleting one more listed document is deleting the larger set of ids |
| RemoteVideos.WithoutTracksMembers | app/src/main/java/com/baek/diract/data/datasource/remote/VideoRemoteDataSourceImpl.kt:287-289 | exactly the documents whose id was not deleted remain |
| RemoteVideos.AllTracksDeleted | app/src/main/java/com/baek/diract/data/datasource/remote/VideoRemoteDataSourceImpl.kt:287-289 | when every listed delete succeeds, the section has no track documents left |
| RemoteVideos.TrackIds | app/src/main/java/com/baek/diract/data/datasource/remote/VideoRemoteDataSourceImpl.kt:196-204 | exactly the ids of the documents |
| RemoteVideos.VideoIdOf | app/src/main/java/com/baek/diract/data/datasource/remote/VideoRemoteDataSourceImpl.kt:163-172 | the video id of the first track document with the id; none when no document has it |
| RemoteVideos.WithoutTrack | app/src/main/java/com/baek/diract/data/datasource/remote/VideoRemoteDataSourceImpl.kt:196-204 | exactly the documents with another id remain, in order |
| RemoteVideos.ListingContents | app/src/main/java/com/baek/diract/data/datasource/remote/VideoRemoteDataSourceImpl.kt:33-68 | getVideos lists exactly the track documents with an existing video, paired with it, sorted by creation time, at most one per document |
| SectionSetting.EditingItem | app/src/main/java/com/baek/diract/presentation/home/video/section/SectionSettingViewModel.kt:44-51 | none exactly when no row is being edited; otherwise a row of the list that is being edited |
| SectionSetting.Rows | app/src/main/java/com/baek/diract/presentation/home/video/section/SectionSettingViewModel.kt:64-72 | exactly the sections other than the default one become rows, none of them being edited |
| SectionSetting.IndexOfId | app/src/main/java/com/baek/diract/presentation/home/video/section/SectionSettingViewModel.kt:86-89 | the first position with the id, or -1 exactly when no row has it |
| SectionSetting.EditingPosition | app/src/main/java/com/baek/diract/presentation/home/video/section/SectionSettingViewModel.kt:86-89 | -1 exactly when nothing is being edited; otherwise a position holding the edited row's id |
| SectionSetting.MarkEditing | app/src/main/java/com/baek/diract/presentation/home/video/section/SectionSettingViewModel.kt:98-108 | same length; exactly the rows with the id are switched to editing |
| SectionSetting.Cancelled | app/src/main/java/com/baek/diract/presentation/home/video/section/SectionSettingViewModel.kt:136-146 | afterwards no row is being edited |
| SectionSetting.CompleteRequest | app/src/main/java/com/baek/diract/presentation/home/video/section/SectionSettingViewModel.kt:110-134 | no request for a blank name or with nothing being edited; an add for the placeholder row, else an edit of the edited row's id with the new name |
| SectionSetting.SectionSettingViewModel.constructor | app/src/main/java/com/baek/diract/presentation/home/video/section/SectionSettingViewModel.kt:25-41 | no rows, idle, no requests, no toasts |
| SectionSetting.SectionSettingViewModel.LoadSections | app/src/main/java/com/baek/diract/presentation/home/video/section/SectionSettingViewModel.kt:57-84 | on success the rows are exactly the non-default sections; on error the rows are kept and the message shown |
| SectionSetting.SectionSettingViewModel.StartAddSection | app/src/main/java/com/baek/diract/presentation/home/video/section/SectionSettingViewModel.kt:91-96 | while a row is being edited nothing changes; otherwise the placeholder row is appended |
| SectionSetting.SectionSettingViewModel.StartEditSection | app/src/main/java/com/baek/diract/presentation/home/video/section/SectionSettingViewModel.kt:98-108 | while a row is being edited nothing changes; otherwise the picked row starts editing |
| SectionSetting.SectionSettingViewModel.CompleteEditSection | app/src/main/java/com/baek/diract/presentation/home/video/section/SectionSettingViewModel.kt:110-134 | a blank name or nothing being edited changes nothing; otherwise one add or edit request is made, and its success reloads the sections while its failure keeps the rows and shows a toast |
| SectionSetting.SectionSettingViewModel.CancelEditing | app/src/main/java/com/baek/diract/presentation/home/video/section/SectionSettingViewModel.kt:136-146 | the placeholder row goes and every edited row stops editing |
| SectionSetting.SectionSettingViewModel.DeleteSection | app/src/main/java/com/baek/diract/presentation/home/video/section/SectionSettingViewModel.kt:148-162 | one delete request; success reloads the sections, failure keeps the rows and shows a toast |
| SectionSetting.RowsAppend | app/src/main/java/com/baek/diract/presentation/home/video/section/SectionSettingViewModel.kt:64-72 | the filter works section by section |
| SectionSetting.NoneEditingCount | app/src/main/java/com/baek/diract/presentation/home/video/section/SectionSettingViewModel.kt:64-72 | freshly loaded rows have no row being edited |
| SectionSetting.EditingCountAppend | app/src/main/java/com/baek/diract/presentation/home/video/section/SectionSettingViewModel.kt:44-51 | edited rows of a concatenation add up |
| SectionSetting.StartAddEditsOnlyPlaceholder | app/src/main/java/com/baek/diract/presentation/home/video/section/SectionSettingViewModel.kt:91-96 | after starting an add exactly one row, the placeholder, is being edited |
| SectionSetting.EditingItemSkipsClean | app/src/main/java/com/baek/diract/presentation/home/video/section/SectionSettingViewModel.kt:44-51 | rows not being edited in front do not change which row is found |
| SectionSetting.StartEditEditsOneRow | app/src/main/java/com/baek/diract/presentation/home/video/section/SectionSettingViewModel.kt:98-108 | with unique ids, starting an edit makes exactly one row editing when the id is listed, none otherwise |
| SectionSetting.CancelWithoutEditing | app/src/main/java/com/baek/diract/presentation/home/video/section/SectionSettingViewModel.kt:136-146 | cancelling when nothing is edited changes nothing |
| SectionSetting.CancelledAppend | app/src/main/java/com/baek/diract/presentation/home/video/section/SectionSettingViewModel.kt:136-146 | cancelling works row by row |
| SectionSetting.CancelRestores | app/src/main/java/com/baek/diract/presentation/home/video/section/SectionSettingViewModel.kt:91-146 | cancelling right after starting an add or an edit gives back the rows from before |
| SectionSetting.CancelEditedRows | app/src/main/java/com/baek/diract/presentation/home/video/section/SectionSettingViewModel.kt:98-146 | cancelling right after starting an edit gives back the rows from before |
| SectionItemAdapter.ChangePayload | app/src/main/java/com/baek/diract/presentation/home/video/section/SectionItemAdapter.kt:179-185 | the editing payload exactly when the name is unchanged and the editing flag changed |
| SectionItemAdapter.AreItemsTheSame | app/src/main/java/com/baek/diract/presentation/home/video/section/SectionItemAdapter.kt:171-173 | two rows are the same item exactly when their ids are equal |
| SectionItemAdapter.AreContentsTheSame | app/src/main/java/com/baek/diract/presentation/home/video/section/SectionItemAdapter.kt:175-177 | two rows have the same contents exactly when the records are equal |
| SectionItemAdapter.DiffCallbacksAgree | app/src/main/java/com/baek/diract/presentation/home/video/section/SectionItemAdapter.kt:170-186 | rows with equal contents are the same item and get no payload, and being the same item is symmetric |
| SectionItemAdapter.PayloadOnlyForEditToggle | app/src/main/java/com/baek/diract/presentation/home/video/section/SectionItemAdapter.kt:170-186 | a payload is only ever given for a change of contents of the same item |
| SectionItemAdapter.EditToggleUsesPayload | app/src/main/java/com/baek/diract/presentation/home/video/section/SectionItemAdapter.kt:179-185 | toggling editing gives the payload, an unchanged item none |
| SectionItemAdapter.CounterColor | app/src/main/java/com/baek/diract/presentation/home/video/section/SectionItemAdapter.kt:154-158 | red at 10 characters or more, assistive for none, secondary otherwise |
| SectionItemAdapter.CounterText | app/src/main/java/com/baek/diract/presentation/home/video/section/SectionItemAdapter.kt:153 | the decimal length followed by "/10" |
| SectionItemAdapter.SectionViewHolder.constructor | app/src/main/java/com/baek/diract/presentation/home/video/section/SectionItemAdapter.kt:54-60 | an empty counter and no reported lengths |
| SectionItemAdapter.SectionViewHolder.UpdateCharCount | app/src/main/java/com/baek/diract/presentation/home/video/section/SectionItemAdapter.kt:152-167 | the counter text and colour follow the length, the underline takes the counter colour, and the length is reported |
| SectionItemAdapter.SectionViewHolder.AfterTextChanged | app/src/main/java/com/baek/diract/presentation/home/video/section/SectionItemAdapter.kt:129-132 | the counter is updated with the text's length, a null text counting as empty |
| MoveVideo.MovePlan | app/src/main/java/com/baek/diract/presentation/home/video/move_video/MoveVideoViewModel.kt:89-116 | no move exactly when the original section is selected; otherwise a move of the track, within the view model's `tracksId`, from the original to the selected section |
| MoveVideo.MoveVideoViewModel.constructor | app/src/main/java/com/baek/diract/presentation/home/video/move_video/MoveVideoViewModel.kt:23-56 | the `tracksId`, `trackId` and original section are stored, the original section is selected, and nothing is moved, loaded or requested |
| MoveVideo.MoveVideoViewModel.LoadSections | app/src/main/java/com/baek/diract/presentation/home/video/move_video/MoveVideoViewModel.kt:64-83 | on success the sections are stored; on error they are kept and the message shown |
| MoveVideo.MoveVideoViewModel.SelectSection | app/src/main/java/com/baek/diract/presentation/home/video/move_video/MoveVideoViewModel.kt:85-87 | the picked section becomes selected, and the video counts as moved exactly when it differs from the original |
| MoveVideo.MoveVideoViewModel.MoveVideo | app/src/main/java/com/baek/diract/presentation/home/video/move_video/MoveVideoViewModel.kt:89-116 | with the original section selected nothing happens; otherwise one move request, then a success toast and the target id, or the error and a failure toast |
| UploadVideo.Favorites | app/src/main/java/com/baek/diract/presentation/home/video/upload/UploadVideoViewModel.kt:41-51 | only favourite videos, never more than the gallery holds |
| UploadVideo.ToUiItem | app/src/main/java/com/baek/diract/presentation/home/video/upload/UploadVideoViewModel.kt:50 | a gallery video as a list row, selected as the caller decides; UploadVideo.FilteredVideos states that it is selected exactly when it is the selected video |
| UploadVideo.FavoritesMembers | app/src/main/java/com/baek/diract/presentation/home/video/upload/UploadVideoViewModel.kt:41-51 | a video is in the favourite filter exactly when it is in the gallery and marked favourite |
| UploadVideo.FilteredVideos | app/src/main/java/com/baek/diract/presentation/home/video/upload/UploadVideoViewModel.kt:41-51 | all videos or exactly the favourites, in order, each marked selected exactly when it is the selected video |
| UploadVideo.FavoritesKeepOrder | app/src/main/java/com/baek/diract/presentation/home/video/upload/UploadVideoViewModel.kt:41-51 | the favourite filter keeps the gallery order |
| UploadVideo.AtMostOneSelected | app/src/main/java/com/baek/diract/presentation/home/video/upload/UploadVideoViewModel.kt:41-51 | with distinct ids at most one shown video is marked selected |
| UploadVideo.FavoritesDistinct | app/src/main/java/com/baek/diract/presentation/home/video/upload/UploadVideoViewModel.kt:41-51 | the favourite filter keeps ids distinct |
| UploadVideo.UploadVideoViewModel.constructor | app/src/main/java/com/baek/diract/presentation/home/video/upload/UploadVideoViewModel.kt:21-37 | nothing loaded, filter ALL, nothing selected |
| UploadVideo.UploadVideoViewModel.LoadGalleryVideos | app/src/main/java/com/baek/diract/presentation/home/video/upload/UploadVideoViewModel.kt:55-72 | on success the videos are stored; on error they are kept and the message shown |
| UploadVideo.UploadVideoViewModel.SetFilter | app/src/main/java/com/baek/diract/presentation/home/video/upload/UploadVideoViewModel.kt:75-77 | the filter is set and nothing else changes |
| UploadVideo.UploadVideoViewModel.SelectVideo | app/src/main/java/com/baek/diract/presentation/home/video/upload/UploadVideoViewModel.kt:80-82 | the video becomes selected and nothing else changes |
| UploadVideo.UploadVideoViewModel.CanUpload | app/src/main/java/com/baek/diract/presentation/home/video/upload/UploadVideoViewModel.kt:85-87 | true exactly when a video is selected and the title is present and not blank |
| TeamMembers.Without | app/src/main/java/com/baek/diract/presentation/home/TeamMemberAdapter.kt:55 | exactly the other elements remain, still without duplicates |
| TeamMembers.Toggled | app/src/main/java/com/baek/diract/presentation/home/TeamMemberAdapter.kt:55 | the member is in the result exactly when it was not before; the others are unchanged; no duplicates appear |
| TeamMembers.ToggleTwice | app/src/main/java/com/baek/diract/presentation/home/TeamMemberAdapter.kt:53-58 | toggling twice gives back the same set, and the same order when the member was not selected |
| TeamMembers.WithoutLast | app/src/main/java/com/baek/diract/presentation/home/TeamMemberAdapter.kt:55 | removing the member just added gives back the previous order |
| TeamMembers.TapTarget | app/src/main/java/com/baek/diract/presentation/home/TeamMemberAdapter.kt:98-115 | a tap toggles exactly in kick mode on a non-leader's row, and then that member's id |
| TeamMembers.TeamMemberAdapter.constructor | app/src/main/java/com/baek/diract/presentation/home/TeamMemberAdapter.kt:21-32 | no items, no kick mode, nothing selected, not the leader, no events |
| TeamMembers.TeamMemberAdapter.SetLeaderUser | app/src/main/java/com/baek/diract/presentation/home/TeamMemberAdapter.kt:33-36 | the flag is set and nothing else changes |
| TeamMembers.TeamMemberAdapter.SubmitList | app/src/main/java/com/baek/diract/presentation/home/TeamMemberAdapter.kt:38-42 | the items become exactly the given list and nothing else changes |
| TeamMembers.TeamMemberAdapter.SetKickMode | app/src/main/java/com/baek/diract/presentation/home/TeamMemberAdapter.kt:44-49 | the mode is set, leaving kick mode clears the selection, and the selection is reported |
| TeamMembers.TeamMemberAdapter.GetSelectedIds | app/src/main/java/com/baek/diract/presentation/home/TeamMemberAdapter.kt:51 | exactly the selected ids |
| TeamMembers.TeamMemberAdapter.ToggleSelection | app/src/main/java/com/baek/diract/presentation/home/TeamMemberAdapter.kt:53-58 | outside kick mode nothing changes; in it the member is toggled and the new selection reported |
| TeamMembers.TeamMemberAdapter.TapRow | app/src/main/java/com/baek/diract/presentation/home/TeamMemberAdapter.kt:84-133 | a tap on a leader's row or outside kick mode changes nothing; otherwise it toggles that member and publishes the new selection once |
| TeamspaceRepository.FirstIndex | app/src/main/java/com/baek/diract/data/repository/TeamspaceRepositoryImpl.kt:40 | the position of the first occurrence |
| TeamspaceRepository.Distinct | app/src/main/java/com/baek/diract/data/repository/TeamspaceRepositoryImpl.kt:40 | the same elements, each once, no longer than the input |
| TeamspaceRepository.DistinctKeepsFirstOccurrenceOrder | app/src/main/java/com/baek/diract/data/repository/TeamspaceRepositoryImpl.kt:40 | the elements come in the order of their first occurrences |
| TeamspaceRepository.FirstIndexOfPrefix | app/src/main/java/com/baek/diract/data/repository/TeamspaceRepositoryImpl.kt:40 | appending does not move the first occurrence of an element already present |
| TeamspaceRepository.AssociateBy | app/src/main/java/com/baek/diract/data/repository/TeamspaceRepositoryImpl.kt:43 | every user id is a key, and each key maps to a user record with that id |
| TeamspaceRepository.AssociateByLastWins | app/src/main/java/com/baek/diract/data/repository/TeamspaceRepositoryImpl.kt:43 | the last record with an id is the one kept |
| TeamspaceRepository.Join | app/src/main/java/com/baek/diract/data/repository/TeamspaceRepositoryImpl.kt:45-48 | at most one summary per member, each with the name and e-mail of its user record; none dropped exactly when every member has a record |
| TeamspaceRepository.JoinAppend | app/src/main/java/com/baek/diract/data/repository/TeamspaceRepositoryImpl.kt:45-48 | the join works member by member, keeping order |
| TeamspaceRepository.JoinOne | app/src/main/java/com/baek/diract/data/mapper/MemberMapper.kt:7-12 | one member becomes its summary from its user record, or nothing without one |
| TeamspaceRepository.ToMemberSummary | app/src/main/java/com/baek/diract/data/mapper/MemberMapper.kt:7-12 | a summary with the member's user id and join time and the user's name and e-mail; TeamspaceRepository.GetMembersPairsUsers states that every summary carries the name and e-mail of the user with its id |
| TeamspaceRepository.GetMembers | app/src/main/java/com/baek/diract/data/repository/TeamspaceRepositoryImpl.kt:37-52 | the members call failing gives its error; otherwise an error exactly when the users call for the distinct member ids fails, else the join of the members with the users |
| TeamspaceRepository.RequestedIds | app/src/main/java/com/baek/diract/data/repository/TeamspaceRepositoryImpl.kt:39-41 | getUsers is asked for every member's id, each exactly once, and no other |
| TeamspaceRepository.GetMembersPairsUsers | app/src/main/java/com/baek/diract/data/repository/TeamspaceRepositoryImpl.kt:43-48 | every summary carries the name and e-mail of a user with its id; a member is dropped only when no user record has its id |
| TeamspaceRepository.GetTeamspace | app/src/main/java/com/baek/diract/data/repository/TeamspaceRepositoryImpl.kt:16-23 | success exactly when the call returns, with the converted record; otherwise the exception's message |
| TeamspaceRepository.UnitCall | app/src/main/java/com/baek/diract/data/repository/TeamspaceRepositoryImpl.kt:25-65 | success exactly when the call returns; otherwise the exception's message |
| Options.Plain | app/src/main/java/com/baek/diract/presentation/common/option/OptionItem.kt:13-18 | an entry with the given id and title in the default label_strong colour |
| Options.EditName | app/src/main/java/com/baek/diract/presentation/common/option/OptionItem.kt:29-32 | the edit-name entry, with its own id in label_strong (Options.PresetIdsShared, Options.PresetColours) |
| Options.MovePart | app/src/main/java/com/baek/diract/presentation/common/option/OptionItem.kt:35-38 | the move entry, with its own id in label_strong (Options.PresetIdsShared, Options.PresetColours) |
| Options.Delete | app/src/main/java/com/baek/diract/presentation/common/option/OptionItem.kt:41-45 | the delete entry, with the id `delete` in red (Options.PresetIdsShared, Options.PresetColours) |
| Options.ReportAsWritten | app/src/main/java/com/baek/diract/presentation/common/option/OptionItem.kt:48-52 | the report entry as written: red, but carrying the delete id, so Options.ReportAsWrittenRunsDelete shows that picking it deletes |
| Options.EditFeedbackAsWritten | app/src/main/java/com/baek/diract/presentation/common/option/OptionItem.kt:55-58 | the edit-feedback entry as written: label_strong with the delete id, so Options.ReportAsWrittenRunsDelete shows it is indistinguishable from delete by id |
| Options.Report | app/src/main/java/com/baek/diract/presentation/common/option/OptionItem.kt:48-52 | the report entry with the report id declared for it, in red; Options.ReportRunsReport shows it reaches the report branch |
| Options.EditFeedback | app/src/main/java/com/baek/diract/presentation/common/option/OptionItem.kt:55-58 | the edit-feedback entry with the id declared for it, in label_strong; Options.CorrectedPresetIdsDistinct shows every corrected entry has an id of its own |
| Options.RenameTeamspace | app/src/main/java/com/baek/diract/presentation/common/option/OptionItem.kt:62-65 | the rename-teamspace entry, with its own id in label_strong (Options.PresetIdsShared, Options.PresetColours) |
| Options.KickMember | app/src/main/java/com/baek/diract/presentation/common/option/OptionItem.kt:68-72 | the kick-member entry, with its own id in red (Options.PresetIdsShared, Options.PresetColours) |
| Options.PresetIdsShared | app/src/main/java/com/baek/diract/presentation/common/option/OptionItem.kt:21-72 | as written, delete, report and edit feedback share the id `delete`; every other pair of presets has two different ids |
| Options.CorrectedPresetIdsDistinct | app/src/main/java/com/baek/diract/presentation/common/option/OptionItem.kt:21-27 | with the ids the constants were declared for, every preset entry has an id of its own |
| Options.PresetColours | app/src/main/java/com/baek/diract/presentation/common/option/OptionItem.kt:17-72 | delete, report and kick are red, every other preset keeps label_strong, whichever ids they carry |
| Options.HandleVideoOption | app/src/main/java/com/baek/diract/presentation/home/video/VideoListFragment.kt:290-311 | each id leads to its own action; unknown ids are ignored |
| Options.ReportAsWrittenRunsDelete | app/src/main/java/com/baek/diract/presentation/common/option/OptionItem.kt:48-58 | as written, the report entry carries the delete id, so picking it deletes, and the feedback entry is indistinguishable from delete |
| Options.ReportRunsReport | app/src/main/java/com/baek/diract/presentation/common/option/OptionItem.kt:21-58 | with the ids the constants were declared for, report reaches the report branch and no entry is mistaken for another |
| OptionPopups.CoerceIn | app/src/main/java/com/baek/diract/presentation/common/option/OptionPopup.kt:96-97 | no value exactly for an empty range; otherwise the value clamped into the range |
| OptionPopups.PopupX | app/src/main/java/com/baek/diract/presentation/common/option/OptionPopup.kt:96-97 | no position exactly when the popup plus both margins is wider than the screen; otherwise the popup lies 16 px inside both edges, right-aligned with the anchor when that fits |
| OptionPopups.PopupY | app/src/main/java/com/baek/diract/presentation/common/option/OptionPopup.kt:100-110 | below the anchor with an 8 px gap when it fits, staying on screen; otherwise ending 8 px above it |
| OptionPopups.PopupClearsAnchor | app/src/main/java/com/baek/diract/presentation/common/option/OptionPopup.kt:100-110 | the popup never overlaps the anchor, and placed above it may start off screen |
| OptionPopups.OptionPopup.constructor | app/src/main/java/com/baek/diract/presentation/common/option/OptionPopup.kt:40-45 | the entries and the listener, no window, nothing delivered |
| OptionPopups.OptionPopup.Show | app/src/main/java/com/baek/diract/presentation/common/option/OptionPopup.kt:52-113 | shown at the computed position exactly when the horizontal range is not empty; a window already shown is left on screen unreferenced |
| OptionPopups.OptionPopup.Dismiss | app/src/main/java/com/baek/diract/presentation/common/option/OptionPopup.kt:116-119 | the window is closed and dropped |
| OptionPopups.OptionPopup.SelectOption | app/src/main/java/com/baek/diract/presentation/common/option/OptionPopup.kt:58-61 | the listener, if any, receives the picked entry, then the popup is dismissed |
| OptionPopups.Builder.constructor | app/src/main/java/com/baek/diract/presentation/common/option/OptionPopup.kt:125-128 | no entries, no listener |
| OptionPopups.Builder.AddOption | app/src/main/java/com/baek/diract/presentation/common/option/OptionPopup.kt:130-133 | the entry goes last |
| OptionPopups.Builder.AddOptions | app/src/main/java/com/baek/diract/presentation/common/option/OptionPopup.kt:136-139 | the entries go last, in the order given |
| OptionPopups.Builder.SetOnOptionSelectedListener | app/src/main/java/com/baek/diract/presentation/common/option/OptionPopup.kt:142-145 | the listener is set, the entries kept |
| OptionPopups.Builder.Build | app/src/main/java/com/baek/diract/presentation/common/option/OptionPopup.kt:148-154 | a new popup over the entries collected so far, not shown |
| OptionPopups.Builder.Show | app/src/main/java/com/baek/diract/presentation/common/option/OptionPopup.kt:157-161 | a new popup over the entries, shown exactly when the horizontal range is not empty |
| OptionPopups.BasicOptions | app/src/main/java/com/baek/diract/presentation/common/option/OptionPopup.kt:171-176 | edit name then delete, with the listener set |
| OptionPopups.VideoOptions | app/src/main/java/com/baek/diract/presentation/common/option/OptionPopup.kt:179-185 | edit name, move part, delete, with the listener set |
| OptionPopups.ReportOptions | app/src/main/java/com/baek/diract/presentation/common/option/OptionPopup.kt:187-191 | the as-written report entry (id `delete`) only, with the listener set |
| OptionPopups.FeedbackOptions | app/src/main/java/com/baek/diract/presentation/common/option/OptionPopup.kt:193-198 | the as-written edit feedback then report entries (both id `delete`), with the listener set |
| OptionPopups.CorrectedReportOptions | app/src/main/java/com/baek/diract/presentation/common/option/OptionPopup.kt:187-191 | the report entry with id `report` only, with the listener set |
| OptionPopups.CorrectedFeedbackOptions | app/src/main/java/com/baek/diract/presentation/common/option/OptionPopup.kt:193-198 | edit feedback (id `edit_feedback`) then report (id `report`), with the listener set |
| OptionPopups.TeamspaceOptions | app/src/main/java/com/baek/diract/presentation/common/option/OptionPopup.kt:199-204 | rename teamspace then kick member, with the listener set |
| OptionPopups.VideoPresetsDispatch | app/src/main/java/com/baek/diract/presentation/home/video/VideoListFragment.kt:290-311 | as written, among the video and report presets exactly the delete and report entries reach the delete branch, and no preset reaches the report branch |
| OptionPopups.CorrectedVideoPresetsDispatch | app/src/main/java/com/baek/diract/presentation/home/video/VideoListFragment.kt:290-311 | with the corrected entries only the delete entry deletes, and report reports |

## Left out

- The view code itself is not modelled: inflating, visibility, colours drawn, `notifyItemChanged` beyond which rows are refreshed, Glide, toasts as UI. Only the values these are computed from are modelled.
- Coroutine and flow timing is not modelled: `viewModelScope.launch`, `stateIn(WhileSubscribed)`, shared-flow delivery and `delay`. Each launched body is one step, and derived flows are functions of the current state.
- `UiState.Success`'s timestamp payload is left out, because it comes from the clock. A success is `Loaded(())`, or `Loaded(id)` where the source passes an id.
- Firebase, the media compressor, MediaStore and the signed-in user are parameters, not code. Their result, error and progress reports are inputs to the operations that call them. In `VideoStore`, `AddVideo`, `MoveVideoSection`, `DeleteVideo` and `DeleteSection` take the Firestore call that throws, if any, and stop there.
- GetVideos: has no failure input. A Firestore read that throws makes the source's call throw without changing anything, which the model does not represent.
- `VideoStore` holds one track's documents. Firestore's document-id generation and `Timestamp.now()` are parameters of `addVideo`.
- The `toUiItem` mapper of gallery videos is not part of this model. `UploadVideo.ToUiItem` takes it to copy the video's fields and set the selection flag it is given.
- `VideoSummary`, `Section`, `SongListSummary`, `GalleryVideo`, `MembersDto`, `UsersDto` and the teamspace DTO are reduced to the fields the modelled code reads. Their declarations, and the `toSummaryDomain` mapper, are not part of this model.
- `GetTeamspace` takes `toSummaryDomain` as a total function. A mapper that throws would also give `Error`.
- `Formatter.Pad2`'s input is the already truncated `Int`. `Double.toInt()`, with its rounding toward zero and saturation at the `Int` bounds, is not modelled.
- Text lengths are counted in Unicode scalar values (Dafny's `|s|`), while Kotlin's `length` and `subSequence` count UTF-16 code units. For text with characters outside the Basic Multilingual Plane (emoji, for instance) each of the following members counts fewer characters than the source, and none can represent a cut that splits a surrogate pair. Each is listed below.
- MaxLengthFilter.Filter: `keep`, `destLength` and the kept prefix are in code points, not UTF-16 units.
- LengthFilterWithToast: `keep` and the kept prefix are in code points, not UTF-16 units.
- ConfirmedText: the limit check on the trimmed text uses code points, not UTF-16 units.
- FilteredInitialText: the framework's `InputFilter.LengthFilter` counts UTF-16 units and backs off a cut inside a surrogate pair; the model cuts at `maxLength` code points.
- UpdateButtonState: the enable check compares code points with the limit, not UTF-16 units.
- UpdateCounter: its `length` argument comes from callers that count code points, so the counter and the error threshold are in code points, not UTF-16 units.
- AfterTextChanged: `InputDialogFragment.AfterTextChanged` and `SectionViewHolder.AfterTextChanged` pass the length in code points, where the source passes `text.length` and `s?.length`, in UTF-16 units.
- GetItemOffsets: `GridSpacingItemDecoration` and `VideoCardItemDecoration` require `spanCount != 0`; the source would throw `ArithmeticException` on a zero span count, which the model does not represent. Every caller passes 2 or 4.
- 32-bit `Int` and 64-bit `Long` overflow are not modelled. Integers are unbounded in every decoration, in the progress formulas (`bytesTransferred * 90` is a `Long`) and in the popup placement.
- `VideoProgress`, `ThumbnailProgress` and `ReportedProgress` require `totalByteCount > 0`. Storage reports a total before any progress event, and a zero total would divide by zero in the source too.
- `SortByCreatedAt` is an insertion sort on `created_at`, with missing times first. Its result is proved sorted and a permutation. That it keeps equal timestamps in their original order, as Kotlin's stable `sortedBy` does, is not stated.
- DeleteVideo: the storage cleanup is one all-or-nothing flag. A failure partway through the listed files, which leaves some of them stored, is not modelled.
- `OptionPopup.hasListener` stands for the nullable `onOptionSelected` callback. The entries a callback receives are recorded in `delivered`.
- `OptionPopup.Show` ignores the popup's `focusable`/outside-touch dismissal, because it is a window-manager behaviour. The measured popup size and the anchor position are a `Geometry` parameter.
- The view-binding part of `TeamMemberAdapter.bind` and `SongListAdapter.VH.bind` is not modelled. Only the selection listener and the edit-row rule are.
- `TeamspaceSwitcherPopup`, the date mappers, DI modules and `HomeViewModel` stubs are outside the modelled core.

## Findings

| source | as written | input that shows it | evidently intended | confidence | as-written member | corrected member |
|---|---|---|---|---|---|---|
| app/src/main/java/com/baek/diract/presentation/common/option/OptionItem.kt:48-58 | `report()` and `editFeedback()` are built with `ID_DELETE`, and `VideoListFragment.handleVideoOption` branches on the id | choosing "report" from the options of another user's video runs the delete branch; the `ID_REPORT` branch is unreachable | `report()` carries `ID_REPORT` and `editFeedback()` carries `ID_EDIT_FEEDBACK`, the constants declared for them at lines 24-25 | high (not executed) | Options.ReportAsWrittenRunsDelete | Options.ReportRunsReport |
