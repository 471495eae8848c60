/** `InputDialogFragment`: a bottom-sheet text prompt with a character limit. The confirm
    button, the clear button, the counter line and the field's background all follow the
    current text; confirming hands the trimmed text to the caller. */
module InputDialog {
  import opened Common
  import opened Res
  import MaxLengthFilter

  const DEFAULT_MAX_LENGTH: int := 20

  /** The dialog's arguments bundle, as far as the limit is concerned. */
  datatype Arguments = Arguments(maxLength: Option<int>)

  /** `arguments?.getInt(ARG_MAX_LENGTH, DEFAULT_MAX_LENGTH) ?: DEFAULT_MAX_LENGTH`. */
  function MaxLength(arguments: Option<Arguments>): (m: int)
    ensures arguments.None? || arguments.value.maxLength.None? ==> m == DEFAULT_MAX_LENGTH
    ensures arguments.Some? && arguments.value.maxLength.Some? ==> m == arguments.value.maxLength.value
  {
    match arguments
    case None => DEFAULT_MAX_LENGTH
    case Some(args) => if args.maxLength.Some? then args.maxLength.value else DEFAULT_MAX_LENGTH
  }

  /** `newInstance(…, maxLength = …)`: the bundle always carries the limit, 20 by default. */
  function NewInstanceArguments(maxLength: int := DEFAULT_MAX_LENGTH): (a: Arguments)
    ensures MaxLength(Some(a)) == maxLength
  {
    Arguments(Some(maxLength))
  }

  /** `updateButtonState`: confirm is enabled for a non-empty text within the limit. */
  predicate ConfirmEnabled(text: string, maxLength: int) {
    text != [] && |text| <= maxLength
  }

  /** `updateClearButtonVisibility`. */
  predicate ClearVisible(text: string) {
    text != []
  }

  /** What a confirm click hands to `onConfirm`: the trimmed text, if that is non-empty and
      within the limit. */
  function ConfirmedText(text: Option<string>, maxLength: int): (r: Option<string>)
    ensures r.Some? <==> var t := Trim(if text.Some? then text.value else ""); t != [] && |t| <= maxLength
    ensures r.Some? ==> text.Some? && r.value == Trim(text.value)
  {
    var inputText := if text.Some? then Trim(text.value) else "";
    if inputText != [] && |inputText| <= maxLength then Some(inputText) else None
  }

  /** The counter line's text: the limit-reached message or "length/max". */
  datatype CounterText = MaxLengthReached(maxLength: int) | Count(length: int, maxLength: int)

  /** `updateInputBackground`: error wins over focus, focus over the default. */
  function Background(isError: bool, hasFocus: bool): (d: DrawableRes)
    ensures d == BgInputError <==> isError
    ensures d == BgInputFocus <==> !isError && hasFocus
    ensures d == BgInputDefault <==> !isError && !hasFocus
  {
    if isError then BgInputError else if hasFocus then BgInputFocus else BgInputDefault
  }

  /** The error flag `updateCounter` leaves: set exactly when the text has reached the limit. */
  predicate ErrorFor(length: int, maxLength: int) {
    length > 0 && length >= maxLength
  }

  /** The field's `InputFilter.LengthFilter` applied to the initial text: its longest prefix
      within the limit. */
  function FilteredInitialText(initialText: string, maxLength: int): (t: string)
    ensures |t| <= |initialText| && t == initialText[..|t|]
    ensures |initialText| <= maxLength ==> t == initialText
    ensures |initialText| > maxLength ==> |t| == (if maxLength < 0 then 0 else maxLength)
  {
    var r := MaxLengthFilter.Filter(maxLength, Some(initialText), 0, |initialText|, Some(""), 0, 0);
    MaxLengthFilter.InsertedIsLongestFittingPrefix(maxLength, initialText, 0, |initialText|, Some(""), 0, 0);
    MaxLengthFilter.Inserted(initialText, 0, |initialText|, r.result)
  }

  class InputDialogFragment {
    const maxLength: int
    var text: string
    var hasFocus: bool
    var isError: bool
    var confirmEnabled: bool
    var clearVisible: bool
    var counterVisible: bool
    var counterText: Option<CounterText>
    var counterColor: Option<ColorRes>
    var background: DrawableRes
    /** Whether the caller has set the nullable `onConfirm` callback. */
    var hasConfirmListener: bool
    /** The texts handed to `onConfirm` so far. */
    var confirmed: seq<string>
    var loadingShown: bool

    /** `setupViews`: the field gets the initial text through its length filter and the focus,
        and the controls are set up from the initial argument as given. */
    constructor (arguments: Option<Arguments>, initialText: string)
      ensures maxLength == MaxLength(arguments)
      ensures text == FilteredInitialText(initialText, maxLength) && hasFocus
      ensures confirmEnabled == ConfirmEnabled(initialText, maxLength)
      ensures clearVisible == ClearVisible(initialText)
      ensures isError == ErrorFor(|initialText|, maxLength) && counterVisible == (|initialText| > 0)
      ensures background == Background(isError, true)
      ensures confirmed == [] && !loadingShown && !hasConfirmListener
    {
      maxLength := MaxLength(arguments);
      text := FilteredInitialText(initialText, MaxLength(arguments));
      hasFocus := true;
      isError := false;
      counterVisible := false;
      counterText := None;
      counterColor := None;
      background := BgInputDefault;
      confirmed := [];
      loadingShown := false;
      hasConfirmListener := false;
      new;
      UpdateButtonState(initialText);
      UpdateClearButtonVisibility(initialText);
      UpdateCounter(|initialText|);
    }

    method UpdateButtonState(t: string)
      modifies this
      ensures confirmEnabled == ConfirmEnabled(t, maxLength)
      ensures text == old(text) && hasFocus == old(hasFocus) && isError == old(isError)
      ensures clearVisible == old(clearVisible) && counterVisible == old(counterVisible)
      ensures counterText == old(counterText) && counterColor == old(counterColor)
      ensures background == old(background) && confirmed == old(confirmed) && loadingShown == old(loadingShown)
        && hasConfirmListener == old(hasConfirmListener)
    {
      confirmEnabled := t != [] && |t| <= maxLength;
    }

    method UpdateClearButtonVisibility(t: string)
      modifies this
      ensures clearVisible == ClearVisible(t)
      ensures text == old(text) && hasFocus == old(hasFocus) && isError == old(isError)
      ensures confirmEnabled == old(confirmEnabled) && counterVisible == old(counterVisible)
      ensures counterText == old(counterText) && counterColor == old(counterColor)
      ensures background == old(background) && confirmed == old(confirmed) && loadingShown == old(loadingShown)
        && hasConfirmListener == old(hasConfirmListener)
    {
      clearVisible := t != [];
    }

    method UpdateInputBackground(focus: bool)
      modifies this
      ensures background == Background(isError, focus)
      ensures text == old(text) && hasFocus == old(hasFocus) && isError == old(isError)
      ensures confirmEnabled == old(confirmEnabled) && clearVisible == old(clearVisible)
      ensures counterVisible == old(counterVisible)
      ensures counterText == old(counterText) && counterColor == old(counterColor)
      ensures confirmed == old(confirmed) && loadingShown == old(loadingShown)
        && hasConfirmListener == old(hasConfirmListener)
    {
      background := if isError then BgInputError else if focus then BgInputFocus else BgInputDefault;
    }

    /** `updateCounter`: an empty text hides the counter and clears the error; otherwise the
        counter shows either the limit message in red (limit reached, error) or the count in
        the secondary colour. The background follows the new error flag. */
    method UpdateCounter(length: int)
      modifies this
      ensures isError == ErrorFor(length, maxLength)
      ensures counterVisible == (length > 0)
      ensures length > 0 && length >= maxLength ==>
        counterText == Some(MaxLengthReached(maxLength)) && counterColor == Some(AccentRedNormal)
      ensures length > 0 && length < maxLength ==>
        counterText == Some(Count(length, maxLength)) && counterColor == Some(SecondaryNormal)
      ensures length <= 0 ==> counterText == old(counterText) && counterColor == old(counterColor)
      ensures background == Background(isError, hasFocus)
      ensures text == old(text) && hasFocus == old(hasFocus)
      ensures confirmEnabled == old(confirmEnabled) && clearVisible == old(clearVisible)
      ensures confirmed == old(confirmed) && loadingShown == old(loadingShown)
        && hasConfirmListener == old(hasConfirmListener)
    {
      if length > 0 {
        counterVisible := true;
        if length >= maxLength {
          isError := true;
          counterText := Some(MaxLengthReached(maxLength));
          counterColor := Some(AccentRedNormal);
        } else {
          isError := false;
          counterText := Some(Count(length, maxLength));
          counterColor := Some(SecondaryNormal);
        }
        UpdateInputBackground(hasFocus);
      } else {
        isError := false;
        counterVisible := false;
        UpdateInputBackground(hasFocus);
      }
    }

    /** The text watcher: every edit refreshes the three controls from the new text. */
    method AfterTextChanged(t: string)
      modifies this
      ensures text == t
      ensures confirmEnabled == ConfirmEnabled(t, maxLength) && clearVisible == ClearVisible(t)
      ensures isError == ErrorFor(|t|, maxLength) && counterVisible == (|t| > 0)
      ensures background == Background(isError, hasFocus)
      ensures |t| == 0 ==> counterText == old(counterText) && counterColor == old(counterColor)
      ensures hasFocus == old(hasFocus) && confirmed == old(confirmed) && loadingShown == old(loadingShown)
        && hasConfirmListener == old(hasConfirmListener)
    {
      text := t;
      UpdateButtonState(t);
      UpdateClearButtonVisibility(t);
      UpdateCounter(|t|);
    }

    method OnFocusChange(focus: bool)
      modifies this
      ensures hasFocus == focus && background == Background(isError, focus)
      ensures text == old(text) && isError == old(isError)
      ensures confirmEnabled == old(confirmEnabled) && clearVisible == old(clearVisible)
      ensures counterVisible == old(counterVisible)
      ensures counterText == old(counterText) && counterColor == old(counterColor)
      ensures confirmed == old(confirmed) && loadingShown == old(loadingShown)
        && hasConfirmListener == old(hasConfirmListener)
    {
      hasFocus := focus;
      UpdateInputBackground(focus);
    }

    /** The caller assigning `onConfirm`. */
    method SetOnConfirm()
      modifies this
      ensures hasConfirmListener
      ensures text == old(text) && hasFocus == old(hasFocus) && isError == old(isError)
      ensures confirmEnabled == old(confirmEnabled) && clearVisible == old(clearVisible)
      ensures counterVisible == old(counterVisible)
      ensures counterText == old(counterText) && counterColor == old(counterColor)
      ensures background == old(background) && confirmed == old(confirmed) && loadingShown == old(loadingShown)
    {
      hasConfirmListener := true;
    }

    /** The confirm click: a valid trimmed text goes to `onConfirm`, when one is set, and the
        loading overlay is shown; anything else changes nothing. */
    method OnConfirmClick()
      modifies this
      ensures ConfirmedText(Some(old(text)), maxLength).Some? ==>
        confirmed == old(confirmed) + (if hasConfirmListener then [Trim(old(text))] else []) && loadingShown
      ensures ConfirmedText(Some(old(text)), maxLength).None? ==>
        confirmed == old(confirmed) && loadingShown == old(loadingShown)
      ensures hasConfirmListener == old(hasConfirmListener)
      ensures text == old(text) && hasFocus == old(hasFocus) && isError == old(isError)
      ensures confirmEnabled == old(confirmEnabled) && clearVisible == old(clearVisible)
      ensures counterVisible == old(counterVisible)
      ensures counterText == old(counterText) && counterColor == old(counterColor)
      ensures background == old(background)
    {
      var inputText := Trim(text);
      if inputText != [] && |inputText| <= maxLength {
        if hasConfirmListener {
          confirmed := confirmed + [inputText];
        }
        loadingShown := true;
      }
    }
  }

  /** A text at exactly the limit can be confirmed, yet the counter already shows the limit
      message and the field the error background. */
  lemma AtLimitConfirmableButFlagged(text: string, maxLength: int)
    requires |text| == maxLength > 0
    ensures ConfirmEnabled(text, maxLength) && ErrorFor(|text|, maxLength)
  {
  }

  /** An enabled confirm button does not promise a confirmation: a blank text enables the
      button, but the click hands nothing on. A confirmed text is always within the limit. */
  lemma ConfirmNeedsMoreThanEnabled(text: string, maxLength: int)
    ensures ConfirmedText(Some(text), maxLength).Some? ==> |ConfirmedText(Some(text), maxLength).value| <= maxLength
    ensures text != [] && IsBlank(text) && |text| <= maxLength ==>
      ConfirmEnabled(text, maxLength) && ConfirmedText(Some(text), maxLength).None?
    ensures ConfirmEnabled(text, maxLength) && !IsBlank(text) ==> ConfirmedText(Some(text), maxLength).Some?
  {
    TrimEmptyIffBlank(text);
    TrimShape(text);
  }

  /** An initial text over the limit leaves the confirm button disabled and the counter in
      error, although the field itself only shows the first `maxLength` characters. */
  lemma OverlongInitialText(initialText: string, maxLength: int)
    requires 0 < maxLength < |initialText|
    ensures !ConfirmEnabled(initialText, maxLength) && ErrorFor(|initialText|, maxLength)
    ensures |FilteredInitialText(initialText, maxLength)| == maxLength
    ensures ConfirmEnabled(FilteredInitialText(initialText, maxLength), maxLength)
  {
  }
}
