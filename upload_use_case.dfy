/** `UploadVideoUseCase`: compress a picked video, then upload it, reporting every step to the
    caller as an `UploadState`; `uploadOnly` retries just the upload of an already compressed
    file. The compressor and the repository are oracles: what they report and how they end
    are parameters. */
module UploadUseCase {
  import opened Common

  type Uri = string

  datatype FailPhase = COMPRESSION | UPLOAD

  datatype UploadState =
    | Compressing(progress: int)
    | Uploading(progress: int)
    | Completed
    | Failed(phase: FailPhase, message: Option<string>,
             compressedUri: Option<Uri>, thumbnailUri: Option<Uri>, duration: Option<real>)

  /** What `VideoCompressor.compress` hands back. */
  datatype CompressionResult = CompressionResult(compressedUri: Uri, durationSeconds: real, thumbnailUri: Uri)

  /** A run of the compressor: the progress it reports, then its result or an exception. */
  datatype CompressionRun = CompressionRun(progress: seq<int>, outcome: Outcome<CompressionResult>)

  /** A run of the repository's `addVideo`: the progress it reports, then its result or an
      exception. */
  datatype AddVideoRun = AddVideoRun(progress: seq<int>, outcome: Outcome<DataResult<()>>)

  function CompressingStates(ps: seq<int>): (r: seq<UploadState>)
    ensures |r| == |ps| && forall i :: 0 <= i < |ps| ==> r[i] == Compressing(ps[i])
  {
    seq(|ps|, i requires 0 <= i < |ps| => Compressing(ps[i]))
  }

  function UploadingStates(ps: seq<int>): (r: seq<UploadState>)
    ensures |r| == |ps| && forall i :: 0 <= i < |ps| ==> r[i] == Uploading(ps[i])
  {
    seq(|ps|, i requires 0 <= i < |ps| => Uploading(ps[i]))
  }

  /** The upload step shared by `invoke` and `uploadOnly`: `Uploading(0)`, the repository's
      progress, then the terminal state. `failed` and `caught` build the state that a
      returned error and an exception turn into, from the message. */
  function UploadTrace(a: AddVideoRun, failed: Option<string> -> UploadState, caught: Option<string> -> UploadState): seq<UploadState> {
    [Uploading(0)] + UploadingStates(a.progress) +
    match a.outcome
    case Returned(Success(_)) => [Completed]
    case Returned(Error(m)) => [failed(m)]
    case Threw(m) => [caught(m)]
  }

  function UploadResult(a: AddVideoRun): DataResult<()> {
    match a.outcome
    case Returned(r) => r
    case Threw(m) => Error(m)
  }

  /** The states `invoke` emits, in order. */
  function InvokeTrace(c: CompressionRun, a: AddVideoRun): seq<UploadState> {
    [Compressing(0)] + CompressingStates(c.progress) +
    match c.outcome
    case Threw(m) => [Failed(COMPRESSION, m, None, None, None)]
    case Returned(cr) =>
      UploadTrace(a, m => Failed(UPLOAD, m, Some(cr.compressedUri), Some(cr.thumbnailUri), Some(cr.durationSeconds)),
                  m => Failed(COMPRESSION, m, None, None, None))
  }

  /** What `invoke` returns. */
  function InvokeResult(c: CompressionRun, a: AddVideoRun): DataResult<()> {
    match c.outcome
    case Threw(m) => Error(m)
    case Returned(_) => UploadResult(a)
  }

  /** The states `uploadOnly` emits, in order. */
  function UploadOnlyTrace(compressedUri: Uri, thumbnailUri: Uri, duration: real, a: AddVideoRun): seq<UploadState> {
    var failed := m => Failed(UPLOAD, m, Some(compressedUri), Some(thumbnailUri), Some(duration));
    UploadTrace(a, failed, failed)
  }

  /** `invoke`: the states are appended to `emitted` in the order `onStateChanged` sees them. */
  method Invoke(compression: CompressionRun, addVideo: AddVideoRun) returns (result: DataResult<()>, emitted: seq<UploadState>)
    ensures emitted == InvokeTrace(compression, addVideo)
    ensures result == InvokeResult(compression, addVideo)
  {
    emitted := [Compressing(0)];
    for i := 0 to |compression.progress|
      invariant emitted == [Compressing(0)] + CompressingStates(compression.progress[..i])
    {
      assert compression.progress[..i + 1] == compression.progress[..i] + [compression.progress[i]];
      emitted := emitted + [Compressing(compression.progress[i])];
    }
    assert compression.progress[..|compression.progress|] == compression.progress;
    if compression.outcome.Threw? {
      emitted := emitted + [Failed(COMPRESSION, compression.outcome.message, None, None, None)];
      return Error(compression.outcome.message), emitted;
    }
    var cr := compression.outcome.value;
    var uploading := RunUpload(addVideo);
    emitted := emitted + uploading;
    match addVideo.outcome {
      case Returned(Success(u)) =>
        emitted := emitted + [Completed];
        assert u == ();
        result := Success(());
      case Returned(Error(m)) =>
        emitted := emitted + [Failed(UPLOAD, m, Some(cr.compressedUri), Some(cr.thumbnailUri), Some(cr.durationSeconds))];
        result := Error(m);
      case Threw(m) =>
        emitted := emitted + [Failed(COMPRESSION, m, None, None, None)];
        result := Error(m);
    }
  }

  /** `uploadOnly`. */
  method UploadOnly(compressedUri: Uri, thumbnailUri: Uri, duration: real, addVideo: AddVideoRun)
    returns (result: DataResult<()>, emitted: seq<UploadState>)
    ensures emitted == UploadOnlyTrace(compressedUri, thumbnailUri, duration, addVideo)
    ensures result == UploadResult(addVideo)
  {
    emitted := RunUpload(addVideo);
    match addVideo.outcome {
      case Returned(Success(u)) =>
        emitted := emitted + [Completed];
        assert u == ();
        result := Success(());
      case Returned(Error(m)) =>
        emitted := emitted + [Failed(UPLOAD, m, Some(compressedUri), Some(thumbnailUri), Some(duration))];
        result := Error(m);
      case Threw(m) =>
        emitted := emitted + [Failed(UPLOAD, m, Some(compressedUri), Some(thumbnailUri), Some(duration))];
        result := Error(m);
    }
  }

  /** `Uploading(0)` and then one `Uploading` per progress report of the repository. */
  method RunUpload(addVideo: AddVideoRun) returns (emitted: seq<UploadState>)
    ensures emitted == [Uploading(0)] + UploadingStates(addVideo.progress)
  {
    emitted := [Uploading(0)];
    for i := 0 to |addVideo.progress|
      invariant emitted == [Uploading(0)] + UploadingStates(addVideo.progress[..i])
    {
      assert addVideo.progress[..i + 1] == addVideo.progress[..i] + [addVideo.progress[i]];
      emitted := emitted + [Uploading(addVideo.progress[i])];
    }
    assert addVideo.progress[..|addVideo.progress|] == addVideo.progress;
  }

  // ---------------------------------------------------------------------------------------
  // Properties of the emitted sequences.

  predicate Terminal(s: UploadState) {
    s.Completed? || s.Failed?
  }

  /** 0 while compressing, 1 while uploading, 2 once finished. */
  function Stage(s: UploadState): nat {
    match s
    case Compressing(_) => 0
    case Uploading(_) => 1
    case _ => 2
  }

  /** A well-formed report: stages never go back, and exactly the last state is terminal. */
  predicate WellFormed(t: seq<UploadState>) {
    && |t| >= 1
    && Terminal(t[|t| - 1])
    && (forall k :: 0 <= k < |t| - 1 ==> !Terminal(t[k]))
    && (forall i, j :: 0 <= i <= j < |t| ==> Stage(t[i]) <= Stage(t[j]))
  }

  /** `invoke` starts with `Compressing(0)`, never goes back a stage and ends with exactly
      one terminal state; `Completed` ends it exactly when it returns Success, and a failure
      returns the message it reported. */
  lemma InvokeTraceShape(c: CompressionRun, a: AddVideoRun)
    ensures var t := InvokeTrace(c, a);
      && WellFormed(t)
      && t[0] == Compressing(0)
      && (InvokeResult(c, a).Success? <==> t[|t| - 1] == Completed)
      && (InvokeResult(c, a).Error? ==> t[|t| - 1].Failed? && t[|t| - 1].message == InvokeResult(c, a).message)
  {
    var t := InvokeTrace(c, a);
    var pre := [Compressing(0)] + CompressingStates(c.progress);
    assert forall k :: 0 <= k < |pre| ==> t[k] == pre[k] && Stage(pre[k]) == 0;
    if c.outcome.Returned? {
      var up := [Uploading(0)] + UploadingStates(a.progress);
      assert forall k :: 0 <= k < |up| ==> t[|pre| + k] == up[k] && Stage(up[k]) == 1;
      assert |t| == |pre| + |up| + 1;
    }
  }

  /** `Uploading(0)` is emitted exactly when the compressor returned, and then right after
      its last progress report. */
  lemma UploadingStartsAfterCompression(c: CompressionRun, a: AddVideoRun)
    ensures var t := InvokeTrace(c, a);
      (Uploading(0) in t <==> c.outcome.Returned?)
      && (c.outcome.Returned? ==> t[1 + |c.progress|] == Uploading(0))
  {
    var t := InvokeTrace(c, a);
    if c.outcome.Threw? {
      assert forall k :: 0 <= k < |t| ==> !t[k].Uploading?;
    }
  }

  /** A failed upload after a successful compression reports the compressed file, its
      thumbnail and duration so that the upload can be retried; every other failure of
      `invoke` is reported as a compression failure carrying nothing. */
  lemma InvokeFailureCarriesCompressedFile(c: CompressionRun, a: AddVideoRun)
    ensures var t := InvokeTrace(c, a); var last := t[|t| - 1];
      && (last.Failed? && last.phase == UPLOAD ==>
            c.outcome.Returned?
            && last.compressedUri == Some(c.outcome.value.compressedUri)
            && last.thumbnailUri == Some(c.outcome.value.thumbnailUri)
            && last.duration == Some(c.outcome.value.durationSeconds))
      && (last.Failed? && last.phase == COMPRESSION ==>
            last.compressedUri == None && last.thumbnailUri == None && last.duration == None)
  {
  }

  /** `uploadOnly` never reports compression; it ends like `invoke`'s upload step, and every
      failure it reports is an upload failure carrying the caller's file, thumbnail and
      duration. */
  lemma UploadOnlyTraceShape(compressedUri: Uri, thumbnailUri: Uri, duration: real, a: AddVideoRun)
    ensures var t := UploadOnlyTrace(compressedUri, thumbnailUri, duration, a);
      && WellFormed(t)
      && t[0] == Uploading(0)
      && (forall k :: 0 <= k < |t| ==> !t[k].Compressing?)
      && (forall k :: 0 <= k < |t| ==> t[k].Failed? ==>
            t[k].phase == UPLOAD && t[k].compressedUri == Some(compressedUri)
            && t[k].thumbnailUri == Some(thumbnailUri) && t[k].duration == Some(duration))
      && (UploadResult(a).Success? <==> t[|t| - 1] == Completed)
  {
    var t := UploadOnlyTrace(compressedUri, thumbnailUri, duration, a);
    var up := [Uploading(0)] + UploadingStates(a.progress);
    assert forall k :: 0 <= k < |up| ==> t[k] == up[k] && Stage(up[k]) == 1;
  }

  /** After a successful compression, `invoke` and `uploadOnly` with the compressed file
      report the same upload and return the same result, except that `invoke` files an
      exception from the upload step under COMPRESSION. */
  lemma RetryRepeatsUploadStep(cr: CompressionResult, progress: seq<int>, a: AddVideoRun)
    requires a.outcome.Returned?
    ensures var c := CompressionRun(progress, Returned(cr));
      && InvokeTrace(c, a) == [Compressing(0)] + CompressingStates(progress)
                             + UploadOnlyTrace(cr.compressedUri, cr.thumbnailUri, cr.durationSeconds, a)
      && InvokeResult(c, a) == UploadResult(a)
  {
  }
}
