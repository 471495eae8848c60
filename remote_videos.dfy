/** `VideoRemoteDataSourceImpl` over an in-memory copy of the documents of one track: the
    `video` collection, the `track` sub-collection of each section, the section documents
    themselves and the files in storage. */
module RemoteVideos {
  import opened Common

  /** A stored video document; `createdAt` is the Firestore timestamp as one ordered number. */
  datatype VideoDoc = VideoDoc(videoId: string, title: string, duration: real, videoUrl: string,
                               thumbnailUrl: string, uploaderId: string, createdAt: Option<int>)

  /** A document of a section's `track` sub-collection: its own id and its `video_id` field. */
  datatype TrackDoc = TrackDoc(trackId: string, videoId: Option<string>)

  datatype VideoWithTrack = VideoWithTrack(trackId: string, video: VideoDoc)

  /** One progress event of a storage upload. */
  datatype Snapshot = Snapshot(bytesTransferred: int, totalByteCount: int)

  // ---------------------------------------------------------------------------------------
  // Upload progress.

  /** The video file counts for 0..90 of the progress bar. */
  function VideoProgress(s: Snapshot): (p: int)
    requires s.totalByteCount > 0
    ensures 0 <= s.bytesTransferred <= s.totalByteCount ==> 0 <= p <= 90
  {
    var q := TDiv(s.bytesTransferred * 90, s.totalByteCount);
    if 0 <= s.bytesTransferred <= s.totalByteCount then
      MulMonotone(90, s.bytesTransferred, s.totalByteCount);
      DivModUnique(90 * s.totalByteCount, s.totalByteCount, 90, 0);
      DivMonotone(s.bytesTransferred * 90, 90 * s.totalByteCount, s.totalByteCount);
      q
    else q
  }

  /** The thumbnail counts for 90..100. */
  function ThumbnailProgress(s: Snapshot): (p: int)
    requires s.totalByteCount > 0
    ensures 0 <= s.bytesTransferred <= s.totalByteCount ==> 90 <= p <= 100
  {
    var q := TDiv(s.bytesTransferred * 10, s.totalByteCount);
    if 0 <= s.bytesTransferred <= s.totalByteCount then
      MulMonotone(10, s.bytesTransferred, s.totalByteCount);
      DivModUnique(10 * s.totalByteCount, s.totalByteCount, 10, 0);
      DivMonotone(s.bytesTransferred * 10, 10 * s.totalByteCount, s.totalByteCount);
      90 + q
    else 90 + q
  }

  /** A finished video upload reports 90, a thumbnail upload starts at 90 and finishes at 100. */
  lemma ProgressEnds(total: int)
    requires total > 0
    ensures VideoProgress(Snapshot(total, total)) == 90
    ensures ThumbnailProgress(Snapshot(0, total)) == 90
    ensures ThumbnailProgress(Snapshot(total, total)) == 100
  {
    DivModUnique(total * 90, total, 90, 0);
    DivModUnique(total * 10, total, 10, 0);
  }

  /** More bytes never mean less progress, in either phase. */
  lemma ProgressMonotone(b1: int, b2: int, total: int)
    requires 0 <= b1 <= b2 && total > 0
    ensures VideoProgress(Snapshot(b1, total)) <= VideoProgress(Snapshot(b2, total))
    ensures ThumbnailProgress(Snapshot(b1, total)) <= ThumbnailProgress(Snapshot(b2, total))
  {
    MulMonotone(90, b1, b2);
    DivMonotone(b1 * 90, b2 * 90, total);
    MulMonotone(10, b1, b2);
    DivMonotone(b1 * 10, b2 * 10, total);
  }

  predicate InRange(s: Snapshot) {
    s.totalByteCount > 0 && 0 <= s.bytesTransferred <= s.totalByteCount
  }

  /** The events of one upload: the same total and never fewer bytes than before. */
  predicate Steady(ss: seq<Snapshot>) {
    && (forall k :: 0 <= k < |ss| ==> InRange(ss[k]))
    && (forall i, j :: 0 <= i <= j < |ss| ==>
          ss[i].totalByteCount == ss[j].totalByteCount && ss[i].bytesTransferred <= ss[j].bytesTransferred)
  }

  function VideoProgresses(ss: seq<Snapshot>): (r: seq<int>)
    requires forall k :: 0 <= k < |ss| ==> ss[k].totalByteCount > 0
    ensures |r| == |ss| && forall k :: 0 <= k < |ss| ==> r[k] == VideoProgress(ss[k])
  {
    seq(|ss|, k requires 0 <= k < |ss| => VideoProgress(ss[k]))
  }

  function ThumbnailProgresses(ss: seq<Snapshot>): (r: seq<int>)
    requires forall k :: 0 <= k < |ss| ==> ss[k].totalByteCount > 0
    ensures |r| == |ss| && forall k :: 0 <= k < |ss| ==> r[k] == ThumbnailProgress(ss[k])
  {
    seq(|ss|, k requires 0 <= k < |ss| => ThumbnailProgress(ss[k]))
  }

  /** The step of `addVideo` that throws, if any. */
  datatype AddVideoStep = VideoFile | ThumbnailFile | VideoDocument | TrackDocument

  /** Everything `addVideo` hands to `onProgress`: the video events, the thumbnail events once
      the video file is stored, and 100 once both documents are written. */
  function ReportedProgress(videoEvents: seq<Snapshot>, thumbnailEvents: seq<Snapshot>, failure: Option<AddVideoStep>): seq<int>
    requires forall k :: 0 <= k < |videoEvents| ==> videoEvents[k].totalByteCount > 0
    requires forall k :: 0 <= k < |thumbnailEvents| ==> thumbnailEvents[k].totalByteCount > 0
  {
    VideoProgresses(videoEvents)
    + (if failure == Some(VideoFile) then [] else ThumbnailProgresses(thumbnailEvents))
    + (if failure.None? then [100] else [])
  }

  /** The progress bar stays within 0..100 and never goes back, and it reaches 100 as the
      last report exactly when the upload finished. */
  lemma ReportedProgressMonotone(videoEvents: seq<Snapshot>, thumbnailEvents: seq<Snapshot>, failure: Option<AddVideoStep>)
    requires Steady(videoEvents) && Steady(thumbnailEvents)
    ensures var r := ReportedProgress(videoEvents, thumbnailEvents, failure);
      && (forall k :: 0 <= k < |r| ==> 0 <= r[k] <= 100)
      && (forall i, j :: 0 <= i <= j < |r| ==> r[i] <= r[j])
      && (failure.None? <==> |r| == |videoEvents| + |thumbnailEvents| + 1)
      && (failure.None? ==> r[|r| - 1] == 100)
  {
    var v := VideoProgresses(videoEvents);
    var t := if failure == Some(VideoFile) then [] else ThumbnailProgresses(thumbnailEvents);
    var e := if failure.None? then [100] else [];
    var r := v + t + e;
    forall i, j | 0 <= i < j < |v| ensures v[i] <= v[j] {
      ProgressMonotone(videoEvents[i].bytesTransferred, videoEvents[j].bytesTransferred, videoEvents[i].totalByteCount);
    }
    forall i, j | 0 <= i < j < |t| ensures t[i] <= t[j] {
      ProgressMonotone(thumbnailEvents[i].bytesTransferred, thumbnailEvents[j].bytesTransferred, thumbnailEvents[i].totalByteCount);
    }
    assert forall k :: 0 <= k < |v| ==> 0 <= v[k] <= 90;
    assert forall k :: 0 <= k < |t| ==> 90 <= t[k] <= 100;
    forall i, j | 0 <= i <= j < |r| ensures r[i] <= r[j] {
      if j < |v| {
      } else if i < |v| {
        assert r[i] == v[i] && r[i] <= 90;
      } else if j < |v| + |t| {
        assert r[i] == t[i - |v|] && r[j] == t[j - |v|];
      }
    }
  }

  // ---------------------------------------------------------------------------------------
  // Listing the videos of a section.

  /** The `(track id, video id)` pairs `getVideos` collects: the track documents that have a
      `video_id`, in order. */
  function Referenced(docs: seq<TrackDoc>): (r: seq<(string, string)>)
    ensures |r| <= |docs|
    ensures forall p :: p in r <==> TrackDoc(p.0, Some(p.1)) in docs
  {
    if docs == [] then []
    else
      var last := docs[|docs| - 1];
      assert docs == docs[..|docs| - 1] + [last];
      Referenced(docs[..|docs| - 1]) + (if last.videoId.Some? then [(last.trackId, last.videoId.value)] else [])
  }

  /** The pairs whose video document exists, paired with that document, in order. */
  function Resolved(pairs: seq<(string, string)>, videos: map<string, VideoDoc>): (r: seq<VideoWithTrack>)
    ensures |r| <= |pairs|
    ensures forall x :: x in r <==> exists p :: p in pairs && p.1 in videos && x == VideoWithTrack(p.0, videos[p.1])
  {
    if pairs == [] then []
    else
      var last := pairs[|pairs| - 1];
      assert pairs == pairs[..|pairs| - 1] + [last];
      Resolved(pairs[..|pairs| - 1], videos) + (if last.1 in videos then [VideoWithTrack(last.0, videos[last.1])] else [])
  }

  /** Kotlin's `compareValues` on nullable timestamps: a missing one comes first. */
  predicate CreatedNoLater(a: Option<int>, b: Option<int>) {
    a.None? || (b.Some? && a.value <= b.value)
  }

  predicate SortedByCreatedAt(s: seq<VideoWithTrack>) {
    forall i, j :: 0 <= i < j < |s| ==> CreatedNoLater(s[i].video.createdAt, s[j].video.createdAt)
  }

  /** Puts `x` after every element created no later than it. */
  function Insert(x: VideoWithTrack, s: seq<VideoWithTrack>): (r: seq<VideoWithTrack>)
    ensures multiset(r) == multiset(s) + multiset{x}
  {
    if s == [] then [x]
    else if !CreatedNoLater(s[0].video.createdAt, x.video.createdAt) then [x] + s
    else
      assert s == [s[0]] + s[1..];
      [s[0]] + Insert(x, s[1..])
  }

  lemma {:induction false} InsertSorted(x: VideoWithTrack, s: seq<VideoWithTrack>)
    requires SortedByCreatedAt(s)
    ensures SortedByCreatedAt(Insert(x, s))
  {
    if s != [] && CreatedNoLater(s[0].video.createdAt, x.video.createdAt) {
      var rest := Insert(x, s[1..]);
      InsertSorted(x, s[1..]);
      forall k | 0 <= k < |rest| ensures CreatedNoLater(s[0].video.createdAt, rest[k].video.createdAt) {
        assert rest[k] in multiset(rest);
        assert rest[k] in multiset(s[1..]) || rest[k] == x;
        if rest[k] != x {
          var m :| 0 <= m < |s[1..]| && s[1..][m] == rest[k];
          assert s[m + 1] == rest[k];
        }
      }
      var r := [s[0]] + rest;
      forall i, j | 0 <= i < j < |r| ensures CreatedNoLater(r[i].video.createdAt, r[j].video.createdAt) {
        if i > 0 {
          assert r[i] == rest[i - 1] && r[j] == rest[j - 1];
        }
      }
    } else if s != [] {
      var r := [x] + s;
      forall i, j | 0 <= i < j < |r| ensures CreatedNoLater(r[i].video.createdAt, r[j].video.createdAt) {
        if i == 0 {
          assert CreatedNoLater(s[0].video.createdAt, s[j - 1].video.createdAt) || j == 1;
        } else {
          assert r[i] == s[i - 1] && r[j] == s[j - 1];
        }
      }
    }
  }

  /** `sortedBy { it.video.created_at }`, a stable sort: later elements are inserted after
      the equal ones already placed. */
  function SortByCreatedAt(s: seq<VideoWithTrack>): (r: seq<VideoWithTrack>)
    ensures multiset(r) == multiset(s)
  {
    if s == [] then []
    else
      assert s == s[..|s| - 1] + [s[|s| - 1]];
      Insert(s[|s| - 1], SortByCreatedAt(s[..|s| - 1]))
  }

  /** The listing comes out ordered by creation time, missing times first. */
  lemma {:induction false} SortByCreatedAtSorted(s: seq<VideoWithTrack>)
    ensures SortedByCreatedAt(SortByCreatedAt(s))
  {
    if s != [] {
      SortByCreatedAtSorted(s[..|s| - 1]);
      InsertSorted(s[|s| - 1], SortByCreatedAt(s[..|s| - 1]));
    }
  }

  // ---------------------------------------------------------------------------------------
  // The document tree.

  class VideoStore {
    /** The `video` collection, by document id. */
    var videos: map<string, VideoDoc>
    /** The section documents of the track. */
    var sectionDocs: set<string>
    /** Each section's `track` sub-collection, in listing order. */
    var trackDocs: map<string, seq<TrackDoc>>
    /** The files in storage. */
    var files: set<string>

    constructor ()
      ensures videos == map[] && sectionDocs == {} && trackDocs == map[] && files == {}
    {
      videos := map[];
      sectionDocs := {};
      trackDocs := map[];
      files := {};
    }

    /** The track documents of a section; an absent sub-collection lists as empty. */
    function Tracks(sectionId: string): seq<TrackDoc>
      reads this
    {
      if sectionId in trackDocs then trackDocs[sectionId] else []
    }

    /** `getVideos`: the section's videos that have a `video_id` and a video document, each
        with its track document id, ordered by creation time. */
    method GetVideos(sectionId: string) returns (r: seq<VideoWithTrack>)
      ensures r == SortByCreatedAt(Resolved(Referenced(Tracks(sectionId)), videos))
    {
      var docs := Tracks(sectionId);
      var videoIds: seq<(string, string)> := [];
      for i := 0 to |docs|
        invariant videoIds == Referenced(docs[..i])
      {
        assert docs[..i + 1][..i] == docs[..i];
        if docs[i].videoId.Some? {
          videoIds := videoIds + [(docs[i].trackId, docs[i].videoId.value)];
        }
      }
      assert docs[..|docs|] == docs;
      var found: seq<VideoWithTrack> := [];
      for i := 0 to |videoIds|
        invariant found == Resolved(videoIds[..i], videos)
      {
        assert videoIds[..i + 1][..i] == videoIds[..i];
        var (trackId, videoId) := videoIds[i];
        if videoId in videos {
          found := found + [VideoWithTrack(trackId, videos[videoId])];
        }
      }
      assert videoIds[..|videoIds|] == videoIds;
      r := SortByCreatedAt(found);
    }

    /** `addVideo`: stores the video file, then the thumbnail, then writes the video document
        and a track document pointing to it, and reports 100 last. `failure` is the step
        that throws, if any; nothing after it happens. `videoId` and `trackId` are the ids
        Firestore generates and `now` is the clock's time. */
    method AddVideo(sectionId: string, videoId: string, trackId: string, title: string, duration: real,
                    uploaderId: string, now: int, videoEvents: seq<Snapshot>, thumbnailEvents: seq<Snapshot>,
                    failure: Option<AddVideoStep>)
      returns (reported: seq<int>)
      requires forall k :: 0 <= k < |videoEvents| ==> videoEvents[k].totalByteCount > 0
      requires forall k :: 0 <= k < |thumbnailEvents| ==> thumbnailEvents[k].totalByteCount > 0
      modifies this
      ensures reported == ReportedProgress(videoEvents, thumbnailEvents, failure)
      ensures files == old(files)
        + (if failure != Some(VideoFile) then {VideoPath(videoId)} else {})
        + (if failure != Some(VideoFile) && failure != Some(ThumbnailFile) then {ThumbnailPath(videoId)} else {})
      ensures videos == (if failure.None? || failure == Some(TrackDocument)
                         then old(videos)[videoId := VideoDoc(videoId, title, duration, VideoPath(videoId),
                                                              ThumbnailPath(videoId), uploaderId, Some(now))]
                         else old(videos))
      ensures trackDocs == (if failure.None? then old(trackDocs)[sectionId := old(Tracks(sectionId)) + [TrackDoc(trackId, Some(videoId))]]
                            else old(trackDocs))
      ensures sectionDocs == old(sectionDocs)
    {
      var v, t := VideoProgresses(videoEvents), ThumbnailProgresses(thumbnailEvents);
      reported := v;
      if failure == Some(VideoFile) {
        assert v + [] + [] == v;
        return;
      }
      files := files + {VideoPath(videoId)};
      reported := v + t;
      if failure == Some(ThumbnailFile) {
        assert v + t + [] == v + t;
        return;
      }
      files := files + {ThumbnailPath(videoId)};
      if failure == Some(VideoDocument) {
        assert v + t + [] == v + t;
        return;
      }
      videos := videos[videoId := VideoDoc(videoId, title, duration, VideoPath(videoId), ThumbnailPath(videoId), uploaderId, Some(now))];
      if failure == Some(TrackDocument) {
        assert v + t + [] == v + t;
        return;
      }
      trackDocs := trackDocs[sectionId := Tracks(sectionId) + [TrackDoc(trackId, Some(videoId))]];
      assert failure.None? by {
        match failure {
          case None =>
          case Some(step) =>
            match step {
              case VideoFile =>
              case ThumbnailFile =>
              case VideoDocument =>
              case TrackDocument =>
            }
        }
      }
      reported := reported + [100];
    }

    /** `moveVideoSection`: reads the track document; nothing more happens unless it exists
        and has a `video_id`. Otherwise a new track document (id `newTrackId`, generated by
        Firestore) with that `video_id` is added to the target section, then the old one is
        deleted. `failure` is the Firestore call that throws, if any; nothing after it
        happens, and `ok` says whether the call returned normally. */
    method MoveVideoSection(fromSectionId: string, toSectionId: string, trackId: string, newTrackId: string,
                            failure: Option<MoveStep>)
      returns (ok: bool)
      requires newTrackId != trackId
      modifies this
      ensures var v := VideoIdOf(old(Tracks(fromSectionId)), trackId);
        ok <==> failure.None? || (v.None? && failure != Some(ReadTrack))
      ensures var v := VideoIdOf(old(Tracks(fromSectionId)), trackId);
        v.None? || failure == Some(ReadTrack) || failure == Some(AddTrack) ==> trackDocs == old(trackDocs)
      ensures var v := VideoIdOf(old(Tracks(fromSectionId)), trackId);
        v.Some? && (failure.None? || failure == Some(DeleteOldTrack)) ==> (
          var added := old(trackDocs)[toSectionId := old(Tracks(toSectionId)) + [TrackDoc(newTrackId, v)]];
          trackDocs == if failure.None?
                       then added[fromSectionId := WithoutTrack(if fromSectionId in added then added[fromSectionId] else [], trackId)]
                       else added)
      ensures videos == old(videos) && sectionDocs == old(sectionDocs) && files == old(files)
    {
      if failure == Some(ReadTrack) {
        return false;
      }
      var videoId := VideoIdOf(Tracks(fromSectionId), trackId);
      if videoId.None? {
        return true;
      }
      if failure == Some(AddTrack) {
        return false;
      }
      trackDocs := trackDocs[toSectionId := Tracks(toSectionId) + [TrackDoc(newTrackId, videoId)]];
      if failure == Some(DeleteOldTrack) {
        return false;
      }
      trackDocs := trackDocs[fromSectionId := WithoutTrack(Tracks(fromSectionId), trackId)];
      assert failure.None? by {
        match failure {
          case None =>
          case Some(step) =>
            match step {
              case ReadTrack =>
              case AddTrack =>
              case DeleteOldTrack =>
            }
        }
      }
      return true;
    }

    /** `deleteVideo`: deletes the track document, then every file `listAll` finds directly
        under `video/{videoId}` (a storage failure is logged and ignored; `storageOk` says
        whether the cleanup succeeds), then the video document. `failure` is the Firestore
        call that throws, if any; nothing after it happens. */
    method DeleteVideo(sectionId: string, trackId: string, videoId: string, storageOk: bool,
                       failure: Option<DeleteVideoStep>)
      returns (ok: bool)
      modifies this
      ensures ok <==> failure.None?
      ensures trackDocs == (if sectionId in old(trackDocs) && failure != Some(TrackDocDelete)
                            then old(trackDocs)[sectionId := WithoutTrack(old(trackDocs)[sectionId], trackId)]
                            else old(trackDocs))
      ensures files == (if storageOk && failure != Some(TrackDocDelete) then old(files) - FolderFiles(old(files), videoId)
                        else old(files))
      ensures videos == (if failure.None? then old(videos) - {videoId} else old(videos))
      ensures sectionDocs == old(sectionDocs)
    {
      if failure == Some(TrackDocDelete) {
        return false;
      }
      if sectionId in trackDocs {
        trackDocs := trackDocs[sectionId := WithoutTrack(trackDocs[sectionId], trackId)];
      }
      if storageOk {
        files := files - FolderFiles(files, videoId);
      }
      if failure == Some(VideoDocDelete) {
        return false;
      }
      videos := videos - {videoId};
      assert failure.None? by {
        match failure {
          case None =>
          case Some(step) =>
            match step {
              case TrackDocDelete =>
              case VideoDocDelete =>
            }
        }
      }
      return true;
    }

    /** `deleteSection`: lists the section's track documents, deletes them one by one, then
        deletes the section document. `failure` is the Firestore call that throws, if any
        (`TrackDocAt(k)` for the delete of the k-th listed document; an index past the
        listing names no call); nothing after it happens. */
    method DeleteSection(sectionId: string, failure: Option<DeleteSectionStep>)
      returns (ok: bool)
      modifies this
      ensures ok <==> SectionDeleted(|old(Tracks(sectionId))|, failure)
      ensures sectionDocs == (if ok then old(sectionDocs) - {sectionId} else old(sectionDocs))
      ensures failure == Some(ListTracks) ==> trackDocs == old(trackDocs)
      ensures var docs := old(Tracks(sectionId));
        failure != Some(ListTracks) && sectionId in old(trackDocs) ==>
          trackDocs == old(trackDocs)[sectionId := WithoutTracks(docs, TrackIds(docs[..TracksDeleted(|docs|, failure)]))]
      ensures sectionId !in old(trackDocs) ==> trackDocs == old(trackDocs)
      ensures videos == old(videos) && files == old(files)
    {
      if failure == Some(ListTracks) {
        return false;
      }
      var docs := Tracks(sectionId);
      if sectionId in trackDocs {
        DeleteListedTracks(sectionId, TracksDeleted(|docs|, failure));
      }
      ok := SectionDeleted(|docs|, failure);
      if ok {
        sectionDocs := sectionDocs - {sectionId};
      }
    }

    /** The loop of `deleteSection`: deletes the first `n` listed track documents of the
        section, one by one. */
    method DeleteListedTracks(sectionId: string, n: nat)
      requires sectionId in trackDocs && n <= |trackDocs[sectionId]|
      modifies this
      ensures var docs := old(trackDocs[sectionId]);
        trackDocs == old(trackDocs)[sectionId := WithoutTracks(docs, TrackIds(docs[..n]))]
      ensures videos == old(videos) && files == old(files) && sectionDocs == old(sectionDocs)
    {
      var docs := trackDocs[sectionId];
      var remaining := docs;
      assert TrackIds(docs[..0]) == {};
      WithoutNoTracks(docs);
      for i := 0 to n
        invariant remaining == WithoutTracks(docs, TrackIds(docs[..i]))
        invariant unchanged(this)
      {
        assert TrackIds(docs[..i + 1]) == TrackIds(docs[..i]) + {docs[i].trackId} by {
          assert docs[..i + 1] == docs[..i] + [docs[i]];
        }
        WithoutOneMore(docs, TrackIds(docs[..i]), docs[i].trackId);
        remaining := WithoutTrack(remaining, docs[i].trackId);
      }
      trackDocs := trackDocs[sectionId := remaining];
    }
  }

  /** How many of `count` listed track documents `deleteSection` deletes before `failure`. */
  function TracksDeleted(count: nat, failure: Option<DeleteSectionStep>): (n: nat)
    ensures failure == Some(ListTracks) ==> n == 0
    ensures failure.Some? && failure.value.TrackDocAt? && failure.value.k < count ==> n == failure.value.k
    ensures failure.None? || failure == Some(SectionDocDelete) || (failure.Some? && failure.value.TrackDocAt? && failure.value.k >= count)
      ==> n == count
  {
    match failure
    case Some(ListTracks) => 0
    case Some(TrackDocAt(k)) => if k < count then k else count
    case _ => count
  }

  /** Whether `deleteSection` reaches and completes the delete of the section document. */
  function SectionDeleted(count: nat, failure: Option<DeleteSectionStep>): (b: bool)
    ensures b <==> failure.None? || (failure.value.TrackDocAt? && failure.value.k >= count)
  {
    match failure
    case None => true
    case Some(TrackDocAt(k)) => k >= count
    case Some(_) => false
  }

  /** The Firestore call of `moveVideoSection` that throws. */
  datatype MoveStep = ReadTrack | AddTrack | DeleteOldTrack

  /** The Firestore call of `deleteVideo` that throws. */
  datatype DeleteVideoStep = TrackDocDelete | VideoDocDelete

  /** The Firestore call of `deleteSection` that throws. */
  datatype DeleteSectionStep = ListTracks | TrackDocAt(k: nat) | SectionDocDelete

  function VideoPath(videoId: string): string {
    "video/" + videoId + "/" + videoId + ".video.mov"
  }

  function ThumbnailPath(videoId: string): string {
    "video/" + videoId + "/" + videoId + ".jpg"
  }

  /** The storage folder of a video. */
  function Folder(videoId: string): string {
    "video/" + videoId + "/"
  }

  /** A file `listAll` lists for the folder: directly inside it, not in a sub-folder. */
  predicate InFolder(path: string, videoId: string) {
    var dir := Folder(videoId);
    |dir| < |path| && path[..|dir|] == dir && '/' !in path[|dir|..]
  }

  /** The stored files `listAll` returns for a video's folder. */
  function FolderFiles(files: set<string>, videoId: string): (r: set<string>)
    ensures forall p :: p in r <==> p in files && InFolder(p, videoId)
  {
    set p | p in files && InFolder(p, videoId)
  }

  /** For an id without `/`, the two files `addVideo` stores lie in the folder `deleteVideo`
      lists, so deleting a video removes them. */
  lemma StoredFilesInFolder(videoId: string)
    requires '/' !in videoId
    ensures InFolder(VideoPath(videoId), videoId) && InFolder(ThumbnailPath(videoId), videoId)
  {
    var dir := Folder(videoId);
    assert VideoPath(videoId) == dir + (videoId + ".video.mov");
    assert ThumbnailPath(videoId) == dir + (videoId + ".jpg");
  }

  function TrackIds(docs: seq<TrackDoc>): (r: set<string>)
    ensures forall id :: id in r <==> exists d :: d in docs && d.trackId == id
  {
    set d | d in docs :: d.trackId
  }

  /** The `video_id` of the first track document with the id, if it has one. */
  function VideoIdOf(docs: seq<TrackDoc>, trackId: string): (r: Option<string>)
    ensures r.Some? ==> exists k :: 0 <= k < |docs| && docs[k] == TrackDoc(trackId, r)
                                   && forall j :: 0 <= j < k ==> docs[j].trackId != trackId
    ensures (forall d :: d in docs ==> d.trackId != trackId) ==> r.None?
  {
    if docs == [] then None
    else if docs[0].trackId == trackId then docs[0].videoId
    else VideoIdOf(docs[1..], trackId)
  }

  /** Deleting a track document: every document with the id goes, the rest keep their order. */
  function WithoutTrack(docs: seq<TrackDoc>, trackId: string): (r: seq<TrackDoc>)
    ensures |r| <= |docs|
    ensures forall d :: d in r <==> d in docs && d.trackId != trackId
  {
    if docs == [] then []
    else (if docs[0].trackId != trackId then [docs[0]] else []) + WithoutTrack(docs[1..], trackId)
  }

  /** Deleting every track document whose id is in `ids`: the rest keep their order. */
  function WithoutTracks(docs: seq<TrackDoc>, ids: set<string>): (r: seq<TrackDoc>)
    ensures |r| <= |docs|
  {
    if docs == [] then []
    else (if docs[0].trackId !in ids then [docs[0]] else []) + WithoutTracks(docs[1..], ids)
  }

  /** Deleting one more id is deleting the larger set of ids. */
  lemma {:induction false} WithoutOneMore(docs: seq<TrackDoc>, ids: set<string>, trackId: string)
    ensures WithoutTrack(WithoutTracks(docs, ids), trackId) == WithoutTracks(docs, ids + {trackId})
  {
    if docs != [] {
      WithoutOneMore(docs[1..], ids, trackId);
      var rest := WithoutTracks(docs[1..], ids);
      if docs[0].trackId in ids {
        assert WithoutTracks(docs, ids) == rest;
      } else {
        var w := WithoutTracks(docs, ids);
        assert w == [docs[0]] + rest;
        assert w[0] == docs[0] && w[1..] == rest;
      }
    }
  }

  /** The documents left are exactly those whose id is not deleted, in their order. */
  lemma {:induction false} WithoutTracksMembers(docs: seq<TrackDoc>, ids: set<string>)
    ensures forall d :: d in WithoutTracks(docs, ids) <==> d in docs && d.trackId !in ids
  {
    if docs != [] {
      WithoutTracksMembers(docs[1..], ids);
      assert docs == [docs[0]] + docs[1..];
    }
  }

  /** Deleting the ids of every listed document leaves none. */
  lemma AllTracksDeleted(docs: seq<TrackDoc>)
    ensures WithoutTracks(docs, TrackIds(docs)) == []
  {
    WithoutCovered(docs, TrackIds(docs));
  }

  lemma {:induction false} WithoutCovered(docs: seq<TrackDoc>, ids: set<string>)
    requires forall d :: d in docs ==> d.trackId in ids
    ensures WithoutTracks(docs, ids) == []
  {
    if docs != [] {
      assert docs[0] in docs;
      WithoutCovered(docs[1..], ids);
    }
  }

  /** Deleting no id deletes nothing. */
  lemma {:induction false} WithoutNoTracks(docs: seq<TrackDoc>)
    ensures WithoutTracks(docs, {}) == docs
  {
    if docs != [] {
      WithoutNoTracks(docs[1..]);
      assert docs == [docs[0]] + docs[1..];
    }
  }

  /** What `getVideos` lists: exactly the track documents with a `video_id` whose video
      document exists, each paired with that document, in creation order, at most one entry
      per track document. */
  lemma ListingContents(docs: seq<TrackDoc>, videos: map<string, VideoDoc>)
    ensures var r := SortByCreatedAt(Resolved(Referenced(docs), videos));
      && SortedByCreatedAt(r)
      && |r| <= |docs|
      && (forall x :: x in r <==> exists d :: d in docs && d.videoId.Some? && d.videoId.value in videos
                                             && x == VideoWithTrack(d.trackId, videos[d.videoId.value]))
  {
    var pairs := Referenced(docs);
    var found := Resolved(pairs, videos);
    var r := SortByCreatedAt(found);
    SortByCreatedAtSorted(found);
    assert |r| == |multiset(r)| == |multiset(found)| == |found|;
    forall x ensures x in r <==> x in found {
      assert x in r <==> x in multiset(r);
      assert x in found <==> x in multiset(found);
    }
    forall x | x in found
      ensures exists d :: d in docs && d.videoId.Some? && d.videoId.value in videos
                          && x == VideoWithTrack(d.trackId, videos[d.videoId.value])
    {
      var p :| p in pairs && p.1 in videos && x == VideoWithTrack(p.0, videos[p.1]);
      assert TrackDoc(p.0, Some(p.1)) in docs;
    }
    forall d | d in docs && d.videoId.Some? && d.videoId.value in videos
      ensures VideoWithTrack(d.trackId, videos[d.videoId.value]) in found
    {
      assert d == TrackDoc(d.trackId, Some(d.videoId.value));
      assert (d.trackId, d.videoId.value) in pairs;
    }
  }
}
