/** `UploadVideoViewModel`: picking a gallery video and a title to upload. The gallery can
    be filtered to favourites, and the picked video is marked in the list. */
module UploadVideo {
  import opened Common

  /** A video of the device gallery (its other fields are not part of this model). */
  datatype GalleryVideo = GalleryVideo(id: int, uri: string, duration: int, isFavorite: bool)

  datatype GalleryVideoItem = GalleryVideoItem(id: int, uri: string, duration: int, isFavorite: bool, isSelected: bool)

  datatype VideoFilter = ALL | FAVORITE

  function ToUiItem(v: GalleryVideo, isSelected: bool): GalleryVideoItem {
    GalleryVideoItem(v.id, v.uri, v.duration, v.isFavorite, isSelected)
  }

  /** `filter { it.isFavorite }`. */
  function Favorites(videos: seq<GalleryVideo>): (r: seq<GalleryVideo>)
    ensures |r| <= |videos|
    ensures forall k :: 0 <= k < |r| ==> r[k].isFavorite
  {
    if videos == [] then []
    else (if videos[0].isFavorite then [videos[0]] else []) + Favorites(videos[1..])
  }

  /** `filteredVideos`: the gallery through the filter, each marked selected iff its id is
      the selected video's. */
  function FilteredVideos(videos: seq<GalleryVideo>, filter: VideoFilter, selected: Option<GalleryVideoItem>): (r: seq<GalleryVideoItem>)
    ensures filter == ALL ==> |r| == |videos| && forall i :: 0 <= i < |videos| ==> r[i].id == videos[i].id
    ensures |r| <= |videos|
    ensures forall i :: 0 <= i < |r| ==> (r[i].isSelected <==> selected.Some? && r[i].id == selected.value.id)
    ensures filter == FAVORITE ==> |r| == |Favorites(videos)| && forall i :: 0 <= i < |r| ==> r[i].id == Favorites(videos)[i].id && r[i].isFavorite
  {
    var filtered := if filter == ALL then videos else Favorites(videos);
    seq(|filtered|, i requires 0 <= i < |filtered| =>
      ToUiItem(filtered[i], selected.Some? && filtered[i].id == selected.value.id))
  }

  /** The favourites filter keeps exactly the favourite videos, in gallery order. */
  lemma FavoritesKeepOrder(videos: seq<GalleryVideo>, i: nat, j: nat)
    requires i < j < |videos| && videos[i].isFavorite && videos[j].isFavorite
    ensures exists a, b :: 0 <= a < b < |Favorites(videos)| && Favorites(videos)[a] == videos[i] && Favorites(videos)[b] == videos[j]
  {
    var a, b := FavoritePositions(videos, i, j);
  }

  /** The places of two favourites in the filtered list, in the same order. */
  lemma {:induction false} FavoritePositions(videos: seq<GalleryVideo>, i: nat, j: nat) returns (a: nat, b: nat)
    requires i < j < |videos| && videos[i].isFavorite && videos[j].isFavorite
    ensures a < b < |Favorites(videos)| && Favorites(videos)[a] == videos[i] && Favorites(videos)[b] == videos[j]
  {
    var rest := Favorites(videos[1..]);
    var head := if videos[0].isFavorite then [videos[0]] else [];
    assert Favorites(videos) == head + rest;
    assert videos[j] == videos[1..][j - 1];
    if i == 0 {
      var m := FavoritePosition(videos[1..], j - 1);
      a, b := 0, m + 1;
    } else {
      assert videos[i] == videos[1..][i - 1];
      var a', b' := FavoritePositions(videos[1..], i - 1, j - 1);
      a, b := a' + |head|, b' + |head|;
    }
  }

  /** The place of one favourite in the filtered list. */
  lemma {:induction false} FavoritePosition(videos: seq<GalleryVideo>, j: nat) returns (b: nat)
    requires j < |videos| && videos[j].isFavorite
    ensures b < |Favorites(videos)| && Favorites(videos)[b] == videos[j]
  {
    var rest := Favorites(videos[1..]);
    var head := if videos[0].isFavorite then [videos[0]] else [];
    assert Favorites(videos) == head + rest;
    if j == 0 {
      b := 0;
    } else {
      assert videos[j] == videos[1..][j - 1];
      var b' := FavoritePosition(videos[1..], j - 1);
      b := b' + |head|;
    }
  }

  /** The favourites filter keeps exactly the favourite videos. */
  lemma {:induction false} FavoritesMembers(videos: seq<GalleryVideo>)
    ensures forall v :: v in Favorites(videos) <==> v in videos && v.isFavorite
  {
    if videos != [] {
      FavoritesMembers(videos[1..]);
      assert videos == [videos[0]] + videos[1..];
    }
  }

  /** With distinct gallery ids at most one item is marked selected. */
  lemma AtMostOneSelected(videos: seq<GalleryVideo>, filter: VideoFilter, selected: Option<GalleryVideoItem>, i: int, j: int)
    requires forall a, b :: 0 <= a < b < |videos| ==> videos[a].id != videos[b].id
    requires var r := FilteredVideos(videos, filter, selected); 0 <= i < j < |r| && r[i].isSelected
    ensures !FilteredVideos(videos, filter, selected)[j].isSelected
  {
    var r := FilteredVideos(videos, filter, selected);
    if filter == ALL {
      assert r[i].id == videos[i].id && r[j].id == videos[j].id;
    } else {
      var f := Favorites(videos);
      FavoritesDistinct(videos);
      assert r[i].id == f[i].id && r[j].id == f[j].id && f[i].id != f[j].id;
    }
  }

  lemma {:induction false} FavoritesDistinct(videos: seq<GalleryVideo>)
    requires forall a, b :: 0 <= a < b < |videos| ==> videos[a].id != videos[b].id
    ensures forall a, b :: 0 <= a < b < |Favorites(videos)| ==> Favorites(videos)[a].id != Favorites(videos)[b].id
  {
    if videos != [] {
      var rest := videos[1..];
      FavoritesDistinct(rest);
      var f := Favorites(videos);
      var fr := Favorites(rest);
      assert rest == videos[1..];
      if !videos[0].isFavorite {
        assert f == fr;
      } else {
        assert f == [videos[0]] + fr;
        forall b | 0 < b < |f| ensures f[0].id != f[b].id {
          FavoritesMembers(rest);
          assert f[b] == fr[b - 1] && fr[b - 1] in rest;
          var k :| 0 <= k < |rest| && rest[k] == fr[b - 1];
          assert videos[k + 1] == rest[k];
        }
        forall a, b | 0 < a < b < |f| ensures f[a].id != f[b].id {
          assert f[a] == fr[a - 1] && f[b] == fr[b - 1];
          assert 0 <= a - 1 < b - 1 < |fr|;
        }
      }
    }
  }

  class UploadVideoViewModel {
    var galleryState: UiState<()>
    var allVideos: seq<GalleryVideo>
    var currentFilter: VideoFilter
    var selectedVideo: Option<GalleryVideoItem>

    constructor ()
      ensures galleryState == Idle && allVideos == [] && currentFilter == ALL && selectedVideo == None
    {
      galleryState := Idle;
      allVideos := [];
      currentFilter := ALL;
      selectedVideo := None;
    }

    /** The list the screen shows. */
    function Shown(): seq<GalleryVideoItem>
      reads this
    {
      FilteredVideos(allVideos, currentFilter, selectedVideo)
    }

    /** `loadGalleryVideos`' coroutine: success replaces the whole list, an error keeps it. */
    method LoadGalleryVideos(result: DataResult<seq<GalleryVideo>>)
      modifies this
      ensures result.Success? ==> allVideos == result.data && galleryState == Loaded(())
      ensures result.Error? ==> allVideos == old(allVideos) && galleryState == Failure(result.message)
      ensures currentFilter == old(currentFilter) && selectedVideo == old(selectedVideo)
    {
      galleryState := Loading;
      match result {
        case Success(data) =>
          allVideos := data;
          galleryState := Loaded(());
        case Error(m) =>
          galleryState := Failure(m);
      }
    }

    method SetFilter(filter: VideoFilter)
      modifies this
      ensures currentFilter == filter
      ensures galleryState == old(galleryState) && allVideos == old(allVideos) && selectedVideo == old(selectedVideo)
    {
      currentFilter := filter;
    }

    method SelectVideo(video: GalleryVideoItem)
      modifies this
      ensures selectedVideo == Some(video)
      ensures galleryState == old(galleryState) && allVideos == old(allVideos) && currentFilter == old(currentFilter)
    {
      selectedVideo := Some(video);
    }

    /** `canUpload`: a video is picked and the title is present and not blank. */
    method CanUpload(title: Option<string>) returns (ok: bool)
      ensures ok <==> selectedVideo.Some? && title.Some? && !IsBlank(title.value)
    {
      ok := selectedVideo.Some? && (if title.Some? then !IsBlank(title.value) else false);
    }
  }
}
