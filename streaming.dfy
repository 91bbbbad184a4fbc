/**
 * The two HLS retrieval views: `HLSManifestView.get` serves the playlist of one
 * rendition and `HLSSegmentView.get` one media segment. Both look the record up,
 * pick a path from `hls_path` (or a fallback layout when it is empty), and answer
 * "record not found", "file not found", an internal error, or the file's content
 * with a fixed media type. The media store is a map from path to file.
 */
module Streaming {
  import opened PathLayout
  import opened Videos
  import opened Tasks

  /** A file of the media store: its bytes, or one whose reading raises
      (a directory, no permission, a playlist that is not UTF-8 text). */
  datatype FileEntry = Readable(content: seq<bv8>) | Unreadable

  /** What a retrieval view answers. */
  datatype StreamResponse =
    | NotFound(error: string)                       // 404 with `{'error': ...}`
    | InternalError                                 // 500 "Internal server error"
    | Content(body: seq<bv8>, contentType: string)  // 200 with the file as body

  function Status(r: StreamResponse): (code: int)
    ensures code in {200, 404, 500}
    ensures code == 200 <==> r.Content?
  {
    match r
    case NotFound(_) => 404
    case InternalError => 500
    case Content(_, _) => 200
  }

  /** Media type of a playlist, as section 4 of RFC 8216 registers it. */
  const PlaylistType := "application/vnd.apple.mpegurl"

  /** Media type of an MPEG-2 transport stream segment. */
  const SegmentType := "video/MP2T"

  /** `os.path.join(MEDIA_ROOT, hls_path, resolution, name)` when `hls_path` is set,
      else the fallback `os.path.join(MEDIA_ROOT, 'videos', f'video_{id}', resolution, name)`. */
  function StreamPath(root: string, id: nat, hlsPath: string, resolution: string, name: string): string {
    if hlsPath != "" then Join(root, [hlsPath, resolution, name])
    else Join(root, ["videos", VideoDirName(id), resolution, name])
  }

  /** The playlist path the manifest view reads. */
  function ManifestPath(root: string, id: nat, hlsPath: string, resolution: string): string {
    StreamPath(root, id, hlsPath, resolution, "index.m3u8")
  }

  /** Existence check, then read: 404 with `missing` when the path is absent,
      500 when reading raises, otherwise the content with `contentType`. */
  function Serve(files: map<string, FileEntry>, path: string, missing: string, contentType: string): (r: StreamResponse)
    ensures r.Content? <==> path in files && files[path].Readable?
    ensures r.Content? ==> r.body == files[path].content && r.contentType == contentType
    ensures r.NotFound? <==> path !in files
    ensures r.NotFound? ==> r.error == missing
  {
    if path !in files then NotFound(missing)
    else
      match files[path]
      case Readable(content) => Content(content, contentType)
      case Unreadable => InternalError
  }

  /** `HLSManifestView.get(movie_id, resolution)`. */
  function ManifestGet(videos: map<nat, VideoRow>, files: map<string, FileEntry>, root: string,
                       id: nat, resolution: string): (r: StreamResponse)
    ensures id !in videos ==> r == NotFound("Video not found")
    ensures r.Content? ==> r.contentType == PlaylistType
  {
    if id !in videos then NotFound("Video not found")
    else Serve(files, ManifestPath(root, id, videos[id].hlsPath, resolution), "Video manifest not found", PlaylistType)
  }

  /** `HLSSegmentView.get(movie_id, resolution, segment)`. */
  function SegmentGet(videos: map<nat, VideoRow>, files: map<string, FileEntry>, root: string,
                      id: nat, resolution: string, segment: string): (r: StreamResponse)
    ensures id !in videos ==> r == NotFound("Video not found")
    ensures r.Content? ==> r.contentType == SegmentType
  {
    if id !in videos then NotFound("Video not found")
    else Serve(files, StreamPath(root, id, videos[id].hlsPath, resolution, segment), "Video segment not found", SegmentType)
  }

  // ---------------------------------------------------------------------------
  // Properties
  // ---------------------------------------------------------------------------

  /** The record lookup comes first: without a record the answer is the same whatever the store holds. */
  lemma LookupBeforeFile(videos: map<nat, VideoRow>, files: map<string, FileEntry>, other: map<string, FileEntry>,
                         root: string, id: nat, resolution: string, segment: string)
    requires id !in videos
    ensures ManifestGet(videos, files, root, id, resolution) == ManifestGet(videos, other, root, id, resolution)
    ensures SegmentGet(videos, files, root, id, resolution, segment) == SegmentGet(videos, other, root, id, resolution, segment)
  {
  }

  /** The manifest view serves exactly when the record exists and the chosen file exists and
      reads; a known record with no file is the distinct "Video manifest not found". */
  lemma ManifestOutcomes(videos: map<nat, VideoRow>, files: map<string, FileEntry>, root: string, id: nat, resolution: string)
    ensures var r := ManifestGet(videos, files, root, id, resolution);
            var path := if id in videos then ManifestPath(root, id, videos[id].hlsPath, resolution) else "";
            && (r.Content? <==> id in videos && path in files && files[path].Readable?)
            && (r.Content? ==> r.body == files[path].content)
            && (r == NotFound("Video manifest not found") <==> id in videos && path !in files)
            && (r.InternalError? <==> id in videos && path in files && files[path].Unreadable?)
            && (Status(r) == 404 <==> id !in videos || path !in files)
            && (Status(r) == 500 <==> id in videos && path in files && files[path].Unreadable?)
  {
  }

  /** The segment view serves exactly when the record exists and the chosen file exists and reads. */
  lemma SegmentOutcomes(videos: map<nat, VideoRow>, files: map<string, FileEntry>, root: string, id: nat,
                        resolution: string, segment: string)
    ensures var r := SegmentGet(videos, files, root, id, resolution, segment);
            var path := if id in videos then StreamPath(root, id, videos[id].hlsPath, resolution, segment) else "";
            && (r.Content? <==> id in videos && path in files && files[path].Readable?)
            && (r.Content? ==> r.body == files[path].content)
            && (r == NotFound("Video segment not found") <==> id in videos && path !in files)
            && (Status(r) == 404 <==> id !in videos || path !in files)
            && (Status(r) == 500 <==> id in videos && path in files && files[path].Unreadable?)
  {
  }

  /** The directory both views read from: the record's `hls_path` (or the fallback)
      joined with the resolution, whatever the resolution is (nothing checks it). */
  function RenditionBase(root: string, id: nat, hlsPath: string, resolution: string): string {
    if hlsPath != "" then Join(root, [hlsPath, resolution])
    else Join(root, ["videos", VideoDirName(id), resolution])
  }

  /** A segment is looked up in the same directory as the playlist, with the segment
      name in place of `index.m3u8`. */
  lemma {:induction false} SegmentBesideManifest(root: string, id: nat, hlsPath: string, resolution: string, segment: string)
    ensures ManifestPath(root, id, hlsPath, resolution) == Join(RenditionBase(root, id, hlsPath, resolution), ["index.m3u8"])
    ensures StreamPath(root, id, hlsPath, resolution, segment) == Join(RenditionBase(root, id, hlsPath, resolution), [segment])
  {
    if hlsPath != "" {
      JoinAppend(root, [hlsPath, resolution], ["index.m3u8"]);
      JoinAppend(root, [hlsPath, resolution], [segment]);
      assert [hlsPath, resolution] + ["index.m3u8"] == [hlsPath, resolution, "index.m3u8"];
      assert [hlsPath, resolution] + [segment] == [hlsPath, resolution, segment];
    } else {
      JoinAppend(root, ["videos", VideoDirName(id), resolution], ["index.m3u8"]);
      JoinAppend(root, ["videos", VideoDirName(id), resolution], [segment]);
      assert ["videos", VideoDirName(id), resolution] + ["index.m3u8"] == ["videos", VideoDirName(id), resolution, "index.m3u8"];
      assert ["videos", VideoDirName(id), resolution] + [segment] == ["videos", VideoDirName(id), resolution, segment];
    }
  }

  /** With the `hls_path` the transcode task stores, the views read the very files the
      encoder was told to write: the playlist and the segments of that rendition. */
  lemma {:induction false} ReadsTaskOutput(root: string, id: nat, resolution: string, name: string)
    ensures StreamPath(root, id, HlsRoot(id), resolution, name) == Join(RenditionDir(root, id, resolution), [name])
  {
    assert HlsRoot(id)[0] == 'v';
    HlsOutputDirLayout(root, id);
    JoinAppend(root, [HlsRoot(id)], [resolution, name]);
    assert [HlsRoot(id)] + [resolution, name] == [HlsRoot(id), resolution, name];
    JoinAppend(HlsOutputDir(root, id), [resolution], [name]);
    assert [resolution] + [name] == [resolution, name];
  }

  /** After a transcode run without an outer exception, the manifest view for any
      ladder rung reads the playlist path that rung's encoder command names. */
  lemma ManifestAfterTranscode(videos: map<nat, VideoRow>, root: string, id: nat, outs: seq<Outcome>, k: nat)
    requires |outs| == |Ladder| && HasSource(videos, id) && k < |Ladder|
    ensures var after := TranscodeVideos(videos, id, outs, NoFault);
            var command := HlsCommand(InputPath(root, videos[id].videoFile), RenditionDir(root, id, Ladder[k].name), Ladder[k]);
            && id in after
            && ManifestPath(root, id, after[id].hlsPath, Ladder[k].name) == command[|command| - 1]
  {
    ReadsTaskOutput(root, id, Ladder[k].name, "index.m3u8");
    assert HlsRoot(id) != "" by { assert HlsRoot(id)[0] == 'v'; }
  }

  /** A path built by joining relative components onto `p` starts with `p`. */
  lemma {:induction false} JoinExtends(p: string, parts: seq<string>)
    requires forall k :: 0 <= k < |parts| ==> parts[k] == [] || parts[k][0] != '/'
    ensures p <= Join(p, parts)
    decreases |parts|
  {
    if parts != [] {
      var next := JoinStep(p, parts[0]);
      assert p <= next;
      JoinExtends(next, parts[1..]) by {
        forall k | 0 <= k < |parts[1..]| ensures parts[1..][k] == [] || parts[1..][k][0] != '/' {
          assert parts[1..][k] == parts[k + 1];
        }
      }
    }
  }

  /** The fallback layout (`videos/video_<id>/...`, without the `hls` component) never
      reaches into a directory the transcode task writes, for any video, as long as
      the resolution and file name are relative, as the URL patterns ensure. */
  lemma FallbackMissesTaskOutput(root: string, id: nat, resolution: string, name: string, other: nat)
    requires resolution == [] || resolution[0] != '/'
    requires name == [] || name[0] != '/'
    ensures !Under(StreamPath(root, id, "", resolution, name), HlsOutputDir(root, other))
  {
    var pre := DirPrefix(root);
    var path := StreamPath(root, id, "", resolution, name);
    FallbackLayout(root, id, resolution, name);
    var dir := HlsOutputDir(root, other);
    assert dir[|pre| + 7] == 'h' by {
      assert dir == pre + ("videos/hls/" + VideoDirName(other));
    }
  }

  /** A fallback path is `<root>/videos/video_<id>` joined with the resolution and the
      file name; in particular its character after `videos/` is the `v` of `video_<id>`. */
  lemma FallbackLayout(root: string, id: nat, resolution: string, name: string)
    requires resolution == [] || resolution[0] != '/'
    requires name == [] || name[0] != '/'
    ensures StreamPath(root, id, "", resolution, name)
            == Join(DirPrefix(root) + "videos/" + VideoDirName(id), [resolution, name])
    ensures var path := StreamPath(root, id, "", resolution, name);
            |path| > |DirPrefix(root)| + 7 && path[|DirPrefix(root)| + 7] == 'v'
  {
    var pre := DirPrefix(root);
    var base := Join(root, ["videos", VideoDirName(id)]);
    FallbackBase(root, id);
    FallbackSplit(root, id, resolution, name);
    JoinExtends(base, [resolution, name]);
    assert base[|pre| + 7] == VideoDirName(id)[0];
  }

  /** The fallback record directory is `<root>/videos/video_<id>`. */
  lemma FallbackBase(root: string, id: nat)
    ensures Join(root, ["videos", VideoDirName(id)]) == DirPrefix(root) + "videos/" + VideoDirName(id)
  {
    NatStrClean(id);
    JoinClean(root, ["videos", VideoDirName(id)]);
    assert Slashed(["videos", VideoDirName(id)]) == "videos" + "/" + VideoDirName(id) by {
      assert Slashed([VideoDirName(id)]) == VideoDirName(id);
    }
  }

  /** A fallback path is the record directory joined with the resolution and the file name. */
  lemma FallbackSplit(root: string, id: nat, resolution: string, name: string)
    ensures StreamPath(root, id, "", resolution, name) == Join(Join(root, ["videos", VideoDirName(id)]), [resolution, name])
  {
    JoinAppend(root, ["videos", VideoDirName(id)], [resolution, name]);
    assert ["videos", VideoDirName(id)] + [resolution, name] == ["videos", VideoDirName(id), resolution, name];
  }
}
