/**
 * `VideoSerializer.get_thumbnail_url`: the thumbnail address the listing returns
 * for one video. The storage's URL for a stored name and the request's
 * `build_absolute_uri` are collaborators, passed in as functions.
 */
module VideoSerializer {
  import opened Wrappers
  import opened PathLayout
  import opened Videos
  import opened Tasks

  /** The request in the serializer context, reduced to what the method uses. */
  datatype Request = Request(absoluteUri: string -> string)

  /** The base the method puts in front of the image URL when there is no request. */
  const LocalOrigin := "http://127.0.0.1:8000"

  /** `get_thumbnail_url(obj)`: a stored image wins and is made absolute (by the
      request when there is one, else by the fixed local origin); without an image
      the stored `thumbnail_url` is returned, `''` standing in for NULL. */
  function ThumbnailUrl(row: VideoRow, request: Option<Request>, storageUrl: string -> string): (url: string)
    ensures row.thumbnailImage != "" && request.Some? ==> url == request.value.absoluteUri(storageUrl(row.thumbnailImage))
    ensures row.thumbnailImage != "" && request.None? ==> url == LocalOrigin + storageUrl(row.thumbnailImage)
    ensures row.thumbnailImage == "" ==> url == row.thumbnailUrl
  {
    if row.thumbnailImage != "" then
      match request
      case Some(r) => r.absoluteUri(storageUrl(row.thumbnailImage))
      case None => LocalOrigin + storageUrl(row.thumbnailImage)
    else row.thumbnailUrl
  }

  /** A stored image takes precedence: the `thumbnail_url` column is then never looked at. */
  lemma ImageTakesPrecedence(row: VideoRow, other: string, request: Option<Request>, storageUrl: string -> string)
    requires row.thumbnailImage != ""
    ensures ThumbnailUrl(row, request, storageUrl) == ThumbnailUrl(row.(thumbnailUrl := other), request, storageUrl)
  {
  }

  /** Without an image the request and the storage play no part. */
  lemma NoImageIgnoresRequest(row: VideoRow, request: Option<Request>, storageUrl: string -> string, otherUrl: string -> string)
    requires row.thumbnailImage == ""
    ensures ThumbnailUrl(row, request, storageUrl) == ThumbnailUrl(row, None, otherUrl)
  {
  }

  /** Once the thumbnail task has stored its frame, a listing without a request
      points at the stored name `videos/thumbnails/video_<id>_thumb.jpg` on the local origin. */
  lemma UrlAfterThumbnail(videos: map<nat, VideoRow>, root: string, id: nat, storageUrl: string -> string)
    requires ThumbnailStored(videos, id, Exited(0), false)
    ensures var after := ThumbnailVideos(videos, root, id, Exited(0), false);
            && id in after
            && ThumbnailUrl(after[id], None, storageUrl) == LocalOrigin + storageUrl("videos/thumbnails/video_" + NatStr(id) + "_thumb.jpg")
  {
    assert ThumbnailRelPath(id) == "videos/thumbnails/video_" + NatStr(id) + "_thumb.jpg";
    assert ThumbnailRelPath(id) != "";
  }
}
