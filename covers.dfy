/**
 * The cover a post gets when it is created without an image: Google Books
 * first, Open Library second, the placeholder last. Each catalogue answer,
 * and whether downloading, resizing and uploading an image works, is an
 * input.
 */
module Covers {
  import opened Outcomes
  import opened Text
  import opened Numbers
  import opened Storage

  /** What a catalogue search gave: the request failed, no results, or its first result. */
  datatype Lookup<T> = Failed | NoResults | First(item: T)

  /** `volumeInfo.imageLinks` of a Google Books result. */
  datatype ImageLinks = ImageLinks(thumbnail: Option<string>, smallThumbnail: Option<string>)

  /** `volumeInfo` of the first Google Books result. */
  datatype Volume = Volume(imageLinks: Option<ImageLinks>)

  /** The first Open Library result; `coverId` is its `cover_i`. */
  datatype Doc = Doc(coverId: Option<int>)

  /** The Open Library cover image URL for a cover id. */
  function OpenLibraryCoverUrl(coverId: int): (url: string)
    ensures StartsWith(url, "http")
  {
    var head := "https://covers.openlibrary.org/b/id/";
    var url := head + IntString(coverId) + "-L.jpg";
    assert url[..4] == head[..4] == "http";
    url
  }

  /** The image a Google Books volume offers: the thumbnail, else the small thumbnail, else the placeholder. */
  function GoogleCandidate(b: Bucket, v: Volume): (url: string)
    ensures v.imageLinks.Some? && Present(v.imageLinks.value.thumbnail) ==>
      url == v.imageLinks.value.thumbnail.value
    ensures v.imageLinks.Some? && !Present(v.imageLinks.value.thumbnail) && Present(v.imageLinks.value.smallThumbnail) ==>
      url == v.imageLinks.value.smallThumbnail.value
    ensures v.imageLinks.None? || (!Present(v.imageLinks.value.thumbnail) && !Present(v.imageLinks.value.smallThumbnail)) ==>
      url == DefaultCover(b)
  {
    match v.imageLinks
    case Some(links) =>
      if Present(links.thumbnail) then links.thumbnail.value
      else if Present(links.smallThumbnail) then links.smallThumbnail.value
      else DefaultCover(b)
    case None => DefaultCover(b)
  }

  /**
   * `downloadAndUploadImageToS3`: the post's own image URL when `url` starts
   * with "http" and fetching, resizing and uploading it succeed
   * (`fetched(url)`); the placeholder otherwise, whatever went wrong.
   */
  function DownloadAndUpload(b: Bucket, url: string, postId: int, fetched: string -> bool): (r: string)
    ensures r == ObjectUrl(b, PostImageKey(postId)) <==> StartsWith(url, "http") && fetched(url)
    ensures r != ObjectUrl(b, PostImageKey(postId)) ==> r == DefaultCover(b)
  {
    OwnImageIsNotDefault(b, postId);
    if !StartsWith(url, "http") then DefaultCover(b)
    else if fetched(url) then ObjectUrl(b, PostImageKey(postId))
    else DefaultCover(b)
  }

  /**
   * `fetchBookCoverAndUploadToS3`: a Google Books first result with volume
   * info decides the outcome on its own; otherwise an Open Library first
   * result with a truthy `cover_i` does; otherwise the placeholder.
   */
  function CoverUrl(b: Bucket, postId: int, google: Lookup<Option<Volume>>, openLibrary: Lookup<Doc>,
                    fetched: string -> bool): (url: string)
    ensures url == ObjectUrl(b, PostImageKey(postId)) || url == DefaultCover(b)
    ensures StartsWith(url, "https://")
    ensures google.First? && google.item.Some? ==>
      var candidate := GoogleCandidate(b, google.item.value);
      (url == ObjectUrl(b, PostImageKey(postId)) <==> StartsWith(candidate, "http") && fetched(candidate))
    ensures !(google.First? && google.item.Some?) ==>
      (url == ObjectUrl(b, PostImageKey(postId)) <==>
         && openLibrary.First? && openLibrary.item.coverId.Some? && openLibrary.item.coverId.value != 0
         && fetched(OpenLibraryCoverUrl(openLibrary.item.coverId.value)))
  {
    OwnImageIsNotDefault(b, postId);
    match google
    case First(Some(v)) => DownloadAndUpload(b, GoogleCandidate(b, v), postId, fetched)
    case _ =>
      match openLibrary
      case First(Doc(Some(coverId))) =>
        if coverId != 0 then DownloadAndUpload(b, OpenLibraryCoverUrl(coverId), postId, fetched)
        else DefaultCover(b)
      case _ => DefaultCover(b)
  }

  /** Once Google Books has a usable first result, Open Library is never consulted. */
  lemma GoogleHitDecides(b: Bucket, postId: int, v: Volume, ol1: Lookup<Doc>, ol2: Lookup<Doc>,
                         fetched: string -> bool)
    ensures CoverUrl(b, postId, First(Some(v)), ol1, fetched) == CoverUrl(b, postId, First(Some(v)), ol2, fetched)
  {
  }

  /**
   * A Google Books result without thumbnails makes the placeholder the
   * candidate, and since its URL starts with "http" it is downloaded and
   * stored again under the post's own key.
   */
  lemma PlaceholderIsCopiedWhenNoThumbnail(b: Bucket, postId: int, v: Volume, openLibrary: Lookup<Doc>,
                                           fetched: string -> bool)
    requires v.imageLinks.None? || (!Present(v.imageLinks.value.thumbnail) && !Present(v.imageLinks.value.smallThumbnail))
    requires fetched(DefaultCover(b))
    ensures CoverUrl(b, postId, First(Some(v)), openLibrary, fetched) == ObjectUrl(b, PostImageKey(postId))
  {
    assert StartsWith(DefaultCover(b), "http") by {
      assert DefaultCover(b)[..4] == BaseUrl(b)[..4];
    }
  }
}
