/** Uploaded media and the items of the stock-photo and GIF searches
    (`Models/Media.swift`). */
module MediaModels {
  import opened Wrappers
  import opened Text

  datatype MediaType = Image | Video | Gif

  datatype MediaConversion = MediaConversion(name: string, path: string, url: Option<string>)

  /** An uploaded file; timestamps are left out (display only). */
  datatype Media = Media(
    id: int,
    name: string,
    mimeType: string,
    disk: Option<string>,
    path: Option<string>,
    url: Option<string>,
    thumb: Option<string>,
    size: Option<int>,
    sizeReadable: Option<string>,
    conversions: Option<seq<MediaConversion>>)

  /** A stock photo found by the Unsplash search. */
  datatype StockMedia = StockMedia(id: string, url: string, thumb: Option<string>, download: Option<string>,
                                   author: Option<string>, authorUrl: Option<string>)

  /** A GIF found by the Tenor search. */
  datatype GifMedia = GifMedia(id: string, url: string, preview: Option<string>, title: Option<string>)

  /** `mediaType`: "gif" anywhere in the MIME type wins, then "video". */
  function MediaTypeOf(m: Media): (t: MediaType) {
    if Contains(m.mimeType, "gif") then Gif
    else if Contains(m.mimeType, "video") then Video
    else Image
  }

  /** The classification by occurrence of the two markers, "gif" checked first. */
  lemma MediaTypeOfIff(m: Media)
    ensures MediaTypeOf(m) == Gif <==> exists i :: OccursAt(m.mimeType, "gif", i)
    ensures MediaTypeOf(m) == Video <==>
      (!exists i :: OccursAt(m.mimeType, "gif", i)) && exists i :: OccursAt(m.mimeType, "video", i)
    ensures MediaTypeOf(m) == Image <==>
      (!exists i :: OccursAt(m.mimeType, "gif", i)) && !exists i :: OccursAt(m.mimeType, "video", i)
  {
    ContainsIff(m.mimeType, "gif");
    ContainsIff(m.mimeType, "video");
  }

  function WithMime(mime: string): Media {
    Media(0, "", mime, None, None, None, None, None, None, None)
  }

  /** "video/gif" is a GIF: the GIF test comes first. */
  lemma MediaTypeGifExamples()
    ensures MediaTypeOf(WithMime("image/gif")) == Gif
    ensures MediaTypeOf(WithMime("video/gif")) == Gif
  {
    ContainsIff("image/gif", "gif");
    assert OccursAt("image/gif", "gif", 6);
    ContainsIff("video/gif", "gif");
    assert OccursAt("video/gif", "gif", 6);
  }

  lemma MediaTypeVideoExample()
    ensures MediaTypeOf(WithMime("video/mp4")) == Video
  {
    NotContainsWithout("video/mp4", "gif", 0);
    ContainsIff("video/mp4", "video");
    assert OccursAt("video/mp4", "video", 0);
  }

  lemma MediaTypeImageExample()
    ensures MediaTypeOf(WithMime("image/png")) == Image
  {
    NotContainsWithout("image/png", "gif", 2);
    NotContainsWithout("image/png", "video", 0);
  }

  /** `displayURL`: the thumbnail if it parses as a URL, else the full URL if it
      parses, else none. `parses` stands for `URL(string:)` succeeding. */
  function DisplayURL(m: Media, parses: string -> bool): (r: Option<string>)
    ensures r.Some? ==> parses(r.value) && (Some(r.value) == m.thumb || Some(r.value) == m.url)
  {
    if m.thumb.Some? && parses(m.thumb.value) then m.thumb
    else if m.url.Some? && parses(m.url.value) then m.url
    else None
  }

  /** `fullURL`: the URL when present and parseable. */
  function FullURL(m: Media, parses: string -> bool): (r: Option<string>)
    ensures r.Some? <==> m.url.Some? && parses(m.url.value)
    ensures r.Some? ==> r == m.url
  {
    if m.url.Some? && parses(m.url.value) then m.url else None
  }

  /** The display URL falls back to the full URL: it is missing only when there
      is no full URL either, and it prefers a parseable thumbnail. */
  lemma DisplayFallsBackToFull(m: Media, parses: string -> bool)
    ensures DisplayURL(m, parses).None? ==> FullURL(m, parses).None?
    ensures m.thumb.Some? && parses(m.thumb.value) ==> DisplayURL(m, parses) == m.thumb
    ensures !(m.thumb.Some? && parses(m.thumb.value)) ==> DisplayURL(m, parses) == FullURL(m, parses)
  {
  }
}
