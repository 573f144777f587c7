/** The rows of the generation export read by `ingest_media.py` and
    `ingest_videos.py`: their fields, the prompt held in their `metadata` JSON,
    the id a row is stored under, and the classification of `output_url` by file
    extension. */
module MediaItems {
  import opened Common
  import opened Text

  /** The `prompt` member of the metadata: a JSON object, of which `original` and
      `enhanced` are read (`None` when absent), or any other JSON value, of which
      `str(prompt)` is used. */
  datatype PromptValue =
    | PromptFields(original: Option<string>, enhanced: Option<string>)
    | PromptScalar(rendered: string)

  /** The `metadata` string: either it decodes to a JSON object (whose `prompt`
      member may be absent), or `json.loads` / `.get` on it raises. A row without
      `metadata` decodes `'{}'`, i.e. `MetadataObject(None)`. */
  datatype Metadata = MetadataUnreadable | MetadataObject(prompt: Option<PromptValue>)

  /** One exported row. `outputUrl` is `""` when absent or null; `status`,
      `platform`, `id` and `idx` are `None` when absent (`id` and `idx` hold the
      `str()` of their value); `hasError` is the truthiness of `error`;
      `createdAtReadable` says whether `created_at` is falsy or parses with
      `datetime.fromisoformat`. */
  datatype MediaItem = MediaItem(
    id: Option<string>,
    idx: Option<string>,
    outputUrl: string,
    status: Option<string>,
    hasError: bool,
    platform: Option<string>,
    metadata: Metadata,
    createdAtReadable: bool)

  /** `prompt.get('original', '') or prompt.get('enhanced', '')` for an object,
      `str(prompt)` otherwise; a missing prompt is the empty object. */
  function PromptText(prompt: Option<PromptValue>): string {
    match prompt
    case None => ""
    case Some(PromptFields(original, enhanced)) =>
      if original.GetOr("") != "" then original.value else enhanced.GetOr("")
    case Some(PromptScalar(rendered)) => rendered
  }

  /** `str(item.get('idx', item.get('id', '')))`: the id a row is stored under. */
  function RecordId(item: MediaItem): string {
    item.idx.GetOr(item.id.GetOr(""))
  }

  const ImageExtensions: seq<string> := [".jpg", ".jpeg", ".png", ".gif", ".bmp", ".webp", ".tiff"]

  const VideoExtensions: seq<string> := [".mp4", ".webm", ".mov", ".avi", ".mkv"]

  /** `any(lower.endswith(ext) for ext in exts)`, trying the extensions in order. */
  predicate AnyEndsWith(lower: string, exts: seq<string>)
    decreases |exts|
  {
    exts != [] && (EndsWith(lower, exts[0]) || AnyEndsWith(lower, exts[1..]))
  }

  /** The generator is true exactly when some extension of the list ends the text. */
  lemma {:induction false} AnyEndsWithMember(lower: string, exts: seq<string>)
    ensures AnyEndsWith(lower, exts) <==> exists e :: e in exts && EndsWith(lower, e)
    decreases |exts|
  {
    if exts != [] {
      AnyEndsWithMember(lower, exts[1..]);
      assert forall e :: e in exts <==> e == exts[0] || e in exts[1..];
    }
  }

  /** `any(url.lower().endswith(ext) for ext in exts)`. */
  predicate HasExtension(url: string, exts: seq<string>) {
    AnyEndsWith(ToLower(url), exts)
  }

  predicate IsImageUrl(url: string) { HasExtension(url, ImageExtensions) }

  predicate IsVideoUrl(url: string) { HasExtension(url, VideoExtensions) }

  /** Every extension is non-empty, and the image extensions end in other
      letters than the video extensions (g, f, p against 4, m, v, i). */
  lemma ExtensionsEndApart()
    ensures forall e :: e in ImageExtensions + VideoExtensions ==> |e| > 0
    ensures forall a, b :: a in ImageExtensions && b in VideoExtensions ==>
      a[|a| - 1] != b[|b| - 1]
  {
  }

  /** No URL is both an image and a video: the lowered URL would end in the last
      letter of an image extension and in that of a video extension. */
  lemma ImageVideoDisjoint(url: string)
    ensures !(IsImageUrl(url) && IsVideoUrl(url))
  {
    if IsImageUrl(url) && IsVideoUrl(url) {
      var lower := ToLower(url);
      AnyEndsWithMember(lower, ImageExtensions);
      AnyEndsWithMember(lower, VideoExtensions);
      var a :| a in ImageExtensions && EndsWith(lower, a);
      var b :| b in VideoExtensions && EndsWith(lower, b);
      ExtensionsEndApart();
    }
  }

  /** An empty URL has no extension. */
  lemma EmptyUrlUnclassified()
    ensures !IsImageUrl("") && !IsVideoUrl("")
  {
    assert ToLower("") == "";
    AnyEndsWithMember("", ImageExtensions);
    AnyEndsWithMember("", VideoExtensions);
    ExtensionsEndApart();
  }

  predicate IsImageItem(item: MediaItem) { IsImageUrl(item.outputUrl) }

  predicate IsVideoItem(item: MediaItem) { IsVideoUrl(item.outputUrl) }

  predicate IsUnknownItem(item: MediaItem) { !IsImageUrl(item.outputUrl) && !IsVideoUrl(item.outputUrl) }

  datatype MediaKind = Image | Video

  /** The media kind `generate_embedding` in `ingest_media.py` settles on: image
      when an image extension matches, else video when a video extension matches,
      else none. */
  function Classify(url: string): (r: Option<MediaKind>)
    ensures r == Some(Image) <==> IsImageUrl(url)
    ensures r == Some(Video) <==> IsVideoUrl(url)
    ensures r == None <==> !IsImageUrl(url) && !IsVideoUrl(url)
  {
    ImageVideoDisjoint(url);
    if IsImageUrl(url) then Some(Image)
    else if IsVideoUrl(url) then Some(Video)
    else None
  }

  /** `status == 'completed'` and a falsy `error`. */
  predicate Completed(item: MediaItem) {
    item.status == Some("completed") && !item.hasError
  }

  /** `not (filter_platform and item.get('platform') != filter_platform)`. */
  predicate PlatformSelected(item: MediaItem, platformFilter: Option<string>) {
    !TruthyText(platformFilter) || item.platform == platformFilter
  }

  /** The truthiness of an optional string. */
  predicate TruthyText(s: Option<string>) { s.Some? && s.value != "" }

  /** `item.get('platform', 'unknown')`, the key of the per-platform counter. */
  function PlatformKey(item: MediaItem): string { item.platform.GetOr("unknown") }

  /** `os.path.splitext(url.lower())[1]`, the key of the per-extension counter. */
  function ExtensionKey(item: MediaItem): string { SplitExt(ToLower(item.outputUrl)) }
}
