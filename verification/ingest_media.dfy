/** `ingest_media.py`: read the generation export, keep the completed rows,
    classify each `output_url` as an image or a video, post it with its prompt to
    the embedding service and store the rows that come back.

    The embedding reply for the `i`-th selected row is `replies(i)`; whether the
    table insert of chunk `c` succeeds is `insertOk(c)`. */
module IngestMedia {
  import opened Common
  import opened Text
  import opened Records
  import opened MediaItems
  import opened Batch

  /** What one `generate_embedding` call did: the request it posted, if it got
      that far, and what it handed back to `process_batch`. */
  datatype Generation = Generation(request: Option<EmbedRequest>, outcome: ItemOutcome<EmbeddingRecord>)

  /** Everything after the prompt has been read: the URL checks, the request and
      the reply. A 200 reply whose body has no `embedding`, or a `created_at` that
      does not parse, raises inside the `try` and ends as `None`, like a non-200
      reply or a failed request. */
  function Embed(item: MediaItem, text: string, reply: EmbedReply): (g: Generation)
    ensures g.request.Some? <==> IsImageUrl(item.outputUrl) || IsVideoUrl(item.outputUrl)
    ensures g.request.Some? ==>
      && g.request.value.maxPixels == MaxPixels
      && g.request.value.text == text
      && g.request.value.media.url == item.outputUrl
      && (g.request.value.media.ImageRef? <==> IsImageUrl(item.outputUrl))
      && (g.request.value.media.VideoRef? <==> IsVideoUrl(item.outputUrl))
    ensures !g.outcome.Raised?
    ensures g.outcome.Produced? <==> g.request.Some? && Delivered(reply) && item.createdAtReadable
    ensures g.outcome.Produced? ==> Delivered(reply) && g.outcome.record == EmbeddingRecord(
      RecordId(item), reply.embedding.value, text,
      if IsImageUrl(item.outputUrl) then item.outputUrl else "",
      if IsVideoUrl(item.outputUrl) then item.outputUrl else "")
  {
    EmptyUrlUnclassified();
    var url := item.outputUrl;
    if url == "" then Generation(None, Nothing)
    else
      match Classify(url)
      case None => Generation(None, Nothing)
      case Some(kind) =>
        var request := EmbedRequest(if kind == Image then ImageRef(url) else VideoRef(url), text, MaxPixels);
        if Delivered(reply) && item.createdAtReadable then
          var record := EmbeddingRecord(RecordId(item), reply.embedding.value, text,
                                        if kind == Image then url else "",
                                        if kind == Video then url else "");
          Generation(Some(request), Produced(record))
        else Generation(Some(request), Nothing)
  }

  /** `generate_embedding` with an exception handler that can always run: every
      exception, including one from decoding `metadata`, ends as `None`. This is
      the behaviour the pipeline below uses. */
  function GenerateEmbedding(item: MediaItem, reply: EmbedReply): (g: Generation)
    // a request is built exactly for readable rows with an image or video URL
    ensures g.request.Some? <==>
      item.metadata.MetadataObject? && (IsImageUrl(item.outputUrl) || IsVideoUrl(item.outputUrl))
    ensures item.outputUrl == "" ==> g.request == None
    ensures g.request.Some? ==>
      && item.metadata.MetadataObject?
      && g.request.value.maxPixels == 360 * 420
      && g.request.value.text == PromptText(item.metadata.prompt)
      && g.request.value.media.url == item.outputUrl
      && (g.request.value.media.ImageRef? <==> IsImageUrl(item.outputUrl))
      && (g.request.value.media.VideoRef? <==> IsVideoUrl(item.outputUrl))
    // nothing raises; a record comes back exactly for a delivered embedding
    ensures !g.outcome.Raised?
    ensures g.outcome.Produced? <==> g.request.Some? && Delivered(reply) && item.createdAtReadable
    ensures g.outcome.Produced? ==>
      && g.request.Some? && Delivered(reply)
      && g.outcome.record.id == RecordId(item)
      && g.outcome.record.embedding == reply.embedding.value
      && g.outcome.record.text == g.request.value.text
      && (IsImageUrl(item.outputUrl) ==> g.outcome.record.imageUrl == item.outputUrl && g.outcome.record.videoUrl == "")
      && (IsVideoUrl(item.outputUrl) ==> g.outcome.record.videoUrl == item.outputUrl && g.outcome.record.imageUrl == "")
  {
    EmptyUrlUnclassified();
    match item.metadata
    case MetadataUnreadable => Generation(None, Nothing)
    case MetadataObject(prompt) => Embed(item, PromptText(prompt), reply)
  }

  /** `generate_embedding` as written: when `json.loads` or `.get` on the metadata
      raises, the handler's message names `media_type`, which is not bound yet, so
      the handler itself raises and the exception reaches `process_batch`. */
  function GenerateEmbeddingAsWritten(item: MediaItem, reply: EmbedReply): (g: Generation)
    ensures item.metadata.MetadataUnreadable? ==> g == Generation(None, Raised)
    ensures item.metadata.MetadataObject? ==> g == GenerateEmbedding(item, reply)
  {
    match item.metadata
    case MetadataUnreadable => Generation(None, Raised)
    case MetadataObject(prompt) => Embed(item, PromptText(prompt), reply)
  }

  /** The two differ exactly on rows whose metadata cannot be read: as written such
      a row is counted as failed by `process_batch`, whereas the handler meant to
      skip it. */
  lemma UnreadableMetadataCountedAsFailed(item: MediaItem, reply: EmbedReply, bs: nat, insertOk: nat -> bool)
    requires item.metadata.MetadataUnreadable? && bs > 0
    ensures BatchSpec([GenerateEmbeddingAsWritten(item, reply).outcome], bs, insertOk, 0).totals == Totals(0, 1, 0)
    ensures BatchSpec([GenerateEmbedding(item, reply).outcome], bs, insertOk, 0).totals == Totals(0, 0, 1)
  {
    var raised: seq<ItemOutcome<EmbeddingRecord>> := [GenerateEmbeddingAsWritten(item, reply).outcome];
    var nothing: seq<ItemOutcome<EmbeddingRecord>> := [GenerateEmbedding(item, reply).outcome];
    assert raised == [Raised] && nothing == [Nothing];
    SingleOutcome(raised[0], bs, insertOk);
    SingleOutcome(nothing[0], bs, insertOk);
  }

  /** The outcomes `asyncio.gather` returns for the selected rows, in row order. */
  function Outcomes(items: seq<MediaItem>, replies: nat -> EmbedReply): (outs: seq<ItemOutcome<EmbeddingRecord>>)
    ensures |outs| == |items|
  {
    seq(|items|, i requires 0 <= i < |items| => GenerateEmbedding(items[i], replies(i)).outcome)
  }

  /** Every record among the outcomes is the record of one of the rows. */
  lemma {:induction false} ProducedFromItems(items: seq<MediaItem>, replies: nat -> EmbedReply, rec: EmbeddingRecord)
    requires rec in ProducedRecords(Outcomes(items, replies))
    ensures exists i :: 0 <= i < |items| && GenerateEmbedding(items[i], replies(i)).outcome == Produced(rec)
  {
    var outs := Outcomes(items, replies);
    ProducedMember(outs, rec);
    var i :| 0 <= i < |outs| && outs[i] == Produced(rec);
    assert GenerateEmbedding(items[i], replies(i)).outcome == Produced(rec);
  }

  // ---------------------------------------------------------------------------
  // ingest_from_json_files

  /** The rows of the files that load, file after file; a file that fails to load
      contributes nothing. */
  function LoadedItems(files: seq<Option<seq<MediaItem>>>): seq<MediaItem> {
    if files == [] then []
    else LoadedItems(files[..|files| - 1]) + files[|files| - 1].GetOr([])
  }

  /** A row is loaded exactly when it is in a file that loads. */
  lemma {:induction false} LoadedItemsMembers(files: seq<Option<seq<MediaItem>>>, item: MediaItem)
    ensures item in LoadedItems(files) <==>
      exists f :: 0 <= f < |files| && files[f].Some? && item in files[f].value
  {
    if files != [] {
      var last := |files| - 1;
      LoadedItemsMembers(files[..last], item);
      if item in files[last].GetOr([]) {
        assert files[last].Some? && item in files[last].value;
      }
      if exists f :: 0 <= f < |files| && files[f].Some? && item in files[f].value {
        var f :| 0 <= f < |files| && files[f].Some? && item in files[f].value;
        if f < last {
          assert files[..last][f] == files[f];
        }
      }
    }
  }

  /** The loading loop: `all_media.extend(items)` for every file that loads. */
  method LoadAll(files: seq<Option<seq<MediaItem>>>) returns (all: seq<MediaItem>)
    ensures all == LoadedItems(files)
  {
    all := [];
    var i := 0;
    while i < |files|
      invariant 0 <= i <= |files|
      invariant all == LoadedItems(files[..i])
    {
      assert files[..i + 1][..i] == files[..i];
      match files[i] {
        case Some(items) => all := all + items;
        case None =>
      }
      i := i + 1;
    }
    assert files[..i] == files;
  }

  /** The row filter: a non-empty URL, completed without error, and on the
      requested platform when one is given. */
  predicate Keep(item: MediaItem, platformFilter: Option<string>) {
    item.outputUrl != "" && Completed(item) && PlatformSelected(item, platformFilter)
  }

  /** The filtering loop. The kept rows are the rows the filter accepts, in input
      order; a row is kept exactly when it passes every check. */
  method FilterMedia(all: seq<MediaItem>, platformFilter: Option<string>) returns (filtered: seq<MediaItem>)
    ensures filtered == Filter(all, item => Keep(item, platformFilter))
    ensures forall item :: item in filtered <==>
      && item in all
      && item.outputUrl != ""
      && item.status == Some("completed") && !item.hasError
      && (TruthyText(platformFilter) ==> item.platform == platformFilter)
  {
    filtered := [];
    var i := 0;
    while i < |all|
      invariant 0 <= i <= |all|
      invariant filtered == Filter(all[..i], item => Keep(item, platformFilter))
    {
      assert all[..i + 1][..i] == all[..i];
      var item := all[i];
      i := i + 1;
      if item.outputUrl == "" {
        continue;
      }
      if item.status != Some("completed") || item.hasError {
        continue;
      }
      if TruthyText(platformFilter) && item.platform != platformFilter {
        continue;
      }
      filtered := filtered + [item];
    }
    assert all[..i] == all;
    forall item | true
      ensures item in filtered <==> item in all && Keep(item, platformFilter)
    {
      FilterMembers(all, x => Keep(x, platformFilter), item);
    }
  }

  /** The `media_type_counts` dictionary: images, videos and unknown. */
  datatype MediaTypeCounts = MediaTypeCounts(images: nat, videos: nat, unknown: nat)

  /** One row of the given kind counted. */
  function AddKind(c: MediaTypeCounts, kind: Option<MediaKind>): MediaTypeCounts {
    match kind
    case Some(Image) => c.(images := c.images + 1)
    case Some(Video) => c.(videos := c.videos + 1)
    case None => c.(unknown := c.unknown + 1)
  }

  /** The media-type counts of `items`, row after row. */
  function TypeCounts(items: seq<MediaItem>): MediaTypeCounts {
    if items == [] then MediaTypeCounts(0, 0, 0)
    else AddKind(TypeCounts(items[..|items| - 1]), Classify(items[|items| - 1].outputUrl))
  }

  /** The one-pass counts are the numbers of image, video and unknown rows, and
      every row is counted under exactly one of them. */
  lemma {:induction false} TypeCountsMeaning(items: seq<MediaItem>)
    ensures TypeCounts(items) ==
      MediaTypeCounts(Count(items, IsImageItem), Count(items, IsVideoItem), Count(items, IsUnknownItem))
    ensures Count(items, IsImageItem) + Count(items, IsVideoItem) + Count(items, IsUnknownItem) == |items|
  {
    if items != [] {
      TypeCountsMeaning(items[..|items| - 1]);
    }
  }

  /** Extending the prefix by one row adds it to the media-type counts and to both
      tallies. */
  lemma StatsStep(items: seq<MediaItem>, i: nat)
    requires i < |items|
    ensures TypeCounts(items[..i + 1]) == AddKind(TypeCounts(items[..i]), Classify(items[i].outputUrl))
    ensures TallyOf(items[..i + 1], PlatformKey) == Bump(TallyOf(items[..i], PlatformKey), PlatformKey(items[i]))
    ensures TallyOf(items[..i + 1], ExtensionKey) == Bump(TallyOf(items[..i], ExtensionKey), ExtensionKey(items[i]))
  {
    assert items[..i + 1][..i] == items[..i];
  }

  /** The statistics loop: per platform, per file extension and per media type.
      Each of the three tallies accounts for every row exactly once. */
  method MediaStats(items: seq<MediaItem>)
    returns (platformCounts: map<string, nat>, fileTypeCounts: map<string, nat>, images: nat, videos: nat, unknown: nat)
    ensures platformCounts == TallyOf(items, PlatformKey)
    ensures fileTypeCounts == TallyOf(items, ExtensionKey)
    ensures images == Count(items, IsImageItem)
    ensures videos == Count(items, IsVideoItem)
    ensures unknown == Count(items, IsUnknownItem)
    ensures images + videos + unknown == |items|
    ensures SumValues(platformCounts) == |items| && SumValues(fileTypeCounts) == |items|
  {
    platformCounts, fileTypeCounts := map[], map[];
    images, videos, unknown := 0, 0, 0;
    var i := 0;
    while i < |items|
      invariant 0 <= i <= |items|
      invariant platformCounts == TallyOf(items[..i], PlatformKey)
      invariant fileTypeCounts == TallyOf(items[..i], ExtensionKey)
      invariant MediaTypeCounts(images, videos, unknown) == TypeCounts(items[..i])
    {
      StatsStep(items, i);
      var item := items[i];
      platformCounts := Bump(platformCounts, PlatformKey(item));
      fileTypeCounts := Bump(fileTypeCounts, ExtensionKey(item));
      match Classify(item.outputUrl) {
        case Some(Image) => images := images + 1;
        case Some(Video) => videos := videos + 1;
        case None => unknown := unknown + 1;
      }
      i := i + 1;
    }
    assert items[..i] == items;
    TypeCountsMeaning(items);
    TallyOfCounts(items, PlatformKey);
    TallyOfCounts(items, ExtensionKey);
  }

  /** The rows `process_batch` is given: loaded, filtered, then limited. */
  function Selected(files: seq<Option<seq<MediaItem>>>, limit: Option<int>, platformFilter: Option<string>): seq<MediaItem> {
    ApplyLimit(Filter(LoadedItems(files), item => Keep(item, platformFilter)), limit)
  }

  /** `ingest_from_json_files`. No file at all returns zeros before anything else;
      otherwise the selected rows are processed in chunks of `batchSize`; a zero
      `batchSize` makes `range` raise `ValueError`, which propagates (`raised`). */
  method IngestFromJsonFiles(files: seq<Option<seq<MediaItem>>>, limit: Option<int>, batchSize: int,
                             platformFilter: Option<string>, replies: nat -> EmbedReply, insertOk: nat -> bool)
    returns (raised: bool, results: Totals, inserted: seq<EmbeddingRecord>)
    ensures raised <==> files != [] && batchSize == 0
    ensures files == [] ==> results == NoTotals && inserted == []
    ensures files != [] && batchSize > 0 ==>
      var outs := Outcomes(Selected(files, limit, platformFilter), replies);
      && BatchResult(results, inserted) == BatchSpec(outs, batchSize, insertOk, 0)
      && Total(results) == |Selected(files, limit, platformFilter)|
      && results.skipped == CountNothing(outs)
      && results.success == |inserted|
      && results.success + results.failed == |ProducedRecords(outs)|
    ensures batchSize <= 0 ==> results == NoTotals && inserted == []
  {
    if files == [] {
      return false, NoTotals, [];
    }
    var all := LoadAll(files);
    var filtered := FilterMedia(all, platformFilter);
    if LimitGiven(limit) {
      filtered := PyPrefix(filtered, limit.value);
    }
    var platformCounts, fileTypeCounts, images, videos, unknown := MediaStats(filtered);
    var outs := Outcomes(filtered, replies);
    raised, results, inserted := ProcessBatch(outs, batchSize, insertOk);
    NeverRaised(filtered, replies);
  }

  /** With the corrected handler no row raises. */
  lemma {:induction false} NeverRaised(items: seq<MediaItem>, replies: nat -> EmbedReply)
    ensures CountRaised(Outcomes(items, replies)) == 0
  {
    var outs := Outcomes(items, replies);
    forall i | 0 <= i < |outs|
      ensures !outs[i].Raised?
    {
      assert outs[i] == GenerateEmbedding(items[i], replies(i)).outcome;
    }
    NoRaisedCounted(outs);
  }

  /** Every stored row comes from a selected row: it has that row's id and URL,
      and that row is completed, without error, on the requested platform, with an
      image or video URL. */
  lemma InsertedFromSelected(files: seq<Option<seq<MediaItem>>>, limit: Option<int>, platformFilter: Option<string>,
                             batchSize: nat, replies: nat -> EmbedReply, insertOk: nat -> bool, rec: EmbeddingRecord)
    requires batchSize > 0
    requires rec in BatchSpec(Outcomes(Selected(files, limit, platformFilter), replies), batchSize, insertOk, 0).inserted
    ensures exists item :: (
      && item in LoadedItems(files) && Keep(item, platformFilter)
      && rec.id == RecordId(item)
      && (IsImageUrl(item.outputUrl) || IsVideoUrl(item.outputUrl))
      && (rec.imageUrl == item.outputUrl || rec.videoUrl == item.outputUrl))
  {
    var sel := Selected(files, limit, platformFilter);
    var outs := Outcomes(sel, replies);
    BatchSpecInsertedProduced(outs, batchSize, insertOk, 0, rec);
    ProducedFromItems(sel, replies, rec);
    var i :| 0 <= i < |sel| && GenerateEmbedding(sel[i], replies(i)).outcome == Produced(rec);
    var item := sel[i];
    var kept := Filter(LoadedItems(files), x => Keep(x, platformFilter));
    ApplyLimitPrefix(kept, limit);
    assert item in kept;
    FilterMembers(LoadedItems(files), x => Keep(x, platformFilter), item);
  }
}
