/** `ingest_videos.py`: the video-only variant of the export ingestion. Rows whose
    URL has an image extension are counted and dropped, only video URLs are
    posted, and every stored row has an empty `imageUrl`.

    The embedding reply for the `i`-th selected row is `replies(i)`; whether the
    table insert of chunk `c` succeeds is `insertOk(c)`. */
module IngestVideos {
  import opened Common
  import opened Text
  import opened Records
  import opened MediaItems
  import opened Batch
  import IngestMedia

  /** `generate_embedding`: the exception handler only reads the row, so every
      exception, including one from decoding `metadata`, ends as `None`. The length
      of the embedding is only reported, never checked. */
  function GenerateVideoEmbedding(item: MediaItem, reply: EmbedReply): (g: IngestMedia.Generation)
    ensures g.request.Some? <==> item.metadata.MetadataObject? && IsVideoUrl(item.outputUrl)
    ensures item.outputUrl == "" ==> g.request == None
    ensures g.request.Some? ==>
      g.request.value == EmbedRequest(VideoRef(item.outputUrl), PromptText(item.metadata.prompt), 360 * 420)
    ensures !g.outcome.Raised?
    ensures g.outcome.Produced? <==> g.request.Some? && Delivered(reply) && item.createdAtReadable
    ensures g.outcome.Produced? ==>
      g.outcome.record == EmbeddingRecord(RecordId(item), reply.embedding.value, g.request.value.text, "", item.outputUrl)
  {
    EmptyUrlUnclassified();
    match item.metadata
    case MetadataUnreadable => IngestMedia.Generation(None, Nothing)
    case MetadataObject(prompt) =>
      var url := item.outputUrl;
      var text := PromptText(prompt);
      if url == "" then IngestMedia.Generation(None, Nothing)
      else if !IsVideoUrl(url) then IngestMedia.Generation(None, Nothing)
      else
        var request := EmbedRequest(VideoRef(url), text, MaxPixels);
        if Delivered(reply) && item.createdAtReadable then
          IngestMedia.Generation(Some(request), Produced(EmbeddingRecord(RecordId(item), reply.embedding.value, text, "", url)))
        else IngestMedia.Generation(Some(request), Nothing)
  }

  /** An embedding of any width is stored as it came: a dimension other than 1536
      only triggers a warning. */
  lemma AnyDimensionStored(item: MediaItem, reply: EmbedReply)
    requires item.metadata.MetadataObject? && IsVideoUrl(item.outputUrl) && item.createdAtReadable
    requires Delivered(reply) && |reply.embedding.value| != EmbeddingDimension
    ensures GenerateVideoEmbedding(item, reply).outcome.Produced?
    ensures |GenerateVideoEmbedding(item, reply).outcome.record.embedding| != EmbeddingDimension
  {
  }

  /** On video URLs the two scripts post the same request and build the same row;
      on image URLs this one posts nothing. */
  lemma AgreesWithMediaIngest(item: MediaItem, reply: EmbedReply)
    requires item.metadata.MetadataObject?
    ensures IsVideoUrl(item.outputUrl) ==>
      GenerateVideoEmbedding(item, reply) == IngestMedia.GenerateEmbedding(item, reply)
    ensures !IsVideoUrl(item.outputUrl) ==>
      GenerateVideoEmbedding(item, reply) == IngestMedia.Generation(None, Nothing)
  {
    ImageVideoDisjoint(item.outputUrl);
    EmptyUrlUnclassified();
  }

  /** The outcomes `asyncio.gather` returns for the selected rows, in row order. */
  function VideoOutcomes(items: seq<MediaItem>, replies: nat -> EmbedReply): (outs: seq<ItemOutcome<EmbeddingRecord>>)
    ensures |outs| == |items|
  {
    seq(|items|, i requires 0 <= i < |items| => GenerateVideoEmbedding(items[i], replies(i)).outcome)
  }

  /** No row raises, and every record among the outcomes is a video row's. */
  lemma {:induction false} VideoOutcomesFacts(items: seq<MediaItem>, replies: nat -> EmbedReply)
    ensures CountRaised(VideoOutcomes(items, replies)) == 0
    ensures forall rec :: rec in ProducedRecords(VideoOutcomes(items, replies)) ==>
      rec.imageUrl == "" && IsVideoUrl(rec.videoUrl)
  {
    var outs := VideoOutcomes(items, replies);
    forall i | 0 <= i < |outs|
      ensures !outs[i].Raised?
      ensures outs[i].Produced? ==> outs[i].record.imageUrl == "" && IsVideoUrl(outs[i].record.videoUrl)
    {
      assert outs[i] == GenerateVideoEmbedding(items[i], replies(i)).outcome;
    }
    NoRaisedCounted(outs);
    forall rec | rec in ProducedRecords(outs)
      ensures rec.imageUrl == "" && IsVideoUrl(rec.videoUrl)
    {
      ProducedMember(outs, rec);
    }
  }

  // ---------------------------------------------------------------------------
  // ingest_from_json

  /** The row filter: a non-empty URL that is not an image but is a video,
      completed without error, on the requested platform when one is given. */
  predicate KeepVideo(item: MediaItem, platformFilter: Option<string>) {
    && item.outputUrl != ""
    && !IsImageUrl(item.outputUrl)
    && IsVideoUrl(item.outputUrl)
    && Completed(item)
    && PlatformSelected(item, platformFilter)
  }

  /** The filtering loop. The image check comes before the status check, so
      `skippedImages` counts every row with an image URL, completed or not. */
  method FilterVideos(videos: seq<MediaItem>, platformFilter: Option<string>)
    returns (filtered: seq<MediaItem>, skippedImages: nat)
    ensures filtered == Filter(videos, item => KeepVideo(item, platformFilter))
    ensures forall item :: item in filtered <==>
      && item in videos
      && IsVideoUrl(item.outputUrl)
      && item.status == Some("completed") && !item.hasError
      && (TruthyText(platformFilter) ==> item.platform == platformFilter)
    ensures skippedImages == Count(videos, IsImageItem)
    ensures |filtered| + skippedImages <= |videos|
  {
    filtered, skippedImages := [], 0;
    var i := 0;
    while i < |videos|
      invariant 0 <= i <= |videos|
      invariant filtered == Filter(videos[..i], item => KeepVideo(item, platformFilter))
      invariant skippedImages == Count(videos[..i], IsImageItem)
    {
      FilterStep(videos, i, platformFilter);
      var video := videos[i];
      i := i + 1;
      if video.outputUrl == "" {
        continue;
      }
      match Classify(video.outputUrl) {
        case Some(Image) =>
          skippedImages := skippedImages + 1;
        case None =>
        case Some(Video) =>
          if video.status != Some("completed") || video.hasError {
            continue;
          }
          if TruthyText(platformFilter) && video.platform != platformFilter {
            continue;
          }
          filtered := filtered + [video];
      }
    }
    assert videos[..i] == videos;
    KeptVideos(videos, platformFilter);
  }

  /** Extending the prefix by one row: it is kept exactly when it is a completed
      video on the platform, and counted as an image exactly when it is one. */
  lemma FilterStep(videos: seq<MediaItem>, i: nat, platformFilter: Option<string>)
    requires i < |videos|
    ensures var keep := (item: MediaItem) => KeepVideo(item, platformFilter);
      Filter(videos[..i + 1], keep) == Filter(videos[..i], keep) + (if keep(videos[i]) then [videos[i]] else [])
    ensures Count(videos[..i + 1], IsImageItem) ==
      Count(videos[..i], IsImageItem) + (if Classify(videos[i].outputUrl) == Some(Image) then 1 else 0)
    ensures KeepVideo(videos[i], platformFilter) <==>
      Classify(videos[i].outputUrl) == Some(Video) && Completed(videos[i]) && PlatformSelected(videos[i], platformFilter)
    ensures videos[i].outputUrl == "" ==> Classify(videos[i].outputUrl) == None
  {
    assert videos[..i + 1][..i] == videos[..i];
    EmptyUrlUnclassified();
  }

  /** What the filter keeps, and that kept rows and image rows are apart. */
  lemma KeptVideos(videos: seq<MediaItem>, platformFilter: Option<string>)
    ensures forall item :: item in Filter(videos, x => KeepVideo(x, platformFilter)) <==>
      && item in videos
      && IsVideoUrl(item.outputUrl)
      && item.status == Some("completed") && !item.hasError
      && (TruthyText(platformFilter) ==> item.platform == platformFilter)
    ensures |Filter(videos, x => KeepVideo(x, platformFilter))| + Count(videos, IsImageItem) <= |videos|
  {
    forall item | true
      ensures item in Filter(videos, x => KeepVideo(x, platformFilter)) <==> item in videos && KeepVideo(item, platformFilter)
    {
      FilterMembers(videos, x => KeepVideo(x, platformFilter), item);
    }
    forall item | true
      ensures KeepVideo(item, platformFilter) <==>
        && IsVideoUrl(item.outputUrl)
        && item.status == Some("completed") && !item.hasError
        && (TruthyText(platformFilter) ==> item.platform == platformFilter)
    {
      EmptyUrlUnclassified();
      ImageVideoDisjoint(item.outputUrl);
    }
    FilterLength(videos, x => KeepVideo(x, platformFilter));
    CountDisjoint(videos, x => KeepVideo(x, platformFilter), IsImageItem);
  }

  /** The statistics loop: per platform and per file extension, each accounting
      for every selected row once. */
  method VideoStats(videos: seq<MediaItem>) returns (platformCounts: map<string, nat>, fileTypeCounts: map<string, nat>)
    ensures platformCounts == TallyOf(videos, PlatformKey)
    ensures fileTypeCounts == TallyOf(videos, ExtensionKey)
    ensures forall k :: k in platformCounts ==> platformCounts[k] == CountKey(videos, PlatformKey, k)
    ensures SumValues(platformCounts) == |videos| && SumValues(fileTypeCounts) == |videos|
  {
    platformCounts, fileTypeCounts := map[], map[];
    var i := 0;
    while i < |videos|
      invariant 0 <= i <= |videos|
      invariant platformCounts == TallyOf(videos[..i], PlatformKey)
      invariant fileTypeCounts == TallyOf(videos[..i], ExtensionKey)
    {
      assert videos[..i + 1][..i] == videos[..i];
      platformCounts := Bump(platformCounts, PlatformKey(videos[i]));
      fileTypeCounts := Bump(fileTypeCounts, ExtensionKey(videos[i]));
      i := i + 1;
    }
    assert videos[..i] == videos;
    TallyOfCounts(videos, PlatformKey);
    TallyOfCounts(videos, ExtensionKey);
  }

  /** The rows `process_batch` is given: filtered, then limited. */
  function SelectedVideos(videos: seq<MediaItem>, limit: Option<int>, platformFilter: Option<string>): seq<MediaItem> {
    ApplyLimit(Filter(videos, item => KeepVideo(item, platformFilter)), limit)
  }

  /** `ingest_from_json`, given the rows of the file. Every selected row is counted
      once; nothing raises, so the failures are exactly the records of failed
      inserts, and none when every insert succeeds; every stored row is a video
      row with an empty `imageUrl`. A zero `batchSize` makes `range` raise
      `ValueError`, which propagates (`raised`). */
  method IngestFromJson(videos: seq<MediaItem>, limit: Option<int>, batchSize: int, platformFilter: Option<string>,
                        replies: nat -> EmbedReply, insertOk: nat -> bool)
    returns (raised: bool, results: Totals, inserted: seq<EmbeddingRecord>)
    ensures raised <==> batchSize == 0
    ensures batchSize <= 0 ==> results == NoTotals && inserted == []
    ensures batchSize > 0 ==>
      var outs := VideoOutcomes(SelectedVideos(videos, limit, platformFilter), replies);
      && BatchResult(results, inserted) == BatchSpec(outs, batchSize, insertOk, 0)
      && Total(results) == |SelectedVideos(videos, limit, platformFilter)|
      && results.skipped == CountNothing(outs)
      && results.success + results.failed == |ProducedRecords(outs)|
      && ((forall c :: insertOk(c)) ==> results.failed == 0 && inserted == ProducedRecords(outs))
    ensures results.success == |inserted|
    ensures forall rec :: rec in inserted ==> rec.imageUrl == "" && IsVideoUrl(rec.videoUrl)
  {
    var filtered, skippedImages := FilterVideos(videos, platformFilter);
    if LimitGiven(limit) {
      filtered := PyPrefix(filtered, limit.value);
    }
    var platformCounts, fileTypeCounts := VideoStats(filtered);
    var outs := VideoOutcomes(filtered, replies);
    raised, results, inserted := ProcessBatch(outs, batchSize, insertOk);
    VideoOutcomesFacts(filtered, replies);
    if batchSize > 0 {
      if forall c :: insertOk(c) {
        BatchSpecAllInserted(outs, batchSize, insertOk, 0);
      }
      forall rec | rec in inserted
        ensures rec.imageUrl == "" && IsVideoUrl(rec.videoUrl)
      {
        BatchSpecInsertedProduced(outs, batchSize, insertOk, 0, rec);
      }
    }
  }
}
