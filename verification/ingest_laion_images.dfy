/** `ingest_laion_images.py`: ingestion of a random sample of the LAION
    aesthetics dataset. The pipeline object keeps an in-memory cache of the ids
    already in the table (`existing_image_ids`); the id of an image is derived from
    its URL by `generate_image_id`, here the function `imageIdOf` (an MD5 digest
    in the script).

    Remote calls are inputs: the embedding reply for task `t` is `replies(t)`, its
    table insert succeeds when `insertOk(t)`, and `df.sample(n=k)` returns
    `sample(rows, k)`. */
module LaionIngest {
  import opened Common
  import opened Text
  import opened Records

  const LaionPrefix: string := "laion_"

  /** The id an image is stored under: `f"laion_{image_id}"`. */
  function LaionId(imageId: string): string { LaionPrefix + imageId }

  /** Distinct images are stored under distinct ids. */
  lemma LaionIdInjective(a: string, b: string)
    ensures LaionId(a) == LaionId(b) <==> a == b
  {
    if LaionId(a) == LaionId(b) {
      assert a == LaionId(a)[|LaionPrefix|..];
      assert b == LaionId(b)[|LaionPrefix|..];
    }
  }

  /** One dataset row: `URL`, `TEXT` and `AESTHETIC_SCORE`, `None` when missing. */
  datatype LaionRow = LaionRow(url: Option<string>, text: Option<string>, aestheticScore: Option<real>)

  /** A row that passed the filters: its URL and caption. */
  datatype LaionImage = LaionImage(url: string, caption: string)

  /** The dataframe filters: score, URL and text present, and the score at least
      `minScore`. */
  predicate ValidRow(row: LaionRow, minScore: real) {
    row.aestheticScore.Some? && row.url.Some? && row.text.Some? && row.aestheticScore.value >= minScore
  }

  /** The rows that pass the filters, in order. */
  function ValidImages(rows: seq<LaionRow>, minScore: real): (images: seq<LaionImage>)
    ensures |images| <= |rows|
    ensures |images| == Count(rows, row => ValidRow(row, minScore))
    ensures forall row :: row in rows && ValidRow(row, minScore) ==> LaionImage(row.url.value, row.text.value) in images
    ensures forall img :: img in images ==>
      exists row :: row in rows && ValidRow(row, minScore) && img == LaionImage(row.url.value, row.text.value)
  {
    if rows == [] then []
    else
      var row := rows[|rows| - 1];
      var before := ValidImages(rows[..|rows| - 1], minScore);
      assert forall r :: r in rows[..|rows| - 1] ==> r in rows;
      before + (if ValidRow(row, minScore) then [LaionImage(row.url.value, row.text.value)] else [])
  }

  /** `min(num_images * 3, len(df))`: three candidates per wanted image, at most
      the whole dataframe. Negative for a negative `num_images`, when
      `df.sample` raises. */
  function SampleSize(numImages: int, available: nat): (n: int)
    ensures n <= available && n <= 3 * numImages
    ensures n == 3 * numImages || n == available
    ensures n < 0 <==> numImages < 0
  {
    Min(numImages * 3, available)
  }

  /** What `generate_embedding` returns on success. */
  datatype ImageEmbedding = ImageEmbedding(embedding: Vector, text: string, imageUrl: string)

  /** The request `generate_embedding` posts (it sends no `fps`). */
  function LaionRequest(imageUrl: string, caption: string): EmbedRequest {
    EmbedRequest(ImageRef(imageUrl), caption, MaxPixels)
  }

  /** `generate_embedding`: a single attempt, no retry. Only a 200 reply with an
      embedding gives a result; any other status or an exception gives `None`. */
  function GenerateImageEmbedding(imageUrl: string, caption: string, reply: EmbedReply): (r: Option<ImageEmbedding>)
    ensures r.Some? <==> reply.Reply? && reply.status == 200 && reply.embedding.Some?
    ensures r.Some? ==> r.value.embedding == reply.embedding.value && r.value.text == caption && r.value.imageUrl == imageUrl
  {
    if Delivered(reply) then Some(ImageEmbedding(reply.embedding.value, caption, imageUrl)) else None
  }

  /** `check_image_url_accessibility`: a 200 whose content type mentions `image`.
      (Its call in `process_laion_image_with_semaphore` is commented out.) */
  predicate ImageUrlAccessible(head: HeadReply): (b: bool)
    ensures b <==> head.HeadResponse? && head.status == 200 && (exists i: nat :: OccursAt(head.contentType, "image", i))
  {
    if head.HeadResponse? then
      ContainsIff(head.contentType, "image");
      head.status == 200 && Contains(head.contentType, "image")
    else
      false
  }

  /** The images that become tasks when every image is considered, in order. */
  function LaionTasks(images: seq<LaionImage>, existing: set<string>, idOf: string -> string): seq<LaionImage> {
    if images == [] then []
    else
      var img := images[|images| - 1];
      LaionTasks(images[..|images| - 1], existing, idOf) + (if LaionId(idOf(img.url)) in existing then [] else [img])
  }

  /** How many images are skipped because they are in the cache. */
  function CountStoredImages(images: seq<LaionImage>, existing: set<string>, idOf: string -> string): nat {
    if images == [] then 0
    else
      var img := images[|images| - 1];
      CountStoredImages(images[..|images| - 1], existing, idOf) + (if LaionId(idOf(img.url)) in existing then 1 else 0)
  }

  /** Every considered image is either skipped as stored or becomes a task, and
      every task is for an image that is not stored. */
  lemma {:induction false} PartitionImages(images: seq<LaionImage>, existing: set<string>, idOf: string -> string)
    ensures CountStoredImages(images, existing, idOf) + |LaionTasks(images, existing, idOf)| == |images|
    ensures forall img :: img in LaionTasks(images, existing, idOf) ==> LaionId(idOf(img.url)) !in existing
  {
    if images != [] {
      PartitionImages(images[..|images| - 1], existing, idOf);
    }
  }

  /** How many images the task-building loop looks at, from position `n` on: it
      stops right after a new image that brings the tasks up to `numImages`, and
      otherwise walks to the end. */
  function LaionExamined(images: seq<LaionImage>, existing: set<string>, idOf: string -> string, numImages: int,
                         n: nat): (m: nat)
    requires n <= |images|
    ensures n <= m <= |images|
    decreases |images| - n
  {
    if n == |images| then n
    else if LaionId(idOf(images[n].url)) !in existing && |LaionTasks(images[..n + 1], existing, idOf)| >= numImages then
      n + 1
    else
      LaionExamined(images, existing, idOf, numImages, n + 1)
  }

  /** The outcome of one image task against the cache it meets: a cached image is
      skipped; otherwise the task succeeds exactly when the single request
      delivers an embedding and the insert goes through. */
  function ImageResult(image: LaionImage, cache: set<string>, idOf: string -> string, reply: EmbedReply,
                       insertOk: bool): Totals
  {
    CacheResult(LaionId(idOf(image.url)), cache, Delivered(reply) && insertOk)
  }

  /** The ids the tasks' rows are stored under, in task order. */
  function ImageKeys(tasks: seq<LaionImage>, idOf: string -> string): (keys: seq<string>)
    ensures |keys| == |tasks|
    ensures forall i :: 0 <= i < |tasks| ==> keys[i] == LaionId(idOf(tasks[i].url))
  {
    seq(|tasks|, i requires 0 <= i < |tasks| => LaionId(idOf(tasks[i].url)))
  }

  /** Whether task `i` would store its row once it is not cached. */
  function ImageSuccesses(n: nat, replies: nat -> EmbedReply, insertOk: nat -> bool): (ok: seq<bool>)
    ensures |ok| == n
    ensures forall i :: 0 <= i < n ==> ok[i] == (Delivered(replies(i)) && insertOk(i))
  {
    seq(n, i requires 0 <= i < n => Delivered(replies(i)) && insertOk(i))
  }

  /** The tasks run in order, each meeting the cache the earlier ones left. */
  function RunImageTasks(tasks: seq<LaionImage>, cache: set<string>, idOf: string -> string,
                         replies: nat -> EmbedReply, insertOk: nat -> bool): TaskRun
  {
    RunCached(ImageKeys(tasks, idOf), ImageSuccesses(|tasks|, replies, insertOk), cache)
  }

  /** Task `i` meets the cache as it stood before the run plus the ids of the
      earlier tasks that succeeded, and its result is the one-task rule against
      that cache. */
  lemma RunImageTasksPositions(tasks: seq<LaionImage>, cache: set<string>, idOf: string -> string,
                               replies: nat -> EmbedReply, insertOk: nat -> bool)
    ensures var run := RunImageTasks(tasks, cache, idOf, replies, insertOk);
      forall i :: 0 <= i < |tasks| ==>
        run.results[i] == ImageResult(tasks[i], cache + SucceededKeys(ImageKeys(tasks, idOf)[..i], run.results[..i]),
                                      idOf, replies(i), insertOk(i))
  {
    RunCachedPositions(ImageKeys(tasks, idOf), ImageSuccesses(|tasks|, replies, insertOk), cache);
  }

  /** The tasks `ingest_laion_dataset` builds from the sampled images, run in order
      against the cache it starts from. */
  function LaionRun(images: seq<LaionImage>, cache: set<string>, idOf: string -> string, numImages: int,
                    replies: nat -> EmbedReply, insertOk: nat -> bool): TaskRun
  {
    var examined := images[..LaionExamined(images, cache, idOf, numImages, 0)];
    RunImageTasks(LaionTasks(examined, cache, idOf), cache, idOf, replies, insertOk)
  }

  /** What `ingest_laion_dataset` reports for the sampled images against the cache
      it starts from: the cached images among those the task-building loop looked
      at, plus the results of the tasks run in order. */
  function LaionDatasetTotals(images: seq<LaionImage>, cache: set<string>, idOf: string -> string, numImages: int,
                              replies: nat -> EmbedReply, insertOk: nat -> bool): Totals
  {
    var examined := images[..LaionExamined(images, cache, idOf, numImages, 0)];
    Plus(Totals(0, 0, CountStoredImages(examined, cache, idOf)),
         SumTotals(LaionRun(images, cache, idOf, numImages, replies, insertOk).results))
  }

  /** Every image the loop looked at is counted exactly once, as skipped or by its
      task; and the cache grows by exactly one new id per success. */
  lemma LaionTotalsCounts(images: seq<LaionImage>, cache: set<string>, idOf: string -> string, numImages: int,
                          replies: nat -> EmbedReply, insertOk: nat -> bool)
    ensures var t := LaionDatasetTotals(images, cache, idOf, numImages, replies, insertOk);
      var examined := images[..LaionExamined(images, cache, idOf, numImages, 0)];
      var run := LaionRun(images, cache, idOf, numImages, replies, insertOk);
      && Total(t) == |examined|
      && t.success + t.failed <= |LaionTasks(examined, cache, idOf)|
      && t.skipped >= CountStoredImages(examined, cache, idOf)
      && 0 <= t.success && 0 <= t.failed
      && cache <= run.cache && |run.cache| == |cache| + t.success
  {
    var examined := images[..LaionExamined(images, cache, idOf, numImages, 0)];
    var tasks := LaionTasks(examined, cache, idOf);
    var keys, succeeds := ImageKeys(tasks, idOf), ImageSuccesses(|tasks|, replies, insertOk);
    PartitionImages(examined, cache, idOf);
    RunCachedUnits(keys, succeeds, cache);
    RunCachedSize(keys, succeeds, cache);
    SumOfUnits(RunCached(keys, succeeds, cache).results);
  }

  class LaionPipeline {
    /** The stored ids known to this run (`existing_image_ids`). */
    var existingImageIds: set<string>
    /** `generate_image_id`. */
    const imageIdOf: string -> string

    constructor (imageIdOf: string -> string)
      ensures existingImageIds == {} && this.imageIdOf == imageIdOf
    {
      existingImageIds := {};
      this.imageIdOf := imageIdOf;
    }

    /** `load_existing_image_ids`, given the ids the table query returned, or
        `None` when the query raised (the cache is then emptied). */
    method LoadExistingImageIds(loaded: Option<seq<string>>)
      modifies this
      ensures loaded.None? ==> existingImageIds == {}
      ensures loaded.Some? ==> existingImageIds == old(existingImageIds) + set id | id in loaded.value
    {
      if loaded.None? {
        existingImageIds := {};
        return;
      }
      var ids := loaded.value;
      var i := 0;
      while i < |ids|
        invariant 0 <= i <= |ids|
        invariant existingImageIds == old(existingImageIds) + set id | id in ids[..i]
      {
        assert forall id :: id in ids[..i + 1] <==> id in ids[..i] || id == ids[i];
        existingImageIds := existingImageIds + {ids[i]};
        i := i + 1;
      }
      assert ids[..i] == ids;
    }

    /** `is_image_processed`: the image's id is in the cache. */
    predicate IsImageProcessed(imageId: string): (b: bool)
      reads this
      ensures b <==> imageId in StoredUnder(LaionPrefix, existingImageIds)
    {
      StoredUnderMember(LaionPrefix, existingImageIds, imageId);
      LaionId(imageId) in existingImageIds
    }

    /** `process_laion_image_with_semaphore`: one counter is 1. An image already in
        the cache is skipped without any request; otherwise one request is posted,
        and the image succeeds exactly when it delivers an embedding and the insert
        succeeds, and only then is its id added to the cache. */
    method ProcessImage(image: LaionImage, reply: EmbedReply, insertOk: bool)
      returns (result: Totals, requests: seq<EmbedRequest>, stored: Option<EmbeddingRecord>)
      modifies this
      ensures result == ImageResult(image, old(existingImageIds), imageIdOf, reply, insertOk)
      ensures IsUnit(result)
      ensures old(IsImageProcessed(imageIdOf(image.url))) ==> result == Totals(0, 0, 1) && requests == []
      ensures !old(IsImageProcessed(imageIdOf(image.url))) ==>
        && result.skipped == 0
        && requests == [LaionRequest(image.url, image.caption)]
        && (result.success == 1 <==> Delivered(reply) && insertOk)
      ensures result.success == 1 <==> stored.Some?
      ensures stored.Some? ==>
        && stored.value == EmbeddingRecord(LaionId(imageIdOf(image.url)), reply.embedding.value, image.caption, image.url, "")
        && LaionId(imageIdOf(image.url)) !in old(existingImageIds)
      ensures existingImageIds == old(existingImageIds) + (if stored.Some? then {LaionId(imageIdOf(image.url))} else {})
    {
      var imageId := imageIdOf(image.url);
      if IsImageProcessed(imageId) {
        return Totals(0, 0, 1), [], None;
      }
      result, stored := Totals(0, 0, 0), None;
      requests := [LaionRequest(image.url, image.caption)];
      var embeddingData := GenerateImageEmbedding(image.url, image.caption, reply);
      if embeddingData.Some? {
        var record := EmbeddingRecord(LaionId(imageId), embeddingData.value.embedding, image.caption, image.url, "");
        if insertOk {
          result := result.(success := result.success + 1);
          existingImageIds := existingImageIds + {LaionId(imageId)};
          stored := Some(record);
        } else {
          result := result.(failed := result.failed + 1);
        }
      } else {
        result := result.(failed := result.failed + 1);
      }
    }

    /** The task-building loop. Cached images are counted and skipped; the others
        become tasks until there are `numImages` of them. The cap is checked after
        adding a task, so one task is always admitted when any image is new. */
    method BuildLaionTasks(images: seq<LaionImage>, numImages: int)
      returns (tasks: seq<LaionImage>, skippedExisting: nat, examined: nat)
      ensures examined <= |images|
      ensures tasks == LaionTasks(images[..examined], existingImageIds, imageIdOf)
      ensures skippedExisting == CountStoredImages(images[..examined], existingImageIds, imageIdOf)
      ensures skippedExisting + |tasks| == examined
      ensures |tasks| <= Max(1, numImages)
      ensures examined < |images| ==> |tasks| == Max(1, numImages)
      ensures forall t :: t in tasks ==> !IsImageProcessed(imageIdOf(t.url))
      ensures examined == LaionExamined(images, existingImageIds, imageIdOf, numImages, 0)
    {
      tasks, skippedExisting := [], 0;
      var idx := 0;
      while idx < |images|
        invariant 0 <= idx <= |images|
        invariant tasks == LaionTasks(images[..idx], existingImageIds, imageIdOf)
        invariant skippedExisting == CountStoredImages(images[..idx], existingImageIds, imageIdOf)
        invariant |tasks| < Max(1, numImages)
        invariant LaionExamined(images, existingImageIds, imageIdOf, numImages, 0)
                  == LaionExamined(images, existingImageIds, imageIdOf, numImages, idx)
      {
        assert images[..idx + 1][..idx] == images[..idx];
        var imageId := imageIdOf(images[idx].url);
        if IsImageProcessed(imageId) {
          skippedExisting := skippedExisting + 1;
          idx := idx + 1;
          continue;
        }
        tasks := tasks + [images[idx]];
        idx := idx + 1;
        if |tasks| >= numImages {
          break;
        }
      }
      examined := idx;
      PartitionImages(images[..examined], existingImageIds, imageIdOf);
    }

    /** The tasks run one after the other (the model of `asyncio.as_completed` over
        `process_laion_image_with_semaphore`): task `i` gets `replies(i)` and
        `insertOk(i)` and meets the cache the tasks before it left. Each yields
        one unit result, and the cache grows by exactly the ids of the tasks that
        succeeded. */
    method ProcessTasks(tasks: seq<LaionImage>, replies: nat -> EmbedReply, insertOk: nat -> bool)
      returns (results: seq<Totals>)
      modifies this
      ensures var run := RunImageTasks(tasks, old(existingImageIds), imageIdOf, replies, insertOk);
        results == run.results && existingImageIds == run.cache
      ensures |results| == |tasks|
      ensures AllUnits(results)
      ensures existingImageIds == old(existingImageIds) + SucceededKeys(ImageKeys(tasks, imageIdOf), results)
      ensures old(existingImageIds) <= existingImageIds
      ensures |existingImageIds| == |old(existingImageIds)| + SumTotals(results).success
    {
      ghost var keys, succeeds := ImageKeys(tasks, imageIdOf), ImageSuccesses(|tasks|, replies, insertOk);
      results := [];
      var i := 0;
      while i < |tasks|
        invariant 0 <= i <= |tasks|
        invariant var run := RunCached(keys[..i], succeeds[..i], old(existingImageIds));
          results == run.results && existingImageIds == run.cache
      {
        assert keys[..i + 1][..i] == keys[..i] && succeeds[..i + 1][..i] == succeeds[..i];
        var result, requests, stored := ProcessImage(tasks[i], replies(i), insertOk(i));
        results := results + [result];
        i := i + 1;
      }
      assert keys[..i] == keys && succeeds[..i] == succeeds;
      RunCachedUnits(keys, succeeds, old(existingImageIds));
      RunCachedCache(keys, succeeds, old(existingImageIds));
      RunCachedSize(keys, succeeds, old(existingImageIds));
    }

    /** `ingest_laion_dataset`. A negative `numImages` makes `df.sample` raise
        (`None`). Otherwise the total is the cached images among those the
        task-building loop looked at plus the sum of the task results, and the
        cache ends as the tasks left it; so every examined image is counted once,
        at most `numImages` of them are attempted, and the cache grows by exactly
        one new id per success. */
    method IngestLaionDataset(rows: seq<LaionRow>, numImages: int, minScore: real,
                              sample: (seq<LaionImage>, nat) -> seq<LaionImage>,
                              replies: nat -> EmbedReply, insertOk: nat -> bool)
      returns (outcome: Option<Totals>)
      modifies this
      requires forall images: seq<LaionImage>, n: nat :: n <= |images| ==> |sample(images, n)| == n
      ensures outcome.None? <==> numImages < 0
      ensures outcome.None? ==> existingImageIds == old(existingImageIds)
      ensures outcome.Some? ==>
        var valid := ValidImages(rows, minScore);
        var images := sample(valid, SampleSize(numImages, |valid|));
        && outcome.value == LaionDatasetTotals(images, old(existingImageIds), imageIdOf, numImages, replies, insertOk)
        && existingImageIds == LaionRun(images, old(existingImageIds), imageIdOf, numImages, replies, insertOk).cache
        && Total(outcome.value) == LaionExamined(images, old(existingImageIds), imageIdOf, numImages, 0)
      ensures outcome.Some? ==>
        var total := outcome.value;
        && 0 <= total.success && 0 <= total.failed && 0 <= total.skipped
        && Total(total) <= SampleSize(numImages, |ValidImages(rows, minScore)|)
        && total.success + total.failed <= numImages
        && |existingImageIds| == |old(existingImageIds)| + total.success
      ensures old(existingImageIds) <= existingImageIds
    {
      var valid := ValidImages(rows, minScore);
      var sampleSize := SampleSize(numImages, |valid|);
      if sampleSize < 0 {
        return None;
      }
      var images := sample(valid, sampleSize);
      ghost var cache := existingImageIds;
      LaionTotalsCounts(images, cache, imageIdOf, numImages, replies, insertOk);
      var tasks, skippedExisting, examined := BuildLaionTasks(images, numImages);
      ghost var skipped := Totals(0, 0, CountStoredImages(images[..examined], cache, imageIdOf));
      ghost var run := LaionRun(images, cache, imageIdOf, numImages, replies, insertOk);
      assert run == RunImageTasks(tasks, cache, imageIdOf, replies, insertOk);
      if |tasks| == 0 {
        assert run == TaskRun([], cache);
        var total := Totals(0, 0, skippedExisting);
        assert total == LaionDatasetTotals(images, cache, imageIdOf, numImages, replies, insertOk) by {
          assert SumTotals(run.results) == NoTotals;
        }
        return Some(total);
      }
      var results := ProcessTasks(tasks, replies, insertOk);
      var total := Aggregate(skippedExisting, results);
      assert total == LaionDatasetTotals(images, cache, imageIdOf, numImages, replies, insertOk) by {
        assert results == run.results;
        assert total.skipped == skipped.skipped + SumTotals(results).skipped;
      }
      return Some(total);
    }
  }
}
