# Ingestion scripts of the multimodal search backend, modelled in Dafny

The backend fills one LanceDB table, `embeddings`, with rows
`{id, embedding, text, imageUrl, videoUrl, createdAt}`. The vectors come from an
embedding service reached over HTTP (`POST /embed`). Four scripts fill that table:

- `ingest_media.py` reads exported generation rows from JSON files. It keeps the
  completed ones and classifies each `output_url` as an image or a video by its
  extension. It posts each URL with its prompt and stores the rows that come back.
  Items are handled in chunks of `batch_size`, and every item is counted as
  `success`, `failed` or `skipped`.
- `ingest_videos.py` is the same pipeline restricted to video URLs. It counts and
  drops rows with image URLs.
- `ingest_video_dataset.py` ingests the Pexels-400k dataset. It filters by
  duration, shuffles and limits the rows. It keeps a cache of already-stored ids,
  so known videos are skipped. Embedding requests are retried with exponential
  backoff, and a counter tracks consecutive HTTP 429 replies.
- `ingest_laion_images.py` ingests a random sample of LAION images. It uses the
  same id cache and a cap on the number of tasks.

The model keeps every decision these scripts make and turns every remote effect
into an input:

- The reply to each embedding request is an `EmbedReply`, given per item or per
  attempt.
- The outcome of each table insert is a boolean, given per chunk or per task.
- HEAD replies, the shuffle, the sample and the id hash are parameters.

The concurrent tasks (`asyncio.gather`, `asyncio.as_completed`) run one after
another in task order. `Records.SumTotalsPermutation` shows that the totals do not
depend on completion order.

Files:

| file | module | contents |
|---|---|---|
| `text.dfy` | `Text` | `str.lower`, `endswith`, `in`, `split('/')[-1]`, `os.path.splitext`, integer rendering |
| `common.dfy` | `Common` | `Option`, list filters and counts, Python's `s[:k]`, `if limit:`, `defaultdict(int)` tallies |
| `records.dfy` | `Records` | requests, replies, table rows, the counter dictionary and its aggregation |
| `media_items.dfy` | `MediaItems` | the exported row, its prompt, its id, URL classification |
| `batch.dfy` | `Batch` | `process_batch`, identical in `ingest_media.py` and `ingest_videos.py` |
| `ingest_media.dfy` | `IngestMedia` | `generate_embedding`, `ingest_from_json_files` |
| `ingest_videos.dfy` | `IngestVideos` | `generate_embedding`, `ingest_from_json` |
| `ingest_video_dataset.dfy` | `PexelsIngest` | class `PexelsPipeline` and the retry policy |
| `ingest_laion_images.dfy` | `LaionIngest` | class `LaionPipeline` |

## Model

| member | source | states |
|---|---|---|
| Text.ToLower | backend/scripts/ingest_media.py:89-90 | the lowered URL has the same length and each character lowered |
| Text.LastSegment | backend/scripts/ingest_video_dataset.py:341 | `split('/')[-1]` is a suffix of the URL without '/', preceded by a '/' whenever it is shorter than the URL |
| Text.ContainsAt | backend/scripts/ingest_video_dataset.py:163 | `sub in s` holds whenever `sub` occurs at some position of `s` |
| Text.ContainsOccurs | backend/scripts/ingest_video_dataset.py:163 | conversely, `sub in s` only holds when `sub` occurs at some position of `s` |
| Text.ContainsIff | backend/scripts/ingest_video_dataset.py:163 | `sub in s` holds exactly when `sub` occurs at some position of `s` |
| Text.SplitExt | backend/scripts/ingest_media.py:256 | the extension is empty or a '.'-led suffix of the path with no further '.' and no '/' |
| Text.SplitExtOfName | backend/scripts/ingest_media.py:256 | a file name `stem.tail` has extension `.tail` |
| Text.DecimalStringInjective | backend/scripts/ingest_video_dataset.py:341 | distinct indices render to distinct strings in `f"video_{idx}"` |
| Common.FilterMembers | backend/scripts/ingest_media.py:218-234 | an item is in the filtered list iff it is in the input and accepted |
| Common.FilterConcat | backend/scripts/ingest_media.py:218-234 | filtering keeps the input order |
| Common.FilterLength | backend/scripts/ingest_videos.py:196-222 | the filtered list is as long as the number of accepted items |
| Common.PyPrefix | backend/scripts/ingest_media.py:239-241 | `s[:k]` is a prefix of `s`, for negative `k` as well |
| Common.ApplyLimitPrefix | backend/scripts/ingest_media.py:239-241 | a truthy limit truncates to a prefix of length `min(limit, len)` (or `len + limit` for negative limits); `None` or `0` keeps everything |
| Common.TallyOfCounts | backend/scripts/ingest_media.py:251-257 | each `defaultdict` key counts exactly its items, the keys are the occurring ones, and the counts sum to the number of items |
| Records.SumOfUnits | backend/scripts/ingest_video_dataset.py:385-391 | per-task results with one counter at 1 sum to as many counts as tasks |
| Records.SumTotalsPermutation | backend/scripts/ingest_video_dataset.py:379-383 | the summed counters are the same for every completion order |
| Records.Aggregate | backend/scripts/ingest_video_dataset.py:385-391 | the aggregation loop returns the pre-skips plus the sum of the task results; with unit results its total is pre-skips plus the task count |
| Records.StoredUnderMember | backend/scripts/ingest_video_dataset.py:99-102 | looking `prefix + id` up in the cache asks whether `id` is among the cached ids that carry the prefix, with the prefix removed |
| Records.CacheResult | backend/scripts/ingest_video_dataset.py:204-251 | one counter is 1: skipped iff the key is cached; success iff it is not cached and the task succeeds; failed otherwise (the same rule as `ingest_laion_images.py:176-228`) |
| Records.RunCachedUnits | backend/scripts/ingest_video_dataset.py:379-383 | tasks run in order against the shared cache each yield one unit result |
| Records.RunCachedCache | backend/scripts/ingest_video_dataset.py:233-235 | after the run the cache is the starting cache plus the keys of exactly the tasks that succeeded |
| Records.RunCachedSize | backend/scripts/ingest_video_dataset.py:233-235 | the cache only grows, by exactly one new key per success |
| Records.RunCachedPositions | backend/scripts/ingest_video_dataset.py:379-383 | task `i` meets the starting cache plus the keys of the earlier successful tasks, and its result is the one-task rule against that cache |
| MediaItems.ImageVideoDisjoint | backend/scripts/ingest_media.py:86-90 | no URL has both an image and a video extension |
| MediaItems.AnyEndsWithMember | backend/scripts/ingest_media.py:89-90 | the recursive extension test holds iff some listed extension ends the lowered URL, as `any(...)` does |
| MediaItems.Classify | backend/scripts/ingest_media.py:86-94 | image iff an image extension matches, video iff a video extension matches, neither otherwise |
| Batch.BatchSpecAccounts | backend/scripts/ingest_media.py:153-182 | skipped = `None` outcomes; success = inserted rows; a failed insert only moves a chunk's records from success to failed |
| Batch.BatchSpecTotal | backend/scripts/ingest_media.py:160-170 | every item increments exactly one counter: the three sum to the item count |
| Batch.BatchSpecAllInserted | backend/scripts/ingest_media.py:173-176 | when every insert succeeds, all produced records are inserted in item order and only raised items fail |
| Batch.BatchSpecInsertedProduced | backend/scripts/ingest_media.py:168-176 | only produced records are inserted |
| Batch.SingleOutcome | backend/scripts/ingest_media.py:163-167 | a raised item is a failure and a `None` item a skip |
| Batch.TallyChunk | backend/scripts/ingest_media.py:162-170 | the pending records are the chunk's produced records in order, and each counter grows by the chunk's outcomes of its kind |
| Batch.ProcessChunk | backend/scripts/ingest_media.py:153-182 | one chunk adds exactly its chunk effect: its records are inserted, or on a failed insert counted as failures and not inserted |
| Batch.ProcessBatch | backend/scripts/ingest_media.py:147-187 | the chunked loop (also `ingest_videos.py:141-181`) computes the chunk-by-chunk specification; the counters sum to the item count and success equals inserted rows; a zero batch size raises `ValueError` before any item is touched, a negative one processes nothing |
| IngestMedia.GenerateEmbedding | backend/scripts/ingest_media.py:68-145 | a request is built iff the metadata reads and the URL is an image or a video (never for an empty URL); it carries `image_url` iff image, the prompt text and `360*420` pixels; a record comes back iff the reply is a 200 with an embedding; its id is the row id and exactly one of `imageUrl`/`videoUrl` is the URL |
| IngestMedia.GenerateEmbeddingAsWritten | backend/scripts/ingest_media.py:70-73 | unreadable metadata raises out of the handler; otherwise identical to the corrected function |
| IngestMedia.UnreadableMetadataCountedAsFailed | backend/scripts/ingest_media.py:143-145 | as written an unreadable row is counted as failed, corrected it is skipped |
| IngestMedia.NeverRaised | backend/scripts/ingest_media.py:143-145 | with the corrected handler no item raises |
| IngestMedia.LoadedItemsMembers | backend/scripts/ingest_media.py:206-214 | a row is loaded iff it is in a file that loads |
| IngestMedia.LoadAll | backend/scripts/ingest_media.py:206-214 | the loading loop concatenates the files that load, in order |
| IngestMedia.FilterMedia | backend/scripts/ingest_media.py:218-234 | kept in input order exactly the rows with a URL, completed without error, on the requested platform |
| IngestMedia.TypeCountsMeaning | backend/scripts/ingest_media.py:259-264 | the images, videos and unknown tallies are the counts of rows classified as each, and they sum to the row count |
| IngestMedia.MediaStats | backend/scripts/ingest_media.py:244-264 | the platform, extension and media-type tallies each account for every row once; images, videos and unknown are the rows of each class |
| IngestMedia.IngestFromJsonFiles | backend/scripts/ingest_media.py:189-282 | with the corrected handler: no file gives zeros; a zero batch size raises `ValueError` (when there are files); otherwise the counters are the batch specification on the selected rows and sum to their number, and `success + failed` is the number of produced records |
| IngestMedia.InsertedFromSelected | backend/scripts/ingest_media.py:218-282 | every stored row comes from a loaded, kept row with an image or video URL, carries its id and its URL |
| IngestVideos.GenerateVideoEmbedding | backend/scripts/ingest_videos.py:68-139 | a request iff readable metadata and a video URL; a record iff a 200 with an embedding; the record has `imageUrl = ""`, `videoUrl = output_url` and the row id |
| IngestVideos.AnyDimensionStored | backend/scripts/ingest_videos.py:116-119 | an embedding that is not 1536 wide is still stored |
| IngestVideos.AgreesWithMediaIngest | backend/scripts/ingest_videos.py:80-89 | on video URLs this script behaves exactly like `ingest_media.py`; on others it posts nothing |
| IngestVideos.VideoOutcomesFacts | backend/scripts/ingest_videos.py:121-130 | no row raises and every produced record is a video row with empty `imageUrl` |
| IngestVideos.FilterVideos | backend/scripts/ingest_videos.py:196-222 | kept in input order exactly the completed, error-free video rows on the platform; `skipped_images` counts every image URL |
| IngestVideos.KeptVideos | backend/scripts/ingest_videos.py:196-222 | kept rows and image rows are disjoint, so their counts add up to at most the row count |
| IngestVideos.VideoStats | backend/scripts/ingest_videos.py:233-241 | the per-platform counts are exact and sum to the number of videos |
| IngestVideos.IngestFromJson | backend/scripts/ingest_videos.py:183-255 | a zero batch size raises `ValueError`; otherwise the counters are the batch specification on the kept rows and sum to their number; failures only from failed inserts (none when all succeed); every stored row is a video row |
| PexelsIngest.PexelsIdInjective | backend/scripts/ingest_video_dataset.py:99-102 | distinct video ids are stored under distinct `pexels_` ids |
| PexelsIngest.AttemptVerdicts | backend/scripts/ingest_video_dataset.py:147-185 | each reply delivers, is retryable, or stops at once (a non-200/500 status, or a 500 mentioning 429 or invalid data) |
| PexelsIngest.Retryable | backend/scripts/ingest_video_dataset.py:160-186 | a reply that leads to another attempt (an exception, or a 500 not mentioning 429 or invalid data) never delivers an embedding |
| PexelsIngest.GenerateEmbeddingWithRetry | backend/scripts/ingest_video_dataset.py:129-190 | at most `max_retries` identical requests; the `k`-th retry waits `2**k`; retries only after retryable replies; a result iff an attempt within budget delivers after only retryable ones |
| PexelsIngest.VideoIdOf | backend/scripts/ingest_video_dataset.py:341 | the id is the last '/'-segment when the URL has a '/', otherwise `video_{idx}` |
| PexelsIngest.PositionalIdsDistinct | backend/scripts/ingest_video_dataset.py:341 | slash-less URLs at different positions get different ids |
| PexelsIngest.WithinDuration | backend/scripts/ingest_video_dataset.py:288 | an example without a duration compares as infinite and is never kept |
| PexelsIngest.PexelsLimit | backend/scripts/ingest_video_dataset.py:298-299 | the limited list is a prefix; no limit, `0`, or a limit at least the length keeps everything; a positive smaller limit keeps exactly `limit` examples; a negative one drops `-limit` from the end |
| PexelsIngest.PexelsLimitIsApplyLimit | backend/scripts/ingest_video_dataset.py:298-299 | `limit and limit < len` truncates exactly like `if limit:` |
| PexelsIngest.PexelsSelectedFromDataset | backend/scripts/ingest_video_dataset.py:286-299 | with `random.shuffle` a permutation, the selected examples are dataset rows within the duration limit, each taken at most as often as it occurs, and no more than the dataset holds |
| PexelsIngest.PartitionExamples | backend/scripts/ingest_video_dataset.py:334-364 | each example is no-URL, already stored, or a task; every task has a URL and an uncached id |
| PexelsIngest.RunVideoTasksPositions | backend/scripts/ingest_video_dataset.py:192-251 | in the run of the video tasks, task `i` is skipped iff its `pexels_` id is cached or stored by an earlier task, and otherwise succeeds iff its retries obtain an embedding and its insert goes through |
| PexelsIngest.DatasetTotalsCounts | backend/scripts/ingest_video_dataset.py:334-391 | the reported counters sum to the selected examples, only tasks succeed or fail, the pre-skips are all skipped, and the cache grows by exactly one new id per success |
| PexelsIngest.PexelsPipeline.constructor | backend/scripts/ingest_video_dataset.py:29-33 | the counter starts at 0 and the cache empty |
| PexelsIngest.PexelsPipeline.LoadExistingVideoIds | backend/scripts/ingest_video_dataset.py:79-97 | the cache gains the loaded ids, or is emptied when the query fails |
| PexelsIngest.PexelsPipeline.IsVideoProcessed | backend/scripts/ingest_video_dataset.py:99-102 | a video counts as processed iff it is one of the cached ids stored under the `pexels_` prefix |
| PexelsIngest.PexelsPipeline.CheckVideoUrlAccessibility | backend/scripts/ingest_video_dataset.py:104-127 | a 429 bumps the counter and fails; another reply resets it and passes iff 200 with a video or octet-stream type; an exception fails |
| PexelsIngest.PexelsPipeline.ProcessVideo | backend/scripts/ingest_video_dataset.py:192-251 | the result is the one-task cache rule: cached videos are skipped with no request; an uncached video is never skipped, posts 1 to 3 identical requests (URL, title, `360*420` pixels) and succeeds iff an embedding is obtained and inserted; only then does the cache gain `pexels_{id}`; the row has the title, the last reply's embedding, the thumbnail as `imageUrl` and the video URL |
| PexelsIngest.PexelsPipeline.BuildTasks | backend/scripts/ingest_video_dataset.py:334-364 | no-URL, existing and task counts partition the examples; tasks are uncached |
| PexelsIngest.PexelsPipeline.ProcessTasks | backend/scripts/ingest_video_dataset.py:379-383 | the results and the final cache are those of the tasks run in order against the shared cache; one unit result per task; the cache becomes the old cache plus the ids of exactly the successful tasks |
| PexelsIngest.PexelsPipeline.IngestPexelsDataset | backend/scripts/ingest_video_dataset.py:253-391 | the report is the no-URL and cached examples as skipped plus the sum of the task results, and the cache ends as the tasks left it; the counters sum to the selected examples, never more than the dataset; the cache grows by exactly one new id per success |
| LaionIngest.LaionIdInjective | backend/scripts/ingest_laion_images.py:98-101 | distinct image ids are stored under distinct `laion_` ids |
| LaionIngest.ValidImages | backend/scripts/ingest_laion_images.py:251-254 | exactly the rows with score, URL and text and a score at least the minimum become images: every such row yields its image, every image comes from such a row, and there are as many images as such rows (the `len(df)` the sample size uses) |
| LaionIngest.SampleSize | backend/scripts/ingest_laion_images.py:260 | the sample is `min(3 * num_images, len)`, negative exactly when `num_images` is |
| LaionIngest.GenerateImageEmbedding | backend/scripts/ingest_laion_images.py:120-156 | a single attempt: a result iff a 200 with an embedding, carrying the caption and the URL |
| LaionIngest.ImageUrlAccessible | backend/scripts/ingest_laion_images.py:103-118 | a URL passes exactly when the HEAD request answers 200 with a content type that contains `image` at some position |
| LaionIngest.PartitionImages | backend/scripts/ingest_laion_images.py:283-300 | each considered image is either cached or a task; tasks are uncached |
| LaionIngest.RunImageTasksPositions | backend/scripts/ingest_laion_images.py:158-228 | in the run of the image tasks, task `i` is skipped iff its `laion_` id is cached or stored by an earlier task, and otherwise succeeds iff its single reply delivers and its insert goes through |
| LaionIngest.LaionTotalsCounts | backend/scripts/ingest_laion_images.py:283-323 | the reported counters sum to the images the task loop looked at, only tasks succeed or fail, and the cache grows by exactly one new id per success |
| LaionIngest.LaionPipeline.constructor | backend/scripts/ingest_laion_images.py:29 | the cache starts empty |
| LaionIngest.LaionPipeline.LoadExistingImageIds | backend/scripts/ingest_laion_images.py:75-92 | the cache gains the loaded ids, or is emptied when the query fails |
| LaionIngest.LaionPipeline.IsImageProcessed | backend/scripts/ingest_laion_images.py:98-101 | an image counts as processed iff it is one of the cached ids stored under the `laion_` prefix |
| LaionIngest.LaionPipeline.ProcessImage | backend/scripts/ingest_laion_images.py:158-228 | the result is the one-task cache rule: cached images are skipped with no request; an uncached image is never skipped and posts one request; success iff delivered and inserted, and only then does the cache gain `laion_{id}`; the row has the embedding, the caption, `imageUrl` = URL and `videoUrl = ""` |
| LaionIngest.LaionPipeline.BuildLaionTasks | backend/scripts/ingest_laion_images.py:283-300 | the loop looks at images up to the one that brings the tasks to `num_images`; cached ones are counted, the others become tasks; at most `max(1, num_images)` tasks, and exactly that many when stopping early |
| LaionIngest.LaionPipeline.ProcessTasks | backend/scripts/ingest_laion_images.py:311-315 | the results and the final cache are those of the tasks run in order against the shared cache; one unit result per task; the cache becomes the old cache plus the ids of exactly the successful tasks |
| LaionIngest.LaionPipeline.IngestLaionDataset | backend/scripts/ingest_laion_images.py:230-323 | a negative `num_images` raises; otherwise the report is the cached images the loop looked at plus the sum of the task results, its total is the number of images looked at, the cache ends as the tasks left it, at most `num_images` images are attempted, and the cache grows by one new id per success |

## Left out

- Network, database and file I/O are inputs: the `/embed` replies, table inserts,
  HEAD replies, the id query at start-up, the JSON files and the datasets. The
  LanceDB connection, table creation and schema are not modelled.
- Concurrency and timing are not modelled. This covers the semaphores, the
  `RateLimiter`, `asyncio.sleep` and the HTTP timeouts. Tasks run one after another
  in task order. With truly concurrent tasks, two tasks for the same video could
  both pass the cache check; the sequential model skips the second.
- `random.shuffle` and `df.sample` are the oracles `shuffle` and `sample`. The
  shuffle is required to be a permutation; only the length of the sample is
  constrained.
- `hashlib.md5(...).hexdigest()[:16]` is the uninterpreted function `imageIdOf`.
- Floating point is not modelled: the `createdAt` timestamps (a `created_at`
  value that does not parse is the flag `createdAtReadable`), the `fps` field, the
  vector values, and the rate computation in `main`. Durations and aesthetic
  scores are Dafny `real`s.
- `str.lower` is modelled for ASCII letters only.
- JSON values are modelled as strings. A non-string `id`, `platform` or prompt
  field, a JSON `null` `duration`, and a non-list JSON file are not modelled.
  Neither is a response body whose text cannot be read.
- A JSON `null` `title` in a Pexels example is not modelled: `title[:50]` would
  raise at `ingest_video_dataset.py:216` and the video would count as failed
  before any request. The model's title is always a string.
- A 200 reply whose `embedding` is JSON `null` is not distinguished from one
  without the key. The scripts return such a reply as a result
  (`ingest_video_dataset.py:153`, `ingest_laion_images.py:142`) and go on to the
  insert. In the model a missing embedding (`None`) is never stored, and the Pexels
  retry loop retries it.
- The pandas dataframe conversion and the statistics `print`s in
  `ingest_laion_images.py` are not modelled.
- `main` and argument parsing in each script are not modelled.
- `backend/fal_app/` is not part of this model. It holds the embedding service
  itself, and its `360 * 420` pixel bound appears as `Records.MaxPixels`.
- LaionIngest.LaionPipeline.IngestLaionDataset: the sample is only required to
  have the requested length, not to be drawn from the filtered rows. So the
  contract says nothing about which rows were sampled.
- IngestMedia.IngestFromJsonFiles: it is stated with the corrected handler. As
  written, a row with unreadable metadata is counted as `failed` instead of
  `skipped` (see "Findings").
- LaionIngest.ImageUrlAccessible: the HEAD check of `ingest_laion_images.py` is
  modelled but never called, because its call site is commented out.
- PexelsIngest.PexelsPipeline.CheckVideoUrlAccessibility: it is modelled, but
  `ingest_pexels_dataset` never calls it.

## Findings

| source | as written | input that shows it | evidently intended | confidence | as-written member | corrected member |
|---|---|---|---|---|---|---|
| backend/scripts/ingest_media.py:143-145 | the `except` handler prints `media_type`, which is bound only after the URL checks | a row whose `metadata` is not valid JSON (e.g. `"{"`): `json.loads` raises, then the handler raises `UnboundLocalError`, and `process_batch` counts the row as `failed` | the handler returns `None` and the row is counted as `skipped`, as in `ingest_videos.py:137-139` | not executed | IngestMedia.GenerateEmbeddingAsWritten, IngestMedia.UnreadableMetadataCountedAsFailed | IngestMedia.GenerateEmbedding |
