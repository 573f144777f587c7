/** `ingest_video_dataset.py`: ingestion of the Pexels-400k video dataset. The
    pipeline object keeps an in-memory cache of the ids already in the table
    (`existing_video_ids`) and a counter of consecutive HTTP 429 replies to HEAD
    requests (`consecutive_429s`).

    Remote calls are inputs: the reply to the `k`-th embedding attempt of task `t`
    is `replies(t)(k)`, the table insert of task `t` succeeds when `insertOk(t)`,
    and `random.shuffle` is the permutation `shuffle`. */
module PexelsIngest {
  import opened Common
  import opened Text
  import opened Records

  /** `max_retries` as `process_pexels_video_with_semaphore` passes it (the default). */
  const MaxRetries: int := 3

  const PexelsPrefix: string := "pexels_"

  /** The id a video is stored under: `f"pexels_{video_id}"`. */
  function PexelsId(videoId: string): string { PexelsPrefix + videoId }

  /** Distinct videos are stored under distinct ids. */
  lemma PexelsIdInjective(a: string, b: string)
    ensures PexelsId(a) == PexelsId(b) <==> a == b
  {
    if PexelsId(a) == PexelsId(b) {
      assert a == PexelsId(a)[|PexelsPrefix|..];
      assert b == PexelsId(b)[|PexelsPrefix|..];
    }
  }

  /** One row of the dataset: `video`, `title` and `thumbnail` (`""` when absent),
      and `duration`, `None` when absent. */
  datatype PexelsExample = PexelsExample(video: string, title: string, thumbnail: string, duration: Option<real>)

  /** What `generate_embedding_with_retry` returns on success. */
  datatype VideoEmbedding = VideoEmbedding(embedding: Vector, text: string, videoUrl: string)

  function Pow2(k: nat): (r: nat)
    ensures r >= 1
  {
    if k == 0 then 1 else 2 * Pow2(k - 1)
  }

  /** An attempt that ends in the `except` branch or in a 500 that does not look
      like rate limiting or bad video data: one that may be retried. A 200 whose
      body has no `embedding` raises inside the `try`, so it is retried too. */
  predicate Retryable(reply: EmbedReply): (b: bool)
    ensures b ==> !Delivered(reply)
  {
    || reply.ReplyRaised?
    || (reply.status == 200 && reply.embedding.None?)
    || (reply.status == 500 && !Contains(reply.body, "429") && !Contains(reply.body, "Invalid data found"))
  }

  /** Every reply either delivers, may be retried, or ends the retries at once; and
      only one of these. */
  lemma AttemptVerdicts(reply: EmbedReply)
    ensures !(Delivered(reply) && Retryable(reply))
    ensures !Delivered(reply) && !Retryable(reply) <==>
      reply.Reply? && (reply.status != 200 && (reply.status != 500 || Contains(reply.body, "429") || Contains(reply.body, "Invalid data found")))
  {
  }

  /** The retries obtain an embedding: some attempt within the budget delivers and
      every attempt before it asked for a retry. */
  predicate EmbeddingObtained(replies: nat -> EmbedReply, maxRetries: int) {
    exists k: nat :: k < maxRetries && Delivered(replies(k)) && forall j: nat :: j < k ==> Retryable(replies(j))
  }

  /** `generate_embedding_with_retry`. Each attempt posts the same request; the
      `k`-th retry is preceded by a wait of `2**k` seconds; at most `maxRetries`
      attempts are made, and a retry happens only after a retryable reply and
      while attempts remain. */
  method GenerateEmbeddingWithRetry(videoUrl: string, caption: string, maxRetries: int, replies: nat -> EmbedReply)
    returns (result: Option<VideoEmbedding>, requests: seq<EmbedRequest>, waits: seq<nat>)
    ensures |requests| <= Max(0, maxRetries)
    ensures maxRetries > 0 ==> |requests| > 0
    ensures forall k :: 0 <= k < |requests| ==> requests[k] == EmbedRequest(VideoRef(videoUrl), caption, MaxPixels)
    ensures |waits| == Max(0, |requests| - 1)
    ensures forall k :: 0 <= k < |waits| ==> waits[k] == Pow2(k)
    ensures forall k: nat :: k + 1 < |requests| ==> Retryable(replies(k))
    ensures 0 < |requests| < maxRetries ==> !Retryable(replies(|requests| - 1))
    ensures result.Some? <==> |requests| > 0 && Delivered(replies(|requests| - 1))
    ensures result.Some? ==>
      result.value == VideoEmbedding(replies(|requests| - 1).embedding.value, caption, videoUrl)
    ensures result.Some? <==> EmbeddingObtained(replies, maxRetries)
  {
    var request := EmbedRequest(VideoRef(videoUrl), caption, MaxPixels);
    result, requests, waits := None, [], [];
    var attempt: nat := 0;
    while attempt < maxRetries
      invariant attempt == |requests| == |waits|
      invariant attempt == 0 || attempt < maxRetries
      invariant forall k :: 0 <= k < |requests| ==> requests[k] == request
      invariant forall k :: 0 <= k < |waits| ==> waits[k] == Pow2(k)
      invariant forall k: nat :: k < attempt ==> Retryable(replies(k))
      invariant result == None
      decreases maxRetries - attempt
    {
      var reply := replies(attempt);
      requests := requests + [request];
      AttemptVerdicts(reply);
      // each branch says whether the loop `continue`s after a back-off
      var retry := false;
      if reply.ReplyRaised? || (reply.status == 200 && reply.embedding.None?) {
        // the `except` branch
        retry := attempt < maxRetries - 1;
      } else if reply.status == 200 {
        result := Some(VideoEmbedding(reply.embedding.value, caption, videoUrl));
      } else if reply.status == 500 && !Contains(reply.body, "429") && !Contains(reply.body, "Invalid data found") {
        retry := attempt < maxRetries - 1;
      }
      if !retry {
        if result.Some? {
          Obtained(replies, maxRetries, attempt);
        } else {
          NotObtained(replies, maxRetries, attempt);
        }
        return;
      }
      waits := waits + [Pow2(attempt)];
      attempt := attempt + 1;
    }
    NotObtained(replies, maxRetries, attempt);
  }

  /** Attempt `a` delivers after `a` retryable replies: an embedding is obtained. */
  lemma Obtained(replies: nat -> EmbedReply, maxRetries: int, a: nat)
    requires a < maxRetries && Delivered(replies(a))
    requires forall k: nat :: k < a ==> Retryable(replies(k))
    ensures EmbeddingObtained(replies, maxRetries)
  {
  }

  /** The retries end without an embedding at attempt `a` (or run out of attempts
      there): no attempt delivers. */
  lemma NotObtained(replies: nat -> EmbedReply, maxRetries: int, a: nat)
    requires forall k: nat :: k < a ==> Retryable(replies(k))
    requires a >= maxRetries || (!Delivered(replies(a)) && (Retryable(replies(a)) ==> a + 1 >= maxRetries))
    ensures !EmbeddingObtained(replies, maxRetries)
  {
    // An attempt that delivers is never retryable, so a delivering attempt before
    // or at `a` is impossible; one after `a` is preceded by the final reply `a`.
    forall k: nat | k < maxRetries && Delivered(replies(k))
      ensures exists j: nat :: j < k && !Retryable(replies(j))
    {
      if a < k {
        assert !Retryable(replies(a));
      }
    }
  }

  /** `video_url.split('/')[-1] if '/' in video_url else f"video_{idx}"`. */
  function VideoIdOf(videoUrl: string, idx: nat): (videoId: string)
    ensures '/' in videoUrl ==>
      && EndsWith(videoUrl, videoId) && '/' !in videoId
      && videoUrl[|videoUrl| - |videoId| - 1] == '/'
    ensures '/' !in videoUrl ==> videoId == "video_" + DecimalString(idx)
  {
    if '/' in videoUrl then
      var s := LastSegment(videoUrl);
      s
    else "video_" + DecimalString(idx)
  }

  /** Rows without a slash in the URL get ids from their positions, so two such
      rows never share an id. */
  lemma PositionalIdsDistinct(u: string, v: string, i: nat, j: nat)
    requires '/' !in u && '/' !in v && i != j
    ensures VideoIdOf(u, i) != VideoIdOf(v, j)
  {
    if VideoIdOf(u, i) == VideoIdOf(v, j) {
      assert DecimalString(i) == VideoIdOf(u, i)[6..];
      assert DecimalString(j) == VideoIdOf(v, j)[6..];
      DecimalStringInjective(i, j);
    }
  }

  /** `ex.get('duration', float('inf')) <= duration_limit`: an example without a
      duration compares as infinitely long and is never kept. */
  predicate WithinDuration(ex: PexelsExample, durationLimit: int): (b: bool)
    ensures ex.duration.None? ==> !b
  {
    ex.duration.Some? && ex.duration.value <= durationLimit as real
  }

  /** `if limit and limit < len(filtered_ds): filtered_ds = filtered_ds[:limit]`. */
  function PexelsLimit(s: seq<PexelsExample>, limit: Option<int>): (r: seq<PexelsExample>)
    ensures |r| <= |s| && r == s[..|r|]
    ensures !LimitGiven(limit) || limit.value >= |s| ==> r == s
    ensures LimitGiven(limit) && 0 < limit.value < |s| ==> |r| == limit.value
    ensures LimitGiven(limit) && limit.value < 0 ==> |r| == Max(0, |s| + limit.value)
  {
    if LimitGiven(limit) && limit.value < |s| then PyPrefix(s, limit.value) else s
  }

  /** The extra `limit < len` test changes nothing: it is the same truncation as a
      plain `if limit:` slice. */
  lemma PexelsLimitIsApplyLimit(s: seq<PexelsExample>, limit: Option<int>)
    ensures PexelsLimit(s, limit) == ApplyLimit(s, limit)
  {
    if LimitGiven(limit) && limit.value >= |s| {
      assert PyPrefix(s, limit.value) == s[..|s|] == s;
    }
  }

  /** The examples the task loop walks over: within the duration, shuffled when
      asked, then limited. */
  function PexelsSelected(dataset: seq<PexelsExample>, limit: Option<int>, durationLimit: int, randomize: bool,
                          shuffle: seq<PexelsExample> -> seq<PexelsExample>): seq<PexelsExample> {
    var filtered := Filter(dataset, ex => WithinDuration(ex, durationLimit));
    PexelsLimit(if randomize then shuffle(filtered) else filtered, limit)
  }

  /** With `random.shuffle` a permutation, the selected examples are dataset rows
      within the duration limit, each taken at most as often as it occurs. */
  lemma PexelsSelectedFromDataset(dataset: seq<PexelsExample>, limit: Option<int>, durationLimit: int, randomize: bool,
                                  shuffle: seq<PexelsExample> -> seq<PexelsExample>)
    requires forall s {:trigger multiset(shuffle(s))} :: multiset(shuffle(s)) == multiset(s)
    ensures var selected := PexelsSelected(dataset, limit, durationLimit, randomize, shuffle);
      && multiset(selected) <= multiset(Filter(dataset, ex => WithinDuration(ex, durationLimit)))
      && |selected| <= |dataset|
      && forall ex :: ex in selected ==> ex in dataset && WithinDuration(ex, durationLimit)
  {
    var filtered := Filter(dataset, ex => WithinDuration(ex, durationLimit));
    var ordered := if randomize then shuffle(filtered) else filtered;
    PrefixOfPermutation(filtered, ordered, PexelsLimit(ordered, limit));
    forall ex | ex in PexelsLimit(ordered, limit)
      ensures ex in dataset && WithinDuration(ex, durationLimit)
    {
      assert ex in multiset(filtered);
      FilterMembers(dataset, ex => WithinDuration(ex, durationLimit), ex);
    }
  }

  /** A prefix of a reordering takes each element at most as often as the
      original holds it. */
  lemma PrefixOfPermutation<T>(original: seq<T>, ordered: seq<T>, prefix: seq<T>)
    requires multiset(ordered) == multiset(original)
    requires |prefix| <= |ordered| && prefix == ordered[..|prefix|]
    ensures multiset(prefix) <= multiset(original) && |prefix| <= |original|
  {
    assert ordered == prefix + ordered[|prefix|..];
    assert multiset(ordered) == multiset(prefix) + multiset(ordered[|prefix|..]);
    assert |ordered| == |multiset(ordered)| == |multiset(original)| == |original|;
  }

  /** With `random.shuffle` a permutation, no more examples are selected than the
      dataset holds. */
  lemma PexelsSelectedLength(dataset: seq<PexelsExample>, limit: Option<int>, durationLimit: int, randomize: bool,
                             shuffle: seq<PexelsExample> -> seq<PexelsExample>)
    requires forall s {:trigger multiset(shuffle(s))} :: multiset(shuffle(s)) == multiset(s)
    ensures |PexelsSelected(dataset, limit, durationLimit, randomize, shuffle)| <= |dataset|
  {
    PexelsSelectedFromDataset(dataset, limit, durationLimit, randomize, shuffle);
  }

  /** The arguments of one `process_pexels_video_with_semaphore` task. */
  datatype VideoTask = VideoTask(videoUrl: string, videoId: string, title: string, thumbnail: string)

  function TaskFor(ex: PexelsExample, idx: nat): VideoTask {
    VideoTask(ex.video, VideoIdOf(ex.video, idx), ex.title, ex.thumbnail)
  }

  predicate NoUrl(ex: PexelsExample) { ex.video == "" }

  /** The example at position `idx` has a URL and its video is in the cache. */
  predicate Known(ex: PexelsExample, idx: nat, existing: set<string>) {
    ex.video != "" && PexelsId(VideoIdOf(ex.video, idx)) in existing
  }

  /** The tasks created for `examples` against the cache `existing`, in order. */
  function PexelsTasks(examples: seq<PexelsExample>, existing: set<string>): seq<VideoTask> {
    if examples == [] then []
    else
      var i := |examples| - 1;
      PexelsTasks(examples[..i], existing)
        + (if examples[i].video != "" && !Known(examples[i], i, existing) then [TaskFor(examples[i], i)] else [])
  }

  /** How many examples are skipped because their video is in the cache. */
  function CountKnown(examples: seq<PexelsExample>, existing: set<string>): nat {
    if examples == [] then 0
    else
      var i := |examples| - 1;
      CountKnown(examples[..i], existing) + (if Known(examples[i], i, existing) then 1 else 0)
  }

  /** Every example is skipped for lack of a URL, skipped as already stored, or
      becomes a task; and every task is for a video with a URL that is not stored. */
  lemma {:induction false} PartitionExamples(examples: seq<PexelsExample>, existing: set<string>)
    ensures Count(examples, NoUrl) + CountKnown(examples, existing) + |PexelsTasks(examples, existing)| == |examples|
    ensures forall t :: t in PexelsTasks(examples, existing) ==> t.videoUrl != "" && PexelsId(t.videoId) !in existing
  {
    if examples != [] {
      PartitionExamples(examples[..|examples| - 1], existing);
    }
  }

  /** The outcome of one video task against the cache it meets: a cached video is
      skipped; otherwise the task succeeds exactly when the retries obtain an
      embedding and the insert goes through. */
  function VideoResult(task: VideoTask, cache: set<string>, replies: nat -> EmbedReply, insertOk: bool): Totals {
    CacheResult(PexelsId(task.videoId), cache, EmbeddingObtained(replies, MaxRetries) && insertOk)
  }

  /** The ids the tasks' rows are stored under, in task order. */
  function VideoKeys(tasks: seq<VideoTask>): (keys: seq<string>)
    ensures |keys| == |tasks|
    ensures forall i :: 0 <= i < |tasks| ==> keys[i] == PexelsId(tasks[i].videoId)
  {
    seq(|tasks|, i requires 0 <= i < |tasks| => PexelsId(tasks[i].videoId))
  }

  /** Whether task `i` would store its row once it is not cached. */
  function VideoSuccesses(n: nat, replies: nat -> nat -> EmbedReply, insertOk: nat -> bool): (ok: seq<bool>)
    ensures |ok| == n
    ensures forall i :: 0 <= i < n ==> ok[i] == (EmbeddingObtained(replies(i), MaxRetries) && insertOk(i))
  {
    seq(n, i requires 0 <= i < n => EmbeddingObtained(replies(i), MaxRetries) && insertOk(i))
  }

  /** The tasks run in order, each meeting the cache the earlier ones left. */
  function RunVideoTasks(tasks: seq<VideoTask>, cache: set<string>, replies: nat -> nat -> EmbedReply,
                         insertOk: nat -> bool): TaskRun
  {
    RunCached(VideoKeys(tasks), VideoSuccesses(|tasks|, replies, insertOk), cache)
  }

  /** Task `i` meets the cache as it stood before the run plus the ids of the
      earlier tasks that succeeded, and its result is the one-task rule against
      that cache. */
  lemma RunVideoTasksPositions(tasks: seq<VideoTask>, cache: set<string>, replies: nat -> nat -> EmbedReply,
                               insertOk: nat -> bool)
    ensures var run := RunVideoTasks(tasks, cache, replies, insertOk);
      forall i :: 0 <= i < |tasks| ==>
        run.results[i] == VideoResult(tasks[i], cache + SucceededKeys(VideoKeys(tasks)[..i], run.results[..i]),
                                      replies(i), insertOk(i))
  {
    RunCachedPositions(VideoKeys(tasks), VideoSuccesses(|tasks|, replies, insertOk), cache);
  }

  /** What `ingest_pexels_dataset` reports for the selected examples against the
      cache it starts from: the examples skipped while building tasks, plus the
      results of the tasks run in order. */
  function DatasetTotals(selected: seq<PexelsExample>, cache: set<string>, replies: nat -> nat -> EmbedReply,
                         insertOk: nat -> bool): Totals
  {
    Plus(Totals(0, 0, Count(selected, NoUrl) + CountKnown(selected, cache)),
         SumTotals(RunVideoTasks(PexelsTasks(selected, cache), cache, replies, insertOk).results))
  }

  /** Every selected example is counted exactly once; only tasks succeed or fail;
      and the cache grows by exactly one new id per success. */
  lemma DatasetTotalsCounts(selected: seq<PexelsExample>, cache: set<string>, replies: nat -> nat -> EmbedReply,
                            insertOk: nat -> bool)
    ensures var t := DatasetTotals(selected, cache, replies, insertOk);
      var run := RunVideoTasks(PexelsTasks(selected, cache), cache, replies, insertOk);
      && Total(t) == |selected|
      && t.success + t.failed <= |PexelsTasks(selected, cache)|
      && t.skipped >= Count(selected, NoUrl) + CountKnown(selected, cache)
      && 0 <= t.success && 0 <= t.failed
      && cache <= run.cache && |run.cache| == |cache| + t.success
  {
    var tasks := PexelsTasks(selected, cache);
    var keys, succeeds := VideoKeys(tasks), VideoSuccesses(|tasks|, replies, insertOk);
    PartitionExamples(selected, cache);
    RunCachedUnits(keys, succeeds, cache);
    RunCachedSize(keys, succeeds, cache);
    SumOfUnits(RunCached(keys, succeeds, cache).results);
  }

  class PexelsPipeline {
    /** The stored ids known to this run (`existing_video_ids`). */
    var existingVideoIds: set<string>
    /** Consecutive 429 replies to HEAD requests (`consecutive_429s`). */
    var consecutive429s: nat

    constructor ()
      ensures existingVideoIds == {} && consecutive429s == 0
    {
      existingVideoIds := {};
      consecutive429s := 0;
    }

    /** `load_existing_video_ids`, given the ids the table query returned, or
        `None` when the query raised (the cache is then emptied). */
    method LoadExistingVideoIds(loaded: Option<seq<string>>)
      modifies this
      ensures loaded.None? ==> existingVideoIds == {}
      ensures loaded.Some? ==> existingVideoIds == old(existingVideoIds) + set id | id in loaded.value
      ensures consecutive429s == old(consecutive429s)
    {
      if loaded.None? {
        existingVideoIds := {};
        return;
      }
      var ids := loaded.value;
      var i := 0;
      while i < |ids|
        invariant 0 <= i <= |ids|
        invariant existingVideoIds == old(existingVideoIds) + set id | id in ids[..i]
        invariant consecutive429s == old(consecutive429s)
      {
        assert forall id :: id in ids[..i + 1] <==> id in ids[..i] || id == ids[i];
        existingVideoIds := existingVideoIds + {ids[i]};
        i := i + 1;
      }
      assert ids[..i] == ids;
    }

    /** `is_video_processed`: the video's id is in the cache. */
    predicate IsVideoProcessed(videoId: string): (b: bool)
      reads this
      ensures b <==> videoId in StoredUnder(PexelsPrefix, existingVideoIds)
    {
      StoredUnderMember(PexelsPrefix, existingVideoIds, videoId);
      PexelsId(videoId) in existingVideoIds
    }

    /** `check_video_url_accessibility`, given what the HEAD request came back
        with. A 429 bumps the counter and fails; any other reply resets it, and
        passes when it is a 200 whose content type mentions `video` or
        `octet-stream`; a failed request fails and leaves the counter alone. */
    method CheckVideoUrlAccessibility(head: HeadReply) returns (accessible: bool)
      modifies this
      ensures head.HeadResponse? && head.status == 429 ==> consecutive429s == old(consecutive429s) + 1 && !accessible
      ensures head.HeadResponse? && head.status != 429 ==> consecutive429s == 0
      ensures head.HeadRaised? ==> consecutive429s == old(consecutive429s) && !accessible
      ensures accessible <==>
        head.HeadResponse? && head.status == 200
        && (Contains(head.contentType, "video") || Contains(head.contentType, "octet-stream"))
      ensures existingVideoIds == old(existingVideoIds)
    {
      match head {
        case HeadRaised =>
          return false;
        case HeadResponse(status, contentType) =>
          if status == 429 {
            consecutive429s := consecutive429s + 1;
            return false;
          }
          consecutive429s := 0;
          if status == 200 && (Contains(contentType, "video") || Contains(contentType, "octet-stream")) {
            return true;
          }
          return false;
      }
    }

    /** `process_pexels_video_with_semaphore`: one counter is 1. A video already in
        the cache is skipped without any request; otherwise it succeeds exactly
        when the retries obtain an embedding and the insert succeeds, and only then
        is its id added to the cache. */
    method ProcessVideo(task: VideoTask, replies: nat -> EmbedReply, insertOk: bool)
      returns (result: Totals, requests: seq<EmbedRequest>, stored: Option<EmbeddingRecord>)
      modifies this
      ensures result == VideoResult(task, old(existingVideoIds), replies, insertOk)
      ensures IsUnit(result)
      ensures old(IsVideoProcessed(task.videoId)) ==> result == Totals(0, 0, 1) && requests == []
      ensures !old(IsVideoProcessed(task.videoId)) ==> result.skipped == 0 && 1 <= |requests| <= MaxRetries
      ensures forall k :: 0 <= k < |requests| ==>
        requests[k] == EmbedRequest(VideoRef(task.videoUrl), task.title, MaxPixels)
      ensures !old(IsVideoProcessed(task.videoId)) ==>
        (result.success == 1 <==> EmbeddingObtained(replies, MaxRetries) && insertOk)
      ensures result.success == 1 <==> stored.Some?
      ensures stored.Some? ==>
        && stored.value.id == PexelsId(task.videoId)
        && stored.value.text == task.title
        && stored.value.imageUrl == task.thumbnail
        && stored.value.videoUrl == task.videoUrl
        && 0 < |requests| && Delivered(replies(|requests| - 1))
        && stored.value.embedding == replies(|requests| - 1).embedding.value
        && PexelsId(task.videoId) !in old(existingVideoIds)
      ensures existingVideoIds == old(existingVideoIds) + (if stored.Some? then {PexelsId(task.videoId)} else {})
      ensures consecutive429s == old(consecutive429s)
    {
      if IsVideoProcessed(task.videoId) {
        return Totals(0, 0, 1), [], None;
      }
      result, stored := Totals(0, 0, 0), None;
      var embeddingData, waits;
      embeddingData, requests, waits := GenerateEmbeddingWithRetry(task.videoUrl, task.title, MaxRetries, replies);
      if embeddingData.Some? {
        var record := EmbeddingRecord(PexelsId(task.videoId), embeddingData.value.embedding, task.title,
                                      task.thumbnail, task.videoUrl);
        if insertOk {
          result := result.(success := result.success + 1);
          existingVideoIds := existingVideoIds + {PexelsId(task.videoId)};
          stored := Some(record);
        } else {
          result := result.(failed := result.failed + 1);
        }
      } else {
        result := result.(failed := result.failed + 1);
      }
    }

    /** The task-building loop: for each example, in order, no URL is counted
        first, then a cached video, and any other example becomes a task. */
    method BuildTasks(examples: seq<PexelsExample>)
      returns (tasks: seq<VideoTask>, skippedNoUrl: nat, skippedExisting: nat)
      ensures tasks == PexelsTasks(examples, existingVideoIds)
      ensures skippedNoUrl == Count(examples, NoUrl)
      ensures skippedExisting == CountKnown(examples, existingVideoIds)
      ensures skippedNoUrl + skippedExisting + |tasks| == |examples|
      ensures forall t :: t in tasks ==> t.videoUrl != "" && !IsVideoProcessed(t.videoId)
    {
      tasks, skippedNoUrl, skippedExisting := [], 0, 0;
      var idx := 0;
      while idx < |examples|
        invariant 0 <= idx <= |examples|
        invariant tasks == PexelsTasks(examples[..idx], existingVideoIds)
        invariant skippedNoUrl == Count(examples[..idx], NoUrl)
        invariant skippedExisting == CountKnown(examples[..idx], existingVideoIds)
      {
        assert examples[..idx + 1][..idx] == examples[..idx];
        var example := examples[idx];
        var videoId := VideoIdOf(example.video, idx);
        idx := idx + 1;
        if example.video == "" {
          skippedNoUrl := skippedNoUrl + 1;
          continue;
        }
        if IsVideoProcessed(videoId) {
          skippedExisting := skippedExisting + 1;
          continue;
        }
        tasks := tasks + [VideoTask(example.video, videoId, example.title, example.thumbnail)];
      }
      assert examples[..idx] == examples;
      PartitionExamples(examples, existingVideoIds);
    }

    /** The tasks run one after the other (the model of `asyncio.as_completed` over
        `process_video_with_semaphore`): task `i` gets `replies(i)` and
        `insertOk(i)` and meets the cache the tasks before it left. Each yields
        one unit result, and the cache grows by exactly the ids of the tasks that
        succeeded. */
    method ProcessTasks(tasks: seq<VideoTask>, replies: nat -> nat -> EmbedReply, insertOk: nat -> bool)
      returns (results: seq<Totals>)
      modifies this
      ensures var run := RunVideoTasks(tasks, old(existingVideoIds), replies, insertOk);
        results == run.results && existingVideoIds == run.cache
      ensures |results| == |tasks|
      ensures AllUnits(results)
      ensures existingVideoIds == old(existingVideoIds) + SucceededKeys(VideoKeys(tasks), results)
      ensures old(existingVideoIds) <= existingVideoIds
      ensures |existingVideoIds| == |old(existingVideoIds)| + SumTotals(results).success
      ensures consecutive429s == old(consecutive429s)
    {
      ghost var keys, succeeds := VideoKeys(tasks), VideoSuccesses(|tasks|, replies, insertOk);
      results := [];
      var i := 0;
      while i < |tasks|
        invariant 0 <= i <= |tasks|
        invariant var run := RunCached(keys[..i], succeeds[..i], old(existingVideoIds));
          results == run.results && existingVideoIds == run.cache
        invariant consecutive429s == old(consecutive429s)
      {
        assert keys[..i + 1][..i] == keys[..i] && succeeds[..i + 1][..i] == succeeds[..i];
        var result, requests, stored := ProcessVideo(tasks[i], replies(i), insertOk(i));
        results := results + [result];
        i := i + 1;
      }
      assert keys[..i] == keys && succeeds[..i] == succeeds;
      RunCachedUnits(keys, succeeds, old(existingVideoIds));
      RunCachedCache(keys, succeeds, old(existingVideoIds));
      RunCachedSize(keys, succeeds, old(existingVideoIds));
    }

    /** `ingest_pexels_dataset`, with `shuffle` standing for `random.shuffle`. The
        total is the examples skipped while building tasks plus the sum of the
        task results, and the cache ends as the tasks left it; so every selected
        example is counted exactly once, and the cache grows by exactly one new id
        per success. */
    method IngestPexelsDataset(dataset: seq<PexelsExample>, limit: Option<int>, durationLimit: int, randomize: bool,
                               shuffle: seq<PexelsExample> -> seq<PexelsExample>,
                               replies: nat -> nat -> EmbedReply, insertOk: nat -> bool)
      returns (total: Totals)
      requires forall s {:trigger multiset(shuffle(s))} :: multiset(shuffle(s)) == multiset(s)
      modifies this
      ensures var selected := PexelsSelected(dataset, limit, durationLimit, randomize, shuffle);
        && total == DatasetTotals(selected, old(existingVideoIds), replies, insertOk)
        && existingVideoIds == RunVideoTasks(PexelsTasks(selected, old(existingVideoIds)), old(existingVideoIds),
                                             replies, insertOk).cache
      ensures Total(total) <= |dataset|
      ensures var selected := PexelsSelected(dataset, limit, durationLimit, randomize, shuffle);
        && Total(total) == |selected|
        && total.success + total.failed <= |PexelsTasks(selected, old(existingVideoIds))|
        && total.skipped >= Count(selected, NoUrl) + CountKnown(selected, old(existingVideoIds))
      ensures 0 <= total.success && 0 <= total.failed
      ensures old(existingVideoIds) <= existingVideoIds
      ensures |existingVideoIds| == |old(existingVideoIds)| + total.success
      ensures consecutive429s == old(consecutive429s)
    {
      var filtered := PexelsSelected(dataset, limit, durationLimit, randomize, shuffle);
      ghost var cache, selected := existingVideoIds, filtered;
      PexelsSelectedLength(dataset, limit, durationLimit, randomize, shuffle);
      DatasetTotalsCounts(selected, cache, replies, insertOk);
      var tasks, skippedNoUrl, skippedExisting := BuildTasks(filtered);
      ghost var skipped := Totals(0, 0, Count(selected, NoUrl) + CountKnown(selected, cache));
      ghost var run := RunVideoTasks(tasks, cache, replies, insertOk);
      if |tasks| == 0 {
        // no task: the skipped examples are the whole report
        assert run == TaskRun([], cache);
        total := Totals(0, 0, skippedExisting + skippedNoUrl);
        assert total == DatasetTotals(selected, cache, replies, insertOk) by {
          assert SumTotals(run.results) == NoTotals;
          assert total.skipped == skipped.skipped;
        }
      } else {
        var results := ProcessTasks(tasks, replies, insertOk);
        total := Aggregate(skippedNoUrl + skippedExisting, results);
        assert total == DatasetTotals(selected, cache, replies, insertOk) by {
          assert results == run.results;
          assert total.skipped == skipped.skipped + SumTotals(results).skipped;
        }
      }
    }
  }
}
