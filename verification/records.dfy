/** What the ingestion scripts send to and receive from the two remote services,
    the rows they write to the `embeddings` table, and the
    `{"success", "failed", "skipped"}` counters they report. */
module Records {
  import opened Common

  /** An embedding vector; only its length is ever inspected. */
  type Vector = seq<real>

  /** Width of the table's `embedding` column (VLM2Vec-Qwen2VL-2B). */
  const EmbeddingDimension: nat := 1536

  /** `max_pixels` sent with every embedding request. */
  const MaxPixels: nat := 360 * 420

  /** Which media field the request to `/embed` carries. */
  datatype MediaRef = ImageRef(url: string) | VideoRef(url: string)

  /** The JSON body posted to `/embed` (the `fps` float is not modelled). */
  datatype EmbedRequest = EmbedRequest(media: MediaRef, text: string, maxPixels: nat)

  /** What a POST to `/embed` came back with: the status, the body text and the
      `embedding` member of the decoded JSON body (`None` when decoding or the
      lookup would raise), or an exception from the HTTP client. */
  datatype EmbedReply =
    | Reply(status: int, body: string, embedding: Option<Vector>)
    | ReplyRaised

  /** A 200 reply whose body holds an embedding. */
  predicate Delivered(reply: EmbedReply) {
    reply.Reply? && reply.status == 200 && reply.embedding.Some?
  }

  /** What a HEAD request came back with: status and `content-type` header
      (`""` when absent), or an exception. */
  datatype HeadReply = HeadResponse(status: int, contentType: string) | HeadRaised

  /** One row of the `embeddings` table (`createdAt` is not modelled). */
  datatype EmbeddingRecord =
    EmbeddingRecord(id: string, embedding: Vector, text: string, imageUrl: string, videoUrl: string)

  /** What `asyncio.gather(..., return_exceptions=True)` yields for one item. */
  datatype ItemOutcome<R> = Raised | Nothing | Produced(record: R)

  /** The counters dictionary `{"success": .., "failed": .., "skipped": ..}`. */
  datatype Totals = Totals(success: int, failed: int, skipped: int)

  const NoTotals := Totals(0, 0, 0)

  function Plus(a: Totals, b: Totals): Totals {
    Totals(a.success + b.success, a.failed + b.failed, a.skipped + b.skipped)
  }

  function Total(t: Totals): int { t.success + t.failed + t.skipped }

  /** A per-task result: exactly one counter is 1, the others 0. */
  predicate IsUnit(t: Totals) {
    t in {Totals(1, 0, 0), Totals(0, 1, 0), Totals(0, 0, 1)}
  }

  /** Every per-task result is a unit. */
  predicate AllUnits(results: seq<Totals>) {
    forall i :: 0 <= i < |results| ==> IsUnit(results[i])
  }

  lemma AllUnitsSnoc(results: seq<Totals>, r: Totals)
    requires AllUnits(results) && IsUnit(r)
    ensures AllUnits(results + [r])
  {
  }

  /** Counter-wise sum of per-task results. */
  function SumTotals(results: seq<Totals>): Totals {
    if results == [] then NoTotals
    else Plus(SumTotals(results[..|results| - 1]), results[|results| - 1])
  }

  lemma {:induction false} SumTotalsConcat(a: seq<Totals>, b: seq<Totals>)
    ensures SumTotals(a + b) == Plus(SumTotals(a), SumTotals(b))
  {
    if b == [] {
      assert a + b == a;
    } else {
      assert (a + b)[..|a + b| - 1] == a + b[..|b| - 1];
      SumTotalsConcat(a, b[..|b| - 1]);
    }
  }

  /** Appending one result adds exactly its counters to the sum. */
  lemma SumTotalsSnoc(results: seq<Totals>, r: Totals)
    ensures SumTotals(results + [r]) == Plus(SumTotals(results), r)
  {
    assert (results + [r])[..|results|] == results;
  }

  /** When every per-task result is a unit, the summed counters account for each
      task exactly once. */
  lemma {:induction false} SumOfUnits(results: seq<Totals>)
    requires AllUnits(results)
    ensures Total(SumTotals(results)) == |results|
    ensures 0 <= SumTotals(results).success && 0 <= SumTotals(results).failed
    ensures 0 <= SumTotals(results).skipped
  {
    if results != [] {
      SumOfUnits(results[..|results| - 1]);
    }
  }

  /** Taking one result out of the list takes exactly its counters out of the sum. */
  lemma {:induction false} SumTotalsRemove(b: seq<Totals>, j: nat)
    requires j < |b|
    ensures SumTotals(b) == Plus(SumTotals(b[..j] + b[j + 1..]), b[j])
  {
    var p, x, q := b[..j], b[j], b[j + 1..];
    var px := p + [x];
    assert b == px + q;
    assert px[..|px| - 1] == p;
    assert SumTotals(px) == Plus(SumTotals(p), x);
    SumTotalsConcat(px, q);
    SumTotalsConcat(p, q);
  }

  /** The totals do not depend on the order in which `asyncio.as_completed`
      delivers the per-task results. */
  lemma {:induction false} SumTotalsPermutation(a: seq<Totals>, b: seq<Totals>)
    requires multiset(a) == multiset(b)
    ensures SumTotals(a) == SumTotals(b)
    decreases |a|
  {
    if a == [] {
      assert |b| == |multiset(b)| == 0;
    } else {
      var x := a[|a| - 1];
      var a' := a[..|a| - 1];
      assert a == a' + [x];
      assert x in multiset(b);
      var j :| 0 <= j < |b| && b[j] == x;
      var b' := b[..j] + b[j + 1..];
      MultisetRemove(b, j);
      assert multiset(a') == multiset(a) - multiset{x};
      SumTotalsPermutation(a', b');
      SumTotalsRemove(b, j);
    }
  }

  lemma {:induction false} MultisetRemove<T>(b: seq<T>, j: nat)
    requires j < |b|
    ensures multiset(b[..j] + b[j + 1..]) == multiset(b) - multiset{b[j]}
  {
    assert b == b[..j] + [b[j]] + b[j + 1..];
  }

  /** The aggregation loop: start from `{"success": 0, "failed": 0, "skipped":
      preSkipped}` and add every per-task result. */
  method Aggregate(preSkipped: int, results: seq<Totals>) returns (total: Totals)
    ensures total == Plus(Totals(0, 0, preSkipped), SumTotals(results))
    ensures AllUnits(results) ==>
              Total(total) == preSkipped + |results|
  {
    total := Totals(0, 0, preSkipped);
    var i := 0;
    while i < |results|
      invariant 0 <= i <= |results|
      invariant total == Plus(Totals(0, 0, preSkipped), SumTotals(results[..i]))
    {
      assert results[..i + 1][..i] == results[..i];
      total := Totals(total.success + results[i].success,
                      total.failed + results[i].failed,
                      total.skipped + results[i].skipped);
      i := i + 1;
    }
    assert results[..i] == results;
    if AllUnits(results) {
      SumOfUnits(results);
    }
  }

  /** The source ids whose rows a cache holds under `prefix`: every cached id that
      starts with the prefix, with the prefix taken off. */
  function StoredUnder(prefix: string, cache: set<string>): set<string> {
    set id | id in cache && |prefix| <= |id| && id[..|prefix|] == prefix :: id[|prefix|..]
  }

  /** Looking `prefix + v` up in the cache asks whether `v` is one of the source
      ids stored under `prefix`. */
  lemma StoredUnderMember(prefix: string, cache: set<string>, v: string)
    ensures v in StoredUnder(prefix, cache) <==> prefix + v in cache
  {
    var id := prefix + v;
    assert id[..|prefix|] == prefix && id[|prefix|..] == v;
    if v in StoredUnder(prefix, cache) {
      var w :| w in cache && |prefix| <= |w| && w[..|prefix|] == prefix && w[|prefix|..] == v;
      assert w == w[..|prefix|] + w[|prefix|..];
    }
  }

  /** Tasks that share a cache of stored ids: each task's result, and the cache
      after the last task. */
  datatype TaskRun = TaskRun(results: seq<Totals>, cache: set<string>)

  /** The rule both dataset pipelines apply to one task whose row is stored under
      `key`: a cached key is skipped; otherwise the task succeeds when `succeeds`
      (the embedding came back and the insert went through) and fails on every
      other path. */
  function CacheResult(key: string, cache: set<string>, succeeds: bool): (r: Totals)
    ensures IsUnit(r)
    ensures r.skipped == 1 <==> key in cache
    ensures r.success == 1 <==> key !in cache && succeeds
  {
    if key in cache then Totals(0, 0, 1) else if succeeds then Totals(1, 0, 0) else Totals(0, 1, 0)
  }

  /** The tasks with keys `keys` run one after the other from the cache `cache`;
      task `i` succeeds, unless skipped, when `succeeds[i]`, and a success adds its
      key to the cache, so a later task with the same key is skipped. */
  function RunCached(keys: seq<string>, succeeds: seq<bool>, cache: set<string>): (run: TaskRun)
    requires |keys| == |succeeds|
    ensures |run.results| == |keys|
  {
    if keys == [] then TaskRun([], cache)
    else
      var n := |keys| - 1;
      var run := RunCached(keys[..n], succeeds[..n], cache);
      var r := CacheResult(keys[n], run.cache, succeeds[n]);
      TaskRun(run.results + [r], if r.success == 1 then run.cache + {keys[n]} else run.cache)
  }

  /** The keys of the tasks whose result is a success. */
  function SucceededKeys(keys: seq<string>, results: seq<Totals>): set<string> {
    set i | 0 <= i < |keys| && i < |results| && results[i].success == 1 :: keys[i]
  }

  lemma SucceededKeysSnoc(keys: seq<string>, results: seq<Totals>, k: string, r: Totals)
    requires |keys| == |results|
    ensures SucceededKeys(keys + [k], results + [r]) == SucceededKeys(keys, results) + (if r.success == 1 then {k} else {})
  {
    var ks, rs := keys + [k], results + [r];
    forall x | x in SucceededKeys(ks, rs)
      ensures x in SucceededKeys(keys, results) + (if r.success == 1 then {k} else {})
    {
      var i :| 0 <= i < |ks| && i < |rs| && rs[i].success == 1 && ks[i] == x;
      if i < |keys| {
        assert results[i].success == 1 && keys[i] == x;
      }
    }
    forall x | x in SucceededKeys(keys, results)
      ensures x in SucceededKeys(ks, rs)
    {
      var i :| 0 <= i < |keys| && i < |results| && results[i].success == 1 && keys[i] == x;
      assert rs[i].success == 1 && ks[i] == x;
    }
    if r.success == 1 {
      assert rs[|keys|].success == 1 && ks[|keys|] == k;
    }
  }

  /** Running the tasks gives one unit result per task. */
  lemma {:induction false} RunCachedUnits(keys: seq<string>, succeeds: seq<bool>, cache: set<string>)
    requires |keys| == |succeeds|
    ensures AllUnits(RunCached(keys, succeeds, cache).results)
  {
    if keys != [] {
      var n := |keys| - 1;
      var prev := RunCached(keys[..n], succeeds[..n], cache);
      RunCachedUnits(keys[..n], succeeds[..n], cache);
      AllUnitsSnoc(prev.results, CacheResult(keys[n], prev.cache, succeeds[n]));
    }
  }

  /** The final cache is the starting one plus the keys of the successes. */
  lemma {:induction false} RunCachedCache(keys: seq<string>, succeeds: seq<bool>, cache: set<string>)
    requires |keys| == |succeeds|
    ensures var run := RunCached(keys, succeeds, cache);
      run.cache == cache + SucceededKeys(keys, run.results)
  {
    if keys != [] {
      var n := |keys| - 1;
      var prev := RunCached(keys[..n], succeeds[..n], cache);
      RunCachedCache(keys[..n], succeeds[..n], cache);
      var r := CacheResult(keys[n], prev.cache, succeeds[n]);
      assert keys[..n] + [keys[n]] == keys;
      SucceededKeysSnoc(keys[..n], prev.results, keys[n], r);
    }
  }

  /** Every success adds a key that was not cached yet, so the cache grows by
      exactly the number of successes. */
  lemma {:induction false} RunCachedSize(keys: seq<string>, succeeds: seq<bool>, cache: set<string>)
    requires |keys| == |succeeds|
    ensures var run := RunCached(keys, succeeds, cache);
      cache <= run.cache && |run.cache| == |cache| + SumTotals(run.results).success
  {
    if keys != [] {
      var n := |keys| - 1;
      var prev := RunCached(keys[..n], succeeds[..n], cache);
      RunCachedSize(keys[..n], succeeds[..n], cache);
      var r := CacheResult(keys[n], prev.cache, succeeds[n]);
      SumTotalsSnoc(prev.results, r);
      CacheStep(cache, prev.cache, RunCached(keys, succeeds, cache).cache, keys[n], r.success == 1);
    }
  }

  /** Task `i` is judged against the starting cache plus the keys stored by the
      tasks before it. */
  lemma {:induction false} RunCachedPositions(keys: seq<string>, succeeds: seq<bool>, cache: set<string>)
    requires |keys| == |succeeds|
    ensures var run := RunCached(keys, succeeds, cache);
      forall i :: 0 <= i < |keys| ==>
        run.results[i] == CacheResult(keys[i], cache + SucceededKeys(keys[..i], run.results[..i]), succeeds[i])
  {
    if keys != [] {
      var n := |keys| - 1;
      var prev := RunCached(keys[..n], succeeds[..n], cache);
      var run := RunCached(keys, succeeds, cache);
      RunCachedPositions(keys[..n], succeeds[..n], cache);
      RunCachedCache(keys[..n], succeeds[..n], cache);
      forall i | 0 <= i < |keys|
        ensures run.results[i] == CacheResult(keys[i], cache + SucceededKeys(keys[..i], run.results[..i]), succeeds[i])
      {
        assert run.results[..i] == prev.results[..i];
        assert keys[..i] == keys[..n][..i];
      }
    }
  }
}
