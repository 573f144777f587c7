/** `process_batch`, which is the same in `ingest_media.py` and `ingest_videos.py`:
    the items are processed in consecutive chunks of `batch_size`; each item's
    outcome bumps one counter; the records a chunk produced are inserted into the
    table together, and when that insert raises they are moved from `success` to
    `failed`.

    The per-item embedding calls of a chunk run under `asyncio.gather`, which
    returns their outcomes in item order; the model takes those outcomes as its
    input. The table insert of the chunk with index `c` succeeds when
    `insertOk(c)`. */
module Batch {
  import opened Common
  import opened Records

  /** The records of the produced outcomes, in order. */
  function ProducedRecords<R>(outs: seq<ItemOutcome<R>>): seq<R> {
    if outs == [] then []
    else
      var last := outs[|outs| - 1];
      ProducedRecords(outs[..|outs| - 1]) + (if last.Produced? then [last.record] else [])
  }

  /** How many items raised. */
  function CountRaised<R>(outs: seq<ItemOutcome<R>>): nat {
    if outs == [] then 0
    else CountRaised(outs[..|outs| - 1]) + (if outs[|outs| - 1].Raised? then 1 else 0)
  }

  /** How many items came back as `None`. */
  function CountNothing<R>(outs: seq<ItemOutcome<R>>): nat {
    if outs == [] then 0
    else CountNothing(outs[..|outs| - 1]) + (if outs[|outs| - 1].Nothing? then 1 else 0)
  }

  /** Every outcome is raised, nothing or produced. */
  lemma {:induction false} OutcomeKinds<R>(outs: seq<ItemOutcome<R>>)
    ensures CountRaised(outs) + CountNothing(outs) + |ProducedRecords(outs)| == |outs|
  {
    if outs != [] {
      OutcomeKinds(outs[..|outs| - 1]);
    }
  }

  lemma {:induction false} OutcomesConcat<R>(a: seq<ItemOutcome<R>>, b: seq<ItemOutcome<R>>)
    ensures ProducedRecords(a + b) == ProducedRecords(a) + ProducedRecords(b)
    ensures CountRaised(a + b) == CountRaised(a) + CountRaised(b)
    ensures CountNothing(a + b) == CountNothing(a) + CountNothing(b)
  {
    if b == [] {
      assert a + b == a;
    } else {
      assert (a + b)[..|a + b| - 1] == a + b[..|b| - 1];
      OutcomesConcat(a, b[..|b| - 1]);
    }
  }

  /** Every produced record comes from a `Produced` outcome. */
  lemma {:induction false} ProducedMember<R>(outs: seq<ItemOutcome<R>>, rec: R)
    requires rec in ProducedRecords(outs)
    ensures exists i :: 0 <= i < |outs| && outs[i] == Produced(rec)
  {
    var last := |outs| - 1;
    if rec in ProducedRecords(outs[..last]) {
      ProducedMember(outs[..last], rec);
      var i :| 0 <= i < last && outs[..last][i] == Produced(rec);
      assert outs[i] == Produced(rec);
    } else {
      assert outs[last] == Produced(rec);
    }
  }

  /** Extending a prefix by one outcome adds that outcome to its own kind. */
  lemma OutcomesStep<R>(outs: seq<ItemOutcome<R>>, j: nat)
    requires j < |outs|
    ensures ProducedRecords(outs[..j + 1]) ==
      ProducedRecords(outs[..j]) + (if outs[j].Produced? then [outs[j].record] else [])
    ensures CountRaised(outs[..j + 1]) == CountRaised(outs[..j]) + (if outs[j].Raised? then 1 else 0)
    ensures CountNothing(outs[..j + 1]) == CountNothing(outs[..j]) + (if outs[j].Nothing? then 1 else 0)
  {
    assert outs[..j + 1][..j] == outs[..j];
  }

  /** Without raised outcomes nothing is counted as raised. */
  lemma {:induction false} NoRaisedCounted<R>(outs: seq<ItemOutcome<R>>)
    requires forall i :: 0 <= i < |outs| ==> !outs[i].Raised?
    ensures CountRaised(outs) == 0
  {
    if outs != [] {
      NoRaisedCounted(outs[..|outs| - 1]);
    }
  }

  /** The counters and the inserted rows of a run of `process_batch`. */
  datatype BatchResult<R> = BatchResult(totals: Totals, inserted: seq<R>)

  function Combine<R>(a: BatchResult<R>, b: BatchResult<R>): BatchResult<R> {
    BatchResult(Plus(a.totals, b.totals), a.inserted + b.inserted)
  }

  lemma CombineAssociative<R>(a: BatchResult<R>, b: BatchResult<R>, c: BatchResult<R>)
    ensures Combine(Combine(a, b), c) == Combine(a, Combine(b, c))
  {
    assert (a.inserted + b.inserted) + c.inserted == a.inserted + (b.inserted + c.inserted);
  }

  /** One chunk: its records are counted as successes and inserted together; if
      that insert fails they count as failures instead and nothing is inserted. */
  function ChunkEffect<R>(chunk: seq<ItemOutcome<R>>, insertOk: bool): BatchResult<R> {
    var pending := ProducedRecords(chunk);
    if pending != [] && !insertOk then
      BatchResult(Totals(0, CountRaised(chunk) + |pending|, CountNothing(chunk)), [])
    else
      BatchResult(Totals(|pending|, CountRaised(chunk), CountNothing(chunk)), pending)
  }

  /** The chunks `outs[0:bs]`, `outs[bs:2bs]`, ... processed one after the other,
      the first of them having chunk index `chunk`. */
  function BatchSpec<R>(outs: seq<ItemOutcome<R>>, bs: nat, insertOk: nat -> bool, chunk: nat): BatchResult<R>
    requires bs > 0
    decreases |outs|
  {
    if outs == [] then BatchResult(NoTotals, [])
    else
      var n := Min(bs, |outs|);
      Combine(ChunkEffect(outs[..n], insertOk(chunk)), BatchSpec(outs[n..], bs, insertOk, chunk + 1))
  }

  /** One chunk: the skipped items are its `None` outcomes, the successes its
      inserted rows, and a failed insert only moves its records from `success` to
      `failed`. */
  lemma ChunkEffectAccounts<R>(chunk: seq<ItemOutcome<R>>, insertOk: bool)
    ensures var r := ChunkEffect(chunk, insertOk);
      && r.totals.skipped == CountNothing(chunk)
      && r.totals.success == |r.inserted| <= |ProducedRecords(chunk)|
      && r.totals.success + r.totals.failed == CountRaised(chunk) + |ProducedRecords(chunk)|
      && 0 <= r.totals.failed
  {
  }

  /** Cutting the outcomes at `n` cuts each of the three kinds at `n`. */
  lemma OutcomesSplit<R>(outs: seq<ItemOutcome<R>>, n: nat)
    requires n <= |outs|
    ensures ProducedRecords(outs) == ProducedRecords(outs[..n]) + ProducedRecords(outs[n..])
    ensures CountRaised(outs) == CountRaised(outs[..n]) + CountRaised(outs[n..])
    ensures CountNothing(outs) == CountNothing(outs[..n]) + CountNothing(outs[n..])
  {
    assert outs == outs[..n] + outs[n..];
    OutcomesConcat(outs[..n], outs[n..]);
  }

  /** The skipped items are exactly the `None` outcomes; the successes are exactly
      the inserted rows, of which there are at most as many as produced records;
      and a failed insert only moves records from `success` to `failed`, so
      `success + failed` is the raised items plus the produced records. */
  lemma {:induction false} BatchSpecAccounts<R>(outs: seq<ItemOutcome<R>>, bs: nat, insertOk: nat -> bool, chunk: nat)
    requires bs > 0
    ensures var r := BatchSpec(outs, bs, insertOk, chunk);
      && r.totals.skipped == CountNothing(outs)
      && r.totals.success == |r.inserted| <= |ProducedRecords(outs)|
      && r.totals.success + r.totals.failed == CountRaised(outs) + |ProducedRecords(outs)|
      && 0 <= r.totals.failed
    decreases |outs|
  {
    if outs != [] {
      var n := Min(bs, |outs|);
      BatchSpecAccounts(outs[n..], bs, insertOk, chunk + 1);
      ChunkEffectAccounts(outs[..n], insertOk(chunk));
      OutcomesSplit(outs, n);
    }
  }

  /** Only produced records are ever inserted. */
  lemma {:induction false} BatchSpecInsertedProduced<R>(outs: seq<ItemOutcome<R>>, bs: nat, insertOk: nat -> bool, chunk: nat, rec: R)
    requires bs > 0
    requires rec in BatchSpec(outs, bs, insertOk, chunk).inserted
    ensures rec in ProducedRecords(outs)
    decreases |outs|
  {
    var n := Min(bs, |outs|);
    OutcomesSplit(outs, n);
    if rec !in ChunkEffect(outs[..n], insertOk(chunk)).inserted {
      BatchSpecInsertedProduced(outs[n..], bs, insertOk, chunk + 1, rec);
    }
  }

  /** A single raised item is one failure, a single `None` one skip. */
  lemma SingleOutcome<R>(out: ItemOutcome<R>, bs: nat, insertOk: nat -> bool)
    requires bs > 0 && !out.Produced?
    ensures BatchSpec([out], bs, insertOk, 0).totals == if out.Raised? then Totals(0, 1, 0) else Totals(0, 0, 1)
  {
    var outs := [out];
    assert outs[..Min(bs, 1)] == outs && outs[Min(bs, 1)..] == [];
    assert outs[..0] == [];
    assert ProducedRecords(outs) == [];
    assert CountRaised(outs) == (if out.Raised? then 1 else 0);
    assert CountNothing(outs) == (if out.Nothing? then 1 else 0);
    assert BatchSpec(outs, bs, insertOk, 0) == Combine(ChunkEffect(outs, insertOk(0)), BatchSpec([], bs, insertOk, 1));
  }

  /** The chunks that start at offset `i`: the first one, then those after it. */
  lemma BatchSpecStep<R>(outs: seq<ItemOutcome<R>>, i: nat, bs: nat, insertOk: nat -> bool, chunk: nat)
    requires bs > 0 && i < |outs|
    ensures var end := Min(i + bs, |outs|);
      BatchSpec(outs[i..], bs, insertOk, chunk)
      == Combine(ChunkEffect(outs[i..end], insertOk(chunk)), BatchSpec(outs[end..], bs, insertOk, chunk + 1))
  {
    var end := Min(i + bs, |outs|);
    assert outs[i..][..Min(bs, |outs[i..]|)] == outs[i..end];
    assert outs[i..][Min(bs, |outs[i..]|)..] == outs[end..];
  }

  /** Conservation: every item is counted exactly once. */
  lemma BatchSpecTotal<R>(outs: seq<ItemOutcome<R>>, bs: nat, insertOk: nat -> bool, chunk: nat)
    requires bs > 0
    ensures Total(BatchSpec(outs, bs, insertOk, chunk).totals) == |outs|
  {
    BatchSpecAccounts(outs, bs, insertOk, chunk);
    OutcomeKinds(outs);
  }

  /** When every insert succeeds, every produced record is inserted, in item order,
      and the only failures are the items whose processing raised. */
  lemma {:induction false} BatchSpecAllInserted<R>(outs: seq<ItemOutcome<R>>, bs: nat, insertOk: nat -> bool, chunk: nat)
    requires bs > 0
    requires forall c :: insertOk(c)
    ensures BatchSpec(outs, bs, insertOk, chunk).inserted == ProducedRecords(outs)
    ensures BatchSpec(outs, bs, insertOk, chunk).totals.failed == CountRaised(outs)
    decreases |outs|
  {
    if outs != [] {
      var n := Min(bs, |outs|);
      BatchSpecAllInserted(outs[n..], bs, insertOk, chunk + 1);
      OutcomesSplit(outs, n);
    }
  }

  /** The loop over `zip(batch, batch_results)`: a raised item bumps `failed`, a
      `None` bumps `skipped`, and a record bumps `success` and joins the records
      waiting to be inserted. */
  method TallyChunk<R>(batch: seq<ItemOutcome<R>>, results0: Totals) returns (results: Totals, pending: seq<R>)
    ensures pending == ProducedRecords(batch)
    ensures results == Plus(results0, Totals(|pending|, CountRaised(batch), CountNothing(batch)))
  {
    results, pending := results0, [];
    var j := 0;
    while j < |batch|
      invariant 0 <= j <= |batch|
      invariant pending == ProducedRecords(batch[..j])
      invariant results == Plus(results0, Totals(|pending|, CountRaised(batch[..j]), CountNothing(batch[..j])))
    {
      OutcomesStep(batch, j);
      match batch[j] {
        case Raised =>
          results := results.(failed := results.failed + 1);
        case Nothing =>
          results := results.(skipped := results.skipped + 1);
        case Produced(record) =>
          pending := pending + [record];
          results := results.(success := results.success + 1);
      }
      j := j + 1;
    }
    assert batch[..j] == batch;
  }

  /** One iteration of `process_batch`'s outer loop: the chunk's outcomes are
      tallied, then its records are inserted together, or moved from `success`
      to `failed` when the insert raises. */
  method ProcessChunk<R>(batch: seq<ItemOutcome<R>>, insertOk: bool, results0: Totals, inserted0: seq<R>)
    returns (results: Totals, inserted: seq<R>)
    ensures BatchResult(results, inserted) == Combine(BatchResult(results0, inserted0), ChunkEffect(batch, insertOk))
  {
    var pending;
    results, pending := TallyChunk(batch, results0);
    inserted := inserted0;
    if pending != [] {
      if insertOk {
        inserted := inserted + pending;
      } else {
        results := results.(failed := results.failed + |pending|, success := results.success - |pending|);
      }
    }
  }

  /** `process_batch(items, batch_size)`, given the outcome of every item's
      `generate_embedding` call. A zero `batch_size` makes `range` raise
      `ValueError` before any item is touched (`raised`); a negative one makes
      `range` empty, so nothing is processed. */
  method ProcessBatch<R>(outcomes: seq<ItemOutcome<R>>, batchSize: int, insertOk: nat -> bool)
    returns (raised: bool, results: Totals, inserted: seq<R>)
    ensures raised <==> batchSize == 0
    ensures batchSize <= 0 ==> results == NoTotals && inserted == []
    ensures batchSize > 0 ==> BatchResult(results, inserted) == BatchSpec(outcomes, batchSize, insertOk, 0)
    ensures batchSize > 0 ==> Total(results) == |outcomes|
    ensures batchSize > 0 ==> results.skipped == CountNothing(outcomes)
    ensures batchSize > 0 ==> results.success + results.failed == CountRaised(outcomes) + |ProducedRecords(outcomes)|
    ensures results.success == |inserted| && 0 <= results.failed
  {
    raised, results, inserted := batchSize == 0, NoTotals, [];
    if batchSize <= 0 {
      return;
    }
    var i, chunk := 0, 0;
    while i < |outcomes|
      invariant 0 <= i <= |outcomes|
      invariant Combine(BatchResult(results, inserted), BatchSpec(outcomes[i..], batchSize, insertOk, chunk))
             == BatchSpec(outcomes, batchSize, insertOk, 0)
    {
      var end := Min(i + batchSize, |outcomes|);
      var batch := outcomes[i..end];
      ghost var before, insertedBefore := results, inserted;
      results, inserted := ProcessChunk(batch, insertOk(chunk), results, inserted);
      BatchSpecStep(outcomes, i, batchSize, insertOk, chunk);
      CombineAssociative(BatchResult(before, insertedBefore), ChunkEffect(batch, insertOk(chunk)),
        BatchSpec(outcomes[end..], batchSize, insertOk, chunk + 1));
      i, chunk := end, chunk + 1;
    }
    assert outcomes[i..] == [];
    BatchSpecAccounts(outcomes, batchSize, insertOk, 0);
    BatchSpecTotal(outcomes, batchSize, insertOk, 0);
  }
}
