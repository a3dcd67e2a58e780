/** The Azure table side, as an abstract collaborator: the SDK's
    `DynamicTableEntity`, the entity snapshot a batch operation sends, and a
    table that applies `InsertOrReplace` batches and may reject any call.
    It also holds the chunked push loop both pipelines run. */
module TableStorage {
  import opened Wrappers
  import opened Values
  import opened Batching

  /** What the service stores for one entity: its two keys and its properties. */
  datatype EntityRecord = EntityRecord(partitionKey: string, rowKey: string, properties: Properties)

  type EntityKey = (string, string)

  function KeyOf(e: EntityRecord): EntityKey {
    (e.partitionKey, e.rowKey)
  }

  /** No two records name the same entity, as the service demands of one batch. */
  predicate DistinctKeys(ops: seq<EntityRecord>) {
    forall i, j :: 0 <= i < j < |ops| ==> KeyOf(ops[i]) != KeyOf(ops[j])
  }

  /** A part of a sequence of distinct records has distinct records. */
  lemma DistinctSlice(ops: seq<EntityRecord>, lo: nat, hi: nat)
    requires DistinctKeys(ops) && lo <= hi <= |ops|
    ensures DistinctKeys(ops[lo..hi])
  {
    forall i, j | 0 <= i < j < hi - lo
      ensures KeyOf(ops[lo..hi][i]) != KeyOf(ops[lo..hi][j])
    {
      assert ops[lo..hi][i] == ops[lo + i] && ops[lo..hi][j] == ops[lo + j];
    }
  }

  lemma DistinctMiddle(a: seq<EntityRecord>, b: seq<EntityRecord>, c: seq<EntityRecord>)
    requires DistinctKeys(a + (b + c))
    ensures DistinctKeys(b)
  {
    DistinctSlice(a + (b + c), |a|, |a| + |b|);
    assert (a + (b + c))[|a|..|a| + |b|] == b;
  }

  /** The groups of 100 of distinct records have distinct records each, so a
      push of records that name each entity once never sends a duplicate. */
  lemma {:induction false} ChunksDistinct(ops: seq<EntityRecord>, k: nat)
    requires DistinctKeys(ops) && k < |Chunks(ops)|
    ensures DistinctKeys(Chunks(ops)[k])
    decreases |ops|
  {
    if |ops| > MaxAzureOperations {
      var rest := ops[MaxAzureOperations..];
      assert Chunks(ops) == [ops[..MaxAzureOperations]] + Chunks(rest);
      if k == 0 {
        DistinctSlice(ops, 0, MaxAzureOperations);
        assert ops[0..MaxAzureOperations] == ops[..MaxAzureOperations];
      } else {
        DistinctSlice(ops, MaxAzureOperations, |ops|);
        assert ops[MaxAzureOperations..|ops|] == rest;
        ChunksDistinct(rest, k - 1);
      }
    }
  }

  /** The table contents after `InsertOrReplace` of each record in turn:
      a record fully replaces any entity with the same keys. */
  function UpsertAll(rows: map<EntityKey, Properties>, ops: seq<EntityRecord>): map<EntityKey, Properties>
    decreases |ops|
  {
    if ops == [] then rows
    else UpsertAll(rows, ops[..|ops| - 1])[KeyOf(ops[|ops| - 1]) := ops[|ops| - 1].properties]
  }

  /** The last record written under each key. */
  function Latest(ops: seq<EntityRecord>): map<EntityKey, Properties> {
    UpsertAll(map[], ops)
  }

  /** Upserting a sequence overlays its latest record per key onto the old contents. */
  lemma {:induction false} UpsertAllOverlay(rows: map<EntityKey, Properties>, ops: seq<EntityRecord>)
    ensures UpsertAll(rows, ops) == rows + Latest(ops)
    decreases |ops|
  {
    if ops != [] {
      var init := ops[..|ops| - 1];
      UpsertAllOverlay(rows, init);
      UpsertAllOverlay(map[], init);
    }
  }

  lemma {:induction false} UpsertAllAppend(rows: map<EntityKey, Properties>, a: seq<EntityRecord>, b: seq<EntityRecord>)
    ensures UpsertAll(rows, a + b) == UpsertAll(UpsertAll(rows, a), b)
    decreases |b|
  {
    if b == [] {
      assert a + b == a;
    } else {
      assert (a + b)[..|a + b| - 1] == a + b[..|b| - 1];
      UpsertAllAppend(rows, a, b[..|b| - 1]);
    }
  }

  /** Writing the same records a second time leaves the table as the first write left it. */
  lemma UpsertAllIdempotent(rows: map<EntityKey, Properties>, ops: seq<EntityRecord>)
    ensures UpsertAll(UpsertAll(rows, ops), ops) == UpsertAll(rows, ops)
  {
    UpsertAllOverlay(rows, ops);
    UpsertAllOverlay(UpsertAll(rows, ops), ops);
    assert rows + Latest(ops) + Latest(ops) == rows + Latest(ops);
  }

  /** Every key a record names is present afterwards, and the untouched keys keep their value. */
  lemma UpsertAllKeys(rows: map<EntityKey, Properties>, ops: seq<EntityRecord>)
    ensures UpsertAll(rows, ops).Keys == rows.Keys + set e | e in ops :: KeyOf(e)
    ensures forall k :: k in rows && (forall e :: e in ops ==> KeyOf(e) != k) ==>
      UpsertAll(rows, ops)[k] == rows[k]
  {
    UpsertAllOverlay(rows, ops);
    LatestKeys(ops);
  }

  lemma {:induction false} LatestKeys(ops: seq<EntityRecord>)
    ensures Latest(ops).Keys == set e | e in ops :: KeyOf(e)
    decreases |ops|
  {
    if ops != [] {
      var init := ops[..|ops| - 1];
      LatestKeys(init);
      assert ops == init + [ops[|ops| - 1]];
      assert (set e | e in ops :: KeyOf(e)) == (set e | e in init :: KeyOf(e)) + {KeyOf(ops[|ops| - 1])};
    }
  }

  /** The SDK's `DynamicTableEntity`: two keys, an ETag and a property bag the
      transformers update in place. */
  class DynamicTableEntity {
    var PartitionKey: string
    var RowKey: string
    var ETag: string
    var Properties: Properties

    constructor (partitionKey: string, rowKey: string, etag: string, properties: Properties)
      ensures PartitionKey == partitionKey && RowKey == rowKey && ETag == etag
      ensures Properties == properties
    {
      PartitionKey, RowKey, ETag, Properties := partitionKey, rowKey, etag, properties;
    }

    /** The entity as a batch operation serialises it. */
    function Record(): EntityRecord
      reads this
    {
      EntityRecord(PartitionKey, RowKey, Properties)
    }
  }

  function Records(es: seq<DynamicTableEntity>): (rs: seq<EntityRecord>)
    reads es
    ensures |rs| == |es| && forall i :: 0 <= i < |es| ==> rs[i] == es[i].Record()
  {
    seq(|es|, i requires 0 <= i < |es| reads es => es[i].Record())
  }

  lemma RecordsAppend(es: seq<DynamicTableEntity>, e: DynamicTableEntity)
    ensures Records(es + [e]) == Records(es) + [e.Record()]
  {
  }

  /** A table on the storage service. `calls` is the trace of every batch call
      issued; a call fails, changing nothing, when its ordinal is in `faults`. */
  class Table {
    var rows: map<EntityKey, Properties>
    var calls: seq<seq<EntityRecord>>
    const faults: set<nat>

    constructor (contents: map<EntityKey, Properties>, faults: set<nat>)
      ensures rows == contents && calls == [] && this.faults == faults
    {
      rows, calls, this.faults := contents, [], faults;
    }

    /** `ExecuteBatchAsync` of `InsertOrReplace` operations; the service
        accepts 1 to 100 operations per call, rejects a batch that names one
        entity twice, and applies a batch as a whole. */
    method ExecuteBatch(ops: seq<EntityRecord>) returns (ok: bool)
      requires 1 <= |ops| <= MaxAzureOperations
      modifies this
      ensures calls == old(calls) + [ops]
      ensures ok <==> |old(calls)| !in faults && DistinctKeys(ops)
      ensures rows == if ok then UpsertAll(old(rows), ops) else old(rows)
    {
      ok := |calls| !in faults && DistinctKeys(ops);
      calls := calls + [ops];
      if ok {
        rows := UpsertAll(rows, ops);
      }
    }
  }

  /** The loop of `PushToAzure`: buffer one operation per record, submit the
      buffer after every 100th record, and submit what remains at the end.
      A failing call ends the push; the calls before it stay applied. */
  method PushInChunks(table: Table, records: seq<EntityRecord>) returns (ok: bool)
    modifies table
    ensures ok ==> table.calls == old(table.calls) + Chunks(records)
    ensures ok ==> table.rows == UpsertAll(old(table.rows), records)
    ensures !ok ==> FailedPush(old(table.calls), old(table.rows), table.calls, table.rows, table.faults, records)
  {
    ok := true;
    var operations: seq<EntityRecord> := [];
    ghost var done := 0;
    var i := 0;
    while i < |records|
      invariant 0 <= done <= i <= |records|
      invariant done % MaxAzureOperations == 0 && i - done == i % MaxAzureOperations
      invariant operations == records[done..i]
      invariant table.calls == old(table.calls) + Chunks(records[..done])
      invariant table.rows == UpsertAll(old(table.rows), records[..done])
    {
      operations := operations + [records[i]];
      CountStep(i);
      if i % MaxAzureOperations == MaxAzureOperations - 1 {
        ok := Submit(table, operations, records, done, i + 1, old(table.calls), old(table.rows));
        if !ok {
          return;
        }
        operations := [];
        done := i + 1;
      }
      i := i + 1;
    }
    assert records[..|records|] == records;
    if operations != [] {
      ok := Submit(table, operations, records, done, |records|, old(table.calls), old(table.rows));
    } else {
      assert done == |records|;
    }
  }

  lemma CountStep(i: nat)
    ensures (i + 1) % MaxAzureOperations ==
      if i % MaxAzureOperations == MaxAzureOperations - 1 then 0 else i % MaxAzureOperations + 1
  {
  }

  /** One `ExecuteBatchAsync` of the buffered group `records[done..end]`, issued
      once the groups before it have been applied. */
  method Submit(table: Table, operations: seq<EntityRecord>,
                ghost records: seq<EntityRecord>, ghost done: nat, ghost end: nat, ghost calls0: seq<seq<EntityRecord>>, ghost rows0: map<EntityKey, Properties>)
    returns (ok: bool)
    requires done % MaxAzureOperations == 0 && done < end <= |records|
    requires end - done == MaxAzureOperations || (end == |records| && end - done < MaxAzureOperations)
    requires operations == records[done..end]
    requires table.calls == calls0 + Chunks(records[..done])
    requires table.rows == UpsertAll(rows0, records[..done])
    modifies table
    ensures ok ==> table.calls == calls0 + Chunks(records[..end])
    ensures ok ==> table.rows == UpsertAll(rows0, records[..end])
    ensures !ok ==> FailedPush(calls0, rows0, table.calls, table.rows, table.faults, records)
  {
    ok := table.ExecuteBatch(operations);
    if ok {
      assert records[..done] + operations == records[..end];
      ChunksOfShort(operations);
      ChunksAppend(records[..done], operations);
      UpsertAllAppend(rows0, records[..done], operations);
    } else {
      FailureWitness(records, done, end, calls0, table.calls, rows0, table.rows, table.faults);
    }
  }

  /** A push that failed: it issued the groups in order up to and including a
      call that was rejected, its ordinal being a fault or its group naming
      one entity twice, and only the groups before that call took effect. */
  ghost predicate FailedPush(calls0: seq<seq<EntityRecord>>, rows0: map<EntityKey, Properties>,
                             calls: seq<seq<EntityRecord>>, rows: map<EntityKey, Properties>,
                             faults: set<nat>, records: seq<EntityRecord>)
  {
    exists k ::
      && 0 <= k < |Chunks(records)|
      && calls == calls0 + Chunks(records)[..k + 1]
      && (|calls0| + k in faults || !DistinctKeys(Chunks(records)[k]))
      && rows == UpsertAll(rows0, Flatten(Chunks(records)[..k]))
  }

  /** The groups of `records` before some group have taken effect on
      `table0`, and nothing else: what a failed push leaves. */
  ghost predicate PartlyPushed(table0: map<EntityKey, Properties>, table: map<EntityKey, Properties>,
                               records: seq<EntityRecord>)
  {
    exists k :: 0 <= k < |Chunks(records)| && table == UpsertAll(table0, Flatten(Chunks(records)[..k]))
  }

  /** A push fails only on a call that is a planned fault, or on records
      that name one entity twice, and leaves the groups before the failed
      one written. */
  lemma FailedPushCause(calls0: seq<seq<EntityRecord>>, rows0: map<EntityKey, Properties>,
                        calls: seq<seq<EntityRecord>>, rows: map<EntityKey, Properties>,
                        faults: set<nat>, records: seq<EntityRecord>)
    requires FailedPush(calls0, rows0, calls, rows, faults, records)
    ensures (exists k :: |calls0| <= k < |calls| && k in faults) || !DistinctKeys(records)
    ensures PartlyPushed(rows0, rows, records)
  {
    var k :| && 0 <= k < |Chunks(records)|
             && calls == calls0 + Chunks(records)[..k + 1]
             && (|calls0| + k in faults || !DistinctKeys(Chunks(records)[k]));
    if |calls0| + k !in faults && DistinctKeys(records) {
      ChunksDistinct(records, k);
    }
  }

  /** The state a push is in when the call for the group `records[done..end]` fails. */
  lemma FailureWitness(records: seq<EntityRecord>, done: nat, end: nat,
                       calls0: seq<seq<EntityRecord>>, calls: seq<seq<EntityRecord>>,
                       rows0: map<EntityKey, Properties>, rows: map<EntityKey, Properties>, faults: set<nat>)
    requires done % MaxAzureOperations == 0 && done < end <= |records|
    requires end - done == MaxAzureOperations || (end == |records| && end - done < MaxAzureOperations)
    requires calls == calls0 + Chunks(records[..done]) + [records[done..end]]
    requires |calls0 + Chunks(records[..done])| in faults || !DistinctKeys(records[done..end])
    requires rows == UpsertAll(rows0, records[..done])
    ensures FailedPush(calls0, rows0, calls, rows, faults, records)
  {
    var k := done / MaxAzureOperations;
    var chunk := records[done..end];
    ChunksSplit(records, done, end);
    assert calls == calls0 + Chunks(records)[..k + 1] by {
      assert Chunks(records)[..k + 1] == Chunks(records)[..k] + [chunk];
    }
    assert rows == UpsertAll(rows0, Flatten(Chunks(records)[..k]));
    FailedAt(calls0, rows0, calls, rows, faults, records, k);
  }

  lemma FailedAt(calls0: seq<seq<EntityRecord>>, rows0: map<EntityKey, Properties>,
                 calls: seq<seq<EntityRecord>>, rows: map<EntityKey, Properties>,
                 faults: set<nat>, records: seq<EntityRecord>, k: nat)
    requires k < |Chunks(records)| && calls == calls0 + Chunks(records)[..k + 1]
    requires |calls0| + k in faults || !DistinctKeys(Chunks(records)[k])
    requires rows == UpsertAll(rows0, Flatten(Chunks(records)[..k]))
    ensures FailedPush(calls0, rows0, calls, rows, faults, records)
  {
  }

  /** Where the groups of `records` stand when the first `done` records,
      a multiple of 100, have been grouped: the next group is `records[done..end]`. */
  lemma ChunksSplit(records: seq<EntityRecord>, done: nat, end: nat)
    requires done % MaxAzureOperations == 0 && done < end <= |records|
    requires end - done == MaxAzureOperations || (end == |records| && end - done < MaxAzureOperations)
    ensures var k := done / MaxAzureOperations;
      && k < |Chunks(records)|
      && |Chunks(records[..done])| == k
      && Chunks(records)[..k] == Chunks(records[..done])
      && Chunks(records)[k] == records[done..end]
      && Flatten(Chunks(records[..done])) == records[..done]
  {
    var n := MaxAzureOperations;
    var k := done / n;
    var tail := records[done..];
    assert records == records[..done] + tail;
    ChunksAppend(records[..done], tail);
    ChunksCount(records[..done]);
    CountOfMultiple(done);
    ChunksFlatten(records[..done]);
    assert Chunks(tail)[0] == records[done..end] by {
      if |tail| <= n {
        assert tail == records[done..end];
      } else {
        assert tail[..n] == records[done..end];
      }
    }
  }

  lemma CountOfMultiple(done: nat)
    requires done % MaxAzureOperations == 0
    ensures (done + MaxAzureOperations - 1) / MaxAzureOperations == done / MaxAzureOperations
  {
  }
}
