/** `ExportToAzurePipeline`, the cursor-paged exporter: read the rows above
    the checkpoint 500 at a time, turn each into a table entity, shorten its
    long strings, upsert the entities in groups of 100, then move the
    checkpoint to the batch's largest cursor and persist it, until a read
    comes back empty. */
module ExportToAzurePipeline {
  import opened Wrappers
  import opened Values
  import opened Text
  import opened Batching
  import opened TableStorage
  import opened CursorSource
  import opened StateStore
  import RowKeyNormalizer
  import PropertySizeTransformer

  const DefaultPartitionKey: string := "default"

  /** The ETag of an unconditional `InsertOrReplace`. */
  const AnyETag: string := "*"

  /** The checkpoint of one export, stored under its identifier. */
  datatype ImportState = ImportState(Identifier: string, LastProcessedPosition: int64)

  /** `new ImportState(identifier)`: nothing processed yet. */
  function NewImportState(identifier: string): ImportState {
    ImportState(identifier, 0)
  }

  /** The settings the core reads; `TimestampColumn` defaults to `"Timestamp"`. */
  datatype PipelineSettings = PipelineSettings(SqlTableName: string, IdColumn: string, TimestampColumn: string)

  /** Why `Execute` stopped early: the exception it would have propagated. */
  datatype PipelineError =
    | NotInitialized          // InvalidOperationException
    | QueryFailed             // the SQL query threw
    | MissingIdColumn         // KeyNotFoundException on `result[IdColumn]`
    | NullIdentifier          // NullReferenceException on `.ToString()` of null
    | UnconvertibleValue      // `CreateEntityPropertyFromObject` threw
    | NullStringProperty(key: string)  // NullReferenceException in the size transformer
    | BatchFailed             // `ExecuteBatchAsync` threw
    | StateUpdateFailed       // `UpdateImportState` threw

  /** The errors caused by the content of a row. */
  predicate IsRowError(e: PipelineError) {
    e.MissingIdColumn? || e.NullIdentifier? || e.UnconvertibleValue? || e.NullStringProperty?
  }

  /** `EntityProperty.CreateEntityPropertyFromObject`, an SDK conversion taken
      as given; `None` stands for a value it rejects. */
  type PropertyFactory = Value -> Option<EntityProperty>

  /** The columns an entity keeps: all but the projected cursor, compared ignoring case. */
  predicate KeptColumn(name: string) {
    !EqualsIgnoreCase(name, CursorAlias)
  }

  /** The property bag of one row; `None` when some kept value cannot be converted. */
  function EntityProperties(toProperty: PropertyFactory, row: Row): Option<Properties> {
    if Convertible(toProperty, row)
    then Some(map k | k in row && KeptColumn(k) && toProperty(row[k]).Some? :: toProperty(row[k]).value)
    else None
  }

  /** The factory accepts every kept value of the row. */
  predicate Convertible(toProperty: PropertyFactory, row: Row) {
    forall k :: k in row && KeptColumn(k) ==> toProperty(row[k]).Some?
  }

  /** The entity `ConvertToDynamic` makes of one row, or the error it raises. */
  function ConvertRow(settings: PipelineSettings, toProperty: PropertyFactory, row: Row): Result<EntityRecord, PipelineError> {
    if settings.IdColumn !in row then Failure(MissingIdColumn)
    else
      var id := Display(row[settings.IdColumn]);
      if id.None? then Failure(NullIdentifier)
      else
        var properties := EntityProperties(toProperty, row);
        if properties.None? then Failure(UnconvertibleValue)
        else Success(EntityRecord(DefaultPartitionKey, RowKeyNormalizer.ToRowKeyValue(id.value), properties.value))
  }

  /** The conversion of each row of a batch, in row order. */
  function RowResults(settings: PipelineSettings, toProperty: PropertyFactory, rows: seq<Row>): (rs: seq<Result<EntityRecord, PipelineError>>)
    ensures |rs| == |rows| && forall i :: 0 <= i < |rows| ==> rs[i] == ConvertRow(settings, toProperty, rows[i])
  {
    seq(|rows|, i requires 0 <= i < |rows| => ConvertRow(settings, toProperty, rows[i]))
  }

  /** The entities of a batch in row order, or the error of its first bad row. */
  function ConvertAll(settings: PipelineSettings, toProperty: PropertyFactory, rows: seq<Row>): Result<seq<EntityRecord>, PipelineError> {
    Collect(RowResults(settings, toProperty, rows))
  }

  /** A batch converts exactly when each of its rows does, into one entity per
      row in row order; otherwise the error is that of the first bad row. */
  lemma ConvertAllSpec(settings: PipelineSettings, toProperty: PropertyFactory, rows: seq<Row>)
    ensures var c := ConvertAll(settings, toProperty, rows);
      && (c.Success? <==> forall i :: 0 <= i < |rows| ==> ConvertRow(settings, toProperty, rows[i]).Success?)
      && (c.Success? ==>
            && |c.value| == |rows|
            && forall i :: 0 <= i < |rows| ==> c.value[i] == ConvertRow(settings, toProperty, rows[i]).value)
      && (c.Failure? ==>
            exists i :: && 0 <= i < |rows|
                        && ConvertRow(settings, toProperty, rows[i]) == Failure(c.error)
                        && forall j :: 0 <= j < i ==> ConvertRow(settings, toProperty, rows[j]).Success?)
  {
    CollectSpec(RowResults(settings, toProperty, rows));
  }

  /** A successful conversion: its error is that of its key lookup, its
      identifier, or its values, in that order; on success the entity has
      partition `"default"`, the normalised identifier as row key, and one
      property per kept column, the converted value of that column. */
  lemma ConvertRowShape(settings: PipelineSettings, toProperty: PropertyFactory, row: Row)
    ensures var r := ConvertRow(settings, toProperty, row);
      && (r == Failure(MissingIdColumn) <==> settings.IdColumn !in row)
      && (r == Failure(NullIdentifier) <==> settings.IdColumn in row && row[settings.IdColumn].NullValue?)
      && (r == Failure(UnconvertibleValue) <==>
            && settings.IdColumn in row && !row[settings.IdColumn].NullValue?
            && exists k :: k in row && KeptColumn(k) && toProperty(row[k]).None?)
      && (r.Success? ==>
            && r.value.partitionKey == DefaultPartitionKey
            && r.value.rowKey == RowKeyNormalizer.ToRowKeyValue(Display(row[settings.IdColumn]).value)
            && r.value.properties.Keys == (set k | k in row && KeptColumn(k))
            && (KeptColumn(settings.IdColumn) ==> settings.IdColumn in r.value.properties)
            && CursorAlias !in r.value.properties
            && forall k :: k in r.value.properties ==> toProperty(row[k]) == Some(r.value.properties[k]))
  {
    assert !KeptColumn(CursorAlias) by {
      FoldSelf(CursorAlias);
    }
  }

  lemma FoldSelf(s: string)
    ensures EqualsIgnoreCase(s, s)
  {
  }

  /** An entity after `Transform`: its strings shortened. */
  function Limited(e: EntityRecord): EntityRecord {
    e.(properties := PropertySizeTransformer.LimitAll(e.properties))
  }

  /** Entity `i` is the first of `es` with a String property holding null,
      and `key` names such a property of it. */
  predicate FirstNullString(es: seq<EntityRecord>, i: int, key: string) {
    && 0 <= i < |es|
    && (forall j :: 0 <= j < i ==> !PropertySizeTransformer.HasNullString(es[j].properties))
    && key in es[i].properties && es[i].properties[key] == StringProperty(None)
  }

  /** The error a batch with a bad row raises: the error of its first row
      that does not convert, or, when every row converts, a
      NullReferenceException on a null String property of the first entity
      that has one. */
  predicate RowFailure(settings: PipelineSettings, toProperty: PropertyFactory, batch: seq<Row>, e: PipelineError) {
    var c := ConvertAll(settings, toProperty, batch);
    if c.Failure? then e == c.error
    else e.NullStringProperty? && exists i :: 0 <= i < |c.value| && FirstNullString(c.value, i, e.key)
  }

  /** A batch that raises a row error holds a row that is not exportable. */
  lemma RowFailureSpoils(settings: PipelineSettings, toProperty: PropertyFactory, batch: seq<Row>, e: PipelineError)
    requires RowFailure(settings, toProperty, batch, e)
    ensures !AllExportable(settings, toProperty, batch)
  {
    ConvertAllSpec(settings, toProperty, batch);
    var c := ConvertAll(settings, toProperty, batch);
    if c.Success? {
      var i :| 0 <= i < |c.value| && FirstNullString(c.value, i, e.key);
      assert !Exportable(settings, toProperty, batch[i]);
    } else {
      var i :| 0 <= i < |batch| && ConvertRow(settings, toProperty, batch[i]) == Failure(c.error);
      assert !Exportable(settings, toProperty, batch[i]);
    }
  }

  /** A row the loop gets through: it converts, and no String property of its
      entity holds null. */
  predicate Exportable(settings: PipelineSettings, toProperty: PropertyFactory, row: Row) {
    var c := ConvertRow(settings, toProperty, row);
    c.Success? && !PropertySizeTransformer.HasNullString(c.value.properties)
  }

  predicate AllExportable(settings: PipelineSettings, toProperty: PropertyFactory, rows: seq<Row>) {
    forall i :: 0 <= i < |rows| ==> Exportable(settings, toProperty, rows[i])
  }

  /** The entities written for exportable rows, one per row, in order. */
  function ExportedRows(settings: PipelineSettings, toProperty: PropertyFactory, rows: seq<Row>): (es: seq<EntityRecord>)
    requires AllExportable(settings, toProperty, rows)
  {
    seq(|rows|, i requires 0 <= i < |rows| && Exportable(settings, toProperty, rows[i]) =>
      Limited(ConvertRow(settings, toProperty, rows[i]).value))
  }

  /** Exporting consecutive batches writes the entities of their concatenation. */
  lemma ExportedRowsAppend(settings: PipelineSettings, toProperty: PropertyFactory, a: seq<Row>, b: seq<Row>)
    ensures AllExportable(settings, toProperty, a + b) <==>
      AllExportable(settings, toProperty, a) && AllExportable(settings, toProperty, b)
    ensures AllExportable(settings, toProperty, a + b) ==>
      ExportedRows(settings, toProperty, a + b) == ExportedRows(settings, toProperty, a) + ExportedRows(settings, toProperty, b)
  {
    assert forall i :: 0 <= i < |a| ==> (a + b)[i] == a[i];
    assert forall i :: 0 <= i < |b| ==> (a + b)[|a| + i] == b[i];
  }

  /** Every written entity has partition `"default"`, a row key free of `/`
      that normalises its row's identifier, the kept columns as keys, and no
      String property longer than 32003 characters. */
  lemma ExportedRowsShape(settings: PipelineSettings, toProperty: PropertyFactory, rows: seq<Row>, i: int)
    requires AllExportable(settings, toProperty, rows) && 0 <= i < |rows|
    ensures var e := ExportedRows(settings, toProperty, rows)[i];
      && settings.IdColumn in rows[i] && Display(rows[i][settings.IdColumn]).Some?
      && e.partitionKey == DefaultPartitionKey
      && e.rowKey == RowKeyNormalizer.ToRowKeyValue(Display(rows[i][settings.IdColumn]).value)
      && RowKeyNormalizer.Lacks(e.rowKey, '/')
      && e.properties.Keys == (set k | k in rows[i] && KeptColumn(k))
      && forall k :: k in e.properties && e.properties[k].StringProperty? ==>
           e.properties[k].stringValue.Some? &&
           |e.properties[k].stringValue.value| <= PropertySizeTransformer.MaxLength + |PropertySizeTransformer.PostfixString|
  {
    ConvertRowShape(settings, toProperty, rows[i]);
    var c := ConvertRow(settings, toProperty, rows[i]).value;
    PropertySizeTransformer.LimitAllShape(c.properties);
  }

  /** A bad row inside a batch that is a prefix of the rest of the export
      makes the whole export not exportable. */
  lemma BadRowSpoils(settings: PipelineSettings, toProperty: PropertyFactory,
                     whole: seq<Row>, done: seq<Row>, rest: seq<Row>, batch: seq<Row>, i: int)
    requires whole == done + rest && |batch| <= |rest| && batch == rest[..|batch|]
    requires 0 <= i < |batch| && !Exportable(settings, toProperty, batch[i])
    ensures !AllExportable(settings, toProperty, whole)
  {
    assert whole[|done| + i] == batch[i];
  }

  /** The contents a complete export, started at `position`, leaves in the table. */
  function ExportedTable(settings: PipelineSettings, toProperty: PropertyFactory, rows: SortedRows, position: int64,
                         table: map<EntityKey, Properties>): map<EntityKey, Properties>
    requires AllExportable(settings, toProperty, Above(rows, position))
  {
    UpsertAll(table, ExportedRows(settings, toProperty, Above(rows, position)))
  }

  /** Exporting again from any checkpoint of a completed export, once more
      from the start, leaves the table as the completed export left it:
      a resumed run rewrites rows already written, with the same contents. */
  lemma ResumeIsHarmless(settings: PipelineSettings, toProperty: PropertyFactory, rows: SortedRows, position: int64,
                         table: map<EntityKey, Properties>)
    requires AllExportable(settings, toProperty, Above(rows, position))
    ensures var done := ExportedTable(settings, toProperty, rows, position, table);
      ExportedTable(settings, toProperty, rows, position, done) == done
  {
    UpsertAllIdempotent(table, ExportedRows(settings, toProperty, Above(rows, position)));
  }

  /** Resuming from a later checkpoint reads a suffix of what a run from an
      earlier one reads, so after a complete run the rows it skips are
      already written: the later run's table is that of the earlier run. */
  lemma ResumeFromLater(settings: PipelineSettings, toProperty: PropertyFactory, rows: SortedRows,
                        early: int64, late: int64, table: map<EntityKey, Properties>)
    requires early <= late
    requires AllExportable(settings, toProperty, Above(rows, early))
    ensures AllExportable(settings, toProperty, Above(rows, late))
    ensures var first := ExportedTable(settings, toProperty, rows, early, table);
      ExportedTable(settings, toProperty, rows, late, first) == first
  {
    var skipped := AboveSplit(rows, early, late);
    var b := Above(rows, late);
    ExportedRowsAppend(settings, toProperty, skipped, b);
    UpsertSuffixAbsorbed(table, ExportedRows(settings, toProperty, skipped), ExportedRows(settings, toProperty, b));
  }

  /** The rows above a higher bound are a suffix of those above a lower one. */
  lemma AboveSplit(rows: SortedRows, early: int64, late: int64) returns (skipped: seq<Row>)
    requires early <= late
    ensures Above(rows, early) == skipped + Above(rows, late)
  {
    var a := Above(rows, early);
    AboveSuffix(rows, early);
    AboveAbove(rows, early, late);
    AboveSuffix(a, late);
    skipped := a[..|a| - |Above(rows, late)|];
    assert a == skipped + a[|a| - |Above(rows, late)|..];
  }

  /** Upserting a suffix of what was just upserted changes nothing. */
  lemma UpsertSuffixAbsorbed(table: map<EntityKey, Properties>, a: seq<EntityRecord>, b: seq<EntityRecord>)
    ensures UpsertAll(UpsertAll(table, a + b), b) == UpsertAll(table, a + b)
  {
    UpsertAllOverlay(table, a + b);
    UpsertAllOverlay(UpsertAll(table, a + b), b);
    LatestSuffix(a, b);
    assert table + Latest(a + b) + Latest(b) == table + (Latest(a + b) + Latest(b));
  }

  /** The later records win: a suffix's latest records are already in a sequence's latest. */
  lemma LatestSuffix(a: seq<EntityRecord>, b: seq<EntityRecord>)
    ensures Latest(a + b) + Latest(b) == Latest(a + b)
  {
    UpsertAllAppend(map[], a, b);
    UpsertAllOverlay(Latest(a), b);
    assert Latest(a + b) == Latest(a) + Latest(b);
  }

  class ExportToAzurePipeline {
    const settings: PipelineSettings
    /** The identifier the checkpoint is stored under. */
    const identifier: string
    const source: SqlSource
    const table: Table
    const stateStore: StateStore<ImportState>
    const toProperty: PropertyFactory
    var currentState: ImportState
    var isInitialized: bool

    /** What a run has changed so far. */
    ghost function Now(): Snapshot
      reads this, source, table, stateStore
    {
      Snapshot(currentState, table.rows, source.cursors, stateStore.states, |table.calls|, stateStore.updates)
    }

    /** The calls at which the collaborators throw. */
    ghost function Faults(): FaultPlan {
      FaultPlan(source.faults, table.faults, stateStore.updateFaults)
    }

    /** Before `InitializePipeline` no state is loaded; `Execute` refuses to
        run, so the placeholder state is never read. */
    constructor (settings: PipelineSettings, identifier: string, source: SqlSource, table: Table,
                 stateStore: StateStore<ImportState>, toProperty: PropertyFactory)
      ensures this.settings == settings && this.identifier == identifier
      ensures this.source == source && this.table == table && this.stateStore == stateStore
      ensures this.toProperty == toProperty
      ensures !isInitialized
    {
      this.settings, this.identifier := settings, identifier;
      this.source, this.table, this.stateStore := source, table, stateStore;
      this.toProperty := toProperty;
      currentState := NewImportState(identifier);
      isInitialized := false;
    }

    /** Load the stored state, or start from position 0. */
    method InitializePipeline()
      modifies this`currentState, this`isInitialized
      ensures isInitialized
      ensures identifier in stateStore.states ==> currentState == stateStore.states[identifier]
      ensures identifier !in stateStore.states ==>
        currentState.Identifier == identifier && currentState.LastProcessedPosition == 0
    {
      var stored := stateStore.ByIdentifier(identifier);
      currentState := if stored.Some? then stored.value else NewImportState(identifier);
      isInitialized := true;
    }

    /** One entity per row, in row order, each new. */
    method ConvertToDynamic(databaseObjects: seq<Row>) returns (r: Result<seq<DynamicTableEntity>, PipelineError>)
      ensures r.Success? ==> ConvertAll(settings, toProperty, databaseObjects) == Success(Records(r.value))
      ensures r.Success? ==> forall i :: 0 <= i < |r.value| ==> fresh(r.value[i]) && r.value[i].ETag == AnyETag
      ensures r.Success? ==> forall i, j :: 0 <= i < j < |r.value| ==> r.value[i] != r.value[j]
      ensures r.Failure? ==> ConvertAll(settings, toProperty, databaseObjects) == Failure(r.error)
    {
      ghost var rs := RowResults(settings, toProperty, databaseObjects);
      var resultList: seq<DynamicTableEntity> := [];
      for i := 0 to |databaseObjects|
        invariant Collect(rs[..i]) == Success(Records(resultList))
        invariant forall j :: 0 <= j < |resultList| ==> fresh(resultList[j]) && resultList[j].ETag == AnyETag
        invariant forall j, k :: 0 <= j < k < |resultList| ==> resultList[j] != resultList[k]
      {
        var entity := ConvertResult(databaseObjects[i], rs[i]);
        if entity.Failure? {
          assert rs[..i + 1][..i] == rs[..i];
          CollectPrefixFailure(rs, i + 1);
          return Failure(entity.error);
        }
        CollectStep(rs, i, Records(resultList));
        RecordsAppend(resultList, entity.value);
        resultList := resultList + [entity.value];
      }
      assert rs[..|rs|] == rs;
      r := Success(resultList);
    }

    /** The entity of one row, new. */
    method ConvertResult(result: Row, ghost expected: Result<EntityRecord, PipelineError>)
      returns (r: Result<DynamicTableEntity, PipelineError>)
      requires expected == ConvertRow(settings, toProperty, result)
      ensures r.Success? ==> fresh(r.value) && r.value.ETag == AnyETag
      ensures r.Success? ==> expected == Success(r.value.Record())
      ensures r.Failure? ==> expected == Failure(r.error)
    {
      if settings.IdColumn !in result {
        return Failure(MissingIdColumn);
      }
      var id := Display(result[settings.IdColumn]);
      if id.None? {
        return Failure(NullIdentifier);
      }
      var rowKey := RowKeyNormalizer.ToRowKeyValue(id.value);
      var properties := EntityProperties(toProperty, result);
      if properties.None? {
        return Failure(UnconvertibleValue);
      }
      var entity := new DynamicTableEntity(DefaultPartitionKey, rowKey, AnyETag, properties.value);
      r := Success(entity);
    }

    /** Shorten the strings of each entity in turn; the first String property
        holding null ends the pass, with the entities before it done. */
    static method Transform(entities: seq<DynamicTableEntity>) returns (r: Outcome<PipelineError>)
      requires forall i, j :: 0 <= i < j < |entities| ==> entities[i] != entities[j]
      modifies entities
      ensures r.Pass? <==> forall i :: 0 <= i < |entities| ==> !PropertySizeTransformer.HasNullString(old(entities[i].Properties))
      ensures r.Pass? ==> forall i :: 0 <= i < |entities| ==> entities[i].Record() == Limited(old(entities[i].Record()))
      ensures r.Fail? ==> r.error.NullStringProperty? && exists i :: 0 <= i < |entities| && FirstNullString(old(Records(entities)), i, r.error.key)
    {
      ghost var records := Records(entities);
      for i := 0 to |entities|
        invariant forall j :: 0 <= j < i ==>
          !PropertySizeTransformer.HasNullString(old(entities[j].Properties)) &&
          entities[j].Record() == Limited(old(entities[j].Record()))
        invariant forall j :: i <= j < |entities| ==> entities[j].Record() == old(entities[j].Record())
      {
        var transformed := PropertySizeTransformer.Transform(entities[i]);
        if transformed.Fail? {
          assert FirstNullString(records, i, transformed.error);
          return Fail(NullStringProperty(transformed.error));
        }
      }
      r := Pass;
    }

    /** Upsert the entities in groups of at most 100. */
    method PushToAzure(entities: seq<DynamicTableEntity>) returns (ok: bool)
      modifies table
      ensures ok ==> table.calls == old(table.calls) + Chunks(old(Records(entities)))
      ensures ok ==> table.rows == UpsertAll(old(table.rows), old(Records(entities)))
      ensures !ok ==> FailedPush(old(table.calls), old(table.rows), table.calls, table.rows, table.faults, old(Records(entities)))
    {
      ok := PushInChunks(table, Records(entities));
    }

    /** Query the rows above the state's position; the position to move to is
        the position itself for an empty result, else the largest cursor read. */
    method ReadSqlAndConvert(state: ImportState) returns (r: Result<(seq<Row>, int64), PipelineError>)
      modifies source
      ensures source.cursors == old(source.cursors) + [state.LastProcessedPosition]
      ensures r.Success? <==> |old(source.cursors)| !in source.faults
      ensures r.Failure? ==> r.error == QueryFailed
      ensures r.Success? ==> r.value.0 == Fetch(source.rows, state.LastProcessedPosition)
      ensures r.Success? ==> r.value.1 == NextPosition(state.LastProcessedPosition, r.value.0)
    {
      var resultsDatabase := source.Query(state.LastProcessedPosition);
      if resultsDatabase.None? {
        return Failure(QueryFailed);
      }
      var maxTimestamp := state.LastProcessedPosition;
      if resultsDatabase.value != [] {
        maxTimestamp := BatchMax(resultsDatabase.value);
      }
      r := Success((resultsDatabase.value, maxTimestamp));
    }

    /** The body of one iteration up to the upsert: convert the batch, shorten
        its strings and push it. A bad row stops it before any call to the
        table, a failed call after the groups before it. */
    method ExportBatch(databaseObjects: seq<Row>) returns (r: Outcome<PipelineError>)
      modifies table
      ensures r.Pass? ==> AllExportable(settings, toProperty, databaseObjects)
      ensures r.Pass? ==> table.rows == UpsertAll(old(table.rows), ExportedRows(settings, toProperty, databaseObjects))
      ensures r.Fail? ==> IsRowError(r.error) || r.error == BatchFailed
      ensures r.Fail? && IsRowError(r.error) ==> RowFailure(settings, toProperty, databaseObjects, r.error) && unchanged(table)
      ensures r == Fail(BatchFailed) ==>
        && AllExportable(settings, toProperty, databaseObjects)
        && FailedPush(old(table.calls), old(table.rows), table.calls, table.rows, table.faults,
                      ExportedRows(settings, toProperty, databaseObjects))
      ensures |old(table.calls)| <= |table.calls|
    {
      var dynamicObjects := ConvertToDynamic(databaseObjects);
      ConvertAllSpec(settings, toProperty, databaseObjects);
      if dynamicObjects.Failure? {
        return Fail(dynamicObjects.error);
      }
      var entities := dynamicObjects.value;
      ghost var converted := Records(entities);
      var transformed := Transform(entities);
      if transformed.Fail? {
        assert RowFailure(settings, toProperty, databaseObjects, transformed.error);
        return transformed;
      }
      assert AllExportable(settings, toProperty, databaseObjects);
      assert Records(entities) == ExportedRows(settings, toProperty, databaseObjects);
      var pushed := PushToAzure(entities);
      r := if pushed then Pass else Fail(BatchFailed);
    }

    /** The rest of one iteration: move the state to the batch maximum,
        persist it, and read the next batch from there. */
    method Advance(maxTimestamp: int64) returns (r: Outcome<PipelineError>, databaseObjects: seq<Row>, nextMax: int64)
      modifies this`currentState, source, stateStore
      ensures currentState == old(currentState).(LastProcessedPosition := maxTimestamp)
      ensures r.Fail? ==> r.error == StateUpdateFailed || r.error == QueryFailed
      ensures stateStore.states ==
        if r == Fail(StateUpdateFailed) then old(stateStore.states) else old(stateStore.states)[currentState.Identifier := currentState]
      ensures source.cursors ==
        if r == Fail(StateUpdateFailed) then old(source.cursors) else old(source.cursors) + [maxTimestamp]
      ensures stateStore.updates == old(stateStore.updates) + 1
      ensures r == Fail(StateUpdateFailed) <==> old(stateStore.updates) in stateStore.updateFaults
      ensures r == Fail(QueryFailed) ==> |old(source.cursors)| in source.faults
      ensures r.Pass? ==> databaseObjects == Fetch(source.rows, maxTimestamp)
      ensures r.Pass? ==> nextMax == NextPosition(maxTimestamp, databaseObjects)
    {
      currentState := currentState.(LastProcessedPosition := maxTimestamp);
      var updated := stateStore.UpdateImportState(currentState.Identifier, currentState);
      if !updated {
        return Fail(StateUpdateFailed), [], 0;
      }
      var read := ReadSqlAndConvert(currentState);
      if read.Failure? {
        return Fail(read.error), [], 0;
      }
      r, databaseObjects, nextMax := Pass, read.value.0, read.value.1;
    }

    /** The first half of an iteration of the loop of `Execute`: export the
        batch read at the current checkpoint. A failure ends the run as
        `Finished` describes; on success the loop invariant holds of the
        state the second half is to produce, for a checkpoint with fewer rows
        above it. */
    method ExportCurrentBatch(ghost start: Snapshot, ghost exported: seq<Row>, ghost issued: seq<int64>,
                              databaseObjects: seq<Row>, maxTimestamp: int64)
      returns (r: Outcome<PipelineError>)
      requires Progressed(settings, toProperty, source.rows, start, Now(), exported, issued)
      requires databaseObjects == Fetch(source.rows, currentState.LastProcessedPosition) && databaseObjects != []
      requires maxTimestamp == NextPosition(currentState.LastProcessedPosition, databaseObjects)
      modifies table
      ensures r.Pass? ==>
        && |Above(source.rows, maxTimestamp)| < |Above(source.rows, currentState.LastProcessedPosition)|
        && Progressed(settings, toProperty, source.rows, start, Advanced(Now(), maxTimestamp),
             exported + databaseObjects, issued + [maxTimestamp])
      ensures r.Fail? ==> Finished(settings, toProperty, source.rows, Faults(), start, Now(), r)
    {
      ghost var now := Now();
      ghost var calls0 := table.calls;
      r := ExportBatch(databaseObjects);
      if r.Fail? {
        if IsRowError(r.error) {
          Spoiled(settings, toProperty, source.rows, Faults(), start, now, exported, issued, databaseObjects, r);
        } else {
          PushRejected(settings, toProperty, source.rows, Faults(), start, now, exported, issued, databaseObjects,
                       calls0, table.calls, Now());
        }
      } else {
        ProgressStep(settings, toProperty, source.rows, start, now, exported, issued, databaseObjects, |table.calls|);
      }
    }

    /** The second half of an iteration: `Advance`, which produces the state
        the first half promised, or ends the run as `Finished` describes. */
    method AdvanceRound(ghost start: Snapshot, ghost exported: seq<Row>, ghost issued: seq<int64>, maxTimestamp: int64)
      returns (r: Outcome<PipelineError>, databaseObjects: seq<Row>, nextMax: int64)
      requires Progressed(settings, toProperty, source.rows, start, Advanced(Now(), maxTimestamp), exported, issued)
      requires start.updates <= stateStore.updates
      requires StoredLast(start, source.cursors, stateStore.states)
      modifies this`currentState, source, stateStore
      ensures currentState.LastProcessedPosition == maxTimestamp
      ensures r.Pass? ==>
        && Progressed(settings, toProperty, source.rows, start, Now(), exported, issued)
        && databaseObjects == Fetch(source.rows, currentState.LastProcessedPosition)
        && nextMax == NextPosition(currentState.LastProcessedPosition, databaseObjects)
      ensures r.Fail? ==> Finished(settings, toProperty, source.rows, Faults(), start, Now(), r)
    {
      ghost var before := Now();
      r, databaseObjects, nextMax := Advance(maxTimestamp);
      if r.Fail? {
        ProgressParts(settings, toProperty, source.rows, start, Advanced(before, maxTimestamp), exported, issued);
        AdvanceFailed(settings, toProperty, source.rows, Faults(), start, before, exported, maxTimestamp, r, Now());
      } else {
        assert Now() == Advanced(before, maxTimestamp);
      }
    }

    /** Export every row above the checkpoint, batch by batch. On success the
        table holds the export of all those rows, the checkpoint is the final
        one and stored, and the queries issued are those of the reference run.
        Whatever the outcome, the checkpoint only moves forward, along the
        queried positions, and the store holds it, or the checkpoint stored
        before when storing it failed; a
        failure leaves the rows up to the checkpoint written and is due to a
        planned fault, a bad row, or a group of 100 naming one entity twice.
        With no fault planned, a run over exportable rows of distinct keys passes. */
    method Execute() returns (r: Outcome<PipelineError>)
      modifies this`currentState, source, table, stateStore
      ensures !old(isInitialized) ==> r == Fail(NotInitialized)
      ensures !old(isInitialized) ==> unchanged(this, source, table, stateStore)
      ensures old(isInitialized) ==> Finished(settings, toProperty, source.rows, Faults(), old(Now()), Now(), r)
      ensures old(isInitialized) && Faults() == FaultPlan({}, {}, {}) && FaultFreeInput(settings, toProperty, source.rows, old(Now())) ==>
        r == Pass
    {
      if !isInitialized {
        return Fail(NotInitialized);
      }
      ghost var rows := source.rows;
      ghost var start := Now();
      ghost var exported: seq<Row> := [];
      ghost var issued: seq<int64> := [currentState.LastProcessedPosition];
      ProgressStart(settings, toProperty, rows, start);
      var read := ReadSqlAndConvert(currentState);
      if read.Failure? {
        r := Fail(read.error);
        ProgressParts(settings, toProperty, rows, start, Now(), exported, issued);
        QueryAbandoned(settings, toProperty, rows, Faults(), start, Now(), exported, r);
        FaultFreePasses(settings, toProperty, rows, Faults(), start, Now(), r);
        return;
      }
      var databaseObjects, maxTimestamp := read.value.0, read.value.1;
      while databaseObjects != []
        invariant Progressed(settings, toProperty, rows, start, Now(), exported, issued)
        invariant databaseObjects == Fetch(rows, currentState.LastProcessedPosition)
        invariant maxTimestamp == NextPosition(currentState.LastProcessedPosition, databaseObjects)
        decreases |Above(rows, currentState.LastProcessedPosition)|
      {
        ProgressStored(settings, toProperty, rows, start, Now(), exported, issued);
        r := ExportCurrentBatch(start, exported, issued, databaseObjects, maxTimestamp);
        if r.Fail? {
          FaultFreePasses(settings, toProperty, rows, Faults(), start, Now(), r);
          return;
        }
        exported, issued := exported + databaseObjects, issued + [maxTimestamp];
        r, databaseObjects, maxTimestamp := AdvanceRound(start, exported, issued, maxTimestamp);
        if r.Fail? {
          FaultFreePasses(settings, toProperty, rows, Faults(), start, Now(), r);
          return;
        }
      }
      ProgressDone(settings, toProperty, rows, Faults(), start, Now(), exported, issued);
      r := Pass;
    }
  }

  /** What `Execute` has changed: the state, the table, the query trace, the
      store, and the numbers of batch calls and of store updates issued. */
  datatype Snapshot = Snapshot(state: ImportState, tableRows: map<EntityKey, Properties>,
                               cursors: seq<int64>, stored: map<string, ImportState>,
                               batchCalls: nat, updates: nat)

  /** The snapshot once the checkpoint has moved to `next`, been stored, and
      the query from `next` been issued. */
  function Advanced(now: Snapshot, next: int64): Snapshot {
    var state := now.state.(LastProcessedPosition := next);
    Snapshot(state, now.tableRows, now.cursors + [next], now.stored[state.Identifier := state],
             now.batchCalls, now.updates + 1)
  }

  /** What a run of `Execute` from `start`, with the collaborators throwing
      as `faults` plans, has done once it ends in `now` with `r`:
      - the checkpoint only moved forward, along the queried positions, and
        the store holds it, or, when storing it failed, the checkpoint of the
        last query, which is the one stored before;
      - a failure other than a rejected batch call leaves exactly the rows up
        to the checkpoint written; a rejected call leaves them and the groups
        of the checkpoint's batch before that call;
      - a failed query, batch call or store update is a planned fault, or,
        for a batch call, a group naming one entity twice;
      - a bad row is in the batch read at the checkpoint;
      - on success every row above the starting checkpoint is exported and
        written, the checkpoint is the final one, and the queries issued are
        those of the reference run. */
  ghost predicate Finished(settings: PipelineSettings, toProperty: PropertyFactory, rows: SortedRows,
                           faults: FaultPlan, start: Snapshot, now: Snapshot, r: Outcome<PipelineError>)
  {
    && Moved(rows, start, now, r)
    && (r == Fail(StateUpdateFailed) ==> TracedBefore(rows, start, now))
    && (r != Fail(StateUpdateFailed) ==> TracedAt(rows, start, now))
    && (r.Fail? ==> Explained(settings, toProperty, rows, faults, start, now, r.error))
    && (r.Pass? ==> Completed(settings, toProperty, rows, start, now))
  }

  /** The checkpoint only moved forward, along the queried positions, and
      the store holds it unless storing it failed. */
  ghost predicate Moved(rows: SortedRows, start: Snapshot, now: Snapshot, r: Outcome<PipelineError>) {
    var p0 := start.state.LastProcessedPosition;
    var position := now.state.LastProcessedPosition;
    && now.state == start.state.(LastProcessedPosition := position)
    && p0 <= position && position in Positions(rows, p0)
    && (r != Fail(StateUpdateFailed) ==> StoreHolds(start, now.stored, position))
  }

  /** `stored` is the store of a run from `start` whose last stored
      checkpoint is `position`: the starting store when that is the starting
      checkpoint, which `Execute` never writes back. */
  ghost predicate StoreHolds(start: Snapshot, stored: map<string, ImportState>, position: int64) {
    var state := start.state.(LastProcessedPosition := position);
    stored == if position == start.state.LastProcessedPosition then start.stored else start.stored[state.Identifier := state]
  }

  /** A query was issued since `start`, and `stored` holds the checkpoint of
      the last one of `cursors`. */
  ghost predicate StoredLast(start: Snapshot, cursors: seq<int64>, stored: map<string, ImportState>) {
    && |start.cursors| < |cursors|
    && StoreHolds(start, stored, cursors[|cursors| - 1])
  }

  /** The queries issued since `start` are the first positions of the
      reference run, ending at the checkpoint, and the store was updated once
      per position after the first. */
  ghost predicate TracedAt(rows: SortedRows, start: Snapshot, now: Snapshot) {
    var n := |start.cursors|;
    && n < |now.cursors| && now.cursors[..n] == start.cursors
    && var issued := now.cursors[n..];
    && issued <= Positions(rows, start.state.LastProcessedPosition)
    && issued[|issued| - 1] == now.state.LastProcessedPosition
    && now.updates == start.updates + |issued| - 1
  }

  /** As `TracedAt`, for a run stopped by a failed update of the store: the
      checkpoint moved to the reference position after the last one queried,
      the failed update is counted too, and the store still holds the
      checkpoint of the last query, the one stored before. */
  ghost predicate TracedBefore(rows: SortedRows, start: Snapshot, now: Snapshot) {
    var n := |start.cursors|;
    && StoredLast(start, now.cursors, now.stored) && now.cursors[..n] == start.cursors
    && var issued := now.cursors[n..];
    && issued + [now.state.LastProcessedPosition] <= Positions(rows, start.state.LastProcessedPosition)
    && now.updates == start.updates + |issued|
  }

  /** The invariant keeps the store at the checkpoint of the last query. */
  lemma ProgressStored(settings: PipelineSettings, toProperty: PropertyFactory, rows: SortedRows,
                       start: Snapshot, now: Snapshot, exported: seq<Row>, issued: seq<int64>)
    requires Progressed(settings, toProperty, rows, start, now, exported, issued)
    ensures StoredLast(start, now.cursors, now.stored)
  {
    assert now.cursors[|now.cursors| - 1] == issued[|issued| - 1];
  }

  /** The trace the loop invariant carries is `TracedAt`. */
  lemma ProgressTraced(rows: SortedRows, start: Snapshot, now: Snapshot, issued: seq<int64>, tail: seq<int64>)
    requires now.cursors == start.cursors + issued
    requires Positions(rows, start.state.LastProcessedPosition) == issued + tail
    requires issued != [] && issued[|issued| - 1] == now.state.LastProcessedPosition
    requires now.updates == start.updates + |issued| - 1
    ensures TracedAt(rows, start, now)
  {
    var n := |start.cursors|;
    assert now.cursors[..n] == start.cursors && now.cursors[n..] == issued;
    PrefixOfAppend(issued, tail);
  }

  lemma PrefixOfAppend<T>(a: seq<T>, b: seq<T>)
    ensures a <= a + b
  {
    assert (a + b)[..|a|] == a;
  }

  /** What a run that failed with `e` leaves, and why it failed. */
  ghost predicate Explained(settings: PipelineSettings, toProperty: PropertyFactory, rows: SortedRows,
                            faults: FaultPlan, start: Snapshot, now: Snapshot, e: PipelineError)
  {
    var p0 := start.state.LastProcessedPosition;
    var position := now.state.LastProcessedPosition;
    && e != NotInitialized
    && (e != BatchFailed ==>
          exists exported :: RowsWritten(settings, toProperty, rows, p0, position, start.tableRows, now.tableRows, exported))
    && (e == QueryFailed ==> |start.cursors| < |now.cursors| && |now.cursors| - 1 in faults.queries)
    && (e == StateUpdateFailed ==> exists k :: start.updates <= k < now.updates && k in faults.updates)
    && (e == BatchFailed ==> BatchRejected(settings, toProperty, rows, faults, start, now))
    && (IsRowError(e) ==>
          && RowFailure(settings, toProperty, Fetch(rows, position), e)
          && !AllExportable(settings, toProperty, Above(rows, p0)))
  }

  /** Every row above the starting checkpoint is exported and written, the
      checkpoint is the final one, and the queries issued are those of the
      reference run. */
  ghost predicate Completed(settings: PipelineSettings, toProperty: PropertyFactory, rows: SortedRows,
                            start: Snapshot, now: Snapshot)
  {
    var p0 := start.state.LastProcessedPosition;
    && now.state.LastProcessedPosition == FinalPosition(rows, p0)
    && AllExportable(settings, toProperty, Above(rows, p0))
    && now.tableRows == ExportedTable(settings, toProperty, rows, p0, start.tableRows)
    && now.cursors == start.cursors + Positions(rows, p0)
  }

  /** A run that stopped on a rejected batch call while pushing the batch
      read at its checkpoint: the rows before that batch were written, then
      the groups of the batch before the rejected call; the call was a
      planned fault, or a group of the batch names one entity twice. */
  ghost predicate BatchRejected(settings: PipelineSettings, toProperty: PropertyFactory, rows: SortedRows,
                                faults: FaultPlan, start: Snapshot, now: Snapshot)
  {
    var p0 := start.state.LastProcessedPosition;
    var position := now.state.LastProcessedPosition;
    var batch := Fetch(rows, position);
    AllExportable(settings, toProperty, batch) &&
    var records := ExportedRows(settings, toProperty, batch);
    && (exists table, exported ::
          RowsWritten(settings, toProperty, rows, p0, position, start.tableRows, table, exported) &&
          PartlyPushed(table, now.tableRows, records))
    && ((exists k :: start.batchCalls <= k < now.batchCalls && k in faults.batches) || !DistinctKeys(records))
  }

  /** The rows above the starting checkpoint export, and no two of their
      entities share a key. */
  ghost predicate FaultFreeInput(settings: PipelineSettings, toProperty: PropertyFactory, rows: SortedRows, start: Snapshot) {
    var above := Above(rows, start.state.LastProcessedPosition);
    AllExportable(settings, toProperty, above) && DistinctKeys(ExportedRows(settings, toProperty, above))
  }

  /** With no fault planned, a run over rows that all export, into entities
      of distinct keys, ends in success. */
  lemma FaultFreePasses(settings: PipelineSettings, toProperty: PropertyFactory, rows: SortedRows,
                        faults: FaultPlan, start: Snapshot, now: Snapshot, r: Outcome<PipelineError>)
    requires Finished(settings, toProperty, rows, faults, start, now, r)
    ensures faults == FaultPlan({}, {}, {}) && FaultFreeInput(settings, toProperty, rows, start) ==> r == Pass
  {
    if faults == FaultPlan({}, {}, {}) && FaultFreeInput(settings, toProperty, rows, start) && r == Fail(BatchFailed) {
      var p0 := start.state.LastProcessedPosition;
      var position := now.state.LastProcessedPosition;
      var table, exported :| RowsWritten(settings, toProperty, rows, p0, position, start.tableRows, table, exported);
      BatchDistinct(settings, toProperty, rows, p0, position, exported);
    }
  }

  /** The batch read at a checkpoint reached by writing `exported` is a part
      of the rows above the start, so its entities inherit distinct keys. */
  lemma BatchDistinct(settings: PipelineSettings, toProperty: PropertyFactory, rows: SortedRows,
                      p0: int64, position: int64, exported: seq<Row>)
    requires Above(rows, p0) == exported + Above(rows, position)
    requires AllExportable(settings, toProperty, Above(rows, p0))
    requires DistinctKeys(ExportedRows(settings, toProperty, Above(rows, p0)))
    ensures AllExportable(settings, toProperty, Fetch(rows, position))
    ensures DistinctKeys(ExportedRows(settings, toProperty, Fetch(rows, position)))
  {
    var rest := Above(rows, position);
    var batch := Fetch(rows, position);
    FetchShape(rows, position);
    var tail := rest[|batch|..];
    assert rest == batch + tail;
    ExportedRowsAppend(settings, toProperty, exported, rest);
    ExportedRowsAppend(settings, toProperty, batch, tail);
    var e, b, t := ExportedRows(settings, toProperty, exported), ExportedRows(settings, toProperty, batch),
                   ExportedRows(settings, toProperty, tail);
    assert ExportedRows(settings, toProperty, Above(rows, p0)) == e + (b + t);
    DistinctMiddle(e, b, t);
  }

  /** What the invariant says of a run that may stop at `now`. */
  lemma ProgressParts(settings: PipelineSettings, toProperty: PropertyFactory, rows: SortedRows,
                      start: Snapshot, now: Snapshot, exported: seq<Row>, issued: seq<int64>)
    requires Progressed(settings, toProperty, rows, start, now, exported, issued)
    ensures Moved(rows, start, now, Pass)
    ensures RowsWritten(settings, toProperty, rows, start.state.LastProcessedPosition,
                        now.state.LastProcessedPosition, start.tableRows, now.tableRows, exported)
    ensures |start.cursors| < |now.cursors| && start.updates <= now.updates
    ensures TracedAt(rows, start, now)
  {
    assert |now.cursors| == |start.cursors| + |issued|;
    ProgressTraced(rows, start, now, issued, Positions(rows, now.state.LastProcessedPosition)[1..]);
  }

  /** A run that stops when `Advance` fails after `before`, with `next` as
      the new checkpoint: the query failed with the checkpoint stored, or
      storing it failed and the trace is as before. */
  lemma AdvanceFailed(settings: PipelineSettings, toProperty: PropertyFactory, rows: SortedRows, faults: FaultPlan,
                      start: Snapshot, before: Snapshot, exported: seq<Row>, next: int64,
                      r: Outcome<PipelineError>, final: Snapshot)
    requires Moved(rows, start, Advanced(before, next), Pass)
    requires RowsWritten(settings, toProperty, rows, start.state.LastProcessedPosition, next,
                         start.tableRows, before.tableRows, exported)
    requires |start.cursors| <= |before.cursors| && start.updates <= before.updates
    requires TracedAt(rows, start, Advanced(before, next))
    requires r == Fail(QueryFailed) || r == Fail(StateUpdateFailed)
    requires final.state == before.state.(LastProcessedPosition := next)
    requires final.tableRows == before.tableRows && final.batchCalls == before.batchCalls
    requires final.updates == before.updates + 1
    requires r == Fail(QueryFailed) ==>
      && final.stored == before.stored[final.state.Identifier := final.state]
      && final.cursors == before.cursors + [next] && |before.cursors| in faults.queries
    requires r == Fail(StateUpdateFailed) ==>
      final.stored == before.stored && final.cursors == before.cursors && before.updates in faults.updates
    requires StoredLast(start, before.cursors, before.stored)
    ensures Finished(settings, toProperty, rows, faults, start, final, r)
  {
    if r == Fail(QueryFailed) {
      QueryFailedAfter(settings, toProperty, rows, faults, start, before, exported, next, final);
    } else {
      StoreAbandoned(settings, toProperty, rows, faults, start, before, exported, next, final);
    }
  }

  /** The query branch of `AdvanceFailed`. */
  lemma QueryFailedAfter(settings: PipelineSettings, toProperty: PropertyFactory, rows: SortedRows, faults: FaultPlan,
                         start: Snapshot, before: Snapshot, exported: seq<Row>, next: int64, final: Snapshot)
    requires Moved(rows, start, Advanced(before, next), Pass)
    requires RowsWritten(settings, toProperty, rows, start.state.LastProcessedPosition, next,
                         start.tableRows, before.tableRows, exported)
    requires |start.cursors| <= |before.cursors|
    requires TracedAt(rows, start, Advanced(before, next))
    requires final.state == before.state.(LastProcessedPosition := next)
    requires final.tableRows == before.tableRows && final.batchCalls == before.batchCalls
    requires final.updates == before.updates + 1
    requires final.stored == before.stored[final.state.Identifier := final.state]
    requires final.cursors == before.cursors + [next] && |before.cursors| in faults.queries
    ensures Finished(settings, toProperty, rows, faults, start, final, Fail(QueryFailed))
  {
    assert final == Advanced(before, next);
    QueryAbandoned(settings, toProperty, rows, faults, start, final, exported, Fail(QueryFailed));
  }

  /** The store branch of `AdvanceFailed`: storing the checkpoint `next`
      failed after `before`. `final` keeps the trace and the store from
      before, whose store holds the checkpoint of the last query. */
  lemma StoreAbandoned(settings: PipelineSettings, toProperty: PropertyFactory, rows: SortedRows, faults: FaultPlan,
                       start: Snapshot, before: Snapshot, exported: seq<Row>, next: int64, final: Snapshot)
    requires Moved(rows, start, Advanced(before, next), Pass)
    requires RowsWritten(settings, toProperty, rows, start.state.LastProcessedPosition, next,
                         start.tableRows, before.tableRows, exported)
    requires start.updates <= before.updates
    requires TracedAt(rows, start, Advanced(before, next))
    requires final.state == before.state.(LastProcessedPosition := next)
    requires final.tableRows == before.tableRows && final.batchCalls == before.batchCalls
    requires final.updates == before.updates + 1
    requires final.stored == before.stored && final.cursors == before.cursors && before.updates in faults.updates
    requires StoredLast(start, before.cursors, before.stored)
    ensures Finished(settings, toProperty, rows, faults, start, final, Fail(StateUpdateFailed))
  {
    var now := Advanced(before, next);
    assert now.state == final.state && now.tableRows == final.tableRows && now.updates == final.updates;
    assert now.cursors == final.cursors + [next];
    StoreRefused(settings, toProperty, rows, faults, start, now, final, exported);
    TracedRefused(rows, start, now, final);
    assert Moved(rows, start, final, Fail(StateUpdateFailed));
  }

  /** A run that stops on a failed query once it reached `now`. */
  lemma QueryAbandoned(settings: PipelineSettings, toProperty: PropertyFactory, rows: SortedRows, faults: FaultPlan,
                       start: Snapshot, now: Snapshot, exported: seq<Row>, r: Outcome<PipelineError>)
    requires Moved(rows, start, now, Pass)
    requires RowsWritten(settings, toProperty, rows, start.state.LastProcessedPosition,
                         now.state.LastProcessedPosition, start.tableRows, now.tableRows, exported)
    requires |start.cursors| < |now.cursors| && |now.cursors| - 1 in faults.queries
    requires TracedAt(rows, start, now)
    requires r == Fail(QueryFailed)
    ensures Finished(settings, toProperty, rows, faults, start, now, r)
  {
    QueryRefused(settings, toProperty, rows, faults, start, now, exported);
  }

  /** A failed update of the store after the trace reached `now`: the query
      from the new checkpoint was never issued. */
  lemma TracedRefused(rows: SortedRows, start: Snapshot, now: Snapshot, final: Snapshot)
    requires TracedAt(rows, start, now)
    requires final.state == now.state && final.updates == now.updates
    requires now.cursors == final.cursors + [now.state.LastProcessedPosition]
    requires StoredLast(start, final.cursors, final.stored)
    ensures TracedBefore(rows, start, final)
  {
    var n := |start.cursors|;
    assert now.cursors[..n] == final.cursors[..n];
    assert now.cursors[n..] == final.cursors[n..] + [now.state.LastProcessedPosition];
  }

  lemma QueryRefused(settings: PipelineSettings, toProperty: PropertyFactory, rows: SortedRows, faults: FaultPlan,
                     start: Snapshot, now: Snapshot, exported: seq<Row>)
    requires RowsWritten(settings, toProperty, rows, start.state.LastProcessedPosition,
                         now.state.LastProcessedPosition, start.tableRows, now.tableRows, exported)
    requires |start.cursors| < |now.cursors| && |now.cursors| - 1 in faults.queries
    ensures Explained(settings, toProperty, rows, faults, start, now, QueryFailed)
  {
    assert !IsRowError(QueryFailed);
  }

  lemma StoreRefused(settings: PipelineSettings, toProperty: PropertyFactory, rows: SortedRows, faults: FaultPlan,
                     start: Snapshot, now: Snapshot, final: Snapshot, exported: seq<Row>)
    requires RowsWritten(settings, toProperty, rows, start.state.LastProcessedPosition,
                         now.state.LastProcessedPosition, start.tableRows, now.tableRows, exported)
    requires final.state == now.state && final.tableRows == now.tableRows && final.updates == now.updates
    requires start.updates < now.updates && now.updates - 1 in faults.updates
    ensures Explained(settings, toProperty, rows, faults, start, final, StateUpdateFailed)
  {
    assert start.updates <= now.updates - 1 < final.updates;
    assert !IsRowError(StateUpdateFailed);
  }

  /** A run that stops on a bad row of the batch read at `now`, before any
      call to the table. */
  lemma Spoiled(settings: PipelineSettings, toProperty: PropertyFactory, rows: SortedRows, faults: FaultPlan,
                start: Snapshot, now: Snapshot, exported: seq<Row>, issued: seq<int64>, batch: seq<Row>,
                r: Outcome<PipelineError>)
    requires Progressed(settings, toProperty, rows, start, now, exported, issued)
    requires batch == Fetch(rows, now.state.LastProcessedPosition)
    requires r.Fail? && IsRowError(r.error) && RowFailure(settings, toProperty, batch, r.error)
    ensures Finished(settings, toProperty, rows, faults, start, now, r)
  {
    ProgressParts(settings, toProperty, rows, start, now, exported, issued);
    RowFailureSpoils(settings, toProperty, batch, r.error);
    BadBatchSpoils(settings, toProperty, rows, start, now, exported, issued, batch);
  }

  /** A run that stops on a failed push of the batch read at `now`. */
  lemma PushRejected(settings: PipelineSettings, toProperty: PropertyFactory, rows: SortedRows, faults: FaultPlan,
                     start: Snapshot, now: Snapshot, exported: seq<Row>, issued: seq<int64>, batch: seq<Row>,
                     calls0: seq<seq<EntityRecord>>, calls: seq<seq<EntityRecord>>, final: Snapshot)
    requires Progressed(settings, toProperty, rows, start, now, exported, issued)
    requires batch == Fetch(rows, now.state.LastProcessedPosition) && AllExportable(settings, toProperty, batch)
    requires FailedPush(calls0, now.tableRows, calls, final.tableRows, faults.batches, ExportedRows(settings, toProperty, batch))
    requires now.batchCalls == |calls0| && final == now.(tableRows := final.tableRows, batchCalls := |calls|)
    ensures Finished(settings, toProperty, rows, faults, start, final, Fail(BatchFailed))
  {
    FailedPushCause(calls0, now.tableRows, calls, final.tableRows, faults.batches, ExportedRows(settings, toProperty, batch));
    Interrupted(settings, toProperty, rows, faults, start, now, exported, issued, batch, final);
  }

  /** A run that stops on a rejected batch call for the batch read at `now`:
      some groups of the batch took effect, and a call was a planned fault
      or the batch names one entity twice. */
  lemma Interrupted(settings: PipelineSettings, toProperty: PropertyFactory, rows: SortedRows, faults: FaultPlan,
                    start: Snapshot, now: Snapshot, exported: seq<Row>, issued: seq<int64>, batch: seq<Row>,
                    final: Snapshot)
    requires Progressed(settings, toProperty, rows, start, now, exported, issued)
    requires batch == Fetch(rows, now.state.LastProcessedPosition) && AllExportable(settings, toProperty, batch)
    requires final == now.(tableRows := final.tableRows, batchCalls := final.batchCalls)
    requires PartlyPushed(now.tableRows, final.tableRows, ExportedRows(settings, toProperty, batch))
    requires (exists k :: now.batchCalls <= k < final.batchCalls && k in faults.batches) ||
             !DistinctKeys(ExportedRows(settings, toProperty, batch))
    ensures Finished(settings, toProperty, rows, faults, start, final, Fail(BatchFailed))
  {
    ProgressParts(settings, toProperty, rows, start, now, exported, issued);
    assert TracedAt(rows, start, final);
    assert !IsRowError(BatchFailed);
  }

  /** The loop invariant of `Execute`, against the reference run from `start`. */
  ghost predicate Progressed(settings: PipelineSettings, toProperty: PropertyFactory, rows: SortedRows,
                             start: Snapshot, now: Snapshot, exported: seq<Row>, issued: seq<int64>)
  {
    var p0 := start.state.LastProcessedPosition;
    var position := now.state.LastProcessedPosition;
    && now.state == start.state.(LastProcessedPosition := position)
    && RowsWritten(settings, toProperty, rows, p0, position, start.tableRows, now.tableRows, exported)
    && QueriesIssued(rows, p0, position, start.cursors, now.cursors, issued)
    && now.stored == (if position == p0 then start.stored else start.stored[now.state.Identifier := now.state])
    && start.batchCalls <= now.batchCalls && now.updates == start.updates + |issued| - 1
  }

  /** The rows `exported` so far are the first part of those above `p0`, the
      rest lying above `position`; all are exported and written. */
  ghost predicate RowsWritten(settings: PipelineSettings, toProperty: PropertyFactory, rows: SortedRows,
                              p0: int64, position: int64, table0: map<EntityKey, Properties>,
                              table: map<EntityKey, Properties>, exported: seq<Row>)
  {
    && Above(rows, p0) == exported + Above(rows, position)
    && AllExportable(settings, toProperty, exported)
    && table == UpsertAll(table0, ExportedRows(settings, toProperty, exported))
  }

  /** The queries issued are the first positions of the reference run, the
      last one being the current checkpoint. */
  ghost predicate QueriesIssued(rows: SortedRows, p0: int64, position: int64,
                                cursors0: seq<int64>, cursors: seq<int64>, issued: seq<int64>)
  {
    && p0 <= position
    && cursors == cursors0 + issued
    && Positions(rows, p0) == issued + Positions(rows, position)[1..]
    && issued != [] && issued[|issued| - 1] == position
    && position in Positions(rows, p0)
    && FinalPosition(rows, position) == FinalPosition(rows, p0)
  }

  /** The invariant holds once the first query is issued. */
  lemma ProgressStart(settings: PipelineSettings, toProperty: PropertyFactory, rows: SortedRows, start: Snapshot)
    ensures var p0 := start.state.LastProcessedPosition;
      Progressed(settings, toProperty, rows, start, start.(cursors := start.cursors + [p0]), [], [p0])
  {
    var p0 := start.state.LastProcessedPosition;
    PositionsShape(rows, p0);
    assert Above(rows, p0) == [] + Above(rows, p0);
    assert Positions(rows, p0) == [p0] + Positions(rows, p0)[1..];
  }

  /** A batch pushed, the checkpoint moved to its maximum, stored, and the next
      query issued: the invariant holds again, for a strictly higher
      checkpoint with fewer rows above it. */
  lemma ProgressStep(settings: PipelineSettings, toProperty: PropertyFactory, rows: SortedRows,
                     start: Snapshot, now: Snapshot, exported: seq<Row>, issued: seq<int64>, batch: seq<Row>, calls: nat)
    requires Progressed(settings, toProperty, rows, start, now, exported, issued)
    requires now.batchCalls <= calls
    requires batch == Fetch(rows, now.state.LastProcessedPosition) && batch != []
    requires AllExportable(settings, toProperty, batch)
    ensures var position := now.state.LastProcessedPosition;
      var next := NextPosition(position, batch);
      && position < next
      && |Above(rows, next)| < |Above(rows, position)|
      && Progressed(settings, toProperty, rows, start,
           Advanced(now.(tableRows := UpsertAll(now.tableRows, ExportedRows(settings, toProperty, batch)), batchCalls := calls), next),
           exported + batch, issued + [next])
  {
    var p0 := start.state.LastProcessedPosition;
    var position := now.state.LastProcessedPosition;
    var next := NextPosition(position, batch);
    var state := now.state.(LastProcessedPosition := next);
    NextAbove(rows, position);
    RowsStep(settings, toProperty, rows, p0, position, start.tableRows, now.tableRows, exported, batch);
    QueriesStep(rows, p0, position, start.cursors, now.cursors, issued);
    Overwrite(start.stored, state.Identifier, now.state, state);
  }

  lemma RowsStep(settings: PipelineSettings, toProperty: PropertyFactory, rows: SortedRows,
                 p0: int64, position: int64, table0: map<EntityKey, Properties>,
                 table: map<EntityKey, Properties>, exported: seq<Row>, batch: seq<Row>)
    requires RowsWritten(settings, toProperty, rows, p0, position, table0, table, exported)
    requires batch == Fetch(rows, position) && batch != []
    requires AllExportable(settings, toProperty, batch)
    ensures RowsWritten(settings, toProperty, rows, p0, NextPosition(position, batch), table0,
                        UpsertAll(table, ExportedRows(settings, toProperty, batch)), exported + batch)
  {
    var next := NextPosition(position, batch);
    assert Above(rows, p0) == (exported + batch) + Above(rows, next) by {
      StepRows(rows, position);
      Regroup(Above(rows, p0), exported, Above(rows, position), batch, Above(rows, next));
    }
    var e, b := ExportedRows(settings, toProperty, exported), ExportedRows(settings, toProperty, batch);
    assert AllExportable(settings, toProperty, exported + batch)
        && ExportedRows(settings, toProperty, exported + batch) == e + b by {
      ExportedRowsAppend(settings, toProperty, exported, batch);
    }
    assert UpsertAll(table, b) == UpsertAll(table0, e + b) by {
      UpsertAllAppend(table0, e, b);
    }
  }

  lemma Associate<T>(a: seq<T>, b: seq<T>, c: seq<T>)
    ensures (a + b) + c == a + (b + c)
  {
  }

  lemma Regroup<T>(whole: seq<T>, a: seq<T>, rest: seq<T>, b: seq<T>, tail: seq<T>)
    requires whole == a + rest && rest == b + tail
    ensures whole == (a + b) + tail
  {
  }

  lemma QueriesStep(rows: SortedRows, p0: int64, position: int64,
                    cursors0: seq<int64>, cursors: seq<int64>, issued: seq<int64>)
    requires QueriesIssued(rows, p0, position, cursors0, cursors, issued)
    requires Fetch(rows, position) != []
    ensures var next := NextPosition(position, Fetch(rows, position));
      QueriesIssued(rows, p0, next, cursors0, cursors + [next], issued + [next])
  {
    assert p0 <= position;
    var next := NextPosition(position, Fetch(rows, position));
    assert position < next && FinalPosition(rows, next) == FinalPosition(rows, position) by {
      StepRows(rows, position);
    }
    assert Positions(rows, p0) == (issued + [next]) + Positions(rows, next)[1..] by {
      StepPositions(rows, position);
      Regroup(Positions(rows, p0), issued, Positions(rows, position)[1..], [next], Positions(rows, next)[1..]);
    }
    assert next in Positions(rows, p0) by {
      assert Positions(rows, p0)[|issued|] == next;
    }
    assert cursors + [next] == cursors0 + (issued + [next]) by {
      Associate(cursors0, issued, [next]);
    }
    assert (issued + [next]) != [] && (issued + [next])[|issued + [next]| - 1] == next;
    assert FinalPosition(rows, next) == FinalPosition(rows, p0);
  }

  /** The invariant and an empty read: the export is complete. */
  lemma ProgressDone(settings: PipelineSettings, toProperty: PropertyFactory, rows: SortedRows, faults: FaultPlan,
                     start: Snapshot, now: Snapshot, exported: seq<Row>, issued: seq<int64>)
    requires Progressed(settings, toProperty, rows, start, now, exported, issued)
    requires Fetch(rows, now.state.LastProcessedPosition) == []
    ensures Finished(settings, toProperty, rows, faults, start, now, Pass)
  {
    var p0 := start.state.LastProcessedPosition;
    var position := now.state.LastProcessedPosition;
    ProgressParts(settings, toProperty, rows, start, now, exported, issued);
    FetchShape(rows, position);
    assert exported == Above(rows, p0);
    assert Positions(rows, position) == [position];
    assert Positions(rows, p0) == issued;
  }

  /** A bad row in the next batch makes the whole export not exportable. */
  lemma BadBatchSpoils(settings: PipelineSettings, toProperty: PropertyFactory, rows: SortedRows,
                       start: Snapshot, now: Snapshot, exported: seq<Row>, issued: seq<int64>, batch: seq<Row>)
    requires Progressed(settings, toProperty, rows, start, now, exported, issued)
    requires batch == Fetch(rows, now.state.LastProcessedPosition)
    requires !AllExportable(settings, toProperty, batch)
    ensures !AllExportable(settings, toProperty, Above(rows, start.state.LastProcessedPosition))
  {
    var position := now.state.LastProcessedPosition;
    FetchShape(rows, position);
    var i :| 0 <= i < |batch| && !Exportable(settings, toProperty, batch[i]);
    BadRowSpoils(settings, toProperty, Above(rows, start.state.LastProcessedPosition), exported, Above(rows, position), batch, i);
  }

  lemma Overwrite<K, V>(m: map<K, V>, k: K, a: V, b: V)
    ensures m[k := a][k := b] == m[k := b]
  {
  }

  lemma StepRows(rows: SortedRows, position: int64)
    requires Fetch(rows, position) != []
    ensures var f := Fetch(rows, position);
      var next := NextPosition(position, f);
      && position < next
      && Above(rows, position) == f + Above(rows, next)
      && FinalPosition(rows, next) == FinalPosition(rows, position)
  {
    var f := Fetch(rows, position);
    FetchShape(rows, position);
    NextAbove(rows, position);
    var a := Above(rows, position);
    assert a == f + a[|f|..];
  }

  lemma StepPositions(rows: SortedRows, position: int64)
    requires Fetch(rows, position) != []
    ensures var next := NextPosition(position, Fetch(rows, position));
      Positions(rows, position)[1..] == [next] + Positions(rows, next)[1..]
  {
    var next := NextPosition(position, Fetch(rows, position));
    NextAbove(rows, position);
    PositionsShape(rows, next);
    assert Positions(rows, position) == [position] + Positions(rows, next);
  }
}
