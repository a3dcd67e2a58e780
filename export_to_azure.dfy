/** `ExportToAzure`, the legacy date-bounded exporter: read the rows dated
    before the state's `MaxDate`, 500 at a time and oldest first, turn each
    into a `DynamicObjectTableEntity` keyed by its identifier, upsert the
    entities in groups of 100, then record the batch's earliest date as
    `LastProcessedTimestamp` and persist the state, until a read comes back
    empty. Since the bound never moves and the statement does not use the
    recorded date, a table with any row before `MaxDate` is read, and
    written, again and again. */
module ExportToAzure {
  import opened Wrappers
  import opened Values
  import opened Text
  import opened TableStorage
  import opened StateStore
  import opened DynamicHelper
  import opened DynamicEntity
  import RowKeyNormalizer

  const DefaultPartitionKey: string := "default"

  /** The `TOP` of the statement `ReadSqlAndConvert` builds. */
  const SqlBatchSize: nat := 500

  /** `(DateTime)SqlDateTime.MinValue`, 1 January 1753, bound as
      `currentTimestamp` while nothing has been recorded. */
  const SqlMinDateTime: Opaque := Opaque(552877920000000000, "01/01/1753 00:00:00")

  /** `ImportState.KnownStatus`. */
  const Created: string := "Created"
  const InProgess: string := "InProgess"
  const Finished: string := "Finished"
  const Error: string := "Error"

  /** The checkpoint of one export: `MaxDate` bounds the rows it reads,
      `LastProcessedTimestamp` is the date last recorded. */
  datatype ImportState = ImportState(Identifier: string, Status: string, MaxDate: Opaque,
                                     LastProcessedPosition: int64, LastProcessedTimestamp: Option<Opaque>)

  /** `new ImportState(identifier, maxDate)`: status `Created`, position 0, no date recorded. */
  function NewImportState(identifier: string, maxDate: Opaque): (s: ImportState)
    ensures s.Identifier == identifier && s.MaxDate == maxDate
    ensures s.Status == Created && s.Status in {Created, InProgess, Finished, Error}
    ensures s.LastProcessedPosition == 0 && s.LastProcessedTimestamp.None?
  {
    ImportState(identifier, Created, maxDate, 0, None)
  }

  /** The settings the core reads. */
  datatype Settings = Settings(SqlTableName: string, IdColumn: string, DateColumn: string)

  /** Why `Execute` stopped: the exception it would have propagated, or the
      end of the iterations the model allows it. */
  datatype LegacyError =
    | NotInitialized          // NullReferenceException: no state loaded
    | QueryFailed             // the SQL query threw
    | MissingColumn(name: string)  // KeyNotFoundException on `resolved[name]`
    | NullIdentifier          // NullReferenceException on `.ToString()` of null
    | NotADateTime            // the `(DateTime)` cast of the date column threw
    | UnsupportedValue        // `AddValue` threw on a value of an unsupported type
    | BatchFailed             // `ExecuteBatchAsync` threw
    | StateUpdateFailed       // `UpdateImportState` threw
    | FuelExhausted           // the bound on iterations ran out

  /** The errors caused by the content of a row. */
  predicate IsRowError(e: LegacyError) {
    e.MissingColumn? || e.NullIdentifier? || e.NotADateTime? || e.UnsupportedValue?
  }

  /** The parameter object of the query: `Date` and `currentTimestamp`. */
  datatype Parameters = Parameters(Date: Opaque, currentTimestamp: Opaque)

  /** The parameters a read for `state` binds. */
  function QueryParameters(state: ImportState): Parameters {
    Parameters(state.MaxDate, state.LastProcessedTimestamp.GetOr(SqlMinDateTime))
  }

  /** A row of the legacy table: the columns the query hands over, and the
      value of the date column as the server compares it (`None` for SQL
      NULL, which no comparison keeps). */
  datatype DatedRow = DatedRow(columns: seq<Column>, date: Option<Opaque>)

  /** The table in the order `ORDER BY date ASC` returns it: dated rows in
      ascending date order. */
  predicate DateOrdered(rows: seq<DatedRow>) {
    forall i, j :: 0 <= i < j < |rows| && rows[i].date.Some? && rows[j].date.Some? ==>
      rows[i].date.value.order <= rows[j].date.value.order
  }

  type DateSortedRows = rows: seq<DatedRow> | DateOrdered(rows) witness []

  /** The date the server compares is the value of the date column. */
  predicate DatedBy(dateColumn: string, row: DatedRow) {
    row.date.Some? ==>
      var resolved := FirstWinsMap(row.columns);
      dateColumn in resolved && resolved[dateColumn] == DateTimeValue(row.date.value)
  }

  predicate DatedBefore(row: DatedRow, bound: Opaque) {
    row.date.Some? && row.date.value.order < bound.order
  }

  /** The rows `WHERE date < @date` keeps, in table order. */
  function Before(rows: seq<DatedRow>, bound: Opaque): (r: seq<DatedRow>)
    ensures |r| <= |rows|
    ensures forall i :: 0 <= i < |r| ==> DatedBefore(r[i], bound)
    decreases |rows|
  {
    if rows == [] then []
    else
      var init := Before(rows[..|rows| - 1], bound);
      if DatedBefore(rows[|rows| - 1], bound) then init + [rows[|rows| - 1]] else init
  }

  /** The rows kept are exactly the rows of the table dated before the bound. */
  lemma {:induction false} BeforeMembers(rows: seq<DatedRow>, bound: Opaque)
    ensures forall x :: x in Before(rows, bound) <==> x in rows && DatedBefore(x, bound)
    decreases |rows|
  {
    if rows != [] {
      var init := rows[..|rows| - 1];
      BeforeMembers(init, bound);
      assert rows == init + [rows[|rows| - 1]];
    }
  }

  /** What the statement returns for `@date` bound to `bound`: the columns of
      the first 500 rows dated before it, `rows` listing the table in the
      order `ORDER BY date ASC` returns it. */
  function DateFetch(rows: seq<DatedRow>, bound: Opaque): seq<seq<Column>> {
    var kept := Before(rows, bound);
    var n := if |kept| <= SqlBatchSize then |kept| else SqlBatchSize;
    seq(n, i requires 0 <= i < n => kept[i].columns)
  }

  /** The rows kept from a table in date order are in date order. */
  lemma {:induction false} BeforeOrdered(rows: DateSortedRows, bound: Opaque)
    ensures forall i, j :: 0 <= i < j < |Before(rows, bound)| ==>
      Before(rows, bound)[i].date.value.order <= Before(rows, bound)[j].date.value.order
    decreases |rows|
  {
    if rows != [] {
      var n := |rows| - 1;
      var init: DateSortedRows := rows[..n];
      BeforeOrdered(init, bound);
      BeforeMembers(init, bound);
      var kept := Before(init, bound);
      if DatedBefore(rows[n], bound) {
        forall i | 0 <= i < |kept|
          ensures kept[i].date.value.order <= rows[n].date.value.order
        {
          assert kept[i] in init;
          var k :| 0 <= k < n && init[k] == kept[i];
        }
      }
    }
  }

  /** A fetch holds the first 500 kept rows, or all of them when there are
      fewer, in date order; with `BeforeMembers`, each is a row of the table
      dated before the bound, and none such is left out of a fetch under 500. */
  lemma DateFetchShape(rows: DateSortedRows, bound: Opaque)
    ensures |DateFetch(rows, bound)| ==
      if |Before(rows, bound)| <= SqlBatchSize then |Before(rows, bound)| else SqlBatchSize
    ensures forall i :: 0 <= i < |DateFetch(rows, bound)| ==>
      DateFetch(rows, bound)[i] == Before(rows, bound)[i].columns && DatedBefore(Before(rows, bound)[i], bound)
    ensures forall i, j :: 0 <= i < j < |DateFetch(rows, bound)| ==>
      Before(rows, bound)[i].date.value.order <= Before(rows, bound)[j].date.value.order
  {
    BeforeMembers(rows, bound);
    BeforeOrdered(rows, bound);
    var kept := Before(rows, bound);
    forall i | 0 <= i < |DateFetch(rows, bound)|
      ensures DatedBefore(kept[i], bound)
    {
      assert kept[i] in kept;
    }
  }

  /** The legacy SQL side, as an abstract collaborator: the table, the
      parameters of every query issued, and the ordinals of the queries that
      fail. The table does not change while the pipeline runs. */
  class DateSource {
    const rows: DateSortedRows
    var queries: seq<Parameters>
    const faults: set<nat>

    constructor (rows: DateSortedRows, faults: set<nat>)
      ensures this.rows == rows && queries == [] && this.faults == faults
    {
      this.rows, queries, this.faults := rows, [], faults;
    }

    /** `QueryAsync` of the date-bounded statement; the answer depends on
        `Date` alone, since the statement does not mention `currentTimestamp`. */
    method Query(parameters: Parameters) returns (r: Option<seq<seq<Column>>>)
      modifies this`queries
      ensures queries == old(queries) + [parameters]
      ensures r.Some? <==> |old(queries)| !in faults
      ensures r.Some? ==> r.value == DateFetch(rows, parameters.Date)
    {
      r := if |queries| in faults then None else Some(DateFetch(rows, parameters.Date));
      queries := queries + [parameters];
    }
  }

  /** The columns a row's entity keeps: all but the id column, compared ignoring case. */
  predicate Kept(idColumn: string, name: string) {
    !EqualsIgnoreCase(name, idColumn)
  }

  /** `AddValue` accepts every kept entry. */
  predicate AllConvertible(idColumn: string, resolved: map<string, Value>) {
    forall k :: k in resolved && Kept(idColumn, k) ==> ConvertToEntityProperty(k, resolved[k]).Success?
  }

  /** The converted kept entries. */
  function KeptMap(idColumn: string, resolved: map<string, Value>): Properties {
    map k | k in resolved && Kept(idColumn, k) && ConvertToEntityProperty(k, resolved[k]).Success? ::
      ConvertToEntityProperty(k, resolved[k]).value
  }

  /** The property bag the inner loop builds; `None` when some kept value
      has a type `AddValue` rejects. */
  function KeptProperties(idColumn: string, resolved: map<string, Value>): Option<Properties> {
    if AllConvertible(idColumn, resolved) then Some(KeptMap(idColumn, resolved)) else None
  }

  /** An entity as the loop leaves it: what the table stores, and its `ProcessCursorPoint`. */
  datatype LegacyEntity = LegacyEntity(record: EntityRecord, cursorPoint: Opaque)

  /** The entity `ReadSqlAndConvert` makes of one row, or the error it raises. */
  function ConvertRow(settings: Settings, row: seq<Column>): Result<LegacyEntity, LegacyError> {
    var resolved := FirstWinsMap(row);
    if settings.IdColumn !in resolved then Failure(MissingColumn(settings.IdColumn))
    else
      var id := Display(resolved[settings.IdColumn]);
      if id.None? then Failure(NullIdentifier)
      else if settings.DateColumn !in resolved then Failure(MissingColumn(settings.DateColumn))
      else if !resolved[settings.DateColumn].DateTimeValue? then Failure(NotADateTime)
      else
        var properties := KeptProperties(settings.IdColumn, resolved);
        if properties.None? then Failure(UnsupportedValue)
        else Success(LegacyEntity(
          EntityRecord(DefaultPartitionKey, RowKeyNormalizer.ToRowKeyValue(id.value), properties.value),
          resolved[settings.DateColumn].time))
  }

  /** The error of a row is that of its id lookup, its identifier, its date
      lookup, its date cast or its values, in that order. */
  lemma ConvertRowErrors(settings: Settings, row: seq<Column>)
    ensures var resolved := FirstWinsMap(row);
      var r := ConvertRow(settings, row);
      && (r == Failure(MissingColumn(settings.IdColumn)) <==> settings.IdColumn !in resolved)
      && (r == Failure(MissingColumn(settings.DateColumn)) <==>
            && settings.DateColumn !in resolved
            && (settings.IdColumn == settings.DateColumn ||
                (settings.IdColumn in resolved && !resolved[settings.IdColumn].NullValue?)))
      && (r == Failure(NullIdentifier) <==> settings.IdColumn in resolved && resolved[settings.IdColumn].NullValue?)
      && (r == Failure(NotADateTime) <==>
            && settings.IdColumn in resolved && !resolved[settings.IdColumn].NullValue?
            && settings.DateColumn in resolved && !resolved[settings.DateColumn].DateTimeValue?)
      && (r == Failure(UnsupportedValue) ==>
            exists k :: k in resolved && Kept(settings.IdColumn, k) && resolved[k].OtherValue?)
  {
  }

  /** On success the entity has partition `"default"`, the normalised
      identifier as row key, the row's date as cursor point, and one property
      per column not named like the id column, the converted value of that
      column, so the date column is among them unless it is named like the id column. */
  lemma ConvertRowEntity(settings: Settings, row: seq<Column>)
    ensures var resolved := FirstWinsMap(row);
      var r := ConvertRow(settings, row);
      r.Success? ==>
        && settings.IdColumn in resolved && settings.DateColumn in resolved
        && r.value.record.partitionKey == DefaultPartitionKey
        && r.value.record.rowKey == RowKeyNormalizer.ToRowKeyValue(Display(resolved[settings.IdColumn]).value)
        && resolved[settings.DateColumn] == DateTimeValue(r.value.cursorPoint)
        && r.value.record.properties.Keys == (set k | k in resolved && Kept(settings.IdColumn, k))
        && settings.IdColumn !in r.value.record.properties
        && (Kept(settings.IdColumn, settings.DateColumn) ==>
              r.value.record.properties[settings.DateColumn] == DateTimeProperty(r.value.cursorPoint))
        && forall k :: k in r.value.record.properties ==>
             ConvertToEntityProperty(k, resolved[k]) == Success(r.value.record.properties[k])
  {
    assert !Kept(settings.IdColumn, settings.IdColumn) by {
      FoldSelf(settings.IdColumn);
    }
  }

  lemma FoldSelf(s: string)
    ensures EqualsIgnoreCase(s, s)
  {
  }

  /** The conversion of each row of a batch, in row order. */
  function RowResults(settings: Settings, rows: seq<seq<Column>>): (rs: seq<Result<LegacyEntity, LegacyError>>)
    ensures |rs| == |rows| && forall i :: 0 <= i < |rows| ==> rs[i] == ConvertRow(settings, rows[i])
  {
    seq(|rows|, i requires 0 <= i < |rows| => ConvertRow(settings, rows[i]))
  }

  /** The entities of a batch in row order, or the error of its first bad row. */
  function ConvertAll(settings: Settings, rows: seq<seq<Column>>): Result<seq<LegacyEntity>, LegacyError> {
    Collect(RowResults(settings, rows))
  }

  /** A batch converts exactly when each of its rows does, into one entity per
      row in row order; otherwise the error is that of the first bad row. */
  lemma ConvertAllSpec(settings: Settings, rows: seq<seq<Column>>)
    ensures var c := ConvertAll(settings, rows);
      && (c.Success? <==> forall i :: 0 <= i < |rows| ==> ConvertRow(settings, rows[i]).Success?)
      && (c.Success? ==>
            && |c.value| == |rows|
            && forall i :: 0 <= i < |rows| ==> c.value[i] == ConvertRow(settings, rows[i]).value)
      && (c.Failure? ==>
            exists i :: && 0 <= i < |rows|
                        && ConvertRow(settings, rows[i]) == Failure(c.error)
                        && forall j :: 0 <= j < i ==> ConvertRow(settings, rows[j]).Success?)
  {
    CollectSpec(RowResults(settings, rows));
  }

  /** The processed dates of a batch. */
  function CursorPoints(es: seq<LegacyEntity>): (ps: seq<Opaque>)
    ensures |ps| == |es| && forall i :: 0 <= i < |es| ==> ps[i] == es[i].cursorPoint
  {
    seq(|es|, i requires 0 <= i < |es| => es[i].cursorPoint)
  }

  /** The position of the earliest date, the first of them on a tie. */
  function FirstMinIndex(ps: seq<Opaque>): (i: nat)
    requires ps != []
    ensures i < |ps|
    ensures forall j :: 0 <= j < |ps| ==> ps[i].order <= ps[j].order
    ensures forall j :: 0 <= j < i ==> ps[i].order < ps[j].order
    decreases |ps|
  {
    if |ps| == 1 then 0
    else
      var k := FirstMinIndex(ps[..|ps| - 1]);
      if ps[|ps| - 1].order < ps[k].order then |ps| - 1 else k
  }

  /** `Min` over dates: the earliest, and of equally early ones the first,
      as `Min` keeps a value until a strictly smaller one comes. */
  function MinPoint(ps: seq<Opaque>): (m: Opaque)
    requires ps != []
    ensures m in ps && forall j :: 0 <= j < |ps| ==> m.order <= ps[j].order
  {
    ps[FirstMinIndex(ps)]
  }

  /** The date `Execute` records after a non-empty batch. */
  function BatchMinimum(es: seq<LegacyEntity>): Opaque
    requires es != []
  {
    MinPoint(CursorPoints(es))
  }

  /** The earliest of dates in ascending order is the first. */
  lemma AscendingMin(ps: seq<Opaque>)
    requires ps != []
    requires forall i, j :: 0 <= i < j < |ps| ==> ps[i].order <= ps[j].order
    ensures FirstMinIndex(ps) == 0 && MinPoint(ps) == ps[0]
  {
  }

  /** When the date column carries the dates the server orders by, the
      entities of a batch carry the dates of its rows, and the date recorded
      is that of the first, that is earliest, row of the batch. */
  lemma EarliestFirst(settings: Settings, rows: DateSortedRows, bound: Opaque)
    requires forall i :: 0 <= i < |rows| ==> DatedBy(settings.DateColumn, rows[i])
    ensures var c := ConvertAll(settings, DateFetch(rows, bound));
      c.Success? ==>
        && |c.value| <= |Before(rows, bound)|
        && (forall i :: 0 <= i < |c.value| ==> c.value[i].cursorPoint == Before(rows, bound)[i].date.value)
        && (c.value != [] ==> BatchMinimum(c.value) == c.value[0].cursorPoint)
  {
    var batch := DateFetch(rows, bound);
    var kept := Before(rows, bound);
    var c := ConvertAll(settings, batch);
    ConvertAllSpec(settings, batch);
    DateFetchShape(rows, bound);
    BeforeMembers(rows, bound);
    if c.Success? {
      forall i | 0 <= i < |c.value|
        ensures c.value[i].cursorPoint == kept[i].date.value
      {
        ConvertRowEntity(settings, batch[i]);
        assert kept[i] in rows;
        var k :| 0 <= k < |rows| && rows[k] == kept[i];
        assert DatedBy(settings.DateColumn, rows[k]);
      }
      if c.value != [] {
        AscendingMin(CursorPoints(c.value));
      }
    }
  }

  function RecordsOf(es: seq<LegacyEntity>): (rs: seq<EntityRecord>)
    ensures |rs| == |es| && forall i :: 0 <= i < |es| ==> rs[i] == es[i].record
  {
    seq(|es|, i requires 0 <= i < |es| => es[i].record)
  }

  /** The entity object holds the entity value. */
  predicate Holds(e: DynamicObjectTableEntity, v: LegacyEntity)
    reads e
  {
    && e.PartitionKey == Some(v.record.partitionKey) && e.RowKey == Some(v.record.rowKey)
    && e.Properties == v.record.properties && e.ProcessCursorPoint == v.cursorPoint
  }

  predicate AllHold(es: seq<DynamicObjectTableEntity>, vs: seq<LegacyEntity>)
    reads es
  {
    |es| == |vs| && forall i :: 0 <= i < |es| ==> Holds(es[i], vs[i])
  }

  predicate HaveKeys(es: seq<DynamicObjectTableEntity>)
    reads es
  {
    forall i :: 0 <= i < |es| ==> es[i].PartitionKey.Some? && es[i].RowKey.Some?
  }

  function EntityRecords(es: seq<DynamicObjectTableEntity>): (rs: seq<EntityRecord>)
    reads es
    requires HaveKeys(es)
    ensures |rs| == |es| && forall i :: 0 <= i < |es| ==> rs[i] == es[i].Record()
  {
    seq(|es|, i requires 0 <= i < |es| && es[i].PartitionKey.Some? && es[i].RowKey.Some? reads es => es[i].Record())
  }

  function EntityPoints(es: seq<DynamicObjectTableEntity>): (ps: seq<Opaque>)
    reads es
    ensures |ps| == |es| && forall i :: 0 <= i < |es| ==> ps[i] == es[i].ProcessCursorPoint
  {
    seq(|es|, i requires 0 <= i < |es| reads es => es[i].ProcessCursorPoint)
  }

  /** Objects that hold a batch give its records and its dates. */
  lemma HoldsRecords(es: seq<DynamicObjectTableEntity>, vs: seq<LegacyEntity>)
    requires AllHold(es, vs)
    ensures HaveKeys(es)
    ensures EntityRecords(es) == RecordsOf(vs)
    ensures EntityPoints(es) == CursorPoints(vs)
  {
  }

  /** What a run has observably changed: the state, the queries issued, the
      table, the stored states, and the numbers of batch calls and of store
      updates issued. */
  datatype Snapshot = Snapshot(state: ImportState, queries: seq<Parameters>,
                               tableRows: map<EntityKey, Properties>, stored: map<string, ImportState>,
                               calls: nat, updates: nat)

  /** After `rounds` complete iterations from `start`, where `c` is the
      conversion of the batch the bound selects: the same batch was read
      `rounds` times, all with `MaxDate` as bound and, after the first, with
      the recorded minimum as `currentTimestamp`; the table holds the batch
      written once; the state and the store hold the batch minimum. */
  ghost predicate Looping(c: Result<seq<LegacyEntity>, LegacyError>, start: Snapshot, now: Snapshot, rounds: nat) {
    var s0 := start.state;
    && now.state.(LastProcessedTimestamp := s0.LastProcessedTimestamp) == s0
    && start.calls <= now.calls && now.updates == start.updates + rounds
    && (rounds == 0 ==> now == start)
    && (rounds > 0 ==>
          && c.Success? && c.value != []
          && now.tableRows == UpsertAll(start.tableRows, RecordsOf(c.value))
          && now.state.LastProcessedTimestamp == Some(BatchMinimum(c.value))
          && now.stored == start.stored[s0.Identifier := now.state]
          && Issued(start.queries, now.queries, s0, rounds, Parameters(s0.MaxDate, BatchMinimum(c.value))))
  }

  /** The queries of `rounds` iterations: the first with the parameters of the
      starting state, the others with `later`. */
  ghost predicate Issued(queries0: seq<Parameters>, queries: seq<Parameters>, s0: ImportState, rounds: nat, later: Parameters) {
    && |queries| == |queries0| + rounds
    && queries[..|queries0|] == queries0
    && (rounds > 0 ==> queries[|queries0|] == QueryParameters(s0))
    && forall q :: |queries0| < q < |queries| ==> queries[q] == later
  }

  /** How a run of `Execute` with `fuel` iterations, started in `start`
      with a state loaded, ended in `now` with `r`; see `Stopped`. */
  ghost predicate Ran(settings: Settings, rows: seq<DatedRow>, faults: FaultPlan, fuel: nat,
                      start: Snapshot, now: Snapshot, r: Outcome<LegacyError>) {
    var batch := DateFetch(rows, start.state.MaxDate);
    Stopped(batch, ConvertAll(settings, batch), faults, fuel, start, now, r)
  }

  /** The end of a run whose bound selects `batch`, converted to `c`:
      - only `LastProcessedTimestamp` of the state changed, so every query
        was bound to the starting `MaxDate`; the first query carried the
        starting parameters, each later one the batch minimum;
      - the store holds its old contents or the current state;
      - the store was updated once per iteration that read a batch, save
        the last one unless it ran out of iterations or failed storing;
      - a recorded date is the minimum of the batch;
      - `Pass` only when the batch is empty, having issued one query and
        changed nothing else; a run over a non-empty batch never passes;
      - a bad row is the first bad row of the batch;
      - a failed query, batch call or store update is a planned fault, or,
        for a batch call, a batch naming one entity twice;
      - a failure leaves the table as it was or with the batch written once,
        and a failed push adds some whole groups of 100 of the batch to one
        of those two tables;
      - running out of iterations leaves the batch written once, its
        minimum recorded and persisted. */
  ghost predicate Stopped(batch: seq<seq<Column>>, c: Result<seq<LegacyEntity>, LegacyError>, faults: FaultPlan, fuel: nat,
                          start: Snapshot, now: Snapshot, r: Outcome<LegacyError>) {
    var s0 := start.state;
    && now.state.(LastProcessedTimestamp := s0.LastProcessedTimestamp) == s0
    && |start.queries| <= |now.queries| <= |start.queries| + fuel
    && now.queries[..|start.queries|] == start.queries
    && (forall q :: |start.queries| <= q < |now.queries| ==> now.queries[q].Date == s0.MaxDate)
    && (|now.queries| > |start.queries| ==> now.queries[|start.queries|] == QueryParameters(s0))
    && (forall q :: |start.queries| < q < |now.queries| ==>
          c.Success? && c.value != [] && now.queries[q] == Parameters(s0.MaxDate, BatchMinimum(c.value)))
    && (now.stored == start.stored || now.stored == start.stored[s0.Identifier := now.state])
    && now.updates - start.updates ==
         |now.queries| - |start.queries| - (if r == Fail(StateUpdateFailed) || r == Fail(FuelExhausted) then 0 else 1)
    && (now.state != s0 ==>
          c.Success? && c.value != [] && now.state.LastProcessedTimestamp == Some(BatchMinimum(c.value)))
    && (r.Pass? ==> batch == [] && now == start.(queries := start.queries + [QueryParameters(s0)]))
    && (fuel > 0 && |start.queries| !in faults.queries && batch == [] ==> r.Pass?)
    && (r.Fail? ==> r.error != NotInitialized)
    && (r.Fail? && IsRowError(r.error) ==> c == Failure(r.error))
    && (r == Fail(QueryFailed) ==> |start.queries| < |now.queries| && |now.queries| - 1 in faults.queries)
    && (r.Fail? && r.error != BatchFailed ==>
          now.tableRows == start.tableRows || (c.Success? && now.tableRows == UpsertAll(start.tableRows, RecordsOf(c.value))))
    && (r == Fail(BatchFailed) ==>
          && c.Success?
          && (|| PartlyPushed(start.tableRows, now.tableRows, RecordsOf(c.value))
              || PartlyPushed(UpsertAll(start.tableRows, RecordsOf(c.value)), now.tableRows, RecordsOf(c.value)))
          && ((exists k :: start.calls <= k < now.calls && k in faults.batches) || !DistinctKeys(RecordsOf(c.value))))
    && (r == Fail(StateUpdateFailed) ==>
          && c.Success? && c.value != []
          && exists k :: start.updates <= k < now.updates && k in faults.updates)
    && (r == Fail(FuelExhausted) ==>
          && |now.queries| == |start.queries| + fuel
          && (fuel == 0 ==> now == start)
          && (fuel > 0 ==>
                && c.Success? && c.value != []
                && now.tableRows == UpsertAll(start.tableRows, RecordsOf(c.value))
                && now.state.LastProcessedTimestamp == Some(BatchMinimum(c.value))
                && now.stored == start.stored[s0.Identifier := now.state]))
  }

  /** The fuel ran out after `fuel` complete iterations. */
  lemma OutOfFuel(batch: seq<seq<Column>>, c: Result<seq<LegacyEntity>, LegacyError>, faults: FaultPlan, fuel: nat,
                  start: Snapshot, now: Snapshot)
    requires batch == [] ==> c == Success([])
    requires Looping(c, start, now, fuel)
    ensures Stopped(batch, c, faults, fuel, start, now, Fail(FuelExhausted))
  {
    if fuel > 0 {
      var s0 := start.state;
      assert Issued(start.queries, now.queries, s0, fuel, Parameters(s0.MaxDate, BatchMinimum(c.value)));
      assert now.queries[|start.queries|] == QueryParameters(s0);
    }
  }

  /** An iteration stopped with `e` after its query, with everything but the
      queries as `rounds` complete iterations left it, or, for a failed
      update of the store, with the state already holding the minimum. */
  lemma StoppedAfterQuery(batch: seq<seq<Column>>, c: Result<seq<LegacyEntity>, LegacyError>, faults: FaultPlan,
                          fuel: nat, rounds: nat, start: Snapshot, before: Snapshot, now: Snapshot, e: LegacyError)
    requires rounds < fuel
    requires batch == [] ==> c == Success([])
    requires Looping(c, start, before, rounds)
    requires now.queries == before.queries + [QueryParameters(before.state)]
    requires e != NotInitialized && e != FuelExhausted
    requires IsRowError(e) ==> c == Failure(e)
    requires e == QueryFailed ==> |before.queries| in faults.queries
    requires e == BatchFailed || e == StateUpdateFailed ==> c.Success? && c.value != []
    requires e == BatchFailed ==>
      (exists k :: before.calls <= k < now.calls && k in faults.batches) || !DistinctKeys(RecordsOf(c.value))
    requires e == StateUpdateFailed ==> before.updates in faults.updates
    requires now.updates == before.updates + (if e == StateUpdateFailed then 1 else 0)
    requires e == BatchFailed ==> PartlyPushed(before.tableRows, now.tableRows, RecordsOf(c.value))
    requires e != BatchFailed ==>
      now.tableRows == before.tableRows || (c.Success? && now.tableRows == UpsertAll(before.tableRows, RecordsOf(c.value)))
    requires now.stored == before.stored
    requires now.state == before.state ||
      (c.Success? && c.value != [] && now.state == before.state.(LastProcessedTimestamp := Some(BatchMinimum(c.value))))
    ensures Stopped(batch, c, faults, fuel, start, now, Fail(e))
  {
    var s0 := start.state;
    if rounds > 0 {
      UpsertAllIdempotent(start.tableRows, RecordsOf(c.value));
      var later := Parameters(s0.MaxDate, BatchMinimum(c.value));
      assert Issued(start.queries, before.queries, s0, rounds, later);
      assert QueryParameters(before.state) == later;
      assert now.queries[..|start.queries|] == start.queries by {
        assert now.queries[..|start.queries|] == before.queries[..|start.queries|];
      }
      assert now.queries[|start.queries|] == QueryParameters(s0);
      assert forall q :: |start.queries| < q < |now.queries| ==> now.queries[q] == later;
    } else {
      assert now.queries == start.queries + [QueryParameters(s0)];
    }
    assert now.stored == start.stored || now.stored == start.stored[s0.Identifier := now.state];
    if e == StateUpdateFailed {
      assert start.updates <= before.updates < now.updates;
    }
  }

  /** Without planned faults, a run over a batch whose rows all convert into
      entities with distinct keys ends only by passing on an empty batch or
      by running out of iterations: the same batch is read and written as
      long as the iterations last. */
  lemma FaultFreeLoops(batch: seq<seq<Column>>, c: Result<seq<LegacyEntity>, LegacyError>, fuel: nat,
                       start: Snapshot, now: Snapshot, r: Outcome<LegacyError>)
    requires Stopped(batch, c, FaultPlan({}, {}, {}), fuel, start, now, r)
    requires c.Success? && DistinctKeys(RecordsOf(c.value))
    ensures r == if fuel > 0 && batch == [] then Pass else Fail(FuelExhausted)
  {
  }

  /** The rows the bound selects convert, into entities with distinct keys. */
  ghost predicate Converts(settings: Settings, rows: seq<DatedRow>, bound: Opaque) {
    var c := ConvertAll(settings, DateFetch(rows, bound));
    c.Success? && DistinctKeys(RecordsOf(c.value))
  }

  /** An empty read ends the run after `rounds` iterations: there were none. */
  lemma EmptyRead(batch: seq<seq<Column>>, c: Result<seq<LegacyEntity>, LegacyError>, faults: FaultPlan,
                  fuel: nat, rounds: nat, start: Snapshot, before: Snapshot, now: Snapshot)
    requires rounds < fuel
    requires batch == [] && c == Success([])
    requires Looping(c, start, before, rounds)
    requires now == before.(queries := before.queries + [QueryParameters(before.state)])
    ensures Stopped(batch, c, faults, fuel, start, now, Pass)
  {
  }

  /** A complete iteration: the batch written again changes nothing a first
      write did not, and the recorded minimum is the same. */
  lemma RoundDone(c: Result<seq<LegacyEntity>, LegacyError>, rounds: nat, start: Snapshot, before: Snapshot, now: Snapshot)
    requires Looping(c, start, before, rounds)
    requires c.Success? && c.value != []
    requires now.queries == before.queries + [QueryParameters(before.state)]
    requires now.tableRows == UpsertAll(before.tableRows, RecordsOf(c.value))
    requires now.state == before.state.(LastProcessedTimestamp := Some(BatchMinimum(c.value)))
    requires now.stored == before.stored[now.state.Identifier := now.state]
    requires before.calls <= now.calls && now.updates == before.updates + 1
    ensures Looping(c, start, now, rounds + 1)
  {
    var s0 := start.state;
    var later := Parameters(s0.MaxDate, BatchMinimum(c.value));
    if rounds > 0 {
      UpsertAllIdempotent(start.tableRows, RecordsOf(c.value));
      assert Issued(start.queries, before.queries, s0, rounds, later);
      assert now.queries[..|start.queries|] == start.queries by {
        assert now.queries[..|start.queries|] == before.queries[..|start.queries|];
      }
      assert Issued(start.queries, now.queries, s0, rounds + 1, later);
    } else {
      assert now.queries == start.queries + [QueryParameters(s0)];
      assert Issued(start.queries, now.queries, s0, 1, later);
    }
  }

  class ExportToAzure {
    const settings: Settings
    const source: DateSource
    const table: Table
    const stateStore: StateStore<ImportState>
    /** `None` until `InitializePipeline` loads a state. */
    var currentState: Option<ImportState>

    /** What a run has changed so far. */
    ghost function Now(): Snapshot
      requires currentState.Some?
      reads this, source, table, stateStore
    {
      Snapshot(currentState.value, source.queries, table.rows, stateStore.states, |table.calls|, stateStore.updates)
    }

    /** The calls at which the collaborators throw. */
    ghost function Faults(): FaultPlan {
      FaultPlan(source.faults, table.faults, stateStore.updateFaults)
    }

    constructor (settings: Settings, source: DateSource, table: Table, stateStore: StateStore<ImportState>)
      ensures this.settings == settings && this.source == source
      ensures this.table == table && this.stateStore == stateStore
      ensures currentState.None?
    {
      this.settings, this.source, this.table, this.stateStore := settings, source, table, stateStore;
      currentState := None;
    }

    /** Load the stored state of `identifier`, or start a new one bounded by `olderThan`. */
    method InitializePipeline(identifier: string, olderThan: Opaque)
      modifies this`currentState
      ensures identifier in stateStore.states ==> currentState == Some(stateStore.states[identifier])
      ensures identifier !in stateStore.states ==> currentState == Some(NewImportState(identifier, olderThan))
    {
      var stored := stateStore.ByIdentifier(identifier);
      currentState := Some(if stored.Some? then stored.value else NewImportState(identifier, olderThan));
    }

    /** Upsert the entities in groups of at most 100. */
    method PushToAzure(entities: seq<DynamicObjectTableEntity>) returns (ok: bool)
      requires HaveKeys(entities)
      modifies table
      ensures ok ==> table.calls == old(table.calls) + Batching.Chunks(old(EntityRecords(entities)))
      ensures ok ==> table.rows == UpsertAll(old(table.rows), old(EntityRecords(entities)))
      ensures !ok ==> FailedPush(old(table.calls), old(table.rows), table.calls, table.rows, table.faults, old(EntityRecords(entities)))
    {
      ok := PushInChunks(table, EntityRecords(entities));
    }

    /** Add every entry not named like the id column to a new entity's bag. */
    method AddKeptValues(entity: DynamicObjectTableEntity, resolved: map<string, Value>) returns (r: Outcome<LegacyError>)
      requires entity.Properties == map[]
      modifies entity`Properties
      ensures r.Pass? <==> KeptProperties(settings.IdColumn, resolved).Some?
      ensures r.Pass? ==> entity.Properties == KeptProperties(settings.IdColumn, resolved).value
      ensures r.Fail? ==> r.error == UnsupportedValue
    {
      var remaining := resolved.Keys;
      while remaining != {}
        invariant remaining <= resolved.Keys
        invariant forall k :: k in resolved && k !in remaining && Kept(settings.IdColumn, k) ==>
          ConvertToEntityProperty(k, resolved[k]).Success?
        invariant entity.Properties ==
          map k | k in resolved && k !in remaining && Kept(settings.IdColumn, k) :: ConvertToEntityProperty(k, resolved[k]).value
        decreases remaining
      {
        var key :| key in remaining;
        remaining := remaining - {key};
        if EqualsIgnoreCase(key, settings.IdColumn) {
          continue;
        }
        var added := entity.AddValue(key, resolved[key]);
        if added.Fail? {
          return Fail(UnsupportedValue);
        }
      }
      r := Pass;
    }

    /** The entity of one row, new. */
    method ConvertResult(result: seq<Column>, ghost expected: Result<LegacyEntity, LegacyError>)
      returns (r: Result<DynamicObjectTableEntity, LegacyError>)
      requires expected == ConvertRow(settings, result)
      ensures r.Success? ==> fresh(r.value)
      ensures r.Success? <==> expected.Success?
      ensures r.Success? ==> Holds(r.value, expected.value)
      ensures r.Failure? ==> expected == Failure(r.error) && IsRowError(r.error)
    {
      var resolved := ToDictionary(result);
      if settings.IdColumn !in resolved {
        return Failure(MissingColumn(settings.IdColumn));
      }
      var id := Display(resolved[settings.IdColumn]);
      if id.None? {
        return Failure(NullIdentifier);
      }
      var rowKey := RowKeyNormalizer.ToRowKeyValue(id.value);
      var entity := new DynamicObjectTableEntity.WithKeys(DefaultPartitionKey, rowKey);
      if settings.DateColumn !in resolved {
        return Failure(MissingColumn(settings.DateColumn));
      }
      var date := resolved[settings.DateColumn];
      if !date.DateTimeValue? {
        return Failure(NotADateTime);
      }
      entity.ProcessCursorPoint := date.time;
      var added := AddKeptValues(entity, resolved);
      if added.Fail? {
        return Failure(added.error);
      }
      r := Success(entity);
    }

    /** Query the rows dated before the state's `MaxDate` and convert each. */
    method ReadSqlAndConvert(state: ImportState) returns (r: Result<seq<DynamicObjectTableEntity>, LegacyError>)
      modifies source
      ensures source.queries == old(source.queries) + [QueryParameters(state)]
      ensures r == Failure(QueryFailed) <==> |old(source.queries)| in source.faults
      ensures r.Failure? ==> r.error == QueryFailed || IsRowError(r.error)
      ensures |old(source.queries)| !in source.faults ==>
        var c := ConvertAll(settings, DateFetch(source.rows, state.MaxDate));
        && (r.Success? <==> c.Success?)
        && (r.Success? ==> AllHold(r.value, c.value))
        && (r.Failure? ==> r.error == c.error)
      ensures r.Success? ==> forall i :: 0 <= i < |r.value| ==> fresh(r.value[i])
    {
      var resultsDatabase := source.Query(QueryParameters(state));
      if resultsDatabase.None? {
        return Failure(QueryFailed);
      }
      r := ConvertResults(resultsDatabase.value);
    }

    /** The loop over the rows read: one new entity per row, in row order. */
    method ConvertResults(results: seq<seq<Column>>) returns (r: Result<seq<DynamicObjectTableEntity>, LegacyError>)
      ensures var c := ConvertAll(settings, results);
        && (r.Success? <==> c.Success?)
        && (r.Success? ==> AllHold(r.value, c.value))
        && (r.Failure? ==> r.error == c.error && IsRowError(r.error))
      ensures r.Success? ==> forall i :: 0 <= i < |r.value| ==> fresh(r.value[i])
    {
      ghost var rs := RowResults(settings, results);
      var resultList: seq<DynamicObjectTableEntity> := [];
      ghost var converted: seq<LegacyEntity> := [];
      for i := 0 to |results|
        invariant Collect(rs[..i]) == Success(converted)
        invariant AllHold(resultList, converted)
        invariant forall j :: 0 <= j < |resultList| ==> fresh(resultList[j])
      {
        var entity := ConvertResult(results[i], rs[i]);
        if entity.Failure? {
          assert rs[..i + 1][..i] == rs[..i];
          CollectPrefixFailure(rs, i + 1);
          return Failure(entity.error);
        }
        CollectStep(rs, i, converted);
        converted := converted + [rs[i].value];
        resultList := resultList + [entity.value];
      }
      assert rs[..|rs|] == rs;
      r := Success(resultList);
    }

    /** Read, push, record the batch minimum and persist it, for at most
        `fuel` iterations, until a read comes back empty. */
    method Execute(fuel: nat) returns (r: Outcome<LegacyError>)
      modifies this`currentState, source, table, stateStore
      ensures old(currentState).None? ==> r == Fail(NotInitialized) && unchanged(this, source, table, stateStore)
      ensures old(currentState).Some? ==> currentState.Some?
      ensures old(currentState).Some? ==>
        Ran(settings, source.rows, Faults(), fuel, old(Now()), Now(), r)
      ensures (old(currentState).Some? && Faults() == FaultPlan({}, {}, {}) &&
               Converts(settings, source.rows, old(currentState.value.MaxDate))) ==>
          r == if fuel > 0 && DateFetch(source.rows, old(currentState.value.MaxDate)) == [] then Pass else Fail(FuelExhausted)
    {
      if currentState.None? {
        return Fail(NotInitialized);
      }
      ghost var start := Now();
      ghost var batch := DateFetch(source.rows, start.state.MaxDate);
      ghost var c := ConvertAll(settings, batch);
      assert batch == [] ==> c == Success([]) by {
        ConvertAllSpec(settings, batch);
      }
      var rounds := 0;
      while rounds < fuel
        invariant rounds <= fuel && currentState.Some?
        invariant Looping(c, start, Now(), rounds)
      {
        var more;
        r, more := Iterate(start, fuel, rounds, batch, c);
        if !more {
          Settled(batch, c, fuel, start, r);
          return;
        }
        rounds := rounds + 1;
      }
      OutOfFuel(batch, c, Faults(), fuel, start, Now());
      r := Fail(FuelExhausted);
    }

    /** A run that stopped in the current state stopped as `FaultFreeLoops` says. */
    lemma Settled(batch: seq<seq<Column>>, c: Result<seq<LegacyEntity>, LegacyError>, fuel: nat,
                  start: Snapshot, r: Outcome<LegacyError>)
      requires currentState.Some?
      requires Stopped(batch, c, Faults(), fuel, start, Now(), r)
      ensures Faults() == FaultPlan({}, {}, {}) && c.Success? && DistinctKeys(RecordsOf(c.value)) ==>
        r == if fuel > 0 && batch == [] then Pass else Fail(FuelExhausted)
    {
      if Faults() == FaultPlan({}, {}, {}) && c.Success? && DistinctKeys(RecordsOf(c.value)) {
        FaultFreeLoops(batch, c, fuel, start, Now(), r);
      }
    }

    /** One iteration of the loop: read the batch, push it, record its
        minimum and persist the state. `more` says the loop goes on, with
        one more complete iteration done; otherwise the run has stopped. */
    method Iterate(ghost start: Snapshot, ghost fuel: nat, ghost rounds: nat,
                   ghost batch: seq<seq<Column>>, ghost c: Result<seq<LegacyEntity>, LegacyError>)
      returns (r: Outcome<LegacyError>, more: bool)
      requires rounds < fuel && currentState.Some?
      requires batch == DateFetch(source.rows, start.state.MaxDate) && c == ConvertAll(settings, batch)
      requires batch == [] ==> c == Success([])
      requires Looping(c, start, Now(), rounds)
      modifies this`currentState, source, table, stateStore
      ensures currentState.Some?
      ensures more ==> Looping(c, start, Now(), rounds + 1)
      ensures !more ==> Stopped(batch, c, Faults(), fuel, start, Now(), r)
    {
      ghost var before := Now();
      var databaseObjects;
      r, more, databaseObjects := ReadRound(start, fuel, rounds, batch, c);
      if !more {
        return;
      }
      r, more := PushRound(start, fuel, rounds, batch, c, before, databaseObjects);
      if !more {
        return;
      }
      r, more := RecordRound(start, fuel, rounds, batch, c, before, databaseObjects);
    }

    /** The loop condition: read a batch; `more` says it is not empty. */
    method ReadRound(ghost start: Snapshot, ghost fuel: nat, ghost rounds: nat,
                     ghost batch: seq<seq<Column>>, ghost c: Result<seq<LegacyEntity>, LegacyError>)
      returns (r: Outcome<LegacyError>, more: bool, databaseObjects: seq<DynamicObjectTableEntity>)
      requires rounds < fuel && currentState.Some?
      requires batch == DateFetch(source.rows, start.state.MaxDate) && c == ConvertAll(settings, batch)
      requires batch == [] ==> c == Success([])
      requires Looping(c, start, Now(), rounds)
      modifies source
      ensures !more ==> Stopped(batch, c, Faults(), fuel, start, Now(), r)
      ensures more ==> source.queries == old(source.queries) + [QueryParameters(currentState.value)]
      ensures more ==> c.Success? && c.value != [] && AllHold(databaseObjects, c.value)
    {
      var state := currentState.value;
      ghost var before := Now();
      var read := ReadSqlAndConvert(state);
      if read.Failure? {
        StoppedAfterQuery(batch, c, Faults(), fuel, rounds, start, before,
                          Now(), read.error);
        return Fail(read.error), false, [];
      }
      databaseObjects := read.value;
      if databaseObjects == [] {
        ConvertAllSpec(settings, batch);
        EmptyRead(batch, c, Faults(), fuel, rounds, start, before,
                  Now());
        return Pass, false, [];
      }
      r, more := Pass, true;
    }

    /** The first half of the loop body: push the batch. */
    method PushRound(ghost start: Snapshot, ghost fuel: nat, ghost rounds: nat,
                     ghost batch: seq<seq<Column>>, ghost c: Result<seq<LegacyEntity>, LegacyError>, ghost before: Snapshot,
                     databaseObjects: seq<DynamicObjectTableEntity>)
      returns (r: Outcome<LegacyError>, more: bool)
      requires rounds < fuel && currentState.Some?
      requires batch == [] ==> c == Success([])
      requires Looping(c, start, before, rounds)
      requires Now() ==
        before.(queries := before.queries + [QueryParameters(before.state)])
      requires c.Success? && c.value != [] && AllHold(databaseObjects, c.value)
      modifies table
      ensures more ==> r.Pass? && table.rows == UpsertAll(old(table.rows), RecordsOf(c.value))
      ensures more ==> |old(table.calls)| <= |table.calls|
      ensures !more ==> Stopped(batch, c, Faults(), fuel, start, Now(), r)
    {
      HoldsRecords(databaseObjects, c.value);
      ghost var calls0 := table.calls;
      var pushed := PushToAzure(databaseObjects);
      if !pushed {
        FailedPushCause(calls0, before.tableRows, table.calls, table.rows, table.faults, RecordsOf(c.value));
        StoppedAfterQuery(batch, c, Faults(), fuel, rounds, start, before,
                          Now(), BatchFailed);
        return Fail(BatchFailed), false;
      }
      r, more := Pass, true;
    }

    /** The second half of the loop body: record the batch minimum and persist the state. */
    method RecordRound(ghost start: Snapshot, ghost fuel: nat, ghost rounds: nat,
                       ghost batch: seq<seq<Column>>, ghost c: Result<seq<LegacyEntity>, LegacyError>, ghost before: Snapshot,
                       databaseObjects: seq<DynamicObjectTableEntity>)
      returns (r: Outcome<LegacyError>, more: bool)
      requires rounds < fuel && currentState.Some?
      requires batch == [] ==> c == Success([])
      requires Looping(c, start, before, rounds)
      requires c.Success? && c.value != [] && AllHold(databaseObjects, c.value)
      requires before.calls <= |table.calls|
      requires Now() ==
        before.(queries := before.queries + [QueryParameters(before.state)],
                tableRows := UpsertAll(before.tableRows, RecordsOf(c.value)), calls := |table.calls|)
      modifies this`currentState, stateStore
      ensures currentState.Some?
      ensures more ==> r.Pass? && Looping(c, start, Now(), rounds + 1)
      ensures !more ==> Stopped(batch, c, Faults(), fuel, start, Now(), r)
    {
      HoldsRecords(databaseObjects, c.value);
      var minTimestamp := MinPoint(EntityPoints(databaseObjects));
      currentState := Some(currentState.value.(LastProcessedTimestamp := Some(minTimestamp)));
      var updated := stateStore.UpdateImportState(currentState.value.Identifier, currentState.value);
      if !updated {
        StoppedAfterQuery(batch, c, Faults(), fuel, rounds, start, before,
                          Now(), StateUpdateFailed);
        return Fail(StateUpdateFailed), false;
      }
      RoundDone(c, rounds, start, before, Now());
      r, more := Pass, true;
    }
  }
}
