# Sql-To-Azure, modelled in Dafny

Sql-To-Azure copies the rows of a SQL Server table into an Azure table,
batch by batch, and keeps a checkpoint in a blob store so that an
interrupted export resumes where it stopped. The repository holds two
exporters, and this project models both of them, along with the helpers they share.

- **The cursor pipeline**, `ExportToAzurePipeline`, does the following until a read comes back empty:
  - it reads up to 500 rows whose `rowversion` cursor lies above `LastProcessedPosition`;
  - it turns each row into a `DynamicTableEntity`: partition `"default"`, the identifier with `/` replaced by `-` as row key, every column except the projected `TimestampAsLong` as a property;
  - it shortens the String properties longer than 32000 characters;
  - it upserts the entities in groups of at most 100;
  - it moves the checkpoint to the largest cursor of the batch and stores it.
- **The legacy pipeline**, `ExportToAzure`, does the following until a read comes back empty:
  - it reads up to 500 rows dated before `MaxDate`;
  - it resolves each row case-insensitively, first column wins (`DynamicHelper.ToDictionary`);
  - it builds a `DynamicObjectTableEntity` from the row;
  - it upserts the entities in groups of 100;
  - it records the earliest date of the batch and stores the state.
- **The leaf components**:
  - the two `SqlBuilder.BuildSelect` statements;
  - `SqlHelper.GetDbType`, the .NET to SQL parameter type table;
  - `ReplaceCharacterRowKeyNormalizer`;
  - `PropertySizeTransformer`;
  - `DynamicObjectTableEntity`, with its value conversion and its `EdmType` table.

The collaborators the pipelines call are classes with value-typed state and an explicit fault plan. A fault plan is the set of call ordinals whose call throws. There are three such collaborators:

- the SQL source (`CursorSource.SqlSource`, `ExportToAzure.DateSource`);
- the Azure table (`TableStorage.Table`);
- the blob state store (`StateStore.StateStore`).

Each thrown exception becomes an error value of the run: `PipelineError` or `LegacyError`.

How each pipeline is proved:

- **Cursor pipeline.** Its `Execute` is proved against a reference run built on `CursorSource.Batches`/`Positions`/`FinalPosition`:
  - on success the table holds the upsert of every row above the starting checkpoint, converted and shortened;
  - the checkpoint is the largest cursor;
  - the queries issued are the reference run's;
  - on every outcome the checkpoint only moves forward, and the store holds it unless storing is what failed.

  - a failure leaves the rows up to the checkpoint written, and, for a failed batch call, some whole groups of 100 of the next batch;
  - every failure is a planned fault of a collaborator, a bad row, or a group of 100 that names one entity twice;
  - with no fault planned, a run over exportable rows with distinct keys succeeds.

  Resuming from any checkpoint of a completed export leaves the table unchanged (`ResumeIsHarmless` and `ResumeFromLater`).
- **Legacy pipeline.** The bound `MaxDate` never moves, and the statement does not use the recorded date, so once the bound selects a row each iteration reads the same batch again. The model gives `Execute` a fuel bound of iterations and proves these outcomes:
  - a run over a non-empty batch never ends with success;
  - such a run writes the batch once, in effect, and records the batch minimum;
  - every failure is a planned fault, a bad row, or a batch that names one entity twice;
  - with no fault planned and a batch that converts into entities with distinct keys, the run goes on until the fuel runs out.

Two behaviours of the code are worth stating plainly:

- The cursor pipeline sets the checkpoint to the largest cursor of the batch just read (`ExportToAzurePipeline.cs` lines 77 and 155-158); it never combines that with the old position.
- The legacy pipeline binds `currentTimestamp` (`ExportToAzure.cs` line 88), but its statement (`Source/SqlToAzure/SqlBuilder.cs` line 7) names only `@date`, so the recorded date never changes what is read.

Both pipelines use members that their classes do not declare:

- `ExportToAzure.cs` assigns `ImportState.LastProcessedTimestamp`, which `Source/SqlToAzure/Model/ImportState.cs` does not declare. The model adds that field as `Option<Opaque>`.
- It reads `Settings.DateColumn`. The model adds that field.
- It reads and writes `DynamicObjectTableEntity.ProcessCursorPoint` (lines 53 and 98), which `Source/SqlToAzure/DynamicObjectTableEntity.cs` does not declare. The model adds that field to the entity class.
- `ExportToAzurePipeline.cs` reads `_settings.Identifier` (lines 46 and 52), which `Source/AzureSqlExporter/Pipeline/PipelineSettings.cs` does not declare. The model takes the identifier as a constructor parameter.

## Model

| member | source | states |
|---|---|---|
| Batching.FlattenAppend | Source/AzureSqlExporter/Pipeline/ExportToAzurePipeline.cs:125-137 | Sending groups one after another sends the concatenation of their operations. |
| Batching.ChunksFlatten | Source/AzureSqlExporter/Pipeline/ExportToAzurePipeline.cs:125-137 | The groups of 100 that PushToAzure sends, concatenated, are exactly the entities in order: none lost, none repeated. |
| Batching.ChunksCount | Source/AzureSqlExporter/Pipeline/ExportToAzurePipeline.cs:129-137 | n entities cost ceil(n/100) batch calls; no call is made for no entities. |
| Batching.ChunksSizes | Source/AzureSqlExporter/Pipeline/ExportToAzurePipeline.cs:125-137 | Every batch holds between 1 and 100 operations (the Azure limit), and every batch but the last holds exactly 100. |
| Batching.ChunksAppend | Source/AzureSqlExporter/Pipeline/ExportToAzurePipeline.cs:129-133 | After a multiple of 100 entities the counter restarts: grouping a concatenation is grouping each part. |
| Batching.ChunksOfShort | Source/AzureSqlExporter/Pipeline/ExportToAzurePipeline.cs:136-137 | Up to 100 entities go out as a single batch of all of them. |
| CursorSource.Above | Source/AzureSqlExporter/Impl/SqlBuilder.cs:7 | The `WHERE ts > @cursor` filter keeps only rows whose cursor exceeds the bound, never more rows than the table has. |
| CursorSource.AboveMembers | Source/AzureSqlExporter/Impl/SqlBuilder.cs:7 | A row is kept exactly when it is in the table and its cursor is above the bound, in both directions. |
| CursorSource.AllAbove | Source/AzureSqlExporter/Impl/SqlBuilder.cs:7 | Filtering rows that are all above the bound keeps all of them. |
| CursorSource.AboveSuffix | Source/AzureSqlExporter/Impl/SqlBuilder.cs:7 | On a table in cursor order the kept rows are a suffix of it, still in order. |
| CursorSource.AboveAbove | Source/AzureSqlExporter/Impl/SqlBuilder.cs:7 | Filtering above a low bound and then a higher one equals filtering above the higher one. |
| CursorSource.AboveAppend | Source/AzureSqlExporter/Impl/SqlBuilder.cs:7 | The filter distributes over concatenation. |
| CursorSource.AboveKth | Source/AzureSqlExporter/Impl/SqlBuilder.cs:7 | Above the cursor of the k-th row of an ascending table lie exactly the rows after it. |
| CursorSource.Fetch | Source/AzureSqlExporter/Impl/SqlBuilder.cs:7 | The statement's result rows all carry a cursor. |
| CursorSource.FetchShape | Source/AzureSqlExporter/Impl/SqlBuilder.cs:7 | A read returns at most 500 rows, ascending, all above the bound, the first rows above it in cursor order, and is empty exactly when no row lies above the bound. |
| CursorSource.AscendingPrefix | Source/AzureSqlExporter/Impl/SqlBuilder.cs:7 | A prefix of an ascending result is ascending (the TOP of an ORDER BY). |
| CursorSource.BatchMax | Source/AzureSqlExporter/Pipeline/ExportToAzurePipeline.cs:157-158 | The batch maximum is at least every row's cursor and is the cursor of some row. |
| CursorSource.BatchMaxAscending | Source/AzureSqlExporter/Pipeline/ExportToAzurePipeline.cs:157-158 | On an ordered batch the maximum is the last row's cursor. |
| CursorSource.NextAbove | Source/AzureSqlExporter/Pipeline/ExportToAzurePipeline.cs:155-158 | After a non-empty read the new checkpoint is strictly higher, and the rows above it are exactly those above the old one minus the batch. |
| CursorSource.BatchesComplete | Source/AzureSqlExporter/Pipeline/ExportToAzurePipeline.cs:68-88 | The batches a run reads concatenate to every row above the starting checkpoint, and each holds 1 to 500 rows. |
| CursorSource.BatchesFlatten | Source/AzureSqlExporter/Pipeline/ExportToAzurePipeline.cs:68-88 | No row above the starting checkpoint is skipped or read twice. |
| CursorSource.BatchesSizes | Source/AzureSqlExporter/Pipeline/ExportToAzurePipeline.cs:68-88 | Every batch of a run is non-empty and at most 500 rows. |
| CursorSource.PositionsIncrease | Source/AzureSqlExporter/Pipeline/ExportToAzurePipeline.cs:68-88 | The queried checkpoints start at the stored one, strictly increase, number one more than the batches, and end at the final checkpoint, which is at least the start and has no row above it. |
| CursorSource.PositionsShape | Source/AzureSqlExporter/Pipeline/ExportToAzurePipeline.cs:68-88 | One query per batch plus the final empty one, first at the start, last at the final checkpoint. |
| CursorSource.PositionsStrict | Source/AzureSqlExporter/Pipeline/ExportToAzurePipeline.cs:77-87 | The checkpoint strictly increases from query to query. |
| CursorSource.FinalShape | Source/AzureSqlExporter/Pipeline/ExportToAzurePipeline.cs:69 | The loop stops at a checkpoint with no row above it, never below the start. |
| CursorSource.FinalIsLargest | Source/AzureSqlExporter/Pipeline/ExportToAzurePipeline.cs:68-88 | The final checkpoint is the largest cursor above the start, or the start when there is none. |
| CursorSource.SqlSource.constructor | Source/AzureSqlExporter/Helper/SqlHelper.cs:56-93 | A source over a fixed table in cursor order, with no query issued yet. |
| CursorSource.SqlSource.Query | Source/AzureSqlExporter/Pipeline/ExportToAzurePipeline.cs:149-152 | A query records its bound; it fails exactly on the planned ordinals, and otherwise answers the statement (`Fetch`) for that bound. |
| CursorSqlBuilder.StatementShape | Source/AzureSqlExporter/Impl/SqlBuilder.cs:7 | The statement starts with `SELECT TOP n CONVERT(bigint, ts) as TimestampAsLong,  * FROM`, filters `ts > Convert(timestamp,Convert(bigint, @cursor))` and ends with `ORDER BY ts ASC`. |
| CursorSqlBuilder.DefaultStatement | Source/AzureSqlExporter/Impl/SqlBuilder.cs:5 | With the default arguments the statement reads 500 rows ordered by `Timestamp`. |
| CursorSqlBuilder.BatchSizeReadsBack | Source/AzureSqlExporter/Impl/SqlBuilder.cs:7 | The TOP count parses back as the batch size; a negative size gives no count. |
| CursorSqlBuilder.OnlyCursorParameter | Source/AzureSqlExporter/Impl/SqlBuilder.cs:7 | For names without `@`, the statement has exactly one parameter marker, `@cursor`, the one the pipeline binds. |
| DateSqlBuilder.StatementShape | Source/SqlToAzure/SqlBuilder.cs:7 | The statement starts with `SELECT TOP n * FROM table`, filters `date < @date` and ends with `ORDER BY date ASC`. |
| DateSqlBuilder.BatchSizeReadsBack | Source/SqlToAzure/SqlBuilder.cs:7 | The TOP count parses back as the batch size; a negative size gives no count. |
| DateSqlBuilder.IdColumnIgnored | Source/SqlToAzure/SqlBuilder.cs:5-7 | The `idColumn` argument does not affect the statement. |
| DateSqlBuilder.OnlyDateParameter | Source/SqlToAzure/SqlBuilder.cs:7 | For names without `@`, `@date` is the only parameter marker, so `currentTimestamp` is never read. |
| DynamicHelper.Add | Source/SqlToAzure/Helper/DynamicHelper.cs:23 | `Dictionary.Add` of a new key adds exactly that key, with its value, and keeps every old entry. |
| DynamicHelper.ToDictionary | Source/SqlToAzure/Helper/DynamicHelper.cs:11-29 | The loop yields a first-wins dictionary: each column name is covered, and each key is the first column of its case-insensitive name, with its value. |
| DynamicHelper.FirstWinsMapCorrect | Source/SqlToAzure/Helper/DynamicHelper.cs:17-26 | The reference definition satisfies the first-wins specification. |
| DynamicHelper.FirstWinsUnique | Source/SqlToAzure/Helper/DynamicHelper.cs:17-26 | The first-wins specification has a single solution. |
| DynamicHelper.FirstMatch | Source/SqlToAzure/Helper/DynamicHelper.cs:19-20 | The first column matching a name ignoring case: it matches, and no earlier one does. |
| DynamicHelper.NoCaseDuplicates | Source/SqlToAzure/Helper/DynamicHelper.cs:19-25 | No two keys of the result differ only in case. |
| DynamicHelper.FirstOccurrenceKept | Source/SqlToAzure/Helper/DynamicHelper.cs:17-26 | For every column, the key of its name is its first case-insensitive occurrence, with that occurrence's value; later duplicates are dropped. |
| DynamicHelper.KeysAreInputNames | Source/SqlToAzure/Helper/DynamicHelper.cs:23 | Every key is a column name of the input, and there are no more keys than columns. |
| DynamicHelper.NoDuplicatesReproduced | Source/SqlToAzure/Helper/DynamicHelper.cs:17-26 | Without case-insensitive duplicates, every column is kept with its value and the key set is exactly the column names. |
| DynamicEntity.ConvertToEntityProperty | Source/SqlToAzure/DynamicObjectTableEntity.cs:106-132 | Conversion fails exactly for a value of an unsupported type, with the key; null and DBNull become a String property holding null. |
| DynamicEntity.GetType | Source/SqlToAzure/DynamicObjectTableEntity.cs:137-159 | Exactly the eight named `EdmType` members have a .NET type; any other enum value throws. |
| DynamicEntity.ConvertPreservesValue | Source/SqlToAzure/DynamicObjectTableEntity.cs:109-126 | A supported non-null value is stored as the property of its own kind and reads back as the same value. |
| DynamicEntity.ConvertPreservesType | Source/SqlToAzure/DynamicObjectTableEntity.cs:106-159 | The stored property's storage type reads back as the value's .NET type, except that DateTimeOffset comes back as DateTime and null/DBNull as string. |
| DynamicEntity.PropertyTypesAreReadable | Source/SqlToAzure/DynamicObjectTableEntity.cs:137-159 | Every property a conversion can produce has a storage type `GetType` accepts. |
| DynamicEntity.DynamicObjectTableEntity.constructor | Source/SqlToAzure/DynamicObjectTableEntity.cs:50-53 | A new entity has no keys and an empty property bag. |
| DynamicEntity.DynamicObjectTableEntity.WithKeys | Source/SqlToAzure/DynamicObjectTableEntity.cs:55-60 | A new entity has the given partition and row keys and an empty property bag. |
| DynamicEntity.DynamicObjectTableEntity.TryGetMember | Source/SqlToAzure/DynamicObjectTableEntity.cs:62-68 | Reading a member always succeeds; a present member is returned unchanged, while an absent one is first added as a null String property. |
| DynamicEntity.DynamicObjectTableEntity.AddValue | Source/SqlToAzure/DynamicObjectTableEntity.cs:82-91 | Inserts or replaces the converted value under the key, growing the bag only for a new key; an unsupported value throws and changes nothing. |
| DynamicEntity.DynamicObjectTableEntity.TrySetMember | Source/SqlToAzure/DynamicObjectTableEntity.cs:70-80 | Setting a member is an insert-or-replace of the converted value, reporting `true`; an unsupported value throws. |
| DynamicEntity.DynamicObjectTableEntity.ReadEntity | Source/SqlToAzure/DynamicObjectTableEntity.cs:93-101 | After `ReadEntity`, `WriteEntity` hands back exactly the delivered properties. |
| ExportToAzure.NewImportState | Source/SqlToAzure/Model/ImportState.cs:7-29 | A new state keeps identifier and bound, has status `Created` (one of the known statuses), position 0 and no date recorded. |
| ExportToAzure.Before | Source/SqlToAzure/SqlBuilder.cs:7 | The `date < @date` filter never keeps more rows than the table has. |
| ExportToAzure.BeforeMembers | Source/SqlToAzure/SqlBuilder.cs:7 | A row is kept exactly when it is in the table and dated before the bound; SQL NULL dates are never kept. |
| ExportToAzure.BeforeOrdered | Source/SqlToAzure/SqlBuilder.cs:7 | The rows kept from a table in `ORDER BY date ASC` order are in ascending date order. |
| ExportToAzure.DateFetchShape | Source/SqlToAzure/SqlBuilder.cs:7 | A read returns the first 500 rows dated before the bound, or all of them when there are fewer, in ascending date order, each dated before the bound. |
| ExportToAzure.DateSource.constructor | Source/SqlToAzure/Pipeline/ExportToAzure.cs:88 | A source over a fixed table with no query issued. |
| ExportToAzure.DateSource.Query | Source/SqlToAzure/Pipeline/ExportToAzure.cs:88 | A query records its parameters and fails exactly on the planned ordinals; otherwise its answer depends on `Date` alone. |
| ExportToAzure.ConvertRowErrors | Source/SqlToAzure/Pipeline/ExportToAzure.cs:94-106 | A row fails on a missing id column, a null identifier, a missing date column, a date that is not a DateTime, or an unsupported value, checked in that order. The first four are both-way characterisations; a missing date column equal to the id column reports the id column. |
| ExportToAzure.ConvertRowEntity | Source/SqlToAzure/Pipeline/ExportToAzure.cs:94-106 | A converted row has partition `"default"`, the normalised identifier as row key, and its date as cursor point (the date property when the date column is kept). It has one property per column not named like the id column ignoring case, each the converted column value. |
| ExportToAzure.ConvertAllSpec | Source/SqlToAzure/Pipeline/ExportToAzure.cs:92-111 | A batch converts exactly when every row does, into one entity per row in order; otherwise its error is the first bad row's. |
| ExportToAzure.FirstMinIndex | Source/SqlToAzure/Pipeline/ExportToAzure.cs:53 | Picks the earliest date, and the first of several equally early ones. |
| ExportToAzure.MinPoint | Source/SqlToAzure/Pipeline/ExportToAzure.cs:53 | `Min` yields a date of the batch no later than any other. |
| ExportToAzure.EarliestFirst | Source/SqlToAzure/Pipeline/ExportToAzure.cs:53-54 | When the date column carries the dates the server orders by, each entity carries its row's date, and the recorded date is that of the first, earliest, row of the batch. |
| ExportToAzure.HoldsRecords | Source/SqlToAzure/Pipeline/ExportToAzure.cs:51-53 | Objects built from a batch send exactly its records and carry exactly its dates. |
| ExportToAzure.OutOfFuel | Source/SqlToAzure/Pipeline/ExportToAzure.cs:49-59 | After the allowed iterations the run has written the batch once, recorded its minimum and stored the state, and issued one query per iteration. |
| ExportToAzure.StoppedAfterQuery | Source/SqlToAzure/Pipeline/ExportToAzure.cs:49-56 | A query, push or store failure, or a bad row, ends the run with the state and store as the last complete iteration left them; the state may already hold the minimum when storing failed. The failure must be a planned fault of that call, or, for a push, a batch naming one entity twice, and a failed push leaves some whole groups of the batch applied. A failed update of the store was counted as an update; no other failure after the query updated the store. |
| ExportToAzure.EmptyRead | Source/SqlToAzure/Pipeline/ExportToAzure.cs:49 | An empty read ends the run successfully, and only before any iteration. |
| ExportToAzure.RoundDone | Source/SqlToAzure/Pipeline/ExportToAzure.cs:49-56 | Another iteration rewrites the same batch (no change to the table) and records the same minimum with the same query parameters. |
| ExportToAzure.FaultFreeLoops | Source/SqlToAzure/Pipeline/ExportToAzure.cs:49-59 | With no fault planned and a batch that converts into entities with distinct keys, a run ends only by passing over an empty batch or by running out of iterations. |
| ExportToAzure.ExportToAzure.constructor | Source/SqlToAzure/Pipeline/ExportToAzure.cs:30-35 | A pipeline with its collaborators and no state loaded. |
| ExportToAzure.ExportToAzure.InitializePipeline | Source/SqlToAzure/Pipeline/ExportToAzure.cs:37-39 | Loads the stored state of the identifier, else a new state bounded by `olderThan`. |
| ExportToAzure.ExportToAzure.PushToAzure | Source/SqlToAzure/Pipeline/ExportToAzure.cs:63-80 | On success, sends the entities in groups of 100 and upserts them all. On failure, the failing call was a planned fault or its group named one entity twice, and the earlier groups had been applied. |
| ExportToAzure.ExportToAzure.AddKeptValues | Source/SqlToAzure/Pipeline/ExportToAzure.cs:100-106 | The inner loop fills the bag with every entry not named like the id column, converted, and fails exactly when some such entry has an unsupported type. |
| ExportToAzure.ExportToAzure.ConvertResult | Source/SqlToAzure/Pipeline/ExportToAzure.cs:94-108 | The loop body makes a new entity holding the row's conversion, or raises exactly the row's conversion error. |
| ExportToAzure.ExportToAzure.ReadSqlAndConvert | Source/SqlToAzure/Pipeline/ExportToAzure.cs:82-113 | Issues one query with `Date = MaxDate` and `currentTimestamp` defaulting to 1 January 1753. It fails exactly on a planned fault, else converts the selected rows as `ConvertAll` does. |
| ExportToAzure.ExportToAzure.ConvertResults | Source/SqlToAzure/Pipeline/ExportToAzure.cs:90-111 | One new entity per row in row order holding its conversion, or the first bad row's error. |
| ExportToAzure.ExportToAzure.Execute | Source/SqlToAzure/Pipeline/ExportToAzure.cs:46-61 | Without a state it fails and changes nothing. Otherwise every query is bound to the unchanged `MaxDate`; success happens only on an empty batch; a bad row is the batch's first; every other failure is a planned fault or a batch naming one entity twice, and a failed update of the state store comes only after a non-empty batch that converted. The store was updated once per query, except after the last query, unless the run stopped on a failed update or ran out of fuel. On fuel exhaustion the batch is written and its minimum recorded and stored. With no fault planned and a batch that converts with distinct keys, the run passes on an empty batch and otherwise runs out of fuel. |
| ExportToAzure.ExportToAzure.Iterate | Source/SqlToAzure/Pipeline/ExportToAzure.cs:49-56 | One pass of the loop either keeps the loop invariant with one more complete iteration, or ends the run in a state `Stopped` accepts. |
| ExportToAzure.ExportToAzure.ReadRound | Source/SqlToAzure/Pipeline/ExportToAzure.cs:49 | A failed or empty read ends the run in a state `Stopped` accepts; otherwise one query was issued with the state's parameters and the batch converted to a non-empty list of entities. |
| ExportToAzure.ExportToAzure.PushRound | Source/SqlToAzure/Pipeline/ExportToAzure.cs:51 | A successful push upserts every entity of the batch into the table; a failed one ends the run in a state `Stopped` accepts. |
| ExportToAzure.ExportToAzure.RecordRound | Source/SqlToAzure/Pipeline/ExportToAzure.cs:53-56 | Recording the batch minimum and storing the state keeps the loop invariant with one more iteration, or, when the store refuses, ends the run in a state `Stopped` accepts. |
| ExportToAzure.ExportToAzure.Settled | Source/SqlToAzure/Pipeline/ExportToAzure.cs:49-59 | A run that stopped in the current state, with no fault planned and a batch that converts with distinct keys, stopped as `FaultFreeLoops` says. |
| ExportToAzurePipeline.ConvertAllSpec | Source/AzureSqlExporter/Pipeline/ExportToAzurePipeline.cs:92-109 | A batch converts exactly when every row does, into one entity per row in order; otherwise its error is the first bad row's. |
| ExportToAzurePipeline.ConvertRowShape | Source/AzureSqlExporter/Pipeline/ExportToAzurePipeline.cs:98-104 | A row fails exactly on a missing id column, a null identifier, or an unconvertible kept value. On success the entity has partition `"default"`, the normalised identifier as row key, and one property per column except `TimestampAsLong`, each the converted value. |
| ExportToAzurePipeline.ExportedRowsAppend | Source/AzureSqlExporter/Pipeline/ExportToAzurePipeline.cs:69-88 | Exporting consecutive batches is exporting their concatenation. |
| ExportToAzurePipeline.ExportedRowsShape | Source/AzureSqlExporter/Pipeline/ExportToAzurePipeline.cs:71-104 | Every written entity has partition `"default"`, a `/`-free row key normalising the identifier, and the kept columns as keys. None of its String properties is null or longer than 32003. |
| ExportToAzurePipeline.BadRowSpoils | Source/AzureSqlExporter/Pipeline/ExportToAzurePipeline.cs:71-73 | A bad row in a batch makes the whole remaining export unexportable. |
| ExportToAzurePipeline.ResumeIsHarmless | Source/AzureSqlExporter/Pipeline/ExportToAzurePipeline.cs:57-90 | Running a complete export again from the same checkpoint leaves the table as it was. |
| ExportToAzurePipeline.ResumeFromLater | Source/AzureSqlExporter/Pipeline/ExportToAzurePipeline.cs:57-90 | Resuming from any later checkpoint after a complete export is also exportable and leaves the table unchanged. |
| ExportToAzurePipeline.AboveSplit | Source/AzureSqlExporter/Impl/SqlBuilder.cs:7 | The rows above a later checkpoint are a suffix of those above an earlier one. |
| ExportToAzurePipeline.UpsertSuffixAbsorbed | Source/AzureSqlExporter/Pipeline/ExportToAzurePipeline.cs:127 | Upserting again a suffix of what was just upserted changes nothing. |
| ExportToAzurePipeline.LatestSuffix | Source/AzureSqlExporter/Pipeline/ExportToAzurePipeline.cs:127 | The last upsert per key of a suffix is already the last one of the whole sequence. |
| ExportToAzurePipeline.ExportToAzurePipeline.constructor | Source/AzureSqlExporter/Pipeline/ExportToAzurePipeline.cs:35-42 | A pipeline with its collaborators, not yet initialised. |
| ExportToAzurePipeline.ExportToAzurePipeline.InitializePipeline | Source/AzureSqlExporter/Pipeline/ExportToAzurePipeline.cs:44-55 | Marks the pipeline initialised with the stored state of the identifier, else with a new state at position 0. |
| ExportToAzurePipeline.ExportToAzurePipeline.ConvertToDynamic | Source/AzureSqlExporter/Pipeline/ExportToAzurePipeline.cs:92-109 | One new distinct entity per row with ETag `*`, whose records are the batch's conversion, or the first bad row's error. |
| ExportToAzurePipeline.ExportToAzurePipeline.ConvertResult | Source/AzureSqlExporter/Pipeline/ExportToAzurePipeline.cs:98-105 | The loop body makes a new entity with ETag `*` holding the row's conversion, or raises exactly the row's conversion error. |
| ExportToAzurePipeline.ExportToAzurePipeline.Transform | Source/AzureSqlExporter/Pipeline/ExportToAzurePipeline.cs:111-119 | Succeeds exactly when no entity has a null String property, leaving each entity with its strings shortened. A failure names a null String property of the first entity holding one. |
| ExportToAzurePipeline.ExportToAzurePipeline.PushToAzure | Source/AzureSqlExporter/Pipeline/ExportToAzurePipeline.cs:121-138 | On success, sends the entities in groups of 100 and upserts them all. On failure, the failing call was a planned fault or its group named one entity twice, and the earlier groups had been applied. |
| ExportToAzurePipeline.ExportToAzurePipeline.ReadSqlAndConvert | Source/AzureSqlExporter/Pipeline/ExportToAzurePipeline.cs:140-163 | Issues one query from the state's position and fails exactly on a planned fault. Otherwise it returns the rows the statement selects and, as the next position, the batch maximum, or the old position for an empty result. |
| ExportToAzurePipeline.ExportToAzurePipeline.ExportBatch | Source/AzureSqlExporter/Pipeline/ExportToAzurePipeline.cs:71-75 | On success every row was exportable and the table grew by their converted, shortened entities. A bad row leaves the table untouched, and its error is the first failed conversion of a row or, when every row converts, a null String property of the first entity that has one. A failed batch call leaves the first groups of 100 of the exported batch applied, the failing call a planned fault or a group naming one entity twice. |
| ExportToAzurePipeline.ExportToAzurePipeline.Advance | Source/AzureSqlExporter/Pipeline/ExportToAzurePipeline.cs:77-87 | Moves the state to the batch maximum and counts one store update. Storing fails exactly when that update is planned to fail, which leaves store and trace unchanged; otherwise it reads the next batch from there, failing only on a planned query. |
| ExportToAzurePipeline.ExportToAzurePipeline.ExportCurrentBatch | Source/AzureSqlExporter/Pipeline/ExportToAzurePipeline.cs:71-75 | First half of an iteration: it either ends the run as `Finished` describes, or re-establishes the loop invariant for a checkpoint with fewer rows above it. |
| ExportToAzurePipeline.ExportToAzurePipeline.AdvanceRound | Source/AzureSqlExporter/Pipeline/ExportToAzurePipeline.cs:77-87 | Second half of an iteration: it either keeps the loop invariant at the new checkpoint or ends the run as `Finished` describes. |
| ExportToAzurePipeline.ExportToAzurePipeline.Execute | Source/AzureSqlExporter/Pipeline/ExportToAzurePipeline.cs:57-90 | It refuses to run uninitialised and changes nothing. Otherwise the checkpoint only moves forward along the queried positions, and the store holds it; when storing it failed, the store holds the checkpoint of the last query, the one stored before, so it is never ahead of the rows written. A failure leaves the rows up to the checkpoint written, plus some whole groups of 100 of the next batch after a failed batch call; it is a planned fault of that call, a bad row of the current batch, named as `ExportBatch` names it (the export is then not exportable), or a group naming one entity twice. Whatever the outcome, the queries issued are the reference run's first positions, and the store was updated once per query after the first, the failed update included. On success, every row above the start is exported, the checkpoint is the largest cursor, and the queries are the reference run's. With no fault planned and exportable rows of distinct keys, it succeeds. |
| ExportToAzurePipeline.Spoiled | Source/AzureSqlExporter/Pipeline/ExportToAzurePipeline.cs:71-73 | A bad row in the current batch ends the run in a state `Finished` accepts: the rows before the batch written, and the export not exportable, and the error the batch's row error. |
| ExportToAzurePipeline.RowFailureSpoils | Source/AzureSqlExporter/Pipeline/ExportToAzurePipeline.cs:71-73 | A batch that raises a row error holds a row that is not exportable. |
| ExportToAzurePipeline.ProgressTraced | Source/AzureSqlExporter/Pipeline/ExportToAzurePipeline.cs:68-87 | A run whose queries since the start are a non-empty prefix of the reference positions, ending at the checkpoint, with one store update per query after the first, is traced by `TracedAt`. |
| ExportToAzurePipeline.ProgressStored | Source/AzureSqlExporter/Pipeline/ExportToAzurePipeline.cs:77-79 | While the loop runs, the store holds the checkpoint of the last query issued. |
| ExportToAzurePipeline.TracedRefused | Source/AzureSqlExporter/Pipeline/ExportToAzurePipeline.cs:77-79 | When the store refuses the update, the query from the new checkpoint is never issued, and the trace is `TracedBefore`: the checkpoint is the reference position after the last query, and the store still holds the last query's checkpoint. |
| ExportToAzurePipeline.QueryFailedAfter | Source/AzureSqlExporter/Pipeline/ExportToAzurePipeline.cs:77-87 | A failed query after a stored checkpoint ends the run in a state `Finished` accepts. |
| ExportToAzurePipeline.ProgressParts | Source/AzureSqlExporter/Pipeline/ExportToAzurePipeline.cs:68-88 | A run that satisfies the loop invariant has moved its checkpoint forward along the queried positions, written the rows up to it, and issued a query after the start. Its queries are traced along the reference run. |
| ExportToAzurePipeline.AdvanceFailed | Source/AzureSqlExporter/Pipeline/ExportToAzurePipeline.cs:77-84 | A failed update of the store, or a failed query after it, ends the run in a state `Finished` accepts, with the rows up to the new checkpoint written. |
| ExportToAzurePipeline.QueryAbandoned | Source/AzureSqlExporter/Pipeline/ExportToAzurePipeline.cs:68-87 | A failed query ends a run in a state `Finished` accepts. |
| ExportToAzurePipeline.StoreAbandoned | Source/AzureSqlExporter/Pipeline/ExportToAzurePipeline.cs:77-79 | A failed update of the store after a written batch ends the run in a state `Finished` accepts. The store and the query trace are those from before the update, so the store holds the checkpoint of the last query; the state holds the new checkpoint, and the failed update is counted. |
| ExportToAzurePipeline.QueryRefused | Source/AzureSqlExporter/Pipeline/ExportToAzurePipeline.cs:68-87 | A failed query is explained by the planned fault of the last query, with the rows up to the checkpoint written. |
| ExportToAzurePipeline.StoreRefused | Source/AzureSqlExporter/Pipeline/ExportToAzurePipeline.cs:77-79 | A failed update of the store is explained by a planned fault of an update issued during the run. |
| ExportToAzurePipeline.PushRejected | Source/AzureSqlExporter/Pipeline/ExportToAzurePipeline.cs:71-75 | A failed push of the current batch ends the run in a state `Finished` accepts. |
| ExportToAzurePipeline.Interrupted | Source/AzureSqlExporter/Pipeline/ExportToAzurePipeline.cs:71-75 | A rejected batch call ends the run with the rows before the batch written and some whole groups of the batch applied, the call a planned fault or the batch naming one entity twice. |
| ExportToAzurePipeline.FaultFreePasses | Source/AzureSqlExporter/Pipeline/ExportToAzurePipeline.cs:57-90 | With no fault planned, over rows that are all exportable with distinct keys, a finished run has passed. |
| ExportToAzurePipeline.BatchDistinct | Source/AzureSqlExporter/Pipeline/ExportToAzurePipeline.cs:69-75 | When the whole export has distinct keys, so does each batch of it. |
| ExportToAzurePipeline.ProgressStart | Source/AzureSqlExporter/Pipeline/ExportToAzurePipeline.cs:68 | The first query establishes the loop invariant. |
| ExportToAzurePipeline.ProgressStep | Source/AzureSqlExporter/Pipeline/ExportToAzurePipeline.cs:69-87 | An iteration over a good batch keeps the invariant, for a strictly higher checkpoint with fewer rows above it. |
| ExportToAzurePipeline.RowsStep | Source/AzureSqlExporter/Pipeline/ExportToAzurePipeline.cs:71-75 | The rows written so far grow by the batch, in order. |
| ExportToAzurePipeline.QueriesStep | Source/AzureSqlExporter/Pipeline/ExportToAzurePipeline.cs:77-87 | The queries issued so far grow by the reference run's next position. |
| ExportToAzurePipeline.ProgressDone | Source/AzureSqlExporter/Pipeline/ExportToAzurePipeline.cs:69 | The invariant and an empty read mean the export is complete and matches the reference run. |
| ExportToAzurePipeline.BadBatchSpoils | Source/AzureSqlExporter/Pipeline/ExportToAzurePipeline.cs:71-73 | A bad row in the next batch makes the whole export from the start unexportable. |
| ExportToAzurePipeline.StepRows | Source/AzureSqlExporter/Pipeline/ExportToAzurePipeline.cs:155-158 | The rows above the checkpoint are the batch followed by the rows above the next checkpoint, and the final checkpoint does not change. |
| ExportToAzurePipeline.StepPositions | Source/AzureSqlExporter/Pipeline/ExportToAzurePipeline.cs:77-87 | The positions still to query begin with the next checkpoint. |
| PropertySizeTransformer.ShortenString | Source/SqlToAzure/Pipeline/Transformers/PropertySizeTransformer.cs:24-30 | A string of at most 32000 characters is left alone; a longer one becomes its first 32000 characters followed by `-->`. |
| PropertySizeTransformer.ShortenStringIdempotent | Source/SqlToAzure/Pipeline/Transformers/PropertySizeTransformer.cs:24-30 | Shortening twice is shortening once. |
| PropertySizeTransformer.LimitAllShape | Source/SqlToAzure/Pipeline/Transformers/PropertySizeTransformer.cs:12-22 | A pass keeps the keys and every non-String property. Every String ends at most 32003 long, short ones are unchanged, and null strings stay null. |
| PropertySizeTransformer.LimitAllIdempotent | Source/SqlToAzure/Pipeline/Transformers/PropertySizeTransformer.cs:12-22 | A second pass changes nothing. |
| PropertySizeTransformer.Transform | Source/SqlToAzure/Pipeline/Transformers/PropertySizeTransformer.cs:12-22 | Succeeds exactly when no String property holds null, leaving the bag shortened. A null string throws from a property that holds null, with only some properties shortened and the keys unchanged. |
| RowKeyNormalizer.ToRowKeyValue | Source/SqlToAzure/RowKeyNormailzer.cs:37-40 | Replaces each `/` by `-` and nothing else, keeping the length; the result has no `/`. |
| RowKeyNormalizer.FromRowKeyValue | Source/SqlToAzure/RowKeyNormailzer.cs:42-45 | Replaces each `-` by `/` and nothing else, keeping the length; the result has no `-`. |
| RowKeyNormalizer.FromToRoundTrip | Source/SqlToAzure/RowKeyNormailzer.cs:37-45 | The original is recovered from its row key exactly when it has no `-`. |
| RowKeyNormalizer.ToFromRoundTrip | Source/SqlToAzure/RowKeyNormailzer.cs:37-45 | A row key is reproduced exactly when it has no `/`. |
| RowKeyNormalizer.ToRowKeyValueIdempotent | Source/SqlToAzure/RowKeyNormailzer.cs:37-40 | Normalising a row key again changes nothing. |
| RowKeyNormalizer.ToRowKeyValueCollides | Source/SqlToAzure/RowKeyNormailzer.cs:37-40 | Two identifiers share a row key exactly when they differ only by `/` against `-`. |
| RowKeyNormalizer.NotInjective | Source/SqlToAzure/RowKeyNormailzer.cs:37-40 | `a/b` and `a-b` get the same row key. |
| SqlHelper.GetDbType | Source/AzureSqlExporter/Helper/SqlHelper.cs:37-48 | Returns the table entry of the type or of its underlying type. A failure names the looked-up type, which is not in the table. |
| SqlHelper.Mappings | Source/AzureSqlExporter/Helper/SqlHelper.cs:20-33 | All fourteen entries of the type table, each with its SQL type. |
| SqlHelper.TextMappings | Source/AzureSqlExporter/Helper/SqlHelper.cs:20-21 | `string` and `char[]` map to NVarChar. |
| SqlHelper.IntegerMappings | Source/AzureSqlExporter/Helper/SqlHelper.cs:22-25 | byte, short, int and long map to TinyInt, SmallInt, Int and BigInt. |
| SqlHelper.OtherMappings | Source/AzureSqlExporter/Helper/SqlHelper.cs:26-29 | byte[], bool, DateTime and DateTimeOffset map to Image, Bit, DateTime2 and DateTimeOffset. |
| SqlHelper.NumberMappings | Source/AzureSqlExporter/Helper/SqlHelper.cs:30-33 | decimal, float, double and TimeSpan map to Money, Real, Float and Time. |
| SqlHelper.NullableLikeUnderlying | Source/AzureSqlExporter/Helper/SqlHelper.cs:40 | A nullable type maps like its underlying type. |
| SqlHelper.SupportedExactly | Source/AzureSqlExporter/Helper/SqlHelper.cs:37-48 | A type is supported exactly when it or its underlying type is in the table; Guid, DBNull and every other type throw, naming the looked-up type. |
| SqlHelper.ParameterBinding | Source/AzureSqlExporter/Helper/SqlHelper.cs:70-73 | Binding a value succeeds exactly when its runtime type is in the table; the cursor's `long` binds as BigInt, and a `DateTime` value maps to DateTime2. |
| SqlStatement.TopCountOf | Source/AzureSqlExporter/Impl/SqlBuilder.cs:7 | A statement beginning `SELECT TOP n ` reads back the count n, or none for a negative n. |
| SqlStatement.DecimalLacksAt | Source/AzureSqlExporter/Impl/SqlBuilder.cs:7 | A printed batch size contains no `@`. |
| StateStore.StateStore.constructor | Source/SqlToAzure/Impl/IStateStore.cs:13-20 | A store over given states with no update issued. |
| StateStore.StateStore.ByIdentifier | Source/SqlToAzure/Impl/IStateStore.cs:34-50 | Returns the stored state of the identifier, or null when there is none. |
| StateStore.StateStore.UpdateImportState | Source/SqlToAzure/Impl/IStateStore.cs:72-78 | Overwrites the state stored under the identifier, unless this update is a planned fault, which changes nothing. |
| TableStorage.UpsertAllOverlay | Source/AzureSqlExporter/Pipeline/ExportToAzurePipeline.cs:127 | Upserting a sequence overlays its last record per key onto the old contents. |
| TableStorage.UpsertAllAppend | Source/AzureSqlExporter/Pipeline/ExportToAzurePipeline.cs:125-137 | Upserting a concatenation is upserting the parts one after another. |
| TableStorage.UpsertAllIdempotent | Source/AzureSqlExporter/Pipeline/ExportToAzurePipeline.cs:127 | `InsertOrReplace` of the same records twice equals doing it once. |
| TableStorage.UpsertAllKeys | Source/AzureSqlExporter/Pipeline/ExportToAzurePipeline.cs:127 | Afterwards the table has the old keys plus the records' keys, and an entity whose key is not written is unchanged. |
| TableStorage.LatestKeys | Source/AzureSqlExporter/Pipeline/ExportToAzurePipeline.cs:127 | The last records per key cover exactly the keys written. |
| TableStorage.DynamicTableEntity.constructor | Source/AzureSqlExporter/Pipeline/ExportToAzurePipeline.cs:104 | An entity with the given keys, ETag and properties. |
| TableStorage.Table.constructor | Source/AzureSqlExporter/Pipeline/ExportToAzurePipeline.cs:48-50 | A table with given contents and no batch call yet. |
| TableStorage.Table.ExecuteBatch | Source/AzureSqlExporter/Pipeline/ExportToAzurePipeline.cs:131-137 | A call of 1 to 100 operations is recorded. It fails exactly on a planned ordinal or when two operations name the same entity, leaving the table unchanged; otherwise it upserts the operations. |
| TableStorage.PushInChunks | Source/AzureSqlExporter/Pipeline/ExportToAzurePipeline.cs:121-138 | The `i % 100 == 99` loop and the remainder call send exactly the groups of 100, in order, and upsert every record. On failure, the k-th group's call was a planned fault or named one entity twice, the groups before it were applied, and no later call was made. |
| TableStorage.Submit | Source/AzureSqlExporter/Pipeline/ExportToAzurePipeline.cs:129-137 | Sending the next group extends the calls and the table by that group, or ends the push as a failure at that group. |
| TableStorage.FailureWitness | Source/AzureSqlExporter/Pipeline/ExportToAzurePipeline.cs:131 | A failed call of a group identifies the group where the push failed. |
| TableStorage.FailedPushCause | Source/AzureSqlExporter/Pipeline/ExportToAzurePipeline.cs:125-137 | A failed push made a call that was a planned fault, or was given records naming one entity twice, and left some whole groups applied. |
| TableStorage.ChunksDistinct | Source/AzureSqlExporter/Pipeline/ExportToAzurePipeline.cs:125-137 | Records with distinct keys give groups of 100 with distinct keys. |
| TableStorage.ChunksSplit | Source/AzureSqlExporter/Pipeline/ExportToAzurePipeline.cs:129-133 | After a multiple of 100 operations, the groups sent so far are the first groups of the whole sequence, and the next group is the next 100 or the remainder. |
| Values.TypeOf | Source/AzureSqlExporter/Helper/SqlHelper.cs:72 | `value.GetType()`: a null has no type (the call throws), and no boxed value reports a `Nullable<T>` type. |
| Wrappers.CollectStep | Source/AzureSqlExporter/Pipeline/ExportToAzurePipeline.cs:105 | Adding a successful row's entity extends the collected list by it. |
| Wrappers.CollectSpec | Source/SqlToAzure/Pipeline/ExportToAzure.cs:92-111 | The collected results succeed exactly when all succeed, in order; otherwise they fail with the first failure. |
| Wrappers.CollectPrefixFailure | Source/SqlToAzure/Pipeline/ExportToAzure.cs:92-111 | An exception in a row ends the whole conversion with that row's error. |

## Left out

- Logging (Serilog), the `Stopwatch` and `async`/`await` have no observable effect on the exported data and are not modelled. The connection handling (`SqlConnection`, `CloudStorageAccount.Parse`, `CreateCloudTableClient`) is not modelled either.
- `CreateIfNotExistsAsync` of the table and of the blob container, and `GetTableReference`, are not modelled. The table (`TableStorage.Table`) and the store (`StateStore.StateStore`) are given to the pipeline already existing.
- `SqlHelper.QueryAsync` and `ReadRow` talk to the database. The SQL source classes stand in for them and answer the statement's meaning directly (`CursorSource.Fetch`, `ExportToAzure.DateFetch`). The statement text the builders produce is proved about separately and is not passed to the query.
- `SqlHelper.GetDbType<T>()` is a C# generic over a type argument; it equals `GetDbType(typeof(T))` and is not modelled separately.
- `Base64RowKeyNormalizer` is never used by either pipeline; UTF-8 and Base64 encoding are not modelled.
- `AzureBlobStateStore.AllStates` (paged blob listing) is not called by the core.
- JSON (de)serialisation of the state is not modelled.
- `EntityProperty.CreateEntityPropertyFromObject`, a storage SDK conversion, is not modelled. It is a parameter of the cursor pipeline (`PropertyFactory`), and returning `None` stands for a value the SDK rejects.
- Dictionary enumeration order is not modelled: dictionaries are Dafny maps. Where the first failing key depends on that order, the model states only that some key failed:
  - for `PropertySizeTransformer.Transform`;
  - for `DynamicObjectTableEntity.AddValue` inside the legacy loop;
  - for the cursor pipeline's `CreateEntityPropertyFromObject`.
- `PropertySizeTransformer.Transform`: on failure it does not state which properties were already shortened, because that depends on enumeration order. Only the keys are stated, and that each property is either unchanged or shortened.
- `ExportToAzurePipeline.ExportToAzurePipeline.Transform`: on failure it does not state which entities were already shortened. The batch is dropped when `Transform` throws, so that partial state is never observed.
- `ExportToAzure.ConvertRowErrors`: an unsupported value is stated in one direction only, because which key fails first depends on enumeration order.
- `PropertySizeTransformer.ShortenString` measures and cuts a string in Dafny `char`s, which are Unicode scalar values. .NET's `Length` and `Substring(0, 32000)` count UTF-16 code units, so a character outside the Basic Multilingual Plane counts once in the model and twice in the source. For text made only of such characters, the source cuts above 16000 characters, and `Substring` may split a surrogate pair, which a Dafny string cannot hold. The model cuts only above 32000 characters. `PropertySizeTransformer.LimitProperty`, `LimitAll`, `LimitAllShape`, `Transform` and `ExportToAzurePipeline.ExportedRowsShape` inherit this: their bounds of 32000 and 32003 are in characters, which is up to twice as many UTF-16 code units. For text inside the Basic Multilingual Plane the two measures agree.
- `StringComparison.OrdinalIgnoreCase` is modelled as ASCII upper-case folding; full Unicode case folding is not modelled.
- Only `DateTime` and `DateTimeOffset` that order as ticks are compared in the model (`Opaque` values with an order and a text). Time zones and formatting are not modelled. Floating-point, decimal and Guid values are opaque too.
- The SQL table is static while a pipeline runs:
  - the cursor source holds its rows in strictly ascending `rowversion` order (a `rowversion` is unique);
  - the date source holds its rows in the order `ORDER BY date ASC` returns them (`ExportToAzure.DateSortedRows`).
  Because cursors are unique, `ts > @cursor` after `TOP 500` loses no row. With repeated cursor values, rows sharing the last cursor of a full batch would be skipped by the next read; the model does not cover that case.
  Concurrent writes to the SQL table and to the Azure table are not modelled.
- The `TimestampAsLong` column is taken to hold a `long` on every row, because the statement's `CONVERT(bigint, …)` produces one; `(long)` cast failures are not modelled.
- Reading the state store is modelled as never failing; writing it can fail per the fault plan.
- `ExportToAzure.ExportToAzure.Execute` never ends when the bound selects any row, since it re-reads the same batch. The model bounds it by `fuel` iterations, and `FuelExhausted` stands for the run going on. What happens after the last allowed iteration is not modelled.
- The cursor pipeline's identifier, which its code reads from an undeclared `PipelineSettings` member, is a constructor parameter. The settings fields that only carry connection strings and table names for I/O are not modelled.
- `DynamicObjectTableEntity.Timestamp` is never read or written by the core and is not modelled.
- `ExportToAzure.ImportState.Status` is only ever `Created` in the core. No status transition exists in the code, so none is modelled.
- The legacy `LastProcessedTimestamp`, `DateColumn` and `ProcessCursorPoint` are added to the model although the `ImportState`, `Settings` and `DynamicObjectTableEntity` classes of the repository do not declare them, because the legacy pipeline reads and writes them.
- The Azure table rejects a batch that names one entity twice. The model has `TableStorage.Table.ExecuteBatch` fail on such a batch, and both pipelines then fail with `BatchFailed`; the service's other validations (key characters, entity size) are not modelled.
- Some functions only name a sequence the proofs talk about and have no row: `ExportToAzure.RowResults`, `CursorPoints`, `RecordsOf`, `EntityRecords`, `EntityPoints`, `ExportToAzurePipeline.RowResults`, `SqlHelper.UnderlyingOrSelf` and `TableStorage.Records`.
- Several members exist to carry the proof and name no source operation of their own:
  - `Iterate`, `ReadRound`, `PushRound` and `RecordRound` split the legacy loop body;
  - `ExportCurrentBatch` and `AdvanceRound` split the cursor loop body;
  - `ProgressTraced`, `ProgressStored`, `TracedRefused`, `QueryFailedAfter` and `StoreAbandoned` split the cursor run's failure cases.
  Each has a row above, citing the source lines it carries.
