# EFExtensions bulk load, modelled in Dafny

`EFExtensions.BulkLoad<T>(db, options)` synchronises the local (in-memory) entities of one
Entity Framework entity type with its SQL Server table. It works in four stages:

1. **Transfer columns.** It picks the transfer columns from the entity's mapping. These are
   all mapped properties except navigation properties that are not foreign keys.
2. **Row buffer.** It copies the local records into an in-memory `DataTable`:
   - one column per transfer property, and one row per record;
   - a null scalar becomes `DBNull`;
   - an FK navigation column holds the first primary-key value of the referenced entity.
3. **Database statements.** It runs the statements of one of four `BulkLoadOptions`:
   - **FirstDeleteThenInsert**: `DELETE FROM <table>`, then a bulk copy into the table.
   - **UpsertWithoutDelete**, **UpsertWithDelete** and **Delete** (the staged options):
     1. create a `<table>_temp` staging table;
     2. bulk-copy the buffer into it;
     3. build a match condition and the insert and update lists;
     4. send one `MERGE` statement;
     5. drop the staging table.
4. **Error wrapping.** Any failure reaches the caller as an `ArgumentException` that wraps the
   cause. The FirstDeleteThenInsert transaction has an inner handler of its own, so failures
   inside it (EFExtensions.cs:147-168) are wrapped twice.

The project has six modules, one per file:

- `Entities` (entities.dfy): the mapping, the records, the buffer cells, the failures, and the
  transfer-property filter.
- `Materializer` and `BufferProperties` (materializer.dfy): a `DataTable` class, and the loops
  that fill it, proved equal to the pure functions `ColumnsOf`, `RowOf`, `RowsOf` and `BufferOf`.
  `BufferProperties` states what the buffer holds in terms of the mapping and the records.
- `MergeSql` (merge_sql.dfy): every SQL text, character for character, including:
  - the trailing space left by `Remove(Length - 4)`;
  - the double space in `WHEN  MATCHED`.

  It also has the condition loop and the list loop, each proved equal to its pure function.
- `TargetTable` (target_table.dfy): the target table as a map from primary-key values to rows.
  - A `Table` class has one method per database effect.
  - Pure functions give the effect of each option, with lemmas about them, for example
    idempotence of the upserts.
- `BulkLoad` (bulk_load.dfy): the `Database` class (the target, whether the staging table
  exists, and the statements sent). `BulkLoad.Load` follows the source's control flow, branch
  by branch. It is proved equal to the pure function `BulkLoadRun`.
- `LoadProperties` (load_properties.dfy): what one bulk load does, stated over `BulkLoadRun`.

Inputs that stand in for foreign calls and I/O:

- The mapping layer (`db.Db<T>()`, `db.Db(type)`) is an input `Catalog`.
- Reflection reads are lookups in a record map.
- Whether each database call fails on the server is an input `faults`: the set of calls that
  fail. The server's own refusals are modelled from the data: a primary-key violation in the
  bulk copy, and a MERGE that would touch one target row twice.

Two predicates on the mapping state what the code takes for granted:

- `BulkLoad.WellFormed`: the key properties are key-flagged transfer properties, and no two
  transfer properties share a column.
- `BulkLoad.SuppliedValues`: no transfer property is an identity column.

Three behaviours of the code that a caller might not expect:

- **Staging-table cleanup.** The drop is sent only on the success path
  (EFExtensions.cs:233, 292, 345). After any failure past its creation, the staging table
  stays (`LoadProperties.StagingLeftOnFailure`).
- **FirstDeleteThenInsert is not atomic.** The `DELETE` goes through the context's own
  connection (EFExtensions.cs:156), not through the transaction that holds the bulk copy
  (EFExtensions.cs:145). A failed copy rolls back only the copy, so the target is left empty
  (`LoadProperties.ReplaceAllFailureEmptiesTarget`). It is not left untouched.
- **Empty primary key.** An entity without primary keys is not refused up front. The staged
  options fail at `Remove(-4)` (EFExtensions.cs:201), after the staging table was created and
  filled (`LoadProperties.NoKeyFailsAfterStaging`).

The records are immutable values in the model, so the bulk load only reads them.

## Model

| member | source | states |
|---|---|---|
| Entities.TransferProperties | EFExtensions.cs:93 | a property is transferred exactly when it is mapped and is not a navigation property without a foreign key |
| Entities.TransferPropertiesOfConcat | EFExtensions.cs:93 | the filter keeps mapping order: filtering a concatenation concatenates the filtered parts |
| Entities.TransferPropertiesIdempotent | EFExtensions.cs:93 | filtering the transfer properties again changes nothing |
| Materializer.DataTable.AddColumn | EFExtensions.cs:101-103 | a column is appended exactly when its name is not yet present; rows are untouched |
| Materializer.DataTable.NewRow | EFExtensions.cs:110 | definition: the fresh `dt.NewRow()`, every table column holding DBNull; `Materializer.NewRowFor` states that filling it cell by cell gives `RowOf` |
| Materializer.DataTable.AddRow | EFExtensions.cs:133 | the row is appended after the existing rows; columns are untouched |
| Materializer.ColumnFor | EFExtensions.cs:100-103 | definition: the column added for one property, named by its column and typed by the property or, for an FK navigation, by the referenced entity's first key; `BufferProperties.ColumnsOfOk` and `BufferProperties.BufferColumns` state when the columns build and what they are |
| Materializer.CellFor | EFExtensions.cs:115-131 | definition: the cell one property contributes to a row; `BufferProperties.CellMeaning` states it is DBNull for a null scalar, the value otherwise, and the referenced entity's first key for an FK navigation |
| Materializer.ColumnsOf | EFExtensions.cs:97-104 | on success, one column per property, each the column of the property at the same position |
| Materializer.RowOf | EFExtensions.cs:110-132 | on success, the row has a cell for exactly the transfer columns |
| Materializer.RowsOf | EFExtensions.cs:108-134 | on success, one row per record |
| Materializer.BufferOf | EFExtensions.cs:97-134 | definition: the columns, then the rows, each stopping at the first failure; `BufferProperties.BufferColumns`, `BufferProperties.BufferRows` and `BufferProperties.BufferOfFails` state what it holds and when it fails |
| Materializer.BuildBuffer | EFExtensions.cs:97-134 | the filled DataTable (or the first failure) is exactly `BufferOf` of the mapping and the records |
| Materializer.AddColumns | EFExtensions.cs:97-104 | the column loop gives `ColumnsOf`, stopping at the first failure or duplicate name |
| Materializer.AddRows | EFExtensions.cs:108-134 | the row loop gives `RowsOf`, in enumeration order, stopping at the first failing record |
| Materializer.NewRowFor | EFExtensions.cs:110-132 | assigning each transfer property's cell into a new row gives `RowOf` |
| BufferProperties.ColumnsOfOk | EFExtensions.cs:97-104 | the columns build exactly when the column names are distinct and every column's type can be found |
| BufferProperties.RowOfCells | EFExtensions.cs:111-131 | a row builds exactly when every cell does, and holds each property's cell under its column |
| BufferProperties.RowsOfRows | EFExtensions.cs:108-134 | the rows build exactly when every record's row does, and row i is record i's row |
| BufferProperties.CellMeaning | EFExtensions.cs:115-131 | a scalar cell is DBNull for null and the value otherwise; an FK navigation cell holds the referenced entity's first key value, which is non-null |
| BufferProperties.BuiltRowMatches | EFExtensions.cs:110-133 | a built row is the record's row: every transfer column filled as the source fills it, and nothing else |
| BufferProperties.BufferColumns | EFExtensions.cs:93-104 | the buffer has one column per transfer property, in mapping order, distinct names, typed as the mapping says |
| BufferProperties.BufferRows | EFExtensions.cs:108-134 | the buffer has one row per record, in order, each matching its record |
| BufferProperties.BufferOfFails | EFExtensions.cs:97-134 | the buffer fails exactly when the columns fail or some record's row fails; a column failure comes first |
| MergeSql.StagingTableName | EFExtensions.cs:88 | definition: the table name followed by `_temp`; `MergeSql.StagingTableNameDistinct` states it |
| MergeSql.StagingTableNameDistinct | EFExtensions.cs:88 | the staging table is never the target table, and different targets get different staging tables |
| MergeSql.CreateStagingSql | EFExtensions.cs:188-189 | definition: the literal of these lines; `MergeSql.CreateBeginsWithDrop` states it is the drop text followed by the `SELECT top(0) * into` copy |
| MergeSql.DropStagingSql | EFExtensions.cs:233 | definition: the literal of this line, the same text at EFExtensions.cs:292 and 345; `LoadProperties.StagingLeftOnFailure` states when it runs |
| MergeSql.DeleteAllSql | EFExtensions.cs:155 | definition: the literal of this line; `LoadProperties.OneBranchRuns` states it is the only statement FirstDeleteThenInsert sends |
| MergeSql.CreateBeginsWithDrop | EFExtensions.cs:188-189 | the create text is the drop text (EFExtensions.cs:233) followed by ` \nSELECT top(0) * into <tmp> FROM <table>` |
| MergeSql.Join | EFExtensions.cs:217-218 | definition: `string.Join`, the items with the separator between neighbours, as also at EFExtensions.cs:278-279 and 333-334; `MergeSql.JoinConcat` states it |
| MergeSql.JoinConcat | EFExtensions.cs:217-218 | joining two non-empty lists one after the other is joining each and putting one separator between them |
| MergeSql.Remove | EFExtensions.cs:201 | `Remove(i)` succeeds exactly for 0 <= i < length, and what it keeps plus what it drops is the input |
| MergeSql.MatchTerms | EFExtensions.cs:199-200 | definition: the `Target.c=Source.c` term of each key column, in key order; `MergeSql.MatchConditionShape` states how they make up the condition |
| MergeSql.MatchCondition | EFExtensions.cs:198-201 | definition: the joined terms with the last four characters removed, failing for no key; `MergeSql.MatchConditionShape` states its shape and `MergeSql.BuildCondition` that the loop computes it |
| MergeSql.MatchConditionShape | EFExtensions.cs:198-201 | the condition fails exactly for no key; one key gives `Target.c=Source.c ` with its trailing space; each further key appends `AND Target.c=Source.c ` |
| MergeSql.BuildCondition | EFExtensions.cs:198-201 | the `+=` loop followed by `Remove(Length - 4)` gives `MatchCondition`, failing with index -4 for no key |
| MergeSql.InsertItems | EFExtensions.cs:203-210 | definition: the insert list, one bracketed column per inserted property, in order; `MergeSql.InsertItemsMembers`, `MergeSql.UpsertListsExclude` and `MergeSql.DeleteListsNameAll` state what it holds |
| MergeSql.UpdateItems | EFExtensions.cs:203-215 | definition: the update list, one assignment per updated property, in order; `MergeSql.UpdateItemsMembers`, `MergeSql.UpsertListsExclude` and `MergeSql.DeleteListsNameAll` state what it holds |
| MergeSql.BuildLists | EFExtensions.cs:203-215 | the list loop gives `InsertItems` and `UpdateItems`: upserts skip identity columns in the insert list and key columns in the update list, Delete skips nothing |
| MergeSql.InsertItemsMembers | EFExtensions.cs:206-210 | a column is in the insert list exactly when some property of that column is inserted |
| MergeSql.UpdateItemsMembers | EFExtensions.cs:212-214 | a column is in the update list exactly when some property of that column is updated |
| MergeSql.UpsertListsExclude | EFExtensions.cs:206-215 | with distinct column names, the upsert insert list holds exactly the non-identity columns and the update list exactly the non-key columns |
| MergeSql.DeleteListsNameAll | EFExtensions.cs:327-331 | the Delete mode's lists name every transfer column, in order |
| MergeSql.UpsertWithDeleteSql | EFExtensions.cs:219-226 | definition: the literal of these lines; `MergeSql.UpsertStatementsShareBody` states how it differs from the UpsertWithoutDelete text |
| MergeSql.UpsertWithoutDeleteSql | EFExtensions.cs:280-285 | definition: the literal of these lines; `MergeSql.UpsertStatementsShareBody` states how it differs from the UpsertWithDelete text |
| MergeSql.DeleteMatchedSql | EFExtensions.cs:335-338 | definition: the literal of these lines; `MergeSql.DeleteStatementIgnoresLists` states that it ignores the lists |
| MergeSql.UpsertStatementsShareBody | EFExtensions.cs:219-285 | the two upsert MERGE texts are one shared text followed by `  \nWHEN NOT MATCHED BY SOURCE THEN DELETE;` or by `  ;` |
| MergeSql.DeleteStatementIgnoresLists | EFExtensions.cs:335-338 | the Delete MERGE is the MERGE head and `WHEN  MATCHED THEN DELETE;`, and the same whatever lists are passed |
| TargetTable.InsertedRow | EFExtensions.cs:219-221 | definition: the source row cut down to the insert-list columns; `TargetTable.InsertKeepsKey` states that it keeps the key when every key column is inserted |
| TargetTable.UpdatedRow | EFExtensions.cs:222-223 | definition: the target row overwritten by the source's update-list cells; `TargetTable.UpdateKeepsKey` states that it keeps the target's key when no key column is updated, and `TargetTable.UpdateTwice` that updating twice equals updating once |
| TargetTable.InsertKeepsKey | EFExtensions.cs:219-221 | an inserted row keeps the source row's key when every key column is in the insert list |
| TargetTable.UpsertEffect | EFExtensions.cs:45-49 | definition: matched keys updated, new keys inserted, other rows kept; `TargetTable.UpsertEffectAt` states it row by row |
| TargetTable.UpsertWithDeleteEffect | EFExtensions.cs:50-54 | definition: UpsertEffect restricted to the source keys; `TargetTable.UpsertWithDeleteIsRestrictedUpsert` and `TargetTable.UpsertWithDeleteEffectAt` state it |
| TargetTable.DeleteEffect | EFExtensions.cs:56-59 | definition: the target without the source keys; `LoadProperties.DeleteLoad` states what a Delete load leaves |
| TargetTable.KeyedConsistent | EFExtensions.cs:158-161 | the buffer rows by key sit under their own keys |
| TargetTable.EffectsKeepKeysConsistent | EFExtensions.cs:45-59 | each mode's effect keeps every row under its own key when every key column is inserted and none is updated |
| TargetTable.UpsertWithDeleteIsRestrictedUpsert | EFExtensions.cs:50-54 | UpsertWithDelete is UpsertWithoutDelete followed by removing every target key the source lacks |
| TargetTable.UpdateKeepsKey | EFExtensions.cs:212-214 | an update with no key column in its list keeps the row's key |
| TargetTable.UpsertIdempotent | EFExtensions.cs:45-49 | applying the UpsertWithoutDelete effect twice equals applying it once, when every updated column is also inserted |
| TargetTable.UpsertWithDeleteIdempotent | EFExtensions.cs:50-54 | applying the UpsertWithDelete effect twice equals applying it once, when every updated column is also inserted |
| TargetTable.UpsertEffectAt | EFExtensions.cs:45-49 | with distinct source keys, each source key's row is updated or inserted, other rows are kept, and no key is removed |
| TargetTable.UpsertWithDeleteEffectAt | EFExtensions.cs:50-54 | with distinct source keys, the table keeps exactly the source keys, each updated or inserted |
| TargetTable.Table.DeleteAll | EFExtensions.cs:154-156 | the table is left empty |
| TargetTable.Table.BulkCopy | EFExtensions.cs:158-161 | the copy succeeds exactly when no key repeats or is already present; then each source row is under its key and the old rows stay; otherwise nothing changes |
| TargetTable.Table.MergeUpsert | EFExtensions.cs:45-49 | the UpsertWithoutDelete MERGE succeeds exactly with distinct source keys; then matched rows are updated, new keys inserted, other rows kept; otherwise nothing changes |
| TargetTable.Table.MergeUpsertWithDelete | EFExtensions.cs:50-54 | the UpsertWithDelete MERGE succeeds exactly with distinct source keys; then the table keeps exactly the source keys, updated or inserted |
| TargetTable.Table.MergeDelete | EFExtensions.cs:56-59 | the Delete MERGE succeeds unless a target row is matched twice; then exactly the rows whose key the source has are removed and the rest are unchanged |
| BulkLoad.EffectColumnsAreListed | EFExtensions.cs:206-215 | the column sets the effects use are exactly the columns named in the generated insert and update lists |
| BulkLoad.KeyColumnsListed | EFExtensions.cs:206-215 | on a well-formed mapping no key column is in the update list, and when no transfer property is an identity every key column is in the insert list |
| BulkLoad.MergeText | EFExtensions.cs:219-226 | definition: the MERGE text of the chosen staged mode, also at EFExtensions.cs:280-285 and 335-338; it is the second statement of `LoadProperties.Script`, whose prefixes `LoadProperties.StagedRunSendsPrefix` states a staged run sends |
| BulkLoad.MergeRefused | EFExtensions.cs:227 | definition: the server refuses an upsert MERGE on a repeated source key and a Delete MERGE on a target row matched twice; `LoadProperties.RefusedMergeKeepsTarget` states what a refusal leaves |
| BulkLoad.MergeEffect | EFExtensions.cs:227 | definition: the effect of the chosen mode's MERGE; `LoadProperties.UpsertWithoutDeleteLoad`, `LoadProperties.UpsertWithDeleteLoad` and `LoadProperties.DeleteLoad` state it row by row |
| BulkLoad.Wrapped | EFExtensions.cs:355 | definition: the outer `ArgumentException` around a cause; `LoadProperties.FailuresWrapped` states which failures get it |
| BulkLoad.WrappedTwice | EFExtensions.cs:167 | definition: the FirstDeleteThenInsert handler's `ArgumentException`, wrapped again by the outer one; `LoadProperties.FailuresWrapped` states which failures get it |
| BulkLoad.ReplaceAllRun | EFExtensions.cs:137-174 | definition: the FirstDeleteThenInsert branch step by step; `LoadProperties.ReplaceAllLoadsBuffer` and `LoadProperties.ReplaceAllFailureEmptiesTarget` state its outcomes |
| BulkLoad.StagedRun | EFExtensions.cs:176-236 | definition: a staged branch step by step; `LoadProperties.StagedRunSendsPrefix`, `LoadProperties.StagingLeftOnFailure` and the per-mode load lemmas state its outcomes |
| BulkLoad.BulkLoadRun | EFExtensions.cs:77-357 | definition: the buffer, then the chosen branch; `LoadProperties.OneBranchRuns` and `LoadProperties.FailuresWrapped` state its shape |
| BulkLoad.Database.SendDeleteAll | EFExtensions.cs:155-156 | the DELETE is logged; on success the target is empty, on failure unchanged |
| BulkLoad.Database.SendCreateStaging | EFExtensions.cs:188-190 | the create text is logged; on success the staging table exists |
| BulkLoad.Database.SendMerge | EFExtensions.cs:227 | the MERGE is logged; it fails on a server fault or a refused match, changing no row, and otherwise applies the mode's effect |
| BulkLoad.Database.SendDropStaging | EFExtensions.cs:233-234 | the drop text is logged; on success the staging table no longer exists |
| BulkLoad.Load | EFExtensions.cs:77-357 | the final database state and the outcome are exactly `BulkLoadRun` of the initial state |
| BulkLoad.ReplaceAll | EFExtensions.cs:137-174 | the FirstDeleteThenInsert branch gives exactly `ReplaceAllRun` |
| BulkLoad.StagedMerge | EFExtensions.cs:176-236 | a staged branch gives exactly `StagedRun` |
| LoadProperties.BufferFailureChangesNothing | EFExtensions.cs:352-355 | a failure while building the buffer sends nothing, changes nothing, and surfaces as `ArgumentException("Error in bulkload, …")` around the cause |
| LoadProperties.FailuresWrapped | EFExtensions.cs:164-167 | every modelled failure surfaces as `ArgumentException("Error in bulkload, …")`; its inner exception is `ArgumentException("Bulk load error, …")` around the cause exactly for a FirstDeleteThenInsert failure after the buffer was built (EFExtensions.cs:352-355), and the cause itself otherwise |
| LoadProperties.StagedFailureWrapped | EFExtensions.cs:352-355 | a staged branch fails only with a cause wrapped once |
| LoadProperties.OneBranchRuns | EFExtensions.cs:137-348 | exactly one branch runs: the statements sent are a non-empty prefix of the chosen option's script |
| LoadProperties.StagedRunSendsPrefix | EFExtensions.cs:176-236 | a staged branch sends a non-empty prefix of create, MERGE, drop |
| LoadProperties.ReplaceAllLoadsBuffer | EFExtensions.cs:41-44 | FirstDeleteThenInsert with distinct keys and no fault leaves the target holding exactly the buffer rows, each under its key, and passes |
| LoadProperties.ReplaceAllFailureEmptiesTarget | EFExtensions.cs:145-168 | when the DELETE succeeded but the copy failed, the target is empty and the error is wrapped twice |
| LoadProperties.StagingLeftOnFailure | EFExtensions.cs:230-234 | once the staging table was created, it remains after any failure and is gone after success |
| LoadProperties.NoKeyFailsAfterStaging | EFExtensions.cs:188-201 | with no primary key, a staged option creates and fills the staging table, then fails at `Remove(-4)` with the target untouched |
| LoadProperties.UpsertWithoutDeleteLoad | EFExtensions.cs:45-49 | UpsertWithoutDelete updates or inserts each buffer key's row, keeps every other row, and passes unless the drop fails |
| LoadProperties.UpsertWithDeleteLoad | EFExtensions.cs:50-54 | UpsertWithDelete leaves exactly the buffer keys, each updated or inserted, and passes unless the drop fails |
| LoadProperties.UpsertKeepsMatchedKeys | EFExtensions.cs:212-214 | on a well-formed mapping, every row an upsert updates keeps its key cells |
| LoadProperties.LoadKeepsKeysConsistent | EFExtensions.cs:137-348 | on a well-formed mapping whose values are all supplied, every option keeps each target row under its own key, whether the load passes or fails |
| LoadProperties.ReplaceAllKeepsKeysConsistent | EFExtensions.cs:137-174 | FirstDeleteThenInsert keeps each target row under its own key |
| LoadProperties.StagedKeepsKeysConsistent | EFExtensions.cs:176-236 | a staged branch keeps each target row under its own key when every key column is inserted and none is updated |
| LoadProperties.StagedTarget | EFExtensions.cs:227 | a staged branch leaves the target as it was or replaces it by the MERGE effect |
| LoadProperties.DeleteLoad | EFExtensions.cs:56-59 | Delete removes exactly the target rows whose key is in the buffer and keeps the others unchanged |
| LoadProperties.RefusedMergeKeepsTarget | EFExtensions.cs:227 | a MERGE the server refuses leaves the target unchanged and the staging table in place |
| LoadProperties.UpdateColumnsInserted | EFExtensions.cs:206-215 | when every identity property is a key, every updated column is also inserted |
| LoadProperties.UpsertLoadIdempotent | EFExtensions.cs:176-294 | loading the same records twice with UpsertWithoutDelete or UpsertWithDelete and no fault leaves the target and outcome of loading them once, when no transfer property is an identity |
| LoadProperties.StagedUpsertIdempotent | EFExtensions.cs:176-294 | running a staged upsert branch twice on the same buffer leaves the target and outcome of one run, when every updated column is also inserted |
| LoadProperties.UpsertWithDeleteExample | EFExtensions.cs:50-54 | buffer {1:A, 2:B} over target {2:Old, 3:C} gives {1:A, 2:B} |
| LoadProperties.DeleteExample | EFExtensions.cs:56-59 | buffer {1:A, 2:B} over target {2:Old, 3:C} with Delete gives {3:C} |

## Left out

- Database I/O is not modelled. This covers the connection, the transaction object, `SqlBulkCopy`
  and its column mappings, and `ExecuteSqlCommand`. Each call is modelled by its effect on the
  keyed table and by an input saying whether it fails. Opening the connection and beginning the
  transaction (EFExtensions.cs:142-145) are not modelled, and neither is a failing rollback
  (EFExtensions.cs:166).
- LoadProperties.FailuresWrapped: covers only the failures the fault set models. Three failures
  reach only the outer handler (EFExtensions.cs:352-355) and are wrapped once, even under
  FirstDeleteThenInsert: opening the connection or beginning the transaction
  (EFExtensions.cs:142-145), and a `trans.Rollback()` that throws (EFExtensions.cs:166).
- BulkLoad.ReplaceAllRun: the target is keyed by `mapping.pks`, so for an entity without keys
  every row has the empty key. A copy of two or more rows is then refused after the DELETE,
  which leaves the target empty. The source's bulk copy (EFExtensions.cs:158-160) reads no key
  and would insert every row.
- BulkLoad.ReplaceAll: the same keyless-entity limit as `ReplaceAllRun`.
- TargetTable.Table.BulkCopy: refuses a repeated key, so it cannot hold two rows of a keyless
  entity.
- The Entity Framework mapping layer and reflection are inputs (`Catalog` and `Record` maps).
  `db.Set(typeof(T)).Local` is the input record sequence.
- Column-name comparison is exact. `DataTable` compares names case-insensitively, so two names
  differing only in case are not modelled.
- Column types are carried as names. `DataTable` type checks and conversions are not modelled.
  A value whose type does not match its column is accepted.
- A non-null value copied through an FK navigation goes into the row as is. A null value there
  is modelled as a failure (`NullAssigned`), because a `DataRow` cell takes `DBNull`, not null.
- Identity values generated by the server are not modelled. The effects assume the server
  stores the key values the buffer supplies. For an identity column it does not:
  - `SELECT top(0) * into` (EFExtensions.cs:188-189) copies the IDENTITY property to the
    staging table;
  - `SqlBulkCopy` with default options (EFExtensions.cs:149, 181, 193-194) lets the server
    number the rows;
  - so the staged rows carry new keys, and the MERGE inserts rows that the model files under
    the supplied key. The lines below name each member this limits.
- TargetTable.UpsertEffect: matches and files rows by the supplied key values, which is the
  server's behaviour only for tables without an identity key column.
- TargetTable.UpsertWithDeleteEffect: the same limit as `UpsertEffect`.
- TargetTable.DeleteEffect: matches by the supplied key values, with the same limit.
- TargetTable.Table.BulkCopy: keeps the whole buffer row, identity values included.
- LoadProperties.ReplaceAllLoadsBuffer: states the effect on the supplied keys. For an entity
  with an identity key, that is not what the server stores.
- LoadProperties.UpsertWithoutDeleteLoad: the same limit as `ReplaceAllLoadsBuffer`.
- LoadProperties.UpsertWithDeleteLoad: the same limit as `ReplaceAllLoadsBuffer`.
- LoadProperties.DeleteLoad: the same limit as `ReplaceAllLoadsBuffer`.
- LoadProperties.LoadKeepsKeysConsistent: requires `SuppliedValues` for the same reason.
- LoadProperties.UpsertLoadIdempotent: proved only when no transfer property is an identity
  (`SuppliedValues`). With an identity key, each load renumbers the staged rows, so a second
  load does not repeat the first. An identity column that is not a key would be in the update
  list, and the server refuses to update it.
- LoadProperties.StagedUpsertIdempotent: takes the column sets as given, so the same
  identity-key limit applies through the effects it uses.
- Key comparison treats two DBNull or equal values as equal. SQL's NULL-never-equals-NULL
  matching in the MERGE condition is not modelled.
- The staging table is modelled only as a flag saying whether it exists. Its rows are not
  tracked, including those left by a failed copy into it.
- An empty update or insert list produces SQL that the server rejects. This is not detected;
  such a MERGE is treated as valid text, and its effect as the keyed effect.
- Server refusals are modelled only as duplicate-key violations. Constraint, type and trigger
  errors appear only as a fault input.
- An `options` value outside the four named ones (which runs no branch) is not modelled:
  `BulkLoadOptions` is a closed datatype.
- Program.cs (a console demo with timing and input) is not part of this model.
