/** The bulk load itself: build the buffer, then run the one branch the chosen option
    selects, as a sequence of database calls on the target table and its staging table.
    Whether a database call fails on the server is an input (`faults`, the calls that fail);
    every failure reaches the caller wrapped in an ArgumentException. */
module BulkLoad {
  import opened Entities
  import opened Materializer
  import opened MergeSql
  import opened TargetTable

  /** The four ways of loading the local records into the table. */
  datatype BulkLoadOptions =
    | FirstDeleteThenInsert   // delete every row, then bulk-copy the records
    | UpsertWithoutDelete     // update the rows the records match, insert the others
    | UpsertWithDelete        // as UpsertWithoutDelete, and delete the rows no record matches
    | Delete                  // delete the rows the records match

  /** How a bulk load ends: normally, or by throwing. */
  datatype Outcome = Pass | Fail(error: Exception)

  const OuterMessage := "Error in bulkload, see the inner exception for detail"
  const InnerMessage := "Bulk load error, see the inner exception for detail"

  /** A failure as the caller sees it: wrapped once by the outer handler. */
  function Wrapped(f: Fault): Exception
  {
    ArgumentException(OuterMessage, Cause(f))
  }

  /** A failure inside the FirstDeleteThenInsert transaction: wrapped by its own handler, then
      again by the outer one. */
  function WrappedTwice(f: Fault): Exception
  {
    ArgumentException(OuterMessage, ArgumentException(InnerMessage, Cause(f)))
  }

  /** The columns a MERGE inserts: those of the non-identity transfer properties. */
  function InsertColumns(props: seq<Property>): set<string>
  {
    set p | p in props && !p.isIdentity :: p.columnName
  }

  /** The columns a MERGE updates: those of the non-key transfer properties. */
  function UpdateColumns(props: seq<Property>): set<string>
  {
    set p | p in props && !p.isPk :: p.columnName
  }

  /** The column sets the table effects use are the columns the generated lists name. */
  lemma EffectColumnsAreListed(props: seq<Property>, column: string)
    ensures column in InsertColumns(props) <==> Bracketed(column) in InsertItems(props, true)
    ensures column in UpdateColumns(props) <==> Assignment(column) in UpdateItems(props, true)
  {
    InsertItemsMembers(props, true, column);
    UpdateItemsMembers(props, true, column);
  }

  /** The mapping as the mapping layer reports it: each key property is a key-flagged transfer
      property, and no two transfer properties share a column. */
  predicate WellFormed(mapping: EntityMapping)
  {
    var props := TransferProperties(mapping.properties);
    && Distinct(ColumnNames(props))
    && forall p :: p in mapping.pks ==> p in props && p.isPk
  }

  /** No transfer property is an identity column: the server stores every value the bulk copy
      supplies, keys included, and no MERGE assigns an identity column. */
  predicate SuppliedValues(mapping: EntityMapping)
  {
    forall p :: p in TransferProperties(mapping.properties) ==> !p.isIdentity
  }

  /** On a well-formed mapping no key column is in the update list, and when the values are
      supplied every key column is in the insert list. */
  lemma KeyColumnsListed(mapping: EntityMapping)
    requires WellFormed(mapping)
    ensures var props := TransferProperties(mapping.properties);
      var keyColumns := ColumnNames(mapping.pks);
      forall i :: 0 <= i < |keyColumns| ==>
        && keyColumns[i] !in UpdateColumns(props)
        && (SuppliedValues(mapping) ==> keyColumns[i] in InsertColumns(props))
  {
    var props := TransferProperties(mapping.properties);
    forall i | 0 <= i < |mapping.pks|
      ensures mapping.pks[i].columnName !in UpdateColumns(props)
    {
      var p := mapping.pks[i];
      assert p in mapping.pks;
    }
  }

  /** The MERGE text of a staged mode. */
  function MergeText(mode: BulkLoadOptions, table: string, staging: string, condition: string, ins: string, upd: string): string
    requires mode != FirstDeleteThenInsert
  {
    match mode
    case UpsertWithDelete => UpsertWithDeleteSql(table, staging, condition, ins, upd)
    case UpsertWithoutDelete => UpsertWithoutDeleteSql(table, staging, condition, ins, upd)
    case Delete => DeleteMatchedSql(table, staging, condition, ins, upd)
  }

  /** The server refuses the MERGE of a staged mode: the upserts on any repeated source key
      (a double update or a double insert), Delete on a target row matched twice. */
  predicate MergeRefused(mode: BulkLoadOptions, target: map<Key, Row>, rows: seq<Row>, keyColumns: seq<string>)
  {
    if mode == Delete then MatchedTwice(rows, keyColumns, target) else !DistinctKeys(rows, keyColumns)
  }

  /** What the MERGE of a staged mode makes of the target. */
  function MergeEffect(mode: BulkLoadOptions, target: map<Key, Row>, source: map<Key, Row>, props: seq<Property>): map<Key, Row>
    requires mode != FirstDeleteThenInsert
  {
    match mode
    case UpsertWithDelete => UpsertWithDeleteEffect(target, source, InsertColumns(props), UpdateColumns(props))
    case UpsertWithoutDelete => UpsertEffect(target, source, InsertColumns(props), UpdateColumns(props))
    case Delete => DeleteEffect(target, source)
  }

  // ---------------------------------------------------------------------------
  // The database state and what one call does to it.

  /** The database as a bulk load changes it: the target's rows, whether the staging table
      exists, and every statement sent through `ExecuteSqlCommand`, in order. */
  datatype DbState = DbState(target: map<Key, Row>, stagingExists: bool, statements: seq<string>)

  /** FirstDeleteThenInsert: the DELETE is sent through the context's own connection, outside
      the transaction that holds the bulk copy, so a failed copy rolls back only the copy. */
  function ReplaceAllRun(s: DbState, mapping: EntityMapping, buf: Buffer, faults: set<Step>): (DbState, Outcome)
  {
    var sent := s.(statements := s.statements + [DeleteAllSql(mapping.tableName)]);
    if DeleteRows in faults then (sent, Fail(WrappedTwice(DatabaseError(DeleteRows))))
    else if BulkCopyToTarget in faults then (sent.(target := map[]), Fail(WrappedTwice(DatabaseError(BulkCopyToTarget))))
    else if !DistinctKeys(buf.rows, ColumnNames(mapping.pks)) then (sent.(target := map[]), Fail(WrappedTwice(DuplicateKey)))
    else (sent.(target := Keyed(buf.rows, ColumnNames(mapping.pks))), Pass)
  }

  /** The staged modes: create the staging table, bulk-copy into it, build the condition and
      the lists, send the MERGE, drop the staging table. A failure at any step skips the
      steps after it, the drop included. */
  function StagedRun(s: DbState, mode: BulkLoadOptions, mapping: EntityMapping, props: seq<Property>, buf: Buffer, faults: set<Step>): (DbState, Outcome)
    requires mode != FirstDeleteThenInsert
  {
    var table := mapping.tableName;
    var staging := StagingTableName(table);
    var created := s.(statements := s.statements + [CreateStagingSql(staging, table)]);
    if CreateStaging in faults then (created, Fail(Wrapped(DatabaseError(CreateStaging))))
    else if BulkCopyToStaging in faults then (created.(stagingExists := true), Fail(Wrapped(DatabaseError(BulkCopyToStaging))))
    else
      var copied := created.(stagingExists := true);
      match MatchCondition(mapping.pks)
      case Err(f) => (copied, Fail(Wrapped(f)))
      case Ok(condition) =>
        var upsert := mode != Delete;
        var sql := MergeText(mode, table, staging, condition, Join(",", InsertItems(props, upsert)), Join(",", UpdateItems(props, upsert)));
        var merging := copied.(statements := copied.statements + [sql]);
        if ExecuteMerge in faults then (merging, Fail(Wrapped(DatabaseError(ExecuteMerge))))
        else if MergeRefused(mode, s.target, buf.rows, ColumnNames(mapping.pks)) then (merging, Fail(Wrapped(DuplicateKey)))
        else
          var merged := merging.(target := MergeEffect(mode, s.target, Keyed(buf.rows, ColumnNames(mapping.pks)), props));
          var dropping := merged.(statements := merged.statements + [DropStagingSql(staging)]);
          if DropStaging in faults then (dropping, Fail(Wrapped(DatabaseError(DropStaging))))
          else (dropping.(stagingExists := false), Pass)
  }

  /** One bulk load: the buffer first (a failure there touches no database), then exactly the
      branch of the chosen option. */
  function BulkLoadRun(s: DbState, cat: Catalog, mapping: EntityMapping, records: seq<Record>, options: BulkLoadOptions, faults: set<Step>): (DbState, Outcome)
  {
    match BufferOf(cat, mapping, records)
    case Err(f) => (s, Fail(Wrapped(f)))
    case Ok(buf) =>
      if options == FirstDeleteThenInsert then ReplaceAllRun(s, mapping, buf, faults)
      else StagedRun(s, options, mapping, TransferProperties(mapping.properties), buf, faults)
  }

  // ---------------------------------------------------------------------------
  // The imperative bulk load, proved equal to the functions above.

  /** The database of one context: the entity's table, and the server-side state the bulk
      load touches besides it. */
  class Database {
    const target: Table
    var stagingExists: bool
    var statements: seq<string>

    constructor (target: Table, stagingExists: bool)
      ensures this.target == target && this.stagingExists == stagingExists && statements == []
    {
      this.target := target;
      this.stagingExists := stagingExists;
      statements := [];
    }

    function State(): DbState
      reads this, target
    {
      DbState(target.rows, stagingExists, statements)
    }

    /** Sends `DELETE FROM table`; on success every target row is gone. */
    method SendDeleteAll(sql: string, fails: bool) returns (ok: bool)
      modifies this, target
      ensures ok == !fails
      ensures statements == old(statements) + [sql] && stagingExists == old(stagingExists)
      ensures target.rows == if ok then map[] else old(target.rows)
    {
      statements := statements + [sql];
      ok := !fails;
      if ok {
        target.DeleteAll();
      }
    }

    /** Sends the statement that drops and recreates the staging table; on success it exists. */
    method SendCreateStaging(sql: string, fails: bool) returns (ok: bool)
      modifies this
      ensures ok == !fails
      ensures statements == old(statements) + [sql]
      ensures stagingExists == (ok || old(stagingExists))
    {
      statements := statements + [sql];
      ok := !fails;
      if ok {
        stagingExists := true;
      }
    }

    /** Sends a MERGE; a failed or refused statement changes no row. */
    method SendMerge(sql: string, mode: BulkLoadOptions, source: seq<Row>, keyColumns: seq<string>, props: seq<Property>, fails: bool)
      returns (failure: Option<Fault>)
      requires mode != FirstDeleteThenInsert
      modifies this, target
      ensures statements == old(statements) + [sql] && stagingExists == old(stagingExists)
      ensures failure == if fails then Some(DatabaseError(ExecuteMerge))
                         else if MergeRefused(mode, old(target.rows), source, keyColumns) then Some(DuplicateKey)
                         else None
      ensures target.rows == if failure.None? then MergeEffect(mode, old(target.rows), Keyed(source, keyColumns), props)
                             else old(target.rows)
    {
      statements := statements + [sql];
      if fails {
        return Some(DatabaseError(ExecuteMerge));
      }
      var ok: bool;
      match mode {
        case UpsertWithDelete =>
          ok := target.MergeUpsertWithDelete(source, keyColumns, InsertColumns(props), UpdateColumns(props));
        case UpsertWithoutDelete =>
          ok := target.MergeUpsert(source, keyColumns, InsertColumns(props), UpdateColumns(props));
        case Delete =>
          ok := target.MergeDelete(source, keyColumns);
      }
      failure := if ok then None else Some(DuplicateKey);
    }

    /** Sends the statement that drops the staging table; on success it no longer exists. */
    method SendDropStaging(sql: string, fails: bool) returns (ok: bool)
      modifies this
      ensures ok == !fails
      ensures statements == old(statements) + [sql]
      ensures stagingExists == (old(stagingExists) && !ok)
    {
      statements := statements + [sql];
      ok := !fails;
      if ok {
        stagingExists := false;
      }
    }
  }

  /** `BulkLoad<T>(db, options)`: builds the buffer, then runs the branch of `options`. */
  method Load(db: Database, cat: Catalog, mapping: EntityMapping, records: seq<Record>, options: BulkLoadOptions, faults: set<Step>)
    returns (outcome: Outcome)
    modifies db, db.target
    ensures (db.State(), outcome) == BulkLoadRun(old(db.State()), cat, mapping, records, options, faults)
  {
    var buffer := BuildBuffer(cat, mapping, records);
    if buffer.Err? {
      return Fail(Wrapped(buffer.error));
    }
    var properties := TransferProperties(mapping.properties);
    outcome := Pass;
    if options == FirstDeleteThenInsert {
      outcome := ReplaceAll(db, mapping, buffer.value, faults);
    }
    if options == UpsertWithDelete {
      outcome := StagedMerge(db, UpsertWithDelete, mapping, properties, buffer.value, faults);
    }
    if options == UpsertWithoutDelete {
      outcome := StagedMerge(db, UpsertWithoutDelete, mapping, properties, buffer.value, faults);
    }
    if options == Delete {
      outcome := StagedMerge(db, Delete, mapping, properties, buffer.value, faults);
    }
  }

  /** The FirstDeleteThenInsert branch. */
  method ReplaceAll(db: Database, mapping: EntityMapping, buffer: Buffer, faults: set<Step>) returns (outcome: Outcome)
    modifies db, db.target
    ensures (db.State(), outcome) == ReplaceAllRun(old(db.State()), mapping, buffer, faults)
  {
    var deleted := db.SendDeleteAll(DeleteAllSql(mapping.tableName), DeleteRows in faults);
    if !deleted {
      return Fail(WrappedTwice(DatabaseError(DeleteRows)));
    }
    if BulkCopyToTarget in faults {
      return Fail(WrappedTwice(DatabaseError(BulkCopyToTarget)));
    }
    ghost var emptied := db.State();
    assert emptied.target == map[];
    var copied := db.target.BulkCopy(buffer.rows, ColumnNames(mapping.pks));
    assert copied ==> db.target.rows == Keyed(buffer.rows, ColumnNames(mapping.pks)) by {
      var m: map<Key, Row> := map[];
      assert m + Keyed(buffer.rows, ColumnNames(mapping.pks)) == Keyed(buffer.rows, ColumnNames(mapping.pks));
    }
    if !copied {
      return Fail(WrappedTwice(DuplicateKey));
    }
    outcome := Pass;
  }

  /** The branch of a staged mode. */
  method StagedMerge(db: Database, mode: BulkLoadOptions, mapping: EntityMapping, properties: seq<Property>, buffer: Buffer, faults: set<Step>)
    returns (outcome: Outcome)
    requires mode != FirstDeleteThenInsert
    modifies db, db.target
    ensures (db.State(), outcome) == StagedRun(old(db.State()), mode, mapping, properties, buffer, faults)
  {
    var tableName := mapping.tableName;
    var tempTableName := StagingTableName(tableName);
    var created := db.SendCreateStaging(CreateStagingSql(tempTableName, tableName), CreateStaging in faults);
    if !created {
      return Fail(Wrapped(DatabaseError(CreateStaging)));
    }
    if BulkCopyToStaging in faults {
      return Fail(Wrapped(DatabaseError(BulkCopyToStaging)));
    }
    var condition := BuildCondition(mapping.pks);
    if condition.Err? {
      return Fail(Wrapped(condition.error));
    }
    var insertList, updateList := BuildLists(properties, mode != Delete);
    var insertValues := Join(",", insertList);
    var updateValues := Join(",", updateList);
    var mergeQuery := MergeText(mode, tableName, tempTableName, condition.value, insertValues, updateValues);
    var failure := db.SendMerge(mergeQuery, mode, buffer.rows, ColumnNames(mapping.pks), properties, ExecuteMerge in faults);
    if failure.Some? {
      return Fail(Wrapped(failure.value));
    }
    var dropped := db.SendDropStaging(DropStagingSql(tempTableName), DropStaging in faults);
    if !dropped {
      return Fail(Wrapped(DatabaseError(DropStaging)));
    }
    outcome := Pass;
  }
}
