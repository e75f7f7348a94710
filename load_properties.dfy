/** What one bulk load does, stated over `BulkLoadRun` (which `BulkLoad.Load` is proved to
    follow): the effect of each option on the target, the statements sent, what a failure
    leaves behind, and idempotence of the upserts. */
module LoadProperties {
  import opened Entities
  import opened Materializer
  import opened MergeSql
  import opened TargetTable
  import opened BulkLoad

  /** The statements an option sends when nothing fails, in order. A run sends a prefix of it. */
  function Script(options: BulkLoadOptions, mapping: EntityMapping, props: seq<Property>): (r: seq<string>)
    ensures options == FirstDeleteThenInsert ==> r == [DeleteAllSql(mapping.tableName)]
    ensures options != FirstDeleteThenInsert ==>
      1 <= |r| <= 3 && r[0] == CreateStagingSql(StagingTableName(mapping.tableName), mapping.tableName)
  {
    var table := mapping.tableName;
    var staging := StagingTableName(table);
    if options == FirstDeleteThenInsert then [DeleteAllSql(table)]
    else
      match MatchCondition(mapping.pks)
      case Err(_) => [CreateStagingSql(staging, table)]
      case Ok(condition) =>
        var upsert := options != Delete;
        [CreateStagingSql(staging, table),
         MergeText(options, table, staging, condition, Join(",", InsertItems(props, upsert)), Join(",", UpdateItems(props, upsert))),
         DropStagingSql(staging)]
  }

  /** A failure while building the buffer reaches the caller wrapped once and sends nothing:
      the database is left exactly as it was. */
  lemma BufferFailureChangesNothing(s: DbState, cat: Catalog, mapping: EntityMapping, records: seq<Record>, options: BulkLoadOptions, faults: set<Step>)
    requires BufferOf(cat, mapping, records).Err?
    ensures BulkLoadRun(s, cat, mapping, records, options, faults)
      == (s, Fail(ArgumentException(OuterMessage, Cause(BufferOf(cat, mapping, records).error))))
  {
  }

  /** Exactly one branch runs: the statements sent are a non-empty prefix of the chosen option's
      script. */
  lemma {:induction false} OneBranchRuns(s: DbState, cat: Catalog, mapping: EntityMapping, records: seq<Record>, options: BulkLoadOptions, faults: set<Step>)
    requires BufferOf(cat, mapping, records).Ok?
    ensures var script := Script(options, mapping, TransferProperties(mapping.properties));
      var sent := BulkLoadRun(s, cat, mapping, records, options, faults).0.statements;
      && |s.statements| < |sent| <= |s.statements| + |script|
      && sent == s.statements + script[..|sent| - |s.statements|]
  {
    var buf := BufferOf(cat, mapping, records).value;
    var props := TransferProperties(mapping.properties);
    RunDispatch(s, cat, mapping, records, options, faults);
    if options == FirstDeleteThenInsert {
      ReplaceAllRunSendsDelete(s, mapping, props, buf, faults);
    } else {
      StagedRunSendsPrefix(s, options, mapping, props, buf, faults);
    }
  }

  lemma ReplaceAllRunSendsDelete(s: DbState, mapping: EntityMapping, props: seq<Property>, buf: Buffer, faults: set<Step>)
    ensures var script := Script(FirstDeleteThenInsert, mapping, props);
      var sent := ReplaceAllRun(s, mapping, buf, faults).0.statements;
      && |s.statements| < |sent| <= |s.statements| + |script|
      && sent == s.statements + script[..|sent| - |s.statements|]
  {
    var script := Script(FirstDeleteThenInsert, mapping, props);
    assert script[..1] == [DeleteAllSql(mapping.tableName)];
  }

  /** Once the buffer is built, a bulk load is the branch of its option on that buffer. */
  lemma RunDispatch(s: DbState, cat: Catalog, mapping: EntityMapping, records: seq<Record>, options: BulkLoadOptions, faults: set<Step>)
    requires BufferOf(cat, mapping, records).Ok?
    ensures var buf := BufferOf(cat, mapping, records).value;
      BulkLoadRun(s, cat, mapping, records, options, faults)
        == if options == FirstDeleteThenInsert then ReplaceAllRun(s, mapping, buf, faults)
           else StagedRun(s, options, mapping, TransferProperties(mapping.properties), buf, faults)
  {
  }

  lemma {:induction false} StagedRunSendsPrefix(s: DbState, mode: BulkLoadOptions, mapping: EntityMapping, props: seq<Property>, buf: Buffer, faults: set<Step>)
    requires mode != FirstDeleteThenInsert
    ensures var script := Script(mode, mapping, props);
      var sent := StagedRun(s, mode, mapping, props, buf, faults).0.statements;
      && |s.statements| < |sent| <= |s.statements| + |script|
      && sent == s.statements + script[..|sent| - |s.statements|]
  {
    var script := Script(mode, mapping, props);
    var sent := StagedRun(s, mode, mapping, props, buf, faults).0.statements;
    if CreateStaging in faults || BulkCopyToStaging in faults || MatchCondition(mapping.pks).Err? {
      assert sent == s.statements + script[..1];
    } else if ExecuteMerge in faults || MergeRefused(mode, s.target, buf.rows, ColumnNames(mapping.pks)) {
      assert sent == s.statements + script[..2];
    } else {
      assert sent == s.statements + script[..3];
    }
  }

  /** Every failure reaches the caller as an ArgumentException with the outer message. Its inner
      exception is the FirstDeleteThenInsert handler's own ArgumentException, wrapping the
      cause, exactly when the failure happened inside that option's transaction; otherwise it
      is the cause itself. */
  lemma {:induction false} FailuresWrapped(s: DbState, cat: Catalog, mapping: EntityMapping, records: seq<Record>, options: BulkLoadOptions, faults: set<Step>)
    ensures var r := BulkLoadRun(s, cat, mapping, records, options, faults).1;
      r.Fail? ==>
        && r.error.ArgumentException? && r.error.message == OuterMessage
        && (r.error.inner.ArgumentException? <==> options == FirstDeleteThenInsert && BufferOf(cat, mapping, records).Ok?)
        && (r.error.inner.ArgumentException? ==> r.error.inner.message == InnerMessage && r.error.inner.inner.Cause?)
        && (!r.error.inner.ArgumentException? ==> r.error.inner.Cause?)
  {
    if BufferOf(cat, mapping, records).Ok? {
      var buf := BufferOf(cat, mapping, records).value;
      RunDispatch(s, cat, mapping, records, options, faults);
      if options != FirstDeleteThenInsert {
        StagedFailureWrapped(s, options, mapping, TransferProperties(mapping.properties), buf, faults);
      }
    }
  }

  /** A staged run fails only with a cause wrapped once. */
  lemma StagedFailureWrapped(s: DbState, mode: BulkLoadOptions, mapping: EntityMapping, props: seq<Property>, buf: Buffer, faults: set<Step>)
    requires mode != FirstDeleteThenInsert
    ensures var r := StagedRun(s, mode, mapping, props, buf, faults).1;
      r.Fail? ==> exists f :: r.error == Wrapped(f)
  {
    var r := StagedRun(s, mode, mapping, props, buf, faults).1;
    if CreateStaging in faults {
      assert r.error == Wrapped(DatabaseError(CreateStaging));
    } else if BulkCopyToStaging in faults {
      assert r.error == Wrapped(DatabaseError(BulkCopyToStaging));
    } else if MatchCondition(mapping.pks).Err? {
      assert r.error == Wrapped(MatchCondition(mapping.pks).error);
    } else if ExecuteMerge in faults {
      assert r.error == Wrapped(DatabaseError(ExecuteMerge));
    } else if MergeRefused(mode, s.target, buf.rows, ColumnNames(mapping.pks)) {
      assert r.error == Wrapped(DuplicateKey);
    } else if DropStaging in faults {
      assert r.error == Wrapped(DatabaseError(DropStaging));
    }
  }

  /** FirstDeleteThenInsert with distinct buffer keys and no database failure: the target holds
      exactly the buffer rows, each under its own key, and only the DELETE is sent. */
  lemma {:induction false} ReplaceAllLoadsBuffer(s: DbState, cat: Catalog, mapping: EntityMapping, records: seq<Record>, faults: set<Step>)
    requires BufferOf(cat, mapping, records).Ok?
    requires DeleteRows !in faults && BulkCopyToTarget !in faults
    requires DistinctKeys(BufferOf(cat, mapping, records).value.rows, ColumnNames(mapping.pks))
    ensures var buf := BufferOf(cat, mapping, records).value;
      var keyColumns := ColumnNames(mapping.pks);
      var r := BulkLoadRun(s, cat, mapping, records, FirstDeleteThenInsert, faults);
      && r.1 == Pass
      && r.0.target.Keys == SourceKeys(buf.rows, keyColumns)
      && (forall i :: 0 <= i < |buf.rows| ==> r.0.target[KeyOf(buf.rows[i], keyColumns)] == buf.rows[i])
      && r.0.statements == s.statements + [DeleteAllSql(mapping.tableName)]
      && r.0.stagingExists == s.stagingExists
  {
    KeyedAt(BufferOf(cat, mapping, records).value.rows, ColumnNames(mapping.pks));
  }

  /** FirstDeleteThenInsert whose DELETE went through but whose copy failed: the DELETE is not
      part of the rolled-back transaction, so the target is left empty, and the failure is
      wrapped twice. */
  lemma ReplaceAllFailureEmptiesTarget(s: DbState, cat: Catalog, mapping: EntityMapping, records: seq<Record>, faults: set<Step>)
    requires BufferOf(cat, mapping, records).Ok?
    requires DeleteRows !in faults
    requires BulkCopyToTarget in faults || !DistinctKeys(BufferOf(cat, mapping, records).value.rows, ColumnNames(mapping.pks))
    ensures var r := BulkLoadRun(s, cat, mapping, records, FirstDeleteThenInsert, faults);
      && r.0.target == map[]
      && r.1.Fail? && r.1.error.message == OuterMessage
      && r.1.error.inner.ArgumentException? && r.1.error.inner.message == InnerMessage
  {
  }

  /** A staged option whose staging table was created: it still exists after any failure, and
      is gone after success. */
  lemma StagingLeftOnFailure(s: DbState, cat: Catalog, mapping: EntityMapping, records: seq<Record>, options: BulkLoadOptions, faults: set<Step>)
    requires options != FirstDeleteThenInsert
    requires BufferOf(cat, mapping, records).Ok?
    requires CreateStaging !in faults
    ensures var r := BulkLoadRun(s, cat, mapping, records, options, faults);
      r.0.stagingExists <==> r.1.Fail?
  {
  }

  /** A staged option on an entity without primary keys: `Remove(-4)` fails only after the
      staging table was created and filled; the target is untouched and the staging table stays. */
  lemma NoKeyFailsAfterStaging(s: DbState, cat: Catalog, mapping: EntityMapping, records: seq<Record>, options: BulkLoadOptions, faults: set<Step>)
    requires options != FirstDeleteThenInsert
    requires BufferOf(cat, mapping, records).Ok?
    requires mapping.pks == []
    requires CreateStaging !in faults && BulkCopyToStaging !in faults
    ensures BulkLoadRun(s, cat, mapping, records, options, faults)
      == (DbState(s.target, true, s.statements + [CreateStagingSql(StagingTableName(mapping.tableName), mapping.tableName)]),
          Fail(ArgumentException(OuterMessage, Cause(RemoveOutOfRange(-4)))))
  {
  }

  /** The staged calls that must succeed for the MERGE to run. */
  predicate MergeReached(mapping: EntityMapping, faults: set<Step>)
  {
    CreateStaging !in faults && BulkCopyToStaging !in faults && ExecuteMerge !in faults && mapping.pks != []
  }

  /** UpsertWithoutDelete with distinct buffer keys: every buffer key's row is updated (when the
      target has it) or inserted, every other target row is kept, and no key is removed. The
      load passes unless the final drop fails. */
  lemma {:induction false} UpsertWithoutDeleteLoad(s: DbState, cat: Catalog, mapping: EntityMapping, records: seq<Record>, faults: set<Step>)
    requires BufferOf(cat, mapping, records).Ok?
    requires MergeReached(mapping, faults)
    requires DistinctKeys(BufferOf(cat, mapping, records).value.rows, ColumnNames(mapping.pks))
    ensures var buf := BufferOf(cat, mapping, records).value;
      var props := TransferProperties(mapping.properties);
      var keyColumns := ColumnNames(mapping.pks);
      var r := BulkLoadRun(s, cat, mapping, records, UpsertWithoutDelete, faults);
      && (r.1 == Pass <==> DropStaging !in faults)
      && r.0.target.Keys == s.target.Keys + SourceKeys(buf.rows, keyColumns)
      && (forall i :: 0 <= i < |buf.rows| ==>
            var k := KeyOf(buf.rows[i], keyColumns);
            r.0.target[k] == if k in s.target then UpdatedRow(s.target[k], buf.rows[i], UpdateColumns(props))
                             else InsertedRow(buf.rows[i], InsertColumns(props)))
      && (forall k :: k in s.target && k !in SourceKeys(buf.rows, keyColumns) ==> r.0.target[k] == s.target[k])
  {
    var buf := BufferOf(cat, mapping, records).value;
    var props := TransferProperties(mapping.properties);
    UpsertEffectAt(s.target, buf.rows, ColumnNames(mapping.pks), InsertColumns(props), UpdateColumns(props));
  }

  /** UpsertWithDelete with distinct buffer keys: as UpsertWithoutDelete, and the target keeps
      exactly the buffer keys. */
  lemma {:induction false} UpsertWithDeleteLoad(s: DbState, cat: Catalog, mapping: EntityMapping, records: seq<Record>, faults: set<Step>)
    requires BufferOf(cat, mapping, records).Ok?
    requires MergeReached(mapping, faults)
    requires DistinctKeys(BufferOf(cat, mapping, records).value.rows, ColumnNames(mapping.pks))
    ensures var buf := BufferOf(cat, mapping, records).value;
      var props := TransferProperties(mapping.properties);
      var keyColumns := ColumnNames(mapping.pks);
      var r := BulkLoadRun(s, cat, mapping, records, UpsertWithDelete, faults);
      && (r.1 == Pass <==> DropStaging !in faults)
      && r.0.target.Keys == SourceKeys(buf.rows, keyColumns)
      && (forall i :: 0 <= i < |buf.rows| ==>
            var k := KeyOf(buf.rows[i], keyColumns);
            r.0.target[k] == if k in s.target then UpdatedRow(s.target[k], buf.rows[i], UpdateColumns(props))
                             else InsertedRow(buf.rows[i], InsertColumns(props)))
  {
    var buf := BufferOf(cat, mapping, records).value;
    var props := TransferProperties(mapping.properties);
    UpsertWithDeleteEffectAt(s.target, buf.rows, ColumnNames(mapping.pks), InsertColumns(props), UpdateColumns(props));
  }

  /** An upsert never changes the key cells of a row it updates, on a well-formed mapping. */
  lemma {:induction false} UpsertKeepsMatchedKeys(s: DbState, cat: Catalog, mapping: EntityMapping, records: seq<Record>, mode: BulkLoadOptions, faults: set<Step>)
    requires mode == UpsertWithoutDelete || mode == UpsertWithDelete
    requires WellFormed(mapping)
    requires BufferOf(cat, mapping, records).Ok?
    requires MergeReached(mapping, faults)
    requires DistinctKeys(BufferOf(cat, mapping, records).value.rows, ColumnNames(mapping.pks))
    ensures var buf := BufferOf(cat, mapping, records).value;
      var keyColumns := ColumnNames(mapping.pks);
      var r := BulkLoadRun(s, cat, mapping, records, mode, faults);
      forall i :: 0 <= i < |buf.rows| && KeyOf(buf.rows[i], keyColumns) in s.target ==>
        var k := KeyOf(buf.rows[i], keyColumns);
        k in r.0.target && KeyOf(r.0.target[k], keyColumns) == KeyOf(s.target[k], keyColumns)
  {
    var buf := BufferOf(cat, mapping, records).value;
    var props := TransferProperties(mapping.properties);
    var keyColumns := ColumnNames(mapping.pks);
    if mode == UpsertWithoutDelete {
      UpsertWithoutDeleteLoad(s, cat, mapping, records, faults);
    } else {
      UpsertWithDeleteLoad(s, cat, mapping, records, faults);
    }
    KeyColumnsListed(mapping);
    forall i | 0 <= i < |buf.rows| && KeyOf(buf.rows[i], keyColumns) in s.target
      ensures var k := KeyOf(buf.rows[i], keyColumns);
        KeyOf(UpdatedRow(s.target[k], buf.rows[i], UpdateColumns(props)), keyColumns) == KeyOf(s.target[k], keyColumns)
    {
      var k := KeyOf(buf.rows[i], keyColumns);
      UpdateKeepsKey(s.target[k], buf.rows[i], keyColumns, UpdateColumns(props));
    }
  }

  /** With the values supplied, every option keeps each target row under its own key: a table
      whose rows sit under their keys still does after any bulk load, passed or failed. */
  lemma {:induction false} LoadKeepsKeysConsistent(s: DbState, cat: Catalog, mapping: EntityMapping, records: seq<Record>, options: BulkLoadOptions, faults: set<Step>)
    requires WellFormed(mapping) && SuppliedValues(mapping)
    requires KeysConsistent(s.target, ColumnNames(mapping.pks))
    ensures KeysConsistent(BulkLoadRun(s, cat, mapping, records, options, faults).0.target, ColumnNames(mapping.pks))
  {
    if BufferOf(cat, mapping, records).Ok? {
      var buf := BufferOf(cat, mapping, records).value;
      RunDispatch(s, cat, mapping, records, options, faults);
      if options == FirstDeleteThenInsert {
        ReplaceAllKeepsKeysConsistent(s, mapping, buf, faults);
      } else {
        KeyColumnsListed(mapping);
        StagedKeepsKeysConsistent(s, options, mapping, TransferProperties(mapping.properties), buf, faults);
      }
    }
  }

  /** FirstDeleteThenInsert leaves the target as it was, empty, or the buffer by key. */
  lemma ReplaceAllKeepsKeysConsistent(s: DbState, mapping: EntityMapping, buf: Buffer, faults: set<Step>)
    requires KeysConsistent(s.target, ColumnNames(mapping.pks))
    ensures KeysConsistent(ReplaceAllRun(s, mapping, buf, faults).0.target, ColumnNames(mapping.pks))
  {
    KeyedConsistent(buf.rows, ColumnNames(mapping.pks));
  }

  /** A staged run leaves the target as it was or applies the MERGE effect of its mode. */
  lemma StagedKeepsKeysConsistent(s: DbState, mode: BulkLoadOptions, mapping: EntityMapping, props: seq<Property>, buf: Buffer, faults: set<Step>)
    requires mode != FirstDeleteThenInsert
    requires KeysConsistent(s.target, ColumnNames(mapping.pks))
    requires forall i :: 0 <= i < |mapping.pks| ==>
      ColumnNames(mapping.pks)[i] in InsertColumns(props) && ColumnNames(mapping.pks)[i] !in UpdateColumns(props)
    ensures KeysConsistent(StagedRun(s, mode, mapping, props, buf, faults).0.target, ColumnNames(mapping.pks))
  {
    var keyColumns := ColumnNames(mapping.pks);
    var source := Keyed(buf.rows, keyColumns);
    KeyedConsistent(buf.rows, keyColumns);
    EffectsKeepKeysConsistent(s.target, source, keyColumns, InsertColumns(props), UpdateColumns(props));
    StagedTarget(s, mode, mapping, props, buf, faults);
    assert KeysConsistent(MergeEffect(mode, s.target, source, props), keyColumns);
  }

  /** A staged run leaves the target as it was or replaces it by the MERGE effect. */
  lemma StagedTarget(s: DbState, mode: BulkLoadOptions, mapping: EntityMapping, props: seq<Property>, buf: Buffer, faults: set<Step>)
    requires mode != FirstDeleteThenInsert
    ensures var t := StagedRun(s, mode, mapping, props, buf, faults).0.target;
      t == s.target || t == MergeEffect(mode, s.target, Keyed(buf.rows, ColumnNames(mapping.pks)), props)
  {
    var t := StagedRun(s, mode, mapping, props, buf, faults).0.target;
    if CreateStaging in faults || BulkCopyToStaging in faults || MatchCondition(mapping.pks).Err? {
      assert t == s.target;
    } else if ExecuteMerge in faults || MergeRefused(mode, s.target, buf.rows, ColumnNames(mapping.pks)) {
      assert t == s.target;
    }
  }


  /** Delete with no target row matched twice: exactly the target rows whose key the buffer has
      are removed, and every other row is kept as it was. */
  lemma DeleteLoad(s: DbState, cat: Catalog, mapping: EntityMapping, records: seq<Record>, faults: set<Step>)
    requires BufferOf(cat, mapping, records).Ok?
    requires MergeReached(mapping, faults)
    requires !MatchedTwice(BufferOf(cat, mapping, records).value.rows, ColumnNames(mapping.pks), s.target)
    ensures var buf := BufferOf(cat, mapping, records).value;
      var r := BulkLoadRun(s, cat, mapping, records, Delete, faults);
      && (r.1 == Pass <==> DropStaging !in faults)
      && r.0.target.Keys == s.target.Keys - SourceKeys(buf.rows, ColumnNames(mapping.pks))
      && (forall k :: k in r.0.target ==> r.0.target[k] == s.target[k])
  {
  }

  /** A MERGE the server refuses changes no row; the staging table stays. */
  lemma RefusedMergeKeepsTarget(s: DbState, cat: Catalog, mapping: EntityMapping, records: seq<Record>, options: BulkLoadOptions, faults: set<Step>)
    requires options != FirstDeleteThenInsert
    requires BufferOf(cat, mapping, records).Ok?
    requires CreateStaging !in faults && BulkCopyToStaging !in faults && mapping.pks != []
    requires MergeRefused(options, s.target, BufferOf(cat, mapping, records).value.rows, ColumnNames(mapping.pks))
    ensures var r := BulkLoadRun(s, cat, mapping, records, options, faults);
      && r.0.target == s.target && r.0.stagingExists
      && r.1.Fail? && r.1.error.inner.Cause?
  {
  }

  /** When every identity property is a key, no updated column is left out of the inserts. */
  lemma {:induction false} UpdateColumnsInserted(props: seq<Property>)
    requires forall p :: p in props && p.isIdentity ==> p.isPk
    ensures UpdateColumns(props) <= InsertColumns(props)
  {
    forall c | c in UpdateColumns(props)
      ensures c in InsertColumns(props)
    {
      var p :| p in props && !p.isPk && p.columnName == c;
      assert !p.isIdentity;
    }
  }

  /** A staged upsert run twice with the same buffer and no fault leaves the target and the
      outcome of one run, when every updated column is also inserted. */
  lemma {:induction false} StagedUpsertIdempotent(s: DbState, mode: BulkLoadOptions, mapping: EntityMapping, props: seq<Property>, buf: Buffer)
    requires mode == UpsertWithoutDelete || mode == UpsertWithDelete
    requires UpdateColumns(props) <= InsertColumns(props)
    ensures var once := StagedRun(s, mode, mapping, props, buf, {});
      var twice := StagedRun(once.0, mode, mapping, props, buf, {});
      twice.0.target == once.0.target && twice.1 == once.1
  {
    var keyColumns := ColumnNames(mapping.pks);
    if mapping.pks != [] && DistinctKeys(buf.rows, keyColumns) {
      var source := Keyed(buf.rows, keyColumns);
      if mode == UpsertWithoutDelete {
        UpsertIdempotent(s.target, source, InsertColumns(props), UpdateColumns(props));
      } else {
        UpsertWithDeleteIdempotent(s.target, source, InsertColumns(props), UpdateColumns(props));
      }
    }
  }

  /** A bulk load run twice with the same records and no fault leaves the target and the
      outcome of one run, for an upsert option on an entity whose values are all supplied (an
      identity key would be renumbered by the staging copy, so no run would repeat another). */
  lemma {:induction false} UpsertLoadIdempotent(s: DbState, cat: Catalog, mapping: EntityMapping, records: seq<Record>, mode: BulkLoadOptions)
    requires mode == UpsertWithoutDelete || mode == UpsertWithDelete
    requires SuppliedValues(mapping)
    ensures var once := BulkLoadRun(s, cat, mapping, records, mode, {});
      var twice := BulkLoadRun(once.0, cat, mapping, records, mode, {});
      twice.0.target == once.0.target && twice.1 == once.1
  {
    var props := TransferProperties(mapping.properties);
    if BufferOf(cat, mapping, records).Ok? {
      var buf := BufferOf(cat, mapping, records).value;
      UpdateColumnsInserted(props);
      var once := StagedRun(s, mode, mapping, props, buf, {});
      assert BulkLoadRun(s, cat, mapping, records, mode, {}) == once;
      assert BulkLoadRun(once.0, cat, mapping, records, mode, {}) == StagedRun(once.0, mode, mapping, props, buf, {});
      StagedUpsertIdempotent(s, mode, mapping, props, buf);
    }
  }

  // ---------------------------------------------------------------------------
  // A worked example: an (ID, Name) table whose key is ID.

  function ItemRow(id: string, name: string): Row
  {
    map["ID" := Data(Scalar(id)), "Name" := Data(Scalar(name))]
  }

  function ItemKey(id: string): Key
  {
    [Data(Scalar(id))]
  }

  lemma ItemKeyOf(id: string, name: string)
    ensures KeyOf(ItemRow(id, name), ["ID"]) == ItemKey(id)
  {
    var k := KeyOf(ItemRow(id, name), ["ID"]);
    assert k[0] == Data(Scalar(id));
  }

  /** The example buffer by key. */
  lemma ExampleBufferKeyed()
    ensures Keyed([ItemRow("1", "A"), ItemRow("2", "B")], ["ID"])
      == map[ItemKey("1") := ItemRow("1", "A"), ItemKey("2") := ItemRow("2", "B")]
  {
    var rows := [ItemRow("1", "A"), ItemRow("2", "B")];
    ItemKeyOf("1", "A");
    ItemKeyOf("2", "B");
    assert rows[..1] == [ItemRow("1", "A")];
    assert [ItemRow("1", "A")][..0] == [];
  }

  /** Buffer {1: A, 2: B} against target {2: Old, 3: C}: UpsertWithDelete inserts 1, updates 2
      and deletes 3. */
  lemma UpsertWithDeleteExample()
    ensures UpsertWithDeleteEffect(map[ItemKey("2") := ItemRow("2", "Old"), ItemKey("3") := ItemRow("3", "C")],
                                   Keyed([ItemRow("1", "A"), ItemRow("2", "B")], ["ID"]), {"ID", "Name"}, {"Name"})
      == map[ItemKey("1") := ItemRow("1", "A"), ItemKey("2") := ItemRow("2", "B")]
  {
    ExampleBufferKeyed();
    var k1, k2, k3 := ItemKey("1"), ItemKey("2"), ItemKey("3");
    assert k1 != k3 && k2 != k3 && k1 != k2 by {
      assert "1"[0] != "3"[0] && "2"[0] != "3"[0] && "1"[0] != "2"[0];
    }
    var target := map[k2 := ItemRow("2", "Old"), k3 := ItemRow("3", "C")];
    var source := map[k1 := ItemRow("1", "A"), k2 := ItemRow("2", "B")];
    var m := UpsertWithDeleteEffect(target, source, {"ID", "Name"}, {"Name"});
    ExampleRowEffects();
    assert m.Keys == {k1, k2};
    assert m[k1] == ItemRow("1", "A");
    assert m[k2] == ItemRow("2", "B");
  }

  /** In the example, the insert keeps both columns and the update replaces the name. */
  lemma ExampleRowEffects()
    ensures InsertedRow(ItemRow("1", "A"), {"ID", "Name"}) == ItemRow("1", "A")
    ensures UpdatedRow(ItemRow("2", "Old"), ItemRow("2", "B"), {"Name"}) == ItemRow("2", "B")
  {
    assert InsertedRow(ItemRow("1", "A"), {"ID", "Name"}).Keys == {"ID", "Name"};
    assert UpdatedRow(ItemRow("2", "Old"), ItemRow("2", "B"), {"Name"}).Keys == {"ID", "Name"};
  }

  /** The same buffer and target with Delete: only row 2 is removed. */
  lemma DeleteExample()
    ensures DeleteEffect(map[ItemKey("2") := ItemRow("2", "Old"), ItemKey("3") := ItemRow("3", "C")],
                         Keyed([ItemRow("1", "A"), ItemRow("2", "B")], ["ID"]))
      == map[ItemKey("3") := ItemRow("3", "C")]
  {
    ExampleBufferKeyed();
    assert ItemKey("1") != ItemKey("3") && ItemKey("2") != ItemKey("3") by {
      assert "1"[0] != "3"[0] && "2"[0] != "3"[0];
    }
  }
}
