/** The target table as the bulk load sees it: rows identified by their primary-key values,
    and what each bulk-load mode does to them. */
module TargetTable {
  import opened Entities

  /** The primary-key values of a row, in key order. */
  type Key = seq<Cell>

  /** The key of a row; a key column the row lacks reads as DBNull. */
  function KeyOf(row: Row, keyColumns: seq<string>): (k: Key)
    ensures |k| == |keyColumns|
    ensures forall i :: 0 <= i < |keyColumns| ==> k[i] == if keyColumns[i] in row then row[keyColumns[i]] else DbNull
  {
    seq(|keyColumns|, i requires 0 <= i < |keyColumns| => if keyColumns[i] in row then row[keyColumns[i]] else DbNull)
  }

  /** The keys of the source rows. */
  ghost function SourceKeys(rows: seq<Row>, keyColumns: seq<string>): set<Key>
  {
    set r | r in rows :: KeyOf(r, keyColumns)
  }

  /** No two source rows share a key. */
  predicate DistinctKeys(rows: seq<Row>, keyColumns: seq<string>)
  {
    forall i, j :: 0 <= i < j < |rows| ==> KeyOf(rows[i], keyColumns) != KeyOf(rows[j], keyColumns)
  }

  /** Two source rows share a key that a target row has: a MERGE would act on that target
      row twice, which the server refuses. */
  predicate MatchedTwice(rows: seq<Row>, keyColumns: seq<string>, target: map<Key, Row>)
  {
    exists i, j :: 0 <= i < j < |rows| && KeyOf(rows[i], keyColumns) == KeyOf(rows[j], keyColumns)
      && KeyOf(rows[i], keyColumns) in target
  }

  /** The source rows by key (for repeated keys the later row wins). */
  function Keyed(rows: seq<Row>, keyColumns: seq<string>): (m: map<Key, Row>)
    ensures m.Keys == SourceKeys(rows, keyColumns)
  {
    if rows == [] then map[]
    else
      var init := rows[..|rows| - 1];
      assert rows == init + [rows[|rows| - 1]];
      Keyed(init, keyColumns)[KeyOf(rows[|rows| - 1], keyColumns) := rows[|rows| - 1]]
  }

  /** With distinct keys, every source row is found under its own key. */
  lemma {:induction false} KeyedAt(rows: seq<Row>, keyColumns: seq<string>)
    requires DistinctKeys(rows, keyColumns)
    ensures forall i :: 0 <= i < |rows| ==> Keyed(rows, keyColumns)[KeyOf(rows[i], keyColumns)] == rows[i]
  {
    if rows != [] {
      var init := rows[..|rows| - 1];
      assert forall i :: 0 <= i < |init| ==> init[i] == rows[i];
      KeyedAt(init, keyColumns);
    }
  }

  /** The row a MERGE inserts: the source row's insert-list columns (identity columns are
      generated by the server, which is not modelled). */
  function InsertedRow(source: Row, insertColumns: set<string>): Row
  {
    map c | c in source.Keys * insertColumns :: source[c]
  }

  /** The row a MERGE updates: the target row with its update-list columns set from the source. */
  function UpdatedRow(target: Row, source: Row, updateColumns: set<string>): Row
  {
    target + map c | c in source.Keys * updateColumns :: source[c]
  }

  /** UpsertWithoutDelete: matched rows are updated, new keys inserted, all else kept. */
  function UpsertEffect(target: map<Key, Row>, source: map<Key, Row>, ins: set<string>, upd: set<string>): map<Key, Row>
  {
    map k | k in target.Keys + source.Keys ::
      if k in source then (if k in target then UpdatedRow(target[k], source[k], upd) else InsertedRow(source[k], ins))
      else target[k]
  }

  /** UpsertWithDelete: as UpsertWithoutDelete, and target rows the source lacks are deleted. */
  function UpsertWithDeleteEffect(target: map<Key, Row>, source: map<Key, Row>, ins: set<string>, upd: set<string>): map<Key, Row>
  {
    map k | k in source.Keys ::
      if k in target then UpdatedRow(target[k], source[k], upd) else InsertedRow(source[k], ins)
  }

  /** Delete: the target rows whose key the source has are deleted. */
  function DeleteEffect(target: map<Key, Row>, source: map<Key, Row>): map<Key, Row>
  {
    target - source.Keys
  }

  // ---------------------------------------------------------------------------
  // Properties of the effects.

  /** UpsertWithDelete is UpsertWithoutDelete followed by dropping every key the source lacks. */
  lemma UpsertWithDeleteIsRestrictedUpsert(target: map<Key, Row>, source: map<Key, Row>, ins: set<string>, upd: set<string>)
    ensures UpsertWithDeleteEffect(target, source, ins, upd)
      == UpsertEffect(target, source, ins, upd) - (target.Keys - source.Keys)
  {
  }

  /** An update never changes a key when no key column is in the update list. */
  lemma UpdateKeepsKey(target: Row, source: Row, keyColumns: seq<string>, upd: set<string>)
    requires forall i :: 0 <= i < |keyColumns| ==> keyColumns[i] !in upd
    ensures KeyOf(UpdatedRow(target, source, upd), keyColumns) == KeyOf(target, keyColumns)
  {
  }

  /** Running UpsertWithoutDelete twice with the same source leaves what running it once
      leaves, provided every updated column is also inserted. */
  lemma UpsertIdempotent(target: map<Key, Row>, source: map<Key, Row>, ins: set<string>, upd: set<string>)
    requires upd <= ins
    ensures UpsertEffect(UpsertEffect(target, source, ins, upd), source, ins, upd) == UpsertEffect(target, source, ins, upd)
  {
    var once := UpsertEffect(target, source, ins, upd);
    var twice := UpsertEffect(once, source, ins, upd);
    forall k | k in source
      ensures twice[k] == once[k]
    {
      if k in target {
        UpdateTwice(target[k], source[k], upd);
      } else {
        UpdateInserted(source[k], ins, upd);
      }
    }
  }

  /** Running UpsertWithDelete twice with the same source leaves what running it once leaves. */
  lemma UpsertWithDeleteIdempotent(target: map<Key, Row>, source: map<Key, Row>, ins: set<string>, upd: set<string>)
    requires upd <= ins
    ensures UpsertWithDeleteEffect(UpsertWithDeleteEffect(target, source, ins, upd), source, ins, upd)
      == UpsertWithDeleteEffect(target, source, ins, upd)
  {
    var once := UpsertWithDeleteEffect(target, source, ins, upd);
    var twice := UpsertWithDeleteEffect(once, source, ins, upd);
    forall k | k in source
      ensures twice[k] == once[k]
    {
      if k in target {
        UpdateTwice(target[k], source[k], upd);
      } else {
        UpdateInserted(source[k], ins, upd);
      }
    }
  }

  /** The UpsertWithoutDelete effect of distinct source rows, row by row: each source key's row is
      updated or inserted, every other target row is kept, and no key is removed. */
  lemma {:induction false} UpsertEffectAt(target: map<Key, Row>, rows: seq<Row>, keyColumns: seq<string>, ins: set<string>, upd: set<string>)
    requires DistinctKeys(rows, keyColumns)
    ensures var m := UpsertEffect(target, Keyed(rows, keyColumns), ins, upd);
      && m.Keys == target.Keys + SourceKeys(rows, keyColumns)
      && (forall i :: 0 <= i < |rows| ==>
            var k := KeyOf(rows[i], keyColumns);
            m[k] == if k in target then UpdatedRow(target[k], rows[i], upd) else InsertedRow(rows[i], ins))
      && (forall k :: k in target && k !in SourceKeys(rows, keyColumns) ==> m[k] == target[k])
  {
    KeyedAt(rows, keyColumns);
  }

  /** The UpsertWithDelete effect of distinct source rows, row by row: the target keeps exactly
      the source keys, each row updated or inserted. */
  lemma {:induction false} UpsertWithDeleteEffectAt(target: map<Key, Row>, rows: seq<Row>, keyColumns: seq<string>, ins: set<string>, upd: set<string>)
    requires DistinctKeys(rows, keyColumns)
    ensures var m := UpsertWithDeleteEffect(target, Keyed(rows, keyColumns), ins, upd);
      && m.Keys == SourceKeys(rows, keyColumns)
      && (forall i :: 0 <= i < |rows| ==>
            var k := KeyOf(rows[i], keyColumns);
            m[k] == if k in target then UpdatedRow(target[k], rows[i], upd) else InsertedRow(rows[i], ins))
  {
    KeyedAt(rows, keyColumns);
  }

  lemma UpdateTwice(target: Row, source: Row, upd: set<string>)
    ensures UpdatedRow(UpdatedRow(target, source, upd), source, upd) == UpdatedRow(target, source, upd)
  {
  }

  lemma UpdateInserted(source: Row, ins: set<string>, upd: set<string>)
    requires upd <= ins
    ensures UpdatedRow(InsertedRow(source, ins), source, upd) == InsertedRow(source, ins)
  {
  }

  /** Every row of the table sits under its own key. */
  predicate KeysConsistent(t: map<Key, Row>, keyColumns: seq<string>)
  {
    forall k :: k in t ==> KeyOf(t[k], keyColumns) == k
  }

  /** The source rows by key sit under their own keys. */
  lemma {:induction false} KeyedConsistent(rows: seq<Row>, keyColumns: seq<string>)
    ensures KeysConsistent(Keyed(rows, keyColumns), keyColumns)
  {
    if rows != [] {
      KeyedConsistent(rows[..|rows| - 1], keyColumns);
    }
  }

  /** An insert keeps the key when every key column is in the insert list. */
  lemma InsertKeepsKey(source: Row, keyColumns: seq<string>, ins: set<string>)
    requires forall i :: 0 <= i < |keyColumns| ==> keyColumns[i] in ins
    ensures KeyOf(InsertedRow(source, ins), keyColumns) == KeyOf(source, keyColumns)
  {
  }

  /** Every mode keeps each row under its own key, provided every key column is inserted and
      none is updated. */
  lemma {:induction false} EffectsKeepKeysConsistent(target: map<Key, Row>, source: map<Key, Row>, keyColumns: seq<string>, ins: set<string>, upd: set<string>)
    requires KeysConsistent(target, keyColumns) && KeysConsistent(source, keyColumns)
    requires forall i :: 0 <= i < |keyColumns| ==> keyColumns[i] in ins && keyColumns[i] !in upd
    ensures KeysConsistent(UpsertEffect(target, source, ins, upd), keyColumns)
    ensures KeysConsistent(UpsertWithDeleteEffect(target, source, ins, upd), keyColumns)
    ensures KeysConsistent(DeleteEffect(target, source), keyColumns)
  {
    forall k | k in source
      ensures k in target ==> KeyOf(UpdatedRow(target[k], source[k], upd), keyColumns) == k
      ensures KeyOf(InsertedRow(source[k], ins), keyColumns) == k
    {
      if k in target {
        UpdateKeepsKey(target[k], source[k], keyColumns, upd);
      }
      InsertKeepsKey(source[k], keyColumns, ins);
    }
  }

  // ---------------------------------------------------------------------------
  // The table.

  /** A keyed target table whose rows the database statements change in place. */
  class Table {
    var rows: map<Key, Row>

    constructor (initial: map<Key, Row>)
      ensures rows == initial
    {
      rows := initial;
    }

    /** `DELETE FROM table`. */
    method DeleteAll()
      modifies this
      ensures rows == map[]
    {
      rows := map[];
    }

    /** A bulk copy of the source rows; a repeated key or a key already present violates
        the primary key and the whole copy is rolled back. */
    method BulkCopy(source: seq<Row>, keyColumns: seq<string>) returns (ok: bool)
      modifies this
      ensures ok <==> DistinctKeys(source, keyColumns) && SourceKeys(source, keyColumns) !! old(rows).Keys
      ensures ok ==> rows.Keys == old(rows).Keys + SourceKeys(source, keyColumns)
      ensures ok ==> forall r :: r in source ==> rows[KeyOf(r, keyColumns)] == r
      ensures ok ==> forall k :: k in old(rows) ==> rows[k] == old(rows)[k]
      ensures ok ==> rows == old(rows) + Keyed(source, keyColumns)
      ensures !ok ==> rows == old(rows)
    {
      ok := DistinctKeys(source, keyColumns) && (forall r :: r in source ==> KeyOf(r, keyColumns) !in rows);
      if ok {
        KeyedAt(source, keyColumns);
        rows := rows + Keyed(source, keyColumns);
      }
    }

    /** The UpsertWithoutDelete MERGE: with distinct source keys, every source key's row is
        updated (if present) or inserted, and every other row is kept; a repeated source key
        makes the server refuse the statement and nothing changes. */
    method MergeUpsert(source: seq<Row>, keyColumns: seq<string>, ins: set<string>, upd: set<string>) returns (ok: bool)
      modifies this
      ensures ok <==> DistinctKeys(source, keyColumns)
      ensures ok ==> rows.Keys == old(rows).Keys + SourceKeys(source, keyColumns)
      ensures ok ==> forall r :: r in source ==>
        rows[KeyOf(r, keyColumns)] == if KeyOf(r, keyColumns) in old(rows) then UpdatedRow(old(rows)[KeyOf(r, keyColumns)], r, upd)
                                      else InsertedRow(r, ins)
      ensures ok ==> forall k :: k in old(rows) && k !in SourceKeys(source, keyColumns) ==> rows[k] == old(rows)[k]
      ensures ok ==> rows == UpsertEffect(old(rows), Keyed(source, keyColumns), ins, upd)
      ensures !ok ==> rows == old(rows)
    {
      ok := DistinctKeys(source, keyColumns);
      if ok {
        KeyedAt(source, keyColumns);
        rows := UpsertEffect(rows, Keyed(source, keyColumns), ins, upd);
      }
    }

    /** The UpsertWithDelete MERGE: as MergeUpsert, and every row whose key the source lacks
        is deleted. */
    method MergeUpsertWithDelete(source: seq<Row>, keyColumns: seq<string>, ins: set<string>, upd: set<string>) returns (ok: bool)
      modifies this
      ensures ok <==> DistinctKeys(source, keyColumns)
      ensures ok ==> rows.Keys == SourceKeys(source, keyColumns)
      ensures ok ==> forall r :: r in source ==>
        rows[KeyOf(r, keyColumns)] == if KeyOf(r, keyColumns) in old(rows) then UpdatedRow(old(rows)[KeyOf(r, keyColumns)], r, upd)
                                      else InsertedRow(r, ins)
      ensures ok ==> rows == UpsertWithDeleteEffect(old(rows), Keyed(source, keyColumns), ins, upd)
      ensures !ok ==> rows == old(rows)
    {
      ok := DistinctKeys(source, keyColumns);
      if ok {
        KeyedAt(source, keyColumns);
        rows := UpsertWithDeleteEffect(rows, Keyed(source, keyColumns), ins, upd);
      }
    }

    /** The Delete MERGE: exactly the rows whose key the source has are deleted; a target row
        matched by two source rows makes the server refuse the statement. */
    method MergeDelete(source: seq<Row>, keyColumns: seq<string>) returns (ok: bool)
      modifies this
      ensures ok <==> !MatchedTwice(source, keyColumns, old(rows))
      ensures ok ==> rows.Keys == old(rows).Keys - SourceKeys(source, keyColumns)
      ensures ok ==> forall k :: k in rows ==> rows[k] == old(rows)[k]
      ensures ok ==> rows == DeleteEffect(old(rows), Keyed(source, keyColumns))
      ensures !ok ==> rows == old(rows)
    {
      ok := !MatchedTwice(source, keyColumns, rows);
      if ok {
        rows := DeleteEffect(rows, Keyed(source, keyColumns));
      }
    }
  }
}
