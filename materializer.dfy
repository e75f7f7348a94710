/** The conversion of the local records into the row buffer that is bulk-copied to the
    server: one column per transfer property, one row per record, every row holding a
    cell for every column. */
module Materializer {
  import opened Entities

  /** The row buffer: its columns and its rows, in order. */
  datatype Buffer = Buffer(columns: seq<Column>, rows: seq<Row>)

  /** The names of a column sequence, in order. */
  function NamesOf(columns: seq<Column>): (r: seq<string>)
    ensures |r| == |columns|
    ensures forall i :: 0 <= i < |columns| ==> r[i] == columns[i].name
  {
    seq(|columns|, i requires 0 <= i < |columns| => columns[i].name)
  }

  /** The in-memory table the records are copied into before the bulk copy. */
  class DataTable {
    var columns: seq<Column>
    var rows: seq<Row>

    constructor ()
      ensures columns == [] && rows == []
    {
      columns := [];
      rows := [];
    }

    /** Adds a column; a name already present is refused, as `DataColumnCollection.Add`
        refuses it with a DuplicateNameException. */
    method AddColumn(c: Column) returns (ok: bool)
      modifies this
      ensures ok <==> c.name !in NamesOf(old(columns))
      ensures columns == if ok then old(columns) + [c] else old(columns)
      ensures rows == old(rows)
    {
      ok := c.name !in NamesOf(columns);
      if ok {
        columns := columns + [c];
      }
    }

    /** A fresh row: every column holds DBNull. */
    function NewRow(): Row
      reads this
    {
      map n | n in NamesOf(columns) :: DbNull
    }

    /** Appends a row. */
    method AddRow(r: Row)
      modifies this
      ensures rows == old(rows) + [r]
      ensures columns == old(columns)
    {
      rows := rows + [r];
    }
  }

  /** The buffer column of one transfer property: an FK navigation column takes the type of
      the referenced entity's first key property, any other column the property's own type. */
  function ColumnFor(cat: Catalog, p: Property): Result<Column>
  {
    if IsFkNavigation(p) then
      if p.clrType !in cat then Err(UnmappedType(p.clrType))
      else if cat[p.clrType].pks == [] then Err(NoPrimaryKey(p.clrType))
      else Ok(Column(p.columnName, cat[p.clrType].pks[0].clrType))
    else Ok(Column(p.columnName, p.clrType))
  }

  /** The buffer columns, added one property at a time; the first failure stops the build. */
  function ColumnsOf(cat: Catalog, props: seq<Property>): (r: Result<seq<Column>>)
    ensures r.Ok? ==> |r.value| == |props|
    ensures r.Ok? ==> forall i :: 0 <= i < |props| ==> ColumnFor(cat, props[i]) == Ok(r.value[i])
  {
    if props == [] then Ok([])
    else
      match ColumnsOf(cat, props[..|props| - 1])
      case Err(f) => Err(f)
      case Ok(cols) =>
        match ColumnFor(cat, props[|props| - 1])
        case Err(f) => Err(f)
        case Ok(c) => if c.name in NamesOf(cols) then Err(DuplicateColumn(c.name)) else Ok(cols + [c])
  }

  /** The cell one transfer property contributes to the row of a record. */
  function CellFor(cat: Catalog, p: Property, rec: Record): (r: Result<Cell>)
  {
    if p.propertyName !in rec then Err(MissingProperty(p.propertyName))
    else if IsFkNavigation(p) then
      match rec[p.propertyName]
      case Null => Err(NullNavigation(p.propertyName))
      case Scalar(_) => Err(NotAnEntity(p.propertyName))
      case Entity(t, fields) =>
        if t !in cat then Err(UnmappedType(t))
        else if cat[t].pks == [] then Err(NoPrimaryKey(t))
        else if cat[t].pks[0].propertyName !in fields then Err(MissingProperty(cat[t].pks[0].propertyName))
        else if fields[cat[t].pks[0].propertyName] == Null then Err(NullAssigned(p.columnName))
        else Ok(Data(fields[cat[t].pks[0].propertyName]))
    else if rec[p.propertyName] == Null then Ok(DbNull)
    else Ok(Data(rec[p.propertyName]))
  }

  /** The row of one record: the cells of the transfer properties, by column name. */
  function RowOf(cat: Catalog, props: seq<Property>, rec: Record): (r: Result<Row>)
    ensures r.Ok? ==> forall n :: n in r.value <==> n in ColumnNames(props)
  {
    if props == [] then Ok(map[])
    else
      match RowOf(cat, props[..|props| - 1], rec)
      case Err(f) => Err(f)
      case Ok(row) =>
        match CellFor(cat, props[|props| - 1], rec)
        case Err(f) => Err(f)
        case Ok(c) =>
          assert ColumnNames(props) == ColumnNames(props[..|props| - 1]) + [props[|props| - 1].columnName];
          Ok(row[props[|props| - 1].columnName := c])
  }

  /** The rows of the records, in enumeration order; the first failure stops the build. */
  function RowsOf(cat: Catalog, props: seq<Property>, recs: seq<Record>): (r: Result<seq<Row>>)
    ensures r.Ok? ==> |r.value| == |recs|
  {
    if recs == [] then Ok([])
    else
      match RowsOf(cat, props, recs[..|recs| - 1])
      case Err(f) => Err(f)
      case Ok(rows) =>
        match RowOf(cat, props, recs[|recs| - 1])
        case Err(f) => Err(f)
        case Ok(row) => Ok(rows + [row])
  }

  /** The buffer of a mapping's local records: first all columns, then all rows. */
  function BufferOf(cat: Catalog, mapping: EntityMapping, recs: seq<Record>): (r: Result<Buffer>)
  {
    var props := TransferProperties(mapping.properties);
    match ColumnsOf(cat, props)
    case Err(f) => Err(f)
    case Ok(cols) =>
      match RowsOf(cat, props, recs)
      case Err(f) => Err(f)
      case Ok(rows) => Ok(Buffer(cols, rows))
  }

  // ---------------------------------------------------------------------------
  // The imperative construction, proved equal to the functions above.

  /** Fills a fresh DataTable: one column per transfer property, then one row per record. */
  method BuildBuffer(cat: Catalog, mapping: EntityMapping, records: seq<Record>) returns (r: Result<Buffer>)
    ensures r == BufferOf(cat, mapping, records)
  {
    var properties := TransferProperties(mapping.properties);
    var dt := new DataTable();
    var columns := AddColumns(dt, cat, properties);
    if columns.Err? {
      return Err(columns.error);
    }
    ColumnsOfNames(cat, properties, dt.columns);
    var rows := AddRows(dt, cat, properties, records);
    if rows.Err? {
      return Err(rows.error);
    }
    r := Ok(Buffer(dt.columns, dt.rows));
  }

  /** Adds the column of each transfer property to an empty table, in order. */
  method AddColumns(dt: DataTable, cat: Catalog, properties: seq<Property>) returns (r: Result<seq<Column>>)
    requires dt.columns == [] && dt.rows == []
    modifies dt
    ensures r == ColumnsOf(cat, properties)
    ensures r.Ok? ==> dt.columns == r.value && dt.rows == []
  {
    var i := 0;
    while i < |properties|
      invariant 0 <= i <= |properties|
      invariant ColumnsOf(cat, properties[..i]) == Ok(dt.columns)
      invariant dt.rows == []
    {
      ColumnsOfStep(cat, properties, i);
      var column := ColumnFor(cat, properties[i]);
      if column.Err? {
        ColumnsOfPrefixErr(cat, properties, i + 1);
        return Err(column.error);
      }
      var added := dt.AddColumn(column.value);
      if !added {
        ColumnsOfPrefixErr(cat, properties, i + 1);
        return Err(DuplicateColumn(column.value.name));
      }
      i := i + 1;
    }
    assert properties[..i] == properties;
    r := Ok(dt.columns);
  }

  /** Adds the row of each record, in enumeration order. */
  method AddRows(dt: DataTable, cat: Catalog, properties: seq<Property>, records: seq<Record>)
    returns (r: Result<seq<Row>>)
    requires NamesOf(dt.columns) == ColumnNames(properties) && dt.rows == []
    modifies dt
    ensures r == RowsOf(cat, properties, records)
    ensures dt.columns == old(dt.columns)
    ensures r.Ok? ==> dt.rows == r.value
  {
    var j := 0;
    while j < |records|
      invariant 0 <= j <= |records|
      invariant dt.columns == old(dt.columns)
      invariant RowsOf(cat, properties, records[..j]) == Ok(dt.rows)
    {
      assert records[..j + 1][..j] == records[..j];
      var row := NewRowFor(dt, cat, properties, records[j]);
      if row.Err? {
        RowsOfPrefixErr(cat, properties, records, j + 1);
        return Err(row.error);
      }
      dt.AddRow(row.value);
      j := j + 1;
    }
    assert records[..j] == records;
    r := Ok(dt.rows);
  }

  /** Takes a new row of the table and assigns the cell of every transfer property. */
  method NewRowFor(dt: DataTable, cat: Catalog, properties: seq<Property>, rec: Record) returns (r: Result<Row>)
    requires NamesOf(dt.columns) == ColumnNames(properties)
    ensures r == RowOf(cat, properties, rec)
  {
    var row := dt.NewRow();
    ghost var blank := row;
    ghost var filled: Row := map[];
    var k := 0;
    while k < |properties|
      invariant 0 <= k <= |properties|
      invariant RowOf(cat, properties[..k], rec) == Ok(filled)
      invariant row == blank + filled
    {
      assert properties[..k + 1][..k] == properties[..k];
      var cell := CellFor(cat, properties[k], rec);
      if cell.Err? {
        RowOfPrefixErr(cat, properties, rec, k + 1);
        return Err(cell.error);
      }
      OverrideUpdate(blank, filled, properties[k].columnName, cell.value);
      row := row[properties[k].columnName := cell.value];
      filled := filled[properties[k].columnName := cell.value];
      k := k + 1;
    }
    assert properties[..k] == properties;
    OverrideCovering(blank, filled);
    r := Ok(row);
  }

  // ---------------------------------------------------------------------------
  // Lemmas used by the construction.

  lemma ColumnsOfStep(cat: Catalog, props: seq<Property>, i: nat)
    requires i < |props|
    requires ColumnsOf(cat, props[..i]).Ok?
    ensures var cols := ColumnsOf(cat, props[..i]).value;
      ColumnsOf(cat, props[..i + 1]) ==
        match ColumnFor(cat, props[i])
        case Err(f) => Err(f)
        case Ok(c) => if c.name in NamesOf(cols) then Err(DuplicateColumn(c.name)) else Ok(cols + [c])
  {
    assert props[..i + 1][..i] == props[..i];
  }

  lemma {:induction false} ColumnsOfPrefixErr(cat: Catalog, props: seq<Property>, i: nat)
    requires i <= |props|
    requires ColumnsOf(cat, props[..i]).Err?
    ensures ColumnsOf(cat, props) == ColumnsOf(cat, props[..i])
  {
    if i < |props| {
      assert props[..|props| - 1][..i] == props[..i];
      ColumnsOfPrefixErr(cat, props[..|props| - 1], i);
    } else {
      assert props[..i] == props;
    }
  }

  lemma {:induction false} RowOfPrefixErr(cat: Catalog, props: seq<Property>, rec: Record, i: nat)
    requires i <= |props|
    requires RowOf(cat, props[..i], rec).Err?
    ensures RowOf(cat, props, rec) == RowOf(cat, props[..i], rec)
  {
    if i < |props| {
      assert props[..|props| - 1][..i] == props[..i];
      RowOfPrefixErr(cat, props[..|props| - 1], rec, i);
    } else {
      assert props[..i] == props;
    }
  }

  lemma {:induction false} RowsOfPrefixErr(cat: Catalog, props: seq<Property>, recs: seq<Record>, i: nat)
    requires 0 < i <= |recs|
    requires RowsOf(cat, props, recs[..i - 1]).Ok?
    requires RowOf(cat, props, recs[i - 1]).Err?
    ensures RowsOf(cat, props, recs) == Err(RowOf(cat, props, recs[i - 1]).error)
  {
    if i < |recs| {
      assert recs[..|recs| - 1][..i - 1] == recs[..i - 1];
      RowsOfPrefixErr(cat, props, recs[..|recs| - 1], i);
    } else {
      assert recs[..i - 1] == recs[..|recs| - 1];
    }
  }

  lemma OverrideUpdate(a: Row, b: Row, n: string, c: Cell)
    ensures (a + b)[n := c] == a + b[n := c]
  {
  }

  lemma OverrideCovering(a: Row, b: Row)
    requires a.Keys <= b.Keys
    ensures a + b == b
  {
  }

  /** The names of the built columns are the column names of the properties. */
  lemma ColumnsOfNames(cat: Catalog, props: seq<Property>, cols: seq<Column>)
    requires ColumnsOf(cat, props) == Ok(cols)
    ensures NamesOf(cols) == ColumnNames(props)
  {
  }
}

/** What the buffer holds, stated against the mapping and the records. */
module BufferProperties {
  import opened Entities
  import opened Materializer

  /** The columns build exactly when the column names are distinct and every FK navigation
      property's referenced type is mapped with at least one key. */
  lemma {:induction false} ColumnsOfOk(cat: Catalog, props: seq<Property>)
    ensures ColumnsOf(cat, props).Ok? <==>
      Distinct(ColumnNames(props)) && forall i :: 0 <= i < |props| ==> ColumnFor(cat, props[i]).Ok?
  {
    if props != [] {
      var init := props[..|props| - 1];
      ColumnsOfOk(cat, init);
      assert forall i :: 0 <= i < |init| ==> init[i] == props[i];
      var names := ColumnNames(props);
      assert ColumnNames(init) == names[..|props| - 1];
      if ColumnsOf(cat, init).Ok? {
        var cols := ColumnsOf(cat, init).value;
        ColumnsOfNames(cat, init, cols);
        assert NamesOf(cols) == names[..|props| - 1];
      }
    }
  }

  /** A built row holds, under each transfer column, the cell its property contributes. */
  lemma {:induction false} RowOfCells(cat: Catalog, props: seq<Property>, rec: Record)
    requires Distinct(ColumnNames(props))
    ensures RowOf(cat, props, rec).Ok? <==> forall i :: 0 <= i < |props| ==> CellFor(cat, props[i], rec).Ok?
    ensures RowOf(cat, props, rec).Ok? ==>
      forall i :: 0 <= i < |props| ==> CellFor(cat, props[i], rec) == Ok(RowOf(cat, props, rec).value[props[i].columnName])
  {
    if props != [] {
      var init := props[..|props| - 1];
      assert forall i :: 0 <= i < |init| ==> init[i] == props[i];
      assert ColumnNames(init) == ColumnNames(props)[..|props| - 1];
      RowOfCells(cat, init, rec);
    }
  }

  /** Each built row is the row of the record at the same position. */
  lemma {:induction false} RowsOfRows(cat: Catalog, props: seq<Property>, recs: seq<Record>)
    ensures RowsOf(cat, props, recs).Ok? <==> forall i :: 0 <= i < |recs| ==> RowOf(cat, props, recs[i]).Ok?
    ensures RowsOf(cat, props, recs).Ok? ==>
      forall i :: 0 <= i < |recs| ==> RowOf(cat, props, recs[i]) == Ok(RowsOf(cat, props, recs).value[i])
  {
    if recs != [] {
      var init, last := recs[..|recs| - 1], recs[|recs| - 1];
      assert forall i :: 0 <= i < |init| ==> init[i] == recs[i];
      RowsOfRows(cat, props, init);
      if RowsOf(cat, props, init).Ok? && RowOf(cat, props, last).Ok? {
        var rows := RowsOf(cat, props, init).value + [RowOf(cat, props, last).value];
        assert RowsOf(cat, props, recs) == Ok(rows);
        forall i | 0 <= i < |recs|
          ensures RowOf(cat, props, recs[i]) == Ok(rows[i])
        {
          if i < |init| {
            assert recs[i] == init[i];
          }
        }
      } else if RowsOf(cat, props, init).Err? {
        var i :| 0 <= i < |init| && RowOf(cat, props, init[i]).Err?;
        assert recs[i] == init[i];
      }
    }
  }

  /** True when `cell` is what a navigation value stores: the value of the first key
      property of the referenced entity, which must be mapped, keyed, and non-null. */
  ghost predicate HoldsReferencedKey(cat: Catalog, v: Value, cell: Cell)
  {
    && v.Entity?
    && v.entityType in cat
    && cat[v.entityType].pks != []
    && cat[v.entityType].pks[0].propertyName in v.fields
    && v.fields[cat[v.entityType].pks[0].propertyName] != Null
    && cell == Data(v.fields[cat[v.entityType].pks[0].propertyName])
  }

  /** The row of a record as the source fills it: a cell for every transfer column and for
      nothing else; a null scalar becomes DBNull, any other scalar is copied, and an FK
      navigation column holds the referenced entity's first key value. */
  ghost predicate RowMatchesRecord(cat: Catalog, props: seq<Property>, rec: Record, row: Row)
  {
    && (forall n :: n in row <==> n in ColumnNames(props))
    && (forall p :: p in props ==> p.propertyName in rec && p.columnName in row)
    && (forall p :: p in props && !IsFkNavigation(p) ==>
          row[p.columnName] == if rec[p.propertyName] == Null then DbNull else Data(rec[p.propertyName]))
    && (forall p :: p in props && IsFkNavigation(p) ==> HoldsReferencedKey(cat, rec[p.propertyName], row[p.columnName]))
  }

  /** What one successfully computed cell holds. */
  lemma CellMeaning(cat: Catalog, p: Property, rec: Record, c: Cell)
    requires CellFor(cat, p, rec) == Ok(c)
    ensures p.propertyName in rec
    ensures !IsFkNavigation(p) ==> c == if rec[p.propertyName] == Null then DbNull else Data(rec[p.propertyName])
    ensures IsFkNavigation(p) ==> HoldsReferencedKey(cat, rec[p.propertyName], c)
  {
  }

  /** A successfully built row is the record's row as the source fills it. */
  lemma BuiltRowMatches(cat: Catalog, props: seq<Property>, rec: Record, row: Row)
    requires Distinct(ColumnNames(props))
    requires RowOf(cat, props, rec) == Ok(row)
    ensures RowMatchesRecord(cat, props, rec, row)
  {
    RowOfCells(cat, props, rec);
    forall p | p in props
      ensures p.propertyName in rec && p.columnName in row
      ensures !IsFkNavigation(p) ==>
        row[p.columnName] == if rec[p.propertyName] == Null then DbNull else Data(rec[p.propertyName])
      ensures IsFkNavigation(p) ==> HoldsReferencedKey(cat, rec[p.propertyName], row[p.columnName])
    {
      var i :| 0 <= i < |props| && props[i] == p;
      assert ColumnNames(props)[i] == p.columnName;
      CellMeaning(cat, p, rec, row[p.columnName]);
    }
  }

  /** The columns of a successful build: one per transfer property, in mapping order, with
      distinct names, typed as the mapping says (an FK navigation column by the referenced
      entity's first key). */
  lemma BufferColumns(cat: Catalog, mapping: EntityMapping, recs: seq<Record>, b: Buffer)
    requires BufferOf(cat, mapping, recs) == Ok(b)
    ensures var props := TransferProperties(mapping.properties);
      && |b.columns| == |props|
      && NamesOf(b.columns) == ColumnNames(props)
      && Distinct(NamesOf(b.columns))
      && (forall i :: 0 <= i < |props| && IsFkNavigation(props[i]) ==>
            b.columns[i].dataType == cat[props[i].clrType].pks[0].clrType)
      && (forall i :: 0 <= i < |props| && !IsFkNavigation(props[i]) ==> b.columns[i].dataType == props[i].clrType)
  {
    var props := TransferProperties(mapping.properties);
    ColumnsOfOk(cat, props);
    ColumnsOfNames(cat, props, b.columns);
  }

  /** The rows of a successful build: one per record, in enumeration order, each the
      record's row as the source fills it. */
  lemma BufferRows(cat: Catalog, mapping: EntityMapping, recs: seq<Record>, b: Buffer)
    requires BufferOf(cat, mapping, recs) == Ok(b)
    ensures |b.rows| == |recs|
    ensures forall r :: 0 <= r < |recs| ==>
      RowMatchesRecord(cat, TransferProperties(mapping.properties), recs[r], b.rows[r])
  {
    var props := TransferProperties(mapping.properties);
    ColumnsOfOk(cat, props);
    RowsOfRows(cat, props, recs);
    forall r | 0 <= r < |recs|
      ensures RowMatchesRecord(cat, props, recs[r], b.rows[r])
    {
      BuiltRowMatches(cat, props, recs[r], b.rows[r]);
    }
  }

  /** A build fails exactly when the columns fail or some record's row fails; the failure
      reported is a column failure if there is one. */
  lemma BufferOfFails(cat: Catalog, mapping: EntityMapping, recs: seq<Record>)
    ensures var props := TransferProperties(mapping.properties);
      BufferOf(cat, mapping, recs).Err? <==>
        ColumnsOf(cat, props).Err? || exists r :: 0 <= r < |recs| && RowOf(cat, props, recs[r]).Err?
    ensures var props := TransferProperties(mapping.properties);
      ColumnsOf(cat, props).Err? ==> BufferOf(cat, mapping, recs) == Err(ColumnsOf(cat, props).error)
  {
    RowsOfRows(cat, TransferProperties(mapping.properties), recs);
  }
}
