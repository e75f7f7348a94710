/** The SQL text a bulk load sends to the server: the staging-table statements, the MERGE
    match condition, the insert and update column lists, and the MERGE statement of each
    mode. Every text is reproduced character for character, spacing included. */
module MergeSql {
  import opened Entities

  /** The name of the staging table of a target table. */
  function StagingTableName(table: string): string
  {
    table + "_temp"
  }

  /** The staging table is never the target table itself, and different targets get
      different staging tables. */
  lemma StagingTableNameDistinct(table: string, other: string)
    ensures StagingTableName(table) != table
    ensures StagingTableName(table) == StagingTableName(other) ==> table == other
  {
    if StagingTableName(table) == StagingTableName(other) {
      assert |table| == |other|;
      assert table == StagingTableName(table)[..|table|];
      assert other == StagingTableName(other)[..|other|];
    }
  }

  /** Drops the staging table if it exists, then creates it as an empty copy of the target. */
  function CreateStagingSql(staging: string, table: string): string
  {
    "IF OBJECT_ID('" + staging + "', 'U') IS NOT NULL   DROP TABLE " + staging + " \n"
    + "SELECT top(0) * into " + staging + " FROM " + table
  }

  /** Drops the staging table if it exists. */
  function DropStagingSql(staging: string): string
  {
    "IF OBJECT_ID('" + staging + "', 'U') IS NOT NULL   DROP TABLE " + staging
  }

  /** Deletes every row of the target table. */
  function DeleteAllSql(table: string): string
  {
    "DELETE FROM " + table
  }

  /** The drop text is the first line of the create text, without its trailing " \n". */
  lemma CreateBeginsWithDrop(staging: string, table: string)
    ensures CreateStagingSql(staging, table) == DropStagingSql(staging) + " \nSELECT top(0) * into " + staging + " FROM " + table
  {
  }

  /** `string.Join(sep, items)`: the items with `sep` between neighbours; empty for no items. */
  function Join(sep: string, items: seq<string>): string
  {
    if items == [] then ""
    else if |items| == 1 then items[0]
    else Join(sep, items[..|items| - 1]) + sep + items[|items| - 1]
  }

  /** Joining a concatenation joins each part and puts one separator between them. */
  lemma {:induction false} JoinConcat(sep: string, a: seq<string>, b: seq<string>)
    requires a != [] && b != []
    ensures Join(sep, a + b) == Join(sep, a) + sep + Join(sep, b)
  {
    var ab := a + b;
    if |b| == 1 {
      assert ab[..|ab| - 1] == a;
    } else {
      var init := b[..|b| - 1];
      assert ab[..|ab| - 1] == a + init;
      JoinConcat(sep, a, init);
    }
  }

  /** `s.Remove(startIndex)`: the part of `s` before `startIndex`; an index that is negative
      or not inside the string throws ArgumentOutOfRangeException. */
  function Remove(s: string, startIndex: int): (r: Result<string>)
    ensures r.Ok? <==> 0 <= startIndex < |s|
    ensures r.Ok? ==> s == r.value + s[startIndex..]
  {
    if startIndex < 0 || startIndex >= |s| then Err(RemoveOutOfRange(startIndex))
    else Ok(s[..startIndex])
  }

  // ---------------------------------------------------------------------------
  // The match condition.

  /** The equality of one key column between target and source. */
  function MatchTerm(column: string): string
  {
    "Target." + column + "=Source." + column
  }

  /** The equality of each key column, in key order. */
  function MatchTerms(pks: seq<Property>): seq<string>
  {
    seq(|pks|, i requires 0 <= i < |pks| => MatchTerm(pks[i].columnName))
  }

  /** The match condition: the key equalities joined by " AND ", left with one trailing
      space by the removal of the last "AND "; no key at all makes the removal index -4,
      which is refused. */
  function MatchCondition(pks: seq<Property>): Result<string>
  {
    if pks == [] then Err(RemoveOutOfRange(-4))
    else Ok(Join(" AND ", MatchTerms(pks)) + " ")
  }

  /** The condition is refused exactly for an entity without keys; one key gives its single
      equality and the trailing space, and each further key adds "AND " and its equality. */
  lemma {:induction false} MatchConditionShape(pks: seq<Property>, p: Property)
    ensures MatchCondition(pks).Err? <==> pks == []
    ensures MatchCondition([p]) == Ok(MatchTerm(p.columnName) + " ")
    ensures pks != [] ==>
      MatchCondition(pks + [p]) == Ok(MatchCondition(pks).value + "AND " + MatchTerm(p.columnName) + " ")
  {
    assert MatchTerms([p]) == [MatchTerm(p.columnName)];
    if pks != [] {
      var terms := MatchTerms(pks + [p]);
      assert terms[..|terms| - 1] == MatchTerms(pks);
      var head := Join(" AND ", MatchTerms(pks));
      assert Join(" AND ", terms) == head + " AND " + MatchTerm(p.columnName);
      assert head + " AND " + MatchTerm(p.columnName) + " " == head + " " + "AND " + MatchTerm(p.columnName) + " ";
    }
  }

  /** The text the condition loop has accumulated after the given key columns: each key's
      equality followed by " AND ". */
  function Accumulated(pks: seq<Property>): string
  {
    if pks == [] then "" else Accumulated(pks[..|pks| - 1]) + MatchTerm(pks[|pks| - 1].columnName) + " AND "
  }

  /** Removing the last four characters of the accumulated text gives the match condition. */
  lemma {:induction false} AccumulatedCondition(pks: seq<Property>)
    ensures Remove(Accumulated(pks), |Accumulated(pks)| - 4) == MatchCondition(pks)
  {
    if pks != [] {
      AccumulatedJoin(pks);
      var acc := Accumulated(pks);
      var cond := Join(" AND ", MatchTerms(pks)) + " ";
      assert acc == cond + "AND ";
      assert acc[..|acc| - 4] == cond;
    }
  }

  lemma {:induction false} AccumulatedJoin(pks: seq<Property>)
    requires pks != []
    ensures Accumulated(pks) == Join(" AND ", MatchTerms(pks)) + " AND "
  {
    var init := pks[..|pks| - 1];
    var term := MatchTerm(pks[|pks| - 1].columnName);
    var terms := MatchTerms(pks);
    assert terms == MatchTerms(init) + [term];
    assert Accumulated(pks) == Accumulated(init) + term + " AND ";
    if init != [] {
      AccumulatedJoin(init);
      var j := Join(" AND ", MatchTerms(init));
      assert terms[..|terms| - 1] == MatchTerms(init);
      assert Join(" AND ", terms) == j + " AND " + term;
    } else {
      assert terms == [term];
      assert Join(" AND ", terms) == term;
    }
  }

  /** Accumulates "Target.c=Source.c AND " per key column, then removes the last four
      characters. */
  method BuildCondition(pks: seq<Property>) returns (r: Result<string>)
    ensures r == MatchCondition(pks)
  {
    var condition := "";
    var i := 0;
    while i < |pks|
      invariant 0 <= i <= |pks|
      invariant condition == Accumulated(pks[..i])
    {
      var c := pks[i].columnName;
      assert pks[..i + 1][..i] == pks[..i];
      assert condition + "Target." + c + "=Source." + c + " AND " == condition + MatchTerm(c) + " AND ";
      condition := condition + "Target." + c + "=Source." + c + " AND ";
      i := i + 1;
    }
    assert pks[..i] == pks;
    AccumulatedCondition(pks);
    r := Remove(condition, |condition| - 4);
  }

  // ---------------------------------------------------------------------------
  // The insert and update column lists.

  /** A column of the insert list. */
  function Bracketed(column: string): string
  {
    "[" + column + "]"
  }

  /** An assignment of the update list. */
  function Assignment(column: string): string
  {
    "TARGET.[" + column + "]=SOURCE.[" + column + "]"
  }

  /** True when `p` goes into the insert list; the upsert modes leave identity columns out. */
  predicate Inserted(p: Property, upsert: bool)
  {
    !(upsert && p.isIdentity)
  }

  /** True when `p` goes into the update list; the upsert modes leave key columns out. */
  predicate Updated(p: Property, upsert: bool)
  {
    !(upsert && p.isPk)
  }

  /** The insert list items, in property order. */
  function InsertItems(props: seq<Property>, upsert: bool): seq<string>
  {
    if props == [] then []
    else if Inserted(props[|props| - 1], upsert) then InsertItems(props[..|props| - 1], upsert) + [Bracketed(props[|props| - 1].columnName)]
    else InsertItems(props[..|props| - 1], upsert)
  }

  /** The update list items, in property order. */
  function UpdateItems(props: seq<Property>, upsert: bool): seq<string>
  {
    if props == [] then []
    else if Updated(props[|props| - 1], upsert) then UpdateItems(props[..|props| - 1], upsert) + [Assignment(props[|props| - 1].columnName)]
    else UpdateItems(props[..|props| - 1], upsert)
  }

  /** Appends each property's insert item and update assignment; the upsert modes skip
      identity columns in the first list and key columns in the second, the Delete mode
      skips nothing. */
  method BuildLists(properties: seq<Property>, upsert: bool) returns (insertList: seq<string>, updateList: seq<string>)
    ensures insertList == InsertItems(properties, upsert)
    ensures updateList == UpdateItems(properties, upsert)
  {
    insertList, updateList := [], [];
    var i := 0;
    while i < |properties|
      invariant 0 <= i <= |properties|
      invariant insertList == InsertItems(properties[..i], upsert)
      invariant updateList == UpdateItems(properties[..i], upsert)
    {
      assert properties[..i + 1][..i] == properties[..i];
      var p := properties[i];
      if !(upsert && p.isIdentity) {
        insertList := insertList + ["[" + p.columnName + "]"];
      }
      if !(upsert && p.isPk) {
        updateList := updateList + ["TARGET.[" + p.columnName + "]=SOURCE.[" + p.columnName + "]"];
      }
      i := i + 1;
    }
    assert properties[..i] == properties;
  }

  lemma BracketedInjective(a: string, b: string)
    requires Bracketed(a) == Bracketed(b)
    ensures a == b
  {
    assert a == Bracketed(a)[1..|Bracketed(a)| - 1];
  }

  lemma AssignmentInjective(a: string, b: string)
    requires Assignment(a) == Assignment(b)
    ensures a == b
  {
    assert |a| == |b|;
    assert a == Assignment(a)[8..8 + |a|];
  }

  /** A column is in the insert list exactly when some property of that column is inserted. */
  lemma {:induction false} InsertItemsMembers(props: seq<Property>, upsert: bool, column: string)
    ensures Bracketed(column) in InsertItems(props, upsert) <==>
      exists p :: p in props && Inserted(p, upsert) && p.columnName == column
  {
    if props != [] {
      var init, last := props[..|props| - 1], props[|props| - 1];
      InsertItemsMembers(init, upsert, column);
      assert props == init + [last];
      if Bracketed(column) == Bracketed(last.columnName) {
        BracketedInjective(column, last.columnName);
      }
    }
  }

  /** A column is in the update list exactly when some property of that column is updated. */
  lemma {:induction false} UpdateItemsMembers(props: seq<Property>, upsert: bool, column: string)
    ensures Assignment(column) in UpdateItems(props, upsert) <==>
      exists p :: p in props && Updated(p, upsert) && p.columnName == column
  {
    if props != [] {
      var init, last := props[..|props| - 1], props[|props| - 1];
      UpdateItemsMembers(init, upsert, column);
      assert props == init + [last];
      if Assignment(column) == Assignment(last.columnName) {
        AssignmentInjective(column, last.columnName);
      }
    }
  }

  /** With distinct column names, the upsert insert list names every non-identity column and
      no identity column, and the upsert update list every non-key column and no key column. */
  lemma UpsertListsExclude(props: seq<Property>)
    requires Distinct(ColumnNames(props))
    ensures forall p :: p in props ==> (Bracketed(p.columnName) in InsertItems(props, true) <==> !p.isIdentity)
    ensures forall p :: p in props ==> (Assignment(p.columnName) in UpdateItems(props, true) <==> !p.isPk)
  {
    forall p | p in props
      ensures Bracketed(p.columnName) in InsertItems(props, true) <==> !p.isIdentity
      ensures Assignment(p.columnName) in UpdateItems(props, true) <==> !p.isPk
    {
      InsertItemsMembers(props, true, p.columnName);
      UpdateItemsMembers(props, true, p.columnName);
      forall q | q in props && q.columnName == p.columnName
        ensures q == p
      {
        var i :| 0 <= i < |props| && props[i] == p;
        var j :| 0 <= j < |props| && props[j] == q;
        assert ColumnNames(props)[i] == ColumnNames(props)[j];
      }
    }
  }

  /** The Delete mode's lists name every column, in order. */
  lemma {:induction false} DeleteListsNameAll(props: seq<Property>)
    ensures InsertItems(props, false) == seq(|props|, i requires 0 <= i < |props| => Bracketed(props[i].columnName))
    ensures UpdateItems(props, false) == seq(|props|, i requires 0 <= i < |props| => Assignment(props[i].columnName))
  {
    if props != [] {
      DeleteListsNameAll(props[..|props| - 1]);
    }
  }

  // ---------------------------------------------------------------------------
  // The MERGE statements.

  /** The opening line shared by every MERGE statement. */
  function MergeHead(table: string, staging: string, condition: string): string
  {
    "MERGE " + table + " AS TARGET USING " + staging + " AS SOURCE ON " + condition + " \n"
  }

  /** The MERGE of UpsertWithDelete. */
  function UpsertWithDeleteSql(table: string, staging: string, condition: string, insertValues: string, updateValues: string): string
  {
    "MERGE " + table + " AS TARGET USING " + staging + " AS SOURCE ON " + condition + " \n"
    + "WHEN NOT MATCHED BY TARGET THEN \n"
    + "INSERT (" + insertValues + ") VALUES(" + insertValues + ") \n"
    + "WHEN MATCHED THEN \n"
    + "UPDATE SET " + updateValues + "  \n"
    + "WHEN NOT MATCHED BY SOURCE THEN DELETE;"
  }

  /** The MERGE of UpsertWithoutDelete. */
  function UpsertWithoutDeleteSql(table: string, staging: string, condition: string, insertValues: string, updateValues: string): string
  {
    "MERGE " + table + " AS TARGET USING " + staging + " AS SOURCE ON " + condition + " \n"
    + "WHEN NOT MATCHED BY TARGET THEN \n"
    + "INSERT (" + insertValues + ") VALUES(" + insertValues + ") \n"
    + "WHEN MATCHED THEN \n"
    + "UPDATE SET " + updateValues + "  ;"
  }

  /** The MERGE of Delete. The two lists are passed to the format but no placeholder uses them. */
  function DeleteMatchedSql(table: string, staging: string, condition: string, insertValues: string, updateValues: string): string
  {
    "MERGE " + table + " AS TARGET USING " + staging + " AS SOURCE ON " + condition + " \n"
    + "WHEN  MATCHED THEN DELETE;"
  }

  /** The insert-and-update part the two upsert statements share. */
  function UpsertBody(table: string, staging: string, condition: string, insertValues: string, updateValues: string): string
  {
    MergeHead(table, staging, condition)
    + "WHEN NOT MATCHED BY TARGET THEN \n"
    + "INSERT (" + insertValues + ") VALUES(" + insertValues + ") \n"
    + "WHEN MATCHED THEN \n"
    + "UPDATE SET " + updateValues
  }

  /** The two upsert statements differ only after the update list: one deletes the target rows
      the source lacks, the other just ends. */
  lemma UpsertStatementsShareBody(table: string, staging: string, condition: string, ins: string, upd: string)
    ensures UpsertWithDeleteSql(table, staging, condition, ins, upd)
      == UpsertBody(table, staging, condition, ins, upd) + "  \n" + "WHEN NOT MATCHED BY SOURCE THEN DELETE;"
    ensures UpsertWithoutDeleteSql(table, staging, condition, ins, upd)
      == UpsertBody(table, staging, condition, ins, upd) + "  ;"
  {
  }

  /** The Delete statement is the MERGE head and a single delete clause, whatever lists it is given. */
  lemma DeleteStatementIgnoresLists(table: string, staging: string, condition: string, ins: string, upd: string, ins': string, upd': string)
    ensures DeleteMatchedSql(table, staging, condition, ins, upd) == MergeHead(table, staging, condition) + "WHEN  MATCHED THEN DELETE;"
    ensures DeleteMatchedSql(table, staging, condition, ins, upd) == DeleteMatchedSql(table, staging, condition, ins', upd')
  {
  }
}
