/**
 * CompareIndexes: the index part of the schema diff. For one pair of tables it
 * appends Delete and Change records for the first table's indexes, then Add
 * records for the second table's, to a shared result list.
 */
module Compare {
  import opened Wrappers
  import opened DatabaseIndexes
  import opened SqlServerIndexes

  datatype ResultType = Add | Change | Delete

  /** The kind of schema object a result is about; the other comparers are not part of this model. */
  datatype SchemaObjectType = Index | OtherSchemaObject

  datatype CompareResult = CompareResult(
    schemaObjectType: SchemaObjectType,
    resultType: ResultType,
    tableName: string,
    schemaOwner: string,
    name: string,
    script: string)

  /**
   * The script writer (ComparisonWriter.DropIndex and AddIndex, whose output is
   * not part of this model) and the line separator Environment.NewLine.
   */
  datatype Writer = Writer(
    dropIndex: (DatabaseTable, DatabaseIndex) -> string,
    addIndex: (DatabaseTable, DatabaseIndex) -> string,
    newLine: string)

  /** The first index whose name matches exactly (ordinal, case-sensitive), or None when there is none. */
  function FirstByName(indexes: seq<DatabaseIndex>, name: string): (r: Option<DatabaseIndex>)
    ensures r.None? <==> forall k :: 0 <= k < |indexes| ==> indexes[k].name != name
    ensures r.Some? ==>
      exists k :: 0 <= k < |indexes| && indexes[k] == r.value && r.value.name == name &&
        forall j :: 0 <= j < k ==> indexes[j].name != name
  {
    if |indexes| == 0 then None
    else if indexes[0].name == name then Some(indexes[0])
    else
      var r := FirstByName(indexes[1..], name);
      assert forall j :: 1 <= j < |indexes| ==> indexes[j] == indexes[1..][j - 1];
      r
  }

  /** The record CreateResult appends: an Index result for `table`. */
  function NewResult(resultType: ResultType, table: DatabaseTable, name: string, script: string): CompareResult {
    CompareResult(Index, resultType, table.name, table.schemaOwner, name, script)
  }

  /** What the first loop records for one index of the first table. */
  function DeleteOrChange(writer: Writer, named: NamedEquals, databaseTable: DatabaseTable,
                          compareTable: DatabaseTable, index: DatabaseIndex): (r: Option<CompareResult>)
    ensures r.Some? ==>
      && r.value.schemaObjectType == Index && r.value.resultType != Add && r.value.name == index.name
      && r.value.tableName == databaseTable.name && r.value.schemaOwner == databaseTable.schemaOwner
  {
    if IsUniqueKeyIndex(index, databaseTable) then None
    else
      match FirstByName(compareTable.indexes, index.name)
      case None =>
        Some(NewResult(Delete, databaseTable, index.name, writer.dropIndex(databaseTable, index)))
      case Some(match_) =>
        if !IndexEquals(index, Some(match_), named) then
          Some(NewResult(Change, databaseTable, index.name,
            writer.dropIndex(databaseTable, index) + writer.newLine + writer.addIndex(databaseTable, match_)))
        else None
  }

  /** What the second loop records for one index of the second table. */
  function AddIfMissing(writer: Writer, databaseTable: DatabaseTable, compareTable: DatabaseTable,
                        index: DatabaseIndex): (r: Option<CompareResult>)
    ensures r.Some? ==>
      && r.value.schemaObjectType == Index && r.value.resultType == Add && r.value.name == index.name
      && r.value.tableName == databaseTable.name && r.value.schemaOwner == databaseTable.schemaOwner
  {
    if IsUniqueKeyIndex(index, compareTable) then None
    else if FirstByName(databaseTable.indexes, index.name).None? then
      Some(NewResult(Add, databaseTable, index.name, writer.addIndex(databaseTable, index)))
    else None
  }

  function AsSeq(r: Option<CompareResult>): seq<CompareResult> {
    if r.Some? then [r.value] else []
  }

  /** The records of the first loop over `indexes`, in iteration order. */
  function FirstPass(writer: Writer, named: NamedEquals, databaseTable: DatabaseTable,
                     compareTable: DatabaseTable, indexes: seq<DatabaseIndex>): seq<CompareResult>
  {
    if |indexes| == 0 then []
    else
      FirstPass(writer, named, databaseTable, compareTable, indexes[..|indexes| - 1]) +
      AsSeq(DeleteOrChange(writer, named, databaseTable, compareTable, indexes[|indexes| - 1]))
  }

  /** The records of the second loop over `indexes`, in iteration order. */
  function SecondPass(writer: Writer, databaseTable: DatabaseTable, compareTable: DatabaseTable,
                      indexes: seq<DatabaseIndex>): seq<CompareResult>
  {
    if |indexes| == 0 then []
    else
      SecondPass(writer, databaseTable, compareTable, indexes[..|indexes| - 1]) +
      AsSeq(AddIfMissing(writer, databaseTable, compareTable, indexes[|indexes| - 1]))
  }

  /** Everything one Execute(databaseTable, compareTable) appends, in order. */
  function Diff(writer: Writer, named: NamedEquals, databaseTable: DatabaseTable, compareTable: DatabaseTable): seq<CompareResult> {
    FirstPass(writer, named, databaseTable, compareTable, databaseTable.indexes) +
    SecondPass(writer, databaseTable, compareTable, compareTable.indexes)
  }

  /** The first loop appends at most one record per index, each an Index Delete or Change record of databaseTable. */
  lemma {:induction false} FirstPassShape(writer: Writer, named: NamedEquals, databaseTable: DatabaseTable,
                                          compareTable: DatabaseTable, indexes: seq<DatabaseIndex>)
    ensures var r := FirstPass(writer, named, databaseTable, compareTable, indexes);
      && |r| <= |indexes|
      && forall k :: 0 <= k < |r| ==>
        && r[k].schemaObjectType == Index && r[k].resultType != Add
        && r[k].tableName == databaseTable.name && r[k].schemaOwner == databaseTable.schemaOwner
  {
    if |indexes| > 0 {
      FirstPassShape(writer, named, databaseTable, compareTable, indexes[..|indexes| - 1]);
    }
  }

  /** The second loop appends at most one record per index, each an Index Add record of databaseTable. */
  lemma {:induction false} SecondPassShape(writer: Writer, databaseTable: DatabaseTable,
                                           compareTable: DatabaseTable, indexes: seq<DatabaseIndex>)
    ensures var r := SecondPass(writer, databaseTable, compareTable, indexes);
      && |r| <= |indexes|
      && forall k :: 0 <= k < |r| ==>
        && r[k].schemaObjectType == Index && r[k].resultType == Add
        && r[k].tableName == databaseTable.name && r[k].schemaOwner == databaseTable.schemaOwner
  {
    if |indexes| > 0 {
      SecondPassShape(writer, databaseTable, compareTable, indexes[..|indexes| - 1]);
    }
  }

  /** A record comes out of the first loop exactly when some index of the loop produces it. */
  lemma {:induction false} FirstPassMembers(writer: Writer, named: NamedEquals, databaseTable: DatabaseTable,
                                            compareTable: DatabaseTable, indexes: seq<DatabaseIndex>, x: CompareResult)
    ensures x in FirstPass(writer, named, databaseTable, compareTable, indexes) <==>
      exists k :: 0 <= k < |indexes| && DeleteOrChange(writer, named, databaseTable, compareTable, indexes[k]) == Some(x)
  {
    if |indexes| > 0 {
      var n := |indexes| - 1;
      FirstPassMembers(writer, named, databaseTable, compareTable, indexes[..n], x);
      assert forall k :: 0 <= k < n ==> indexes[..n][k] == indexes[k];
    }
  }

  /** A record comes out of the second loop exactly when some index of the loop produces it. */
  lemma {:induction false} SecondPassMembers(writer: Writer, databaseTable: DatabaseTable,
                                             compareTable: DatabaseTable, indexes: seq<DatabaseIndex>, x: CompareResult)
    ensures x in SecondPass(writer, databaseTable, compareTable, indexes) <==>
      exists k :: 0 <= k < |indexes| && AddIfMissing(writer, databaseTable, compareTable, indexes[k]) == Some(x)
  {
    if |indexes| > 0 {
      var n := |indexes| - 1;
      SecondPassMembers(writer, databaseTable, compareTable, indexes[..n], x);
      assert forall k :: 0 <= k < n ==> indexes[..n][k] == indexes[k];
    }
  }

  /** The first loop appends nothing exactly when no index of the loop produces a record. */
  lemma {:induction false} FirstPassEmpty(writer: Writer, named: NamedEquals, databaseTable: DatabaseTable,
                                          compareTable: DatabaseTable, indexes: seq<DatabaseIndex>)
    ensures FirstPass(writer, named, databaseTable, compareTable, indexes) == [] <==>
      forall k :: 0 <= k < |indexes| ==> DeleteOrChange(writer, named, databaseTable, compareTable, indexes[k]).None?
  {
    if |indexes| > 0 {
      var n := |indexes| - 1;
      FirstPassEmpty(writer, named, databaseTable, compareTable, indexes[..n]);
      assert forall k :: 0 <= k < n ==> indexes[..n][k] == indexes[k];
    }
  }

  /** The second loop appends nothing exactly when no index of the loop produces a record. */
  lemma {:induction false} SecondPassEmpty(writer: Writer, databaseTable: DatabaseTable,
                                           compareTable: DatabaseTable, indexes: seq<DatabaseIndex>)
    ensures SecondPass(writer, databaseTable, compareTable, indexes) == [] <==>
      forall k :: 0 <= k < |indexes| ==> AddIfMissing(writer, databaseTable, compareTable, indexes[k]).None?
  {
    if |indexes| > 0 {
      var n := |indexes| - 1;
      SecondPassEmpty(writer, databaseTable, compareTable, indexes[..n]);
      assert forall k :: 0 <= k < n ==> indexes[..n][k] == indexes[k];
    }
  }

  /**
   * Execute appends at most one record per index of either table; every record
   * is an Index record carrying databaseTable's name and owner (Add records
   * included); and all Delete and Change records come before all Add records.
   */
  lemma DiffShape(writer: Writer, named: NamedEquals, databaseTable: DatabaseTable, compareTable: DatabaseTable)
    ensures var d := Diff(writer, named, databaseTable, compareTable);
      && |d| <= |databaseTable.indexes| + |compareTable.indexes|
      && (forall k :: 0 <= k < |d| ==>
            d[k].schemaObjectType == Index && d[k].tableName == databaseTable.name &&
            d[k].schemaOwner == databaseTable.schemaOwner)
      && (forall k, m :: 0 <= k < m < |d| && d[k].resultType == Add ==> d[m].resultType == Add)
  {
    FirstPassShape(writer, named, databaseTable, compareTable, databaseTable.indexes);
    SecondPassShape(writer, databaseTable, compareTable, compareTable.indexes);
    var first := FirstPass(writer, named, databaseTable, compareTable, databaseTable.indexes);
    var d := Diff(writer, named, databaseTable, compareTable);
    assert forall k :: 0 <= k < |first| ==> d[k] == first[k];
  }

  /**
   * The first loop, for one index: nothing for a unique-key index; Delete
   * when the second table has no index of exactly that name; otherwise
   * compare with the first index of that name, and Change (drop, new line,
   * add the partner) when they are not equal.
   */
  lemma DeleteOrChangeCases(writer: Writer, named: NamedEquals, databaseTable: DatabaseTable,
                            compareTable: DatabaseTable, index: DatabaseIndex)
    ensures IsUniqueKeyIndex(index, databaseTable) ==>
      DeleteOrChange(writer, named, databaseTable, compareTable, index) == None
    ensures !IsUniqueKeyIndex(index, databaseTable) &&
            (forall k :: 0 <= k < |compareTable.indexes| ==> compareTable.indexes[k].name != index.name) ==>
      DeleteOrChange(writer, named, databaseTable, compareTable, index) ==
        Some(CompareResult(Index, Delete, databaseTable.name, databaseTable.schemaOwner, index.name,
                           writer.dropIndex(databaseTable, index)))
    ensures forall k :: 0 <= k < |compareTable.indexes| && compareTable.indexes[k].name == index.name &&
                        (forall j :: 0 <= j < k ==> compareTable.indexes[j].name != index.name) &&
                        !IsUniqueKeyIndex(index, databaseTable) ==>
      var partner := compareTable.indexes[k];
      DeleteOrChange(writer, named, databaseTable, compareTable, index) ==
        if IndexEquals(index, Some(partner), named) then None
        else Some(CompareResult(Index, Change, databaseTable.name, databaseTable.schemaOwner, index.name,
                                writer.dropIndex(databaseTable, index) + writer.newLine + writer.addIndex(databaseTable, partner)))
  {
    var found := FirstByName(compareTable.indexes, index.name);
    forall k | 0 <= k < |compareTable.indexes| && compareTable.indexes[k].name == index.name &&
               (forall j :: 0 <= j < k ==> compareTable.indexes[j].name != index.name)
      ensures found == Some(compareTable.indexes[k])
    {
      var k' :| 0 <= k' < |compareTable.indexes| && compareTable.indexes[k'] == found.value &&
        found.value.name == index.name && forall j :: 0 <= j < k' ==> compareTable.indexes[j].name != index.name;
      assert !(k < k') && !(k' < k);
    }
  }

  /**
   * The second loop, for one index: an Add record exactly when the index is
   * not a unique-key index of compareTable and no index of databaseTable has
   * its name; the lookup also sees databaseTable's unique-key indexes.
   */
  lemma AddIfMissingCases(writer: Writer, databaseTable: DatabaseTable, compareTable: DatabaseTable, index: DatabaseIndex)
    ensures AddIfMissing(writer, databaseTable, compareTable, index).Some? <==>
      !IsUniqueKeyIndex(index, compareTable) &&
      forall k :: 0 <= k < |databaseTable.indexes| ==> databaseTable.indexes[k].name != index.name
    ensures AddIfMissing(writer, databaseTable, compareTable, index).Some? ==>
      AddIfMissing(writer, databaseTable, compareTable, index) ==
        Some(CompareResult(Index, Add, databaseTable.name, databaseTable.schemaOwner, index.name,
                           writer.addIndex(databaseTable, index)))
  {
  }

  /** Comparing a table with itself appends nothing, when its index names are unique. */
  lemma DiffSelf(writer: Writer, named: NamedEquals, table: DatabaseTable)
    requires forall i, j :: 0 <= i < j < |table.indexes| ==> table.indexes[i].name != table.indexes[j].name
    ensures Diff(writer, named, table, table) == []
  {
    var indexes := table.indexes;
    forall k | 0 <= k < |indexes|
      ensures DeleteOrChange(writer, named, table, table, indexes[k]) == None
      ensures AddIfMissing(writer, table, table, indexes[k]) == None
    {
      var found := FirstByName(indexes, indexes[k].name);
      var k' :| 0 <= k' < |indexes| && indexes[k'] == found.value && found.value.name == indexes[k].name;
      assert k' == k;
    }
    FirstPassEmpty(writer, named, table, table, indexes);
    SecondPassEmpty(writer, table, table, indexes);
  }

  /** A new index in the second table gives exactly one Add record. */
  lemma NewIndexScenario(writer: Writer, named: NamedEquals, databaseTable: DatabaseTable,
                         compareTable: DatabaseTable, index: DatabaseIndex)
    requires databaseTable.indexes == [] && compareTable.indexes == [index]
    requires !IsUniqueKeyIndex(index, compareTable)
    ensures Diff(writer, named, databaseTable, compareTable) ==
      [CompareResult(Index, Add, databaseTable.name, databaseTable.schemaOwner, index.name, writer.addIndex(databaseTable, index))]
  {
    assert compareTable.indexes[..0] == [];
    assert FirstPass(writer, named, databaseTable, compareTable, databaseTable.indexes) == [];
    assert AddIfMissing(writer, databaseTable, compareTable, index) ==
      Some(CompareResult(Index, Add, databaseTable.name, databaseTable.schemaOwner, index.name, writer.addIndex(databaseTable, index)));
    assert SecondPass(writer, databaseTable, compareTable, compareTable.indexes) ==
      [CompareResult(Index, Add, databaseTable.name, databaseTable.schemaOwner, index.name, writer.addIndex(databaseTable, index))];
  }

  /** An index missing from the second table gives exactly one Delete record. */
  lemma DroppedIndexScenario(writer: Writer, named: NamedEquals, databaseTable: DatabaseTable,
                             compareTable: DatabaseTable, index: DatabaseIndex)
    requires databaseTable.indexes == [index] && compareTable.indexes == []
    requires !IsUniqueKeyIndex(index, databaseTable)
    ensures Diff(writer, named, databaseTable, compareTable) ==
      [CompareResult(Index, Delete, databaseTable.name, databaseTable.schemaOwner, index.name, writer.dropIndex(databaseTable, index))]
  {
    assert databaseTable.indexes[..0] == [];
    assert FirstPass(writer, named, databaseTable, compareTable, databaseTable.indexes) ==
      [CompareResult(Index, Delete, databaseTable.name, databaseTable.schemaOwner, index.name, writer.dropIndex(databaseTable, index))];
  }

  /**
   * Two same-named indexes that are not equal give exactly one Change record,
   * whose script drops the first and adds the second.
   */
  lemma ChangedIndexScenario(writer: Writer, named: NamedEquals, databaseTable: DatabaseTable,
                             compareTable: DatabaseTable, a: DatabaseIndex, b: DatabaseIndex)
    requires databaseTable.indexes == [a] && compareTable.indexes == [b] && a.name == b.name
    requires !IsUniqueKeyIndex(a, databaseTable)
    requires !IndexEquals(a, Some(b), named)
    ensures Diff(writer, named, databaseTable, compareTable) ==
      [CompareResult(Index, Change, databaseTable.name, databaseTable.schemaOwner, a.name,
                     writer.dropIndex(databaseTable, a) + writer.newLine + writer.addIndex(databaseTable, b))]
  {
    assert databaseTable.indexes[..0] == [] && compareTable.indexes[..0] == [];
    var change := CompareResult(Index, Change, databaseTable.name, databaseTable.schemaOwner, a.name,
                                writer.dropIndex(databaseTable, a) + writer.newLine + writer.addIndex(databaseTable, b));
    assert FirstByName(compareTable.indexes, a.name) == Some(b);
    assert FirstPass(writer, named, databaseTable, compareTable, databaseTable.indexes) == [change];
    assert FirstByName(databaseTable.indexes, b.name) == Some(a);
    assert SecondPass(writer, databaseTable, compareTable, compareTable.indexes) == [];
  }

  /**
   * An index that only duplicates a unique key of its table is filtered out:
   * dropping it from the second table gives no record at all.
   */
  lemma UniqueKeyShadowedScenario(writer: Writer, named: NamedEquals, databaseTable: DatabaseTable,
                                  compareTable: DatabaseTable, index: DatabaseIndex, uniqueKey: DatabaseConstraint)
    requires databaseTable.indexes == [index] && compareTable.indexes == []
    requires uniqueKey in databaseTable.uniqueKeys && uniqueKey.columns == ColumnNames(index)
    ensures Diff(writer, named, databaseTable, compareTable) == []
  {
    assert databaseTable.indexes[..0] == [];
    assert IsUniqueKeyIndex(index, databaseTable);
    assert FirstPass(writer, named, databaseTable, compareTable, databaseTable.indexes) == [];
  }

  class CompareIndexes {
    var results: seq<CompareResult>
    const writer: Writer
    const named: NamedEquals

    constructor (results: seq<CompareResult>, writer: Writer, named: NamedEquals)
      ensures this.results == results && this.writer == writer && this.named == named
    {
      this.results := results;
      this.writer := writer;
      this.named := named;
    }

    method CreateResult(resultType: ResultType, table: DatabaseTable, name: string, script: string)
      modifies this
      ensures results == old(results) + [NewResult(resultType, table, name, script)]
    {
      results := results + [NewResult(resultType, table, name, script)];
    }

    method Execute(databaseTable: DatabaseTable, compareTable: DatabaseTable)
      modifies this
      ensures results == old(results) + Diff(writer, named, databaseTable, compareTable)
    {
      var firstIndexes := databaseTable.indexes;
      var secondIndexes := compareTable.indexes;
      for i := 0 to |firstIndexes|
        invariant results == old(results) + FirstPass(writer, named, databaseTable, compareTable, firstIndexes[..i])
      {
        var index := firstIndexes[i];
        ghost var step := DeleteOrChange(writer, named, databaseTable, compareTable, index);
        assert firstIndexes[..i + 1][..i] == firstIndexes[..i];
        assert FirstPass(writer, named, databaseTable, compareTable, firstIndexes[..i + 1]) ==
          FirstPass(writer, named, databaseTable, compareTable, firstIndexes[..i]) + AsSeq(step);
        if !IsUniqueKeyIndex(index, databaseTable) {
          var indexName := index.name;
          var match_ := FirstByName(secondIndexes, indexName);
          if match_.None? {
            CreateResult(Delete, databaseTable, indexName, writer.dropIndex(databaseTable, index));
          } else if !IndexEquals(index, match_, named) {
            CreateResult(Change, databaseTable, indexName,
              writer.dropIndex(databaseTable, index) + writer.newLine + writer.addIndex(databaseTable, match_.value));
          }
        }
      }
      assert firstIndexes[..|firstIndexes|] == firstIndexes;
      ghost var afterFirst := results;
      for i := 0 to |secondIndexes|
        invariant results == afterFirst + SecondPass(writer, databaseTable, compareTable, secondIndexes[..i])
      {
        var index := secondIndexes[i];
        ghost var step := AddIfMissing(writer, databaseTable, compareTable, index);
        assert secondIndexes[..i + 1][..i] == secondIndexes[..i];
        assert SecondPass(writer, databaseTable, compareTable, secondIndexes[..i + 1]) ==
          SecondPass(writer, databaseTable, compareTable, secondIndexes[..i]) + AsSeq(step);
        if !IsUniqueKeyIndex(index, compareTable) {
          var indexName := index.name;
          var firstConstraint := FirstByName(firstIndexes, indexName);
          if firstConstraint.None? {
            CreateResult(Add, databaseTable, indexName, writer.addIndex(databaseTable, index));
          }
        }
      }
      assert secondIndexes[..|secondIndexes|] == secondIndexes;
    }
  }
}
