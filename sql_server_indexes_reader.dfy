/**
 * The SQL Server index reader: it turns the rows of the index query (one row
 * per index column, ordered by table, index, included flag, key ordinal and
 * column name) into DatabaseSqlServerIndex objects, creating an index the
 * first time its key is seen and adding the row's column to it.
 */
module SqlServerReader {
  import opened Wrappers
  import opened Text
  import opened ColumnOrder
  import opened DatabaseIndexedColumns
  import opened DatabaseIndexes

  /** One row of the index query, with the nullable columns as options. */
  datatype IndexRow = IndexRow(
    schemaName: string,
    tableName: string,
    indexName: string,
    columnName: Option<string>,
    indexType: Option<string>,
    isPrimary: bool,
    isUnique: bool,
    ordinal: int,
    filter: Option<string>,
    fillFactor: int,
    isIncludedColumn: bool,
    isDescending: bool)

  /**
   * The lookup predicate of Mapper: the same index name and owner, compared
   * exactly, and the same table name ignoring case.
   */
  predicate SameIndex(index: DatabaseIndex, row: IndexRow) {
    index.name == row.indexName && index.schemaOwner == row.schemaName &&
    Fold(index.tableName) == Fold(row.tableName)
  }

  /** The key Mapper's lookup uses, shared by two indexes. */
  predicate SameKey(x: DatabaseIndex, y: DatabaseIndex) {
    x.name == y.name && x.schemaOwner == y.schemaOwner && Fold(x.tableName) == Fold(y.tableName)
  }

  /** Position of the first index the row's lookup finds, or |result| when there is none. */
  function FindIndex(result: seq<DatabaseIndex>, row: IndexRow): (r: nat)
    ensures r <= |result|
    ensures forall j :: 0 <= j < r ==> !SameIndex(result[j], row)
    ensures r < |result| ==> SameIndex(result[r], row)
  {
    if |result| == 0 then 0
    else if SameIndex(result[0], row) then 0
    else
      var r := 1 + FindIndex(result[1..], row);
      assert forall j :: 1 <= j < |result| ==> result[j] == result[1..][j - 1];
      r
  }

  /**
   * The index type recorded for a primary key: "PRIMARY NONCLUSTERED" when
   * the query's type is NONCLUSTERED ignoring case, otherwise "PRIMARY".
   */
  function PrimaryIndexType(indexType: Option<string>): (r: string)
    ensures r == "PRIMARY NONCLUSTERED" || r == "PRIMARY"
    ensures r == "PRIMARY NONCLUSTERED" <==> indexType.Some? && Fold(indexType.value) == Fold("NONCLUSTERED")
  {
    if EqualsIgnoreCase(Some("NONCLUSTERED"), indexType) then "PRIMARY NONCLUSTERED" else "PRIMARY"
  }

  /** The type of a primary key is rewritten whatever the case the server reports it in, and a null type becomes "PRIMARY". */
  lemma {:induction false} PrimaryIndexTypeExamples()
    ensures PrimaryIndexType(Some("nonclustered")) == "PRIMARY NONCLUSTERED"
    ensures PrimaryIndexType(Some("CLUSTERED")) == "PRIMARY"
    ensures PrimaryIndexType(None) == "PRIMARY"
  {
    assert Fold("nonclustered") == Fold("NONCLUSTERED");
    assert Fold("CLUSTERED")[0] != Fold("NONCLUSTERED")[0];
  }

  /** The index Mapper creates from the first row of an index, before its column is added. */
  function NewIndex(row: IndexRow): (r: DatabaseIndex)
    ensures SameIndex(r, row)
    ensures r.kind.SqlServer? && r.kind.includedColumns == [] && r.columns == []
  {
    DatabaseIndex(row.indexName, row.schemaName, row.tableName,
                  if row.isPrimary then Some(PrimaryIndexType(row.indexType)) else row.indexType,
                  row.isUnique, row.filter, [], SqlServer(row.fillFactor, []))
  }

  /** Whether the row carries a column: ColumnName is neither null nor empty. */
  predicate HasColumn(row: IndexRow) {
    row.columnName.Some? && row.columnName.value != ""
  }

  /** The column order recorded for a key column. */
  function OrderOf(row: IndexRow): IndexedColumnOrder {
    if row.isDescending then DESC else ASC
  }

  /** The second half of Mapper: the row's column joins the included or the key columns. */
  function AddColumn(index: DatabaseIndex, row: IndexRow): (r: DatabaseIndex)
    requires index.kind.SqlServer?
    ensures r.kind.SqlServer? && SameKey(r, index)
    ensures r.kind.fillFactor == index.kind.fillFactor
    ensures r.(columns := index.columns, kind := index.kind) == index
    ensures |r.columns| + |r.kind.includedColumns| ==
      |index.columns| + |index.kind.includedColumns| + (if HasColumn(row) then 1 else 0)
  {
    if !HasColumn(row) then index
    else if row.isIncludedColumn then
      index.(kind := index.kind.(includedColumns := index.kind.includedColumns + [Column(row.columnName.value, row.ordinal)]))
    else
      index.(columns := index.columns + [IndexedColumn(row.columnName.value, row.ordinal, Some(OrderOf(row)))])
  }

  /** Every index of the reader's result is a DatabaseSqlServerIndex (the cast in Mapper never fails). */
  predicate AllSqlServer(result: seq<DatabaseIndex>) {
    forall i :: 0 <= i < |result| ==> result[i].kind.SqlServer?
  }

  /** No two indexes of the result share the lookup key. */
  predicate KeysUnique(result: seq<DatabaseIndex>) {
    forall i, j :: 0 <= i < j < |result| ==> !SameKey(result[i], result[j])
  }

  /**
   * Every key column the reader adds is an indexed column with a non-empty
   * name and a column order, and every included column a plain column with a
   * non-empty name.
   */
  predicate ColumnsWellFormed(result: seq<DatabaseIndex>) {
    forall i :: 0 <= i < |result| ==>
      && (forall c :: c in result[i].columns ==> c.IndexedColumn? && c.name != "" && c.columnOrder.Some?)
      && (result[i].kind.SqlServer? ==> forall c :: c in result[i].kind.includedColumns ==> c.Column? && c.name != "")
  }

  /** The result list after Mapper(row). */
  function Step(result: seq<DatabaseIndex>, row: IndexRow): (r: seq<DatabaseIndex>)
    requires AllSqlServer(result)
    ensures AllSqlServer(r)
  {
    var k := FindIndex(result, row);
    if k < |result| then result[k := AddColumn(result[k], row)]
    else result + [AddColumn(NewIndex(row), row)]
  }

  /** The result list after Mapper has been called on each row in turn. */
  function ReadAll(result: seq<DatabaseIndex>, rows: seq<IndexRow>): (r: seq<DatabaseIndex>)
    requires AllSqlServer(result)
    ensures AllSqlServer(r)
  {
    if |rows| == 0 then result
    else Step(ReadAll(result, rows[..|rows| - 1]), rows[|rows| - 1])
  }

  /** Mapper finds an existing index or appends exactly one new one. */
  lemma StepLength(result: seq<DatabaseIndex>, row: IndexRow)
    requires AllSqlServer(result)
    ensures (exists j :: 0 <= j < |result| && SameIndex(result[j], row)) ==> |Step(result, row)| == |result|
    ensures (forall j :: 0 <= j < |result| ==> !SameIndex(result[j], row)) ==>
      && |Step(result, row)| == |result| + 1
      && Step(result, row)[..|result|] == result
  {
  }

  /**
   * The first row of an index fixes its header: name, owner, table, type
   * (rewritten for a primary key), uniqueness, filter and fill factor, with no
   * columns besides the row's own.
   */
  lemma StepCreates(result: seq<DatabaseIndex>, row: IndexRow)
    requires AllSqlServer(result)
    requires forall j :: 0 <= j < |result| ==> !SameIndex(result[j], row)
    ensures var created := Step(result, row)[|result|];
      && created.name == row.indexName && created.schemaOwner == row.schemaName && created.tableName == row.tableName
      && created.indexType == (if row.isPrimary then Some(PrimaryIndexType(row.indexType)) else row.indexType)
      && created.isUnique == row.isUnique && created.filter == row.filter
      && created.kind.fillFactor == row.fillFactor
      && |created.columns| + |created.kind.includedColumns| == (if HasColumn(row) then 1 else 0)
  {
  }

  /**
   * A later row of an index changes only that index (the first one the lookup
   * finds), and not its header: the row's type, uniqueness, filter and fill
   * factor are ignored.
   */
  lemma StepUpdates(result: seq<DatabaseIndex>, row: IndexRow, k: nat)
    requires AllSqlServer(result)
    requires k < |result| && SameIndex(result[k], row)
    requires forall j :: 0 <= j < k ==> !SameIndex(result[j], row)
    ensures var r := Step(result, row);
      && |r| == |result|
      && (forall j :: 0 <= j < |result| && j != k ==> r[j] == result[j])
      && r[k].name == result[k].name && r[k].schemaOwner == result[k].schemaOwner
      && r[k].tableName == result[k].tableName && r[k].indexType == result[k].indexType
      && r[k].isUnique == result[k].isUnique && r[k].filter == result[k].filter
      && r[k].kind.fillFactor == result[k].kind.fillFactor
  {
    assert FindIndex(result, row) == k;
  }

  /**
   * The row's column: none when ColumnName is null or empty; otherwise
   * appended to the included columns (name and ordinal) or to the key columns
   * (name, ordinal, DESC exactly when the key is descending).
   */
  lemma StepColumn(result: seq<DatabaseIndex>, row: IndexRow)
    requires AllSqlServer(result)
    ensures var k := FindIndex(result, row);
      var before := if k < |result| then result[k] else NewIndex(row);
      var after := Step(result, row)[k];
      && (!HasColumn(row) ==> after == before)
      && (HasColumn(row) && row.isIncludedColumn ==>
            && after.columns == before.columns
            && after.kind.includedColumns == before.kind.includedColumns + [Column(row.columnName.value, row.ordinal)])
      && (HasColumn(row) && !row.isIncludedColumn ==>
            && after.kind.includedColumns == before.kind.includedColumns
            && after.columns == before.columns + [IndexedColumn(row.columnName.value, row.ordinal, Some(OrderOf(row)))]
            && (after.columns[|before.columns|].columnOrder == Some(DESC) <==> row.isDescending))
  {
  }

  /** Mapper never creates a second index with the key of an existing one. */
  lemma StepKeysUnique(result: seq<DatabaseIndex>, row: IndexRow)
    requires AllSqlServer(result) && KeysUnique(result)
    ensures KeysUnique(Step(result, row))
  {
    var k := FindIndex(result, row);
    var r := Step(result, row);
    if k < |result| {
      assert forall j :: 0 <= j < |r| ==> SameKey(r[j], result[j]) && SameKey(result[j], r[j]);
    } else {
      var created := r[|result|];
      forall i | 0 <= i < |result|
        ensures !SameKey(r[i], created)
      {
        assert !SameIndex(result[i], row);
      }
    }
  }

  /** Mapper adds only well-formed columns. */
  lemma StepColumnsWellFormed(result: seq<DatabaseIndex>, row: IndexRow)
    requires AllSqlServer(result) && ColumnsWellFormed(result)
    ensures ColumnsWellFormed(Step(result, row))
  {
    var k := FindIndex(result, row);
    var r := Step(result, row);
    var before := if k < |result| then result[k] else NewIndex(row);
    assert r[k] == AddColumn(before, row);
    forall c | c in r[k].columns
      ensures c.IndexedColumn? && c.name != "" && c.columnOrder.Some?
    {
      if c !in before.columns {
        assert c == IndexedColumn(row.columnName.value, row.ordinal, Some(OrderOf(row)));
      }
    }
    forall c | c in r[k].kind.includedColumns
      ensures c.Column? && c.name != ""
    {
      if c !in before.kind.includedColumns {
        assert c == Column(row.columnName.value, row.ordinal);
      }
    }
  }

  /** Mapper keeps every index's lookup key. */
  lemma StepKeepsKeys(result: seq<DatabaseIndex>, row: IndexRow)
    requires AllSqlServer(result)
    ensures var r := Step(result, row);
      |result| <= |r| && forall j :: 0 <= j < |result| ==> SameKey(r[j], result[j])
  {
  }

  /** Reading a sequence of rows keeps the keys unique and the columns well formed. */
  lemma {:induction false} ReadAllValid(result: seq<DatabaseIndex>, rows: seq<IndexRow>)
    requires AllSqlServer(result) && KeysUnique(result) && ColumnsWellFormed(result)
    ensures KeysUnique(ReadAll(result, rows)) && ColumnsWellFormed(ReadAll(result, rows))
  {
    if |rows| > 0 {
      var before := ReadAll(result, rows[..|rows| - 1]);
      ReadAllValid(result, rows[..|rows| - 1]);
      StepKeysUnique(before, rows[|rows| - 1]);
      StepColumnsWellFormed(before, rows[|rows| - 1]);
    }
  }

  /**
   * After reading, the indexes already in the list keep their place and key,
   * and every row has an index with its key.
   */
  lemma {:induction false} ReadAllCovers(result: seq<DatabaseIndex>, rows: seq<IndexRow>)
    requires AllSqlServer(result)
    ensures var r := ReadAll(result, rows);
      && |result| <= |r|
      && (forall j :: 0 <= j < |result| ==> SameKey(r[j], result[j]))
      && (forall i :: 0 <= i < |rows| ==> exists j :: 0 <= j < |r| && SameIndex(r[j], rows[i]))
  {
    if |rows| > 0 {
      var n := |rows| - 1;
      var before := ReadAll(result, rows[..n]);
      var r := ReadAll(result, rows);
      ReadAllCovers(result, rows[..n]);
      StepKeepsKeys(before, rows[n]);
      forall i | 0 <= i < |rows|
        ensures exists j :: 0 <= j < |r| && SameIndex(r[j], rows[i])
      {
        if i < n {
          assert rows[..n][i] == rows[i];
          var j :| 0 <= j < |before| && SameIndex(before[j], rows[i]);
          assert SameKey(r[j], before[j]);
        } else {
          var k := FindIndex(before, rows[n]);
          assert SameIndex(r[k], rows[n]);
        }
      }
      forall j | 0 <= j < |result|
        ensures SameKey(r[j], result[j])
      {
        assert SameKey(before[j], result[j]);
      }
    }
  }

  /** Reading rows in two batches is reading them all in one. */
  lemma {:induction false} ReadAllConcat(result: seq<DatabaseIndex>, a: seq<IndexRow>, b: seq<IndexRow>)
    requires AllSqlServer(result)
    ensures ReadAll(result, a + b) == ReadAll(ReadAll(result, a), b)
  {
    if |b| == 0 {
      assert a + b == a;
    } else {
      var n := |b| - 1;
      assert (a + b)[..|a + b| - 1] == a + b[..n];
      assert (a + b)[|a + b| - 1] == b[n];
      ReadAllConcat(result, a, b[..n]);
    }
  }

  /**
   * Indexes appear in order of first appearance: the indexes read from the
   * first m rows keep their places and keys, later indexes come after them.
   */
  lemma ReadAllFirstAppearance(result: seq<DatabaseIndex>, rows: seq<IndexRow>, m: nat)
    requires AllSqlServer(result) && m <= |rows|
    ensures var early := ReadAll(result, rows[..m]);
      var all := ReadAll(result, rows);
      |early| <= |all| && forall j :: 0 <= j < |early| ==> SameKey(all[j], early[j])
  {
    assert rows == rows[..m] + rows[m..];
    ReadAllConcat(result, rows[..m], rows[m..]);
    ReadAllCovers(ReadAll(result, rows[..m]), rows[m..]);
  }

  /** The reader of one table's (or all tables') indexes: Result is the list Mapper fills. */
  class Indexes {
    var result: seq<DatabaseIndex>
    const owner: Option<string>
    const tableName: Option<string>

    ghost predicate Valid()
      reads this
    {
      AllSqlServer(result) && KeysUnique(result) && ColumnsWellFormed(result)
    }

    constructor (owner: Option<string>, tableName: Option<string>)
      ensures Valid()
      ensures result == [] && this.owner == owner && this.tableName == tableName
    {
      this.owner := owner;
      this.tableName := tableName;
      result := [];
    }

    /** Map one row: find or create its index, then add the row's column to it. */
    method Mapper(record: IndexRow)
      requires Valid()
      modifies this
      ensures Valid()
      ensures result == Step(old(result), record)
    {
      StepKeysUnique(result, record);
      StepColumnsWellFormed(result, record);
      var k := FindIndex(result, record);
      var index: DatabaseIndex;
      if k == |result| {
        index := NewIndex(record);
        result := result + [index];
      } else {
        index := result[k];
      }
      if !HasColumn(record) {
        return;
      }
      if record.isIncludedColumn {
        var col := Column(record.columnName.value, record.ordinal);
        index := index.(kind := index.kind.(includedColumns := index.kind.includedColumns + [col]));
      } else {
        var col := IndexedColumn(record.columnName.value, record.ordinal, Some(OrderOf(record)));
        index := index.(columns := index.columns + [col]);
      }
      result := result[k := index];
    }
  }
}
