/**
 * DatabaseIndex: an index of a table, its equality, the redundancy filter
 * IsUniqueKeyIndex and the join IndexedColumns.
 *
 * The SQL Server specialisation (DatabaseSqlServerIndex) is the `SqlServer`
 * variant of IndexKind; its own members are in module SqlServerIndexes.
 */
module DatabaseIndexes {
  import opened Wrappers
  import opened Text
  import opened Linq
  import opened ColumnOrder
  import opened DatabaseIndexedColumns
  import opened EnumerableExtensions

  /** A primary key or unique key: its name and the names of its columns, in key order. */
  datatype DatabaseConstraint = DatabaseConstraint(name: string, columns: seq<string>)

  /** Which concrete class an index object is: DatabaseIndex or DatabaseSqlServerIndex. */
  datatype IndexKind =
    | Generic
    | SqlServer(fillFactor: int, includedColumns: seq<DatabaseColumn>)

  datatype DatabaseIndex = DatabaseIndex(
    name: string,
    schemaOwner: string,
    tableName: string,
    indexType: Option<string>,
    isUnique: bool,
    filter: Option<string>,
    columns: seq<DatabaseColumn>,
    kind: IndexKind)

  /** The parts of DatabaseTable that the index logic reads. */
  datatype DatabaseTable = DatabaseTable(
    name: string,
    schemaOwner: string,
    columns: seq<DatabaseColumn>,
    primaryKey: Option<DatabaseConstraint>,
    uniqueKeys: seq<DatabaseConstraint>,
    indexes: seq<DatabaseIndex>)

  /**
   * NamedSchemaObject.Equals is not part of this model: it is an arbitrary
   * predicate on the (Name, SchemaOwner) of the two objects, passed in as `named`.
   */
  datatype SchemaName = SchemaName(name: string, schemaOwner: string)
  type NamedEquals = (SchemaName, SchemaName) -> bool

  function Identity(index: DatabaseIndex): SchemaName {
    SchemaName(index.name, index.schemaOwner)
  }

  /** Key columns are ordered by their ordinal position in the table. */
  predicate ByOrdinal(x: DatabaseColumn, y: DatabaseColumn) {
    x.ordinal <= y.ordinal
  }

  lemma ByOrdinalPreorder()
    ensures TotalPreorder(ByOrdinal)
  {
  }

  function KeyToken(c: DatabaseColumn): string {
    GetNameWithOrder(ToIndexedColumn(c))
  }

  /** The key-column tokens: the columns in ordinal order (a stable sort), each made an indexed column and rendered with its direction. */
  function KeyTokens(columns: seq<DatabaseColumn>): (r: seq<string>)
    ensures |r| == |columns|
  {
    Select(OrderBy(columns, ByOrdinal), KeyToken)
  }

  /**
   * DatabaseIndex.Equals: whether another index describes the same index.
   * The reference-identity shortcut is modelled as equality of values.
   */
  predicate Equals(self: DatabaseIndex, other: Option<DatabaseIndex>, named: NamedEquals) {
    if other == Some(self) then true
    else if other.None? then false
    else if !named(Identity(self), Identity(other.value)) then false
    else if self.isUnique != other.value.isUnique then false
    else if !EqualsIgnoreCase(self.indexType, other.value.indexType) then false
    else if !EqualsIgnoreCase(self.filter, other.value.filter) then false
    else AreEqual(Some(KeyTokens(self.columns)), Some(KeyTokens(other.value.columns)), None)
  }

  /** Equals against null is false; against the same index it is true. */
  lemma EqualsNullAndSame(x: DatabaseIndex, named: NamedEquals)
    ensures !Equals(x, None, named)
    ensures Equals(x, Some(x), named)
  {
  }

  /**
   * What Equals decides for two different indexes: base equality, the same
   * uniqueness, the same type and filter ignoring case (null only equal to null),
   * and the same key-column tokens in ordinal order.
   */
  lemma EqualsMeaning(x: DatabaseIndex, y: DatabaseIndex, named: NamedEquals)
    requires x != y
    ensures Equals(x, Some(y), named) <==>
      && named(Identity(x), Identity(y))
      && x.isUnique == y.isUnique
      && EqualsIgnoreCase(x.indexType, y.indexType)
      && EqualsIgnoreCase(x.filter, y.filter)
      && KeyTokens(x.columns) == KeyTokens(y.columns)
  {
    AreEqualDefault(KeyTokens(x.columns), KeyTokens(y.columns));
  }

  /** Equals is symmetric when base equality is. */
  lemma EqualsSymmetric(x: DatabaseIndex, y: DatabaseIndex, named: NamedEquals)
    requires named(Identity(x), Identity(y)) == named(Identity(y), Identity(x))
    ensures Equals(x, Some(y), named) == Equals(y, Some(x), named)
  {
    if x != y {
      EqualsMeaning(x, y, named);
      EqualsMeaning(y, x, named);
      EqualsIgnoreCaseEquivalence(x.indexType, y.indexType, y.indexType);
      EqualsIgnoreCaseEquivalence(x.filter, y.filter, y.filter);
    }
  }

  /**
   * Reordering the key columns of an index (each column keeping its ordinal)
   * does not change its key tokens, when no two different columns share an ordinal.
   */
  lemma KeyTokensPermutation(cols: seq<DatabaseColumn>, perm: seq<DatabaseColumn>)
    requires multiset(perm) == multiset(cols)
    requires forall c, d :: c in cols && d in cols && c.ordinal == d.ordinal ==> c == d
    ensures KeyTokens(perm) == KeyTokens(cols)
  {
    ByOrdinalPreorder();
    OrderByPermutation(cols, perm, ByOrdinal, KeyToken);
  }

  /** Hence Equals does not see the list order of the key columns, only their ordinals. */
  lemma EqualsColumnsPermuted(x: DatabaseIndex, perm: seq<DatabaseColumn>, other: Option<DatabaseIndex>, named: NamedEquals)
    requires multiset(perm) == multiset(x.columns)
    requires forall c, d :: c in x.columns && d in x.columns && c.ordinal == d.ordinal ==> c == d
    requires named(Identity(x), Identity(x))
    ensures Equals(x.(columns := perm), other, named) == Equals(x, other, named)
  {
    var x' := x.(columns := perm);
    KeyTokensPermutation(x.columns, perm);
    if other.Some? {
      var y := other.value;
      if x' != y {
        EqualsMeaning(x', y, named);
      }
      if x != y {
        EqualsMeaning(x, y, named);
      }
    }
  }

  /**
   * Two key-column lists with the same ordinals position by position, which
   * differ in the token of one column, have different key tokens.
   */
  lemma KeyTokensDiffer(s: seq<DatabaseColumn>, t: seq<DatabaseColumn>, i: nat)
    requires |s| == |t| && i < |s|
    requires forall k :: 0 <= k < |s| ==> s[k].ordinal == t[k].ordinal
    requires KeyToken(s[i]) != KeyToken(t[i])
    ensures KeyTokens(s) != KeyTokens(t)
  {
    OrderByDifferAt(s, t, ByOrdinal, KeyToken, i);
  }

  /**
   * Changing the sort direction of one key column (same name, same ordinal)
   * makes the index unequal to the original, in both directions.
   */
  lemma EqualsDirectionChanged(x: DatabaseIndex, i: nat, c: DatabaseColumn, named: NamedEquals)
    requires i < |x.columns|
    requires c.name == x.columns[i].name && c.ordinal == x.columns[i].ordinal
    requires ToIndexedColumn(c).columnOrder != ToIndexedColumn(x.columns[i]).columnOrder
    ensures !Equals(x.(columns := x.columns[i := c]), Some(x), named)
    ensures !Equals(x, Some(x.(columns := x.columns[i := c])), named)
  {
    var x' := x.(columns := x.columns[i := c]);
    NameWithOrderDeterminesOrder(ToIndexedColumn(c), ToIndexedColumn(x.columns[i]));
    KeyTokensDiffer(x.columns, x'.columns, i);
    assert x'.columns[i] == c;
    assert x' != x;
    EqualsMeaning(x, x', named);
    EqualsMeaning(x', x, named);
  }

  /** The names of the index's columns, in list order. */
  function ColumnNames(index: DatabaseIndex): seq<string> {
    Select(index.columns, (c: DatabaseColumn) => c.name)
  }

  /**
   * IsUniqueKeyIndex: the index has the primary key's column names (in list
   * order), or some unique key has the index's name or the same column names.
   */
  predicate IsUniqueKeyIndex(index: DatabaseIndex, parentTable: DatabaseTable) {
    var columnNames := ColumnNames(index);
    if parentTable.primaryKey.Some? && parentTable.primaryKey.value.columns == columnNames then true
    else
      exists uniqueKey :: uniqueKey in parentTable.uniqueKeys &&
        (uniqueKey.name == index.name || uniqueKey.columns == columnNames)
  }

  /** The redundancy filter, case by case. */
  lemma UniqueKeyIndexCases(index: DatabaseIndex, parentTable: DatabaseTable)
    ensures parentTable.primaryKey.Some? && parentTable.primaryKey.value.columns == ColumnNames(index) ==>
      IsUniqueKeyIndex(index, parentTable)
    ensures (parentTable.primaryKey.None? || parentTable.primaryKey.value.columns != ColumnNames(index)) ==>
      (IsUniqueKeyIndex(index, parentTable) <==>
        exists k :: 0 <= k < |parentTable.uniqueKeys| &&
          (parentTable.uniqueKeys[k].name == index.name || parentTable.uniqueKeys[k].columns == ColumnNames(index)))
    ensures parentTable.primaryKey.None? && parentTable.uniqueKeys == [] ==> !IsUniqueKeyIndex(index, parentTable)
  {
  }

  /**
   * The filter looks only at the index's name and column names: two indexes
   * that agree on those are both redundant or both not, whatever their other
   * attributes.
   */
  lemma UniqueKeyIndexDependsOnNames(x: DatabaseIndex, y: DatabaseIndex, parentTable: DatabaseTable)
    requires x.name == y.name && ColumnNames(x) == ColumnNames(y)
    ensures IsUniqueKeyIndex(x, parentTable) == IsUniqueKeyIndex(y, parentTable)
  {
  }

  /** More unique keys on the same table can only make more indexes redundant. */
  lemma UniqueKeyIndexMonotone(index: DatabaseIndex, parentTable: DatabaseTable, extraKeys: seq<DatabaseConstraint>)
    ensures IsUniqueKeyIndex(index, parentTable) ==>
      IsUniqueKeyIndex(index, parentTable.(uniqueKeys := parentTable.uniqueKeys + extraKeys))
  {
    var wider := parentTable.(uniqueKeys := parentTable.uniqueKeys + extraKeys);
    if IsUniqueKeyIndex(index, parentTable) && !(parentTable.primaryKey.Some? && parentTable.primaryKey.value.columns == ColumnNames(index)) {
      var uniqueKey :| uniqueKey in parentTable.uniqueKeys &&
        (uniqueKey.name == index.name || uniqueKey.columns == ColumnNames(index));
      assert uniqueKey in wider.uniqueKeys;
    }
  }

  /**
   * The primary key is compared with the column names in list order, not in
   * ordinal order: columns listed B, A with ordinals 2, 1 do not match key (A, B).
   */
  lemma {:induction false} UniqueKeyIndexListOrder()
    ensures var table := DatabaseTable("T", "dbo", [], Some(DatabaseConstraint("PK_T", ["A", "B"])), [], []);
            var listed := DatabaseIndex("IX", "dbo", "T", None, true, None, [Column("B", 2), Column("A", 1)], Generic);
            var ordered := listed.(columns := [Column("A", 1), Column("B", 2)]);
            && !IsUniqueKeyIndex(listed, table)
            && IsUniqueKeyIndex(ordered, table)
            && KeyTokens(listed.columns) == KeyTokens(ordered.columns)
  {
    var listed: seq<DatabaseColumn> := [Column("B", 2), Column("A", 1)];
    var ordered: seq<DatabaseColumn> := [Column("A", 1), Column("B", 2)];
    assert Select(listed, (c: DatabaseColumn) => c.name) == ["B", "A"];
    assert Select(ordered, (c: DatabaseColumn) => c.name) == ["A", "B"];
    assert OrderBy(listed, ByOrdinal) == ordered by {
      assert OrderBy(listed[1..], ByOrdinal) == [Column("A", 1)];
    }
    assert OrderBy(ordered, ByOrdinal) == ordered by {
      assert ordered[1..] == [Column("B", 2)];
    }
  }

  /** The inner elements whose name equals the outer element's, in inner order, paired with it. */
  function MatchesByName(o: DatabaseColumn, inner: seq<DatabaseColumn>): (r: seq<(DatabaseColumn, DatabaseColumn)>)
    ensures forall p :: p in r <==> p.0 == o && p.1 in inner && p.1.name == o.name
  {
    if |inner| == 0 then []
    else
      var rest := MatchesByName(o, inner[1..]);
      assert forall t :: t in inner <==> t == inner[0] || t in inner[1..];
      if inner[0].name == o.name then [(o, inner[0])] + rest else rest
  }

  /** The LINQ join of the index columns with the table columns on Name. */
  function JoinByName(outer: seq<DatabaseColumn>, inner: seq<DatabaseColumn>): (r: seq<(DatabaseColumn, DatabaseColumn)>)
    ensures forall p :: p in r <==> p.0 in outer && p.1 in inner && p.0.name == p.1.name
  {
    if |outer| == 0 then []
    else
      assert forall t :: t in outer <==> t == outer[0] || t in outer[1..];
      MatchesByName(outer[0], inner) + JoinByName(outer[1..], inner)
  }

  predicate ByIndexColumnOrdinal(p: (DatabaseColumn, DatabaseColumn), q: (DatabaseColumn, DatabaseColumn)) {
    p.0.ordinal <= q.0.ordinal
  }

  function TableColumn(p: (DatabaseColumn, DatabaseColumn)): DatabaseColumn {
    p.1
  }

  /** IndexedColumns(parentTable): the table columns named by the index, ordered by the index column's ordinal. */
  function IndexedColumns(index: DatabaseIndex, parentTable: DatabaseTable): seq<DatabaseColumn> {
    Select(OrderBy(JoinByName(index.columns, parentTable.columns), ByIndexColumnOrdinal), TableColumn)
  }

  /**
   * A column is returned exactly when it is a column of the table whose name is
   * the name of some index column; index columns the table lacks are dropped.
   */
  lemma IndexedColumnsMembers(index: DatabaseIndex, parentTable: DatabaseTable, x: DatabaseColumn)
    ensures x in IndexedColumns(index, parentTable) <==>
      x in parentTable.columns && exists c :: c in index.columns && c.name == x.name
  {
    var join := JoinByName(index.columns, parentTable.columns);
    var sorted := OrderBy(join, ByIndexColumnOrdinal);
    var r := IndexedColumns(index, parentTable);
    if x in r {
      var k :| 0 <= k < |r| && r[k] == x;
      assert r[k] == TableColumn(sorted[k]) == sorted[k].1;
      assert sorted[k] in multiset(join);
      assert sorted[k] in join;
      assert sorted[k].0 in index.columns && sorted[k].0.name == x.name;
    }
    if x in parentTable.columns && exists c :: c in index.columns && c.name == x.name {
      var c :| c in index.columns && c.name == x.name;
      assert (c, x) in join;
      assert (c, x) in multiset(sorted);
      var k :| 0 <= k < |sorted| && sorted[k] == (c, x);
      assert r[k] == TableColumn(sorted[k]);
    }
  }

  lemma ByIndexColumnOrdinalPreorder()
    ensures TotalPreorder(ByIndexColumnOrdinal)
  {
  }

  /**
   * The returned columns follow the index columns' ordinal order: each comes
   * with the index column it was joined to, and those ordinals never decrease.
   */
  lemma IndexedColumnsOrder(index: DatabaseIndex, parentTable: DatabaseTable)
    ensures var r := IndexedColumns(index, parentTable);
      exists owners: seq<DatabaseColumn> ::
        && |owners| == |r|
        && (forall k :: 0 <= k < |r| ==> owners[k] in index.columns && owners[k].name == r[k].name)
        && (forall k, m :: 0 <= k < m < |r| ==> owners[k].ordinal <= owners[m].ordinal)
  {
    var join := JoinByName(index.columns, parentTable.columns);
    var sorted := OrderBy(join, ByIndexColumnOrdinal);
    ByIndexColumnOrdinalPreorder();
    OrderBySorted(join, ByIndexColumnOrdinal);
    var r := IndexedColumns(index, parentTable);
    var owners := seq(|sorted|, k requires 0 <= k < |sorted| => sorted[k].0);
    forall k | 0 <= k < |r| ensures owners[k] in index.columns && owners[k].name == r[k].name {
      assert sorted[k] in multiset(join);
      assert r[k] == TableColumn(sorted[k]);
    }
    forall k, m | 0 <= k < m < |r| ensures owners[k].ordinal <= owners[m].ordinal {
      assert ByIndexColumnOrdinal(sorted[k], sorted[m]);
    }
  }

  /** GetAllColumns of a DatabaseIndex: its key columns. */
  function GetAllColumns(index: DatabaseIndex): (r: seq<DatabaseColumn>)
    ensures r == index.columns
  {
    index.columns
  }

  /** ToString: "<Name> on <TableName>". */
  function ToString(index: DatabaseIndex): (r: string)
    ensures |r| == |index.name| + 4 + |index.tableName|
    ensures r[..|index.name|] == index.name
    ensures r[|index.name|..|index.name| + 4] == " on "
    ensures r[|index.name| + 4..] == index.tableName
  {
    index.name + " on " + index.tableName
  }
}
