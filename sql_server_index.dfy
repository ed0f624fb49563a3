/**
 * DatabaseSqlServerIndex: a SQL Server index, which adds a fill factor and a
 * list of included (covering) columns to DatabaseIndex and overrides Equals
 * and GetAllColumns.
 */
module SqlServerIndexes {
  import opened Wrappers
  import opened Text
  import opened Linq
  import opened DatabaseIndexedColumns
  import opened EnumerableExtensions
  import opened DatabaseIndexes

  /** Included columns are ordered by ordinal position, ties broken by name. */
  predicate ByOrdinalThenName(x: DatabaseColumn, y: DatabaseColumn) {
    x.ordinal < y.ordinal || (x.ordinal == y.ordinal && OrdinalLe(x.name, y.name))
  }

  lemma ByOrdinalThenNamePreorder()
    ensures TotalPreorder(ByOrdinalThenName)
  {
    forall x, y ensures ByOrdinalThenName(x, y) || ByOrdinalThenName(y, x) {
      OrdinalLeTotal(x.name, y.name);
    }
    forall x, y, z | ByOrdinalThenName(x, y) && ByOrdinalThenName(y, z)
      ensures ByOrdinalThenName(x, z)
    {
      if x.ordinal == y.ordinal == z.ordinal {
        OrdinalLeTransitive(x.name, y.name, z.name);
      }
    }
  }

  function ColumnName(c: DatabaseColumn): string {
    c.name
  }

  /** The included-column names, sorted by ordinal and then by name. */
  function IncludedNames(columns: seq<DatabaseColumn>): (r: seq<string>)
    ensures |r| == |columns|
  {
    Select(OrderBy(columns, ByOrdinalThenName), ColumnName)
  }

  /** The included columns are compared as a set: any reordering gives the same names. */
  lemma IncludedNamesPermutation(columns: seq<DatabaseColumn>, perm: seq<DatabaseColumn>)
    ensures multiset(perm) == multiset(columns) ==> IncludedNames(perm) == IncludedNames(columns)
  {
    if multiset(perm) == multiset(columns) {
      ByOrdinalThenNamePreorder();
      forall x, y | x in columns && y in columns && ByOrdinalThenName(x, y) && ByOrdinalThenName(y, x)
        ensures ColumnName(x) == ColumnName(y)
      {
        OrdinalLeAntisymmetric(x.name, y.name);
      }
      OrderByPermutation(columns, perm, ByOrdinalThenName, ColumnName);
    }
  }

  /**
   * DatabaseSqlServerIndex.Equals(DatabaseIndex other): only another SQL Server
   * index can be equal; it must be equal as a DatabaseIndex, have the same fill
   * factor and the same included column names. The reference check is modelled
   * as equality of values.
   */
  predicate Equals(self: DatabaseIndex, other: Option<DatabaseIndex>, named: NamedEquals)
    requires self.kind.SqlServer?
  {
    if other == Some(self) then true
    else if other.None? || !other.value.kind.SqlServer? then false
    else if !DatabaseIndexes.Equals(self, other, named) then false
    else if self.kind.fillFactor != other.value.kind.fillFactor then false
    else AreEqual(Some(IncludedNames(self.kind.includedColumns)),
                  Some(IncludedNames(other.value.kind.includedColumns)), None)
  }

  /** The virtual call index.Equals(other): the override of the index's own class. */
  predicate IndexEquals(self: DatabaseIndex, other: Option<DatabaseIndex>, named: NamedEquals) {
    if self.kind.SqlServer? then Equals(self, other, named) else DatabaseIndexes.Equals(self, other, named)
  }

  /** Always equal to itself; never equal to null or to an index of another class. */
  lemma EqualsGuards(x: DatabaseIndex, y: DatabaseIndex, named: NamedEquals)
    requires x.kind.SqlServer?
    ensures Equals(x, Some(x), named)
    ensures !Equals(x, None, named)
    ensures y.kind.Generic? ==> !Equals(x, Some(y), named)
  {
  }

  /** What Equals decides for two different SQL Server indexes. */
  lemma EqualsMeaning(x: DatabaseIndex, y: DatabaseIndex, named: NamedEquals)
    requires x.kind.SqlServer? && y.kind.SqlServer? && x != y
    ensures Equals(x, Some(y), named) <==>
      && DatabaseIndexes.Equals(x, Some(y), named)
      && x.kind.fillFactor == y.kind.fillFactor
      && IncludedNames(x.kind.includedColumns) == IncludedNames(y.kind.includedColumns)
  {
    AreEqualDefault(IncludedNames(x.kind.includedColumns), IncludedNames(y.kind.includedColumns));
  }

  /** Between two SQL Server indexes, Equals is symmetric when base equality is. */
  lemma EqualsSymmetric(x: DatabaseIndex, y: DatabaseIndex, named: NamedEquals)
    requires x.kind.SqlServer? && y.kind.SqlServer?
    requires named(Identity(x), Identity(y)) == named(Identity(y), Identity(x))
    ensures Equals(x, Some(y), named) == Equals(y, Some(x), named)
  {
    if x != y {
      EqualsMeaning(x, y, named);
      EqualsMeaning(y, x, named);
      DatabaseIndexes.EqualsSymmetric(x, y, named);
    }
  }

  /** Reordering the included columns never changes the result of Equals. */
  lemma EqualsIncludedPermuted(x: DatabaseIndex, perm: seq<DatabaseColumn>, other: Option<DatabaseIndex>, named: NamedEquals)
    requires x.kind.SqlServer?
    requires multiset(perm) == multiset(x.kind.includedColumns)
    requires named(Identity(x), Identity(x))
    ensures Equals(x.(kind := x.kind.(includedColumns := perm)), other, named) == Equals(x, other, named)
  {
    var x' := x.(kind := x.kind.(includedColumns := perm));
    IncludedNamesPermutation(x.kind.includedColumns, perm);
    if other.Some? && other.value.kind.SqlServer? {
      var y := other.value;
      if x' != y {
        EqualsMeaning(x', y, named);
        if y == x {
          DatabaseIndexes.EqualsMeaning(x', x, named);
        }
      }
      if x != y {
        EqualsMeaning(x, y, named);
        if y == x' {
          DatabaseIndexes.EqualsMeaning(x, x', named);
        }
      }
      assert DatabaseIndexes.Equals(x', other, named) == DatabaseIndexes.Equals(x, other, named);
    }
  }

  /**
   * Equality is not symmetric across classes: a plain index with the same
   * attributes as a SQL Server index equals it, while the SQL Server index
   * never equals the plain one.
   */
  lemma EqualsAcrossKinds(x: DatabaseIndex, named: NamedEquals)
    requires x.kind.SqlServer?
    requires named(Identity(x), Identity(x))
    ensures var plain := x.(kind := Generic);
      IndexEquals(plain, Some(x), named) && !IndexEquals(x, Some(plain), named)
  {
    var plain := x.(kind := Generic);
    DatabaseIndexes.EqualsMeaning(plain, x, named);
    EqualsIgnoreCaseEquivalence(x.indexType, x.indexType, x.indexType);
    EqualsIgnoreCaseEquivalence(x.filter, x.filter, x.filter);
  }

  /**
   * Changes the comparison detects, whatever the class of the first index: a
   * different uniqueness or filter, or, between SQL Server indexes, a
   * different fill factor.
   */
  lemma ChangeDetected(a: DatabaseIndex, b: DatabaseIndex, named: NamedEquals)
    ensures a.isUnique != b.isUnique ==> !IndexEquals(a, Some(b), named)
    ensures !EqualsIgnoreCase(a.filter, b.filter) ==> !IndexEquals(a, Some(b), named)
    ensures a.kind.SqlServer? && b.kind.SqlServer? && a.kind.fillFactor != b.kind.fillFactor ==>
      !IndexEquals(a, Some(b), named)
  {
    EqualsIgnoreCaseEquivalence(a.filter, a.filter, a.filter);
  }

  /** GetAllColumns of a SQL Server index: the key columns followed by the included columns. */
  function GetAllColumns(index: DatabaseIndex): (r: seq<DatabaseColumn>)
    requires index.kind.SqlServer?
    ensures |r| == |index.columns| + |index.kind.includedColumns|
    ensures r[..|index.columns|] == DatabaseIndexes.GetAllColumns(index)
    ensures r[|index.columns|..] == index.kind.includedColumns
  {
    DatabaseIndexes.GetAllColumns(index) + index.kind.includedColumns
  }

  /** The virtual call index.GetAllColumns(): the override of the index's own class. */
  function AllColumns(index: DatabaseIndex): seq<DatabaseColumn> {
    if index.kind.SqlServer? then GetAllColumns(index) else DatabaseIndexes.GetAllColumns(index)
  }

  /**
   * Whatever the class, the key columns come first; only a SQL Server index
   * with included columns has more.
   */
  lemma AllColumnsDispatch(index: DatabaseIndex)
    ensures |index.columns| <= |AllColumns(index)| && AllColumns(index)[..|index.columns|] == index.columns
    ensures |AllColumns(index)| == |index.columns| <==> index.kind.Generic? || index.kind.includedColumns == []
  {
  }
}
