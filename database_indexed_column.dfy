/**
 * DatabaseIndexedColumn: a column of an index key with an optional sort
 * direction.
 *
 * A C# DatabaseColumn in an index's column list is either a plain column or a
 * DatabaseIndexedColumn (the subclass). Only Name, Ordinal and ColumnOrder are
 * modelled; the other column attributes (data type, nullability, owning table
 * and so on) play no part in the index logic.
 */
module DatabaseIndexedColumns {
  import opened Wrappers
  import opened ColumnOrder

  datatype DatabaseColumn =
    | Column(name: string, ordinal: int)
    | IndexedColumn(name: string, ordinal: int, columnOrder: Option<IndexedColumnOrder>)

  /**
   * The copy constructor DatabaseIndexedColumn(DatabaseColumn): Name and
   * Ordinal are carried over, ColumnOrder is left unset.
   */
  function FromColumn(c: DatabaseColumn): (r: DatabaseColumn)
    ensures r.IndexedColumn?
    ensures r.name == c.name && r.ordinal == c.ordinal
    ensures r.columnOrder.None?
  {
    IndexedColumn(c.name, c.ordinal, None)
  }

  /**
   * DatabaseColumn.ToIndexedColumn, whose body is not part of this model: it is
   * assumed to return an indexed column with the same Name and Ordinal, keeping
   * ColumnOrder when the column already is an indexed column and null otherwise.
   */
  function ToIndexedColumn(c: DatabaseColumn): (r: DatabaseColumn)
    ensures r.IndexedColumn?
    ensures r.name == c.name && r.ordinal == c.ordinal
    ensures r.columnOrder == (if c.IndexedColumn? then c.columnOrder else None)
  {
    if c.IndexedColumn? then c else FromColumn(c)
  }

  /** GetNameWithOrder: the name, followed by a space and the direction when one is set. */
  function GetNameWithOrder(c: DatabaseColumn): (r: string)
    requires c.IndexedColumn?
    ensures |c.name| <= |r| && r[..|c.name|] == c.name
  {
    c.name + (if c.columnOrder.Some? then " " + OrderName(c.columnOrder.value) else "")
  }

  /** What the token is, for each of the three states of ColumnOrder. */
  lemma {:induction false} NameWithOrderCases(name: string, ordinal: int)
    ensures GetNameWithOrder(IndexedColumn(name, ordinal, None)) == name
    ensures GetNameWithOrder(IndexedColumn(name, ordinal, Some(ASC))) == name + " ASC"
    ensures GetNameWithOrder(IndexedColumn(name, ordinal, Some(DESC))) == name + " DESC"
  {
  }

  /**
   * The column name is a prefix of its token, and the suffix determines the
   * direction: equal tokens of the same name have the same ColumnOrder. In
   * particular the tokens for no order, ASC and DESC are pairwise different, so
   * an unset order is a state of its own and not ASC.
   */
  lemma {:induction false} NameWithOrderDeterminesOrder(c: DatabaseColumn, d: DatabaseColumn)
    requires c.IndexedColumn? && d.IndexedColumn?
    requires c.name == d.name
    ensures |c.name| <= |GetNameWithOrder(c)| && GetNameWithOrder(c)[..|c.name|] == c.name
    ensures GetNameWithOrder(c) == GetNameWithOrder(d) <==> c.columnOrder == d.columnOrder
  {
    assert GetNameWithOrder(c)[..|c.name|] == c.name;
  }
}
