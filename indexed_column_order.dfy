/** IndexedColumnOrder: the sort direction of an index key column. */
module ColumnOrder {

  /** Ascending (the usual default) or descending. */
  datatype IndexedColumnOrder = ASC | DESC

  /** The enum's name, as the default ToString() of a C# enum value renders it. */
  function OrderName(o: IndexedColumnOrder): (r: string)
    ensures r == "ASC" || r == "DESC"
    ensures r == "ASC" <==> o == ASC
  {
    match o
    case ASC => "ASC"
    case DESC => "DESC"
  }

  /** The enum has exactly two values, and they are different. */
  lemma OrderValues(o: IndexedColumnOrder)
    ensures o == ASC || o == DESC
    ensures ASC != DESC
  {
  }

  /** Different directions render differently. */
  lemma OrderNameInjective(a: IndexedColumnOrder, b: IndexedColumnOrder)
    ensures OrderName(a) == OrderName(b) <==> a == b
  {
  }
}
