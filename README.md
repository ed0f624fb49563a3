# Index comparison and SQL Server index reading in DatabaseSchemaReader

This is a Dafny model of the index part of DatabaseSchemaReader's schema diff,
together with the SQL Server reader that builds indexes from query rows.

- **Index equality.**
  - `DatabaseIndex.Equals` compares uniqueness, and compares the index type and filter ignoring case.
  - It then compares the "name [ASC|DESC]" tokens of the key columns, sorted by ordinal.
  - `DatabaseSqlServerIndex.Equals` accepts only another SQL Server index.
  - On top of the base equality, it compares the fill factor and the names of the included columns, sorted by (ordinal, name).
- **Support for equality.** Equality rests on the null-safe `AreEqual` and on `GetNameWithOrder`.
- **Redundancy filter and join.** `IsUniqueKeyIndex` says whether an index duplicates the table's primary key or a unique key. `IndexedColumns` joins index columns to table columns.
- **The diff.** `CompareIndexes.Execute` appends Delete, Change and Add records to a shared result list, in two passes.
- **The reader.** `Indexes.Mapper` folds one query row into the reader's list of SQL Server indexes. It finds or creates the row's index, then adds the row's column to it.

Module layout:

| file | module | models |
|---|---|---|
| `wrappers.dfy` | `Wrappers` | `Option` |
| `text.dfy` | `Text` | ASCII case folding, ordinal string order |
| `linq.dfy` | `Linq` | `Select`, `SequenceEqual`, and a stable `OrderBy` (insertion) |
| `indexed_column_order.dfy` | `ColumnOrder` | `IndexedColumnOrder` |
| `enumerable_extensions.dfy` | `EnumerableExtensions` | `AreEqual` |
| `database_indexed_column.dfy` | `DatabaseIndexedColumns` | columns, `DatabaseIndexedColumn` |
| `database_index.dfy` | `DatabaseIndexes` | `DatabaseIndex` |
| `sql_server_index.dfy` | `SqlServerIndexes` | `DatabaseSqlServerIndex` |
| `compare_indexes.dfy` | `Compare` | `CompareIndexes`, as a class |
| `sql_server_indexes_reader.dfy` | `SqlServerReader` | `Indexes`, as a class |

Modelling decisions:

- **Index values.** An index is a datatype value. The class of an index object, `DatabaseIndex` or `DatabaseSqlServerIndex`, is the `IndexKind` variant. A virtual call is a dispatch on that variant (`IndexEquals`, `AllColumns`).
- **Index columns.** A column in an index's list is either a plain `Column` or an `IndexedColumn` with an optional order.
- **Nullable values.** Nullable strings (type, filter, the row's column name) are `Option<string>`.
- **Non-null values.**
  - Names, table names and owners are plain strings.
  - Collection properties are never null: the C# objects create their lists in their constructors.
- **Reference checks.** The checks `ReferenceEquals` are modelled as value equality.
- **Two state-changing classes.**
  - `CompareIndexes` holds the shared result list as a `seq` field.
  - Its `Execute` method is proved against `Diff`, a function over the two tables.
  - The reader class `Indexes` holds `Result` as a `seq` field.
  - Its `Mapper` method is proved against `Step`, a function on the list and one row.
- **Assumed behaviour of code that is not shown.**
  - `NamedSchemaObject.Equals` is an arbitrary predicate `named` on the (Name, SchemaOwner) of the two indexes. Lemmas that need it to be reflexive or symmetric say so in `requires`.
  - `DatabaseColumn.ToIndexedColumn` is assumed to return an indexed column with the same name and ordinal. It keeps `ColumnOrder` when the column already is an indexed column, and leaves it null otherwise.
- **Abstracted writer and separator.** The script writer (`ComparisonWriter.DropIndex`, `AddIndex`) and `Environment.NewLine` form the function values and the string of `Writer`.

## Model

| member | source | states |
|---|---|---|
| ColumnOrder.OrderValues | DatabaseSchemaReader/DataSchema/IndexedColumnOrder.cs:6-17 | the order enum has exactly the two values ASC and DESC, and they differ |
| ColumnOrder.OrderName | DatabaseSchemaReader/DataSchema/IndexedColumnOrder.cs:11-16 | a value renders as "ASC" or "DESC", and "ASC" exactly for ASC |
| ColumnOrder.OrderNameInjective | DatabaseSchemaReader/DataSchema/IndexedColumnOrder.cs:6-17 | two directions render alike exactly when they are the same direction |
| EnumerableExtensions.AreEqual | DatabaseSchemaReader/Utilities/EnumerableExtensions.cs:19-32 | the result is true for the same value (two nulls included) and false when exactly one side is null; for other non-null sides it is true iff the lengths are equal and the comparer accepts every position |
| EnumerableExtensions.AreEqualDefault | DatabaseSchemaReader/Utilities/EnumerableExtensions.cs:31 | with the default comparer, two non-null sequences are equal iff they are the same sequence |
| EnumerableExtensions.AreEqualDefaultLaws | DatabaseSchemaReader/Utilities/EnumerableExtensions.cs:19-32 | with the default comparer, AreEqual is reflexive and symmetric, nulls included |
| EnumerableExtensions.AreEqualLength | DatabaseSchemaReader/Utilities/EnumerableExtensions.cs:31 | sequences of different lengths are unequal under any comparer |
| Linq.SequenceEqual | DatabaseSchemaReader/Utilities/EnumerableExtensions.cs:31 | true iff the lengths are equal and the element predicate holds at every position |
| Linq.OrderBy | DatabaseSchemaReader/DataSchema/DatabaseIndex.cs:156-157 | the sort keeps the multiset and the length of its input |
| Linq.OrderBySorted | DatabaseSchemaReader/DataSchema/DatabaseIndex.cs:156-157 | under a total preorder, the output is sorted |
| Linq.OrderBySortedUnchanged | DatabaseSchemaReader/DataSchema/DatabaseIndex.cs:156-157 | the sort is stable, to this extent: a sorted input comes back unchanged |
| Linq.OrderByPermutation | DatabaseSchemaReader/DataSchema/SqlServer/DatabaseSqlServerIndex.cs:69-70 | sorting two permutations of each other gives the same projection, when the projection agrees on elements that rank equal |
| Linq.OrderByDifferAt | DatabaseSchemaReader/DataSchema/DatabaseIndex.cs:156-159 | two sequences ranked alike position by position, whose projections differ at one position, have different sorted projections |
| Text.EqualsIgnoreCaseNull | DatabaseSchemaReader/DataSchema/DatabaseIndex.cs:145-153 | a null string equals only null, ignoring case |
| Text.EqualsIgnoreCaseEquivalence | DatabaseSchemaReader/DataSchema/DatabaseIndex.cs:145-153 | comparison ignoring case is reflexive, symmetric and transitive |
| Text.EqualsIgnoreCaseExample | DatabaseSchemaReader/ProviderSchemaReaders/Databases/SqlServer/Indexes.cs:77 | "nonclustered" equals "NONCLUSTERED" ignoring case; "PRIMARY" does not |
| Text.OrdinalLeTotal | DatabaseSchemaReader/DataSchema/SqlServer/DatabaseSqlServerIndex.cs:69-70 | the ordinal order of names is total |
| Text.OrdinalLeAntisymmetric | DatabaseSchemaReader/DataSchema/SqlServer/DatabaseSqlServerIndex.cs:69-70 | names that are ordered both ways are equal |
| Text.OrdinalLeTransitive | DatabaseSchemaReader/DataSchema/SqlServer/DatabaseSqlServerIndex.cs:69-70 | the ordinal order of names is transitive |
| DatabaseIndexedColumns.FromColumn | DatabaseSchemaReader/DataSchema/DatabaseIndexedColumn.cs:27-55 | the copy is an indexed column with the source's Name and Ordinal and no ColumnOrder |
| DatabaseIndexedColumns.ToIndexedColumn | DatabaseSchemaReader/DataSchema/DatabaseIndex.cs:156 | (assumed behaviour) an indexed column with the same Name and Ordinal that keeps ColumnOrder only if the column already was an indexed column |
| DatabaseIndexedColumns.GetNameWithOrder | DatabaseSchemaReader/DataSchema/DatabaseIndexedColumn.cs:61-64 | the column name is a prefix of the token; the three cases are in NameWithOrderCases, and NameWithOrderDeterminesOrder shows that the suffix fixes the order |
| DatabaseIndexedColumns.NameWithOrderCases | DatabaseSchemaReader/DataSchema/DatabaseIndexedColumn.cs:61-64 | the token is the name alone, the name + " ASC", or the name + " DESC" |
| DatabaseIndexedColumns.NameWithOrderDeterminesOrder | DatabaseSchemaReader/DataSchema/DatabaseIndexedColumn.cs:61-64 | the name is a prefix of the token; tokens for one name are equal iff the ColumnOrder is equal, so an absent order differs from ASC and from DESC |
| DatabaseIndexes.EqualsNullAndSame | DatabaseSchemaReader/DataSchema/DatabaseIndex.cs:125-133 | an index equals itself and never equals null |
| DatabaseIndexes.Equals | DatabaseSchemaReader/DataSchema/DatabaseIndex.cs:123-160 | DatabaseIndex.Equals as a guard chain; its meaning is stated by EqualsNullAndSame and EqualsMeaning |
| DatabaseIndexes.KeyTokens | DatabaseSchemaReader/DataSchema/DatabaseIndex.cs:156-157 | one token per key column; KeyTokensPermutation and KeyTokensDiffer state what the ordinal sort does to them |
| DatabaseIndexes.EqualsMeaning | DatabaseSchemaReader/DataSchema/DatabaseIndex.cs:123-160 | two different indexes are equal iff base equality holds, IsUnique is equal, type and filter are equal ignoring case (null only to null) and the ordinal-sorted key tokens are equal |
| DatabaseIndexes.EqualsSymmetric | DatabaseSchemaReader/DataSchema/DatabaseIndex.cs:123-160 | Equals is symmetric when base equality is symmetric for the pair |
| DatabaseIndexes.KeyTokensPermutation | DatabaseSchemaReader/DataSchema/DatabaseIndex.cs:156-157 | permuting key columns with distinct ordinals keeps the sorted token sequence |
| DatabaseIndexes.EqualsColumnsPermuted | DatabaseSchemaReader/DataSchema/DatabaseIndex.cs:156-159 | permuting key columns with distinct ordinals never changes the result of Equals |
| DatabaseIndexes.KeyTokensDiffer | DatabaseSchemaReader/DataSchema/DatabaseIndex.cs:156-159 | key lists with the same ordinals position by position, differing in one token, have different sorted token sequences |
| DatabaseIndexes.EqualsDirectionChanged | DatabaseSchemaReader/DataSchema/DatabaseIndex.cs:156-159 | changing the direction of one key column makes the index unequal to the original, in both directions |
| DatabaseIndexes.UniqueKeyIndexCases | DatabaseSchemaReader/DataSchema/DatabaseIndex.cs:90-100 | true when the primary key's column names equal the index's; otherwise true iff some unique key has the index's name or its column names in the same order; false with no primary key and no unique keys |
| DatabaseIndexes.IsUniqueKeyIndex | DatabaseSchemaReader/DataSchema/DatabaseIndex.cs:90-100 | the redundancy filter; see UniqueKeyIndexCases, UniqueKeyIndexDependsOnNames, UniqueKeyIndexMonotone and UniqueKeyIndexListOrder |
| DatabaseIndexes.UniqueKeyIndexDependsOnNames | DatabaseSchemaReader/DataSchema/DatabaseIndex.cs:92-99 | two indexes with the same name and the same column names are both redundant or both not, whatever their other attributes |
| DatabaseIndexes.UniqueKeyIndexMonotone | DatabaseSchemaReader/DataSchema/DatabaseIndex.cs:97-99 | adding unique keys to a table never makes a redundant index non-redundant |
| DatabaseIndexes.UniqueKeyIndexListOrder | DatabaseSchemaReader/DataSchema/DatabaseIndex.cs:92-96 | the primary-key match uses list order: columns listed B, A with ordinals 2, 1 miss key (A, B), though their key tokens match the columns listed A, B |
| DatabaseIndexes.MatchesByName | DatabaseSchemaReader/DataSchema/DatabaseIndex.cs:75-77 | the pairs for one index column are exactly the table columns with its name |
| DatabaseIndexes.JoinByName | DatabaseSchemaReader/DataSchema/DatabaseIndex.cs:75-77 | a pair is in the join iff its index column and table column have the same name |
| DatabaseIndexes.IndexedColumnsMembers | DatabaseSchemaReader/DataSchema/DatabaseIndex.cs:73-81 | a column is returned iff it is a table column whose name is some index column's name; index columns the table lacks are dropped |
| DatabaseIndexes.IndexedColumns | DatabaseSchemaReader/DataSchema/DatabaseIndex.cs:73-81 | the join, ordered by index-column ordinal; its meaning is stated by IndexedColumnsMembers and IndexedColumnsOrder |
| DatabaseIndexes.IndexedColumnsOrder | DatabaseSchemaReader/DataSchema/DatabaseIndex.cs:75-80 | each returned column comes with the index column it joined, and their ordinals never decrease along the output |
| DatabaseIndexes.GetAllColumns | DatabaseSchemaReader/DataSchema/DatabaseIndex.cs:106-109 | the columns of a plain index are exactly its key columns; what the virtual call returns for either class is stated by SqlServerIndexes.AllColumnsDispatch |
| DatabaseIndexes.ToString | DatabaseSchemaReader/DataSchema/DatabaseIndex.cs:117-120 | the text is the name, then " on ", then the table name |
| SqlServerIndexes.IncludedNamesPermutation | DatabaseSchemaReader/DataSchema/SqlServer/DatabaseSqlServerIndex.cs:69-70 | any permutation of the included columns gives the same sorted name sequence |
| SqlServerIndexes.IncludedNames | DatabaseSchemaReader/DataSchema/SqlServer/DatabaseSqlServerIndex.cs:69-70 | one name per included column, sorted by (ordinal, name); IncludedNamesPermutation shows the list order does not matter |
| SqlServerIndexes.Equals | DatabaseSchemaReader/DataSchema/SqlServer/DatabaseSqlServerIndex.cs:47-72 | DatabaseSqlServerIndex.Equals as a guard chain; its meaning is stated by EqualsGuards and EqualsMeaning |
| SqlServerIndexes.IndexEquals | DatabaseSchemaReader/DataSchema/SqlServer/DatabaseSqlServerIndex.cs:47 | the virtual call index.Equals(other), dispatched on the index kind; stated by EqualsAcrossKinds and ChangeDetected |
| SqlServerIndexes.EqualsGuards | DatabaseSchemaReader/DataSchema/SqlServer/DatabaseSqlServerIndex.cs:49-57 | a SQL Server index equals itself, never equals null and never equals a plain index |
| SqlServerIndexes.EqualsMeaning | DatabaseSchemaReader/DataSchema/SqlServer/DatabaseSqlServerIndex.cs:47-72 | two different SQL Server indexes are equal iff they are equal as DatabaseIndex, have the same fill factor and the same sorted included names |
| SqlServerIndexes.EqualsSymmetric | DatabaseSchemaReader/DataSchema/SqlServer/DatabaseSqlServerIndex.cs:47-72 | between SQL Server indexes, Equals is symmetric when base equality is |
| SqlServerIndexes.EqualsIncludedPermuted | DatabaseSchemaReader/DataSchema/SqlServer/DatabaseSqlServerIndex.cs:69-71 | reordering the included columns never changes the result of Equals |
| SqlServerIndexes.EqualsAcrossKinds | DatabaseSchemaReader/DataSchema/SqlServer/DatabaseSqlServerIndex.cs:54-57 | a plain index with a SQL Server index's attributes equals it, but the SQL Server index does not equal the plain one |
| SqlServerIndexes.ChangeDetected | DatabaseSchemaReader/DataSchema/DatabaseIndex.cs:140-153 | whatever its class, an index is unequal to one with another uniqueness or filter; a SQL Server index is unequal to one with another fill factor |
| SqlServerIndexes.GetAllColumns | DatabaseSchemaReader/DataSchema/SqlServer/DatabaseSqlServerIndex.cs:41-44 | the columns are the key columns followed by the included columns, and the length is the sum |
| SqlServerIndexes.AllColumns | DatabaseSchemaReader/DataSchema/SqlServer/DatabaseSqlServerIndex.cs:41-44 | the virtual call index.GetAllColumns(), dispatched on the index kind; stated by AllColumnsDispatch |
| SqlServerIndexes.AllColumnsDispatch | DatabaseSchemaReader/DataSchema/SqlServer/DatabaseSqlServerIndex.cs:41-44 | through the virtual call, the key columns always come first, and only a SQL Server index with included columns returns more |
| Compare.FirstByName | DatabaseSchemaReader/Compare/CompareIndexes.cs:28 | null iff no index has exactly that name; otherwise the first index with that name |
| Compare.DeleteOrChange | DatabaseSchemaReader/Compare/CompareIndexes.cs:23-41 | any record of the first loop for one index is a Delete or Change Index record named after the index, for databaseTable; the cases are in DeleteOrChangeCases |
| Compare.AddIfMissing | DatabaseSchemaReader/Compare/CompareIndexes.cs:43-54 | any record of the second loop for one index is an Add Index record named after the index, for databaseTable; the cases are in AddIfMissingCases |
| Compare.FirstPass | DatabaseSchemaReader/Compare/CompareIndexes.cs:23-41 | the records of the first loop in iteration order; stated by FirstPassShape, FirstPassMembers and FirstPassEmpty |
| Compare.SecondPass | DatabaseSchemaReader/Compare/CompareIndexes.cs:43-54 | the records of the second loop in iteration order; stated by SecondPassShape, SecondPassMembers and SecondPassEmpty |
| Compare.Diff | DatabaseSchemaReader/Compare/CompareIndexes.cs:19-55 | everything Execute appends; stated by DiffShape, DiffSelf and the scenario lemmas |
| Compare.CompareIndexes.constructor | DatabaseSchemaReader/Compare/CompareIndexes.cs:13-17 | the comparer keeps the shared result list and the writer it is given (and the base equality, a parameter here) |
| Compare.CompareIndexes.CreateResult | DatabaseSchemaReader/Compare/CompareIndexes.cs:57-69 | one Index record with the table's name and owner is appended, and nothing else changes |
| Compare.CompareIndexes.Execute | DatabaseSchemaReader/Compare/CompareIndexes.cs:19-55 | the existing records are kept, and `Diff` (the first pass's records, then the second pass's) is appended |
| Compare.FirstPassShape | DatabaseSchemaReader/Compare/CompareIndexes.cs:23-41 | the first pass yields at most one record per index, each a Delete or Change Index record with databaseTable's name and owner |
| Compare.SecondPassShape | DatabaseSchemaReader/Compare/CompareIndexes.cs:43-54 | the second pass yields at most one record per index, each an Add Index record with databaseTable's name and owner |
| Compare.FirstPassMembers | DatabaseSchemaReader/Compare/CompareIndexes.cs:23-41 | a record is in the first pass iff some first-table index yields it |
| Compare.SecondPassMembers | DatabaseSchemaReader/Compare/CompareIndexes.cs:43-54 | a record is in the second pass iff some second-table index yields it |
| Compare.FirstPassEmpty | DatabaseSchemaReader/Compare/CompareIndexes.cs:23-41 | the first pass appends nothing iff no first-table index yields a record |
| Compare.SecondPassEmpty | DatabaseSchemaReader/Compare/CompareIndexes.cs:43-54 | the second pass appends nothing iff no second-table index yields a record |
| Compare.DiffShape | DatabaseSchemaReader/Compare/CompareIndexes.cs:19-55 | at most \|first\| + \|second\| records; every record is an Index record with databaseTable's name and owner, Add records included; every Delete or Change precedes every Add |
| Compare.DeleteOrChangeCases | DatabaseSchemaReader/Compare/CompareIndexes.cs:25-40 | a unique-key index yields nothing; with no index of exactly that name it yields Delete with the drop script; otherwise the first same-named partner decides: nothing if equal, else Change with drop + new line + add(partner) |
| Compare.AddIfMissingCases | DatabaseSchemaReader/Compare/CompareIndexes.cs:45-53 | an Add record with the add script iff the index is no unique-key index of compareTable and no first-table index has its name; unique-key indexes of the first table also count as present |
| Compare.DiffSelf | DatabaseSchemaReader/Compare/CompareIndexes.cs:19-55 | comparing a table with itself appends nothing, when its index names are distinct |
| Compare.NewIndexScenario | DatabaseSchemaReader/Compare/CompareIndexes.cs:43-54 | an index only in the second table gives exactly one Add record |
| Compare.DroppedIndexScenario | DatabaseSchemaReader/Compare/CompareIndexes.cs:28-34 | an index only in the first table gives exactly one Delete record |
| Compare.ChangedIndexScenario | DatabaseSchemaReader/Compare/CompareIndexes.cs:35-40 | same-named indexes that are not equal give exactly one Change record, and no Add |
| Compare.UniqueKeyShadowedScenario | DatabaseSchemaReader/Compare/CompareIndexes.cs:25 | an index that duplicates a unique key gives no Delete record, even when it is gone from the second table |
| SqlServerReader.FindIndex | DatabaseSchemaReader/ProviderSchemaReaders/Databases/SqlServer/Indexes.cs:61 | the position of the first index with the row's name and owner (exact) and table (ignoring case), or the list's length if there is none |
| SqlServerReader.PrimaryIndexType | DatabaseSchemaReader/ProviderSchemaReaders/Databases/SqlServer/Indexes.cs:74-80 | "PRIMARY NONCLUSTERED" iff the reported type is NONCLUSTERED ignoring case, otherwise "PRIMARY" |
| SqlServerReader.PrimaryIndexTypeExamples | DatabaseSchemaReader/ProviderSchemaReaders/Databases/SqlServer/Indexes.cs:74-80 | "nonclustered" becomes "PRIMARY NONCLUSTERED"; "CLUSTERED" and null become "PRIMARY" |
| SqlServerReader.NewIndex | DatabaseSchemaReader/ProviderSchemaReaders/Databases/SqlServer/Indexes.cs:62-80 | the new index is found by its own row's lookup, is a SQL Server index, and has no columns yet; its header is stated by StepCreates |
| SqlServerReader.AddColumn | DatabaseSchemaReader/ProviderSchemaReaders/Databases/SqlServer/Indexes.cs:83-109 | the index keeps its key, its header, its class and its fill factor, and gains exactly one column when the row has a column name, none otherwise; where it goes is stated by StepColumn |
| SqlServerReader.Indexes.constructor | DatabaseSchemaReader/ProviderSchemaReaders/Databases/SqlServer/Indexes.cs:16-19 | the reader keeps the owner and table name it filters on; that Result starts empty is assumed behaviour of the base class SqlExecuter, which is not part of this model |
| SqlServerReader.Indexes.Mapper | DatabaseSchemaReader/ProviderSchemaReaders/Databases/SqlServer/Indexes.cs:56-110 | Result becomes `Step(old Result, row)`; every index stays a SQL Server index, keys stay unique, and columns stay well formed |
| SqlServerReader.Step | DatabaseSchemaReader/ProviderSchemaReaders/Databases/SqlServer/Indexes.cs:61-82 | every index in the result is still a SQL Server index, so the cast in the lookup cannot fail |
| SqlServerReader.StepLength | DatabaseSchemaReader/ProviderSchemaReaders/Databases/SqlServer/Indexes.cs:61-82 | a row with a matching index keeps the length; otherwise exactly one index is appended after the unchanged list |
| SqlServerReader.StepCreates | DatabaseSchemaReader/ProviderSchemaReaders/Databases/SqlServer/Indexes.cs:62-81 | a new index takes name, owner, table, type (rewritten for a primary key), uniqueness, filter and fill factor from its first row, and holds at most that row's column |
| SqlServerReader.StepUpdates | DatabaseSchemaReader/ProviderSchemaReaders/Databases/SqlServer/Indexes.cs:61-73 | a later row changes only the first matching index, and none of that index's header fields |
| SqlServerReader.StepColumn | DatabaseSchemaReader/ProviderSchemaReaders/Databases/SqlServer/Indexes.cs:83-109 | a null or empty column name adds nothing; an included column goes to IncludedColumns only; otherwise one column goes to Columns only, DESC iff descending |
| SqlServerReader.StepKeysUnique | DatabaseSchemaReader/ProviderSchemaReaders/Databases/SqlServer/Indexes.cs:61-82 | a row never creates a second index with an existing key |
| SqlServerReader.StepColumnsWellFormed | DatabaseSchemaReader/ProviderSchemaReaders/Databases/SqlServer/Indexes.cs:88-109 | every key column added is an indexed column with a non-empty name and a set order (never null); every included column has a non-empty name |
| SqlServerReader.StepKeepsKeys | DatabaseSchemaReader/ProviderSchemaReaders/Databases/SqlServer/Indexes.cs:61-81 | no index moves or changes its key, and the list never shrinks |
| SqlServerReader.ReadAllValid | DatabaseSchemaReader/ProviderSchemaReaders/Databases/SqlServer/Indexes.cs:56-110 | after any sequence of rows, keys are unique and columns well formed |
| SqlServerReader.ReadAll | DatabaseSchemaReader/ProviderSchemaReaders/Databases/SqlServer/Indexes.cs:56-110 | Mapper applied to each row in turn (the reading loop itself is in SqlExecuter, which is not part of this model); every index stays a SQL Server index |
| SqlServerReader.ReadAllCovers | DatabaseSchemaReader/ProviderSchemaReaders/Databases/SqlServer/Indexes.cs:56-110 | after any sequence of rows, earlier indexes keep their place and key, and every row has an index with its key |
| SqlServerReader.ReadAllConcat | DatabaseSchemaReader/ProviderSchemaReaders/Databases/SqlServer/Indexes.cs:56-110 | reading rows in two batches is the same as reading them all at once |
| SqlServerReader.ReadAllFirstAppearance | DatabaseSchemaReader/ProviderSchemaReaders/Databases/SqlServer/Indexes.cs:61-81 | indexes appear in order of first appearance: those read from the first m rows keep their places at the front |

## Left out

- The SQL query text, `AddParameters` and `Indexes.Execute`: they do database I/O through `SqlExecuter` and `IConnectionAdapter`. A query row is the datatype `IndexRow`. `ReadAll` is a function that applies `Step` row by row; `ExecuteDbReader` itself is not part of this model.
- The text of the scripts: `ComparisonWriter.DropIndex` and `AddIndex` are not part of this model. They are function values, and `Environment.NewLine` is a string parameter.
- Culture rules:
  - `CurrentCultureIgnoreCase` and `OrdinalIgnoreCase` are both modelled as equality after an ASCII upper-case fold.
  - `ThenBy(x => x.Name)` uses the current culture's string order in C#. Here it is ordinal (code-point) order.
- The bodies of `NamedSchemaObject.Equals` and `DatabaseColumn.ToIndexedColumn` are not part of this model. Both are stated as assumed behaviour, as described above.
- Column attributes other than Name, Ordinal and ColumnOrder, the many fields the copy constructor copies, and the `[Serializable]` and `[DebuggerBrowsable]` attributes.
- Null names, table names and owners.
- Aliasing. In C# the result list of `CompareIndexes` is shared with the caller, and `Mapper` mutates the index object that is already in `Result`. Here the list is a field that methods reassign. An index update replaces the element in place in the sequence.
- Reference identity: `ReferenceEquals` is modelled as value equality. The two differ only when the base equality or a custom comparer is not reflexive.
- SqlServerIndexes.IncludedNamesPermutation: holds because the ordinal order of names is antisymmetric (Text.OrdinalLeAntisymmetric). The culture order that `ThenBy(x => x.Name)` uses in C# is not: distinct names such as "ab" and "a\u00ADb" (with a soft hyphen) compare equal there. Since SQL Server reports the same key ordinal (0) for every included column, their sorted names then keep the input order, and the result depends on the list order.
- SqlServerIndexes.EqualsIncludedPermuted: for the same reason, under culture order two SQL Server indexes whose included columns differ only in the order of such names are not equal, while the model says they are.
- Linq.OrderBySortedUnchanged: stability of `OrderBy` is proved only for this case (a sorted input comes back unchanged), not as a general statement about the relative order of equal keys.
- Other result kinds: `SchemaObjectType` lists only `Index` plus a catch-all, since the other comparers are not part of this model.
- An order-insensitive match of unique keys is not modelled. `IsUniqueKeyIndex` compares the primary-key and unique-key column lists with `SequenceEqual`, which is order-sensitive, and the model follows that code. `UniqueKeyIndexListOrder` shows the consequence.
