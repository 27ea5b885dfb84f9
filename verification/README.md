# Schema migrations of the SQL store migrator, as a Dafny model

This project models the migration descriptors of Grafana's SQL store
migrator (`pkg/services/sqlstore/migrator/migrations.go`). A migration is one
schema or data change step. It carries an id and an optional run condition,
and it renders itself to one SQL statement through a dialect. There are eight
variants: raw SQL, add column, add index, drop index, add table, drop table,
rename table and copy table data. All but raw SQL and add column have a
constructor, and all but drop table have builder setters.

The model is functional. Each Go struct is an immutable datatype in a module
of its own. Each builder setter is a pure function that returns the updated
migration. `Sql` is a function of the migration and a dialect. A dialect
(`Dialects.Dialect`) is a value that holds an engine name and one arbitrary
function per rendering operation. Every result therefore holds for every
dialect, and rendering is deterministic by construction. Drop-index rendering
fills in a missing index name. That rendering returns the updated migration
along with the statement, which models the Go method writing the name back
into its index.

Modules:

- `Text`: joining and splitting on one separator character.
- `Schema`: the column, index and table descriptors, and the primary-key names of a column list.
- `Dialects`: the engine enum, the abstract dialect and the error result.
- `Base`: the shared id and condition.
- `RawSql`, `AddColumn`, `AddIndex`, `DropIndex`, `AddTable`, `DropTable`, `RenameTable`, `CopyTableData`: the variants.
- `Migrations`: the closed union of the variants. It gives the polymorphic `Id`, `SetId`, `GetCondition` and `Sql` that a migration runner uses.

Facts about the Go code that the model keeps:

- A supported engine whose raw statement was never set renders the empty string, Go's zero value.
- `SetId` can be called again and replaces the id.
- The copy-data constructor pairs columns in the map's traversal order, and that order is unspecified. The model does not sort. It proves instead that the pairing is correct for every traversal order.
- The Go code panics on an unknown engine. The model returns `Err(UnsupportedDialect(engine))`.

## Model

| member | source | states |
|---|---|---|
| Base.Id | pkg/services/sqlstore/migrator/migrations.go:13-15 | returns the stored id, which is empty on a freshly constructed migration |
| Base.GetCondition | pkg/services/sqlstore/migrator/migrations.go:21-23 | returns the stored condition, which is absent on a freshly constructed migration |
| Base.SetId | pkg/services/sqlstore/migrator/migrations.go:13-19 | `Id` after `SetId(x)` returns `x`, and the condition is unchanged |
| Base.IfTableExists | pkg/services/sqlstore/migrator/migrations.go:200-203 | the condition becomes a table-exists condition for the given table, and the id is unchanged |
| RawSql.Sql | pkg/services/sqlstore/migrator/migrations.go:32-41 | rendering succeeds exactly for MySQL and SQLite; it returns exactly the MySQL statement on MySQL and the SQLite statement on SQLite; any other engine is an unsupported-dialect error |
| RawSql.Sqlite | pkg/services/sqlstore/migrator/migrations.go:43-46 | sets the SQLite statement; the MySQL statement and the base are unchanged |
| RawSql.Mysql | pkg/services/sqlstore/migrator/migrations.go:48-51 | sets the MySQL statement; the SQLite statement and the base are unchanged |
| RawSql.SettersCommute | pkg/services/sqlstore/migrator/migrations.go:43-51 | the two setters can be applied in either order with the same result |
| RawSql.SetterAffectsOnlyItsEngine | pkg/services/sqlstore/migrator/migrations.go:32-51 | setting one engine's statement leaves the rendering for every other engine as it was |
| RawSql.ConfiguredStatements | pkg/services/sqlstore/migrator/migrations.go:32-51 | after `Sqlite(s1)` and `Mysql(s2)`, SQLite renders exactly `s1`, MySQL exactly `s2`, and any other engine fails |
| AddColumn.Table | pkg/services/sqlstore/migrator/migrations.go:59-62 | sets the table name only |
| AddColumn.Column | pkg/services/sqlstore/migrator/migrations.go:64-67 | sets the column only |
| AddColumn.Sql | pkg/services/sqlstore/migrator/migrations.go:69-71 | the statement is the dialect's add-column text for the stored table name and column |
| AddColumn.BuiltStatement | pkg/services/sqlstore/migrator/migrations.go:59-71 | after `Table(t)` and `Column(c)` the statement depends only on `t` and `c`, and the two setters commute |
| AddIndex.NewAddIndexMigration | pkg/services/sqlstore/migrator/migrations.go:79-81 | keeps the table's name and the given index, with an empty id and no condition |
| AddIndex.Table | pkg/services/sqlstore/migrator/migrations.go:83-86 | sets the table name only |
| AddIndex.Unique | pkg/services/sqlstore/migrator/migrations.go:88-91 | the index becomes unique; its columns and name, the table name and the base are unchanged |
| AddIndex.Columns | pkg/services/sqlstore/migrator/migrations.go:93-97 | the index is replaced by a fresh one on exactly the given columns, unnamed and plain; nothing else changes |
| AddIndex.Sql | pkg/services/sqlstore/migrator/migrations.go:99-101 | the statement is the dialect's create-index text for the stored table name and index |
| AddIndex.UniqueOverColumns | pkg/services/sqlstore/migrator/migrations.go:88-101 | `Columns(cols)` then `Unique()` renders a unique, unnamed index with column order exactly `cols` |
| AddIndex.ColumnsForgetsUnique | pkg/services/sqlstore/migrator/migrations.go:88-97 | `Unique()` followed by `Columns(cols)` gives a plain index: the earlier upgrade is discarded |
| DropIndex.NewDropIndexMigration | pkg/services/sqlstore/migrator/migrations.go:109-111 | keeps the table's name and the given index, with an empty id and no condition |
| DropIndex.Table | pkg/services/sqlstore/migrator/migrations.go:113-116 | sets the table name only |
| DropIndex.Unique | pkg/services/sqlstore/migrator/migrations.go:118-121 | the index becomes unique; its columns and name, the table name and the base are unchanged |
| DropIndex.Columns | pkg/services/sqlstore/migrator/migrations.go:123-127 | the index is replaced by a fresh one on exactly the given columns, unnamed and plain; nothing else changes |
| DropIndex.DefaultName | pkg/services/sqlstore/migrator/migrations.go:131 | the columns joined with `_`: no columns give the empty name, one column gives its own name, and separator-free columns split back out of the name |
| DropIndex.ResolveName | pkg/services/sqlstore/migrator/migrations.go:130-132 | a named index is left as it is; an unnamed one gets its columns joined with `_`; columns and type never change |
| DropIndex.Sql | pkg/services/sqlstore/migrator/migrations.go:129-134 | the migration keeps the resolved index, with table name and base unchanged, and the statement is the dialect's drop-index text for that resolved index |
| DropIndex.ResolveNameIdempotent | pkg/services/sqlstore/migrator/migrations.go:130-132 | resolving an already resolved index changes nothing, including when the derived name is empty |
| DropIndex.SqlIdempotent | pkg/services/sqlstore/migrator/migrations.go:129-134 | rendering the migration a second time gives the same migration and the same statement |
| DropIndex.NamedIndexUnchanged | pkg/services/sqlstore/migrator/migrations.go:129-134 | an index that already has a name is dropped by that name, and the migration is left as it was |
| DropIndex.DefaultNameRecoversColumns | pkg/services/sqlstore/migrator/migrations.go:130-132 | when no column name contains `_`, the derived name of a non-empty column list splits back into exactly those columns |
| DropIndex.DefaultNameAmbiguous | pkg/services/sqlstore/migrator/migrations.go:131 | an index on the one column `a_b` and an index on the columns `a, b` get the same derived name |
| Text.Join | pkg/services/sqlstore/migrator/migrations.go:131 | no parts give the empty string; one part gives itself; more parts start with the first part followed by the separator; the length is the parts' total length plus one separator per gap |
| Text.SplitJoin | pkg/services/sqlstore/migrator/migrations.go:131 | splitting a join of a non-empty, separator-free list of parts gives the parts back |
| Text.JoinInjective | pkg/services/sqlstore/migrator/migrations.go:131 | two non-empty, separator-free lists with the same join are equal |
| Schema.FreshIndex | pkg/services/sqlstore/migrator/migrations.go:93-97 | a fresh index has exactly the given columns, an empty name and the plain type |
| Schema.PrimaryKeyNamesAppend | pkg/services/sqlstore/migrator/migrations.go:160-165 | the primary-key names of two column lists, one after the other, are the names of the first list followed by those of the second |
| Schema.PrimaryKeyNamesMembership | pkg/services/sqlstore/migrator/migrations.go:162-164 | a name is among the primary-key names exactly when some primary-key column has that name |
| Schema.PrimaryKeyNamesLength | pkg/services/sqlstore/migrator/migrations.go:162-164 | there is one primary-key name per primary-key column, and no more names than columns |
| AddTable.NewAddTableMigration | pkg/services/sqlstore/migrator/migrations.go:141-143 | holds the given table, with an empty id and no condition |
| AddTable.Sql | pkg/services/sqlstore/migrator/migrations.go:145-147 | the statement is the dialect's create-table text for the whole stored table |
| AddTable.Table | pkg/services/sqlstore/migrator/migrations.go:149-152 | replaces the table; the base is unchanged |
| AddTable.Name | pkg/services/sqlstore/migrator/migrations.go:154-157 | sets the table name; the columns, the primary keys and the base are unchanged |
| AddTable.WithColumn | pkg/services/sqlstore/migrator/migrations.go:169-175 | appends the column, and appends its name to the primary keys if and only if it is a primary key; the table name and the base are unchanged |
| AddTable.WithColumnKeepsLockstep | pkg/services/sqlstore/migrator/migrations.go:169-175 | if the primary keys are exactly the names of the primary-key columns before the call, they still are after it |
| AddTable.WithColumns | pkg/services/sqlstore/migrator/migrations.go:159-167 | equals applying `WithColumn` to each column in order; the columns become the old columns followed by the new ones; the keys become the old keys followed by the new primary-key columns' names in order; lockstep is preserved |
| DropTable.NewDropTableMigration | pkg/services/sqlstore/migrator/migrations.go:182-184 | holds the given table name, with an empty id and no condition |
| DropTable.Sql | pkg/services/sqlstore/migrator/migrations.go:186-188 | the statement is the dialect's drop-table text for the stored name |
| DropTable.SqlIgnoresBase | pkg/services/sqlstore/migrator/migrations.go:186-188 | the statement does not depend on the id or the condition |
| RenameTable.NewRenameTableMigration | pkg/services/sqlstore/migrator/migrations.go:196-198 | holds the given old and new names, with an empty id and no condition |
| RenameTable.IfTableExists | pkg/services/sqlstore/migrator/migrations.go:200-203 | the condition becomes a table-exists condition for the given table; the id and both names are unchanged |
| RenameTable.Rename | pkg/services/sqlstore/migrator/migrations.go:205-209 | sets both names; the base is unchanged |
| RenameTable.Sql | pkg/services/sqlstore/migrator/migrations.go:211-213 | the statement is the dialect's rename text for the stored old and new names |
| RenameTable.ConditionDoesNotChangeSql | pkg/services/sqlstore/migrator/migrations.go:200-213 | attaching the condition leaves the rendered statement unchanged: the condition is only reported, never applied here |
| CopyTableData.Expand | pkg/services/sqlstore/migrator/migrations.go:226-229 | for a traversal order, the targets are the keys in that order, and each source is the mapped column of the target at the same position |
| CopyTableData.SomeOrder | pkg/services/sqlstore/migrator/migrations.go:226 | every key set has a traversal order, so the constructor's order parameter excludes no map |
| CopyTableData.NewCopyTableDataMigration | pkg/services/sqlstore/migrator/migrations.go:224-231 | for every traversal order of the map: both column sequences have the map's size; the targets have no duplicates and are exactly the keys; each position pairs a key with its mapped column; the tables are stored as given |
| CopyTableData.PairsAreTheMap | pkg/services/sqlstore/migrator/migrations.go:224-231 | the set of position-wise (target, source) pairs is exactly the set of the map's entries |
| CopyTableData.PairingOrderIndependent | pkg/services/sqlstore/migrator/migrations.go:224-231 | any two traversal orders give the same set of (target, source) pairs |
| CopyTableData.TwoColumnPairing | pkg/services/sqlstore/migrator/migrations.go:224-231 | for the map {a: x, b: y}, traversed in either order, target `a` is paired with `x` and target `b` with `y` |
| CopyTableData.IfTableExists | pkg/services/sqlstore/migrator/migrations.go:233-236 | the condition becomes a table-exists condition for the given table; the id, the tables and the column sequences are unchanged |
| CopyTableData.Sql | pkg/services/sqlstore/migrator/migrations.go:238-240 | the statement is the dialect's copy text for source table, target table, source columns and target columns, in that argument order |
| CopyTableData.ConditionDoesNotChangeSql | pkg/services/sqlstore/migrator/migrations.go:233-240 | attaching the condition leaves the rendered copy statement unchanged |
| Migrations.Id | pkg/services/sqlstore/migrator/migrations.go:13-15 | on any variant, the id stored in its shared part |
| Migrations.GetCondition | pkg/services/sqlstore/migrator/migrations.go:21-23 | on any variant, the condition stored in its shared part |
| Migrations.SetId | pkg/services/sqlstore/migrator/migrations.go:17-19 | on any variant, `Id` afterwards is the new id, the condition is unchanged, and restoring the old base gives back the original migration |
| Migrations.Sql | pkg/services/sqlstore/migrator/migrations.go:32-240 | each variant renders through its own `Sql`: raw SQL yields its engine's statement and fails exactly on an engine it has no statement for, with an unsupported-dialect error; drop-index yields its statement and the migration with the resolved index; every other variant yields its dialect statement and is left unchanged; the id and the condition never change |
| Migrations.SqlIdempotent | pkg/services/sqlstore/migrator/migrations.go:129-134 | for every variant, rendering again after a successful render gives the same statement and the same migration |
| Migrations.SetIdKeepsSql | pkg/services/sqlstore/migrator/migrations.go:17-19 | changing the id changes neither whether rendering succeeds nor the statement |

## Left out

- The concrete dialects and their SQL syntax. Their source is not part of this model, so a dialect is an arbitrary value of `Dialects.Dialect`.
- The string values of the engine constants. `Dialects.Engine` names MySQL and SQLite, and gives every other engine as `OtherEngine`.
- Evaluating a condition. It runs an introspection query against a live database, which is I/O. A condition is only stored and reported.
- The migration runner, tracking of applied migrations, and database connections. These are external to the descriptors.
- Pointer sharing. In Go, an index or column is a pointer, and Go slices share their backing arrays. The model uses values, so none of the following writes reach anything but the migration itself:
  - the name that drop-index rendering writes into its `*Index`;
  - the unique type that `Unique()` writes through the same pointer (lines 89 and 119);
  - the columns that `WithColumn` and `WithColumns` append to `m.table.Columns`, a slice that may share its backing array with the caller's `Table`.
- Nil pointers. Examples are `Unique()` before any index is set, or rendering a drop-index migration with no index (both panic in Go). Indexes and columns are plain values here, so these states do not exist.
- The `colMap` field of the copy-data migration. The Go constructor never stores the map in it, so the model leaves that field empty after construction.
- Column and table attributes that this file never reads are not modelled. Examples are column lengths, auto-increment and a table's own index list.
- Dialect failures. In Go, every dialect rendering method returns only a string, so a dialect that cannot express a schema shape has no error path to model. Only raw SQL can fail.
- The duplicated builders. The add-index and drop-index setters `Table`, `Unique` and `Columns` are the same code in Go. They stay separate members here, one per variant, as in the source.
- Concurrency. The Go builders mutate without synchronisation. The model is sequential and pure.
