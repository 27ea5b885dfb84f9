/** A migration that creates an index on a table. */
module AddIndex {
  import opened Base
  import Schema
  import opened Dialects

  datatype AddIndexMigration = AddIndexMigration(base: MigrationBase, tableName: string, index: Schema.Index)

  /** Only the table's name is kept, not the table itself. */
  function NewAddIndexMigration(table: Schema.Table, index: Schema.Index): (m: AddIndexMigration)
    ensures m.tableName == table.name && m.index == index
    ensures m.base == EmptyBase
  {
    AddIndexMigration(EmptyBase, table.name, index)
  }

  function Table(m: AddIndexMigration, tableName: string): (r: AddIndexMigration)
    ensures r.tableName == tableName
    ensures r.index == m.index && r.base == m.base
  {
    m.(tableName := tableName)
  }

  /** Turns the current index into a unique one, keeping its columns and name. */
  function Unique(m: AddIndexMigration): (r: AddIndexMigration)
    ensures r.index.indexType == Schema.UniqueIndex
    ensures r.index.cols == m.index.cols && r.index.name == m.index.name
    ensures r.tableName == m.tableName && r.base == m.base
  {
    m.(index := m.index.(indexType := Schema.UniqueIndex))
  }

  /** Replaces the index wholesale by a fresh, unnamed, plain one on `cols`. */
  function Columns(m: AddIndexMigration, cols: seq<string>): (r: AddIndexMigration)
    ensures r.index.cols == cols && r.index.name == "" && r.index.indexType == Schema.PlainIndex
    ensures r.tableName == m.tableName && r.base == m.base
  {
    m.(index := Schema.FreshIndex(cols))
  }

  /** The dialect's create-index statement for the stored table and index. */
  function Sql(m: AddIndexMigration, d: Dialect): (r: string)
    ensures r == d.createIndexSql(m.tableName, m.index)
  {
    d.createIndexSql(m.tableName, m.index)
  }

  /** `.Columns(cols).Unique()` renders a unique, unnamed index whose key
      order is exactly `cols`, whatever index the migration held before. */
  lemma UniqueOverColumns(m: AddIndexMigration, cols: seq<string>, d: Dialect)
    ensures Sql(Unique(Columns(m, cols)), d)
         == d.createIndexSql(m.tableName, Schema.Index(cols, "", Schema.UniqueIndex))
  {
  }

  /** `Columns` starts from a fresh index, so an earlier `Unique` is lost. */
  lemma ColumnsForgetsUnique(m: AddIndexMigration, cols: seq<string>)
    ensures Columns(Unique(m), cols) == Columns(m, cols)
    ensures Columns(Unique(m), cols).index.indexType == Schema.PlainIndex
  {
  }
}
