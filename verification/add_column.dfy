/** A migration that adds one column to an existing table. */
module AddColumn {
  import opened Base
  import Schema
  import opened Dialects

  datatype AddColumnMigration = AddColumnMigration(base: MigrationBase, tableName: string, column: Schema.Column)

  function Table(m: AddColumnMigration, tableName: string): (r: AddColumnMigration)
    ensures r.tableName == tableName
    ensures r.column == m.column && r.base == m.base
  {
    m.(tableName := tableName)
  }

  function Column(m: AddColumnMigration, col: Schema.Column): (r: AddColumnMigration)
    ensures r.column == col
    ensures r.tableName == m.tableName && r.base == m.base
  {
    m.(column := col)
  }

  /** The dialect's add-column statement for the stored table and column. */
  function Sql(m: AddColumnMigration, d: Dialect): (r: string)
    ensures r == d.addColumnSql(m.tableName, m.column)
  {
    d.addColumnSql(m.tableName, m.column)
  }

  /** Whatever the migration held before, building it with `Table(t)` and
      `Column(c)` renders the statement for `t` and `c`, and nothing else
      about the migration influences the text. */
  lemma BuiltStatement(m: AddColumnMigration, t: string, c: Schema.Column, d: Dialect)
    ensures Sql(Column(Table(m, t), c), d) == d.addColumnSql(t, c)
    ensures Column(Table(m, t), c) == Table(Column(m, c), t)
  {
  }
}
