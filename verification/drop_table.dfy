/** A migration that drops a table by name. */
module DropTable {
  import opened Base
  import opened Dialects

  datatype DropTableMigration = DropTableMigration(base: MigrationBase, tableName: string)

  function NewDropTableMigration(tableName: string): (m: DropTableMigration)
    ensures m.tableName == tableName && m.base == EmptyBase
  {
    DropTableMigration(EmptyBase, tableName)
  }

  /** The dialect's drop-table statement for the stored name. */
  function Sql(m: DropTableMigration, d: Dialect): (r: string)
    ensures r == d.dropTable(m.tableName)
  {
    d.dropTable(m.tableName)
  }

  /** The statement depends on the table name only, not on id or condition. */
  lemma SqlIgnoresBase(m: DropTableMigration, b: MigrationBase, d: Dialect)
    ensures Sql(m.(base := b), d) == Sql(NewDropTableMigration(m.tableName), d)
  {
  }
}
