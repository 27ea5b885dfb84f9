/** A migration that renames a table, optionally gated on a table existing. */
module RenameTable {
  import opened Base
  import opened Dialects

  datatype RenameTableMigration = RenameTableMigration(base: MigrationBase, oldName: string, newName: string)

  function NewRenameTableMigration(oldName: string, newName: string): (m: RenameTableMigration)
    ensures m.oldName == oldName && m.newName == newName && m.base == EmptyBase
  {
    RenameTableMigration(EmptyBase, oldName, newName)
  }

  /** Attaches the condition; the rename itself is untouched. */
  function IfTableExists(m: RenameTableMigration, tableName: string): (r: RenameTableMigration)
    ensures GetCondition(r.base) == IfTableExistsCondition(tableName)
    ensures Id(r.base) == Id(m.base)
    ensures r.oldName == m.oldName && r.newName == m.newName
  {
    m.(base := Base.IfTableExists(m.base, tableName))
  }

  function Rename(m: RenameTableMigration, oldName: string, newName: string): (r: RenameTableMigration)
    ensures r.oldName == oldName && r.newName == newName
    ensures r.base == m.base
  {
    m.(oldName := oldName, newName := newName)
  }

  /** The dialect's rename statement for the stored names. */
  function Sql(m: RenameTableMigration, d: Dialect): (r: string)
    ensures r == d.renameTable(m.oldName, m.newName)
  {
    d.renameTable(m.oldName, m.newName)
  }

  /** Attaching a condition only reports it: the rendered statement is the
      same with or without it, so skipping is left to the caller. */
  lemma ConditionDoesNotChangeSql(m: RenameTableMigration, tableName: string, d: Dialect)
    ensures Sql(IfTableExists(m, tableName), d) == Sql(m, d)
  {
  }
}
