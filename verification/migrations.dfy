/** The closed family of migrations as the runner sees it: an id, an
    optional condition and a rendering to SQL for a dialect. Rendering may
    update the migration (a drop-index migration keeps its derived index
    name), so it returns the migration as it is afterwards. */
module Migrations {
  import opened Base
  import opened Dialects
  import RawSql
  import AddColumn
  import AddIndex
  import DropIndex
  import AddTable
  import DropTable
  import RenameTable
  import CopyTableData

  datatype Migration =
    | RawSqlStep(raw: RawSql.RawSqlMigration)
    | AddColumnStep(addColumn: AddColumn.AddColumnMigration)
    | AddIndexStep(addIndex: AddIndex.AddIndexMigration)
    | DropIndexStep(dropIndex: DropIndex.DropIndexMigration)
    | AddTableStep(addTable: AddTable.AddTableMigration)
    | DropTableStep(dropTable: DropTable.DropTableMigration)
    | RenameTableStep(renameTable: RenameTable.RenameTableMigration)
    | CopyTableDataStep(copyTableData: CopyTableData.CopyTableDataMigration)

  /** The shared part of any variant. */
  function BaseOf(m: Migration): MigrationBase
  {
    match m
    case RawSqlStep(x) => x.base
    case AddColumnStep(x) => x.base
    case AddIndexStep(x) => x.base
    case DropIndexStep(x) => x.base
    case AddTableStep(x) => x.base
    case DropTableStep(x) => x.base
    case RenameTableStep(x) => x.base
    case CopyTableDataStep(x) => x.base
  }

  /** The same migration with its shared part replaced by `b`. */
  function WithBase(m: Migration, b: MigrationBase): (r: Migration)
    ensures BaseOf(r) == b
  {
    match m
    case RawSqlStep(x) => RawSqlStep(x.(base := b))
    case AddColumnStep(x) => AddColumnStep(x.(base := b))
    case AddIndexStep(x) => AddIndexStep(x.(base := b))
    case DropIndexStep(x) => DropIndexStep(x.(base := b))
    case AddTableStep(x) => AddTableStep(x.(base := b))
    case DropTableStep(x) => DropTableStep(x.(base := b))
    case RenameTableStep(x) => RenameTableStep(x.(base := b))
    case CopyTableDataStep(x) => CopyTableDataStep(x.(base := b))
  }

  /** The id of whichever variant `m` is. */
  function Id(m: Migration): (r: string)
    ensures r == BaseOf(m).id
  {
    Base.Id(BaseOf(m))
  }

  /** The condition of whichever variant `m` is. */
  function GetCondition(m: Migration): (r: Condition)
    ensures r == BaseOf(m).condition
  {
    Base.GetCondition(BaseOf(m))
  }

  /** Sets the id and nothing else: putting the old shared part back gives
      the original migration. */
  function SetId(m: Migration, id: string): (r: Migration)
    ensures Id(r) == id
    ensures GetCondition(r) == GetCondition(m)
    ensures WithBase(r, BaseOf(m)) == m
  {
    WithBase(m, Base.SetId(BaseOf(m), id))
  }

  /** Renders through the variant's own `Sql`. Only raw SQL can fail, and
      only for an engine it has no statement for; only drop-index changes
      the migration, and never its id or condition. */
  function Sql(m: Migration, d: Dialect): (r: Result<Rendered<Migration>>)
    ensures r.Err? <==> m.RawSqlStep? && !RawSql.Supported(d.driverName)
    ensures r.Err? ==> r.error == UnsupportedDialect(d.driverName)
    ensures r.Ok? ==> BaseOf(r.value.after) == BaseOf(m)
    ensures r.Ok? && !m.DropIndexStep? ==> r.value.after == m
    ensures m.RawSqlStep? && r.Ok? ==> RawSql.Sql(m.raw, d) == Ok(r.value.sql)
    ensures m.AddColumnStep? ==> r == Ok(Rendered(m, AddColumn.Sql(m.addColumn, d)))
    ensures m.AddIndexStep? ==> r == Ok(Rendered(m, AddIndex.Sql(m.addIndex, d)))
    ensures m.DropIndexStep? ==>
      var x := DropIndex.Sql(m.dropIndex, d);
      r == Ok(Rendered(DropIndexStep(x.after), x.sql))
    ensures m.AddTableStep? ==> r == Ok(Rendered(m, AddTable.Sql(m.addTable, d)))
    ensures m.DropTableStep? ==> r == Ok(Rendered(m, DropTable.Sql(m.dropTable, d)))
    ensures m.RenameTableStep? ==> r == Ok(Rendered(m, RenameTable.Sql(m.renameTable, d)))
    ensures m.CopyTableDataStep? ==> r == Ok(Rendered(m, CopyTableData.Sql(m.copyTableData, d)))
  {
    match m
    case RawSqlStep(x) =>
      (match RawSql.Sql(x, d)
       case Ok(s) => Ok(Rendered(m, s))
       case Err(e) => Err(e))
    case AddColumnStep(x) => Ok(Rendered(m, AddColumn.Sql(x, d)))
    case AddIndexStep(x) => Ok(Rendered(m, AddIndex.Sql(x, d)))
    case DropIndexStep(x) =>
      var r := DropIndex.Sql(x, d);
      Ok(Rendered(DropIndexStep(r.after), r.sql))
    case AddTableStep(x) => Ok(Rendered(m, AddTable.Sql(x, d)))
    case DropTableStep(x) => Ok(Rendered(m, DropTable.Sql(x, d)))
    case RenameTableStep(x) => Ok(Rendered(m, RenameTable.Sql(x, d)))
    case CopyTableDataStep(x) => Ok(Rendered(m, CopyTableData.Sql(x, d)))
  }

  /** Rendering again after a render gives the same statement and leaves
      the migration as the first render left it. */
  lemma SqlIdempotent(m: Migration, d: Dialect)
    requires Sql(m, d).Ok?
    ensures Sql(Sql(m, d).value.after, d) == Sql(m, d)
  {
    if m.DropIndexStep? {
      DropIndex.SqlIdempotent(m.dropIndex, d);
    }
  }

  /** The id plays no part in rendering. */
  lemma SetIdKeepsSql(m: Migration, id: string, d: Dialect)
    ensures Sql(SetId(m, id), d).Ok? <==> Sql(m, d).Ok?
    ensures Sql(m, d).Ok? ==> Sql(SetId(m, id), d).value.sql == Sql(m, d).value.sql
  {
  }
}
