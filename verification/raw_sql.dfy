/** A migration given as literal SQL, one statement per supported engine. */
module RawSql {
  import opened Base
  import opened Dialects

  datatype RawSqlMigration = RawSqlMigration(base: MigrationBase, sqlite: string, mysql: string)

  /** The engines raw SQL has a statement for. */
  predicate Supported(e: Engine)
  {
    e.MySQL? || e.SQLite?
  }

  /** The statement for the dialect's engine. An engine with no statement
      slot is an error, never an empty statement. A slot that was never set
      still renders as the empty string, as in the Go code. */
  function Sql(m: RawSqlMigration, d: Dialect): (r: Result<string>)
    ensures r.Ok? <==> Supported(d.driverName)
    ensures d.driverName == MySQL ==> r == Ok(m.mysql)
    ensures d.driverName == SQLite ==> r == Ok(m.sqlite)
    ensures r.Err? ==> r.error == UnsupportedDialect(d.driverName)
  {
    match d.driverName
    case MySQL => Ok(m.mysql)
    case SQLite => Ok(m.sqlite)
    case OtherEngine(_) => Err(UnsupportedDialect(d.driverName))
  }

  function Sqlite(m: RawSqlMigration, sql: string): (r: RawSqlMigration)
    ensures r.sqlite == sql
    ensures r.mysql == m.mysql && r.base == m.base
  {
    m.(sqlite := sql)
  }

  function Mysql(m: RawSqlMigration, sql: string): (r: RawSqlMigration)
    ensures r.mysql == sql
    ensures r.sqlite == m.sqlite && r.base == m.base
  {
    m.(mysql := sql)
  }

  /** The two setters touch disjoint fields, so their order does not matter. */
  lemma SettersCommute(m: RawSqlMigration, s: string, t: string)
    ensures Mysql(Sqlite(m, s), t) == Sqlite(Mysql(m, t), s)
  {
  }

  /** Setting one engine's statement never changes what any other engine renders. */
  lemma SetterAffectsOnlyItsEngine(m: RawSqlMigration, s: string, d: Dialect)
    ensures d.driverName != SQLite ==> Sql(Sqlite(m, s), d) == Sql(m, d)
    ensures d.driverName != MySQL ==> Sql(Mysql(m, s), d) == Sql(m, d)
  {
  }

  /** Configured with `Sqlite(s1)` and `Mysql(s2)`, the migration renders
      exactly `s1` for SQLite, exactly `s2` for MySQL, and fails otherwise. */
  lemma ConfiguredStatements(m: RawSqlMigration, s1: string, s2: string, d: Dialect)
    ensures var r := Sql(Mysql(Sqlite(m, s1), s2), d);
      && (d.driverName == SQLite ==> r == Ok(s1))
      && (d.driverName == MySQL ==> r == Ok(s2))
      && (d.driverName.OtherEngine? ==> r == Err(UnsupportedDialect(d.driverName)))
  {
  }
}
