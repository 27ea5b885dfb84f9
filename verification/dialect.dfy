/** The SQL dialect a migration renders itself with.
    The engines' own SQL syntax is not part of this model: a `Dialect` value
    carries one arbitrary function per rendering operation, so every result
    proved about a migration holds for every dialect. Being Dafny functions,
    the rendering operations are deterministic, so rendering is deterministic. */
module Dialects {
  import opened Schema

  /** The engine a dialect names through `DriverName()`. Engines other than
      MySQL and SQLite (PostgreSQL, say) are `OtherEngine`. */
  datatype Engine = MySQL | SQLite | OtherEngine(driver: string)

  datatype Dialect = Dialect(
    driverName: Engine,
    addColumnSql: (string, Column) -> string,
    createIndexSql: (string, Index) -> string,
    dropIndexSql: (string, Index) -> string,
    createTableSql: Table -> string,
    dropTable: string -> string,
    renameTable: (string, string) -> string,
    copyTableData: (string, string, seq<string>, seq<string>) -> string)

  /** The Go code aborts with "db type not supported"; here it is a value. */
  datatype RenderError = UnsupportedDialect(engine: Engine)

  datatype Result<+T> = Ok(value: T) | Err(error: RenderError)

  /** A migration as rendering leaves it, and the statement rendered. */
  datatype Rendered<+M> = Rendered(after: M, sql: string)
}
