/** A migration that drops an index. An index with no name gets the default
    name, its columns joined with `_`, when the migration is rendered; the
    name is then kept in the migration, so later renders see it.
    In the Go code the index is a pointer that the caller may also have
    handed to another migration, which then sees the derived name as well;
    with values, only this migration changes. */
module DropIndex {
  import opened Base
  import Schema
  import Text
  import opened Dialects

  datatype DropIndexMigration = DropIndexMigration(base: MigrationBase, tableName: string, index: Schema.Index)

  /** Only the table's name is kept, not the table itself. */
  function NewDropIndexMigration(table: Schema.Table, index: Schema.Index): (m: DropIndexMigration)
    ensures m.tableName == table.name && m.index == index
    ensures m.base == EmptyBase
  {
    DropIndexMigration(EmptyBase, table.name, index)
  }

  function Table(m: DropIndexMigration, tableName: string): (r: DropIndexMigration)
    ensures r.tableName == tableName
    ensures r.index == m.index && r.base == m.base
  {
    m.(tableName := tableName)
  }

  /** Turns the current index into a unique one, keeping its columns and name. */
  function Unique(m: DropIndexMigration): (r: DropIndexMigration)
    ensures r.index.indexType == Schema.UniqueIndex
    ensures r.index.cols == m.index.cols && r.index.name == m.index.name
    ensures r.tableName == m.tableName && r.base == m.base
  {
    m.(index := m.index.(indexType := Schema.UniqueIndex))
  }

  /** Replaces the index wholesale by a fresh, unnamed, plain one on `cols`. */
  function Columns(m: DropIndexMigration, cols: seq<string>): (r: DropIndexMigration)
    ensures r.index.cols == cols && r.index.name == "" && r.index.indexType == Schema.PlainIndex
    ensures r.tableName == m.tableName && r.base == m.base
  {
    m.(index := Schema.FreshIndex(cols))
  }

  /** The name an unnamed index is dropped by: its columns joined with
      `_`. No columns give the empty name, one column gives its own name,
      and separator-free columns can be read back from the name. */
  function DefaultName(cols: seq<string>): (r: string)
    ensures |cols| == 0 ==> r == ""
    ensures |cols| == 1 ==> r == cols[0]
    ensures |cols| > 0 && Text.SeparatorFree(cols, '_') ==> Text.Split(r, '_') == cols
  {
    if |cols| > 0 && Text.SeparatorFree(cols, '_') then
      Text.SplitJoin(cols, '_');
      Text.Join(cols, '_')
    else
      Text.Join(cols, '_')
  }

  /** The index with its name filled in when it had none. */
  function ResolveName(ix: Schema.Index): (r: Schema.Index)
    ensures ix.name != "" ==> r == ix
    ensures ix.name == "" ==> r.name == DefaultName(ix.cols)
    ensures r.cols == ix.cols && r.indexType == ix.indexType
  {
    if ix.name == "" then ix.(name := DefaultName(ix.cols)) else ix
  }

  /** Resolves the index name, keeps it in the migration and renders the
      dialect's drop-index statement for the resolved index. */
  function Sql(m: DropIndexMigration, d: Dialect): (r: Rendered<DropIndexMigration>)
    ensures r.after.index == ResolveName(m.index)
    ensures r.after.tableName == m.tableName && r.after.base == m.base
    ensures r.sql == d.dropIndexSql(m.tableName, r.after.index)
  {
    var after := m.(index := ResolveName(m.index));
    Rendered(after, d.dropIndexSql(m.tableName, after.index))
  }

  /** Resolving a resolved index changes nothing, even when the default
      name is itself empty (an index on no columns). */
  lemma ResolveNameIdempotent(ix: Schema.Index)
    ensures ResolveName(ResolveName(ix)) == ResolveName(ix)
  {
  }

  /** Rendering a rendered migration gives the same migration and the same
      statement: the derived name is computed once and then reused. */
  lemma SqlIdempotent(m: DropIndexMigration, d: Dialect)
    ensures Sql(Sql(m, d).after, d) == Sql(m, d)
  {
    ResolveNameIdempotent(m.index);
  }

  /** An index that already has a name is dropped by that name and the
      migration is left as it was. */
  lemma NamedIndexUnchanged(m: DropIndexMigration, d: Dialect)
    requires m.index.name != ""
    ensures Sql(m, d).after == m
    ensures Sql(m, d).sql == d.dropIndexSql(m.tableName, m.index)
  {
  }

  /** When no column name contains `_`, the default name of a non-empty
      column list splits back into exactly those columns. */
  lemma DefaultNameRecoversColumns(m: DropIndexMigration, d: Dialect)
    requires m.index.name == ""
    requires |m.index.cols| > 0 && Text.SeparatorFree(m.index.cols, '_')
    ensures Text.Split(Sql(m, d).after.index.name, '_') == m.index.cols
  {
    Text.SplitJoin(m.index.cols, '_');
  }

  /** Column names containing `_` make the default name ambiguous: the
      indexes on `a_b` and on `a, b` get the same default name. */
  lemma DefaultNameAmbiguous()
    ensures DefaultName(["a_b"]) == DefaultName(["a", "b"]) == "a_b"
  {
    assert DefaultName(["a", "b"]) == "a" + "_" + "b";
  }
}
