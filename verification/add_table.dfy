/** A migration that creates a table. The builder appends columns and, for
    every primary-key column, its name to the table's primary-key sequence
    in the same step. */
module AddTable {
  import opened Base
  import Schema
  import opened Dialects

  datatype AddTableMigration = AddTableMigration(base: MigrationBase, table: Schema.Table)

  function NewAddTableMigration(table: Schema.Table): (m: AddTableMigration)
    ensures m.table == table && m.base == EmptyBase
  {
    AddTableMigration(EmptyBase, table)
  }

  /** The dialect's create-table statement for the whole stored table. */
  function Sql(m: AddTableMigration, d: Dialect): (r: string)
    ensures r == d.createTableSql(m.table)
  {
    d.createTableSql(m.table)
  }

  /** Replaces the table wholesale; the new table's keys are taken as given. */
  function Table(m: AddTableMigration, table: Schema.Table): (r: AddTableMigration)
    ensures r.table == table && r.base == m.base
  {
    m.(table := table)
  }

  function Name(m: AddTableMigration, name: string): (r: AddTableMigration)
    ensures r.table.name == name
    ensures r.table.columns == m.table.columns && r.table.primaryKeys == m.table.primaryKeys
    ensures r.base == m.base
  {
    m.(table := m.table.(name := name))
  }

  /** Appends `col`, and its name to the keys exactly when it is a primary key. */
  function WithColumn(m: AddTableMigration, col: Schema.Column): (r: AddTableMigration)
    ensures r.table.columns == m.table.columns + [col]
    ensures col.isPrimaryKey ==> r.table.primaryKeys == m.table.primaryKeys + [col.name]
    ensures !col.isPrimaryKey ==> r.table.primaryKeys == m.table.primaryKeys
    ensures r.table.name == m.table.name && r.base == m.base
  {
    var t := m.table.(columns := m.table.columns + [col]);
    m.(table := if col.isPrimaryKey then t.(primaryKeys := t.primaryKeys + [col.name]) else t)
  }

  /** `WithColumn` applied to each of `cs` in turn: the reference meaning of
      the many-column builder. */
  function FoldWithColumn(m: AddTableMigration, cs: seq<Schema.Column>): AddTableMigration
    decreases |cs|
  {
    if |cs| == 0 then m else FoldWithColumn(WithColumn(m, cs[0]), cs[1..])
  }

  /** A table whose keys mirror its columns' flags keeps that property
      when a column is added. */
  lemma WithColumnKeepsLockstep(m: AddTableMigration, col: Schema.Column)
    requires Schema.KeysInLockstep(m.table)
    ensures Schema.KeysInLockstep(WithColumn(m, col).table)
  {
    Schema.PrimaryKeyNamesAppend(m.table.columns, [col]);
  }

  /** The many-column builder, one column at a time as in the Go loop. */
  method WithColumns(m: AddTableMigration, cs: seq<Schema.Column>) returns (r: AddTableMigration)
    ensures r == FoldWithColumn(m, cs)
    ensures r.table.columns == m.table.columns + cs
    ensures r.table.primaryKeys == m.table.primaryKeys + Schema.PrimaryKeyNames(cs)
    ensures r.table.name == m.table.name && r.base == m.base
    ensures Schema.KeysInLockstep(m.table) ==> Schema.KeysInLockstep(r.table)
  {
    r := m;
    var i := 0;
    while i < |cs|
      invariant 0 <= i <= |cs|
      invariant FoldWithColumn(r, cs[i..]) == FoldWithColumn(m, cs)
      invariant r.table.columns == m.table.columns + cs[..i]
      invariant r.table.primaryKeys == m.table.primaryKeys + Schema.PrimaryKeyNames(cs[..i])
      invariant r.table.name == m.table.name && r.base == m.base
    {
      assert cs[..i + 1] == cs[..i] + [cs[i]];
      Schema.PrimaryKeyNamesAppend(cs[..i], [cs[i]]);
      assert cs[i..][1..] == cs[i + 1..];
      r := WithColumn(r, cs[i]);
      i := i + 1;
    }
    assert cs[..i] == cs;
    assert cs[i..] == [];
    Schema.PrimaryKeyNamesAppend(m.table.columns, cs);
  }
}
