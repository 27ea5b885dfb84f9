/** The part every migration variant shares: its id and its optional
    run condition. Evaluating a condition queries the live database and is
    not part of this model; a condition is only carried and reported. */
module Base {

  /** `NoCondition` stands for Go's nil condition. */
  datatype Condition = NoCondition | IfTableExistsCondition(tableName: string)

  datatype MigrationBase = MigrationBase(id: string, condition: Condition)

  /** The base of a freshly constructed migration. */
  const EmptyBase := MigrationBase("", NoCondition)

  /** The stored id; an empty string until one is set. */
  function Id(b: MigrationBase): (r: string)
    ensures r == b.id
    ensures b == EmptyBase ==> r == ""
  {
    b.id
  }

  /** The stored condition; none until one is attached. */
  function GetCondition(b: MigrationBase): (r: Condition)
    ensures r == b.condition
    ensures b == EmptyBase ==> r == NoCondition
  {
    b.condition
  }

  function SetId(b: MigrationBase, id: string): (r: MigrationBase)
    ensures Id(r) == id
    ensures GetCondition(r) == GetCondition(b)
  {
    b.(id := id)
  }

  /** Gates the migration on the existence of `tableName`. */
  function IfTableExists(b: MigrationBase, tableName: string): (r: MigrationBase)
    ensures GetCondition(r) == IfTableExistsCondition(tableName)
    ensures Id(r) == Id(b)
  {
    b.(condition := IfTableExistsCondition(tableName))
  }
}
