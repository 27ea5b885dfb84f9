/** Passive schema descriptors: columns, indexes and tables.
    In the Go code columns and indexes are handled through pointers; here
    they are plain values, so two migrations never share one index. */
module Schema {

  datatype Column = Column(
    name: string,
    sqlType: string,
    nullable: bool,
    defaultValue: string,
    isPrimaryKey: bool)

  /** The zero value of the Go index type is a plain index. */
  datatype IndexType = PlainIndex | UniqueIndex

  /** `cols` is the index key order; an empty `name` means "not named yet". */
  datatype Index = Index(cols: seq<string>, name: string, indexType: IndexType)

  /** The index a fresh Go `&Index{}` becomes once its columns are set. */
  function FreshIndex(cols: seq<string>): (ix: Index)
    ensures ix.cols == cols && ix.name == "" && ix.indexType == PlainIndex
  {
    Index(cols, "", PlainIndex)
  }

  datatype Table = Table(name: string, columns: seq<Column>, primaryKeys: seq<string>)

  /** The names of the primary-key columns of `cs`, in column order. */
  function PrimaryKeyNames(cs: seq<Column>): seq<string>
  {
    if |cs| == 0 then []
    else (if cs[0].isPrimaryKey then [cs[0].name] else []) + PrimaryKeyNames(cs[1..])
  }

  /** The primary-key sequence mirrors the primary-key flags of the columns. */
  predicate KeysInLockstep(t: Table)
  {
    t.primaryKeys == PrimaryKeyNames(t.columns)
  }

  lemma {:induction false} PrimaryKeyNamesAppend(a: seq<Column>, b: seq<Column>)
    ensures PrimaryKeyNames(a + b) == PrimaryKeyNames(a) + PrimaryKeyNames(b)
  {
    if |a| > 0 {
      assert (a + b)[0] == a[0];
      assert (a + b)[1..] == a[1..] + b;
      PrimaryKeyNamesAppend(a[1..], b);
      var head := if a[0].isPrimaryKey then [a[0].name] else [];
      assert head + (PrimaryKeyNames(a[1..]) + PrimaryKeyNames(b))
          == (head + PrimaryKeyNames(a[1..])) + PrimaryKeyNames(b);
    } else {
      assert a + b == b;
    }
  }

  /** A name is a primary key exactly when some primary-key column carries it. */
  lemma {:induction false} PrimaryKeyNamesMembership(cs: seq<Column>, x: string)
    ensures x in PrimaryKeyNames(cs) <==> exists i :: 0 <= i < |cs| && cs[i].isPrimaryKey && cs[i].name == x
  {
    if |cs| > 0 {
      PrimaryKeyNamesMembership(cs[1..], x);
      if x in PrimaryKeyNames(cs[1..]) {
        var i :| 0 <= i < |cs[1..]| && cs[1..][i].isPrimaryKey && cs[1..][i].name == x;
        assert cs[i + 1] == cs[1..][i];
      }
      if exists i :: 0 <= i < |cs| && cs[i].isPrimaryKey && cs[i].name == x {
        var i :| 0 <= i < |cs| && cs[i].isPrimaryKey && cs[i].name == x;
        if i > 0 {
          assert cs[1..][i - 1] == cs[i];
        }
      }
    }
  }

  /** The number of primary-key columns. */
  function CountPrimaryKeys(cs: seq<Column>): nat
  {
    if |cs| == 0 then 0
    else (if cs[0].isPrimaryKey then 1 else 0) + CountPrimaryKeys(cs[1..])
  }

  /** Each primary-key column contributes exactly one name and no other column does. */
  lemma {:induction false} PrimaryKeyNamesLength(cs: seq<Column>)
    ensures |PrimaryKeyNames(cs)| == CountPrimaryKeys(cs) <= |cs|
  {
    if |cs| > 0 {
      PrimaryKeyNamesLength(cs[1..]);
    }
  }
}
