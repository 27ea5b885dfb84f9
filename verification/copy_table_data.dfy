/** A migration that copies rows from one table into another, column by
    column. It is built from an unordered map from target column to source
    column, which the constructor expands into two parallel sequences.
    Go visits the map's keys in an unspecified order; the constructor takes
    that order as a parameter, so every result below holds for all of them. */
module CopyTableData {
  import opened Base
  import opened Dialects

  datatype CopyTableDataMigration = CopyTableDataMigration(
    base: MigrationBase,
    sourceTable: string,
    targetTable: string,
    sourceCols: seq<string>,
    targetCols: seq<string>,
    colMap: map<string, string>)

  predicate NoDuplicates(s: seq<string>)
  {
    forall i, j :: 0 <= i < j < |s| ==> s[i] != s[j]
  }

  /** `order` lists every element of `keys` exactly once: a traversal order. */
  predicate Enumerates(order: seq<string>, keys: set<string>)
  {
    && NoDuplicates(order)
    && (forall k :: k in order ==> k in keys)
    && (forall k :: k in keys ==> k in order)
  }

  /** The parallel target and source column sequences. */
  datatype ColumnLists = ColumnLists(targets: seq<string>, sources: seq<string>)

  /** The two sequences the Go loop builds by appending, key by key, the
      key to the targets and its mapped column to the sources. */
  function Expand(colMap: map<string, string>, order: seq<string>): (r: ColumnLists)
    requires forall k :: k in order ==> k in colMap
    ensures |r.targets| == |order| && |r.sources| == |order|
    ensures forall i :: 0 <= i < |order| ==> r.targets[i] == order[i]
    ensures forall i :: 0 <= i < |order| ==> r.sources[i] == colMap[order[i]]
    decreases |order|
  {
    if |order| == 0 then ColumnLists([], [])
    else
      var last := order[|order| - 1];
      assert last in order;
      var rest := Expand(colMap, order[..|order| - 1]);
      ColumnLists(rest.targets + [last], rest.sources + [colMap[last]])
  }

  /** A duplicate-free sequence has as many elements as its set of elements. */
  lemma {:induction false} DistinctLength(s: seq<string>, keys: set<string>)
    requires Enumerates(s, keys)
    ensures |s| == |keys|
  {
    if |s| > 0 {
      var rest := s[1..];
      assert s[0] !in rest by {
        forall j | 0 <= j < |rest| ensures rest[j] != s[0] {
          assert rest[j] == s[j + 1];
        }
      }
      forall i, j | 0 <= i < j < |rest| ensures rest[i] != rest[j] {
        assert rest[i] == s[i + 1] && rest[j] == s[j + 1];
      }
      forall k ensures k in rest <==> k in keys - {s[0]} {
        if k in rest {
          var j :| 0 <= j < |rest| && rest[j] == k;
          assert s[j + 1] == k;
        }
        if k in s && k != s[0] {
          var j :| 0 <= j < |s| && s[j] == k;
          assert rest[j - 1] == k;
        }
      }
      DistinctLength(rest, keys - {s[0]});
    } else {
      forall k ensures k !in keys {
      }
      assert keys == {};
    }
  }

  /** Every key set has a traversal order, so requiring one excludes no map. */
  lemma SomeOrder(keys: set<string>) returns (order: seq<string>)
    ensures Enumerates(order, keys)
    decreases keys
  {
    if keys == {} {
      order := [];
    } else {
      var k :| k in keys;
      var rest := SomeOrder(keys - {k});
      order := [k] + rest;
      forall i, j | 0 <= i < j < |order| ensures order[i] != order[j] {
        assert order[j] == rest[j - 1];
        if i > 0 {
          assert order[i] == rest[i - 1];
        }
      }
      forall x | x in order ensures x in keys {
        if x != k {
          assert x in rest;
        }
      }
      forall x | x in keys ensures x in order {
        if x != k {
          assert x in rest;
        }
      }
    }
  }

  function NewCopyTableDataMigration(
    targetTable: string, sourceTable: string, colMap: map<string, string>, order: seq<string>)
    : (m: CopyTableDataMigration)
    requires Enumerates(order, colMap.Keys)
    ensures |m.targetCols| == |colMap| && |m.sourceCols| == |colMap|
    ensures NoDuplicates(m.targetCols)
    ensures forall k :: k in m.targetCols <==> k in colMap
    ensures forall i :: 0 <= i < |m.targetCols| ==> m.targetCols[i] in colMap && colMap[m.targetCols[i]] == m.sourceCols[i]
    ensures m.targetTable == targetTable && m.sourceTable == sourceTable
    ensures m.base == EmptyBase && m.colMap == map[]
  {
    DistinctLength(order, colMap.Keys);
    var lists := Expand(colMap, order);
    assert lists.targets == order;
    CopyTableDataMigration(EmptyBase, sourceTable, targetTable, lists.sources, lists.targets, map[])
  }

  /** The (target, source) pairs at equal positions are exactly the map's
      entries, whichever traversal order built them. */
  lemma PairsAreTheMap(
    targetTable: string, sourceTable: string, colMap: map<string, string>, order: seq<string>)
    requires Enumerates(order, colMap.Keys)
    ensures var m := NewCopyTableDataMigration(targetTable, sourceTable, colMap, order);
      (set i | 0 <= i < |m.targetCols| :: (m.targetCols[i], m.sourceCols[i])) == colMap.Items
  {
    var m := NewCopyTableDataMigration(targetTable, sourceTable, colMap, order);
    var pairs := set i | 0 <= i < |m.targetCols| :: (m.targetCols[i], m.sourceCols[i]);
    forall p | p in colMap.Items ensures p in pairs {
      assert p.0 in colMap;
      var i :| 0 <= i < |m.targetCols| && m.targetCols[i] == p.0;
      assert (m.targetCols[i], m.sourceCols[i]) == p;
    }
  }

  /** Two traversal orders of the same map give the same pairing. */
  lemma PairingOrderIndependent(
    targetTable: string, sourceTable: string, colMap: map<string, string>, o1: seq<string>, o2: seq<string>)
    requires Enumerates(o1, colMap.Keys) && Enumerates(o2, colMap.Keys)
    ensures var m1 := NewCopyTableDataMigration(targetTable, sourceTable, colMap, o1);
      var m2 := NewCopyTableDataMigration(targetTable, sourceTable, colMap, o2);
      (set i | 0 <= i < |m1.targetCols| :: (m1.targetCols[i], m1.sourceCols[i]))
        == (set i | 0 <= i < |m2.targetCols| :: (m2.targetCols[i], m2.sourceCols[i]))
  {
    PairsAreTheMap(targetTable, sourceTable, colMap, o1);
    PairsAreTheMap(targetTable, sourceTable, colMap, o2);
  }

  /** The map {a: x, b: y}, traversed in either order, pairs target `a`
      with source `x` and target `b` with source `y`. */
  lemma TwoColumnPairing(order: seq<string>)
    requires order == ["a", "b"] || order == ["b", "a"]
    ensures Enumerates(order, map["a" := "x", "b" := "y"].Keys)
    ensures var m := NewCopyTableDataMigration("target", "source", map["a" := "x", "b" := "y"], order);
      forall i :: 0 <= i < |m.targetCols| ==>
        && (m.targetCols[i] == "a" ==> m.sourceCols[i] == "x")
        && (m.targetCols[i] == "b" ==> m.sourceCols[i] == "y")
  {
    assert "a" != "b" by { assert "a"[0] != "b"[0]; }
  }

  /** Attaches the condition; the copy itself is untouched. */
  function IfTableExists(m: CopyTableDataMigration, tableName: string): (r: CopyTableDataMigration)
    ensures GetCondition(r.base) == IfTableExistsCondition(tableName)
    ensures Id(r.base) == Id(m.base)
    ensures r.sourceTable == m.sourceTable && r.targetTable == m.targetTable
    ensures r.sourceCols == m.sourceCols && r.targetCols == m.targetCols && r.colMap == m.colMap
  {
    m.(base := Base.IfTableExists(m.base, tableName))
  }

  /** The dialect's copy statement; note the source table comes first. */
  function Sql(m: CopyTableDataMigration, d: Dialect): (r: string)
    ensures r == d.copyTableData(m.sourceTable, m.targetTable, m.sourceCols, m.targetCols)
  {
    d.copyTableData(m.sourceTable, m.targetTable, m.sourceCols, m.targetCols)
  }

  /** Attaching a condition only reports it: the rendered copy statement is
      the same with or without it, so skipping is left to the caller. */
  lemma ConditionDoesNotChangeSql(m: CopyTableDataMigration, tableName: string, d: Dialect)
    ensures Sql(IfTableExists(m, tableName), d) == Sql(m, d)
  {
  }
}
