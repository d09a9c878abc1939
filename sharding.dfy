/**
 * The sharded representation on values: a sequence of partition tables, the
 * routing invariant that ties it to one abstract map, and the facts the
 * facade relies on (lookups, updates and the size sum).
 */
module Sharding {
  import opened Keys
  import opened Routing

  type Table<V> = map<KeyValue, V>

  /** The partition a stored value belongs in: the index its key is routed to. */
  function Slot(kv: KeyValue, stringHash: string -> int64, buckets: int64): (i: nat)
    requires buckets >= 1
    ensures i < buckets as int
    ensures IsPowerOfTwo(buckets as int) ==> i == KeyOf(kv).HashCode(stringHash) as int % buckets as int
  {
    PartitionIndex(KeyOf(kv).HashCode(stringHash), buckets)
  }

  /** Every entry sits in the partition its key routes to. */
  ghost predicate Routed<V>(tables: seq<Table<V>>, stringHash: string -> int64, buckets: int64)
    requires buckets >= 1
  {
    forall i, kv :: 0 <= i < |tables| && kv in tables[i] ==> Slot(kv, stringHash, buckets) == i
  }

  /** All entries of all tables, as one map. */
  ghost function Union<V>(tables: seq<Table<V>>): Table<V>
  {
    if |tables| == 0 then map[] else Union(tables[..|tables| - 1]) + tables[|tables| - 1]
  }

  /** The sum of the table sizes. */
  ghost function TotalSize<V>(tables: seq<Table<V>>): nat
  {
    if |tables| == 0 then 0 else TotalSize(tables[..|tables| - 1]) + |tables[|tables| - 1]|
  }

  lemma RoutedPrefix<V>(tables: seq<Table<V>>, stringHash: string -> int64, buckets: int64, n: nat)
    requires buckets >= 1 && n <= |tables| && Routed(tables, stringHash, buckets)
    ensures Routed(tables[..n], stringHash, buckets)
  {
  }

  /** In a routed group, a key is stored exactly when its own partition holds it. */
  lemma {:induction false} UnionLookup<V>(tables: seq<Table<V>>, stringHash: string -> int64, buckets: int64, kv: KeyValue)
    requires buckets >= 1 && Routed(tables, stringHash, buckets)
    ensures kv in Union(tables) <==>
      Slot(kv, stringHash, buckets) < |tables| && kv in tables[Slot(kv, stringHash, buckets)]
    ensures kv in Union(tables) ==> Union(tables)[kv] == tables[Slot(kv, stringHash, buckets)][kv]
  {
    if |tables| > 0 {
      var n := |tables| - 1;
      RoutedPrefix(tables, stringHash, buckets, n);
      UnionLookup(tables[..n], stringHash, buckets, kv);
    }
  }

  /** Tables of a routed group hold disjoint keys, so the size sum counts distinct keys. */
  lemma {:induction false} UnionSize<V>(tables: seq<Table<V>>, stringHash: string -> int64, buckets: int64)
    requires buckets >= 1 && Routed(tables, stringHash, buckets)
    ensures |Union(tables)| == TotalSize(tables)
  {
    if |tables| > 0 {
      var n := |tables| - 1;
      var front := tables[..n];
      RoutedPrefix(tables, stringHash, buckets, n);
      UnionSize(front, stringHash, buckets);
      assert Union(front).Keys !! tables[n].Keys by {
        forall kv | kv in Union(front) && kv in tables[n]
          ensures false
        {
          UnionLookup(front, stringHash, buckets, kv);
        }
      }
      assert Union(tables).Keys == Union(front).Keys + tables[n].Keys;
      assert |Union(tables).Keys| == |Union(front).Keys| + |tables[n].Keys|;
    }
  }

  /** A group of empty tables is routed and holds nothing. */
  lemma {:induction false} EmptyTables<V>(tables: seq<Table<V>>, stringHash: string -> int64, buckets: int64)
    requires buckets >= 1
    requires forall i :: 0 <= i < |tables| ==> tables[i] == map[]
    ensures Routed(tables, stringHash, buckets)
    ensures Union(tables) == map[] && TotalSize(tables) == 0
  {
    if |tables| > 0 {
      EmptyTables(tables[..|tables| - 1], stringHash, buckets);
    }
  }

  /**
   * Writing `kv := v` into the partition `kv` routes to keeps the group routed
   * and performs the same write on the abstract map.
   */
  lemma UnionPut<V>(tables: seq<Table<V>>, stringHash: string -> int64, buckets: int64, kv: KeyValue, v: V)
    requires buckets >= 1 && |tables| == buckets as int && Routed(tables, stringHash, buckets)
    ensures var s := Slot(kv, stringHash, buckets);
      var after := tables[s := tables[s][kv := v]];
      Routed(after, stringHash, buckets) && Union(after) == Union(tables)[kv := v]
  {
    var s := Slot(kv, stringHash, buckets);
    var after := tables[s := tables[s][kv := v]];
    assert Routed(after, stringHash, buckets);
    forall k
      ensures (k in Union(after) <==> k in Union(tables)[kv := v])
      ensures k in Union(after) ==> Union(after)[k] == Union(tables)[kv := v][k]
    {
      UnionLookup(after, stringHash, buckets, k);
      UnionLookup(tables, stringHash, buckets, k);
    }
  }

  /**
   * Deleting `kv` from the partition it routes to keeps the group routed and
   * performs the same delete on the abstract map.
   */
  lemma UnionRemove<V>(tables: seq<Table<V>>, stringHash: string -> int64, buckets: int64, kv: KeyValue)
    requires buckets >= 1 && |tables| == buckets as int && Routed(tables, stringHash, buckets)
    ensures var s := Slot(kv, stringHash, buckets);
      var after := tables[s := tables[s] - {kv}];
      Routed(after, stringHash, buckets) && Union(after) == Union(tables) - {kv}
  {
    var s := Slot(kv, stringHash, buckets);
    var after := tables[s := tables[s] - {kv}];
    assert Routed(after, stringHash, buckets);
    forall k
      ensures (k in Union(after) <==> k in Union(tables) - {kv})
      ensures k in Union(after) ==> Union(after)[k] == (Union(tables) - {kv})[k]
    {
      UnionLookup(after, stringHash, buckets, k);
      UnionLookup(tables, stringHash, buckets, k);
    }
  }
}
