/**
 * One shard of the map (partition.go): a table from a key's value to the
 * stored value. The reader-writer lock that guards it in the source is not
 * modelled; every operation here is one sequential step.
 */
module Partitions {
  import opened Wrappers
  import opened Keys

  class Partition<V> {
    /** The table, keyed by `key.Value()`. */
    var ctx: map<KeyValue, V>

    /** `createPartition`: a partition with an empty table. */
    constructor ()
      ensures ctx == map[]
    {
      ctx := map[];
    }

    /** `get`: the entry stored under `key.Value()`, or None (Go's `(nil, false)`). */
    method Get(key: PartitionKey) returns (v: Option<V>)
      ensures v.Some? <==> key.Value() in ctx
      ensures v.Some? ==> v.value == ctx[key.Value()]
    {
      var keyValue := key.Value();
      if keyValue in ctx {
        v := Some(ctx[keyValue]);
      } else {
        v := None;
      }
    }

    /** `put`: insert or overwrite the entry under `key.Value()`. */
    method Put(key: PartitionKey, v: V)
      modifies this
      ensures ctx == old(ctx)[key.Value() := v]
    {
      var keyValue := key.Value();
      ctx := ctx[keyValue := v];
    }

    /** `remove`: delete the entry under `key.Value()`; nothing happens when it is absent. */
    method Remove(key: PartitionKey)
      modifies this
      ensures ctx == old(ctx) - {key.Value()}
    {
      var keyValue := key.Value();
      ctx := ctx - {keyValue};
    }
  }

  /**
   * What a put does to a table: the key now maps to the new value, every
   * other entry is as before, the table grows by one exactly when the key
   * was new, and putting the same pair again changes nothing.
   */
  lemma PutLaws<V>(ctx: map<KeyValue, V>, key: PartitionKey, v: V)
    ensures key.Value() in ctx[key.Value() := v] && ctx[key.Value() := v][key.Value()] == v
    ensures forall kv :: kv != key.Value() ==>
      (kv in ctx[key.Value() := v] <==> kv in ctx) &&
      (kv in ctx ==> ctx[key.Value() := v][kv] == ctx[kv])
    ensures |ctx[key.Value() := v]| == if key.Value() in ctx then |ctx| else |ctx| + 1
    ensures ctx[key.Value() := v][key.Value() := v] == ctx[key.Value() := v]
  {
  }

  /**
   * What a remove does to a table: the key is absent, every other entry is
   * as before, and removing an absent key leaves the table as it was.
   */
  lemma RemoveLaws<V>(ctx: map<KeyValue, V>, key: PartitionKey)
    ensures key.Value() !in ctx - {key.Value()}
    ensures forall kv :: kv != key.Value() ==>
      (kv in ctx - {key.Value()} <==> kv in ctx) &&
      (kv in ctx ==> (ctx - {key.Value()})[kv] == ctx[kv])
    ensures key.Value() !in ctx ==> ctx - {key.Value()} == ctx
    ensures |ctx - {key.Value()}| == if key.Value() in ctx then |ctx| - 1 else |ctx|
  {
  }
}
