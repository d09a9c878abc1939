/**
 * The map facade (default_concurrent_map.go): a fixed group of partitions
 * and its bucket count. Every key-level operation touches the one partition
 * the key is routed to; the size scans all of them.
 */
module ConcurrentMaps {
  import opened Wrappers
  import opened Keys
  import opened Routing
  import opened Partitions
  import opened Sharding

  /** The text of both construction errors. */
  const CapacityErrorMessage := "capacity must be an integer multiple of 2"

  class ConcurrentMap<V> {
    /** The partition group, one partition per bucket. */
    const partitions: seq<Partition<V>>
    /** The number of partitions. */
    const buckets: int64
    /** The hash of string keys, which is not part of this model. */
    const stringHash: string -> int64

    /** The shape that routing needs: a power-of-two count of distinct partitions. */
    ghost predicate WellFormed()
    {
      && IsPowerOfTwo(buckets as int)
      && |partitions| == buckets as int
      && forall i, j :: 0 <= i < j < |partitions| ==> partitions[i] != partitions[j]
    }

    /** The partition tables, in partition order. */
    ghost function Tables(): (tables: seq<Table<V>>)
      reads partitions
      ensures |tables| == |partitions|
      ensures forall i :: 0 <= i < |partitions| ==> tables[i] == partitions[i].ctx
    {
      seq(|partitions|, i reads partitions requires 0 <= i < |partitions| => partitions[i].ctx)
    }

    /** The map invariant: well formed, and every entry in the partition its key routes to. */
    ghost predicate Valid()
      reads partitions
    {
      WellFormed() && Routed(Tables(), stringHash, buckets)
    }

    /** The one abstract map the partitions represent together. */
    ghost function Contents(): Table<V>
      reads partitions
    {
      Union(Tables())
    }

    /** The struct literal `&concurrentMap{partitions, buckets}`. */
    constructor (partitions: seq<Partition<V>>, buckets: int64, stringHash: string -> int64)
      requires IsPowerOfTwo(buckets as int) && |partitions| == buckets as int
      requires forall i, j :: 0 <= i < j < |partitions| ==> partitions[i] != partitions[j]
      ensures this.partitions == partitions && this.buckets == buckets && this.stringHash == stringHash
      ensures WellFormed()
    {
      this.partitions := partitions;
      this.buckets := buckets;
      this.stringHash := stringHash;
    }

    /** `determinePartition`: the partition at index `HashCode() & (buckets - 1)`. */
    function DeterminePartition(key: PartitionKey): (pt: Partition<V>)
      requires WellFormed()
      ensures pt == partitions[key.HashCode(stringHash) as int % buckets as int]
      ensures pt == partitions[Slot(key.Value(), stringHash, buckets)]
    {
      assert KeyOf(key.Value()) == key;
      partitions[PartitionIndex(key.HashCode(stringHash), buckets)]
    }

    /** In a valid map, the routed partition holds exactly the abstract map's entry for a key. */
    lemma RoutedEntryIsContentsEntry(key: PartitionKey)
      requires Valid()
      ensures key.Value() in DeterminePartition(key).ctx <==> key.Value() in Contents()
      ensures key.Value() in Contents() ==> DeterminePartition(key).ctx[key.Value()] == Contents()[key.Value()]
    {
      UnionLookup(Tables(), stringHash, buckets, key.Value());
    }

    /**
     * What the facade sees under `key`: the entry of the routed partition,
     * which in a valid map is the abstract map's entry.
     */
    ghost function Lookup(key: PartitionKey): (r: Option<V>)
      reads partitions
      requires WellFormed()
      ensures Valid() ==> (r.Some? <==> key.Value() in Contents())
      ensures Valid() && r.Some? ==> r.value == Contents()[key.Value()]
    {
      var pt := DeterminePartition(key);
      var entry := if key.Value() in pt.ctx then Some(pt.ctx[key.Value()]) else None;
      if Valid() then
        RoutedEntryIsContentsEntry(key);
        entry
      else
        entry
    }

    /** The effect of a put of `value` under `key`. */
    twostate predicate PutEffect(key: PartitionKey, value: V)
      reads partitions
      requires WellFormed()
    {
      && DeterminePartition(key).ctx == old(DeterminePartition(key).ctx)[key.Value() := value]
      && Lookup(key) == Some(value)
      && (forall other: PartitionKey :: other.Value() != key.Value() ==> Lookup(other) == old(Lookup(other)))
      && (old(Valid()) ==> Valid() && Contents() == old(Contents())[key.Value() := value])
    }

    /** The effect of a remove of `key`. */
    twostate predicate RemoveEffect(key: PartitionKey)
      reads partitions
      requires WellFormed()
    {
      && DeterminePartition(key).ctx == old(DeterminePartition(key).ctx) - {key.Value()}
      && Lookup(key) == None
      && (forall other: PartitionKey :: other.Value() != key.Value() ==> Lookup(other) == old(Lookup(other)))
      && (old(Valid()) ==> Valid() && Contents() == old(Contents()) - {key.Value()})
    }

    /** `Put`: write into the routed partition; returns the map itself. */
    method Put(key: PartitionKey, value: V) returns (self: ConcurrentMap<V>)
      requires WellFormed()
      modifies DeterminePartition(key)
      ensures self == this
      ensures PutEffect(key, value)
    {
      var pt := DeterminePartition(key);
      pt.Put(key, value);
      self := this;
      ghost var s := Slot(key.Value(), stringHash, buckets);
      assert Tables() == old(Tables())[s := old(Tables())[s][key.Value() := value]];
      if old(Valid()) {
        UnionPut(old(Tables()), stringHash, buckets, key.Value(), value);
      }
    }

    /** `Remove`: delete from the routed partition; returns the map itself. */
    method Remove(key: PartitionKey) returns (self: ConcurrentMap<V>)
      requires WellFormed()
      modifies DeterminePartition(key)
      ensures self == this
      ensures RemoveEffect(key)
    {
      var km := DeterminePartition(key);
      km.Remove(key);
      self := this;
      ghost var s := Slot(key.Value(), stringHash, buckets);
      assert Tables() == old(Tables())[s := old(Tables())[s] - {key.Value()}];
      if old(Valid()) {
        UnionRemove(old(Tables()), stringHash, buckets, key.Value());
      }
    }

    /** `Get`: the stored value and true, or `standBy` and false. */
    method Get(key: PartitionKey, standBy: V) returns (v: V, ok: bool)
      requires WellFormed()
      ensures ok <==> Lookup(key).Some?
      ensures v == if ok then Lookup(key).value else standBy
    {
      var found := DeterminePartition(key).Get(key);
      if found.Some? {
        return found.value, true;
      }
      return standBy, false;
    }

    /**
     * `GetString`: the stored value rendered as text and true, or "" and
     * false. The rendering (`fmt.Sprintf("%v", …)`) is the parameter `render`.
     */
    method GetString(key: PartitionKey, render: V -> string) returns (s: string, ok: bool)
      requires WellFormed()
      ensures ok <==> Lookup(key).Some?
      ensures s == if ok then render(Lookup(key).value) else ""
    {
      var found := DeterminePartition(key).Get(key);
      if found.Some? {
        return render(found.value), true;
      }
      return "", false;
    }

    /** `Has`: whether the routed partition holds the key. */
    method Has(key: PartitionKey) returns (ok: bool)
      requires WellFormed()
      ensures ok <==> Lookup(key).Some?
    {
      var km := DeterminePartition(key);
      var found := km.Get(key);
      ok := found.Some?;
    }

    /**
     * `UnsafeLength` (through `length`): the sum of the partition table sizes,
     * which in a valid map is the number of distinct stored keys.
     */
    method UnsafeLength() returns (length: nat)
      ensures length == TotalSize(Tables())
      ensures Valid() ==> length == |Contents()|
    {
      length := 0;
      for i := 0 to |partitions|
        invariant length == TotalSize(Tables()[..i])
      {
        assert Tables()[..i + 1][..i] == Tables()[..i];
        length := length + |partitions[i].ctx|;
      }
      assert Tables()[..|partitions|] == Tables();
      if Valid() {
        UnionSize(Tables(), stringHash, buckets);
      }
    }

    method PutKeyInt(key: int64, value: V) returns (self: ConcurrentMap<V>)
      requires WellFormed()
      modifies DeterminePartition(NewIntKey(key))
      ensures self == this
      ensures PutEffect(NewIntKey(key), value)
    {
      self := Put(NewIntKey(key), value);
    }

    method PutKeyInt64(key: int64, value: V) returns (self: ConcurrentMap<V>)
      requires WellFormed()
      modifies DeterminePartition(NewInt64Key(key))
      ensures self == this
      ensures PutEffect(NewInt64Key(key), value)
    {
      self := Put(NewInt64Key(key), value);
    }

    method PutKeyString(key: string, value: V) returns (self: ConcurrentMap<V>)
      requires WellFormed()
      modifies DeterminePartition(NewStringKey(key))
      ensures self == this
      ensures PutEffect(NewStringKey(key), value)
    {
      self := Put(NewStringKey(key), value);
    }

    method GetKeyInt(key: int64, standBy: V) returns (v: V, ok: bool)
      requires WellFormed()
      ensures ok <==> Lookup(NewIntKey(key)).Some?
      ensures v == if ok then Lookup(NewIntKey(key)).value else standBy
    {
      v, ok := Get(NewIntKey(key), standBy);
    }

    method GetKeyInt64(key: int64, standBy: V) returns (v: V, ok: bool)
      requires WellFormed()
      ensures ok <==> Lookup(NewInt64Key(key)).Some?
      ensures v == if ok then Lookup(NewInt64Key(key)).value else standBy
    {
      v, ok := Get(NewInt64Key(key), standBy);
    }

    method GetKeyString(key: string, standBy: V) returns (v: V, ok: bool)
      requires WellFormed()
      ensures ok <==> Lookup(NewStringKey(key)).Some?
      ensures v == if ok then Lookup(NewStringKey(key)).value else standBy
    {
      v, ok := Get(NewStringKey(key), standBy);
    }

    method RemoveKeyInt(key: int64) returns (self: ConcurrentMap<V>)
      requires WellFormed()
      modifies DeterminePartition(NewIntKey(key))
      ensures self == this
      ensures RemoveEffect(NewIntKey(key))
    {
      self := Remove(NewIntKey(key));
    }

    method RemoveKeyInt64(key: int64) returns (self: ConcurrentMap<V>)
      requires WellFormed()
      modifies DeterminePartition(NewInt64Key(key))
      ensures self == this
      ensures RemoveEffect(NewInt64Key(key))
    {
      self := Remove(NewInt64Key(key));
    }

    method RemoveKeyString(key: string) returns (self: ConcurrentMap<V>)
      requires WellFormed()
      modifies DeterminePartition(NewStringKey(key))
      ensures self == this
      ensures RemoveEffect(NewStringKey(key))
    {
      self := Remove(NewStringKey(key));
    }

    method HasKeyInt(key: int64) returns (ok: bool)
      requires WellFormed()
      ensures ok <==> Lookup(NewIntKey(key)).Some?
    {
      ok := Has(NewIntKey(key));
    }

    method HasKeyInt64(key: int64) returns (ok: bool)
      requires WellFormed()
      ensures ok <==> Lookup(NewInt64Key(key)).Some?
    {
      ok := Has(NewInt64Key(key));
    }

    method HasKeyString(key: string) returns (ok: bool)
      requires WellFormed()
      ensures ok <==> Lookup(NewStringKey(key)).Some?
    {
      ok := Has(NewStringKey(key));
    }
  }

  /**
   * `NewConcurrentMap`: rejects a capacity below 2 or with `capacity &
   * (capacity - 1) != 0`, otherwise builds `capacity` fresh empty partitions.
   */
  method NewConcurrentMap<V>(capacity: int64, stringHash: string -> int64)
    returns (r: Result<ConcurrentMap<V>, string>)
    ensures r.Failure? <==> capacity < 2 || !IsPowerOfTwo(capacity as int)
    ensures r.Failure? ==> r.error == CapacityErrorMessage
    ensures r.Success? ==>
      && fresh(r.value)
      && r.value.buckets == capacity && r.value.stringHash == stringHash
      && |r.value.partitions| == capacity as int
      && (forall i :: 0 <= i < |r.value.partitions| ==> fresh(r.value.partitions[i]))
      && (forall i :: 0 <= i < |r.value.partitions| ==> r.value.partitions[i].ctx == map[])
      && r.value.Valid() && r.value.Contents() == map[]
  {
    if capacity < 2 {
      return Failure(CapacityErrorMessage);
    }
    var zero := BitAnd(capacity as int, capacity as int - 1);
    AndPredecessorIsZero(capacity as int);
    if 0 != zero {
      return Failure(CapacityErrorMessage);
    }

    var partitions: seq<Partition<V>> := [];
    for i := 0 to capacity as int
      invariant |partitions| == i
      invariant forall j :: 0 <= j < i ==> fresh(partitions[j]) && partitions[j].ctx == map[]
      invariant forall j, k :: 0 <= j < k < i ==> partitions[j] != partitions[k]
    {
      var pt := new Partition();
      partitions := partitions + [pt];
    }
    var cmap := new ConcurrentMap(partitions, capacity, stringHash);
    EmptyTables(cmap.Tables(), stringHash, capacity);
    return Success(cmap);
  }
}
