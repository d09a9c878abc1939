/**
 * Uses of the map whose outcome follows from the contracts alone: the cases
 * of default_concurrent_map_test.go and the properties a caller relies on.
 */
module MapScenarios {
  import opened Keys
  import opened Routing
  import opened Partitions
  import opened Sharding
  import opened ConcurrentMaps

  /** `%v` applied to a string value is the string itself. */
  function RenderString(s: string): string
  {
    s
  }

  /** A two-partition map built as a struct literal from the given tables. */
  method LiteralMap(first: Table<string>, second: Table<string>, stringHash: string -> int64)
    returns (cmap: ConcurrentMap<string>)
    ensures fresh(cmap) && cmap.WellFormed() && cmap.stringHash == stringHash && cmap.buckets == 2
    ensures fresh(cmap.partitions[0]) && fresh(cmap.partitions[1])
    ensures cmap.partitions[0].ctx == first && cmap.partitions[1].ctx == second
  {
    var p0 := new Partition();
    p0.ctx := first;
    var p1 := new Partition();
    p1.ctx := second;
    assert IsPowerOfTwo(2);
    cmap := new ConcurrentMap([p0, p1], 2, stringHash);
  }

  /** Put into an empty two-partition map, then read back as a string, whatever the key's hash. */
  method PutThenGetString(stringHash: string -> int64) returns (value: string, ok: bool)
    ensures ok && value == "Ak47"
  {
    var cmap := LiteralMap(map[], map[], stringHash);
    var rst := cmap.Put(NewStringKey("hello.cmap.gun"), "Ak47");
    value, ok := rst.GetString(NewStringKey("hello.cmap.gun"), RenderString);
  }

  /** "sharkchili" hashes to the even 256048774, so with two partitions it lives in partition 0. */
  lemma SharkchiliRoutesToZero(stringHash: string -> int64)
    requires stringHash("sharkchili") == 256048774
    ensures Slot(StrV("sharkchili"), stringHash, 2) == 0
  {
  }

  /** The entry sits in the partition the key routes to, so `Get` finds it. */
  method GetFromRoutedPartition(stringHash: string -> int64) returns (got: string, ok: bool)
    requires stringHash("sharkchili") == 256048774
    ensures ok && got == "Ak47"
  {
    var cmap := LiteralMap(map[StrV("sharkchili") := "Ak47"], map[], stringHash);
    SharkchiliRoutesToZero(stringHash);
    got, ok := cmap.Get(NewStringKey("sharkchili"), "");
  }

  /** The entry sits in the other partition; `Get` looks only where the key routes and misses it. */
  method GetMissesMisplacedEntry(stringHash: string -> int64) returns (got: string, ok: bool)
    requires stringHash("sharkchili") == 256048774
    ensures !ok && got == "standBy"
  {
    var cmap := LiteralMap(map[], map[StrV("sharkchili") := "Ak47"], stringHash);
    SharkchiliRoutesToZero(stringHash);
    got, ok := cmap.Get(NewStringKey("sharkchili"), "standBy");
  }

  /** Capacities 0, 1, 3 and 6 are refused (6 although it is a multiple of 2); 2, 4 and 16 are accepted. */
  method CapacityChecks(stringHash: string -> int64)
    returns (refused: seq<bool>, accepted: seq<bool>)
    ensures refused == [true, true, true, true]
    ensures accepted == [true, true, true]
  {
    var r0 := NewConcurrentMap<int>(0, stringHash);
    var r1 := NewConcurrentMap<int>(1, stringHash);
    assert !IsPowerOfTwo(3) && !IsPowerOfTwo(6);
    var r3 := NewConcurrentMap<int>(3, stringHash);
    var r6 := NewConcurrentMap<int>(6, stringHash);
    refused := [r0.Failure?, r1.Failure?, r3.Failure?, r6.Failure?];
    assert IsPowerOfTwo(2) && IsPowerOfTwo(4) && IsPowerOfTwo(16);
    var a2 := NewConcurrentMap<int>(2, stringHash);
    var a4 := NewConcurrentMap<int>(4, stringHash);
    var a16 := NewConcurrentMap<int>(16, stringHash);
    accepted := [
      a2.Success? && |a2.value.partitions| == 2,
      a4.Success? && |a4.value.partitions| == 4,
      a16.Success? && |a16.value.partitions| == 16
    ];
  }

  /** Read-your-write and last write wins on a fresh map. */
  method WriteThenOverwrite<V>(capacity: int64, stringHash: string -> int64,
                               key: PartitionKey, v1: V, v2: V, standBy: V)
    returns (first: (V, bool), second: (V, bool))
    requires capacity >= 2 && IsPowerOfTwo(capacity as int)
    ensures first == (v1, true) && second == (v2, true)
  {
    var r := NewConcurrentMap<V>(capacity, stringHash);
    var cmap := r.value;
    var self := cmap.Put(key, v1);
    var v, ok := cmap.Get(key, standBy);
    first := (v, ok);
    self := cmap.Put(key, v2);
    v, ok := cmap.Get(key, standBy);
    second := (v, ok);
  }

  /** Remove-then-absent on a fresh map, with a different key never present. */
  method RemoveThenAbsent<V>(capacity: int64, stringHash: string -> int64,
                             key: PartitionKey, other: PartitionKey, v: V, standBy: V)
    returns (afterRemove: (V, bool), otherFound: bool)
    requires capacity >= 2 && IsPowerOfTwo(capacity as int)
    requires other.Value() != key.Value()
    ensures afterRemove == (standBy, false)
    ensures !otherFound
  {
    var r := NewConcurrentMap<V>(capacity, stringHash);
    var cmap := r.value;
    var self := cmap.Put(key, v);
    self := cmap.Remove(key);
    var got, ok := cmap.Get(key, standBy);
    afterRemove := (got, ok);
    otherFound := cmap.Has(other);
  }

  /** A fresh two-partition map holding `IntKey(5) -> 1` and `Int64Key(5) -> 2`. */
  method PutIntAndInt64Five(stringHash: string -> int64) returns (cmap: ConcurrentMap<int>)
    ensures fresh(cmap) && cmap.WellFormed() && cmap.Valid()
    ensures forall i :: 0 <= i < |cmap.partitions| ==> fresh(cmap.partitions[i])
    ensures cmap.Contents() == map[IntV(5) := 1, Int64V(5) := 2]
  {
    assert IsPowerOfTwo(2);
    var r := NewConcurrentMap<int>(2, stringHash);
    cmap := r.value;
    var self := cmap.PutKeyInt(5, 1);
    self := cmap.PutKeyInt64(5, 2);
  }

  /** `IntKey(5)` and `Int64Key(5)` share a partition but are two entries. */
  method IntAndInt64KeysAreSeparate(stringHash: string -> int64) returns (a: int, b: int, length: nat)
    ensures a == 1 && b == 2 && length == 2
  {
    var cmap := PutIntAndInt64Five(stringHash);
    var okA, okB;
    a, okA := cmap.GetKeyInt(5, 0);
    b, okB := cmap.GetKeyInt64(5, 0);
    assert |cmap.Contents()| == 2 by {
      assert |map[IntV(5) := 1]| == 1 && Int64V(5) !in map[IntV(5) := 1];
    }
    length := cmap.UnsafeLength();
  }

  /** The values of `keys[..n]`, as a set. */
  ghost function ValuesOf(keys: seq<PartitionKey>, n: nat): set<KeyValue>
    requires n <= |keys|
  {
    set i | 0 <= i < n :: keys[i].Value()
  }

  /** Keys with pairwise different values contribute as many distinct values as there are keys. */
  lemma {:induction false} DistinctValuesCount(keys: seq<PartitionKey>, n: nat)
    requires n <= |keys|
    requires forall i, j :: 0 <= i < j < |keys| ==> keys[i].Value() != keys[j].Value()
    ensures |ValuesOf(keys, n)| == n
  {
    if n > 0 {
      DistinctValuesCount(keys, n - 1);
      assert ValuesOf(keys, n) == ValuesOf(keys, n - 1) + {keys[n - 1].Value()};
    }
  }

  /** After K keys with distinct values are put into a fresh map, `UnsafeLength` is K. */
  method LengthAfterDistinctPuts<V>(capacity: int64, stringHash: string -> int64, keys: seq<PartitionKey>, value: V)
    returns (length: nat)
    requires capacity >= 2 && IsPowerOfTwo(capacity as int)
    requires forall i, j :: 0 <= i < j < |keys| ==> keys[i].Value() != keys[j].Value()
    ensures length == |keys|
  {
    var r := NewConcurrentMap<V>(capacity, stringHash);
    var cmap := r.value;
    for n := 0 to |keys|
      invariant cmap.Valid()
      invariant forall i :: 0 <= i < |cmap.partitions| ==> fresh(cmap.partitions[i])
      invariant cmap.Contents().Keys == ValuesOf(keys, n)
    {
      var self := cmap.Put(keys[n], value);
      assert ValuesOf(keys, n + 1) == ValuesOf(keys, n) + {keys[n].Value()};
    }
    length := cmap.UnsafeLength();
    DistinctValuesCount(keys, |keys|);
  }
}
