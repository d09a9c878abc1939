# concurrentmap, modelled in Dafny

A model of the sequential behaviour of photowey/concurrentmap, a sharded key-value map written in Go. A map
owns a fixed, power-of-two number of partitions. Each partition has its own table. A key is routed to
exactly one partition by `HashCode() & (buckets - 1)`. Inside that partition, the entry is stored under the
key's `Value()`.

The model is split into these modules:

- `Keys` (`keys.dfy`): the `int`, `int64` and string keys. `Value()` returns a tagged `KeyValue`, because a Go
  map keyed by `any` keeps an `int` 5 and an `int64` 5 apart. `HashCode(stringHash)` gives the routing hash.
- `Routing` (`routing.dfy`): Go's `&` on signed integers, modelled as two's-complement AND on unbounded
  integers (`BitAnd`). It also holds the power-of-two predicate and `PartitionIndex`, the routing
  expression. For a power-of-two bucket count, the proved facts are:
  - the mask gives the Euclidean `hash mod buckets` for every hash, including negative ones;
  - `n & (n - 1) == 0` accepts exactly the powers of two.
- `Partitions` (`partition.dfy`): the class `Partition` with its `ctx` table field and the `Get`/`Put`/`Remove`
  methods.
- `Sharding` (`sharding.dfy`): the spec on values. It defines a sequence of tables, the routing invariant
  `Routed`, the abstract map `Union` and the size sum `TotalSize`. Its lemmas show how lookups, puts,
  removes and the size sum on the routed tables relate to the abstract map.
- `ConcurrentMaps` (`concurrent_map.dfy`): the facade class `ConcurrentMap` and `NewConcurrentMap`, plus the
  typed `*KeyInt`/`*KeyInt64`/`*KeyString` wrappers.
  - `WellFormed()` is the structural shape: a power-of-two count of distinct partitions. This is all that
    the source's operations need.
  - `Valid()` adds the invariant that every entry sits in the partition its key routes to.
  - `Contents()` is the single abstract map the partitions represent.
  - `NewConcurrentMap` establishes `Valid()`, and `Put`/`Remove` preserve it.
  - In a valid map, `Get`, `Has`, `GetString` and `UnsafeLength` answer from `Contents()`.
- `MapScenarios` (`scenarios.dfy`): the cases of the repository's tests, and client-level properties
  proved from the contracts alone:
  - read-your-write;
  - last write wins;
  - remove-then-absent;
  - `IntKey(5)` and `Int64Key(5)` are distinct entries;
  - K distinct puts into a fresh map give a length of K.

Inputs and parameters:

- The hash of string keys is not in the files modelled. The map takes it as a constructor parameter
  `stringHash: string -> int64`, and every property is proved for all such functions.
- The `%v` rendering used by `GetString` is the parameter `render`.
- Stored values are a type parameter `V`.

Where the code and its own text disagree:

- The construction error reads "capacity must be an integer multiple of 2". The check at
  default_concurrent_map.go:228-231 is `capacity & (capacity - 1) == 0`, so 6 and 10 are refused. The model
  follows the check (`NewConcurrentMap`, `MapScenarios.CapacityChecks`) and keeps the message text.
- The comment at default_concurrent_map.go:206 says the mask stands for `%`. Go's `%` truncates toward zero,
  so it would give a negative index for a negative hash. The mask always gives the Euclidean remainder,
  which is what `Routing.PartitionIndex` states.

## Model

| member | source | states |
|---|---|---|
| `Keys.NewIntKey` | int_key.go:23-33 | the key built from `src` has value `IntV(src)`, and its hash code is `src` widened to int64 |
| `Keys.NewInt64Key` | int64_key.go:23-33 | the key built from `src` has value `Int64V(src)`, and its hash code is `src` itself |
| `Keys.NewStringKey` | default_concurrent_map.go:56-58 | a string key has the string as its value and `stringHash(src)` as its hash code |
| `Keys.SameValueSameKey` | int_key.go:19-29 | keys with the same table value are the same key, so they have the same hash code and route alike |
| `Keys.IntAndInt64KeysDiffer` | int64_key.go:23-29 | `IntKey(x)` and `Int64Key(x)` have equal hash codes but different table values |
| `Routing.BitAnd` | default_concurrent_map.go:206 | `a & mask` never exceeds a non-negative mask, whatever the sign of `a` |
| `Routing.AndMaskIsMod` | default_concurrent_map.go:206 | for a power of two `n` and every integer `a`, including negative ones, `a & (n - 1)` is the Euclidean `a mod n` |
| `Routing.AndPredecessorIsZero` | default_concurrent_map.go:228-231 | for `n >= 1`, `n & (n - 1) == 0` holds exactly when `n` is a power of two |
| `Routing.PartitionIndex` | default_concurrent_map.go:205-209 | the routed index lies in `[0, buckets)`; for a power-of-two bucket count it equals `hash mod buckets` |
| `Partitions.Partition.constructor` | partition.go:32-36 | `createPartition` gives a partition with an empty table |
| `Partitions.Partition.Get` | partition.go:38-45 | the result is present exactly when `key.Value()` is in the table, and then it is the stored value; the table is not modified |
| `Partitions.Partition.Put` | partition.go:47-52 | the new table is the old one with `key.Value()` mapped to `v` (insert or overwrite) |
| `Partitions.Partition.Remove` | partition.go:54-59 | the new table is the old one without `key.Value()` |
| `Partitions.PutLaws` | partition.go:47-52 | after a put, the key maps to the new value and every other entry is unchanged; the size grows only for a new key; a repeated put changes nothing |
| `Partitions.RemoveLaws` | partition.go:54-59 | after a remove, the key is absent and every other entry is unchanged; removing an absent key is a no-op; the size drops only when the key was present |
| `Sharding.Slot` | default_concurrent_map.go:205-209 | a stored value's partition is the index its key's hash routes to, and it is below the bucket count |
| `Sharding.UnionLookup` | default_concurrent_map.go:64-71 | in routed tables, a key is in the abstract map exactly when the partition it routes to holds it, with the same value |
| `Sharding.UnionSize` | default_concurrent_map.go:211-220 | in routed tables, the sum of the table sizes equals the number of distinct keys in the abstract map |
| `Sharding.EmptyTables` | default_concurrent_map.go:233-241 | a group of empty tables is routed, holds nothing and has size 0 |
| `Sharding.UnionPut` | default_concurrent_map.go:33-38 | writing into the routed partition keeps the tables routed and is the same write on the abstract map |
| `Sharding.UnionRemove` | default_concurrent_map.go:111-117 | deleting from the routed partition keeps the tables routed and is the same delete on the abstract map |
| `ConcurrentMaps.ConcurrentMap.constructor` | default_concurrent_map.go:238-241 | the struct literal records the partitions, the bucket count and the string hash, and the result is well formed |
| `ConcurrentMaps.ConcurrentMap.DeterminePartition` | default_concurrent_map.go:205-209 | a key's partition is the one at index `HashCode() mod buckets`, which is also the slot of its table value |
| `ConcurrentMaps.ConcurrentMap.Lookup` | default_concurrent_map.go:64-71 | what the map sees under a key, read from the key's routed partition, is in a valid map present exactly when the key is in the abstract map, with the abstract map's value |
| `ConcurrentMaps.ConcurrentMap.RoutedEntryIsContentsEntry` | default_concurrent_map.go:205-209 | in a valid map, the partition a key routes to holds the key exactly when the abstract map does, with the same value |
| `ConcurrentMaps.ConcurrentMap.Put` | default_concurrent_map.go:33-38 | only the routed partition changes, and its new table is the old one with the key mapped to the value; `Get` then gives the new value; every other key's lookup is unchanged; validity is kept and the abstract map gets the write; the same map is returned |
| `ConcurrentMaps.ConcurrentMap.Remove` | default_concurrent_map.go:111-117 | only the routed partition changes, and its new table is the old one without the key; the key is then absent; every other key's lookup is unchanged; validity is kept and the abstract map loses the key; the same map is returned |
| `ConcurrentMaps.ConcurrentMap.Get` | default_concurrent_map.go:64-71 | returns the value in the routed partition and true, or `standBy` and false when it is absent |
| `ConcurrentMaps.ConcurrentMap.GetString` | default_concurrent_map.go:102-109 | returns the rendered value and true when found, and `""` and false when absent |
| `ConcurrentMaps.ConcurrentMap.Has` | default_concurrent_map.go:143-149 | true exactly when the routed partition holds the key |
| `ConcurrentMaps.ConcurrentMap.UnsafeLength` | default_concurrent_map.go:211-220 | the sum of all partition table sizes; in a valid map, the number of distinct stored keys |
| `ConcurrentMaps.ConcurrentMap.PutKeyInt` | default_concurrent_map.go:40-46 | has the effect of `Put` with `NewIntKey(key)` |
| `ConcurrentMaps.ConcurrentMap.PutKeyInt64` | default_concurrent_map.go:48-54 | has the effect of `Put` with `NewInt64Key(key)` |
| `ConcurrentMaps.ConcurrentMap.PutKeyString` | default_concurrent_map.go:56-62 | has the effect of `Put` with `NewStringKey(key)` |
| `ConcurrentMaps.ConcurrentMap.GetKeyInt` | default_concurrent_map.go:73-80 | answers as `Get` with `NewIntKey(key)` |
| `ConcurrentMaps.ConcurrentMap.GetKeyInt64` | default_concurrent_map.go:82-89 | answers as `Get` with `NewInt64Key(key)` |
| `ConcurrentMaps.ConcurrentMap.GetKeyString` | default_concurrent_map.go:91-98 | answers as `Get` with `NewStringKey(key)` |
| `ConcurrentMaps.ConcurrentMap.RemoveKeyInt` | default_concurrent_map.go:119-125 | has the effect of `Remove` with `NewIntKey(key)` |
| `ConcurrentMaps.ConcurrentMap.RemoveKeyInt64` | default_concurrent_map.go:127-133 | has the effect of `Remove` with `NewInt64Key(key)` |
| `ConcurrentMaps.ConcurrentMap.RemoveKeyString` | default_concurrent_map.go:135-141 | has the effect of `Remove` with `NewStringKey(key)` |
| `ConcurrentMaps.ConcurrentMap.HasKeyInt` | default_concurrent_map.go:151-157 | answers as `Has` with `NewIntKey(key)` |
| `ConcurrentMaps.ConcurrentMap.HasKeyInt64` | default_concurrent_map.go:159-165 | answers as `Has` with `NewInt64Key(key)` |
| `ConcurrentMaps.ConcurrentMap.HasKeyString` | default_concurrent_map.go:167-173 | answers as `Has` with `NewStringKey(key)` |
| `ConcurrentMaps.NewConcurrentMap` | default_concurrent_map.go:224-242 | fails with the capacity message exactly when capacity < 2 or is not a power of two. Otherwise it returns a valid, empty map with `buckets == capacity` and `capacity` fresh, empty, distinct partitions |
| `MapScenarios.PutThenGetString` | default_concurrent_map_test.go:8-59 | a put into an empty two-partition map is read back by `GetString` as ("Ak47", true), whatever the key's hash |
| `MapScenarios.SharkchiliRoutesToZero` | default_concurrent_map_test.go:93 | with hash 256048774, "sharkchili" is routed to partition 0 of 2 |
| `MapScenarios.GetFromRoutedPartition` | default_concurrent_map_test.go:77-97 | with the entry in partition 0, `Get` returns ("Ak47", true) |
| `MapScenarios.GetMissesMisplacedEntry` | default_concurrent_map_test.go:98-119 | with the entry in partition 1, `Get` looks only in partition 0 and returns ("standBy", false) |
| `MapScenarios.CapacityChecks` | default_concurrent_map.go:224-236 | capacities 0, 1, 3 and 6 are refused; 2, 4 and 16 give maps with that many partitions |
| `MapScenarios.WriteThenOverwrite` | default_concurrent_map.go:33-71 | on a fresh map, put then get gives (v1, true), and a second put of the same key then gives (v2, true) |
| `MapScenarios.RemoveThenAbsent` | default_concurrent_map.go:111-149 | on a fresh map, put then remove then get gives (standBy, false), and a key with a different value is not present |
| `MapScenarios.PutIntAndInt64Five` | int_key.go:23-25 | putting `IntKey(5)` and `Int64Key(5)` leaves two entries, `IntV(5)` and `Int64V(5)` |
| `MapScenarios.IntAndInt64KeysAreSeparate` | int64_key.go:23-25 | `GetKeyInt(5)` and `GetKeyInt64(5)` return their own values, and the length is 2 |
| `MapScenarios.LengthAfterDistinctPuts` | default_concurrent_map.go:175-179 | after K keys with distinct values are put into a fresh map, `UnsafeLength` returns K |

## Left out

- Locking: the `sync.RWMutex` of each partition, and all concurrency. The model is sequential. It cannot
  express that `UnsafeLength` is not linearizable under concurrent writers.
- `String` and `fmt.Sprintf("%v", …)` are a foreign formatting call. `GetString` takes the rendering as a
  parameter `render`.
- The stubs `Length`, `GetBool`, `GetInt`, `GetInt64` and `GetFloat64` only panic; they have no behaviour to
  model.
- `Int64` is a widening from a 64-bit `int`, which is the identity here. Go's `int` is taken to be 64 bits
  wide, the same range as `int64`.
- concurrent_map.go is an interface declaration plus the `emptyString` constant. `GetString` uses `""`
  directly.
- The `StringKey` implementation and its hash are not part of this model. The hash is the parameter
  `stringHash`.
- Keys of caller-defined types (the `PartitionKey` interface is open). Only the `int`, `int64` and string
  variants are modelled.
- Values of type `any` are a type parameter `V`. A Go `(nil, false)` result of `partition.get` is `None`.
- `ConcurrentMaps.ConcurrentMap.UnsafeLength`: returns an unbounded `nat`, not an int64 counter. The
  source's int64 sum could only wrap around with more than 2^63 stored entries.
- The struct-literal constructor requires a power-of-two count of distinct partitions. A literal that
  breaks this, for example with one partition shared at two indices, is not modelled.
