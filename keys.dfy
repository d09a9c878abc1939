/**
 * Partition keys (int_key.go, int64_key.go and the string key).
 *
 * A key exposes two things: a 64-bit hash code, which decides the partition,
 * and an underlying value, which is what the partition table is keyed by.
 * Go's `Value()` returns `any`, and a Go map keyed by `any` compares the
 * dynamic type as well as the value, so the stored value is a tagged datatype.
 */
module Keys {

  /** Go's int64. Go's `int` is taken to be 64 bits wide and uses the same range. */
  newtype int64 = x: int | -0x8000_0000_0000_0000 <= x < 0x8000_0000_0000_0000

  /** What `key.Value()` puts into a table: the dynamic type is part of the identity. */
  datatype KeyValue = IntV(i: int64) | Int64V(i: int64) | StrV(s: string)

  datatype PartitionKey = IntKey(value: int64) | Int64Key(value: int64) | StringKey(text: string)
  {
    /** The value used as the table key. */
    function Value(): KeyValue
    {
      match this
      case IntKey(n) => IntV(n)
      case Int64Key(n) => Int64V(n)
      case StringKey(s) => StrV(s)
    }

    /**
     * The hash code used for routing. Integer keys use their own value
     * (widened to 64 bits for `int`); the string hash is not part of this
     * model and is passed in as `stringHash`.
     */
    function HashCode(stringHash: string -> int64): int64
    {
      match this
      case IntKey(n) => n
      case Int64Key(n) => n
      case StringKey(s) => stringHash(s)
    }
  }

  function NewIntKey(src: int64): (key: PartitionKey)
    ensures key.Value() == IntV(src)
    ensures forall stringHash: string -> int64 :: key.HashCode(stringHash) == src
  {
    IntKey(src)
  }

  function NewInt64Key(src: int64): (key: PartitionKey)
    ensures key.Value() == Int64V(src)
    ensures forall stringHash: string -> int64 :: key.HashCode(stringHash) == src
  {
    Int64Key(src)
  }

  function NewStringKey(src: string): (key: PartitionKey)
    ensures key.Value() == StrV(src)
    ensures forall stringHash: string -> int64 :: key.HashCode(stringHash) == stringHash(src)
  {
    StringKey(src)
  }

  /** The key a stored table value came from: `Value()` is one-to-one. */
  function KeyOf(kv: KeyValue): (key: PartitionKey)
    ensures key.Value() == kv
  {
    match kv
    case IntV(n) => IntKey(n)
    case Int64V(n) => Int64Key(n)
    case StrV(s) => StringKey(s)
  }

  /**
   * Keys that select the same table entry are the same key, so they also
   * have the same hash code and are routed to the same partition.
   */
  lemma SameValueSameKey(k1: PartitionKey, k2: PartitionKey, stringHash: string -> int64)
    requires k1.Value() == k2.Value()
    ensures k1 == k2 && KeyOf(k1.Value()) == k1
    ensures k1.HashCode(stringHash) == k2.HashCode(stringHash)
  {
  }

  /**
   * An `int` key and an `int64` key holding the same number hash alike but
   * are distinct table entries.
   */
  lemma IntAndInt64KeysDiffer(x: int64, stringHash: string -> int64)
    ensures NewIntKey(x).HashCode(stringHash) == NewInt64Key(x).HashCode(stringHash)
    ensures NewIntKey(x).Value() != NewInt64Key(x).Value()
  {
  }
}
