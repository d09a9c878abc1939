/**
 * Routing arithmetic (default_concurrent_map.go, `determinePartition` and the
 * capacity check of `NewConcurrentMap`).
 *
 * Go's `&` on int64 is modelled on unbounded integers in two's complement:
 * `a / 2` (floor division, an arithmetic shift right) and `a % 2` (the low
 * bit) are the same for an int64 and for its sign extension, so for a
 * non-negative mask `BitAnd` agrees with the 64-bit operation on every int64,
 * negative ones included.
 */
module Routing {
  import opened Keys

  /** `a & mask` for any integer `a` and a non-negative `mask`. */
  function BitAnd(a: int, mask: nat): (r: nat)
    ensures r <= mask
    decreases mask
  {
    if mask == 0 then 0
    else 2 * BitAnd(a / 2, mask / 2) + (if a % 2 == 1 && mask % 2 == 1 then 1 else 0)
  }

  /** n is 1, 2, 4, 8, ... */
  predicate IsPowerOfTwo(n: int)
    decreases if n < 0 then 0 else n
  {
    n == 1 || (n >= 2 && n % 2 == 0 && IsPowerOfTwo(n / 2))
  }

  /** A positive multiple of a positive number is at least that number. */
  lemma MultipleAtLeast(d: int, k: int)
    requires d > 0 && k >= 1
    ensures d * k >= d
  {
  }

  /** Euclidean division is unique: a quotient and remainder in range determine `%`. */
  lemma ModOfDecomposition(a: int, d: int, q: int, r: int)
    requires d > 0 && 0 <= r < d && a == d * q + r
    ensures a % d == r
  {
    var q', r' := a / d, a % d;
    assert a == d * q' + r';
    if q < q' {
      assert d * (q' - q) == d * q' - d * q;
      MultipleAtLeast(d, q' - q);
    } else if q > q' {
      assert d * (q - q') == d * q - d * q';
      MultipleAtLeast(d, q - q');
    }
  }

  /** The low bit plus the remainder of the halved value give the remainder modulo 2m. */
  lemma ModOfDouble(a: int, m: int)
    requires m >= 1
    ensures a % (2 * m) == 2 * ((a / 2) % m) + a % 2
  {
    var h, b := a / 2, a % 2;
    var t, s := h / m, h % m;
    assert a == 2 * h + b;
    assert h == m * t + s;
    assert a == (2 * m) * t + (2 * s + b);
    ModOfDecomposition(a, 2 * m, t, 2 * s + b);
  }

  /** Masking with `n - 1` is the Euclidean remainder modulo a power of two `n`, for negative `a` too. */
  lemma {:induction false} AndMaskIsMod(a: int, n: int)
    requires IsPowerOfTwo(n)
    ensures BitAnd(a, n - 1) == a % n
    decreases if n < 0 then 0 else n
  {
    if n != 1 {
      var m := n / 2;
      assert (n - 1) / 2 == m - 1 && (n - 1) % 2 == 1;
      AndMaskIsMod(a / 2, m);
      ModOfDouble(a, m);
    }
  }

  lemma {:induction false} AndSelf(a: nat)
    ensures BitAnd(a, a) == a
  {
    if a != 0 {
      AndSelf(a / 2);
    }
  }

  /** The capacity check `n & (n - 1) == 0` accepts exactly the powers of two. */
  lemma {:induction false} AndPredecessorIsZero(n: int)
    requires n >= 1
    ensures BitAnd(n, n - 1) == 0 <==> IsPowerOfTwo(n)
  {
    if n == 1 {
    } else if n % 2 == 0 {
      var m := n / 2;
      assert (n - 1) / 2 == m - 1;
      AndPredecessorIsZero(m);
    } else {
      var m := n / 2;
      assert (n - 1) / 2 == m && (n - 1) % 2 == 0;
      AndSelf(m);
      assert BitAnd(n, n - 1) == 2 * m;
    }
  }

  /**
   * `hash & (buckets - 1)`: always a valid index for a positive bucket count,
   * and the Euclidean `hash mod buckets` when that count is a power of two.
   */
  function PartitionIndex(hash: int64, buckets: int64): (idx: nat)
    requires buckets >= 1
    ensures idx < buckets as int
    ensures IsPowerOfTwo(buckets as int) ==> idx == hash as int % buckets as int
  {
    var mask := buckets as int - 1;
    if IsPowerOfTwo(buckets as int) then
      AndMaskIsMod(hash as int, buckets as int);
      BitAnd(hash as int, mask)
    else
      BitAnd(hash as int, mask)
  }
}
