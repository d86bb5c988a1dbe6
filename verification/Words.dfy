/** Fixed-width machine integers and byte strings shared by every component. */
module Words {

  datatype Option<+T> = None | Some(value: T)

  /** Two's-complement limits of Go's `uint64` and 64-bit `int`. */
  const TWO_64: int := 0x1_0000_0000_0000_0000
  const TWO_63: int := 0x8000_0000_0000_0000

  type byte = b: int | 0 <= b < 256
  type Bytes = seq<byte>
  type uint64 = n: int | 0 <= n < TWO_64

  /** `uint64` addition, subtraction and the conversion `int(x)`, all of which wrap in Go. */
  function Add64(a: uint64, n: nat): uint64 { (a + n) % TWO_64 }

  function Sub64(a: uint64, b: uint64): uint64 { (a - b) % TWO_64 }

  function ToInt(x: uint64): int { if x < TWO_63 then x else x - TWO_64 }

  function Add8(a: byte, n: nat): byte { (a as int + n) % 256 }

  /** Addition is exact up to the limit and starts again from zero there. */
  lemma Add64Exact(a: uint64, n: nat)
    requires n < 0x1_0000_0000_0000_0000
    ensures Add64(a, n) == if a + n < 0x1_0000_0000_0000_0000 then a + n else a + n - 0x1_0000_0000_0000_0000
  {
  }

  /** `int(a - b)` is the true signed difference exactly when that difference fits in 64 bits. */
  lemma SignedDifference(a: uint64, b: uint64)
    ensures ToInt(Sub64(a, b)) == a - b <==> -TWO_63 <= a - b < TWO_63
  {
    if a < b {
      assert (a - b) % TWO_64 == a - b + TWO_64;
    }
  }

  /** Advancing a wrapped counter step by step is the same as advancing it at once. */
  lemma Add64Step(a: uint64, n: nat)
    ensures Add64(Add64(a, n), 1) == Add64(a, n + 1)
  {
    var q, r := (a + n) / TWO_64, (a + n) % TWO_64;
    assert a + n + 1 == q * TWO_64 + (r + 1);
  }

  /** Without a borrow, wrapped subtraction is subtraction. */
  lemma Sub64Small(a: uint64, b: uint64)
    requires b <= a
    ensures Sub64(a, b) == a - b
  {
  }

  /** Wrapped counters meet again exactly after multiples of 2^64 steps. */
  lemma Add64Same(a: uint64, m: nat, n: nat)
    requires m <= n
    ensures Add64(a, m) == Add64(a, n) <==> (n - m) % TWO_64 == 0
  {
    assert (a + n) - (a + m) == n - m;
  }
}
