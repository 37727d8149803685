/** Counters that travel as 32 bits and are compared by distance, as in section 3.2 of RFC 1982. */
module SerialNumbers {

  const UINT32 := 0x1_0000_0000
  const HALF := 0x8000_0000

  type Word = n: nat | n < UINT32

  /** A distance of exactly half the number space orders neither way. */
  predicate SequenceBefore(a: nat, b: nat) {
    (a < b && b - a < HALF) || (a > b && a - b > HALF)
  }

  predicate SequenceAfter(a: nat, b: nat) { SequenceBefore(b, a) }

  function Wire(n: int): Word { n % UINT32 }

  /** Unsigned 32-bit subtraction. */
  function Offset(a: Word, b: Word): Word { (a - b) % UINT32 }

  lemma ModuloOf(n: int, k: int, r: int)
    requires n == k * UINT32 + r && 0 <= r < UINT32
    ensures n % UINT32 == r
  {
  }

  lemma OffsetIs(a: int, b: int)
    ensures Offset(Wire(a), Wire(b)) == Wire(a - b)
  {
    var x, y := Wire(a), Wire(b);
    var k := a / UINT32 - b / UINT32;
    assert a - b == k * UINT32 + (x - y);
    if x >= y {
      ModuloOf(a - b, k, x - y);
    } else {
      ModuloOf(a - b, k - 1, x - y + UINT32);
    }
  }

  lemma WrapDistance(a: nat, b: nat)
    requires a <= b
    ensures SequenceAfter(Wire(a), Wire(b)) <==> (b - a) % UINT32 > HALF
  {
    OffsetIs(b, a);
    var x, y := Wire(a), Wire(b);
    if y < x {
      ModuloOf(y - x, -1, y - x + UINT32);
    }
  }

  /** Within half the number space, the 32-bit comparison is the order of the counters. */
  lemma BeforeAgrees(a: int, b: int)
    requires -HALF < a - b < HALF
    ensures SequenceBefore(Wire(a), Wire(b)) <==> a < b
  {
    OffsetIs(a, b);
    var x, y := Wire(a), Wire(b);
    if a < b {
      ModuloOf(a - b, -1, a - b + UINT32);
    }
    if x < y {
      ModuloOf(x - y, -1, x - y + UINT32);
    }
  }

  /** And the 32-bit test for lying in a range is the plain one. */
  lemma RangeAgrees(n: int, first: int, count: nat)
    requires -HALF <= n - first < UINT32 && count <= HALF
    ensures Offset(Wire(n), Wire(first)) < count <==> first <= n < first + count
  {
    OffsetIs(n, first);
    if n < first {
      ModuloOf(n - first, -1, n - first + UINT32);
    }
  }
}
