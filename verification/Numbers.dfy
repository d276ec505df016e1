/** Machine-integer conventions shared by the model.

    Quantities, prices and balances are natural numbers; wherever the program checks a 64-bit
    bound, wraps, or casts to a signed integer, the model says so with the definitions below. */
module Numbers {
  const U64_MAX: nat := 0xFFFF_FFFF_FFFF_FFFF
  const I64_MAX: nat := 0x7FFF_FFFF_FFFF_FFFF
  const TWO_64: nat := 0x1_0000_0000_0000_0000
  const U32_LIMIT: nat := 0x1_0000_0000

  type byte = x: int | 0 <= x < 256

  /** `wrapping_add` on u64. */
  function WrapAdd(x: nat, n: nat): nat {
    (x + n) % TWO_64
  }

  /** The signed 64-bit number with the same low bits: the cast `x as i64` of a u64 value, and what
      wrapping i64 arithmetic makes of a result. */
  function AsI64(x: int): int {
    var low := x % TWO_64;
    if low <= I64_MAX then low else low - TWO_64
  }

  /** `-x` on i64. */
  function NegI64(x: int): int {
    AsI64(-x)
  }

  /** `x + y` on i64. */
  function AddI64(x: int, y: int): int {
    AsI64(x + y)
  }

  /** How often an amount wraps around when it is stored as an i64, and how often its negative does. */
  function Wraps(n: nat): nat {
    (n - AsI64(n)) / TWO_64
  }

  function WrapsDown(n: nat): nat {
    (AsI64(-(n as int)) + n) / TWO_64
  }

  ghost predicate StrictlyIncreasing(s: seq<nat>) {
    forall i, j :: 0 <= i < j < |s| ==> s[i] < s[j]
  }

  function Min(x: nat, y: nat): nat {
    if x <= y then x else y
  }

  /** Storing a number as an i64 keeps it but for a multiple of 2^64. */
  lemma CastOf(x: int) returns (k: int)
    ensures AsI64(x) == x - TWO_64 * k && -(I64_MAX as int) - 1 <= AsI64(x) <= I64_MAX
  {
    var q := x / TWO_64;
    assert x == q * TWO_64 + x % TWO_64;
    k := if x % TWO_64 <= I64_MAX then q else q + 1;
  }

  /** Numbers that differ by a multiple of 2^64 are stored alike. */
  lemma SameWord(x: int, y: int, k: int)
    requires x == y + TWO_64 * k
    ensures AsI64(x) == AsI64(y)
  {
    var i := CastOf(x);
    var j := CastOf(y);
    assert AsI64(x) - AsI64(y) == TWO_64 * (k - i + j);
  }

  /** What is stored for an amount and for its negative. */
  lemma StoredAmount(n: nat)
    ensures AsI64(n) == n - TWO_64 * Wraps(n)
    ensures AsI64(-(n as int)) == TWO_64 * WrapsDown(n) - n
    ensures NegI64(AsI64(n)) == TWO_64 * WrapsDown(n) - n
    ensures WrapsDown(n) == 0 || (I64_MAX + 2) * WrapsDown(n) <= n
  {
    hide AsI64;
    var i := CastOf(n);
    var j := CastOf(-(n as int));
    SameWord(-AsI64(n), -(n as int), i);
    assert n - AsI64(n) == TWO_64 * i && AsI64(-(n as int)) + n == TWO_64 * -j;
  }

  /** Negating a wrapping sum is negating the sum. */
  lemma StoredSum(x: nat, y: nat)
    ensures NegI64(AddI64(AsI64(x), AsI64(y))) == TWO_64 * WrapsDown(x + y) - (x + y)
  {
    hide AsI64, Wraps, WrapsDown;
    var i := CastOf(x);
    var j := CastOf(y);
    var k := CastOf(AsI64(x) + AsI64(y));
    StoredAmount(x + y);
    assert -AddI64(AsI64(x), AsI64(y)) == -((x + y) as int) + TWO_64 * (i + j + k);
    SameWord(-AddI64(AsI64(x), AsI64(y)), -((x + y) as int), i + j + k);
  }

  /** A u64 value wraps from 2^63 on, its negative from 2^63 + 1 on. */
  lemma WrapsOfWord(n: nat)
    requires n <= U64_MAX
    ensures Wraps(n) == if n <= I64_MAX then 0 else 1
    ensures WrapsDown(n) == if n <= I64_MAX + 1 then 0 else 1
    ensures AsI64(n) == if n <= I64_MAX then n else n - TWO_64
  {
    StoredAmount(n);
  }

  /** Adding step by step wraps like adding once. */
  lemma WrapAddTwice(x: nat, n: nat, k: nat)
    ensures WrapAdd(WrapAdd(x, n), k) == WrapAdd(x, n + k)
  {
    var q := (x + n) / TWO_64;
    assert x + n == q * TWO_64 + WrapAdd(x, n);
    assert x + n + k == q * TWO_64 + (WrapAdd(x, n) + k);
    ModAddMultiple(WrapAdd(x, n) + k, q);
  }

  lemma {:induction false} ModAddMultiple(x: nat, q: nat)
    ensures (q * TWO_64 + x) % TWO_64 == x % TWO_64
    decreases q
  {
    if q > 0 {
      ModAddMultiple(x, q - 1);
      assert q * TWO_64 + x == ((q - 1) * TWO_64 + x) + TWO_64;
    }
  }
}
