/** Kotlin's 32-bit `Int` and the `and` operator, as far as the wire-type
    decoder uses them: two's-complement bit patterns and a bitwise AND on them. */
module KotlinInt {

  /** Values of Kotlin's `Int`. */
  type Int32 = x: int | -0x8000_0000 <= x < 0x8000_0000

  const TwoTo32: nat := 0x1_0000_0000

  function Pow2(k: nat): (p: nat)
    ensures p >= 1
  {
    if k == 0 then 1 else 2 * Pow2(k - 1)
  }

  /** The 32-bit two's-complement pattern of `x`, read as an unsigned number:
      it is below 2^32 and congruent to `x` modulo 2^32. */
  function Unsigned32(x: Int32): (u: nat)
    ensures u < TwoTo32
    ensures (u - x) % TwoTo32 == 0
    ensures 0 <= x ==> u == x
  {
    if x < 0 then x + TwoTo32 else x
  }

  /** Bitwise AND of two non-negative numbers, bit by bit from the lowest bit.
      A set bit of the result is set in both operands, so it is no larger than either. */
  function BitAnd(a: nat, b: nat): (r: nat)
    ensures r <= a && r <= b
  {
    if a == 0 || b == 0 then 0
    else 2 * BitAnd(a / 2, b / 2) + (if a % 2 == 1 && b % 2 == 1 then 1 else 0)
  }

  /** Kotlin's `x and 7` on an `Int`: the low three bits of its two's-complement
      pattern. It always lies in [0, 8) and, for negative `x` too, equals the
      Euclidean remainder `x % 8`, so no bounds check is needed to index an
      8-entry table with it. */
  function Low3Bits(x: Int32): (r: int)
    ensures 0 <= r < 8
    ensures r == x % 8
  {
    BitAndLowMask(Unsigned32(x), 3);
    SameRemainderMod8(Unsigned32(x), x);
    BitAnd(Unsigned32(x), 7)
  }

  /** Masking with 2^k - 1 keeps the low k bits: the remainder modulo 2^k. */
  lemma {:induction false} BitAndLowMask(n: nat, k: nat)
    ensures BitAnd(n, Pow2(k) - 1) == n % Pow2(k)
  {
    if k == 0 {
    } else if n == 0 {
    } else {
      var p := Pow2(k - 1);
      assert (Pow2(k) - 1) / 2 == p - 1;
      assert (Pow2(k) - 1) % 2 == 1;
      BitAndLowMask(n / 2, k - 1);
      RemainderOfDouble(n, p);
    }
  }

  /** Numbers congruent modulo 2^32 have the same remainder modulo 8. */
  lemma SameRemainderMod8(u: int, x: int)
    requires (u - x) % TwoTo32 == 0
    ensures u % 8 == x % 8
  {
    var q := (u - x) / TwoTo32;
    assert u == x + 8 * (q * 0x2000_0000);
    RemainderUnique(u, 8, x / 8 + q * 0x2000_0000, x % 8);
  }

  lemma RemainderOfDouble(n: nat, p: nat)
    requires p >= 1
    ensures n % (2 * p) == 2 * ((n / 2) % p) + n % 2
  {
    var q := n / 2;
    var s := q / p;
    assert q == p * s + q % p;
    assert n == (2 * p) * s + (2 * (q % p) + n % 2);
    RemainderUnique(n, 2 * p, s, 2 * (q % p) + n % 2);
  }

  lemma RemainderUnique(n: int, m: int, s: int, r: int)
    requires m > 0 && n == m * s + r && 0 <= r < m
    ensures n % m == r
  {
    var d := n / m - s;
    assert m * (n / m) + n % m == n;
    assert m * d == r - n % m by {
      assert m * d == m * (n / m) - m * s;
    }
  }
}
