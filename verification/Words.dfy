/** 32- and 64-bit unsigned arithmetic. */
module Words {
  import opened Domain

  const U64: int := 0x1_0000_0000_0000_0000

  function Wrap64(x: int): int { x % U64 }

  /** Unary minus on a 32-bit unsigned value, as it is widened to a 64-bit signed argument. */
  function Negate32(x: uint32): int { if x == 0 then 0 else U32 - x }

  predicate Congruent(a: int, b: int) { a % U32 == b % U32 }

  lemma {:induction false} CongruentDifference(a: int, b: int, k: int)
    requires a - b == k * U32
    ensures Congruent(a, b)
  {
    assert a == b + k * U32;
    var q := b / U32;
    assert b == q * U32 + b % U32;
    assert a == (q + k) * U32 + b % U32;
    Remainder(a, q + k, b % U32);
  }

  lemma {:induction false} Remainder(a: int, q: int, r: int)
    requires a == q * U32 + r && 0 <= r < U32
    ensures a % U32 == r
  {
  }

  lemma {:induction false} CongruentSum(a: int, b: int, x: int, y: int)
    requires Congruent(a, b) && Congruent(x, y)
    ensures Congruent(a + x, b + y)
  {
    var k := a / U32 - b / U32 + x / U32 - y / U32;
    CongruentDifference(a + x, b + y, k);
  }

  /** Wrapping a sum to 64 bits keeps it right modulo 2^32. */
  lemma {:induction false} WrapKeepsLow(a: int)
    ensures Congruent(Wrap64(a), a)
  {
    assert U64 == U32 * U32;
    var q := a / U64;
    assert a == q * U64 + Wrap64(a);
    CongruentDifference(Wrap64(a), a, -q * U32);
  }

  lemma {:induction false} NegateIsMinus(x: uint32)
    ensures Congruent(Negate32(x), -(x as int))
  {
    CongruentDifference(Negate32(x), -(x as int), if x == 0 then 0 else 1);
  }

  /** A 64-bit total that is right modulo 2^32 stays so under an addition. */
  lemma {:induction false} WrappedSum(total: int, depth: int, delta: int, change: int)
    requires Congruent(total, depth) && Congruent(delta, change)
    ensures Congruent(Wrap64(total + delta), depth + change)
  {
    CongruentSum(total, depth, delta, change);
    WrapKeepsLow(total + delta);
  }
}
