/** Two's-complement 64-bit integers. */
module Int64 {
  const TWO_TO_64: int := 0x1_0000_0000_0000_0000
  const MAX_INT64: int := 0x7FFF_FFFF_FFFF_FFFF
  const MIN_INT64: int := -MAX_INT64 - 1

  predicate IsInt64(x: int) {
    MIN_INT64 <= x <= MAX_INT64
  }

  /** What is left of a result in 64 bits. */
  function Wrap(x: int): int {
    var y := x % TWO_TO_64;
    if y <= MAX_INT64 then y else y - TWO_TO_64
  }

  /** The one 64-bit number that differs from the result by a multiple of 2^64. */
  predicate Represents(v: int, x: int) {
    IsInt64(v) && (x - v) % TWO_TO_64 == 0
  }

  lemma {:induction false} WrapRepresents(x: int, v: int)
    ensures Represents(v, x) <==> v == Wrap(x)
    ensures IsInt64(x) ==> Wrap(x) == x
  {
    var q := x / TWO_TO_64;
    assert x == q * TWO_TO_64 + x % TWO_TO_64;
    if Represents(v, x) {
      var d := (x - v) / TWO_TO_64;
      assert x - v == d * TWO_TO_64;
    }
  }
}
