/** internal/money: signed 64-bit minor units, added exactly and range-checked once. */
module Money {
  import opened Wrappers

  const MAX_INT64: int := 0x7fff_ffff_ffff_ffff
  const MIN_INT64: int := -0x8000_0000_0000_0000

  predicate Fits(n: int) { MIN_INT64 <= n <= MAX_INT64 }

  const WORD: int := 0x1_0000_0000_0000_0000

  /** Wrap-around of a signed 64-bit result. */
  function Wrap(n: int): int {
    var low := n % WORD;
    if low > MAX_INT64 then low - WORD else low
  }

  lemma WrapKeepsInRange(n: int)
    ensures Fits(Wrap(n)) && (Fits(n) ==> Wrap(n) == n)
  {
    if 0 <= n <= MAX_INT64 { assert n % WORD == n; }
    if MIN_INT64 <= n < 0 { assert (n + WORD) % WORD == n + WORD && n % WORD == n + WORD; }
  }

  datatype Overflow = Overflow

  /** Accumulator.Amount: the exact total, when it is representable. */
  function Amount(total: int): Result<int, Overflow> {
    if Fits(total) then Ok(total) else Err(Overflow)
  }

  /** Amount.Add. */
  function Plus(a: int, b: int): Result<int, Overflow> {
    if Fits(a + b) then Ok(a + b) else Err(Overflow)
  }
}
