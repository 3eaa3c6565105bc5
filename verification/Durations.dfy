/** Nanosecond durations, as in Go's time package, and the doubling that backoff and retries share. */
module Durations {
  const SECOND: nat := 1_000_000_000
  const MINUTE: nat := 60 * SECOND
  const HOUR: nat := 60 * MINUTE
  const MAX_INT64: nat := 0x7fff_ffff_ffff_ffff

  function Min(a: int, b: int): int { if a < b then a else b }

  function Max(a: int, b: int): int { if a < b then b else a }

  function Power(n: nat): nat { if n == 0 then 1 else 2 * Power(n - 1) }

  lemma PowerStep(base: nat, n: nat)
    ensures base * Power(n + 1) == 2 * (base * Power(n))
  {
  }

  lemma {:induction false} PowerGrows(base: nat, n: nat, m: nat)
    requires n <= m
    ensures base * Power(n) <= base * Power(m)
    decreases m
  {
    if n < m {
      PowerGrows(base, n, m - 1);
      PowerStep(base, m - 1);
    }
  }
}
