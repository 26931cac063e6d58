/** Small shared definitions. */
module Prelude {
  datatype Option<+T> = None | Some(value: T)

  function Min(a: int, b: int): int { if a <= b then a else b }

  function Max(a: int, b: int): int { if a >= b then a else b }

  /** 2 to the power n. */
  function Pow2(n: nat): nat { if n == 0 then 1 else 2 * Pow2(n - 1) }

  /** Retry delay shared by both workers: min(300, 2 ** min(attempts, 8)) seconds. */
  function Backoff(attempts: nat): (delay: nat)
    ensures 1 <= delay <= 256
  {
    var exponent := if attempts <= 8 then attempts else 8;
    Pow2Bounds(exponent);
    Min(300, Pow2(exponent))
  }

  lemma {:induction false} Pow2Bounds(n: nat)
    requires n <= 8
    ensures 1 <= Pow2(n) <= 256
  {
    assert Pow2(8) == 256 by {
      assert Pow2(2) == 4 && Pow2(4) == 16 && Pow2(6) == 64;
    }
    if n < 8 { Pow2Growth(n, 8); }
  }

  lemma {:induction false} Pow2Growth(m: nat, n: nat)
    requires m <= n
    ensures 1 <= Pow2(m) <= Pow2(n)
    decreases n - m, m
  {
    if m < n {
      Pow2Growth(m + 1, n);
    } else if m > 0 {
      Pow2Growth(m - 1, m - 1);
    }
  }
}
