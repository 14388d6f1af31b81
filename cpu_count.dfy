/**
 * Pool size of `C2W.set_cpu_num`: one worker on hosts with at most two
 * CPUs, otherwise `round(n * 0.75)`. The product is computed here in
 * exact integers as a quarter of `3 * n`, rounded as Python's `round`
 * does: to the nearest integer, ties to the even one.
 */
module CpuCount {

  /** `r` is `m / 4` rounded to the nearest integer, ties to even. */
  ghost predicate IsRoundHalfEven(m: int, r: int) {
    -2 <= 4 * r - m <= 2 && (4 * r - m == 2 || 4 * r - m == -2 ==> r % 2 == 0)
  }

  /** `round(m / 4)` with round-half-even, by quotient and remainder. */
  function RoundQuarter(m: int): (r: int)
    ensures IsRoundHalfEven(m, r)
  {
    var q, rem := m / 4, m % 4;
    if rem < 2 then q
    else if rem > 2 then q + 1
    else if q % 2 == 0 then q
    else q + 1
  }

  /** Round-half-even names exactly one integer. */
  lemma RoundHalfEvenUnique(m: int, r: int)
    requires IsRoundHalfEven(m, r)
    ensures r == RoundQuarter(m)
  {
  }

  /** `set_cpu_num` with the CPU count `n` as a parameter. */
  function SetCpuNum(n: int): (r: int)
    ensures n <= 2 ==> r == 1
    ensures n > 2 ==> IsRoundHalfEven(3 * n, r)
    ensures n > 2 ==> 2 <= r < n
    ensures 1 <= r && (n >= 1 ==> r <= n)
  {
    if n > 2 then RoundQuarter(3 * n) else 1
  }
}
