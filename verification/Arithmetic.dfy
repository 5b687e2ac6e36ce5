/** Products and quotients of integers, kept apart from the proofs that need them. */
module Arithmetic {

  lemma TimesMonotone(m: int, n: int, c: int)
    requires m <= n && c >= 0
    ensures m * c <= n * c
  {
  }

  lemma NextTimes(m: int, c: int)
    ensures (m + 1) * c == m * c + c
  {
  }

  lemma BelowNextMultiple(y: int, c: int)
    requires c > 0
    ensures y / c * c <= y < (y / c + 1) * c
  {
    NextTimes(y / c, c);
  }

  /** A multiple that fits is at most the quotient. */
  lemma AtMostQuotient(k: int, y: int, c: int)
    requires c > 0 && k * c <= y
    ensures k <= y / c
  {
    var q := y / c;
    BelowNextMultiple(y, c);
    if q < k {
      TimesMonotone(q + 1, k, c);
    }
  }
}
