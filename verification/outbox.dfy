/** Delivery policy: lease, retry backoff and dead-lettering limits. */
module Outbox {
  import opened Calendar

  const MINUTE := 60 * NANOS_PER_SECOND

  datatype Policy = Policy(maxAttempts: int, baseBackoff: int, maxBackoff: int, leaseTtl: int)

  const DEFAULT_POLICY := Policy(8, NANOS_PER_SECOND, 5 * MINUTE, MINUTE)

  function Normalise(p: Policy): Policy {
    Policy(
      if p.maxAttempts <= 0 then DEFAULT_POLICY.maxAttempts else p.maxAttempts,
      if p.baseBackoff <= 0 then DEFAULT_POLICY.baseBackoff else p.baseBackoff,
      if p.maxBackoff <= 0 then DEFAULT_POLICY.maxBackoff else p.maxBackoff,
      if p.leaseTtl <= 0 then DEFAULT_POLICY.leaseTtl else p.leaseTtl)
  }

  /** The lease a claim honours; a policy without one gets a minute. */
  function Lease(p: Policy): int { if p.leaseTtl <= 0 then MINUTE else p.leaseTtl }

  function Pow2(n: nat): int { if n == 0 then 1 else 2 * Pow2(n - 1) }

  function Min(a: int, b: int): int { if a < b then a else b }

  /** The delay promised after `attempts` deliveries: the base doubled once per further attempt, capped. */
  function Backoff(p: Policy, attempts: int): int {
    var q := Normalise(p);
    Min(q.maxBackoff, q.baseBackoff * Pow2(if attempts < 1 then 0 else attempts - 1))
  }

  lemma {:induction false} DoublingGrows(base: int, n: nat, m: nat)
    requires 0 < base && n <= m
    ensures 0 < base * Pow2(n) <= base * Pow2(m)
    decreases m
  {
    if n < m {
      DoublingGrows(base, n, m - 1);
      assert base * Pow2(m) == 2 * (base * Pow2(m - 1));
    } else if 0 < m {
      DoublingGrows(base, n - 1, m - 1);
      assert base * Pow2(m) == 2 * (base * Pow2(m - 1));
    }
  }

  /** The original's early-stopping doubling loop computes the capped exponential exactly. */
  method RetryDelay(p: Policy, attempts: int) returns (delay: int)
    ensures delay == Backoff(p, attempts)
  {
    var base := if p.baseBackoff <= 0 then NANOS_PER_SECOND else p.baseBackoff;
    var maximum := if p.maxBackoff <= 0 then 5 * MINUTE else p.maxBackoff;
    ghost var last: nat := if attempts < 1 then 0 else attempts - 1;
    delay := base;
    var i := 1;
    while i < attempts && delay < maximum
      invariant 1 <= i && (i <= attempts || i == 1)
      invariant delay == base * Pow2(i - 1)
    {
      delay := delay * 2;
      i := i + 1;
    }
    DoublingGrows(base, i - 1, last);
    if delay > maximum {
      delay := maximum;
    }
  }

  /** Backoff never shrinks from one attempt to the next and stays within the policy's bounds. */
  lemma BackoffGrows(p: Policy, attempts: int)
    ensures 0 < Backoff(p, attempts) <= Backoff(p, attempts + 1) <= Normalise(p).maxBackoff
  {
    var n: nat := if attempts < 1 then 0 else attempts - 1;
    DoublingGrows(Normalise(p).baseBackoff, n, if attempts + 1 < 1 then 0 else attempts);
  }

  /** The first delay is the base, and every further one is twice the one before, both cut at the maximum. */
  lemma BackoffDoubles(p: Policy, attempts: int)
    ensures var base := if p.baseBackoff <= 0 then 1_000_000_000 else p.baseBackoff;
            var maximum := if p.maxBackoff <= 0 then 300_000_000_000 else p.maxBackoff;
            if attempts <= 1 then Backoff(p, attempts) == (if base < maximum then base else maximum)
            else
              var twice := 2 * Backoff(p, attempts - 1);
              Backoff(p, attempts) == (if twice < maximum then twice else maximum)
  {
    if 1 < attempts {
      DoublingGrows(Normalise(p).baseBackoff, attempts - 2, attempts - 2);
      assert Normalise(p).baseBackoff * Pow2(attempts - 1) == 2 * (Normalise(p).baseBackoff * Pow2(attempts - 2));
    }
  }

  /** Normalising fills what is missing with eight attempts, a second, five minutes and a minute, and keeps what is given. */
  lemma NormaliseFills(p: Policy)
    ensures var q := Normalise(p);
            && q.maxAttempts == (if 0 < p.maxAttempts then p.maxAttempts else 8)
            && q.baseBackoff == (if 0 < p.baseBackoff then p.baseBackoff else 1_000_000_000)
            && q.maxBackoff == (if 0 < p.maxBackoff then p.maxBackoff else 300_000_000_000)
            && q.leaseTtl == Lease(p) == (if 0 < p.leaseTtl then p.leaseTtl else 60_000_000_000)
            && Normalise(q) == q && forall n :: Backoff(q, n) == Backoff(p, n)
  {
    hide Pow2;
  }
}
