/** Interest accrual and what it implies for payoff quotes. */
module Interest {
  import opened Shared
  import opened Money

  const MillisecondsPerYear := 31_536_000_000
  const Denominator := BasisPointScale * MillisecondsPerYear

  /** Interest stops at maturity, and a clock reading before origination accrues nothing. */
  function ClampElapsed(startedAt: Instant, maturesAt: Instant, now: Instant): int {
    if now < startedAt then 0
    else (if now > maturesAt then maturesAt else now) - startedAt
  }

  function Accrued(principal: int, rate: nat, startedAt: Instant, maturesAt: Instant, now: Instant): int {
    TruncatedQuotient(principal * rate * ClampElapsed(startedAt, maturesAt, now), Denominator)
  }

  /** On every loan the source can build the numerator is non-negative, so the truncating division is a
      floor: the figure is the largest whole number of minor units not above the exact interest. */
  lemma AccruedIsFloor(principal: int, rate: nat, startedAt: Instant, maturesAt: Instant, now: Instant)
    requires principal >= 0 && startedAt <= maturesAt
    ensures var owed := Accrued(principal, rate, startedAt, maturesAt, now);
            var until := if now >= maturesAt then maturesAt else if now <= startedAt then startedAt else now;
            0 <= owed && owed * Denominator <= principal * rate * (until - startedAt) < (owed + 1) * Denominator
  {
    NumeratorNonNegative(principal, rate, ClampElapsed(startedAt, maturesAt, now));
  }

  lemma NumeratorNonNegative(principal: int, rate: nat, elapsed: int)
    requires principal >= 0 && elapsed >= 0
    ensures principal * rate >= 0
    ensures principal * rate * elapsed >= 0
  {
  }

  lemma NothingBeforeStart(principal: int, rate: nat, startedAt: Instant, maturesAt: Instant, now: Instant)
    requires now <= startedAt <= maturesAt
    ensures Accrued(principal, rate, startedAt, maturesAt, now) == 0
  {
    assert principal * rate * 0 == 0;
  }

  lemma ConstantFromMaturity(principal: int, rate: nat, startedAt: Instant, maturesAt: Instant, now: Instant)
    requires startedAt <= maturesAt <= now
    ensures Accrued(principal, rate, startedAt, maturesAt, now)
              == Accrued(principal, rate, startedAt, maturesAt, maturesAt)
  {
  }

  lemma ProductMonotone(a: int, b: int, x: int, y: int)
    requires 0 <= a <= b && 0 <= x <= y
    ensures 0 <= a * x <= b * y
  {
    assert a * x <= b * x;
    assert b * x <= b * y;
  }

  /** Accrual never falls when any of time, principal or rate grows. */
  lemma AccruedMonotone(principal: int, principal': int, rate: nat, rate': nat,
                        startedAt: Instant, maturesAt: Instant, now: Instant, now': Instant)
    requires 0 <= principal <= principal' && rate <= rate' && now <= now' && startedAt <= maturesAt
    ensures Accrued(principal, rate, startedAt, maturesAt, now)
         <= Accrued(principal', rate', startedAt, maturesAt, now')
  {
    ProductMonotone(principal, principal', rate, rate');
    ProductMonotone(principal * rate, principal' * rate',
                    ClampElapsed(startedAt, maturesAt, now), ClampElapsed(startedAt, maturesAt, now'));
  }

  /** Splitting an accrual at any instant loses at most one minor unit, and always in the payer's favour. */
  lemma SplitLosesAtMostOne(principal: int, rate: nat, startedAt: Instant, middle: Instant, maturesAt: Instant)
    requires principal >= 0 && startedAt <= middle <= maturesAt
    ensures var parts := Accrued(principal, rate, startedAt, middle, middle)
                       + Accrued(principal, rate, middle, maturesAt, maturesAt);
            parts <= Accrued(principal, rate, startedAt, maturesAt, maturesAt) <= parts + 1
  {
    var k := principal * rate;
    assert k * (maturesAt - startedAt) == k * (middle - startedAt) + k * (maturesAt - middle);
    NumeratorNonNegative(principal, rate, middle - startedAt);
    NumeratorNonNegative(principal, rate, maturesAt - middle);
  }

  /** The quote check of a repayment: the figure due when the quote was taken is still the figure due. */
  predicate QuoteFresh(principal: int, rate: nat, startedAt: Instant, maturesAt: Instant, quotedAt: Instant,
                       now: Instant) {
    Accrued(principal, rate, startedAt, maturesAt, quotedAt) == Accrued(principal, rate, startedAt, maturesAt, now)
  }

  /** A quote once stale stays stale exactly when it was not taken ahead of the clock: a quote dated in
      the future is fresh again when that instant arrives. */
  lemma StaleStaysStale(principal: int, rate: nat, startedAt: Instant, maturesAt: Instant, quotedAt: Instant,
                        now: Instant)
    requires principal >= 0 && startedAt <= maturesAt
    requires !QuoteFresh(principal, rate, startedAt, maturesAt, quotedAt, now)
    ensures quotedAt <= now <==>
            forall later :: later >= now ==> !QuoteFresh(principal, rate, startedAt, maturesAt, quotedAt, later)
  {
    if quotedAt <= now {
      forall later | later >= now
        ensures !QuoteFresh(principal, rate, startedAt, maturesAt, quotedAt, later)
      {
        AccruedMonotone(principal, principal, rate, rate, startedAt, maturesAt, quotedAt, now);
        AccruedMonotone(principal, principal, rate, rate, startedAt, maturesAt, now, later);
      }
    } else {
      assert QuoteFresh(principal, rate, startedAt, maturesAt, quotedAt, quotedAt);
    }
  }
}
