/** The loan: its constructor's checks, its transitions, and the figures it owes. */
module Loans {
  import opened Shared
  import opened CustodyReceipts
  import Interest

  type ReceiptId = nat

  datatype LoanStatus = LoanActive | LoanRepaid | LoanDefaulted | LoanLiquidated

  /** `lender` is the holder of the lender note, which nothing ever transfers. */
  datatype Loan = Loan(
    receipt: ReceiptId,
    borrower: UserId,
    lender: UserId,
    principal: int,
    rate: nat,
    startedAt: Instant,
    maturesAt: Instant,
    graceEndsAt: Instant,
    liquidationFeeBasisPoints: nat,
    status: LoanStatus,
    defaultedAt: Option<Instant>)

  /** What the constructor insists on. */
  predicate Constructible(loan: Loan) {
    && loan.principal > 0
    && loan.maturesAt > loan.startedAt
    && loan.graceEndsAt >= loan.maturesAt
    && loan.liquidationFeeBasisPoints <= 10_000
    && ((loan.status == LoanDefaulted || loan.status == LoanLiquidated) <==> loan.defaultedAt.Some?)
  }

  function Construct(loan: Loan): Result<Loan> {
    if Constructible(loan) then Ok(loan) else Err(LoanTermsInvalid)
  }

  function Originate(receipt: ReceiptId, borrower: UserId, lender: UserId, principal: int, rate: nat,
                     startedAt: Instant,
                     durationMs: int, gracePeriodMs: int, liquidationFeeBasisPoints: nat): Result<Loan> {
    var maturesAt := startedAt + durationMs;
    Construct(Loan(receipt, borrower, lender, principal, rate, startedAt, maturesAt, maturesAt + gracePeriodMs,
                   liquidationFeeBasisPoints, LoanActive, None))
  }

  function AccruedInterest(loan: Loan, now: Instant): int {
    Interest.Accrued(loan.principal, loan.rate, loan.startedAt, loan.maturesAt, now)
  }

  function AmountDue(loan: Loan, now: Instant): int {
    loan.principal + AccruedInterest(loan, now)
  }

  datatype Repayment = Repayment(loan: Loan, total: int)

  /** Only the total is ever charged: a larger payment is accepted but not taken. */
  function RecordRepayment(loan: Loan, payment: int, now: Instant): Result<Repayment> {
    if loan.status != LoanActive then Err(LoanNotActive)
    else if payment < AmountDue(loan, now) then Err(RepaymentAmountInsufficient)
    else
      match Construct(loan.(status := LoanRepaid))
      case Err(error) => Err(error)
      case Ok(repaid) => Ok(Repayment(repaid, AmountDue(loan, now)))
  }

  function MarkDefaulted(loan: Loan, now: Instant): Result<Loan> {
    if loan.status != LoanActive then Err(LoanNotActive)
    else if !(now > loan.graceEndsAt) then Err(GracePeriodActive)
    else Construct(loan.(status := LoanDefaulted, defaultedAt := Some(now)))
  }

  function MarkLiquidated(loan: Loan): Result<Loan> {
    if loan.status != LoanDefaulted then Err(LoanNotDefaulted)
    else Construct(loan.(status := LoanLiquidated))
  }

  predicate LiveLoan(loan: Loan) {
    loan.status == LoanActive || loan.status == LoanDefaulted
  }

  /** On a loan that was constructed, no transition's own construction can fail: the only refusals are
      the status and the clock. */
  lemma TransitionsReconstruct(loan: Loan, payment: int, now: Instant)
    requires Constructible(loan)
    ensures RecordRepayment(loan, payment, now).Ok? <==> loan.status == LoanActive && payment >= AmountDue(loan, now)
    ensures MarkDefaulted(loan, now).Ok? <==> loan.status == LoanActive && now > loan.graceEndsAt
    ensures MarkLiquidated(loan).Ok? <==> loan.status == LoanDefaulted
  {
  }

  /** `interest` is the exact interest on the loan's terms for the time run by `now`, between start and maturity,
      rounded down to whole minor units. */
  predicate IsInterestAt(loan: Loan, interest: int, now: Instant) {
    var elapsed := if now <= loan.startedAt then 0
                   else if now >= loan.maturesAt then loan.maturesAt - loan.startedAt
                   else now - loan.startedAt;
    var perYear := 10_000 * 31_536_000_000;
    interest * perYear <= loan.principal * loan.rate * elapsed < (interest + 1) * perYear
  }

  /** What is due above the principal is the interest for the time run, rounded down. */
  lemma AmountDueIsPrincipalAndInterest(loan: Loan, now: Instant)
    requires Constructible(loan)
    ensures IsInterestAt(loan, AmountDue(loan, now) - loan.principal, now)
  {
    Interest.AccruedIsFloor(loan.principal, loan.rate, loan.startedAt, loan.maturesAt, now);
  }

  /** That says exactly what is due. */
  lemma InterestIsUnique(loan: Loan, interest: int, other: int, now: Instant)
    requires IsInterestAt(loan, interest, now) && IsInterestAt(loan, other, now)
    ensures interest == other
  {}

  /** What is due is the principal and the interest for the time run, rounded down; it never falls, is at least the
      principal, and from maturity on is one figure. */
  lemma AmountDueLaws(loan: Loan, now: Instant, later: Instant)
    requires Constructible(loan) && now <= later
    ensures IsInterestAt(loan, AmountDue(loan, now) - loan.principal, now)
    ensures loan.principal <= AmountDue(loan, now) <= AmountDue(loan, later)
    ensures now >= loan.maturesAt ==> AmountDue(loan, later) == AmountDue(loan, loan.maturesAt)
  {
    AmountDueIsPrincipalAndInterest(loan, now);
    Interest.AccruedIsFloor(loan.principal, loan.rate, loan.startedAt, loan.maturesAt, now);
    Interest.AccruedMonotone(loan.principal, loan.principal, loan.rate, loan.rate, loan.startedAt, loan.maturesAt, now,
                             later);
    if now >= loan.maturesAt {
      Interest.ConstantFromMaturity(loan.principal, loan.rate, loan.startedAt, loan.maturesAt, later);
    }
  }
}
