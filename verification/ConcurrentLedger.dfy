/** The settlement operations split into the statements of concurrent database transactions: lock a row,
    read under the lock, write, commit. Writes are private until the commit; locks are held until then.
    Reads see the last committed state, as they do at the READ COMMITTED isolation level. */
module ConcurrentLedger {
  import opened Shared
  import opened Distributions
  import opened LedgerTransaction
  import L = Ledger

  type TxnId = nat

  datatype Operation =
    | HoldFunds(user: UserId, amount: int, reference: nat, newHold: L.HoldId)
    | TransferFunds(from: Party, to: Party, amount: int, reference: nat)
    | ReleaseHold(holdId: L.HoldId, lines: seq<Distribution>, forLiquidation: bool)
    | RefundHold(holdId: L.HoldId)

  datatype Row = AccountRow(account: Account) | HoldRow(holdId: L.HoldId)

  /** What a transaction will write if it commits: one journal transaction, and a new or settled hold row. */
  datatype Writes = Writes(
    transaction: L.Transaction,
    holdId: Option<L.HoldId>,
    owner: UserId,
    amount: int,
    status: L.HoldStatus)

  datatype Phase = Started | LockHeld | Checked(row: Option<L.FundsHold>) | Written(writes: Writes)

  datatype Txn = Txn(operation: Operation, phase: Phase)

  /** `log` lists the operations in the order they committed; no statement reads it. */
  datatype System = System(ledger: L.Ledger, locks: map<Row, TxnId>, txns: map<TxnId, Txn>, log: seq<Operation>)

  const Start := System(L.Empty, map[], map[], [])

  datatype Event =
    | Begin(txn: TxnId, operation: Operation)
    | Lock(txn: TxnId)
    | Read(txn: TxnId)
    | Write(txn: TxnId)
    | Commit(txn: TxnId)
    | Abort(txn: TxnId)

  /** The account whose balance an operation checks: the float is the one source never checked. */
  function DebitedAccount(operation: Operation): Option<Account> {
    match operation
    case HoldFunds(user, _, _, _) => Some(UserAvailable(user))
    case TransferFunds(from, _, _, _) => if from == PlatformFloat then None else Some(Resolve(from))
    case ReleaseHold(_, _, _) => None
    case RefundHold(_) => None
  }

  function LockedRow(operation: Operation): Option<Row> {
    match operation
    case ReleaseHold(h, _, _) => Some(HoldRow(h))
    case RefundHold(h) => Some(HoldRow(h))
    case _ => if DebitedAccount(operation).Some? then Some(AccountRow(DebitedAccount(operation).value)) else None
  }

  function ReleaseKind(operation: Operation): L.Kind
    requires operation.ReleaseHold?
  {
    if operation.forLiquidation then L.SettleLiquidationKind else L.OriginateLoanKind
  }

  function Entries(operation: Operation, row: Option<L.FundsHold>): seq<Entry>
    requires operation.ReleaseHold? || operation.RefundHold? ==> row.Some?
  {
    match operation
    case HoldFunds(user, amount, _, _) => [Debit(UserAvailable(user), amount), Credit(UserHeld(user), amount)]
    case TransferFunds(from, to, amount, _) => [Debit(Resolve(from), amount), Credit(Resolve(to), amount)]
    case ReleaseHold(_, lines, _) => ReleaseEntries(row.value.owner, row.value.amount, lines)
    case RefundHold(_) => [Debit(UserHeld(row.value.owner), row.value.amount),
                           Credit(UserAvailable(row.value.owner), row.value.amount)]
  }

  function WritesOf(operation: Operation, row: Option<L.FundsHold>): Writes
    requires operation.ReleaseHold? || operation.RefundHold? ==> row.Some?
  {
    var entries := Entries(operation, row);
    match operation
    case HoldFunds(user, amount, reference, h) =>
      Writes(L.Transaction(L.HoldFundsKind, reference, entries), Some(h), user, amount, L.HoldHeld)
    case TransferFunds(from, to, amount, reference) =>
      Writes(L.Transaction(L.TransferKind(from, to), reference, entries), None, 0, 0, L.HoldHeld)
    case ReleaseHold(h, _, _) =>
      Writes(L.Transaction(ReleaseKind(operation), h, entries), Some(h), row.value.owner, row.value.amount,
             L.HoldReleased)
    case RefundHold(h) =>
      Writes(L.Transaction(L.RefundHoldKind, h, entries), Some(h), row.value.owner, row.value.amount, L.HoldRefunded)
  }

  function Finish(s: System, t: TxnId): System {
    s.(txns := s.txns - {t}, locks := map r | r in s.locks && s.locks[r] != t :: s.locks[r])
  }

  function SetPhase(s: System, t: TxnId, phase: Phase): System
    requires t in s.txns
  {
    s.(txns := s.txns[t := s.txns[t].(phase := phase)])
  }

  /** The read under the lock. A balance that is too small, a missing or settled hold, or a distribution that
      does not add up ends the transaction without a write. */
  function ReadStep(s: System, t: TxnId): System
    requires t in s.txns
  {
    var operation := s.txns[t].operation;
    match operation
    case HoldFunds(user, amount, _, _) =>
      if L.Balance(s.ledger.journal, UserAvailable(user)) < amount then Finish(s, t) else SetPhase(s, t, Checked(None))
    case TransferFunds(from, _, amount, _) =>
      if from != PlatformFloat && L.Balance(s.ledger.journal, Resolve(from)) < amount then Finish(s, t)
      else SetPhase(s, t, Checked(None))
    case ReleaseHold(h, lines, _) =>
      if h !in s.ledger.holds || s.ledger.holds[h].status != L.HoldHeld || Total(lines) != s.ledger.holds[h].amount
      then Finish(s, t) else SetPhase(s, t, Checked(Some(s.ledger.holds[h])))
    case RefundHold(h) =>
      if h !in s.ledger.holds || s.ledger.holds[h].status != L.HoldHeld
      then Finish(s, t) else SetPhase(s, t, Checked(Some(s.ledger.holds[h])))
  }

  /** The write builds its entries from what the transaction read, never from the table again. */
  ghost function WriteStep(s: System, t: TxnId): System
    requires t in s.txns && s.txns[t].phase.Checked?
    requires s.txns[t].operation.ReleaseHold? || s.txns[t].operation.RefundHold? ==> s.txns[t].phase.row.Some?
  {
    var operation, row := s.txns[t].operation, s.txns[t].phase.row;
    if Buildable(Entries(operation, row)) then SetPhase(s, t, Written(WritesOf(operation, row))) else Finish(s, t)
  }

  /** The writes become the committed state; a hold id already taken breaks its unique key and aborts. */
  function CommitStep(s: System, t: TxnId): System
    requires t in s.txns && s.txns[t].phase.Written?
  {
    var operation, writes := s.txns[t].operation, s.txns[t].phase.writes;
    if operation.HoldFunds? && operation.newHold in s.ledger.holds then Finish(s, t)
    else
      var settledBy := if writes.status == L.HoldHeld then None else Some(|s.ledger.journal|);
      var holds := if writes.holdId.Some?
                   then s.ledger.holds[writes.holdId.value :=
                     L.FundsHold(writes.owner, writes.amount, writes.status, settledBy)]
                   else s.ledger.holds;
      Finish(s, t).(ledger := L.Ledger(s.ledger.journal + [writes.transaction], holds), log := s.log + [operation])
  }

  /** One statement of one transaction; a statement out of turn, or a lock somebody else holds, changes nothing. */
  ghost function Next(s: System, e: Event): System {
    var t := e.txn;
    match e
    case Begin(_, operation) => if t in s.txns then s else s.(txns := s.txns[t := Txn(operation, Started)])
    case Lock(_) =>
      if t !in s.txns || s.txns[t].phase != Started || LockedRow(s.txns[t].operation).None? then s
      else
        var row := LockedRow(s.txns[t].operation).value;
        if row in s.locks then s else SetPhase(s, t, LockHeld).(locks := s.locks[row := t])
    case Read(_) =>
      if t !in s.txns then s
      else if s.txns[t].phase == (if LockedRow(s.txns[t].operation).Some? then LockHeld else Started)
                                  then ReadStep(s, t)
      else s
    case Write(_) =>
      if t in s.txns && s.txns[t].phase.Checked?
         && (s.txns[t].operation.ReleaseHold? || s.txns[t].operation.RefundHold? ==> s.txns[t].phase.row.Some?)
      then WriteStep(s, t) else s
    case Commit(_) => if t in s.txns && s.txns[t].phase.Written? then CommitStep(s, t) else s
    case Abort(_) => if t in s.txns then Finish(s, t) else s
  }

  ghost function Run(s: System, events: seq<Event>): System {
    if events == [] then s else Next(Run(s, events[..|events| - 1]), events[|events| - 1])
  }

  // ----- the atomic operations it should look like -----

  ghost function Atomic(ledger: L.Ledger, operation: Operation): Result<L.Posted> {
    match operation
    case HoldFunds(user, amount, reference, h) => L.Hold(ledger, user, amount, reference, h)
    case TransferFunds(from, to, amount, reference) => L.Transfer(ledger, from, to, amount, reference)
    case ReleaseHold(h, lines, _) => L.Release(ledger, h, lines, ReleaseKind(operation))
    case RefundHold(h) => L.Refund(ledger, h)
  }

  /** The ledger after performing operations one at a time; a refused one changes nothing. */
  ghost function Replay(log: seq<Operation>): L.Ledger {
    if log == [] then L.Empty
    else
      var before := Replay(log[..|log| - 1]);
      match Atomic(before, log[|log| - 1])
      case Ok(posted) => posted.ledger
      case Err(_) => before
  }

  // ----- the invariant of the interleaving -----

  ghost predicate HoldsLock(s: System, t: TxnId) {
    t in s.txns && (LockedRow(s.txns[t].operation).Some? && s.txns[t].phase != Started ==>
      LockedRow(s.txns[t].operation).value in s.locks && s.locks[LockedRow(s.txns[t].operation).value] == t)
  }

  /** What a transaction learned by reading is still true. */
  ghost predicate ReadStillTrue(ledger: L.Ledger, operation: Operation, row: Option<L.FundsHold>) {
    match operation
    case HoldFunds(user, amount, _, _) => L.Balance(ledger.journal, UserAvailable(user)) >= amount
    case TransferFunds(from, _, amount, _) =>
      from == PlatformFloat || L.Balance(ledger.journal, Resolve(from)) >= amount
    case ReleaseHold(h, lines, _) =>
      h in ledger.holds && row == Some(ledger.holds[h]) && ledger.holds[h].status == L.HoldHeld
      && Total(lines) == ledger.holds[h].amount
    case RefundHold(h) => h in ledger.holds && row == Some(ledger.holds[h]) && ledger.holds[h].status == L.HoldHeld
  }

  ghost predicate PhaseSound(ledger: L.Ledger, txn: Txn) {
    match txn.phase
    case Started => true
    case LockHeld => true
    case Checked(row) => ReadStillTrue(ledger, txn.operation, row)
    case Written(writes) =>
      exists row :: ReadStillTrue(ledger, txn.operation, row) && writes == WritesOf(txn.operation, row)
                    && Buildable(Entries(txn.operation, row))
  }

  ghost predicate SystemSound(s: System) {
    && L.Sound(s.ledger)
    && s.ledger == Replay(s.log)
    && (forall t :: t in s.txns ==> HoldsLock(s, t))
    && (forall t :: t in s.txns ==> PhaseSound(s.ledger, s.txns[t]))
  }

  /** Committing is performing the operation atomically on the state committed by then. */
  lemma CommitIsAtomic(s: System, t: TxnId)
    requires t in s.txns && s.txns[t].phase.Written? && PhaseSound(s.ledger, s.txns[t])
    requires s.txns[t].operation.HoldFunds? ==> s.txns[t].operation.newHold !in s.ledger.holds
    ensures Atomic(s.ledger, s.txns[t].operation).Ok?
    ensures CommitStep(s, t).ledger == Atomic(s.ledger, s.txns[t].operation).value.ledger
  {
    var operation, writes := s.txns[t].operation, s.txns[t].phase.writes;
    var row :| ReadStillTrue(s.ledger, operation, row) && writes == WritesOf(operation, row)
               && Buildable(Entries(operation, row));
  }

  lemma AtomicKeepsSound(ledger: L.Ledger, operation: Operation)
    requires L.Sound(ledger) && Atomic(ledger, operation).Ok?
    ensures L.Sound(Atomic(ledger, operation).value.ledger)
  {
    match operation
    case HoldFunds(user, amount, reference, h) => L.HoldKeepsSound(ledger, user, amount, reference, h);
    case TransferFunds(from, to, amount, reference) => L.TransferKeepsSound(ledger, from, to, amount, reference);
    case ReleaseHold(h, lines, _) => L.ReleaseKeepsSound(ledger, h, lines, ReleaseKind(operation));
    case RefundHold(h) => L.RefundKeepsSound(ledger, h);
  }

  /** A commit by one transaction takes nothing from an account it has not locked. */
  lemma CommitSparesOtherAccounts(ledger: L.Ledger, operation: Operation, row: Option<L.FundsHold>, account: Account)
    requires ReadStillTrue(ledger, operation, row) && Buildable(Entries(operation, row))
    requires !account.UserHeld? && account != FloatAccount && DebitedAccount(operation) != Some(account)
    ensures Net(Entries(operation, row), account) >= 0
  {
    var entries := Entries(operation, row);
    match operation
    case HoldFunds(user, amount, _, _) => NetOfPair(entries[0], entries[1], account);
    case TransferFunds(_, _, _, _) => NetOfPair(entries[0], entries[1], account);
    case RefundHold(_) => NetOfPair(entries[0], entries[1], account);
    case ReleaseHold(_, lines, _) =>
      ReleaseLinesPositive(row.value.owner, row.value.amount, lines);
      ReleaseNet(row.value.owner, row.value.amount, lines, account);
  }

  lemma ReleaseLinesPositive(owner: UserId, amount: int, lines: seq<Distribution>)
    requires Positive(ReleaseEntries(owner, amount, lines))
    ensures AllPositive(lines)
  {
    assert ReleaseEntries(owner, amount, lines)[0].minorUnits > 0;
    ReleasePositive(owner, amount, lines);
  }

  /** What other transactions read stays true across a commit: they hold other locks. */
  lemma ReadsSurviveCommit(ledger: L.Ledger, ledger': L.Ledger, committed: Operation, committedRow: Option<L.FundsHold>,
                           operation: Operation, row: Option<L.FundsHold>)
    requires ReadStillTrue(ledger, committed, committedRow) && Buildable(Entries(committed, committedRow))
    requires ledger'.journal == ledger.journal + [WritesOf(committed, committedRow).transaction]
    requires forall h :: h in ledger.holds && LockedRow(committed) != Some(HoldRow(h)) ==>
               h in ledger'.holds && ledger'.holds[h] == ledger.holds[h]
    requires ReadStillTrue(ledger, operation, row)
    requires LockedRow(operation).Some? ==> LockedRow(operation) != LockedRow(committed)
    ensures ReadStillTrue(ledger', operation, row)
  {
    var debited := DebitedAccount(operation);
    if debited.Some? {
      CommitSparesOtherAccounts(ledger, committed, committedRow, debited.value);
      L.BalanceAppend(ledger.journal, WritesOf(committed, committedRow).transaction, debited.value);
    }
  }

  lemma PhaseSurvivesCommit(ledger: L.Ledger, ledger': L.Ledger, committed: Operation,
                            committedRow: Option<L.FundsHold>, txn: Txn)
    requires ReadStillTrue(ledger, committed, committedRow) && Buildable(Entries(committed, committedRow))
    requires ledger'.journal == ledger.journal + [WritesOf(committed, committedRow).transaction]
    requires forall h :: h in ledger.holds && LockedRow(committed) != Some(HoldRow(h)) ==>
               h in ledger'.holds && ledger'.holds[h] == ledger.holds[h]
    requires PhaseSound(ledger, txn)
    requires LockedRow(txn.operation).Some? && txn.phase != Started ==> LockedRow(txn.operation) != LockedRow(committed)
    ensures PhaseSound(ledger', txn)
  {
    if txn.phase.Checked? {
      ReadsSurviveCommit(ledger, ledger', committed, committedRow, txn.operation, txn.phase.row);
    } else if txn.phase.Written? {
      var row :| ReadStillTrue(ledger, txn.operation, row) && txn.phase.writes == WritesOf(txn.operation, row)
                 && Buildable(Entries(txn.operation, row));
      ReadsSurviveCommit(ledger, ledger', committed, committedRow, txn.operation, row);
    }
  }

  lemma PhasesSurviveCommit(s: System, t: TxnId, u: TxnId)
    requires t in s.txns && s.txns[t].phase.Written? && u in s.txns && u != t
    requires HoldsLock(s, t) && HoldsLock(s, u) && PhaseSound(s.ledger, s.txns[t]) && PhaseSound(s.ledger, s.txns[u])
    requires s.txns[t].operation.HoldFunds? ==> s.txns[t].operation.newHold !in s.ledger.holds
    ensures PhaseSound(CommitStep(s, t).ledger, s.txns[u])
  {
    var committed := s.txns[t].operation;
    var row :| ReadStillTrue(s.ledger, committed, row) && s.txns[t].phase.writes == WritesOf(committed, row)
               && Buildable(Entries(committed, row));
    PhaseSurvivesCommit(s.ledger, CommitStep(s, t).ledger, committed, row, s.txns[u]);
  }

  lemma FinishKeeps(s: System, t: TxnId)
    requires SystemSound(s)
    ensures SystemSound(Finish(s, t))
  {
    var s' := Finish(s, t);
    forall u | u in s'.txns ensures HoldsLock(s', u) && PhaseSound(s'.ledger, s'.txns[u]) {
      assert HoldsLock(s, u);
    }
  }

  lemma CommitKeeps(s: System, t: TxnId)
    requires SystemSound(s) && t in s.txns && s.txns[t].phase.Written?
    ensures SystemSound(CommitStep(s, t))
  {
    var operation := s.txns[t].operation;
    FinishKeeps(s, t);
    if !(operation.HoldFunds? && operation.newHold in s.ledger.holds) {
      CommitIsAtomic(s, t);
      AtomicKeepsSound(s.ledger, operation);
      var s' := CommitStep(s, t);
      assert s'.log[..|s'.log| - 1] == s.log;
      forall u | u in s'.txns ensures HoldsLock(s', u) && PhaseSound(s'.ledger, s'.txns[u]) {
        assert HoldsLock(Finish(s, t), u) && HoldsLock(s, u) && HoldsLock(s, t);
        assert PhaseSound(s.ledger, s.txns[u]);
        PhasesSurviveCommit(s, t, u);
      }
    }
  }

  lemma ReadKeeps(s: System, t: TxnId)
    requires SystemSound(s) && t in s.txns
    requires LockedRow(s.txns[t].operation).Some? ==> s.txns[t].phase == LockHeld
    ensures SystemSound(ReadStep(s, t))
  {
    FinishKeeps(s, t);
    var s' := ReadStep(s, t);
    if s' != Finish(s, t) {
      forall u | u in s'.txns ensures HoldsLock(s', u) && PhaseSound(s'.ledger, s'.txns[u]) {
        assert HoldsLock(s, u);
      }
    }
  }

  lemma WriteKeeps(s: System, t: TxnId)
    requires SystemSound(s) && t in s.txns && s.txns[t].phase.Checked?
    requires s.txns[t].operation.ReleaseHold? || s.txns[t].operation.RefundHold? ==> s.txns[t].phase.row.Some?
    ensures SystemSound(WriteStep(s, t))
  {
    FinishKeeps(s, t);
    var s' := WriteStep(s, t);
    var operation, row := s.txns[t].operation, s.txns[t].phase.row;
    if Buildable(Entries(operation, row)) {
      forall u | u in s'.txns ensures HoldsLock(s', u) && PhaseSound(s'.ledger, s'.txns[u]) {
        assert HoldsLock(s, u) && PhaseSound(s.ledger, s.txns[u]);
        if u == t {
          assert ReadStillTrue(s.ledger, operation, row) && WritesOf(operation, row) == s'.txns[t].phase.writes;
        }
      }
    }
  }

  lemma LockKeeps(s: System, t: TxnId)
    requires SystemSound(s)
    ensures SystemSound(Next(s, Lock(t)))
  {
    var s' := Next(s, Lock(t));
    if s' != s {
      forall u | u in s'.txns ensures HoldsLock(s', u) && PhaseSound(s'.ledger, s'.txns[u]) {
        assert HoldsLock(s, u);
      }
    }
  }

  lemma BeginKeeps(s: System, t: TxnId, operation: Operation)
    requires SystemSound(s)
    ensures SystemSound(Next(s, Begin(t, operation)))
  {
    var s' := Next(s, Begin(t, operation));
    forall u | u in s'.txns ensures HoldsLock(s', u) && PhaseSound(s'.ledger, s'.txns[u]) {
      assert u in s.txns ==> HoldsLock(s, u);
    }
  }

  lemma NextKeeps(s: System, e: Event)
    requires SystemSound(s)
    ensures SystemSound(Next(s, e))
  {
    var t := e.txn;
    match e
    case Begin(_, operation) => BeginKeeps(s, t, operation);
    case Lock(_) => LockKeeps(s, t);
    case Read(_) => if Next(s, e) != s { ReadKeeps(s, t); }
    case Write(_) => if Next(s, e) != s { WriteKeeps(s, t); }
    case Commit(_) => if Next(s, e) != s { CommitKeeps(s, t); }
    case Abort(_) => FinishKeeps(s, t);
  }

  lemma {:induction false} RunIsSound(events: seq<Event>)
    ensures SystemSound(Run(Start, events))
  {
    if events == [] {
      L.EmptyIsSound();
    } else {
      RunIsSound(events[..|events| - 1]);
      NextKeeps(Run(Start, events[..|events| - 1]), events[|events| - 1]);
    }
  }

  /** Under every interleaving the committed ledger is the one the committed operations make when performed
      one at a time in commit order. So no account but the float is ever overdrawn, held balances agree with
      the holds, and no hold is settled by two transactions. */
  lemma EveryInterleavingIsSerial(events: seq<Event>)
    ensures var s := Run(Start, events);
            && s.ledger == Replay(s.log)
            && (forall account :: account != FloatAccount ==> L.Balance(s.ledger.journal, account) >= 0)
            && (forall user :: L.Balance(s.ledger.journal, UserHeld(user)) == L.HeldTotal(s.ledger.holds, user))
            && (forall t, t' ::
                  (0 <= t < |s.ledger.journal| && 0 <= t' < |s.ledger.journal|
                   && L.IsSettlement(s.ledger.journal[t]) && L.IsSettlement(s.ledger.journal[t'])
                   && s.ledger.journal[t].reference == s.ledger.journal[t'].reference) ==> t == t')
  {
    RunIsSound(events);
    var s := Run(Start, events);
    forall t, t' | 0 <= t < |s.ledger.journal| && 0 <= t' < |s.ledger.journal|
                   && L.IsSettlement(s.ledger.journal[t]) && L.IsSettlement(s.ledger.journal[t'])
                   && s.ledger.journal[t].reference == s.ledger.journal[t'].reference
      ensures t == t'
    {
      L.SettledAtMostOnce(s.ledger, t, t');
    }
  }

  /** Every logged operation succeeds when the log is replayed: nothing commits on a stale read. */
  lemma {:induction false} NothingCommitsOnAStaleRead(events: seq<Event>, e: Event)
    requires Run(Start, events + [e]).log != Run(Start, events).log
    ensures var s := Run(Start, events);
            && e.Commit? && e.txn in s.txns
            && Run(Start, events + [e]).log == s.log + [s.txns[e.txn].operation]
            && Atomic(Replay(s.log), s.txns[e.txn].operation).Ok?
  {
    RunIsSound(events);
    assert (events + [e])[..|events|] == events;
    var s := Run(Start, events);
    assert PhaseSound(s.ledger, s.txns[e.txn]);
    CommitIsAtomic(s, e.txn);
  }

  // ----- a transaction alone -----

  /** A transaction from its begin to its commit with nobody else's statement in between. */
  ghost function Alone(s: System, t: TxnId, operation: Operation): System {
    Next(Next(Next(Next(Next(s, Begin(t, operation)), Lock(t)), Read(t)), Write(t)), Commit(t))
  }

  /** What a refused operation leaves is the ledger it found. */
  ghost function LedgerAfter(ledger: L.Ledger, operation: Operation): L.Ledger {
    match Atomic(ledger, operation)
    case Ok(posted) => posted.ledger
    case Err(_) => ledger
  }

  /** The transaction is over and holds no lock. */
  predicate Over(s: System, t: TxnId) {
    t !in s.txns && forall r :: r in s.locks ==> s.locks[r] != t
  }

  lemma LoneTransactionStarts(s: System, t: TxnId, operation: Operation) returns (held: System)
    requires t !in s.txns && (LockedRow(operation).Some? ==> LockedRow(operation).value !in s.locks)
    ensures held == Next(Next(s, Begin(t, operation)), Lock(t))
    ensures held.ledger == s.ledger && t in held.txns && held.txns[t].operation == operation
    ensures held.txns[t].phase == (if LockedRow(operation).Some? then LockHeld else Started)
  {
    held := Next(Next(s, Begin(t, operation)), Lock(t));
  }

  lemma LoneTransactionEnds(held: System, t: TxnId)
    requires t in held.txns
    requires held.txns[t].phase == (if LockedRow(held.txns[t].operation).Some? then LockHeld else Started)
    ensures var after := Next(Next(Next(held, Read(t)), Write(t)), Commit(t));
            after.ledger == LedgerAfter(held.ledger, held.txns[t].operation) && Over(after, t)
  {
    var read := Next(held, Read(t));
    assert read == ReadStep(held, t);
    if t in read.txns {
      CheckedTransactionEnds(read, t);
    } else {
      NothingRead(held, t);
    }
  }

  /** A read that ends the transaction is a refusal of the operation, or its idempotent answer. */
  lemma NothingRead(s: System, t: TxnId)
    requires t in s.txns && t !in ReadStep(s, t).txns
    ensures LedgerAfter(s.ledger, s.txns[t].operation) == s.ledger == ReadStep(s, t).ledger && Over(ReadStep(s, t), t)
  {}

  lemma CheckedTransactionEnds(s: System, t: TxnId)
    requires t in s.txns && s.txns[t].phase.Checked?
    requires ReadStillTrue(s.ledger, s.txns[t].operation, s.txns[t].phase.row)
    ensures var after := Next(Next(s, Write(t)), Commit(t));
            after.ledger == LedgerAfter(s.ledger, s.txns[t].operation) && Over(after, t)
  {
    var operation, row := s.txns[t].operation, s.txns[t].phase.row;
    var written := Next(s, Write(t));
    assert written == WriteStep(s, t);
    if Buildable(Entries(operation, row)) {
      WrittenTransactionEnds(written, t, row);
    } else {
      UnbuildableIsRefused(s.ledger, operation, row);
    }
  }

  lemma UnbuildableIsRefused(ledger: L.Ledger, operation: Operation, row: Option<L.FundsHold>)
    requires ReadStillTrue(ledger, operation, row) && !Buildable(Entries(operation, row))
    ensures Atomic(ledger, operation).Err?
  {}

  lemma WrittenTransactionEnds(s: System, t: TxnId, row: Option<L.FundsHold>)
    requires t in s.txns && ReadStillTrue(s.ledger, s.txns[t].operation, row)
    requires Buildable(Entries(s.txns[t].operation, row))
    requires s.txns[t].phase == Written(WritesOf(s.txns[t].operation, row))
    ensures CommitStep(s, t).ledger == LedgerAfter(s.ledger, s.txns[t].operation) && Over(CommitStep(s, t), t)
  {
    var operation := s.txns[t].operation;
    if operation.HoldFunds? && operation.newHold in s.ledger.holds {
      assert Atomic(s.ledger, operation).Err?;
    } else {
      CommitIsAtomic(s, t);
    }
  }

  /** With its row unlocked, a transaction that nobody disturbs does to the ledger exactly what its operation does when
      performed at once, leaves it alone exactly when that would be refused, and gives up its lock. */
  lemma LoneTransactionIsItsOperation(s: System, t: TxnId, operation: Operation)
    requires t !in s.txns && (LockedRow(operation).Some? ==> LockedRow(operation).value !in s.locks)
    ensures Alone(s, t, operation).ledger == LedgerAfter(s.ledger, operation) && Over(Alone(s, t, operation), t)
  {
    var held := LoneTransactionStarts(s, t, operation);
    LoneTransactionEnds(held, t);
  }

  /** A transaction that is aborted, at whatever statement, leaves the ledger alone and no lock behind. */
  lemma AbortLeavesNothing(s: System, t: TxnId)
    ensures Next(s, Abort(t)).ledger == s.ledger && Next(s, Abort(t)).log == s.log
    ensures t in s.txns ==> Over(Next(s, Abort(t)), t)
  {}
}
