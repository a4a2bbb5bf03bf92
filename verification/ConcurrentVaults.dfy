/** Issuing a receipt, split into the statements of concurrent database transactions: read the intake, the vault and
    the appraisals, lock the vault, look for a receipt to replay, read the exposure, insert, commit. Everything else
    the custody desk does commits in between. Reads see the last committed state; writes are private until the commit,
    and the lock is held until then. */
module ConcurrentVaults {
  import opened Shared
  import opened CustodyReceipts
  import V = VaultCustody

  type TxnId = nat

  /** What an issuance has read by the time it takes the lock. */
  datatype Reading = Reading(intake: V.Intake, limit: nat, value: nat)

  /** No statement reads `at`, the number of commands committed when the replay read found nothing. */
  datatype Phase =
    | Started
    | IntakeRead(intake: V.Intake)
    | VaultRead(intake: V.Intake, limit: nat)
    | Appraised(seen: Reading)
    | LockHeld(seen: Reading)
    | Fresh(seen: Reading, at: nat)
    | Priced(seen: Reading)
    | Inserted(seen: Reading, receipt: Receipt)

  /** `began` is the number of commands committed when the issuance began. */
  datatype Txn = Txn(intakeId: V.IntakeId, newReceipt: V.ReceiptId, began: nat, phase: Phase)

  /** What an issuance told its caller after `until` commands; `at` is where it takes effect among them. */
  datatype Answer = Answer(
    intakeId: V.IntakeId,
    newReceipt: V.ReceiptId,
    result: Result<nat>,
    wrote: bool,
    began: nat,
    at: nat,
    until: nat)

  /** `log` lists the committed commands in commit order; no statement reads it. */
  datatype System = System(
    committed: V.State,
    locks: map<VaultId, TxnId>,
    txns: map<TxnId, Txn>,
    answers: map<TxnId, Answer>,
    log: seq<V.Command>)

  const Start := System(V.Start, map[], map[], map[], [])

  datatype Event =
    | Begin(txn: TxnId, intakeId: V.IntakeId, newReceipt: V.ReceiptId)
    | Proceed(txn: TxnId)
    | Abort(txn: TxnId)
    | Elsewhere(command: V.Command)

  // ----- the statements -----

  function Finish(s: System, t: TxnId): System {
    s.(txns := s.txns - {t}, locks := map v | v in s.locks && s.locks[v] != t :: s.locks[v])
  }

  function SetPhase(s: System, t: TxnId, phase: Phase): System
    requires t in s.txns
  {
    s.(txns := s.txns[t := s.txns[t].(phase := phase)])
  }

  /** Ends without a write, with what the transaction saw after `at` commands. */
  function Reply(s: System, t: TxnId, result: Result<nat>, at: nat): System
    requires t in s.txns
  {
    var txn := s.txns[t];
    var answer := Answer(txn.intakeId, txn.newReceipt, result, false, txn.began, at, |s.log|);
    Finish(s, t).(answers := s.answers[t := answer])
  }

  function ReadIntake(s: System, t: TxnId): System
    requires t in s.txns
  {
    var id := s.txns[t].intakeId;
    if id !in s.committed.intakes then Reply(s, t, Err(NotFound), |s.log|)
    else if s.committed.intakes[id].sealedHash.None? then Reply(s, t, Err(IntakeNotSealed), |s.log|)
    else SetPhase(s, t, IntakeRead(s.committed.intakes[id]))
  }

  function ReadVault(s: System, t: TxnId, intake: V.Intake): System
    requires t in s.txns
  {
    if intake.vault !in s.committed.limits then Reply(s, t, Err(NotFound), |s.log|)
    else SetPhase(s, t, VaultRead(intake, s.committed.limits[intake.vault]))
  }

  function AppraisalsOf(committed: V.State, id: V.IntakeId): seq<nat> {
    if id in committed.intakes then committed.intakes[id].appraisals else []
  }

  function ReadAppraisals(s: System, t: TxnId, intake: V.Intake, limit: nat): System
    requires t in s.txns
  {
    var appraisals := AppraisalsOf(s.committed, s.txns[t].intakeId);
    if appraisals == [] then Reply(s, t, Err(IntakeIncomplete), |s.log|)
    else SetPhase(s, t, Appraised(Reading(intake, limit, appraisals[|appraisals| - 1])))
  }

  /** Waits while somebody else holds the vault's row. */
  function TakeLock(s: System, t: TxnId, seen: Reading): System
    requires t in s.txns
  {
    if seen.intake.vault in s.locks then s
    else SetPhase(s, t, LockHeld(seen)).(locks := s.locks[seen.intake.vault := t])
  }

  function HashOf(seen: Reading): string {
    match seen.intake.sealedHash
    case Some(hash) => hash
    case None => ""
  }

  ghost function ReadReplay(s: System, t: TxnId, seen: Reading): System
    requires t in s.txns
  {
    if V.HasHash(s.committed.receipts, HashOf(seen))
    then Reply(s, t, Ok(V.WithHash(s.committed.receipts, HashOf(seen))), |s.log|)
    else SetPhase(s, t, Fresh(seen, |s.log|))
  }

  ghost function ReadExposure(s: System, t: TxnId, seen: Reading, at: nat): System
    requires t in s.txns
  {
    if V.Exposure(s.committed.receipts, seen.intake.vault) + seen.value > seen.limit
    then Reply(s, t, Err(VaultInsuredLimitExceeded), at)
    else SetPhase(s, t, Priced(seen))
  }

  function NewReceipt(seen: Reading): Receipt {
    Issue(seen.intake.vault, seen.intake.borrower, HashOf(seen), seen.value, seen.intake.category)
  }

  /** The primary key or the unique index on the intake hash refuses the row, and the transaction ends unanswered. */
  ghost predicate Refused(committed: V.State, txn: Txn)
    requires txn.phase.Inserted?
  {
    txn.newReceipt in committed.receipts || V.HasHash(committed.receipts, txn.phase.receipt.intakeHash)
  }

  ghost function Commit(s: System, t: TxnId): System
    requires t in s.txns && s.txns[t].phase.Inserted?
  {
    var txn := s.txns[t];
    if Refused(s.committed, txn) then Finish(s, t)
    else
      var answer := Answer(txn.intakeId, txn.newReceipt, Ok(txn.newReceipt), true, txn.began, |s.log|, |s.log| + 1);
      Finish(s, t).(
        committed := s.committed.(receipts := s.committed.receipts[txn.newReceipt := txn.phase.receipt]),
        answers := s.answers[t := answer],
        log := s.log + [V.IssueReceipt(txn.intakeId, txn.newReceipt)])
  }

  ghost function Statement(s: System, t: TxnId): System
    requires t in s.txns
  {
    match s.txns[t].phase
    case Started => ReadIntake(s, t)
    case IntakeRead(intake) => ReadVault(s, t, intake)
    case VaultRead(intake, limit) => ReadAppraisals(s, t, intake, limit)
    case Appraised(seen) => TakeLock(s, t, seen)
    case LockHeld(seen) => ReadReplay(s, t, seen)
    case Fresh(seen, at) => ReadExposure(s, t, seen, at)
    case Priced(seen) => SetPhase(s, t, Inserted(seen, NewReceipt(seen)))
    case Inserted(_, _) => Commit(s, t)
  }

  ghost function Next(s: System, e: Event): System {
    match e
    case Begin(t, intakeId, newReceipt) =>
      if t in s.txns || t in s.answers then s
      else s.(txns := s.txns[t := Txn(intakeId, newReceipt, |s.log|, Started)])
    case Proceed(t) => if t in s.txns then Statement(s, t) else s
    case Abort(t) => Finish(s, t)
    case Elsewhere(command) =>
      if command.IssueReceipt? then s
      else s.(committed := V.Step(s.committed, command).state, log := s.log + [command])
  }

  ghost function Run(s: System, events: seq<Event>): System {
    if events == [] then s else Next(Run(s, events[..|events| - 1]), events[|events| - 1])
  }

  // ----- the invariant of the interleaving -----

  ghost predicate IntakeStillRead(committed: V.State, id: V.IntakeId, intake: V.Intake) {
    id in committed.intakes && committed.intakes[id] == intake && intake.sealedHash.Some?
  }

  /** What an issuance read before taking the lock is still true. */
  ghost predicate StillSeen(committed: V.State, id: V.IntakeId, seen: Reading) {
    && IntakeStillRead(committed, id, seen.intake)
    && seen.intake.vault in committed.limits && committed.limits[seen.intake.vault] == seen.limit
    && seen.intake.appraisals != [] && seen.value == seen.intake.appraisals[|seen.intake.appraisals| - 1]
  }

  ghost predicate NoneHere(receipts: map<V.ReceiptId, Receipt>, vault: VaultId, hash: string) {
    forall id :: id in receipts && receipts[id].vault == vault ==> receipts[id].intakeHash != hash
  }

  /** After `at` commands no receipt had the hash, and the vault's exposure was at least what it is now. */
  ghost predicate WasFresh(log: seq<V.Command>, txn: Txn, seen: Reading, at: nat, exposure: nat) {
    && txn.began <= at <= |log|
    && var past := V.Run(V.Start, log[..at]);
       && StillSeen(past, txn.intakeId, seen)
       && !V.HasHash(past.receipts, HashOf(seen))
       && V.Exposure(past.receipts, seen.intake.vault) >= exposure
  }

  ghost predicate WithinLimit(receipts: map<V.ReceiptId, Receipt>, seen: Reading) {
    && NoneHere(receipts, seen.intake.vault, HashOf(seen))
    && V.Exposure(receipts, seen.intake.vault) + seen.value <= seen.limit
  }

  ghost predicate PhaseSound(committed: V.State, log: seq<V.Command>, txn: Txn) {
    && txn.began <= |log|
    && match txn.phase
       case Started => true
       case IntakeRead(intake) => IntakeStillRead(committed, txn.intakeId, intake)
       case VaultRead(intake, limit) =>
         && IntakeStillRead(committed, txn.intakeId, intake)
         && intake.vault in committed.limits && committed.limits[intake.vault] == limit
       case Appraised(seen) => StillSeen(committed, txn.intakeId, seen)
       case LockHeld(seen) => StillSeen(committed, txn.intakeId, seen)
       case Fresh(seen, at) =>
         && StillSeen(committed, txn.intakeId, seen)
         && NoneHere(committed.receipts, seen.intake.vault, HashOf(seen))
         && WasFresh(log, txn, seen, at, V.Exposure(committed.receipts, seen.intake.vault))
       case Priced(seen) => StillSeen(committed, txn.intakeId, seen) && WithinLimit(committed.receipts, seen)
       case Inserted(seen, receipt) =>
         && StillSeen(committed, txn.intakeId, seen) && WithinLimit(committed.receipts, seen)
         && receipt == NewReceipt(seen)
  }

  function LockedVault(phase: Phase): Option<VaultId> {
    match phase
    case LockHeld(seen) => Some(seen.intake.vault)
    case Fresh(seen, _) => Some(seen.intake.vault)
    case Priced(seen) => Some(seen.intake.vault)
    case Inserted(seen, _) => Some(seen.intake.vault)
    case _ => None
  }

  ghost predicate HoldsLock(locks: map<VaultId, TxnId>, t: TxnId, phase: Phase) {
    LockedVault(phase).Some? ==> LockedVault(phase).value in locks && locks[LockedVault(phase).value] == t
  }

  /** The answer is what the undivided issue answers after `at` commands, and what it did to the state is what the
      log shows there. */
  ghost predicate IsAtomic(log: seq<V.Command>, answer: Answer) {
    && answer.began <= answer.at <= answer.until <= |log|
    && (answer.wrote ==> answer.at < |log| && log[answer.at] == V.IssueReceipt(answer.intakeId, answer.newReceipt))
    && var before := V.Run(V.Start, log[..answer.at]);
       V.IssueStep(before, answer.intakeId, answer.newReceipt)
         == V.Outcome(if answer.wrote then V.Run(V.Start, log[..answer.at + 1]) else before, answer.result)
  }

  /** The receipt returned is the one with the intake's hash. */
  ghost predicate NamesItsReceipt(committed: V.State, answer: Answer) {
    answer.result.Ok? ==>
      && answer.intakeId in committed.intakes && committed.intakes[answer.intakeId].sealedHash.Some?
      && answer.result.value in committed.receipts
      && committed.receipts[answer.result.value].intakeHash == committed.intakes[answer.intakeId].sealedHash.value
  }

  ghost predicate SystemSound(s: System) {
    && V.Sound(s.committed)
    && s.committed == V.Run(V.Start, s.log)
    && s.txns.Keys !! s.answers.Keys
    && (forall t :: t in s.txns ==> HoldsLock(s.locks, t, s.txns[t].phase))
    && (forall t :: t in s.txns ==> PhaseSound(s.committed, s.log, s.txns[t]))
    && (forall t :: t in s.answers ==> IsAtomic(s.log, s.answers[t]) && NamesItsReceipt(s.committed, s.answers[t]))
  }

  // ----- what a commit leaves alone -----

  /** The vault's exposure has not grown, and it has no new receipt. */
  ghost predicate Spares(receipts: map<V.ReceiptId, Receipt>, receipts': map<V.ReceiptId, Receipt>, vault: VaultId) {
    && V.Exposure(receipts', vault) <= V.Exposure(receipts, vault)
    && (forall id :: id in receipts' && receipts'[id].vault == vault ==>
          id in receipts && receipts[id].vault == vault && receipts[id].intakeHash == receipts'[id].intakeHash)
  }

  lemma TransitionSpares(receipts: map<V.ReceiptId, Receipt>, id: V.ReceiptId, event: ReceiptEvent, vault: VaultId)
    requires id in receipts && Apply(receipts[id], event).Ok?
    ensures Spares(receipts, receipts[id := Apply(receipts[id], event).value], vault)
  {
    V.ExposureUpdate(receipts, id, Apply(receipts[id], event).value, vault);
  }

  lemma NewReceiptSpares(receipts: map<V.ReceiptId, Receipt>, id: V.ReceiptId, receipt: Receipt, vault: VaultId)
    requires id !in receipts && receipt.vault != vault
    ensures Spares(receipts, receipts[id := receipt], vault)
  {
    V.ExposureUpdate(receipts, id, receipt, vault);
  }

  lemma LendingSpares(s: V.State, id: V.ReceiptId, event: ReceiptEvent, vault: VaultId)
    ensures Spares(s.receipts, V.LendingStep(s, id, event).state.receipts, vault)
  {
    if V.LendingStep(s, id, event).result.Ok? { TransitionSpares(s.receipts, id, event, vault); }
  }

  lemma RequestSpares(s: V.State, id: V.ReceiptId, requestedBy: UserId, newRequest: V.RequestId, vault: VaultId)
    ensures Spares(s.receipts, V.RequestStep(s, id, requestedBy, newRequest).state.receipts, vault)
  {
    if V.RequestStep(s, id, requestedBy, newRequest).result.Ok? {
      TransitionSpares(s.receipts, id, BurnForRedemption, vault);
    }
  }

  /** Nothing but an issuance raises a vault's exposure. */
  lemma OtherCommandsSpare(s: V.State, c: V.Command, vault: VaultId)
    requires !c.IssueReceipt?
    ensures Spares(s.receipts, V.Step(s, c).state.receipts, vault)
  {
    match c
    case LendingEvent(id, event) => LendingSpares(s, id, event, vault);
    case RequestRedemption(id, requestedBy, newRequest) => RequestSpares(s, id, requestedBy, newRequest, vault);
    case _ =>
  }

  lemma SparedPhaseIsSound(committed: V.State, committed': V.State, log: seq<V.Command>, c: V.Command, txn: Txn)
    requires PhaseSound(committed, log, txn) && V.Persists(committed, committed')
    requires LockedVault(txn.phase).Some? ==>
               Spares(committed.receipts, committed'.receipts, LockedVault(txn.phase).value)
    ensures PhaseSound(committed', log + [c], txn)
  {
    if txn.phase.Fresh? {
      assert (log + [c])[..txn.phase.at] == log[..txn.phase.at];
    }
  }

  lemma AnswerStaysAtomic(log: seq<V.Command>, c: V.Command, answer: Answer)
    requires IsAtomic(log, answer)
    ensures IsAtomic(log + [c], answer)
  {
    assert (log + [c])[..answer.at] == log[..answer.at];
    if answer.wrote { assert (log + [c])[..answer.at + 1] == log[..answer.at + 1]; }
  }

  lemma AnswerStillNamesItsReceipt(committed: V.State, committed': V.State, answer: Answer)
    requires NamesItsReceipt(committed, answer) && V.Persists(committed, committed')
    ensures NamesItsReceipt(committed', answer)
  {}

  lemma LogRuns(log: seq<V.Command>, c: V.Command)
    ensures V.Run(V.Start, log + [c]) == V.Step(V.Run(V.Start, log), c).state
  {
    assert (log + [c])[..|log|] == log;
  }

  // ----- every event keeps the invariant -----

  lemma FinishKeeps(s: System, t: TxnId)
    requires SystemSound(s)
    ensures SystemSound(Finish(s, t))
  {
    forall u | u in s.txns && u != t ensures HoldsLock(Finish(s, t).locks, u, s.txns[u].phase) {
      assert HoldsLock(s.locks, u, s.txns[u].phase);
    }
  }

  /** An answer that wrote nothing, given after `at` commands. */
  lemma ReplyKeeps(s: System, t: TxnId, result: Result<nat>, at: nat)
    requires SystemSound(s) && t in s.txns && s.txns[t].began <= at <= |s.log|
    requires var past := V.Run(V.Start, s.log[..at]);
             V.IssueStep(past, s.txns[t].intakeId, s.txns[t].newReceipt) == V.Outcome(past, result)
    requires NamesItsReceipt(s.committed, Answer(s.txns[t].intakeId, 0, result, false, 0, 0, 0))
    ensures SystemSound(Reply(s, t, result, at))
  {
    FinishKeeps(s, t);
    var answer := Reply(s, t, result, at).answers[t];
    assert IsAtomic(s.log, answer) && NamesItsReceipt(s.committed, answer);
  }

  lemma SetPhaseKeeps(s: System, t: TxnId, phase: Phase)
    requires SystemSound(s) && t in s.txns
    requires HoldsLock(s.locks, t, phase) && PhaseSound(s.committed, s.log, s.txns[t].(phase := phase))
    ensures SystemSound(SetPhase(s, t, phase))
  {}

  lemma TakeLockKeeps(s: System, t: TxnId, seen: Reading)
    requires SystemSound(s) && t in s.txns && s.txns[t].phase == Appraised(seen)
    ensures SystemSound(TakeLock(s, t, seen))
  {
    if seen.intake.vault !in s.locks {
      var s' := TakeLock(s, t, seen);
      assert PhaseSound(s.committed, s.log, s.txns[t]);
      forall u | u in s'.txns ensures HoldsLock(s'.locks, u, s'.txns[u].phase) {
        assert HoldsLock(s.locks, u, s.txns[u].phase);
      }
    }
  }

  lemma ReadIntakeKeeps(s: System, t: TxnId)
    requires SystemSound(s) && t in s.txns && s.txns[t].phase == Started
    ensures SystemSound(ReadIntake(s, t))
  {
    var id := s.txns[t].intakeId;
    assert PhaseSound(s.committed, s.log, s.txns[t]) && s.log[..|s.log|] == s.log;
    if id !in s.committed.intakes {
      ReplyKeeps(s, t, Err(NotFound), |s.log|);
    } else if s.committed.intakes[id].sealedHash.None? {
      ReplyKeeps(s, t, Err(IntakeNotSealed), |s.log|);
    } else {
      SetPhaseKeeps(s, t, IntakeRead(s.committed.intakes[id]));
    }
  }

  lemma ReadVaultKeeps(s: System, t: TxnId, intake: V.Intake)
    requires SystemSound(s) && t in s.txns && s.txns[t].phase == IntakeRead(intake)
    ensures SystemSound(ReadVault(s, t, intake))
  {
    assert PhaseSound(s.committed, s.log, s.txns[t]) && s.log[..|s.log|] == s.log;
    if intake.vault !in s.committed.limits {
      ReplyKeeps(s, t, Err(NotFound), |s.log|);
    } else {
      SetPhaseKeeps(s, t, VaultRead(intake, s.committed.limits[intake.vault]));
    }
  }

  lemma ReadAppraisalsKeeps(s: System, t: TxnId, intake: V.Intake, limit: nat)
    requires SystemSound(s) && t in s.txns && s.txns[t].phase == VaultRead(intake, limit)
    ensures SystemSound(ReadAppraisals(s, t, intake, limit))
  {
    assert PhaseSound(s.committed, s.log, s.txns[t]) && s.log[..|s.log|] == s.log;
    if intake.appraisals == [] {
      ReplyKeeps(s, t, Err(IntakeIncomplete), |s.log|);
    } else {
      SetPhaseKeeps(s, t, Appraised(Reading(intake, limit, intake.appraisals[|intake.appraisals| - 1])));
    }
  }

  lemma ReadReplayKeeps(s: System, t: TxnId, seen: Reading)
    requires SystemSound(s) && t in s.txns && s.txns[t].phase == LockHeld(seen)
    ensures SystemSound(ReadReplay(s, t, seen))
  {
    var txn := s.txns[t];
    assert PhaseSound(s.committed, s.log, txn) && s.log[..|s.log|] == s.log;
    if V.HasHash(s.committed.receipts, HashOf(seen)) {
      ReplyKeeps(s, t, Ok(V.WithHash(s.committed.receipts, HashOf(seen))), |s.log|);
    } else {
      SetPhaseKeeps(s, t, Fresh(seen, |s.log|));
    }
  }

  /** Under the lock the exposure only falls, so what is over the limit now was over it at the replay read. */
  lemma LimitWasExceeded(log: seq<V.Command>, txn: Txn, seen: Reading, at: nat, exposure: nat)
    requires WasFresh(log, txn, seen, at, exposure) && exposure + seen.value > seen.limit
    ensures var past := V.Run(V.Start, log[..at]);
            V.IssueStep(past, txn.intakeId, txn.newReceipt) == V.Outcome(past, Err(VaultInsuredLimitExceeded))
  {}

  lemma ReadExposureKeeps(s: System, t: TxnId, seen: Reading, at: nat)
    requires SystemSound(s) && t in s.txns && s.txns[t].phase == Fresh(seen, at)
    ensures SystemSound(ReadExposure(s, t, seen, at))
  {
    var txn := s.txns[t];
    assert PhaseSound(s.committed, s.log, txn);
    var exposure := V.Exposure(s.committed.receipts, seen.intake.vault);
    if exposure + seen.value > seen.limit {
      LimitWasExceeded(s.log, txn, seen, at, exposure);
      ReplyKeeps(s, t, Err(VaultInsuredLimitExceeded), at);
    } else {
      SetPhaseKeeps(s, t, Priced(seen));
    }
  }

  /** A command commits: the other issuances and all answers are as sound as before. */
  lemma CommittedKeeps(s: System, s': System, c: V.Command)
    requires SystemSound(s) && s'.committed == V.Step(s.committed, c).state && s'.log == s.log + [c]
    requires s'.txns == s.txns && s'.locks == s.locks && s'.answers == s.answers
    requires forall t :: t in s.txns && LockedVault(s.txns[t].phase).Some? ==>
               Spares(s.committed.receipts, s'.committed.receipts, LockedVault(s.txns[t].phase).value)
    ensures SystemSound(s')
  {
    V.StepKeeps(s.committed, c);
    V.StepPersists(s.committed, c);
    LogRuns(s.log, c);
    forall t | t in s.txns ensures PhaseSound(s'.committed, s'.log, s.txns[t]) {
      SparedPhaseIsSound(s.committed, s'.committed, s.log, c, s.txns[t]);
    }
    forall t | t in s.answers ensures IsAtomic(s'.log, s.answers[t]) && NamesItsReceipt(s'.committed, s.answers[t]) {
      AnswerStaysAtomic(s.log, c, s.answers[t]);
      AnswerStillNamesItsReceipt(s.committed, s'.committed, s.answers[t]);
    }
  }

  lemma ElsewhereKeeps(s: System, c: V.Command)
    requires SystemSound(s)
    ensures SystemSound(Next(s, Elsewhere(c)))
  {
    if !c.IssueReceipt? {
      var s' := Next(s, Elsewhere(c));
      forall t | t in s.txns && LockedVault(s.txns[t].phase).Some?
        ensures Spares(s.committed.receipts, s'.committed.receipts, LockedVault(s.txns[t].phase).value)
      {
        OtherCommandsSpare(s.committed, c, LockedVault(s.txns[t].phase).value);
      }
      CommittedKeeps(s, s', c);
    }
  }

  // ----- the commit of an issuance -----

  /** An issuance the indexes accept does what the undivided issue does to the state committed by then. */
  lemma CommitIsAtomic(committed: V.State, log: seq<V.Command>, txn: Txn)
    requires txn.phase.Inserted? && PhaseSound(committed, log, txn) && !Refused(committed, txn)
    ensures V.IssueStep(committed, txn.intakeId, txn.newReceipt)
         == V.Outcome(committed.(receipts := committed.receipts[txn.newReceipt := txn.phase.receipt]),
                      Ok(txn.newReceipt))
  {}

  /** The other holders of a vault lock hold another vault's. */
  lemma CommitSparesOtherLocks(s: System, t: TxnId, u: TxnId)
    requires SystemSound(s) && t in s.txns && s.txns[t].phase.Inserted? && !Refused(s.committed, s.txns[t])
    requires u in s.txns && u != t && LockedVault(s.txns[u].phase).Some?
    ensures Spares(s.committed.receipts, s.committed.receipts[s.txns[t].newReceipt := s.txns[t].phase.receipt],
                   LockedVault(s.txns[u].phase).value)
  {
    assert HoldsLock(s.locks, t, s.txns[t].phase) && HoldsLock(s.locks, u, s.txns[u].phase);
    assert PhaseSound(s.committed, s.log, s.txns[t]);
    NewReceiptSpares(s.committed.receipts, s.txns[t].newReceipt, s.txns[t].phase.receipt,
                     LockedVault(s.txns[u].phase).value);
  }

  lemma CommitKeeps(s: System, t: TxnId)
    requires SystemSound(s) && t in s.txns && s.txns[t].phase.Inserted?
    ensures SystemSound(Commit(s, t))
  {
    var txn, rest := s.txns[t], Finish(s, t);
    FinishKeeps(s, t);
    if !Refused(s.committed, txn) {
      var c := V.IssueReceipt(txn.intakeId, txn.newReceipt);
      var s' := Commit(s, t);
      assert PhaseSound(s.committed, s.log, txn);
      CommitIsAtomic(s.committed, s.log, txn);
      forall u | u in rest.txns && LockedVault(rest.txns[u].phase).Some?
        ensures Spares(s.committed.receipts, s'.committed.receipts, LockedVault(rest.txns[u].phase).value)
      {
        CommitSparesOtherLocks(s, t, u);
      }
      CommittedKeeps(rest, s'.(answers := s.answers), c);
      CommitAnswers(s.committed, s.log, txn);
    }
  }

  lemma WrittenIsAtomic(log: seq<V.Command>, c: V.Command, answer: Answer)
    requires c == V.IssueReceipt(answer.intakeId, answer.newReceipt)
    requires answer.wrote && answer.began <= answer.at == |log| && answer.until == |log| + 1
    requires var outcome := V.IssueStep(V.Run(V.Start, log), answer.intakeId, answer.newReceipt);
             outcome.result == answer.result && outcome.state == V.Run(V.Start, log + [c])
    ensures IsAtomic(log + [c], answer)
  {
    assert (log + [c])[..|log|] == log && (log + [c])[..|log| + 1] == log + [c];
  }

  lemma CommitAnswers(committed: V.State, log: seq<V.Command>, txn: Txn)
    requires committed == V.Run(V.Start, log)
    requires txn.phase.Inserted? && PhaseSound(committed, log, txn) && !Refused(committed, txn)
    ensures var answer := Answer(txn.intakeId, txn.newReceipt, Ok(txn.newReceipt), true, txn.began, |log|, |log| + 1);
            && IsAtomic(log + [V.IssueReceipt(txn.intakeId, txn.newReceipt)], answer)
            && NamesItsReceipt(committed.(receipts := committed.receipts[txn.newReceipt := txn.phase.receipt]), answer)
  {
    var c := V.IssueReceipt(txn.intakeId, txn.newReceipt);
    var answer := Answer(txn.intakeId, txn.newReceipt, Ok(txn.newReceipt), true, txn.began, |log|, |log| + 1);
    CommitIsAtomic(committed, log, txn);
    LogRuns(log, c);
    WrittenIsAtomic(log, c, answer);
  }

  lemma StatementKeeps(s: System, t: TxnId)
    requires SystemSound(s) && t in s.txns
    ensures SystemSound(Statement(s, t))
  {
    assert PhaseSound(s.committed, s.log, s.txns[t]) && HoldsLock(s.locks, t, s.txns[t].phase);
    match s.txns[t].phase
    case Started => ReadIntakeKeeps(s, t);
    case IntakeRead(intake) => ReadVaultKeeps(s, t, intake);
    case VaultRead(intake, limit) => ReadAppraisalsKeeps(s, t, intake, limit);
    case Appraised(seen) => TakeLockKeeps(s, t, seen);
    case LockHeld(seen) => ReadReplayKeeps(s, t, seen);
    case Fresh(seen, at) => ReadExposureKeeps(s, t, seen, at);
    case Priced(seen) => SetPhaseKeeps(s, t, Inserted(seen, NewReceipt(seen)));
    case Inserted(_, _) => CommitKeeps(s, t);
  }

  lemma NextKeeps(s: System, e: Event)
    requires SystemSound(s)
    ensures SystemSound(Next(s, e))
  {
    match e
    case Begin(_, _, _) =>
    case Proceed(t) => if t in s.txns { StatementKeeps(s, t); }
    case Abort(t) => FinishKeeps(s, t);
    case Elsewhere(command) => ElsewhereKeeps(s, command);
  }

  lemma {:induction false} RunIsSound(events: seq<Event>)
    ensures SystemSound(Run(Start, events))
  {
    if events == [] {
      V.RunIsSound([]);
    } else {
      RunIsSound(events[..|events| - 1]);
      NextKeeps(Run(Start, events[..|events| - 1]), events[|events| - 1]);
    }
  }

  // ----- what every interleaving keeps -----

  /** Under every interleaving the committed state is the one the committed commands make when performed one at a
      time in commit order. So no vault holds more than it is insured for, and no two receipts have one hash. */
  lemma EveryInterleavingIsSerial(events: seq<Event>, vault: VaultId, i: V.ReceiptId, j: V.ReceiptId)
    ensures var s := Run(Start, events);
            var receipts := s.committed.receipts;
            && s.committed == V.Run(V.Start, s.log)
            && (vault in s.committed.limits ==> V.Exposure(receipts, vault) <= s.committed.limits[vault])
            && (i in receipts && j in receipts && receipts[i].intakeHash == receipts[j].intakeHash ==> i == j)
  {
    RunIsSound(events);
  }

  /** Every answer is the undivided issue's at some point between the issuance's begin and its answer, and so is what
      the issuance did to the state. */
  lemma EveryAnswerIsAtomic(events: seq<Event>, t: TxnId)
    requires t in Run(Start, events).answers
    ensures var s := Run(Start, events);
            var answer := s.answers[t];
            && answer.began <= answer.at <= answer.until <= |s.log|
            && (answer.wrote ==>
                  answer.at < |s.log| && s.log[answer.at] == V.IssueReceipt(answer.intakeId, answer.newReceipt))
            && var before := V.Run(V.Start, s.log[..answer.at]);
               V.IssueStep(before, answer.intakeId, answer.newReceipt)
                 == V.Outcome(if answer.wrote then V.Run(V.Start, s.log[..answer.at + 1]) else before, answer.result)
  {
    RunIsSound(events);
    assert IsAtomic(Run(Start, events).log, Run(Start, events).answers[t]);
  }

  /** Racing repeats all get the one receipt of their intake. */
  lemma RepeatsGetOneReceipt(events: seq<Event>, t: TxnId, u: TxnId)
    requires var answers := Run(Start, events).answers;
             && t in answers && u in answers && answers[t].intakeId == answers[u].intakeId
             && answers[t].result.Ok? && answers[u].result.Ok?
    ensures var answers := Run(Start, events).answers; answers[t].result == answers[u].result
  {
    RunIsSound(events);
    var s := Run(Start, events);
    assert NamesItsReceipt(s.committed, s.answers[t]) && NamesItsReceipt(s.committed, s.answers[u]);
  }

  ghost predicate HasHashElsewhere(receipts: map<V.ReceiptId, Receipt>, receipt: Receipt) {
    exists id :: id in receipts && receipts[id].intakeHash == receipt.intakeHash && receipts[id].vault != receipt.vault
  }

  /** With a new receipt id, the unique index refuses an insertion exactly when a receipt in another vault has the
      hash: within one vault the lock has seen to it already. */
  lemma IndexRefusesOnlyAnotherVaultsHash(events: seq<Event>, t: TxnId)
    requires var s := Run(Start, events);
             t in s.txns && s.txns[t].phase.Inserted? && s.txns[t].newReceipt !in s.committed.receipts
    ensures var s := Run(Start, events);
            var receipt := s.txns[t].phase.receipt;
            t !in Next(s, Proceed(t)).answers <==> HasHashElsewhere(s.committed.receipts, receipt)
  {
    RunIsSound(events);
    var s := Run(Start, events);
    assert PhaseSound(s.committed, s.log, s.txns[t]);
  }

  // ----- an issuance alone -----

  ghost function Statements(s: System, t: TxnId, n: nat): System
    decreases n
  {
    if n == 0 then s else Statements(Next(s, Proceed(t)), t, n - 1)
  }

  /** The issuance has ended with the answer and the state of the undivided issue, and holds no lock. */
  ghost predicate Gives(s: System, t: TxnId, outcome: V.Outcome) {
    && t !in s.txns && (forall v :: v in s.locks ==> s.locks[v] != t)
    && t in s.answers && s.answers[t].result == outcome.result && s.committed == outcome.state
  }

  lemma {:induction false} EndedStays(s: System, t: TxnId, n: nat, outcome: V.Outcome)
    requires Gives(s, t, outcome)
    ensures Gives(Statements(s, t, n), t, outcome)
    decreases n
  {
    if n > 0 { EndedStays(Next(s, Proceed(t)), t, n - 1, outcome); }
  }

  /** From the lock on: the replay read, the exposure read, the insertion and the commit. */
  lemma LockedIssuanceEnds(s: System, t: TxnId, seen: Reading)
    requires t in s.txns && s.txns[t].phase == LockHeld(seen) && s.txns[t].newReceipt !in s.committed.receipts
    requires StillSeen(s.committed, s.txns[t].intakeId, seen)
    ensures Gives(Statements(s, t, 4), t, V.IssueStep(s.committed, s.txns[t].intakeId, s.txns[t].newReceipt))
  {
    var outcome := V.IssueStep(s.committed, s.txns[t].intakeId, s.txns[t].newReceipt);
    var replay := ReadReplay(s, t, seen);
    assert Statements(s, t, 4) == Statements(replay, t, 3);
    if V.HasHash(s.committed.receipts, HashOf(seen)) {
      EndedStays(replay, t, 3, outcome);
    } else {
      FreshIssuanceEnds(replay, t, seen, |s.log|);
    }
  }

  lemma FreshIssuanceEnds(s: System, t: TxnId, seen: Reading, at: nat)
    requires t in s.txns && s.txns[t].phase == Fresh(seen, at) && s.txns[t].newReceipt !in s.committed.receipts
    requires StillSeen(s.committed, s.txns[t].intakeId, seen) && !V.HasHash(s.committed.receipts, HashOf(seen))
    ensures Gives(Statements(s, t, 3), t, V.IssueStep(s.committed, s.txns[t].intakeId, s.txns[t].newReceipt))
  {
    var outcome := V.IssueStep(s.committed, s.txns[t].intakeId, s.txns[t].newReceipt);
    var priced := ReadExposure(s, t, seen, at);
    assert Statements(s, t, 3) == Statements(priced, t, 2);
    if V.Exposure(s.committed.receipts, seen.intake.vault) + seen.value > seen.limit {
      EndedStays(priced, t, 2, outcome);
    } else {
      var inserted := SetPhase(priced, t, Inserted(seen, NewReceipt(seen)));
      InsertedIssuanceEnds(inserted, t, seen);
      PricedIssuanceEnds(priced, t, seen, outcome);
    }
  }

  lemma PricedIssuanceEnds(s: System, t: TxnId, seen: Reading, outcome: V.Outcome)
    requires t in s.txns && s.txns[t].phase == Priced(seen)
    requires Gives(Commit(SetPhase(s, t, Inserted(seen, NewReceipt(seen))), t), t, outcome)
    ensures Gives(Statements(s, t, 2), t, outcome)
  {
    var inserted := SetPhase(s, t, Inserted(seen, NewReceipt(seen)));
    assert Statements(s, t, 2) == Statements(inserted, t, 1) == Commit(inserted, t);
  }

  lemma InsertedIssuanceEnds(s: System, t: TxnId, seen: Reading)
    requires t in s.txns && s.txns[t].phase == Inserted(seen, NewReceipt(seen))
    requires s.txns[t].newReceipt !in s.committed.receipts
    requires StillSeen(s.committed, s.txns[t].intakeId, seen) && !V.HasHash(s.committed.receipts, HashOf(seen))
    requires V.Exposure(s.committed.receipts, seen.intake.vault) + seen.value <= seen.limit
    ensures Gives(Commit(s, t), t, V.IssueStep(s.committed, s.txns[t].intakeId, s.txns[t].newReceipt))
  {}

  /** Before the lock: the intake, the vault and the appraisals. */
  lemma UnlockedIssuanceEnds(s: System, t: TxnId)
    requires t in s.txns && s.txns[t].phase == Started && s.txns[t].newReceipt !in s.committed.receipts
    requires var id := s.txns[t].intakeId; id in s.committed.intakes ==> s.committed.intakes[id].vault !in s.locks
    ensures Gives(Statements(s, t, 8), t, V.IssueStep(s.committed, s.txns[t].intakeId, s.txns[t].newReceipt))
  {
    var id := s.txns[t].intakeId;
    var outcome := V.IssueStep(s.committed, id, s.txns[t].newReceipt);
    var s1 := ReadIntake(s, t);
    assert Statements(s, t, 8) == Statements(s1, t, 7);
    if t !in s1.txns {
      EndedStays(s1, t, 7, outcome);
    } else {
      var intake := s.committed.intakes[id];
      var s2 := ReadVault(s1, t, intake);
      assert Statements(s1, t, 7) == Statements(s2, t, 6);
      if t !in s2.txns {
        EndedStays(s2, t, 6, outcome);
      } else {
        KnownVaultEnds(s2, t, intake, s.committed.limits[intake.vault]);
      }
    }
  }

  lemma KnownVaultEnds(s: System, t: TxnId, intake: V.Intake, limit: nat)
    requires t in s.txns && s.txns[t].phase == VaultRead(intake, limit)
    requires s.txns[t].newReceipt !in s.committed.receipts && intake.vault !in s.locks
    requires IntakeStillRead(s.committed, s.txns[t].intakeId, intake)
    requires intake.vault in s.committed.limits && s.committed.limits[intake.vault] == limit
    ensures Gives(Statements(s, t, 6), t, V.IssueStep(s.committed, s.txns[t].intakeId, s.txns[t].newReceipt))
  {
    var outcome := V.IssueStep(s.committed, s.txns[t].intakeId, s.txns[t].newReceipt);
    var s3 := ReadAppraisals(s, t, intake, limit);
    assert Statements(s, t, 6) == Statements(s3, t, 5);
    if t !in s3.txns {
      EndedStays(s3, t, 5, outcome);
    } else {
      var seen := Reading(intake, limit, intake.appraisals[|intake.appraisals| - 1]);
      var s4 := TakeLock(s3, t, seen);
      assert Statements(s3, t, 5) == Statements(s4, t, 4);
      LockedIssuanceEnds(s4, t, seen);
    }
  }

  /** With its vault unlocked and a new receipt id, an issuance that nobody disturbs is answered within eight
      statements with the undivided issue's answer, and commits exactly what that does. */
  lemma LoneIssuanceIsTheIssue(s: System, t: TxnId, id: V.IntakeId, newReceipt: V.ReceiptId)
    requires t !in s.txns && t !in s.answers && newReceipt !in s.committed.receipts
    requires id in s.committed.intakes ==> s.committed.intakes[id].vault !in s.locks
    ensures Gives(Statements(Next(s, Begin(t, id, newReceipt)), t, 8), t, V.IssueStep(s.committed, id, newReceipt))
  {
    UnlockedIssuanceEnds(Next(s, Begin(t, id, newReceipt)), t);
  }

  /** An issuance that dies, at whatever statement, leaves the tables alone and no lock behind. */
  lemma AbortLeavesNothing(s: System, t: TxnId)
    ensures var after := Next(s, Abort(t));
            && after.committed == s.committed && after.log == s.log && after.answers == s.answers
            && t !in after.txns && forall v :: v in after.locks ==> after.locks[v] != t
  {}
}
