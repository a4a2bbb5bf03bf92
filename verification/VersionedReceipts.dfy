/** Version-checked saves of custody receipts by concurrent transactions: load, apply the event in memory, update
    the row where the version still matches, commit. An update locks its row until the transaction ends. */
module VersionedReceipts {
  import opened Shared
  import opened CustodyReceipts

  type ReceiptId = nat
  type TxnId = nat

  datatype Row = Row(receipt: Receipt, version: nat)

  datatype Phase = Started | Loaded(row: Row) | Updated(row: Row)

  datatype Txn = Txn(id: ReceiptId, event: ReceiptEvent, phase: Phase)

  datatype Fate = Committed | Refused(error: Error)

  /** How a transaction that got as far as saving ended, and the version it had loaded. */
  datatype Entry = Entry(id: ReceiptId, event: ReceiptEvent, version: nat, fate: Fate)

  /** The committed table, the row locks and the transactions; then what has happened: each receipt as issued,
      the events committed to it, and the log of finished saves. */
  datatype System = System(
    rows: map<ReceiptId, Row>,
    locks: map<ReceiptId, TxnId>,
    txns: map<TxnId, Txn>,
    issued: map<ReceiptId, Receipt>,
    histories: map<ReceiptId, seq<ReceiptEvent>>,
    log: seq<Entry>)

  datatype Event =
    | IssueReceipt(id: ReceiptId, vault: VaultId, holder: UserId, intakeHash: string, appraisedValue: int,
                   category: Category)
    | Begin(txn: TxnId, id: ReceiptId, event: ReceiptEvent)
    | Load(txn: TxnId)
    | Update(txn: TxnId)
    | Commit(txn: TxnId)
    | Abort(txn: TxnId)

  const Start := System(map[], map[], map[], map[], map[], [])

  /** Ends a transaction, giving up its locks. */
  function Finish(s: System, t: TxnId): System {
    s.(txns := s.txns - {t}, locks := map id | id in s.locks && s.locks[id] != t :: s.locks[id])
  }

  function FinishLogged(s: System, t: TxnId, fate: Fate): System
    requires t in s.txns && !s.txns[t].phase.Started?
  {
    Finish(s, t).(log := s.log + [Entry(s.txns[t].id, s.txns[t].event, s.txns[t].phase.row.version, fate)])
  }

  /** The entity's transition, then UPDATE … WHERE id AND version; a locked row makes the statement wait. */
  function UpdateStep(s: System, t: TxnId): System
    requires t in s.txns && s.txns[t].phase.Loaded?
  {
    var txn := s.txns[t];
    var loaded := txn.phase.row;
    match Apply(loaded.receipt, txn.event)
    case Err(error) => FinishLogged(s, t, Refused(error))
    case Ok(changed) =>
      if txn.id in s.locks && s.locks[txn.id] != t then s
      else if txn.id !in s.rows || s.rows[txn.id].version != loaded.version
           then FinishLogged(s, t, Refused(StaleVersion))
      else s.(locks := s.locks[txn.id := t], txns := s.txns[t := txn.(phase := Updated(Row(changed, loaded.version)))])
  }

  function CommitStep(s: System, t: TxnId): System
    requires t in s.txns && s.txns[t].phase.Updated?
  {
    var txn := s.txns[t];
    var history := if txn.id in s.histories then s.histories[txn.id] else [];
    FinishLogged(s, t, Committed).(
      rows := s.rows[txn.id := Row(txn.phase.row.receipt, txn.phase.row.version + 1)],
      histories := s.histories[txn.id := history + [txn.event]])
  }

  function Next(s: System, e: Event): System {
    match e
    case IssueReceipt(id, vault, holder, intakeHash, appraisedValue, category) =>
      if id in s.rows then s
      else
        var receipt := Issue(vault, holder, intakeHash, appraisedValue, category);
        s.(rows := s.rows[id := Row(receipt, 0)], issued := s.issued[id := receipt], histories := s.histories[id := []])
    case Begin(t, id, event) => if t in s.txns then s else s.(txns := s.txns[t := Txn(id, event, Started)])
    case Load(t) =>
      if t !in s.txns || s.txns[t].phase != Started then s
      else if s.txns[t].id !in s.rows then Finish(s, t)
      else s.(txns := s.txns[t := s.txns[t].(phase := Loaded(s.rows[s.txns[t].id]))])
    case Update(t) => if t in s.txns && s.txns[t].phase.Loaded? then UpdateStep(s, t) else s
    case Commit(t) => if t in s.txns && s.txns[t].phase.Updated? then CommitStep(s, t) else s
    case Abort(t) => Finish(s, t)
  }

  function Run(s: System, events: seq<Event>): System {
    if events == [] then s else Next(Run(s, events[..|events| - 1]), events[|events| - 1])
  }

  // ----- the invariant -----

  /** `row` is the receipt as it stood after the first `row.version` committed events. */
  ghost predicate IsVersion(s: System, id: ReceiptId, row: Row) {
    && id in s.issued && id in s.histories
    && row.version <= |s.histories[id]|
    && ApplyAll(s.issued[id], s.histories[id][..row.version]) == Ok(row.receipt)
  }

  ghost predicate RowsSound(s: System) {
    && s.rows.Keys == s.issued.Keys == s.histories.Keys
    && (forall id :: id in s.rows ==> IsVersion(s, id, s.rows[id]) && s.rows[id].version == |s.histories[id]|)
    && (forall id :: id in s.issued ==> Consistent(s.issued[id]))
  }

  ghost predicate TxnSound(s: System, t: TxnId)
    requires t in s.txns
  {
    var txn := s.txns[t];
    match txn.phase
    case Started => true
    case Loaded(row) => IsVersion(s, txn.id, row)
    case Updated(row) =>
      && txn.id in s.locks && s.locks[txn.id] == t
      && txn.id in s.rows && row.version == s.rows[txn.id].version
      && Apply(s.rows[txn.id].receipt, txn.event) == Ok(row.receipt)
  }

  ghost predicate IsCommit(log: seq<Entry>, i: int, id: ReceiptId, version: nat) {
    0 <= i < |log| && log[i].id == id && log[i].version == version && log[i].fate == Committed
  }

  /** The event the log entry was about, judged against the version it had loaded. */
  ghost predicate EntrySound(s: System, entry: Entry) {
    && entry.id in s.histories && entry.id in s.issued && entry.version <= |s.histories[entry.id]|
    && (var before := ApplyAll(s.issued[entry.id], s.histories[entry.id][..entry.version]);
        && before.Ok?
        && (entry.fate == Committed ==>
              entry.version < |s.histories[entry.id]| && s.histories[entry.id][entry.version] == entry.event)
        && (entry.fate == Committed || entry.fate == Refused(StaleVersion) ==> Apply(before.value, entry.event).Ok?)
        && (entry.fate == Refused(StaleVersion) ==> entry.version < |s.histories[entry.id]|)
        && (entry.fate.Refused? && entry.fate.error != StaleVersion ==>
              Apply(before.value, entry.event) == Err(entry.fate.error)))
  }

  ghost predicate CommitsOf(log: seq<Entry>, id: ReceiptId, version: nat) {
    exists i :: IsCommit(log, i, id, version)
  }

  ghost predicate LogSound(s: System) {
    && (forall i :: 0 <= i < |s.log| ==> EntrySound(s, s.log[i]))
    && (forall id, version :: id in s.histories && 0 <= version < |s.histories[id]| ==> CommitsOf(s.log, id, version))
    && (forall i, j :: 0 <= i < j < |s.log| && s.log[i].fate == Committed && s.log[j].fate == Committed
                       && s.log[i].id == s.log[j].id
          ==> s.log[i].version < s.log[j].version)
  }

  ghost predicate Sound(s: System) {
    RowsSound(s) && LogSound(s) && forall t :: t in s.txns ==> TxnSound(s, t)
  }

  lemma NoTransitionIsStale(receipt: Receipt, event: ReceiptEvent)
    ensures Apply(receipt, event) != Err(StaleVersion)
  {}

  lemma LogGrows(log: seq<Entry>, entry: Entry, id: ReceiptId, version: nat)
    requires CommitsOf(log, id, version)
    ensures CommitsOf(log + [entry], id, version)
  {
    var i :| IsCommit(log, i, id, version);
    assert IsCommit(log + [entry], i, id, version);
  }

  /** Ending a transaction with or without a log entry, the tables unchanged. */
  lemma FinishKeeps(s: System, t: TxnId)
    requires Sound(s)
    ensures Sound(Finish(s, t))
  {
    var s' := Finish(s, t);
    assert LogSound(s');
    forall u | u in s'.txns ensures TxnSound(s', u) {
      assert TxnSound(s, u);
    }
  }

  lemma RefusalKeeps(s: System, t: TxnId, error: Error)
    requires Sound(s) && t in s.txns && s.txns[t].phase.Loaded?
    requires EntrySound(s, Entry(s.txns[t].id, s.txns[t].event, s.txns[t].phase.row.version, Refused(error)))
    ensures Sound(FinishLogged(s, t, Refused(error)))
  {
    FinishKeeps(s, t);
    var s' := FinishLogged(s, t, Refused(error));
    var entry := Entry(s.txns[t].id, s.txns[t].event, s.txns[t].phase.row.version, Refused(error));
    forall id, version | id in s'.histories && 0 <= version < |s'.histories[id]|
      ensures CommitsOf(s'.log, id, version)
    {
      LogGrows(s.log, entry, id, version);
    }
    forall i | 0 <= i < |s'.log| ensures EntrySound(s', s'.log[i]) {
      assert i < |s.log| ==> EntrySound(s, s.log[i]);
    }
    assert LogSound(s');
    forall u | u in s'.txns ensures TxnSound(s', u) {
      assert TxnSound(Finish(s, t), u);
    }
  }

  lemma UpdateKeeps(s: System, t: TxnId)
    requires Sound(s) && t in s.txns && s.txns[t].phase.Loaded?
    ensures Sound(UpdateStep(s, t))
  {
    var txn := s.txns[t];
    var loaded := txn.phase.row;
    assert TxnSound(s, t);
    NoTransitionIsStale(loaded.receipt, txn.event);
    match Apply(loaded.receipt, txn.event)
    case Err(error) => RefusalKeeps(s, t, error);
    case Ok(changed) =>
      if txn.id in s.locks && s.locks[txn.id] != t {
      } else if s.rows[txn.id].version != loaded.version {
        RefusalKeeps(s, t, StaleVersion);
      } else {
        LockingKeeps(s, t, changed);
      }
  }

  lemma LockingKeeps(s: System, t: TxnId, changed: Receipt)
    requires Sound(s) && t in s.txns && s.txns[t].phase.Loaded?
    requires s.txns[t].id in s.locks ==> s.locks[s.txns[t].id] == t
    requires s.txns[t].id in s.rows && s.rows[s.txns[t].id].version == s.txns[t].phase.row.version
    requires Apply(s.txns[t].phase.row.receipt, s.txns[t].event) == Ok(changed)
    ensures Sound(s.(locks := s.locks[s.txns[t].id := t],
                     txns := s.txns[t := s.txns[t].(phase := Updated(Row(changed, s.txns[t].phase.row.version)))]))
  {
    var s' := s.(locks := s.locks[s.txns[t].id := t],
                 txns := s.txns[t := s.txns[t].(phase := Updated(Row(changed, s.txns[t].phase.row.version)))]);
    assert LogSound(s');
    assert IsVersion(s, s.txns[t].id, s.rows[s.txns[t].id]) && TxnSound(s, t);
    forall u | u in s'.txns ensures TxnSound(s', u) {
      assert TxnSound(s, u);
    }
  }

  /** Appending to one history leaves every earlier version what it was. */
  lemma VersionsStay(s: System, s': System, id: ReceiptId, row: Row)
    requires IsVersion(s, id, row) && s'.issued == s.issued
    requires id in s'.histories && s.histories[id] <= s'.histories[id]
    ensures IsVersion(s', id, row)
  {
    assert s'.histories[id][..row.version] == s.histories[id][..row.version];
  }

  lemma EntriesStay(s: System, s': System, entry: Entry)
    requires EntrySound(s, entry) && s'.issued == s.issued
    requires entry.id in s'.histories && s.histories[entry.id] <= s'.histories[entry.id]
    ensures EntrySound(s', entry)
  {
    assert s'.histories[entry.id][..entry.version] == s.histories[entry.id][..entry.version];
  }

  lemma CommitKeepsRows(s: System, t: TxnId)
    requires RowsSound(s) && t in s.txns && s.txns[t].phase.Updated? && TxnSound(s, t)
    ensures RowsSound(CommitStep(s, t))
  {
    var s' := CommitStep(s, t);
    var id := s.txns[t].id;
    var history := s.histories[id];
    assert s'.histories[id][..|history|] == history == history[..s.rows[id].version];
    assert s'.histories[id][..|history| + 1] == s'.histories[id];
    forall other | other in s'.rows
      ensures IsVersion(s', other, s'.rows[other]) && s'.rows[other].version == |s'.histories[other]|
    {
      if other != id { VersionsStay(s, s', other, s.rows[other]); }
    }
  }

  lemma CommitKeepsLog(s: System, t: TxnId)
    requires RowsSound(s) && LogSound(s) && t in s.txns && s.txns[t].phase.Updated? && TxnSound(s, t)
    ensures LogSound(CommitStep(s, t))
  {
    var s' := CommitStep(s, t);
    var id, version := s.txns[t].id, s.txns[t].phase.row.version;
    var entry := Entry(id, s.txns[t].event, version, Committed);
    var history := s.histories[id];
    assert s'.histories[id][..version] == history == history[..s.rows[id].version];
    forall i | 0 <= i < |s'.log| ensures EntrySound(s', s'.log[i]) {
      if i < |s.log| { EntriesStay(s, s', s.log[i]); }
    }
    forall other, v | other in s'.histories && 0 <= v < |s'.histories[other]| ensures CommitsOf(s'.log, other, v) {
      if other == id && v == version {
        assert IsCommit(s'.log, |s.log|, id, version);
      } else {
        LogGrows(s.log, entry, other, v);
      }
    }
    forall i | 0 <= i < |s.log| && s.log[i].fate == Committed && s.log[i].id == id ensures s.log[i].version < version {
      assert EntrySound(s, s.log[i]);
    }
  }

  lemma CommitKeeps(s: System, t: TxnId)
    requires Sound(s) && t in s.txns && s.txns[t].phase.Updated?
    ensures Sound(CommitStep(s, t))
  {
    var s' := CommitStep(s, t);
    assert TxnSound(s, t);
    CommitKeepsRows(s, t);
    CommitKeepsLog(s, t);
    forall u | u in s'.txns ensures TxnSound(s', u) {
      assert TxnSound(s, u);
      if s.txns[u].phase.Loaded? { VersionsStay(s, s', s.txns[u].id, s.txns[u].phase.row); }
    }
  }

  lemma IssueKeepsRows(s: System, s': System, id: ReceiptId, receipt: Receipt)
    requires RowsSound(s) && id !in s.rows && Consistent(receipt)
    requires s'.rows == s.rows[id := Row(receipt, 0)] && s'.issued == s.issued[id := receipt]
             && s'.histories == s.histories[id := []]
    ensures RowsSound(s')
  {
    forall other | other in s.rows ensures IsVersion(s', other, s.rows[other]) {
      assert IsVersion(s, other, s.rows[other]);
    }
  }

  lemma IssueKeepsLog(s: System, s': System, id: ReceiptId, receipt: Receipt)
    requires RowsSound(s) && LogSound(s) && id !in s.rows
    requires s'.issued == s.issued[id := receipt] && s'.histories == s.histories[id := []] && s'.log == s.log
    ensures LogSound(s')
  {
    forall i | 0 <= i < |s.log| ensures EntrySound(s', s.log[i]) {
      assert EntrySound(s, s.log[i]);
    }
  }

  lemma IssueKeeps(s: System, e: Event)
    requires Sound(s) && e.IssueReceipt?
    ensures Sound(Next(s, e))
  {
    var s' := Next(s, e);
    if s' != s {
      IssueKeepsRows(s, s', e.id, s'.issued[e.id]);
      IssueKeepsLog(s, s', e.id, s'.issued[e.id]);
      forall u | u in s'.txns ensures TxnSound(s', u) {
        assert TxnSound(s, u);
      }
    }
  }

  lemma LoadKeeps(s: System, t: TxnId)
    requires Sound(s) && t in s.txns && s.txns[t].phase == Started
    ensures Sound(Next(s, Load(t)))
  {
    var s' := Next(s, Load(t));
    if s.txns[t].id !in s.rows {
      FinishKeeps(s, t);
    } else {
      assert LogSound(s');
      forall u | u in s'.txns ensures TxnSound(s', u) {
        assert TxnSound(s, u);
      }
    }
  }

  lemma NextKeeps(s: System, e: Event)
    requires Sound(s)
    ensures Sound(Next(s, e))
  {
    match e
    case IssueReceipt(_, _, _, _, _, _) => IssueKeeps(s, e);
    case Begin(t, id, event) =>
      var s' := Next(s, e);
      assert LogSound(s');
      forall u | u in s'.txns ensures TxnSound(s', u) {
        assert u in s.txns ==> TxnSound(s, u);
      }
    case Load(t) => if Next(s, e) != s { LoadKeeps(s, t); }
    case Update(t) => if t in s.txns && s.txns[t].phase.Loaded? { UpdateKeeps(s, t); }
    case Commit(t) => if t in s.txns && s.txns[t].phase.Updated? { CommitKeeps(s, t); }
    case Abort(t) => FinishKeeps(s, t);
  }

  lemma {:induction false} RunIsSound(events: seq<Event>)
    ensures Sound(Run(Start, events))
  {
    if events != [] {
      RunIsSound(events[..|events| - 1]);
      NextKeeps(Run(Start, events[..|events| - 1]), events[|events| - 1]);
    }
  }

  /** However loads, saves and commits interleave, what is committed to a receipt is a path of the transition
      table from its issue, and its version counts the committed updates: none was lost. */
  lemma NoUpdateIsLost(events: seq<Event>, id: ReceiptId)
    requires id in Run(Start, events).rows
    ensures var s := Run(Start, events);
            && id in s.histories && id in s.issued
            && s.rows[id].version == |s.histories[id]|
            && ApplyAll(s.issued[id], s.histories[id]) == Ok(s.rows[id].receipt)
            && Consistent(s.rows[id].receipt)
  {
    RunIsSound(events);
    var s := Run(Start, events);
    assert IsVersion(s, id, s.rows[id]);
    assert s.histories[id][..|s.histories[id]|] == s.histories[id];
    EveryHistoryIsConsistent(s.issued[id], s.histories[id]);
  }

  /** Of the transactions that loaded the same version of a receipt at most one commits, and one is refused as
      stale only because another of them has committed. */
  lemma OneCommitPerVersion(events: seq<Event>, i: nat, j: nat)
    requires var log := Run(Start, events).log;
             i < |log| && j < |log| && log[i].id == log[j].id && log[i].version == log[j].version
    ensures var log := Run(Start, events).log; log[i].fate == Committed && log[j].fate == Committed ==> i == j
    ensures var log := Run(Start, events).log;
            log[i].fate == Refused(StaleVersion) ==> exists k :: IsCommit(log, k, log[i].id, log[i].version)
  {
    RunIsSound(events);
    OneCommit(Run(Start, events), i, j);
  }

  lemma OneCommit(s: System, i: nat, j: nat)
    requires LogSound(s) && i < |s.log| && j < |s.log| && s.log[i].id == s.log[j].id
             && s.log[i].version == s.log[j].version
    ensures s.log[i].fate == Committed && s.log[j].fate == Committed ==> i == j
    ensures s.log[i].fate == Refused(StaleVersion) ==> CommitsOf(s.log, s.log[i].id, s.log[i].version)
  {
    if s.log[i].fate == Refused(StaleVersion) {
      assert EntrySound(s, s.log[i]);
    }
  }

  /** The version of the receipt that a finished save had loaded was in the vault. */
  ghost predicate LoadedInVault(s: System, entry: Entry) {
    && entry.id in s.issued && entry.id in s.histories && entry.version <= |s.histories[entry.id]|
    && var loaded := ApplyAll(s.issued[entry.id], s.histories[entry.id][..entry.version]);
       loaded.Ok? && loaded.value.status == InVault
  }

  /** Two saves, and no others, from one version of one receipt. */
  ghost predicate OnlySavesFrom(log: seq<Entry>, i: nat, j: nat) {
    && i < |log| && j < |log| && log[i].id == log[j].id && log[i].version == log[j].version
    && forall k :: 0 <= k < |log| && log[k].id == log[i].id && log[k].version == log[i].version ==> k == i || k == j
  }

  lemma NotRefusedByTheTable(s: System, i: nat)
    requires LogSound(s) && i < |s.log| && LoadedInVault(s, s.log[i])
    requires s.log[i].event.Encumber? || s.log[i].event.BurnForRedemption?
    ensures s.log[i].fate == Committed || s.log[i].fate == Refused(StaleVersion)
  {
    assert EntrySound(s, s.log[i]);
  }

  lemma StaleBecauseOfTheOther(s: System, i: nat, j: nat)
    requires LogSound(s) && OnlySavesFrom(s.log, i, j) && s.log[i].fate == Refused(StaleVersion)
    ensures s.log[j].fate == Committed
  {
    OneCommit(s, i, j);
    var k :| IsCommit(s.log, k, s.log[i].id, s.log[i].version);
  }

  /** A redemption and an encumbrance that both loaded the same version of a receipt in the vault, and were the
      only saves from that version: exactly one of them commits. */
  lemma RaceHasOneWinner(events: seq<Event>, i: nat, j: nat)
    requires var s := Run(Start, events);
             && OnlySavesFrom(s.log, i, j) && LoadedInVault(s, s.log[i])
             && s.log[i].event.Encumber? && s.log[j].event.BurnForRedemption?
    ensures var log := Run(Start, events).log;
            (log[i].fate == Committed && log[j].fate == Refused(StaleVersion))
            || (log[i].fate == Refused(StaleVersion) && log[j].fate == Committed)
  {
    RunIsSound(events);
    RaceSettles(Run(Start, events), i, j);
  }

  lemma RaceSettles(s: System, i: nat, j: nat)
    requires LogSound(s) && OnlySavesFrom(s.log, i, j) && LoadedInVault(s, s.log[i])
    requires s.log[i].event.Encumber? && s.log[j].event.BurnForRedemption?
    ensures (s.log[i].fate == Committed && s.log[j].fate == Refused(StaleVersion))
            || (s.log[i].fate == Refused(StaleVersion) && s.log[j].fate == Committed)
  {
    NotRefusedByTheTable(s, i);
    NotRefusedByTheTable(s, j);
    OneCommit(s, i, j);
    if s.log[i].fate != Committed {
      StaleBecauseOfTheOther(s, i, j);
    }
  }

  // ----- a transaction alone -----

  function Alone(s: System, t: TxnId, id: ReceiptId, event: ReceiptEvent): System {
    Next(Next(Next(Next(s, Begin(t, id, event)), Load(t)), Update(t)), Commit(t))
  }

  /** The transaction is over and holds no lock. */
  predicate Over(s: System, t: TxnId) {
    t !in s.txns && forall id :: id in s.locks ==> s.locks[id] != t
  }

  lemma LoneUpdateEnds(s: System, t: TxnId)
    requires t in s.txns && s.txns[t].phase.Loaded? && s.txns[t].id in s.rows && s.txns[t].id !in s.locks
    requires s.txns[t].phase.row == s.rows[s.txns[t].id]
    ensures Transitioned(s, Next(Next(s, Update(t)), Commit(t)), s.txns[t].id, s.txns[t].event)
    ensures Over(Next(Next(s, Update(t)), Commit(t)), t)
  {
    var updated := UpdateStep(s, t);
    if t in updated.txns {
      assert Next(updated, Commit(t)) == CommitStep(updated, t);
    }
  }

  /** The receipt's transition is written at the next version, or its refusal logged. */
  ghost predicate Transitioned(s: System, after: System, id: ReceiptId, event: ReceiptEvent)
    requires id in s.rows
  {
    var row := s.rows[id];
    match Apply(row.receipt, event)
    case Ok(changed) =>
      && after.rows == s.rows[id := Row(changed, row.version + 1)]
      && after.log == s.log + [Entry(id, event, row.version, Committed)]
    case Err(error) =>
      after.rows == s.rows && after.log == s.log + [Entry(id, event, row.version, Refused(error))]
  }

  /** With the row unlocked, a transaction that nobody disturbs writes the receipt's transition at the next version, or
      is refused for the receipt's own reason; it never ends as stale, and an unknown receipt changes nothing. */
  lemma LoneTransactionIsItsTransition(s: System, t: TxnId, id: ReceiptId, event: ReceiptEvent)
    requires t !in s.txns && id !in s.locks
    ensures Over(Alone(s, t, id, event), t)
    ensures id in s.rows ==> Transitioned(s, Alone(s, t, id, event), id, event)
    ensures id !in s.rows ==> Alone(s, t, id, event).rows == s.rows && Alone(s, t, id, event).log == s.log
  {
    var loaded := Next(Next(s, Begin(t, id, event)), Load(t));
    if id in s.rows {
      LoneUpdateEnds(loaded, t);
    } else {
      assert t !in loaded.txns;
    }
  }

  /** A transaction that is aborted, at whatever statement, leaves the table alone and no lock behind. */
  lemma AbortLeavesNothing(s: System, t: TxnId)
    ensures Next(s, Abort(t)).rows == s.rows && Next(s, Abort(t)).log == s.log && Over(Next(s, Abort(t)), t)
  {}

  /** The repository and the adapter on top of it, inside one transaction. */
  class CustodyAdapter {
    var rows: map<ReceiptId, Row>

    constructor ()
      ensures rows == map[]
    {
      rows := map[];
    }

    method FindById(id: ReceiptId) returns (found: Option<Row>)
      ensures found == if id in rows then Some(rows[id]) else None
    {
      found := None;
      if id in rows {
        found := Some(rows[id]);
      }
    }

    /** Creates an unknown receipt at version zero; updates a known one only at the version it was loaded with. */
    method Save(id: ReceiptId, row: Row) returns (saved: bool)
      modifies this
      ensures saved <==> id !in old(rows) || old(rows)[id].version == row.version
      ensures rows == if !saved then old(rows)
                      else if id in old(rows) then old(rows)[id := Row(row.receipt, row.version + 1)]
                      else old(rows)[id := Row(row.receipt, 0)]
    {
      if id !in rows {
        rows := rows[id := Row(row.receipt, 0)];
        return true;
      }
      if rows[id].version != row.version {
        return false;
      }
      rows := rows[id := Row(row.receipt, row.version + 1)];
      return true;
    }

    /** Loads a receipt, applies the event through the entity, and saves it: inside one transaction the version
        cannot have moved, so the only failures are an unknown receipt and a transition the table rejects. */
    method Transition(id: ReceiptId, event: ReceiptEvent) returns (error: Option<Error>)
      modifies this
      ensures error == Some(NotFound) <==> id !in old(rows)
      ensures id in old(rows) ==> (error.None? <==> Allows(old(rows)[id].receipt.status, event))
      ensures error.Some? ==> rows == old(rows)
      ensures error.None? ==>
                && id in rows && rows[id].version == old(rows)[id].version + 1
                && Apply(old(rows)[id].receipt, event) == Ok(rows[id].receipt)
                && rows - {id} == old(rows) - {id}
    {
      var found := FindById(id);
      if found.None? {
        return Some(NotFound);
      }
      match Apply(found.value.receipt, event) {
        case Err(rejection) =>
          return Some(rejection);
        case Ok(changed) =>
          var saved := Save(id, found.value.(receipt := changed));
          return if saved then None else Some(StaleVersion);
      }
    }
  }

}
