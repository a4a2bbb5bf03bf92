/** The idempotency claim: any number of claimants race for the same keys, each performing one statement at a
    time. Those told `Claimed` execute their request, and complete or release the key when it is over. */
module Idempotency {
  import opened Shared

  type RowId = nat
  type ClaimantId = nat
  type RequestHash = string

  const PendingStatus: nat := 0

  /** A key belongs to an account. */
  datatype Slot = Slot(key: string, account: UserId)

  datatype Row = Row(slot: Slot, requestHash: RequestHash, expiresAt: Instant, status: nat, body: string)

  datatype Outcome = Claimed | Mismatch | InProgress | Completed(status: nat, body: string)

  /** The statement a claimant performs next. */
  datatype Phase = Inserting | Reading | Deleting(row: RowId)

  datatype Claimant = Claimant(
    slot: Slot,
    requestHash: RequestHash,
    now: Instant,
    expiresAt: Instant,
    phase: Phase,
    retries: nat)

  /** A request being executed by the claimant that was told `Claimed`. Once its answer could not be stored it only
      has its release left. No statement reads `row`, the row its claimant inserted. */
  datatype Execution = Execution(slot: Slot, row: RowId, releasing: bool)

  datatype Cause = Released(claimant: ClaimantId) | Expired(at: Instant)

  datatype Entry =
    | Won(claimant: ClaimantId, slot: Slot, row: RowId)
    | Stored(claimant: ClaimantId, slot: Slot, row: RowId)
    | Removed(slot: Slot, row: RowId, expiresAt: Instant, cause: Cause)

  /** The table by primary key, the claimants under way, the outcomes handed out, the requests being executed, and
      the log of insertions, stored answers and removals. Row ids are generated, so each insertion uses a new one. */
  datatype System = System(
    rows: map<RowId, Row>,
    nextRow: RowId,
    claimants: map<ClaimantId, Claimant>,
    outcomes: map<ClaimantId, Outcome>,
    executing: map<ClaimantId, Execution>,
    log: seq<Entry>)

  datatype Event =
    | Begin(claimant: ClaimantId, slot: Slot, requestHash: RequestHash, now: Instant, expiresAt: Instant)
    | Proceed(claimant: ClaimantId)
    | Complete(claimant: ClaimantId, status: nat, body: string)
    | Release(claimant: ClaimantId)
    | Crash(claimant: ClaimantId)

  const Start := System(map[], 0, map[], map[], map[], [])

  ghost predicate Has(rows: map<RowId, Row>, slot: Slot) {
    exists id :: id in rows && rows[id].slot == slot
  }

  ghost function Find(rows: map<RowId, Row>, slot: Slot): RowId
    requires Has(rows, slot)
  {
    var id :| id in rows && rows[id].slot == slot; id
  }

  function SetPhase(s: System, c: ClaimantId, phase: Phase): System
    requires c in s.claimants
  {
    s.(claimants := s.claimants[c := s.claimants[c].(phase := phase)])
  }

  /** The recursive call: back to the insertion. */
  function Retry(s: System, c: ClaimantId): System
    requires c in s.claimants
  {
    s.(claimants := s.claimants[c := s.claimants[c].(phase := Inserting, retries := s.claimants[c].retries + 1)])
  }

  function Answer(s: System, c: ClaimantId, outcome: Outcome): System {
    s.(claimants := s.claimants - {c}, outcomes := s.outcomes[c := outcome])
  }

  function Remove(s: System, id: RowId, cause: Cause): System
    requires id in s.rows
  {
    s.(rows := s.rows - {id}, log := s.log + [Removed(s.rows[id].slot, id, s.rows[id].expiresAt, cause)])
  }

  function NewRow(claimant: Claimant): Row {
    Row(claimant.slot, claimant.requestHash, claimant.expiresAt, PendingStatus, "null")
  }

  function Win(s: System, c: ClaimantId): System
    requires c in s.claimants
  {
    var row := NewRow(s.claimants[c]);
    Answer(s, c, Claimed).(
      rows := s.rows[s.nextRow := row],
      nextRow := s.nextRow + 1,
      executing := s.executing[c := Execution(row.slot, s.nextRow, false)],
      log := s.log + [Won(c, row.slot, s.nextRow)])
  }

  /** INSERT … ON CONFLICT DO NOTHING. */
  ghost function InsertStep(s: System, c: ClaimantId): System
    requires c in s.claimants
  {
    if Has(s.rows, s.claimants[c].slot) then SetPhase(s, c, Reading) else Win(s, c)
  }

  ghost function ReadStep(s: System, c: ClaimantId): System
    requires c in s.claimants
  {
    var claimant := s.claimants[c];
    if !Has(s.rows, claimant.slot) then Retry(s, c)
    else
      var id := Find(s.rows, claimant.slot);
      var row := s.rows[id];
      if row.expiresAt <= claimant.now then SetPhase(s, c, Deleting(id))
      else if row.requestHash != claimant.requestHash then Answer(s, c, Mismatch)
      else if row.status == PendingStatus then Answer(s, c, InProgress)
      else Answer(s, c, Completed(row.status, row.body))
  }

  /** Deletes the row it read, by id, if nobody else has. */
  function DeleteStep(s: System, c: ClaimantId): System
    requires c in s.claimants && s.claimants[c].phase.Deleting?
  {
    var id := s.claimants[c].phase.row;
    var retried := Retry(s, c);
    if id in s.rows then Remove(retried, id, Expired(s.claimants[c].now)) else retried
  }

  /** Stores the answer in whatever row the key has by then. Without one the update throws, and the error handler
      around it releases the key next. */
  ghost function CompleteStep(s: System, c: ClaimantId, status: nat, body: string): System
    requires c in s.executing
  {
    var execution := s.executing[c];
    if execution.releasing then s
    else if !Has(s.rows, execution.slot) then s.(executing := s.executing[c := execution.(releasing := true)])
    else
      var id := Find(s.rows, execution.slot);
      s.(rows := s.rows[id := s.rows[id].(status := status, body := body)],
         executing := s.executing - {c},
         log := s.log + [Stored(c, execution.slot, id)])
  }

  /** The request failed: deletes whatever row the key has by then. */
  ghost function ReleaseStep(s: System, c: ClaimantId): System
    requires c in s.executing
  {
    var over := s.(executing := s.executing - {c});
    if !Has(s.rows, s.executing[c].slot) then over else Remove(over, Find(s.rows, s.executing[c].slot), Released(c))
  }

  ghost function Next(s: System, e: Event): System {
    match e
    case Begin(c, slot, requestHash, now, expiresAt) =>
      if c in s.claimants || c in s.outcomes then s
      else s.(claimants := s.claimants[c := Claimant(slot, requestHash, now, expiresAt, Inserting, 0)])
    case Proceed(c) =>
      if c !in s.claimants then s
      else (match s.claimants[c].phase
            case Inserting => InsertStep(s, c)
            case Reading => ReadStep(s, c)
            case Deleting(_) => DeleteStep(s, c))
    case Complete(c, status, body) => if c in s.executing then CompleteStep(s, c, status, body) else s
    case Release(c) => if c in s.executing then ReleaseStep(s, c) else s
    case Crash(c) => s.(executing := s.executing - {c})
  }

  ghost function Run(s: System, events: seq<Event>): System {
    if events == [] then s else Next(Run(s, events[..|events| - 1]), events[|events| - 1])
  }

  // ----- the invariant -----

  /** The unique index on key and account. */
  ghost predicate OneRowPerSlot(rows: map<RowId, Row>) {
    forall i, j :: i in rows && j in rows && rows[i].slot == rows[j].slot ==> i == j
  }

  ghost predicate RemovedBetween(log: seq<Entry>, i: int, j: int, slot: Slot, row: RowId) {
    exists k :: 0 <= i < k < j <= |log| && log[k].Removed? && log[k].slot == slot && log[k].row == row
  }

  ghost predicate IsWin(log: seq<Entry>, i: int) {
    0 <= i < |log| && log[i].Won?
  }

  /** Every won row is still there or was removed since; wins of one slot are separated by a removal. */
  ghost predicate LogSound(rows: map<RowId, Row>, nextRow: RowId, log: seq<Entry>) {
    && (forall i :: IsWin(log, i) ==> log[i].row < nextRow)
    && (forall i, j :: IsWin(log, i) && IsWin(log, j) && i < j ==> log[i].row < log[j].row)
    && (forall i :: IsWin(log, i) ==>
          (log[i].row in rows && rows[log[i].row].slot == log[i].slot)
          || RemovedBetween(log, i, |log|, log[i].slot, log[i].row))
    && (forall i, j :: IsWin(log, i) && IsWin(log, j) && i < j && log[i].slot == log[j].slot ==>
          RemovedBetween(log, i, j, log[i].slot, log[i].row))
    && (forall k :: 0 <= k < |log| && log[k].Removed? && log[k].cause.Expired? ==> log[k].expiresAt <= log[k].cause.at)
  }

  ghost predicate RowsSound(rows: map<RowId, Row>, nextRow: RowId) {
    && OneRowPerSlot(rows)
    && (forall id :: id in rows ==> id < nextRow)
  }

  /** A claimant about to delete a row has seen it expired, and rows never change their expiry. */
  ghost predicate ClaimantsSound(rows: map<RowId, Row>, nextRow: RowId, claimants: map<ClaimantId, Claimant>) {
    forall c :: c in claimants && claimants[c].phase.Deleting? ==>
      && claimants[c].phase.row < nextRow
      && (claimants[c].phase.row in rows ==> rows[claimants[c].phase.row].expiresAt <= claimants[c].now)
  }

  ghost predicate HasWon(log: seq<Entry>, c: ClaimantId) {
    exists i :: IsWin(log, i) && log[i].claimant == c
  }

  ghost predicate WinsMatchOutcomes(log: seq<Entry>, outcomes: map<ClaimantId, Outcome>) {
    && (forall i :: IsWin(log, i) ==> log[i].claimant in outcomes && outcomes[log[i].claimant] == Claimed)
    && (forall c :: c in outcomes && outcomes[c] == Claimed ==> HasWon(log, c))
    && (forall i, j :: IsWin(log, i) && IsWin(log, j) && log[i].claimant == log[j].claimant ==> i == j)
  }

  ghost predicate HasInserted(log: seq<Entry>, c: ClaimantId, slot: Slot, row: RowId) {
    exists i :: IsWin(log, i) && log[i] == Won(c, slot, row)
  }

  /** Whoever executes a request won its key with the row the execution names. */
  ghost predicate ExecutionsSound(rows: map<RowId, Row>, log: seq<Entry>, executing: map<ClaimantId, Execution>) {
    forall c :: c in executing ==>
      && HasInserted(log, c, executing[c].slot, executing[c].row)
      && (executing[c].row in rows ==> rows[executing[c].row].slot == executing[c].slot)
  }

  ghost predicate Sound(s: System) {
    && RowsSound(s.rows, s.nextRow)
    && LogSound(s.rows, s.nextRow, s.log)
    && s.claimants.Keys !! s.outcomes.Keys
    && ClaimantsSound(s.rows, s.nextRow, s.claimants)
    && WinsMatchOutcomes(s.log, s.outcomes)
    && ExecutionsSound(s.rows, s.log, s.executing)
  }

  lemma LongerLog(log: seq<Entry>, entry: Entry)
    ensures forall i :: IsWin(log, i) ==> IsWin(log + [entry], i) && (log + [entry])[i] == log[i]
    ensures forall i :: IsWin(log + [entry], i) ==>
              if i == |log| then entry.Won? else IsWin(log, i) && (log + [entry])[i] == log[i]
    ensures forall i, j, slot, row ::
              RemovedBetween(log, i, j, slot, row) ==> RemovedBetween(log + [entry], i, j, slot, row)
    ensures entry.Removed? ==>
              forall i :: 0 <= i < |log| ==> RemovedBetween(log + [entry], i, |log + [entry]|, entry.slot, entry.row)
  {
    var longer := log + [entry];
    forall i, j, slot, row | RemovedBetween(log, i, j, slot, row) ensures RemovedBetween(longer, i, j, slot, row) {
      var k :| 0 <= i < k < j <= |log| && log[k].Removed? && log[k].slot == slot && log[k].row == row;
      assert longer[k] == log[k];
    }
    if entry.Removed? {
      assert longer[|log|] == entry;
    }
  }

  lemma RemovedStaysRemoved(log: seq<Entry>, i: int, j: int, j': int, slot: Slot, row: RowId)
    requires RemovedBetween(log, i, j, slot, row) && j <= j' <= |log|
    ensures RemovedBetween(log, i, j', slot, row)
  {}

  lemma StillInserted(log: seq<Entry>, entry: Entry, c: ClaimantId, slot: Slot, row: RowId)
    requires HasInserted(log, c, slot, row)
    ensures HasInserted(log + [entry], c, slot, row)
  {
    var i :| IsWin(log, i) && log[i] == Won(c, slot, row);
    assert IsWin(log + [entry], i) && (log + [entry])[i] == log[i];
  }

  lemma JustInserted(log: seq<Entry>, c: ClaimantId, slot: Slot, row: RowId)
    ensures HasInserted(log + [Won(c, slot, row)], c, slot, row)
  {
    assert IsWin(log + [Won(c, slot, row)], |log|);
  }

  lemma StillWon(log: seq<Entry>, entry: Entry)
    ensures forall c :: HasWon(log, c) ==> HasWon(log + [entry], c)
  {
    forall c | HasWon(log, c) ensures HasWon(log + [entry], c) {
      var i :| IsWin(log, i) && log[i].claimant == c;
      assert IsWin(log + [entry], i) && (log + [entry])[i] == log[i];
    }
  }

  lemma InsertKeepsLog(rows: map<RowId, Row>, nextRow: RowId, log: seq<Entry>, c: ClaimantId, row: Row)
    requires RowsSound(rows, nextRow) && LogSound(rows, nextRow, log) && !Has(rows, row.slot)
    ensures LogSound(rows[nextRow := row], nextRow + 1, log + [Won(c, row.slot, nextRow)])
  {
    var rows', log' := rows[nextRow := row], log + [Won(c, row.slot, nextRow)];
    LongerLog(log, Won(c, row.slot, nextRow));
    forall i | IsWin(log', i)
      ensures (log'[i].row in rows' && rows'[log'[i].row].slot == log'[i].slot)
              || RemovedBetween(log', i, |log'|, log'[i].slot, log'[i].row)
    {
      if i < |log| && RemovedBetween(log, i, |log|, log[i].slot, log[i].row) {
        RemovedStaysRemoved(log', i, |log|, |log'|, log[i].slot, log[i].row);
      }
    }
    forall i, j | IsWin(log', i) && IsWin(log', j) && i < j && log'[i].slot == log'[j].slot
      ensures RemovedBetween(log', i, j, log'[i].slot, log'[i].row)
    {
      if j == |log| {
        assert IsWin(log, i) && !(log[i].row in rows && rows[log[i].row].slot == row.slot);
      } else {
        assert IsWin(log, i) && IsWin(log, j);
      }
    }
  }

  lemma InsertKeepsOutcomes(log: seq<Entry>, outcomes: map<ClaimantId, Outcome>, c: ClaimantId, slot: Slot, id: RowId)
    requires WinsMatchOutcomes(log, outcomes) && c !in outcomes
    ensures WinsMatchOutcomes(log + [Won(c, slot, id)], outcomes[c := Claimed])
  {
    LongerLog(log, Won(c, slot, id));
    StillWon(log, Won(c, slot, id));
    assert IsWin(log + [Won(c, slot, id)], |log|);
  }

  lemma InsertKeepsExecutions(rows: map<RowId, Row>, nextRow: RowId, log: seq<Entry>,
                              executing: map<ClaimantId, Execution>, c: ClaimantId, row: Row)
    requires LogSound(rows, nextRow, log) && ExecutionsSound(rows, log, executing)
    ensures ExecutionsSound(rows[nextRow := row], log + [Won(c, row.slot, nextRow)],
                            executing[c := Execution(row.slot, nextRow, false)])
  {
    var entry := Won(c, row.slot, nextRow);
    JustInserted(log, c, row.slot, nextRow);
    forall d | d in executing
      ensures executing[d].row < nextRow && HasInserted(log + [entry], d, executing[d].slot, executing[d].row)
    {
      InsertedEarlier(rows, nextRow, log, d, executing[d].slot, executing[d].row);
      StillInserted(log, entry, d, executing[d].slot, executing[d].row);
    }
  }

  lemma InsertedEarlier(rows: map<RowId, Row>, nextRow: RowId, log: seq<Entry>, c: ClaimantId, slot: Slot, row: RowId)
    requires LogSound(rows, nextRow, log) && HasInserted(log, c, slot, row)
    ensures row < nextRow
  {}

  lemma InsertKeepsRows(rows: map<RowId, Row>, nextRow: RowId, claimants: map<ClaimantId, Claimant>, c: ClaimantId,
                        row: Row)
    requires RowsSound(rows, nextRow) && ClaimantsSound(rows, nextRow, claimants) && !Has(rows, row.slot)
    ensures RowsSound(rows[nextRow := row], nextRow + 1)
    ensures ClaimantsSound(rows[nextRow := row], nextRow + 1, claimants - {c})
  {}

  lemma WinKeepsSound(s: System, c: ClaimantId)
    requires Sound(s) && c in s.claimants && !Has(s.rows, s.claimants[c].slot)
    ensures Sound(Win(s, c))
  {
    var row := NewRow(s.claimants[c]);
    InsertKeepsLog(s.rows, s.nextRow, s.log, c, row);
    InsertKeepsOutcomes(s.log, s.outcomes, c, row.slot, s.nextRow);
    InsertKeepsExecutions(s.rows, s.nextRow, s.log, s.executing, c, row);
    InsertKeepsRows(s.rows, s.nextRow, s.claimants, c, row);
  }

  /** Adding an entry that is no win, while no row but a removed one leaves the table or changes slot or expiry. */
  lemma OtherEntryKeepsLog(rows: map<RowId, Row>, rows': map<RowId, Row>, nextRow: RowId, log: seq<Entry>, entry: Entry)
    requires LogSound(rows, nextRow, log) && !entry.Won?
    requires entry.Removed? && entry.cause.Expired? ==> entry.expiresAt <= entry.cause.at
    requires forall id :: id in rows ==>
               if id in rows' then rows'[id].slot == rows[id].slot
               else entry.Removed? && entry.row == id && entry.slot == rows[id].slot
    ensures LogSound(rows', nextRow, log + [entry])
  {
    var log' := log + [entry];
    LongerLog(log, entry);
    forall i | IsWin(log', i)
      ensures (log'[i].row in rows' && rows'[log'[i].row].slot == log'[i].slot)
              || RemovedBetween(log', i, |log'|, log'[i].slot, log'[i].row)
    {
      if RemovedBetween(log, i, |log|, log[i].slot, log[i].row) {
        RemovedStaysRemoved(log', i, |log|, |log'|, log[i].slot, log[i].row);
      }
    }
  }

  lemma OtherEntryKeepsOutcomes(log: seq<Entry>, outcomes: map<ClaimantId, Outcome>, entry: Entry)
    requires WinsMatchOutcomes(log, outcomes) && !entry.Won?
    ensures WinsMatchOutcomes(log + [entry], outcomes)
  {
    LongerLog(log, entry);
    StillWon(log, entry);
  }

  lemma OtherEntryKeepsExecutions(rows: map<RowId, Row>, rows': map<RowId, Row>, log: seq<Entry>, entry: Entry,
                                  executing: map<ClaimantId, Execution>)
    requires ExecutionsSound(rows, log, executing)
    requires forall id :: id in rows' ==> id in rows && rows'[id].slot == rows[id].slot
    ensures ExecutionsSound(rows', log + [entry], executing)
  {
    forall c | c in executing ensures HasInserted(log + [entry], c, executing[c].slot, executing[c].row) {
      StillInserted(log, entry, c, executing[c].slot, executing[c].row);
    }
  }

  lemma RemoveKeepsSound(s: System, id: RowId, cause: Cause)
    requires Sound(s) && id in s.rows
    requires cause.Expired? ==> s.rows[id].expiresAt <= cause.at
    ensures Sound(Remove(s, id, cause))
  {
    var entry := Removed(s.rows[id].slot, id, s.rows[id].expiresAt, cause);
    OtherEntryKeepsLog(s.rows, s.rows - {id}, s.nextRow, s.log, entry);
    OtherEntryKeepsOutcomes(s.log, s.outcomes, entry);
    OtherEntryKeepsExecutions(s.rows, s.rows - {id}, s.log, entry, s.executing);
  }

  lemma PhaseKeepsSound(s: System, c: ClaimantId, claimant: Claimant)
    requires Sound(s) && c in s.claimants && claimant.now == s.claimants[c].now
    requires claimant.phase.Deleting? ==>
               claimant.phase.row in s.rows && s.rows[claimant.phase.row].expiresAt <= claimant.now
    ensures Sound(s.(claimants := s.claimants[c := claimant]))
  {}

  lemma AnswerKeepsSound(s: System, c: ClaimantId, outcome: Outcome)
    requires Sound(s) && c in s.claimants && outcome != Claimed
    ensures Sound(Answer(s, c, outcome))
  {}

  lemma RetryKeepsSound(s: System, c: ClaimantId)
    requires Sound(s) && c in s.claimants
    ensures Sound(Retry(s, c))
  {
    PhaseKeepsSound(s, c, s.claimants[c].(phase := Inserting, retries := s.claimants[c].retries + 1));
  }

  lemma ReadKeepsSound(s: System, c: ClaimantId)
    requires Sound(s) && c in s.claimants
    ensures Sound(ReadStep(s, c))
  {
    var claimant := s.claimants[c];
    if !Has(s.rows, claimant.slot) {
      RetryKeepsSound(s, c);
    } else {
      var id := Find(s.rows, claimant.slot);
      if s.rows[id].expiresAt <= claimant.now {
        PhaseKeepsSound(s, c, claimant.(phase := Deleting(id)));
      } else if s.rows[id].requestHash != claimant.requestHash {
        AnswerKeepsSound(s, c, Mismatch);
      } else if s.rows[id].status == PendingStatus {
        AnswerKeepsSound(s, c, InProgress);
      } else {
        AnswerKeepsSound(s, c, Completed(s.rows[id].status, s.rows[id].body));
      }
    }
  }

  lemma DeleteKeepsSound(s: System, c: ClaimantId)
    requires Sound(s) && c in s.claimants && s.claimants[c].phase.Deleting?
    ensures Sound(DeleteStep(s, c))
  {
    RetryKeepsSound(s, c);
    var id := s.claimants[c].phase.row;
    if id in s.rows { RemoveKeepsSound(Retry(s, c), id, Expired(s.claimants[c].now)); }
  }

  lemma FewerExecutionsAreSound(s: System, c: ClaimantId)
    requires Sound(s)
    ensures Sound(s.(executing := s.executing - {c}))
  {}

  lemma StoreKeepsSound(s: System, c: ClaimantId, id: RowId, row: Row)
    requires Sound(s) && id in s.rows && row.slot == s.rows[id].slot && row.expiresAt == s.rows[id].expiresAt
    ensures Sound(s.(rows := s.rows[id := row], log := s.log + [Stored(c, row.slot, id)]))
  {
    var entry := Stored(c, row.slot, id);
    OtherEntryKeepsLog(s.rows, s.rows[id := row], s.nextRow, s.log, entry);
    OtherEntryKeepsOutcomes(s.log, s.outcomes, entry);
    OtherEntryKeepsExecutions(s.rows, s.rows[id := row], s.log, entry, s.executing);
  }

  lemma CompleteKeepsSound(s: System, c: ClaimantId, status: nat, body: string)
    requires Sound(s) && c in s.executing
    ensures Sound(CompleteStep(s, c, status, body))
  {
    var slot := s.executing[c].slot;
    if !s.executing[c].releasing && Has(s.rows, slot) {
      var id := Find(s.rows, slot);
      FewerExecutionsAreSound(s, c);
      StoreKeepsSound(s.(executing := s.executing - {c}), c, id, s.rows[id].(status := status, body := body));
    }
  }

  lemma ReleaseKeepsSound(s: System, c: ClaimantId)
    requires Sound(s) && c in s.executing
    ensures Sound(ReleaseStep(s, c))
  {
    var slot := s.executing[c].slot;
    FewerExecutionsAreSound(s, c);
    if Has(s.rows, slot) { RemoveKeepsSound(s.(executing := s.executing - {c}), Find(s.rows, slot), Released(c)); }
  }

  lemma ProceedKeepsSound(s: System, c: ClaimantId)
    requires Sound(s) && c in s.claimants
    ensures Sound(Next(s, Proceed(c)))
  {
    match s.claimants[c].phase
    case Inserting => if !Has(s.rows, s.claimants[c].slot) { WinKeepsSound(s, c); }
    case Reading => ReadKeepsSound(s, c);
    case Deleting(_) => DeleteKeepsSound(s, c);
  }

  lemma BeginKeepsSound(s: System, e: Event)
    requires Sound(s) && e.Begin?
    ensures Sound(Next(s, e))
  {}

  lemma NextKeepsSound(s: System, e: Event)
    requires Sound(s)
    ensures Sound(Next(s, e))
  {
    match e
    case Begin(_, _, _, _, _) => BeginKeepsSound(s, e);
    case Proceed(c) => if c in s.claimants { ProceedKeepsSound(s, c); }
    case Complete(c, status, body) => if c in s.executing { CompleteKeepsSound(s, c, status, body); }
    case Release(c) => if c in s.executing { ReleaseKeepsSound(s, c); }
    case Crash(c) => FewerExecutionsAreSound(s, c);
  }

  lemma {:induction false} RunKeepsSound(events: seq<Event>)
    ensures Sound(Run(Start, events))
  {
    if events != [] {
      RunKeepsSound(events[..|events| - 1]);
      NextKeepsSound(Run(Start, events[..|events| - 1]), events[|events| - 1]);
    }
  }

  /** However claims, completions and releases interleave, a key of an account has at most one row. */
  lemma AtMostOneRow(events: seq<Event>, i: RowId, j: RowId)
    requires var rows := Run(Start, events).rows; i in rows && j in rows && rows[i].slot == rows[j].slot
    ensures i == j
  {
    RunKeepsSound(events);
  }

  /** Claimants told `claimed` and inserted rows correspond one to one. */
  lemma EveryClaimInsertedItsOwnRow(events: seq<Event>, c: ClaimantId)
    ensures var s := Run(Start, events);
            (c in s.outcomes && s.outcomes[c] == Claimed) <==> exists i :: IsWin(s.log, i) && s.log[i].claimant == c
    ensures var s := Run(Start, events);
            forall i, j :: IsWin(s.log, i) && IsWin(s.log, j) && i != j ==>
              s.log[i].claimant != s.log[j].claimant && s.log[i].row != s.log[j].row
  {
    RunKeepsSound(events);
    var s := Run(Start, events);
    forall i, j | IsWin(s.log, i) && IsWin(s.log, j) && i != j
      ensures s.log[i].claimant != s.log[j].claimant && s.log[i].row != s.log[j].row
    {
      if i < j { assert s.log[i].row < s.log[j].row; } else { assert s.log[j].row < s.log[i].row; }
    }
  }

  /** Between two claims of one key the earlier claim's row was released, or deleted after it had expired. */
  lemma ClaimsAreSeparatedByARemoval(events: seq<Event>, i: nat, j: nat)
    requires var log := Run(Start, events).log;
             i < j < |log| && log[i].Won? && log[j].Won? && log[i].slot == log[j].slot
    ensures var log := Run(Start, events).log;
            exists k :: i < k < j && log[k].Removed? && log[k].slot == log[i].slot && log[k].row == log[i].row
                        && (log[k].cause.Released? || log[k].expiresAt <= log[k].cause.at)
  {
    RunKeepsSound(events);
    var s := Run(Start, events);
    assert IsWin(s.log, i) && IsWin(s.log, j);
    var k :| 0 <= i < k < j && s.log[k].Removed? && s.log[k].slot == s.log[i].slot && s.log[k].row == s.log[i].row;
  }

  ghost function Alone(s: System, c: ClaimantId, statements: nat): System {
    if statements == 0 then s else Next(Alone(s, c, statements - 1), Proceed(c))
  }

  /** The answer a claim is due on the table as it stands. */
  ghost function AnswerDue(rows: map<RowId, Row>, claimant: Claimant): Outcome {
    if !Has(rows, claimant.slot) then Claimed
    else
      var row := rows[Find(rows, claimant.slot)];
      if row.expiresAt <= claimant.now then Claimed
      else if row.requestHash != claimant.requestHash then Mismatch
      else if row.status == PendingStatus then InProgress
      else Completed(row.status, row.body)
  }

  ghost predicate MeetsExpiredRow(rows: map<RowId, Row>, claimant: Claimant) {
    Has(rows, claimant.slot) && rows[Find(rows, claimant.slot)].expiresAt <= claimant.now
  }

  /** Undisturbed, a claim is answered within four statements with what the table owes it: claimed exactly when the
      key is free or its row has expired, and otherwise read off the row. It starts over at most once, exactly when it
      meets an expired row, and then its own row replaces that one. */
  lemma UndisturbedClaimEnds(s: System, c: ClaimantId)
    requires RowsSound(s.rows, s.nextRow) && c in s.claimants
    requires s.claimants[c].phase == Inserting && s.claimants[c].retries == 0
    ensures exists n :: 1 <= n <= 4 && AnsweredAfter(s, c, n)
  {
    assert Alone(s, c, 0) == s;
    if MeetsExpiredRow(s.rows, s.claimants[c]) {
      ClaimReplacesExpiredRow(s, c);
    } else {
      var s1 := Next(s, Proceed(c));
      assert Alone(s, c, 1) == s1;
      if !Has(s.rows, s.claimants[c].slot) {
        assert s1.rows[s.nextRow].slot == s.claimants[c].slot;
        assert AnsweredAfter(s, c, 1);
      } else {
        assert Alone(s, c, 2) == Next(s1, Proceed(c));
        assert AnsweredAfter(s, c, 2);
      }
    }
  }

  lemma ClaimReplacesExpiredRow(s: System, c: ClaimantId)
    requires RowsSound(s.rows, s.nextRow) && c in s.claimants
    requires s.claimants[c].phase == Inserting && s.claimants[c].retries == 0 && MeetsExpiredRow(s.rows, s.claimants[c])
    ensures AnsweredAfter(s, c, 4)
  {
    var claimant := s.claimants[c];
    assert Alone(s, c, 0) == s;
    var s1 := Next(s, Proceed(c));
    assert Alone(s, c, 1) == s1 == SetPhase(s, c, Reading);
    var s2 := Next(s1, Proceed(c));
    assert Alone(s, c, 2) == s2 == SetPhase(s, c, Deleting(Find(s.rows, claimant.slot)));
    var s3 := Next(s2, Proceed(c));
    assert Alone(s, c, 3) == s3;
    assert s3.rows == s.rows - {Find(s.rows, claimant.slot)};
    assert Alone(s, c, 4) == Next(s3, Proceed(c));
    assert Alone(s, c, 4).rows[s.nextRow].slot == claimant.slot;
  }

  /** The `n`th statement alone answers the claim, with the retries behind it and the row it holds if it won. */
  ghost predicate AnsweredAfter(s: System, c: ClaimantId, n: nat)
    requires c in s.claimants && n > 0
  {
    var claimant := s.claimants[c];
    var before, after := Alone(s, c, n - 1), Alone(s, c, n);
    && c in before.claimants && before.claimants[c].retries == (if MeetsExpiredRow(s.rows, claimant) then 1 else 0)
    && c in after.outcomes && after.outcomes[c] == AnswerDue(s.rows, claimant)
    && (after.outcomes[c] == Claimed ==>
          s.nextRow in after.rows
          && after.rows[s.nextRow] == NewRow(claimant)
          && forall id :: id in after.rows && after.rows[id].slot == claimant.slot ==> id == s.nextRow)
    && (after.outcomes[c] != Claimed ==> after.rows == s.rows)
  }

  /** The store itself, with no other claimant between its statements. */
  class Store {
    var rows: map<RowId, Row>
    var nextRow: RowId

    ghost predicate Valid()
      reads this
    {
      OneRowPerSlot(rows) && forall id :: id in rows ==> id < nextRow
    }

    constructor ()
      ensures Valid() && rows == map[]
    {
      rows, nextRow := map[], 0;
    }

    /** A free key is claimed; so is one whose row has expired, after deleting that row and starting over once;
        otherwise the table is left alone and the answer is read off the row. */
    method Claim(slot: Slot, requestHash: RequestHash, now: Instant, expiresAt: Instant)
      returns (outcome: Outcome, retries: nat)
      requires Valid()
      modifies this
      ensures Valid()
      ensures retries == (if Has(old(rows), slot) && old(rows)[Find(old(rows), slot)].expiresAt <= now then 1 else 0)
      ensures outcome == Claimed <==> !Has(old(rows), slot) || old(rows)[Find(old(rows), slot)].expiresAt <= now
      ensures outcome == Claimed ==>
                && Has(rows, slot) && rows[Find(rows, slot)] == Row(slot, requestHash, expiresAt, 0, "null")
                && Find(rows, slot) >= old(nextRow)
                && forall other :: other != slot ==> RowOf(rows, other) == RowOf(old(rows), other)
      ensures outcome != Claimed ==>
                && rows == old(rows)
                && var row := rows[Find(rows, slot)];
                   && (outcome == Mismatch <==> row.requestHash != requestHash)
                   && (outcome == InProgress <==> row.requestHash == requestHash && row.status == 0)
                   && (outcome.Completed? ==> outcome == Completed(row.status, row.body))
      decreases if Has(rows, slot) then 1 else 0
    {
      if id :| id in rows && rows[id].slot == slot {
        var existing := rows[id];
        if existing.expiresAt <= now {
          rows := rows - {id};
          assert !Has(rows, slot);
          ghost var kept := rows;
          outcome, retries := Claim(slot, requestHash, now, expiresAt);
          retries := retries + 1;
          forall other | other != slot ensures RowOf(kept, other) == RowOf(old(rows), other) {
            OtherSlotsKept(old(rows), kept, id, other);
          }
        } else if existing.requestHash != requestHash {
          outcome, retries := Mismatch, 0;
        } else if existing.status == PendingStatus {
          outcome, retries := InProgress, 0;
        } else {
          outcome, retries := Completed(existing.status, existing.body), 0;
        }
      } else {
        ghost var was := rows;
        rows, nextRow := rows[nextRow := Row(slot, requestHash, expiresAt, PendingStatus, "null")], nextRow + 1;
        assert nextRow - 1 in rows;
        outcome, retries := Claimed, 0;
        forall other | other != slot ensures RowOf(rows, other) == RowOf(was, other) {
          assert was == rows - {nextRow - 1};
          OtherSlotsKept(rows, was, nextRow - 1, other);
        }
      }
    }

    /** Stores the answer; a key nobody holds is an error. */
    method CompleteClaim(slot: Slot, status: nat, body: string) returns (threw: bool)
      requires Valid()
      modifies this
      ensures Valid()
      ensures threw <==> !Has(old(rows), slot)
      ensures threw ==> rows == old(rows)
      ensures !threw ==> rows == old(rows)[Find(old(rows), slot) :=
        old(rows)[Find(old(rows), slot)].(status := status, body := body)]
    {
      if id :| id in rows && rows[id].slot == slot {
        rows := rows[id := rows[id].(status := status, body := body)];
        threw := false;
      } else {
        threw := true;
      }
    }

    /** Gives the key back: the next claim of it succeeds. */
    method ReleaseClaim(slot: Slot)
      requires Valid()
      modifies this
      ensures Valid() && !Has(rows, slot)
      ensures rows == if Has(old(rows), slot) then old(rows) - {Find(old(rows), slot)} else old(rows)
    {
      if id :| id in rows && rows[id].slot == slot {
        rows := rows - {id};
      }
    }
  }

  ghost function RowOf(rows: map<RowId, Row>, slot: Slot): Option<Row> {
    if Has(rows, slot) then Some(rows[Find(rows, slot)]) else None
  }

  lemma OtherSlotsKept(rows: map<RowId, Row>, rows': map<RowId, Row>, removed: RowId, other: Slot)
    requires OneRowPerSlot(rows) && removed in rows && rows' == rows - {removed} && rows[removed].slot != other
    ensures RowOf(rows', other) == RowOf(rows, other)
  {
    if Has(rows, other) {
      var id := Find(rows, other);
      assert id in rows' && rows'[id].slot == other;
    }
  }
}
