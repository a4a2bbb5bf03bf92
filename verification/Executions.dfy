/** Whose row a claimant completes or releases. Both statements look the key up again, so a claimant that executes
    past its row's expiry meets whatever row the key has by then. */
module Executions {
  import opened Shared
  import opened Idempotency

  // ----- touching another claimant's row -----

  ghost predicate HasWonRow(log: seq<Entry>, c: ClaimantId, row: RowId) {
    exists i :: IsWin(log, i) && log[i].claimant == c && log[i].row == row
  }

  /** The claimant that stores an answer in a row, or releases it. */
  function Toucher(entry: Entry): Option<ClaimantId> {
    match entry
    case Won(_, _, _) => None
    case Stored(c, _, _) => Some(c)
    case Removed(_, _, _, Released(c)) => Some(c)
    case Removed(_, _, _, Expired(_)) => None
  }

  /** Entry `k` completes or releases row `id` for a claimant that did not insert it. */
  ghost predicate IsForeignTouch(log: seq<Entry>, k: int, id: RowId) {
    && 0 <= k < |log|
    && log[k].row == id
    && Toucher(log[k]).Some?
    && !HasWonRow(log, Toucher(log[k]).value, id)
  }

  ghost predicate ForeignTouchSince(log: seq<Entry>, from: int, id: RowId) {
    exists k :: from <= k && IsForeignTouch(log, k, id)
  }

  /** Some continuation completes or releases row `id` for a claimant that did not insert it. */
  ghost predicate CanBeTouchedByAnother(s: System, id: RowId) {
    exists more :: ForeignTouchSince(Run(s, more).log, |s.log|, id)
  }

  /** Somebody still executes a request under the row's key whose own row is another one. */
  ghost predicate Threatened(s: System, id: RowId)
    requires id in s.rows
  {
    exists c :: c in s.executing && s.executing[c].slot == s.rows[id].slot && s.executing[c].row != id
  }

  /** The row a claimant's completion or release meets. */
  ghost predicate Meets(s: System, c: ClaimantId, id: RowId) {
    c in s.executing && Has(s.rows, s.executing[c].slot) && id == Find(s.rows, s.executing[c].slot)
  }

  // ----- what one event adds to the log -----

  lemma OneWinPerClaimant(s: System, c: ClaimantId, row: RowId)
    requires WinsMatchOutcomes(s.log, s.outcomes) && ExecutionsSound(s.rows, s.log, s.executing) && c in s.executing
    ensures HasWonRow(s.log, c, row) <==> row == s.executing[c].row
  {
    var i :| IsWin(s.log, i) && s.log[i] == Won(c, s.executing[c].slot, s.executing[c].row);
  }

  lemma OtherEntryAddsNoWin(log: seq<Entry>, entry: Entry, c: ClaimantId, row: RowId)
    requires !entry.Won?
    ensures HasWonRow(log + [entry], c, row) <==> HasWonRow(log, c, row)
  {
    LongerLog(log, entry);
  }

  /** An entry of an executing claimant is a foreign touch exactly when the row is not the one it inserted. */
  lemma ForeignExactlyWhen(s: System, entry: Entry, id: RowId)
    requires WinsMatchOutcomes(s.log, s.outcomes) && ExecutionsSound(s.rows, s.log, s.executing)
    requires Toucher(entry).Some? && Toucher(entry).value in s.executing
    ensures IsForeignTouch(s.log + [entry], |s.log|, id)
       <==> entry.row == id && s.executing[Toucher(entry).value].row != id
  {
    OneWinPerClaimant(s, Toucher(entry).value, id);
    OtherEntryAddsNoWin(s.log, entry, Toucher(entry).value, id);
  }

  lemma CompleteTouches(s: System, c: ClaimantId, status: nat, body: string, id: RowId)
    requires Sound(s) && c in s.executing
    requires IsForeignTouch(CompleteStep(s, c, status, body).log, |s.log|, id)
    ensures Meets(s, c, id) && s.executing[c].row != id
  {
    var slot := s.executing[c].slot;
    ForeignExactlyWhen(s, Stored(c, slot, Find(s.rows, slot)), id);
  }

  lemma ReleaseTouches(s: System, c: ClaimantId, id: RowId)
    requires Sound(s) && c in s.executing
    ensures IsForeignTouch(ReleaseStep(s, c).log, |s.log|, id) <==> Meets(s, c, id) && s.executing[c].row != id
  {
    var slot := s.executing[c].slot;
    if Has(s.rows, slot) {
      var row := Find(s.rows, slot);
      ForeignExactlyWhen(s, Removed(slot, row, s.rows[row].expiresAt, Released(c)), id);
    }
  }

  lemma OtherEventsTouchNothing(s: System, e: Event, id: RowId)
    requires e.Begin? || e.Proceed? || e.Crash?
    ensures !IsForeignTouch(Next(s, e).log, |s.log|, id)
  {}

  lemma {:induction false} RunGrows(s: System, more: seq<Event>)
    ensures s.log <= Run(s, more).log
  {
    if more != [] {
      RunGrows(s, more[..|more| - 1]);
      NextGrows(Run(s, more[..|more| - 1]), more[|more| - 1]);
    }
  }

  lemma NextGrows(s: System, e: Event)
    ensures s.log <= Next(s, e).log && |Next(s, e).log| <= |s.log| + 1
  {}

  // ----- a row nobody threatens -----

  /** Row ids are not used again, so a row that is gone stays unthreatened. */
  ghost predicate Unthreatened(s: System, id: RowId) {
    id < s.nextRow && (id in s.rows ==> !Threatened(s, id))
  }

  /** Nothing new: every row and every execution that is there was there before. */
  ghost predicate NothingNew(s: System, s': System) {
    && s'.nextRow == s.nextRow
    && (forall r :: r in s'.rows ==> r in s.rows && s'.rows[r].slot == s.rows[r].slot)
    && (forall c :: c in s'.executing ==>
          && c in s.executing
          && s'.executing[c].slot == s.executing[c].slot && s'.executing[c].row == s.executing[c].row)
  }

  ghost predicate Wins(s: System, e: Event) {
    && e.Proceed? && e.claimant in s.claimants && s.claimants[e.claimant].phase.Inserting?
    && !Has(s.rows, s.claimants[e.claimant].slot)
  }

  lemma DeletingIsNothingNew(s: System, c: ClaimantId)
    requires c in s.claimants && s.claimants[c].phase.Deleting?
    ensures NothingNew(s, DeleteStep(s, c))
  {}

  lemma EndingIsNothingNew(s: System, e: Event)
    requires e.Complete? || e.Release? || e.Crash?
    ensures NothingNew(s, Next(s, e))
  {}

  lemma OnlyWinsAreNew(s: System, e: Event)
    ensures if Wins(s, e) then Next(s, e) == Win(s, e.claimant) else NothingNew(s, Next(s, e))
  {
    match e
    case Begin(_, _, _, _, _) =>
    case Proceed(c) =>
      if c in s.claimants && s.claimants[c].phase.Deleting? { DeletingIsNothingNew(s, c); }
    case _ => EndingIsNothingNew(s, e);
  }

  lemma NothingNewKeepsUnthreatened(s: System, s': System, id: RowId)
    requires Unthreatened(s, id) && NothingNew(s, s')
    ensures Unthreatened(s', id)
  {}

  lemma WinKeepsUnthreatened(s: System, c: ClaimantId, id: RowId)
    requires Unthreatened(s, id) && c in s.claimants && !Has(s.rows, s.claimants[c].slot)
    ensures Unthreatened(Win(s, c), id)
  {}

  lemma NextKeepsUnthreatened(s: System, s': System, e: Event, id: RowId)
    requires Unthreatened(s, id) && s' == Next(s, e)
    ensures Unthreatened(s', id)
  {
    OnlyWinsAreNew(s, e);
    if Wins(s, e) { WinKeepsUnthreatened(s, e.claimant, id); } else { NothingNewKeepsUnthreatened(s, s', id); }
  }

  lemma UnthreatenedIsSpared(s: System, e: Event, id: RowId)
    requires Sound(s) && (id in s.rows ==> !Threatened(s, id))
    ensures !IsForeignTouch(Next(s, e).log, |s.log|, id)
  {
    match e
    case Complete(c, status, body) =>
      if c in s.executing && IsForeignTouch(CompleteStep(s, c, status, body).log, |s.log|, id) {
        CompleteTouches(s, c, status, body, id);
      }
    case Release(c) => if c in s.executing { ReleaseTouches(s, c, id); }
    case _ => OtherEventsTouchNothing(s, e, id);
  }

  lemma WonRowStays(log: seq<Entry>, longer: seq<Entry>, c: ClaimantId, row: RowId)
    requires log <= longer
    ensures HasWonRow(log, c, row) ==> HasWonRow(longer, c, row)
  {
    if HasWonRow(log, c, row) {
      var i :| IsWin(log, i) && log[i].claimant == c && log[i].row == row;
      assert IsWin(longer, i);
    }
  }

  /** Later entries leave it alone whether an earlier one is a foreign touch: its claimant has won by then. */
  lemma ForeignTouchWasOne(log: seq<Entry>, longer: seq<Entry>, k: int, id: RowId)
    requires log <= longer && k < |log| && IsForeignTouch(longer, k, id)
    ensures IsForeignTouch(log, k, id)
  {
    WonRowStays(log, longer, Toucher(longer[k]).value, id);
  }

  lemma {:induction false} SparedForever(s: System, more: seq<Event>, id: RowId)
    requires Sound(s) && Unthreatened(s, id)
    ensures Sound(Run(s, more)) && Unthreatened(Run(s, more), id)
    ensures !ForeignTouchSince(Run(s, more).log, |s.log|, id)
  {
    if more != [] {
      var e, earlier := more[|more| - 1], Run(s, more[..|more| - 1]);
      SparedForever(s, more[..|more| - 1], id);
      NextKeepsSound(earlier, e);
      NextKeepsUnthreatened(earlier, Next(earlier, e), e, id);
      NextGrows(earlier, e);
      UnthreatenedIsSpared(earlier, e, id);
      NoForeignTouchAdded(earlier.log, Next(earlier, e).log, |s.log|, id);
    }
  }

  lemma NoForeignTouchAdded(log: seq<Entry>, longer: seq<Entry>, from: nat, id: RowId)
    requires log <= longer && |longer| <= |log| + 1
    requires !ForeignTouchSince(log, from, id) && !IsForeignTouch(longer, |log|, id)
    ensures !ForeignTouchSince(longer, from, id)
  {
    forall k | from <= k && IsForeignTouch(longer, k, id) ensures ForeignTouchSince(log, from, id) {
      ForeignTouchWasOne(log, longer, k, id);
    }
  }

  lemma ThreatIsMet(s: System, c: ClaimantId, id: RowId)
    requires OneRowPerSlot(s.rows) && id in s.rows && c in s.executing && s.executing[c].slot == s.rows[id].slot
    ensures Meets(s, c, id)
  {}

  lemma RunOne(s: System, e: Event)
    ensures Run(s, [e]) == Next(s, e)
  {
    assert [e][..0] == [];
  }

  lemma ThreatIsCarriedOut(s: System, c: ClaimantId, id: RowId)
    requires Sound(s) && id in s.rows && c in s.executing && s.executing[c].slot == s.rows[id].slot
    requires s.executing[c].row != id
    ensures ForeignTouchSince(Run(s, [Release(c)]).log, |s.log|, id)
  {
    ThreatIsMet(s, c, id);
    ReleaseTouches(s, c, id);
    RunOne(s, Release(c));
  }

  /** At every point of every run: a row can still be completed or released by a claimant that did not insert it
      exactly when somebody executes a request under the row's key whose own row is another one. */
  lemma TouchedByAnotherExactlyWhen(events: seq<Event>, id: RowId)
    requires id in Run(Start, events).rows
    ensures var s := Run(Start, events); CanBeTouchedByAnother(s, id) <==> Threatened(s, id)
  {
    var s := Run(Start, events);
    RunKeepsSound(events);
    if Threatened(s, id) {
      var c :| c in s.executing && s.executing[c].slot == s.rows[id].slot && s.executing[c].row != id;
      ThreatIsCarriedOut(s, c, id);
    } else {
      forall more ensures !ForeignTouchSince(Run(s, more).log, |s.log|, id) {
        SparedForever(s, more, id);
      }
    }
  }

  /** What ends an execution: its answer goes into the row its key has, exactly and into no other; with no row there it
      can only release any more; and a release leaves its key without a row, and the other keys alone. */
  lemma ExecutionEndsExactlyAs(s: System, c: ClaimantId, status: nat, body: string)
    requires OneRowPerSlot(s.rows) && c in s.executing
    ensures var slot := s.executing[c].slot;
            var after := Next(s, Complete(c, status, body));
            if s.executing[c].releasing then after == s
            else if !Has(s.rows, slot) then
              after == s.(executing := s.executing[c := s.executing[c].(releasing := true)])
            else
              && after.executing == s.executing - {c} && after.rows.Keys == s.rows.Keys
              && forall id :: id in s.rows ==>
                   after.rows[id] == if s.rows[id].slot == slot then s.rows[id].(status := status, body := body)
                                     else s.rows[id]
    ensures var after := Next(s, Release(c));
            && after.executing == s.executing - {c}
            && (forall id :: id in after.rows <==> id in s.rows && s.rows[id].slot != s.executing[c].slot)
            && (forall id :: id in after.rows ==> after.rows[id] == s.rows[id])
  {}

  // ----- executing past the expiry -----

  ghost predicate OwnRowsPresent(s: System) {
    forall c :: c in s.executing ==> s.executing[c].row in s.rows
  }

  /** The event deletes a row whose claimant still executes its request, expired on the deleter's clock. */
  ghost predicate DeletesOverrun(s: System, e: Event) {
    && e.Proceed? && e.claimant in s.claimants && s.claimants[e.claimant].phase.Deleting?
    && s.claimants[e.claimant].phase.row in s.rows
    && s.rows[s.claimants[e.claimant].phase.row].expiresAt <= s.claimants[e.claimant].now
    && exists d :: d in s.executing && s.executing[d].row == s.claimants[e.claimant].phase.row
  }

  lemma ExecutionsOwnDifferentRows(s: System, c: ClaimantId, d: ClaimantId)
    requires Sound(s) && c in s.executing && d in s.executing && s.executing[c].row == s.executing[d].row
    ensures c == d
  {
    var i :| IsWin(s.log, i) && s.log[i] == Won(c, s.executing[c].slot, s.executing[c].row);
    var j :| IsWin(s.log, j) && s.log[j] == Won(d, s.executing[d].slot, s.executing[d].row);
    assert !(i < j) && !(j < i);
  }

  lemma ReleaseKeepsOwnRows(s: System, c: ClaimantId)
    requires Sound(s) && OwnRowsPresent(s) && c in s.executing
    ensures OwnRowsPresent(ReleaseStep(s, c))
  {
    forall d | d in s.executing && d != c ensures s.executing[d].row in ReleaseStep(s, c).rows {
      if s.executing[d].row == s.executing[c].row { ExecutionsOwnDifferentRows(s, c, d); }
    }
  }

  lemma ProceedKeepsOwnRowsExactlyWhen(s: System, e: Event)
    requires ClaimantsSound(s.rows, s.nextRow, s.claimants) && OwnRowsPresent(s) && e.Proceed?
    ensures OwnRowsPresent(Next(s, e)) <==> !DeletesOverrun(s, e)
  {}

  lemma NextKeepsOwnRowsExactlyWhen(s: System, e: Event)
    requires Sound(s) && OwnRowsPresent(s)
    ensures OwnRowsPresent(Next(s, e)) <==> !DeletesOverrun(s, e)
  {
    match e
    case Proceed(_) => ProceedKeepsOwnRowsExactlyWhen(s, e);
    case Release(c) => if c in s.executing { ReleaseKeepsOwnRows(s, c); }
    case _ =>
  }

  ghost predicate KeptUpTo(events: seq<Event>, n: int) {
    0 <= n <= |events| && OwnRowsPresent(Run(Start, events[..n]))
  }

  ghost predicate OverrunAt(events: seq<Event>, n: int) {
    0 <= n < |events| && DeletesOverrun(Run(Start, events[..n]), events[n])
  }

  /** A property that holds first holds throughout exactly when nothing breaks it. */
  lemma {:induction false} KeptThroughout(kept: int -> bool, broken: int -> bool, n: nat)
    requires kept(0) && forall m :: 0 <= m < n && kept(m) ==> (kept(m + 1) <==> !broken(m))
    ensures (forall m :: 0 <= m <= n ==> kept(m)) <==> (forall m :: 0 <= m < n ==> !broken(m))
  {
    if n > 0 {
      KeptThroughout(kept, broken, n - 1);
      assert kept(n - 1) ==> (kept(n - 1 + 1) <==> !broken(n - 1));
    }
  }

  lemma KeptAfterNext(events: seq<Event>, n: nat)
    requires n < |events| && KeptUpTo(events, n)
    ensures KeptUpTo(events, n + 1) <==> !OverrunAt(events, n)
  {
    assert events[..n + 1][..n] == events[..n];
    RunKeepsSound(events[..n]);
    NextKeepsOwnRowsExactlyWhen(Run(Start, events[..n]), events[n]);
  }

  /** Over every run: whoever executes a request still has the row it inserted at every point, exactly when no
      event deletes as expired a row whose claimant still executes. */
  lemma RowsOutliveExecutionsExactlyWhen(events: seq<Event>)
    ensures (forall n :: 0 <= n <= |events| ==> KeptUpTo(events, n))
       <==> (forall n :: 0 <= n < |events| ==> !OverrunAt(events, n))
  {
    ghost var kept, broken := n => KeptUpTo(events, n), n => OverrunAt(events, n);
    assert events[..0] == [];
    forall m | 0 <= m < |events| && kept(m) ensures kept(m + 1) <==> !broken(m) {
      KeptAfterNext(events, m);
    }
    KeptThroughout(kept, broken, |events|);
    assert forall n :: kept(n) <==> KeptUpTo(events, n);
    assert forall n :: broken(n) <==> OverrunAt(events, n);
  }

  ghost predicate NoForeignTouch(log: seq<Entry>) {
    forall id :: !ForeignTouchSince(log, 0, id)
  }

  lemma OwnRowsAreUnthreatened(s: System, id: RowId)
    requires Sound(s) && OwnRowsPresent(s) && id in s.rows
    ensures !Threatened(s, id)
  {}

  lemma NextAddsNoForeignTouch(s: System, e: Event)
    requires Sound(s) && OwnRowsPresent(s) && NoForeignTouch(s.log)
    ensures NoForeignTouch(Next(s, e).log)
  {
    NextGrows(s, e);
    forall id ensures !ForeignTouchSince(Next(s, e).log, 0, id) {
      if id in s.rows { OwnRowsAreUnthreatened(s, id); }
      UnthreatenedIsSpared(s, e, id);
      NoForeignTouchAdded(s.log, Next(s, e).log, 0, id);
    }
  }

  lemma {:induction false} KeptRunsTouchOwnRows(events: seq<Event>, n: nat)
    requires n <= |events| && forall m :: 0 <= m <= n ==> KeptUpTo(events, m)
    ensures NoForeignTouch(Run(Start, events[..n]).log)
  {
    if n > 0 {
      KeptRunsTouchOwnRows(events, n - 1);
      assert events[..n][..n - 1] == events[..n - 1];
      assert KeptUpTo(events, n - 1);
      RunKeepsSound(events[..n - 1]);
      NextAddsNoForeignTouch(Run(Start, events[..n - 1]), events[n - 1]);
    }
  }

  /** Without such a deletion at most one request executes under a key at a time, and every row is completed and
      released by the claimant that inserted it. */
  lemma WithoutOverrunsKeysAreExclusive(events: seq<Event>, c: ClaimantId, d: ClaimantId)
    requires forall n :: 0 <= n < |events| ==> !OverrunAt(events, n)
    ensures NoForeignTouch(Run(Start, events).log)
    ensures var s := Run(Start, events);
            c in s.executing && d in s.executing && s.executing[c].slot == s.executing[d].slot ==> c == d
  {
    RowsOutliveExecutionsExactlyWhen(events);
    assert events[..|events|] == events;
    KeptRunsTouchOwnRows(events, |events|);
    RunKeepsSound(events);
    assert KeptUpTo(events, |events|);
    var s := Run(Start, events);
    if c in s.executing && d in s.executing && s.executing[c].slot == s.executing[d].slot {
      ExecutionsOwnDifferentRows(s, c, d);
    }
  }

  // ----- a run that overruns -----

  const Key := Slot("key", 0)

  /** Claimant 0 executes past its row's expiry, so claimant 1 deletes that row and wins the key. */
  const Overrunning: seq<Event> := [
    Begin(0, Key, "first", 0, 10), Proceed(0),
    Begin(1, Key, "second", 10, 20), Proceed(1), Proceed(1), Proceed(1), Proceed(1)]

  const Overrun := System(
    map[1 := Row(Key, "second", 20, PendingStatus, "null")],
    2,
    map[],
    map[0 := Claimed, 1 := Claimed],
    map[0 := Execution(Key, 0, false), 1 := Execution(Key, 1, false)],
    [Won(0, Key, 0), Removed(Key, 0, 10, Expired(10)), Won(1, Key, 1)])

  lemma {:induction false} RunHead(s: System, events: seq<Event>)
    requires events != []
    ensures Run(s, events) == Run(Next(s, events[0]), events[1..])
  {
    if |events| > 1 {
      var front, last, after := events[..|events| - 1], events[|events| - 1], Next(s, events[0]);
      RunHead(s, front);
      assert events[1..][..|events[1..]| - 1] == front[1..] && events[1..][|events[1..]| - 1] == last;
      assert Run(after, events[1..]) == Next(Run(after, front[1..]), last);
    } else {
      RunOne(s, events[0]);
    }
  }

  const FirstBegun := Start.(claimants := map[0 := Claimant(Key, "first", 0, 10, Inserting, 0)])
  const FirstWon := System(
    map[0 := Row(Key, "first", 10, PendingStatus, "null")],
    1,
    map[],
    map[0 := Claimed],
    map[0 := Execution(Key, 0, false)],
    [Won(0, Key, 0)])
  const Second := Claimant(Key, "second", 10, 20, Inserting, 0)
  const SecondBegun := FirstWon.(claimants := map[1 := Second])
  const SecondLost := FirstWon.(claimants := map[1 := Second.(phase := Reading)])
  const SecondSawExpiry := FirstWon.(claimants := map[1 := Second.(phase := Deleting(0))])
  const FirstDeleted := SecondSawExpiry.(
    rows := map[],
    claimants := map[1 := Second.(retries := 1)],
    log := FirstWon.log + [Removed(Key, 0, 10, Expired(10))])

  lemma FirstWins()
    ensures Next(Next(Start, Overrunning[0]), Overrunning[1]) == FirstWon
  {
    assert Next(Start, Overrunning[0]) == FirstBegun;
    assert Next(FirstBegun, Proceed(0)) == FirstWon;
  }

  lemma SecondBegins()
    ensures Next(FirstWon, Overrunning[2]) == SecondBegun
  {}

  lemma SecondLoses()
    ensures Next(SecondBegun, Proceed(1)) == SecondLost
  {
    assert SecondBegun.rows[0].slot == Key;
  }

  lemma SecondReads()
    ensures Next(SecondLost, Proceed(1)) == SecondSawExpiry
  {
    assert SecondLost.rows[0].slot == Key;
  }

  lemma SecondDeletes()
    ensures Next(SecondSawExpiry, Proceed(1)) == FirstDeleted
  {}

  lemma SecondWins()
    ensures Next(FirstDeleted, Proceed(1)) == Overrun
  {}

  lemma RunTwo(s: System, e: Event, f: Event, more: seq<Event>)
    ensures Run(s, [e, f] + more) == Run(Next(Next(s, e), f), more)
  {
    RunHead(s, [e, f] + more);
    assert ([e, f] + more)[1..] == [f] + more;
    RunHead(Next(s, e), [f] + more);
    assert ([f] + more)[1..] == more;
  }

  lemma SecondMeetsTheRow()
    ensures Run(Start, Overrunning) == Run(SecondLost, Overrunning[4..])
  {
    FirstWins();
    RunTwo(Start, Overrunning[0], Overrunning[1], Overrunning[2..]);
    SecondBegins();
    SecondLoses();
    RunTwo(FirstWon, Overrunning[2], Proceed(1), Overrunning[4..]);
    assert Overrunning == [Overrunning[0], Overrunning[1]] + Overrunning[2..];
    assert Overrunning[2..] == [Overrunning[2], Proceed(1)] + Overrunning[4..];
  }

  /** In the state reached claimant 0 threatens the row claimant 1 inserted. */
  lemma OverrunIsReached()
    ensures Run(Start, Overrunning) == Overrun && Threatened(Overrun, 1)
  {
    assert 0 in Overrun.executing;
    SecondMeetsTheRow();
    SecondReads();
    SecondDeletes();
    RunTwo(SecondLost, Proceed(1), Proceed(1), [Proceed(1)]);
    SecondWins();
    RunOne(FirstDeleted, Proceed(1));
    assert Overrunning[4..] == [Proceed(1), Proceed(1)] + [Proceed(1)];
  }

  const Third := Claimant(Key, "second", 11, 21, Inserting, 0)

  /** Claimant 0 stores its answer in claimant 1's row, so a repeat of the second request is answered with the first
      request's response while the second is still being executed. */
  lemma AnOverrunAnswersForAnother()
    ensures var s := Run(Overrun, [Complete(0, 200, "first"), Begin(2, Key, "second", 11, 21), Proceed(2), Proceed(2)]);
            2 in s.outcomes && s.outcomes[2] == Completed(200, "first") && 1 in s.executing
  {
    var events := [Complete(0, 200, "first"), Begin(2, Key, "second", 11, 21), Proceed(2), Proceed(2)];
    assert Overrun.rows[1].slot == Key;
    var s1 := Overrun.(
      rows := map[1 := Row(Key, "second", 20, 200, "first")],
      executing := map[1 := Execution(Key, 1, false)],
      log := Overrun.log + [Stored(0, Key, 1)]);
    RunHead(Overrun, events);
    assert Next(Overrun, events[0]) == s1;
    RunHead(s1, events[1..]);
    var s2 := s1.(claimants := map[2 := Third]);
    assert Next(s1, events[1]) == s2;
    assert events[1..][1..] == [Proceed(2), Proceed(2)];
    RunHead(s2, [Proceed(2), Proceed(2)]);
    assert s2.rows[1].slot == Key;
    assert Next(s2, Proceed(2)) == SetPhase(s2, 2, Reading);
    RunOne(SetPhase(s2, 2, Reading), Proceed(2));
  }

  /** Claimant 0's failure releases claimant 1's row, so the second request is executed twice at once although the
      row of its first claim has not expired. */
  lemma AnOverrunLetsARequestRunTwice()
    ensures var s := Run(Overrun, [Release(0), Begin(2, Key, "second", 11, 21), Proceed(2)]);
            && s.executing == map[1 := Execution(Key, 1, false), 2 := Execution(Key, 2, false)]
            && s.rows == map[2 := NewRow(Third)] && 11 < Overrun.rows[1].expiresAt
  {
    var events := [Release(0), Begin(2, Key, "second", 11, 21), Proceed(2)];
    assert Overrun.rows[1].slot == Key;
    var s1 := Overrun.(
      rows := map[],
      executing := map[1 := Execution(Key, 1, false)],
      log := Overrun.log + [Removed(Key, 1, 20, Released(0))]);
    RunHead(Overrun, events);
    assert Next(Overrun, events[0]) == s1;
    RunHead(s1, events[1..]);
    var s2 := s1.(claimants := map[2 := Third]);
    assert Next(s1, events[1]) == s2;
    assert events[1..][1..] == [Proceed(2)];
    RunOne(s2, Proceed(2));
  }
}
