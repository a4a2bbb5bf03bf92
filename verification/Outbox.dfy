/** The outbox drain: any number of drains claim batches, call the handler and settle each event, and any of
    them may stall or die between two statements. Every step is one committed statement or transaction. */
module Outbox {
  import opened Shared

  const MaximumAttempts: nat := 5
  const ClaimVisibility: int := 60000

  type EventId = nat
  type DrainId = nat

  datatype Row = Row(attempts: nat, claimedAt: Option<Instant>, publishedAt: Option<Instant>)

  /** An event as the claiming SELECT returned it: `attempts` is the count before the claim's increment. */
  datatype Item = Item(id: EventId, attempts: nat, claimedAt: Instant)

  /** A drain in progress: the events it has still to settle, and whether the handler accepted the first. */
  datatype Drain = Drain(batch: seq<Item>, handled: bool)

  /** The two tables, the running drains, and what has happened: ids ever enqueued, how often each was
      claimed, which ones the handler ever accepted. */
  datatype System = System(
    now: Instant,
    rows: map<EventId, Row>,
    deadLetters: map<EventId, nat>,
    drains: map<DrainId, Drain>,
    enqueued: set<EventId>,
    claims: map<EventId, nat>,
    accepted: set<EventId>)

  datatype Event =
    | Enqueue(id: EventId)
    | Tick(to: Instant)
    | Claim(drain: DrainId, stamp: Instant, ids: seq<EventId>)
    | HandlerAccepts(drain: DrainId)
    | MarkPublished(drain: DrainId, at: Instant)
    | Fail(drain: DrainId)
    | Crash(drain: DrainId)

  function Start(now: Instant): System {
    System(now, map[], map[], map[], {}, map[], {})
  }

  predicate Claimable(row: Row, stamp: Instant) {
    row.publishedAt.None? && (row.claimedAt.None? || row.claimedAt.value < stamp - ClaimVisibility)
  }

  predicate Ascending(ids: seq<EventId>) {
    forall i, j :: 0 <= i < j < |ids| ==> ids[i] < ids[j]
  }

  /** Rows somebody else has locked are skipped, so a claim takes any ascending choice of claimable rows. */
  predicate ClaimableBatch(rows: map<EventId, Row>, stamp: Instant, ids: seq<EventId>) {
    Ascending(ids) && forall i :: 0 <= i < |ids| ==> ids[i] in rows && Claimable(rows[ids[i]], stamp)
  }

  function ClaimedRows(rows: map<EventId, Row>, stamp: Instant, ids: seq<EventId>): map<EventId, Row> {
    map id | id in rows :: if id in ids then rows[id].(attempts := rows[id].attempts + 1, claimedAt := Some(stamp))
                           else rows[id]
  }

  function ItemsOf(rows: map<EventId, Row>, stamp: Instant, ids: seq<EventId>): seq<Item>
    requires forall i :: 0 <= i < |ids| ==> ids[i] in rows
  {
    seq(|ids|, i requires 0 <= i < |ids| => Item(ids[i], rows[ids[i]].attempts, stamp))
  }

  function CountClaims(claims: map<EventId, nat>, ids: seq<EventId>): map<EventId, nat> {
    map id | id in claims :: if id in ids then claims[id] + 1 else claims[id]
  }

  function Settled(s: System, d: DrainId): System
    requires d in s.drains && s.drains[d].batch != []
  {
    s.(drains := s.drains[d := Drain(s.drains[d].batch[1..], false)])
  }

  /** A statement that throws outside the try block ends the drain. */
  function Died(s: System, d: DrainId): System {
    s.(drains := s.drains - {d})
  }

  /** `recordFailure` on the first event of the batch. It addresses the row by id alone, whoever holds the claim. */
  function RecordFailure(s: System, d: DrainId): System
    requires d in s.drains && s.drains[d].batch != []
  {
    var item := s.drains[d].batch[0];
    var attempts := item.attempts + 1;
    if attempts < MaximumAttempts then
      if item.id !in s.rows then Died(s, d)
      else Settled(s, d).(rows := s.rows[item.id := s.rows[item.id].(claimedAt := None)])
    else if item.id in s.deadLetters || item.id !in s.rows then Died(s, d)
    else Settled(s, d).(rows := s.rows - {item.id}, deadLetters := s.deadLetters[item.id := attempts])
  }

  function Next(s: System, e: Event): System {
    match e
    case Enqueue(id) =>
      if id in s.enqueued then s
      else s.(rows := s.rows[id := Row(0, None, None)], enqueued := s.enqueued + {id}, claims := s.claims[id := 0])
    case Tick(to) => if to < s.now then s else s.(now := to)
    case Claim(d, stamp, ids) =>
      if d in s.drains || stamp > s.now || !ClaimableBatch(s.rows, stamp, ids) then s
      else s.(rows := ClaimedRows(s.rows, stamp, ids), claims := CountClaims(s.claims, ids),
              drains := s.drains[d := Drain(ItemsOf(s.rows, stamp, ids), false)])
    case HandlerAccepts(d) =>
      if d !in s.drains || s.drains[d].batch == [] then s
      else s.(drains := s.drains[d := s.drains[d].(handled := true)],
              accepted := s.accepted + {s.drains[d].batch[0].id})
    case MarkPublished(d, at) =>
      if d !in s.drains || s.drains[d].batch == [] || !s.drains[d].handled then s
      else
        var id := s.drains[d].batch[0].id;
        if id !in s.rows then RecordFailure(s, d)
        else Settled(s, d).(rows := s.rows[id := s.rows[id].(publishedAt := Some(at))])
    case Fail(d) => if d !in s.drains || s.drains[d].batch == [] then s else RecordFailure(s, d)
    case Crash(d) => Died(s, d)
  }

  function Run(s: System, events: seq<Event>): System {
    if events == [] then s else Next(Run(s, events[..|events| - 1]), events[|events| - 1])
  }

  // ----- what every run keeps -----

  ghost predicate InFlight(s: System, d: DrainId, i: int) {
    d in s.drains && 0 <= i < |s.drains[d].batch|
  }

  /** The two tables partition the ids ever enqueued; published means accepted; attempts count claims. */
  ghost predicate TablesSound(s: System) {
    && s.claims.Keys == s.enqueued
    && s.rows.Keys + s.deadLetters.Keys == s.enqueued
    && s.rows.Keys !! s.deadLetters.Keys
    && (forall id :: id in s.rows ==> s.rows[id].attempts == s.claims[id])
    && (forall id :: id in s.rows && s.rows[id].publishedAt.Some? ==> id in s.accepted)
    && (forall id :: id in s.deadLetters ==> MaximumAttempts <= s.deadLetters[id] <= s.claims[id])
  }

  ghost predicate ItemsSound(s: System) {
    && (forall d, i :: InFlight(s, d, i) ==>
          s.drains[d].batch[i].id in s.claims && s.drains[d].batch[i].attempts < s.claims[s.drains[d].batch[i].id])
    && (forall d :: d in s.drains && s.drains[d].batch != [] && s.drains[d].handled ==>
          s.drains[d].batch[0].id in s.accepted)
  }

  ghost predicate Sound(s: System) {
    TablesSound(s) && ItemsSound(s)
  }

  lemma FailureKeepsSound(s: System, d: DrainId)
    requires Sound(s) && d in s.drains && s.drains[d].batch != []
    ensures Sound(RecordFailure(s, d))
  {
    var s' := RecordFailure(s, d);
    assert InFlight(s, d, 0);
    forall e, i | InFlight(s', e, i)
      ensures s'.drains[e].batch[i].id in s'.claims
              && s'.drains[e].batch[i].attempts < s'.claims[s'.drains[e].batch[i].id]
    {
      assert InFlight(s, e, if e == d then i + 1 else i);
    }
  }

  lemma ClaimKeepsSound(s: System, d: DrainId, stamp: Instant, ids: seq<EventId>)
    requires Sound(s)
    ensures Sound(Next(s, Claim(d, stamp, ids)))
  {
    var s' := Next(s, Claim(d, stamp, ids));
    if s' != s {
      assert ClaimedRows(s.rows, stamp, ids).Keys == s.rows.Keys;
      assert CountClaims(s.claims, ids).Keys == s.claims.Keys;
      forall e, i | InFlight(s', e, i)
        ensures s'.drains[e].batch[i].id in s'.claims
                && s'.drains[e].batch[i].attempts < s'.claims[s'.drains[e].batch[i].id]
      {
        if e == d {
          assert s'.drains[d].batch[i].id == ids[i];
        } else {
          assert InFlight(s, e, i);
        }
      }
    }
  }

  lemma MarkKeepsSound(s: System, d: DrainId, at: Instant)
    requires Sound(s)
    ensures Sound(Next(s, MarkPublished(d, at)))
  {
    var s' := Next(s, MarkPublished(d, at));
    if s' != s {
      if s.drains[d].batch[0].id !in s.rows {
        FailureKeepsSound(s, d);
      } else {
        forall e, i | InFlight(s', e, i)
          ensures s'.drains[e].batch[i].id in s'.claims
                  && s'.drains[e].batch[i].attempts < s'.claims[s'.drains[e].batch[i].id]
        {
          assert InFlight(s, e, if e == d then i + 1 else i);
        }
      }
    }
  }

  lemma ItemsSurvive(s: System, s': System)
    requires ItemsSound(s)
    requires forall id :: id in s.claims ==> id in s'.claims && s'.claims[id] == s.claims[id]
    requires s.accepted <= s'.accepted
    requires forall d :: d in s'.drains ==> d in s.drains && s'.drains[d].batch == s.drains[d].batch
    requires forall d :: d in s'.drains && s'.drains[d].handled && s'.drains[d].batch != [] ==>
                           s.drains[d].handled || s.drains[d].batch[0].id in s'.accepted
    ensures ItemsSound(s')
  {
    forall d, i | InFlight(s', d, i)
      ensures s'.drains[d].batch[i].id in s'.claims
              && s'.drains[d].batch[i].attempts < s'.claims[s'.drains[d].batch[i].id]
    {
      assert InFlight(s, d, i);
    }
  }

  lemma NextKeepsSound(s: System, e: Event)
    requires Sound(s)
    ensures Sound(Next(s, e))
  {
    match e
    case Claim(d, stamp, ids) => ClaimKeepsSound(s, d, stamp, ids);
    case MarkPublished(d, at) => MarkKeepsSound(s, d, at);
    case Fail(d) => if Next(s, e) != s { FailureKeepsSound(s, d); }
    case Enqueue(id) => ItemsSurvive(s, Next(s, e));
    case Tick(to) => ItemsSurvive(s, Next(s, e));
    case HandlerAccepts(d) => if Next(s, e) != s { assert InFlight(s, d, 0); ItemsSurvive(s, Next(s, e)); }
    case Crash(d) => ItemsSurvive(s, Next(s, e));
  }

  lemma {:induction false} RunKeepsSound(now: Instant, events: seq<Event>)
    ensures Sound(Run(Start(now), events))
  {
    if events != [] {
      RunKeepsSound(now, events[..|events| - 1]);
      NextKeepsSound(Run(Start(now), events[..|events| - 1]), events[|events| - 1]);
    }
  }

  /** However the drains interleave, stall and die: no event is lost or duplicated between the tables, nothing
      is marked published that the handler did not accept, and a dead letter was claimed at least five times. */
  lemma NoEventIsLost(now: Instant, events: seq<Event>)
    ensures var s := Run(Start(now), events);
            && s.enqueued == s.rows.Keys + s.deadLetters.Keys && s.rows.Keys !! s.deadLetters.Keys
            && (forall id :: id in s.rows && s.rows[id].publishedAt.Some? ==> id in s.accepted)
            && (forall id :: id in s.deadLetters ==> id in s.claims && s.claims[id] >= MaximumAttempts)
  {
    RunKeepsSound(now, events);
  }

  lemma ClaimingOne(s: System, id: EventId, d: DrainId, stamp: Instant)
    requires id in s.rows && s.rows[id].publishedAt.None? && d !in s.drains && stamp <= s.now
    ensures var s' := Next(s, Claim(d, stamp, [id]));
            if Claimable(s.rows[id], stamp)
            then d in s'.drains && s'.drains[d].batch == [Item(id, s.rows[id].attempts, stamp)]
            else s' == s
  {
    assert [id][0] == id;
    if Claimable(s.rows[id], stamp) {
      assert ClaimableBatch(s.rows, stamp, [id]);
      assert ItemsOf(s.rows, stamp, [id]) == [Item(id, s.rows[id].attempts, stamp)];
    } else {
      assert !ClaimableBatch(s.rows, stamp, [id]);
    }
  }

  /** A drain that dies strands nothing: whatever the state, an unpublished event can be claimed again as soon
      as its last claim is older than the visibility window, and not a millisecond earlier. */
  lemma DeadDrainsStrandNothing(now: Instant, events: seq<Event>, id: EventId, d: DrainId, stamp: Instant)
    requires var s := Run(Start(now), events);
             id in s.rows && s.rows[id].publishedAt.None? && d !in s.drains && stamp >= s.now
    ensures var s := Run(Start(now), events);
            var s' := Next(Next(s, Tick(stamp)), Claim(d, stamp, [id]));
            id in s.claims
            && ((d in s'.drains && s'.drains[d].batch == [Item(id, s.claims[id], stamp)])
                <==> (s.rows[id].claimedAt.Some? ==> stamp - s.rows[id].claimedAt.value > 60_000))
  {
    RunKeepsSound(now, events);
    ClaimingOne(Next(Run(Start(now), events), Tick(stamp)), id, d, stamp);
  }

  // ----- runs whose claims are settled in time -----

  /** No unsettled claim is older than the visibility window. */
  ghost predicate Timely(s: System) {
    forall d, i :: InFlight(s, d, i) ==> s.now - s.drains[d].batch[i].claimedAt <= ClaimVisibility
  }

  ghost predicate TimelyRun(now: Instant, events: seq<Event>) {
    forall n :: 0 <= n <= |events| ==> Timely(Run(Start(now), events[..n]))
  }

  /** Every unsettled event is in flight once, and its row is exactly as its drain stamped it. */
  ghost predicate Exclusive(s: System) {
    && (forall d, i, e, j :: (InFlight(s, d, i) && InFlight(s, e, j)
                              && s.drains[d].batch[i].id == s.drains[e].batch[j].id)
          ==> d == e && i == j)
    && (forall d, i :: InFlight(s, d, i) ==>
          var item := s.drains[d].batch[i];
          item.id in s.rows && s.rows[item.id] == Row(item.attempts + 1, Some(item.claimedAt), None))
  }

  lemma ClaimKeepsExclusive(s: System, d: DrainId, stamp: Instant, ids: seq<EventId>)
    requires Exclusive(s) && Timely(s)
    ensures Exclusive(Next(s, Claim(d, stamp, ids)))
  {
    var s' := Next(s, Claim(d, stamp, ids));
    if s' != s {
      forall e, i | InFlight(s', e, i)
        ensures var item := s'.drains[e].batch[i];
                item.id in s'.rows && s'.rows[item.id] == Row(item.attempts + 1, Some(item.claimedAt), None)
                && (item.id in ids <==> e == d)
      {
        if e == d {
          assert s'.drains[e].batch[i].id == ids[i];
        } else {
          assert InFlight(s, e, i);
        }
      }
      forall e, i, f, j | InFlight(s', e, i) && InFlight(s', f, j)
                          && s'.drains[e].batch[i].id == s'.drains[f].batch[j].id
        ensures e == f && i == j
      {
        if e == d && f == d {
          assert ids[i] == ids[j];
        } else if e != d && f != d {
          assert InFlight(s, e, i) && InFlight(s, f, j);
        }
      }
    }
  }

  /** Settling the first event of one drain leaves the others exactly as they were. */
  lemma SettlingKeepsExclusive(s: System, s': System, d: DrainId)
    requires Exclusive(s) && d in s.drains && s.drains[d].batch != []
    requires s'.drains == s.drains[d := Drain(s.drains[d].batch[1..], false)]
    requires forall id :: id in s.rows && id != s.drains[d].batch[0].id ==> id in s'.rows && s'.rows[id] == s.rows[id]
    ensures Exclusive(s')
  {
    assert InFlight(s, d, 0);
    forall e, i | InFlight(s', e, i)
      ensures var k := if e == d then i + 1 else i;
              InFlight(s, e, k) && s'.drains[e].batch[i] == s.drains[e].batch[k]
              && s'.drains[e].batch[i].id != s.drains[d].batch[0].id
    {
      assert InFlight(s, e, if e == d then i + 1 else i);
    }
  }

  lemma FailureKeepsExclusive(s: System, d: DrainId)
    requires Sound(s) && Exclusive(s) && d in s.drains && s.drains[d].batch != []
    ensures Exclusive(RecordFailure(s, d))
    ensures d in RecordFailure(s, d).drains
  {
    assert InFlight(s, d, 0);
    SettlingKeepsExclusive(s, RecordFailure(s, d), d);
  }

  lemma MarkKeepsExclusive(s: System, d: DrainId, at: Instant)
    requires Sound(s) && Exclusive(s) && d in s.drains && s.drains[d].batch != [] && s.drains[d].handled
    ensures Exclusive(Next(s, MarkPublished(d, at)))
  {
    assert InFlight(s, d, 0);
    SettlingKeepsExclusive(s, Next(s, MarkPublished(d, at)), d);
  }

  lemma FewerInFlight(s: System, s': System)
    requires Exclusive(s)
    requires forall id :: id in s.rows ==> id in s'.rows && s'.rows[id] == s.rows[id]
    requires forall d :: d in s'.drains ==> d in s.drains && s'.drains[d].batch == s.drains[d].batch
    ensures Exclusive(s')
  {
    forall d, i | InFlight(s', d, i) ensures InFlight(s, d, i) {}
  }

  lemma NextKeepsExclusive(s: System, e: Event)
    requires Sound(s) && Exclusive(s) && Timely(s)
    ensures Exclusive(Next(s, e))
  {
    var s' := Next(s, e);
    match e
    case Claim(d, stamp, ids) => ClaimKeepsExclusive(s, d, stamp, ids);
    case Fail(d) => if s' != s { FailureKeepsExclusive(s, d); }
    case MarkPublished(d, at) => if s' != s { MarkKeepsExclusive(s, d, at); }
    case Enqueue(id) => FewerInFlight(s, s');
    case Tick(to) => FewerInFlight(s, s');
    case HandlerAccepts(d) => FewerInFlight(s, s');
    case Crash(d) => FewerInFlight(s, s');
  }

  lemma {:induction false} TimelyRunIsExclusive(now: Instant, events: seq<Event>)
    requires TimelyRun(now, events)
    ensures Exclusive(Run(Start(now), events))
  {
    if events != [] {
      var before := events[..|events| - 1];
      forall n | 0 <= n <= |before| ensures Timely(Run(Start(now), before[..n])) {
        assert before[..n] == events[..n];
      }
      TimelyRunIsExclusive(now, before);
      assert before[..|before|] == before;
      RunKeepsSound(now, before);
      NextKeepsExclusive(Run(Start(now), before), events[|events| - 1]);
    }
  }

  /** When every claim is settled within the visibility window, no event is ever in flight at two drains. */
  lemma NoEventAtTwoDrains(now: Instant, events: seq<Event>, d: DrainId, i: nat, e: DrainId, j: nat)
    requires TimelyRun(now, events)
    requires InFlight(Run(Start(now), events), d, i) && InFlight(Run(Start(now), events), e, j)
    requires Run(Start(now), events).drains[d].batch[i].id == Run(Start(now), events).drains[e].batch[j].id
    ensures d == e && i == j
    ensures var s := Run(Start(now), events); var id := s.drains[d].batch[i].id;
            id in s.rows && s.rows[id].publishedAt.None?
  {
    TimelyRunIsExclusive(now, events);
  }

  /** In such runs a published row is final: it is never dead lettered, released or published again. */
  lemma {:induction false} PublishedIsFinal(now: Instant, events: seq<Event>, e: Event, id: EventId)
    requires TimelyRun(now, events)
    requires id in Run(Start(now), events).rows && Run(Start(now), events).rows[id].publishedAt.Some?
    ensures var s := Run(Start(now), events); id in Next(s, e).rows && Next(s, e).rows[id] == s.rows[id]
  {
    TimelyRunIsExclusive(now, events);
    RunKeepsSound(now, events);
    var s := Run(Start(now), events);
    if (e.Fail? || e.MarkPublished?) && e.drain in s.drains && s.drains[e.drain].batch != [] {
      assert InFlight(s, e.drain, 0);
    }
  }

  // ----- exactly when a published event can still be dead lettered -----

  ghost predicate DistinctBatches(s: System) {
    forall d, i, j :: InFlight(s, d, i) && InFlight(s, d, j) && s.drains[d].batch[i].id == s.drains[d].batch[j].id ==>
      i == j
  }

  lemma NextKeepsDistinctBatches(s: System, e: Event)
    requires DistinctBatches(s)
    ensures DistinctBatches(Next(s, e))
  {
    var s' := Next(s, e);
    forall d, i, j | InFlight(s', d, i) && InFlight(s', d, j) && s'.drains[d].batch[i].id == s'.drains[d].batch[j].id
      ensures i == j
    {
      BatchComesFrom(s, e, d);
      if e.Claim? && e.drain == d && d !in s.drains {
        assert e.ids[i] == e.ids[j];
      } else if s'.drains[d].batch == s.drains[d].batch {
        assert InFlight(s, d, i) && InFlight(s, d, j);
      } else {
        assert InFlight(s, d, i + 1) && InFlight(s, d, j + 1);
      }
    }
  }

  /** A batch after a step is the batch before it, that batch without its first event, or newly claimed. */
  lemma BatchComesFrom(s: System, e: Event, d: DrainId)
    requires d in Next(s, e).drains
    ensures var batch := Next(s, e).drains[d].batch;
            if d !in s.drains then
              e.Claim? && e.drain == d && ClaimableBatch(s.rows, e.stamp, e.ids)
              && batch == ItemsOf(s.rows, e.stamp, e.ids)
            else
              batch == s.drains[d].batch || (s.drains[d].batch != [] && batch == s.drains[d].batch[1..])
  {}

  lemma {:induction false} RunKeepsDistinctBatches(now: Instant, events: seq<Event>)
    ensures DistinctBatches(Run(Start(now), events))
  {
    if events != [] {
      RunKeepsDistinctBatches(now, events[..|events| - 1]);
      NextKeepsDistinctBatches(Run(Start(now), events[..|events| - 1]), events[|events| - 1]);
    }
  }

  /** A drain still holds the event from its last allowed attempt, and will get to it: every event before it in the
      batch still has its row, so settling that event does not end the drain. */
  ghost predicate LastAttemptPending(s: System, id: EventId, d: DrainId, i: int) {
    && InFlight(s, d, i)
    && s.drains[d].batch[i].id == id
    && s.drains[d].batch[i].attempts + 1 >= MaximumAttempts
    && forall j :: 0 <= j < i ==> s.drains[d].batch[j].id in s.rows
  }

  ghost predicate Endangered(s: System, id: EventId) {
    exists d, i :: LastAttemptPending(s, id, d, i)
  }

  predicate Published(s: System, id: EventId) {
    id in s.rows && s.rows[id].publishedAt.Some?
  }

  /** Rows come only with new ids, and go only to the dead letters. */
  lemma RowsOnlyGo(s: System, e: Event, id: EventId)
    requires Sound(s) && id in s.claims && id in Next(s, e).rows
    ensures id in s.rows
  {}

  lemma SafeRowStays(s: System, e: Event, id: EventId)
    requires Sound(s) && Published(s, id) && !Endangered(s, id)
    ensures Published(Next(s, e), id)
  {
    if (e.Fail? || e.MarkPublished?) && e.drain in s.drains && s.drains[e.drain].batch != [] {
      assert !LastAttemptPending(s, id, e.drain, 0);
      assert InFlight(s, e.drain, 0);
    }
  }

  lemma NewClaimsAreUnpublished(s: System, e: Event, d: DrainId, i: int)
    requires d !in s.drains && InFlight(Next(s, e), d, i)
    ensures !Published(s, Next(s, e).drains[d].batch[i].id)
  {
    BatchComesFrom(s, e, d);
  }

  /** An endangering item was already one before the step: published events are not claimed, and the events before
      it in the batch had their rows. */
  lemma DangerComesFrom(s: System, e: Event, id: EventId, d: DrainId, i: int)
    requires Sound(s) && Published(s, id) && LastAttemptPending(Next(s, e), id, d, i)
    ensures Endangered(s, id)
  {
    if d !in s.drains {
      NewClaimsAreUnpublished(s, e, d, i);
    } else {
      BatchComesFrom(s, e, d);
      var settled := Next(s, e).drains[d].batch != s.drains[d].batch;
      var k := if settled then i + 1 else i;
      assert InFlight(s, d, k);
      forall j | 0 <= j < k ensures s.drains[d].batch[j].id in s.rows {
        assert InFlight(s, d, j);
        if settled && j == 0 {
          SettlingNeedsARow(s, e, d);
        } else {
          var other := Next(s, e).drains[d].batch[if settled then j - 1 else j].id;
          assert other in Next(s, e).rows && other == s.drains[d].batch[j].id;
          RowsOnlyGo(s, e, other);
        }
      }
      assert LastAttemptPending(s, id, d, k);
    }
  }

  /** Settling an event whose row is gone ends the drain. */
  lemma SettlingNeedsARow(s: System, e: Event, d: DrainId)
    requires d in s.drains && d in Next(s, e).drains
    requires s.drains[d].batch != [] && Next(s, e).drains[d].batch == s.drains[d].batch[1..]
    ensures s.drains[d].batch[0].id in s.rows
  {
    assert |s.drains[d].batch[1..]| != |s.drains[d].batch|;
  }

  lemma {:induction false} SafeForGood(s: System, id: EventId, more: seq<Event>)
    requires Sound(s) && Published(s, id) && !Endangered(s, id)
    ensures var s' := Run(s, more); Sound(s') && Published(s', id) && !Endangered(s', id)
  {
    if more != [] {
      var before, e := Run(s, more[..|more| - 1]), more[|more| - 1];
      SafeForGood(s, id, more[..|more| - 1]);
      NextKeepsSound(before, e);
      SafeRowStays(before, e, id);
      if Endangered(Next(before, e), id) {
        var d, i :| LastAttemptPending(Next(before, e), id, d, i);
        DangerComesFrom(before, e, id, d, i);
      }
    }
  }

  lemma {:induction false} RunAfter(s: System, e: Event, more: seq<Event>)
    ensures Run(s, [e] + more) == Run(Next(s, e), more)
  {
    if more == [] {
      assert [e] + more == [e] && [e][..0] == [];
    } else {
      RunAfter(s, e, more[..|more| - 1]);
      assert ([e] + more)[..|more|] == [e] + more[..|more| - 1];
    }
  }

  /** One failure brings the drain one event closer. */
  lemma FailureAdvances(s: System, id: EventId, d: DrainId, i: int)
    requires Sound(s) && DistinctBatches(s) && i > 0 && LastAttemptPending(s, id, d, i)
    ensures LastAttemptPending(Next(s, Fail(d)), id, d, i - 1)
  {
    var s' := Next(s, Fail(d));
    assert InFlight(s, d, 0);
    assert s.drains[d].batch[0].id in s.rows;
    forall j | 0 <= j < i - 1 ensures s'.drains[d].batch[j].id in s'.rows {
      assert InFlight(s, d, j + 1);
    }
  }

  /** The drain fails one event after another until it reaches this one. */
  lemma {:induction false} FailingReachesIt(s: System, id: EventId, d: DrainId, i: int) returns (more: seq<Event>)
    requires Sound(s) && DistinctBatches(s) && id in s.rows && LastAttemptPending(s, id, d, i)
    ensures id in Run(s, more).deadLetters
    decreases i
  {
    var s' := Next(s, Fail(d));
    if i == 0 {
      more := [Fail(d)];
      RunAfter(s, Fail(d), []);
      assert [Fail(d)] + [] == more;
    } else {
      FailureAdvances(s, id, d, i);
      NextKeepsSound(s, Fail(d));
      NextKeepsDistinctBatches(s, Fail(d));
      assert InFlight(s, d, 0) && InFlight(s, d, i);
      var rest := FailingReachesIt(s', id, d, i - 1);
      RunAfter(s, Fail(d), rest);
      more := [Fail(d)] + rest;
    }
  }

  /** A published event can still be dead lettered exactly when some drain holds it from its last allowed attempt and
      every event before it in that drain's batch still has its row. */
  lemma PublishedCanBeDeadLetteredExactlyWhen(now: Instant, events: seq<Event>, id: EventId)
    requires Published(Run(Start(now), events), id)
    ensures var s := Run(Start(now), events);
            (exists more :: id in Run(s, more).deadLetters) <==> Endangered(s, id)
  {
    var s := Run(Start(now), events);
    RunKeepsSound(now, events);
    RunKeepsDistinctBatches(now, events);
    if d, i :| LastAttemptPending(s, id, d, i) {
      var more := FailingReachesIt(s, id, d, i);
    } else {
      forall more ensures id !in Run(s, more).deadLetters {
        SafeForGood(s, id, more);
      }
    }
  }

  /** The hypothesis is needed: a drain that stalls past the window on the fifth attempt dead letters an event
      that another drain has published. */
  lemma StallingCanDeadLetterAPublishedEvent()
    ensures exists events, e ::
              var s := Run(Start(0), events);
              7 in s.rows && s.rows[7].publishedAt.Some? && 7 in Next(s, e).deadLetters
  {
    var e1 := [Enqueue(7)];
    RunExtends(Start(0), [], Enqueue(7));
    assert [] + e1 == e1;
    var e2 := FailedAttempt(e1, 1);
    var e3 := FailedAttempt(e2, 2);
    var e4 := FailedAttempt(e3, 3);
    var e5 := FailedAttempt(e4, 4);
    var all := StalledFifthAttempt(e5);
    assert 7 in Next(Run(Start(0), all), Fail(5)).deadLetters;
  }

  lemma StalledFifthAttempt(events: seq<Event>) returns (all: seq<Event>)
    requires var s := Run(Start(0), events);
             && s.now == 0 && 7 in s.rows && s.rows[7] == Row(4, None, None) && s.deadLetters == map[]
             && 5 !in s.drains && 6 !in s.drains
    ensures var s := Run(Start(0), all);
            && 7 in s.rows && s.rows[7].publishedAt.Some? && s.deadLetters == map[]
            && 5 in s.drains && s.drains[5].batch == [Item(7, 4, 0)]
  {
    var window := ClaimVisibility + 1;
    var claimed := events + [Claim(5, 0, [7])];
    var stalled := claimed + [Tick(window)];
    var reclaimed := stalled + [Claim(6, window, [7])];
    var handled := reclaimed + [HandlerAccepts(6)];
    all := handled + [MarkPublished(6, window)];
    RunExtends(Start(0), events, Claim(5, 0, [7]));
    ClaimingOne(Run(Start(0), events), 7, 5, 0);
    RunExtends(Start(0), claimed, Tick(window));
    RunExtends(Start(0), stalled, Claim(6, window, [7]));
    ClaimingOne(Run(Start(0), stalled), 7, 6, window);
    RunExtends(Start(0), reclaimed, HandlerAccepts(6));
    RunExtends(Start(0), handled, MarkPublished(6, window));
  }

  lemma RunExtends(s: System, events: seq<Event>, e: Event)
    ensures Run(s, events + [e]) == Next(Run(s, events), e)
  {
    assert (events + [e])[..|events|] == events;
  }

  /** One claim at time zero whose handler call fails, for an event that has failed `n - 1` times. */
  lemma FailedAttempt(events: seq<Event>, n: nat) returns (events': seq<Event>)
    requires 1 <= n < MaximumAttempts
    requires var s := Run(Start(0), events);
             && s.now == 0 && 7 in s.rows && s.rows[7] == Row(n - 1, None, None) && s.deadLetters == map[]
             && forall d :: n <= d ==> d !in s.drains
    ensures var s := Run(Start(0), events');
            && s.now == 0 && 7 in s.rows && s.rows[7] == Row(n, None, None) && s.deadLetters == map[]
            && forall d :: n + 1 <= d ==> d !in s.drains
  {
    var claimed := events + [Claim(n, 0, [7])];
    events' := claimed + [Fail(n)];
    RunExtends(Start(0), events, Claim(n, 0, [7]));
    ClaimingOne(Run(Start(0), events), 7, n, 0);
    RunExtends(Start(0), claimed, Fail(n));
  }
}
