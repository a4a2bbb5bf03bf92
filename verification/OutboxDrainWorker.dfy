/** One drain as the worker performs it, statement by statement, proved to be a run of the outbox machine. */
module OutboxDrainWorker {
  import opened Shared
  import opened Outbox

  /** How the handler answers for one event; an accepted event is stamped with the clock read afterwards. */
  datatype Verdict = Accepted(at: Instant) | Rejected

  /** The events `publish` accepts. */
  function CountAccepted(ids: seq<EventId>, publish: EventId -> Verdict): nat {
    if ids == [] then 0
    else CountAccepted(ids[..|ids| - 1], publish) + (if publish(ids[|ids| - 1]).Accepted? then 1 else 0)
  }

  /** What an undisturbed drain makes of one claimed row: published, released for a retry, or gone. */
  function Outcome(row: Row, now: Instant, verdict: Verdict): Option<Row> {
    match verdict
    case Accepted(at) => Some(Row(row.attempts + 1, Some(now), Some(at)))
    case Rejected => if row.attempts + 1 < MaximumAttempts then Some(Row(row.attempts + 1, None, row.publishedAt))
                     else None
  }

  /** `id` has been settled as the handler answered. */
  ghost predicate SettledAs(was: map<EventId, Row>, rows: map<EventId, Row>, deadLetters: map<EventId, nat>,
                            id: EventId,
                            now: Instant, verdict: Verdict)
    requires id in was
  {
    match Outcome(was[id], now, verdict)
    case Some(row) => id in rows && rows[id] == row && id !in deadLetters
    case None => id !in rows && id in deadLetters && deadLetters[id] == was[id].attempts + 1
  }

  /** `id` has been claimed and not yet settled. */
  ghost predicate Pending(was: map<EventId, Row>, rows: map<EventId, Row>, deadLetters: map<EventId, nat>, id: EventId,
                          now: Instant)
    requires id in was
  {
    id in rows && id !in deadLetters && rows[id] == was[id].(attempts := was[id].attempts + 1, claimedAt := Some(now))
  }

  /** A claimable row is left out only when the batch is full of earlier ones. */
  ghost predicate NonePassedOver(rows: map<EventId, Row>, stamp: Instant, ids: seq<EventId>, limit: nat) {
    forall id :: id in rows && Claimable(rows[id], stamp) && id !in ids ==>
      |ids| == limit && forall i :: 0 <= i < |ids| ==> ids[i] < id
  }

  /** The first `next` events of the batch are settled, the others still claimed, and no other row has moved. */
  ghost predicate Progress(was: map<EventId, Row>, rows: map<EventId, Row>, deadLetters: map<EventId, nat>,
                           batch: seq<EventId>,
                           now: Instant, publish: EventId -> Verdict, next: nat)
    requires forall id :: id in batch ==> id in was
  {
    && (forall id :: id in was && id !in batch ==> id in rows && rows[id] == was[id])
    && (forall i :: next <= i < |batch| ==> Pending(was, rows, deadLetters, batch[i], now))
    && (forall i :: 0 <= i < next <= |batch| ==> SettledAs(was, rows, deadLetters, batch[i], now, publish(batch[i])))
  }

  lemma OneMoreSettled(was: map<EventId, Row>, rows: map<EventId, Row>, deadLetters: map<EventId, nat>,
                       rows': map<EventId, Row>, deadLetters': map<EventId, nat>, batch: seq<EventId>,
                       now: Instant, publish: EventId -> Verdict, next: nat)
    requires Ascending(batch) && forall id :: id in batch ==> id in was
    requires next < |batch| && Progress(was, rows, deadLetters, batch, now, publish, next)
    requires SettledAs(was, rows', deadLetters', batch[next], now, publish(batch[next]))
    requires SameElsewhere(rows, rows', batch[next]) && SameElsewhere(deadLetters, deadLetters', batch[next])
    ensures Progress(was, rows', deadLetters', batch, now, publish, next + 1)
  {
    forall i | 0 <= i < |batch| && i != next ensures batch[i] != batch[next] {}
  }

  lemma LongerBatch(rows: map<EventId, Row>, stamp: Instant, ids: seq<EventId>, id: EventId)
    requires ClaimableBatch(rows, stamp, ids)
    requires id in rows && Claimable(rows[id], stamp)
    requires forall i :: 0 <= i < |ids| ==> ids[i] < id
    ensures ClaimableBatch(rows, stamp, ids + [id])
  {}

  ghost predicate SameElsewhere<V>(m: map<EventId, V>, m': map<EventId, V>, changed: EventId) {
    forall id :: id != changed ==> (id in m <==> id in m') && (id in m ==> m[id] == m'[id])
  }

  /** After `trace` the machine has these tables, and `drain` has `batch` left to settle. */
  ghost predicate Tracks(before: System, trace: seq<Event>, rows: map<EventId, Row>, deadLetters: map<EventId, nat>,
                         drain: DrainId, batch: seq<Item>)
  {
    var s := Run(before, trace);
    s.rows == rows && s.deadLetters == deadLetters && drain in s.drains && s.drains[drain].batch == batch
  }

  lemma ClaimedItem(was: map<EventId, Row>, now: Instant, batch: seq<EventId>, next: nat)
    requires ClaimableBatch(was, now, batch) && next < |batch|
    ensures var claimed := ItemsOf(was, now, batch);
            && claimed[next..] == [claimed[next]] + claimed[next + 1..]
            && claimed[next].id == batch[next] && claimed[next].id in was
            && claimed[next].attempts == was[batch[next]].attempts && was[batch[next]].publishedAt.None?
  {
  }

  lemma OneMoreCounted(batch: seq<EventId>, publish: EventId -> Verdict, next: nat)
    requires next < |batch|
    ensures CountAccepted(batch[..next + 1], publish)
              == CountAccepted(batch[..next], publish) + (if publish(batch[next]).Accepted? then 1 else 0)
  {
    assert batch[..next + 1][..next] == batch[..next];
  }

  lemma ClaimTracks(before: System, rows: map<EventId, Row>, deadLetters: map<EventId, nat>, now: Instant,
                    batch: seq<EventId>, drain: DrainId)
    requires before.rows == rows && before.deadLetters == deadLetters
    requires drain !in before.drains && now <= before.now && ClaimableBatch(rows, now, batch)
    ensures Tracks(before, [Claim(drain, now, batch)], ClaimedRows(rows, now, batch), deadLetters, drain,
                   ItemsOf(rows, now, batch))
  {
    RunAfter(before, Claim(drain, now, batch), []);
    assert [Claim(drain, now, batch)] + [] == [Claim(drain, now, batch)];
  }

  lemma ClaimStarts(rows: map<EventId, Row>, deadLetters: map<EventId, nat>, now: Instant, batch: seq<EventId>,
                    publish: EventId -> Verdict)
    requires rows.Keys !! deadLetters.Keys && ClaimableBatch(rows, now, batch)
    ensures forall id :: id in batch ==> id in rows
    ensures Progress(rows, ClaimedRows(rows, now, batch), deadLetters, batch, now, publish, 0)
  {
    assert forall id :: id in deadLetters.Keys ==> id !in rows.Keys;
  }

  method Least(ids: set<EventId>) returns (least: EventId)
    requires ids != {}
    ensures least in ids && forall other :: other in ids ==> least <= other
  {
    least :| least in ids;
    var unseen := ids - {least};
    while unseen != {}
      invariant least in ids && unseen <= ids
      invariant forall other :: other in ids && other !in unseen ==> least <= other
      decreases unseen
    {
      var id :| id in unseen;
      if id < least {
        least := id;
      }
      unseen := unseen - {id};
    }
  }

  class Worker {
    var rows: map<EventId, Row>
    var deadLetters: map<EventId, nat>

    constructor (rows: map<EventId, Row>, deadLetters: map<EventId, nat>)
      ensures this.rows == rows && this.deadLetters == deadLetters
    {
      this.rows := rows;
      this.deadLetters := deadLetters;
    }

    /** The claimable rows in id order, as many as the batch takes: none is passed over for a later one. */
    method SelectClaimable(stamp: Instant, limit: nat) returns (ids: seq<EventId>)
      ensures ClaimableBatch(rows, stamp, ids) && |ids| <= limit
      ensures NonePassedOver(rows, stamp, ids, limit)
    {
      ids := [];
      var remaining := set id | id in rows && Claimable(rows[id], stamp);
      while |ids| < limit && remaining != {}
        invariant ClaimableBatch(rows, stamp, ids) && |ids| <= limit
        invariant forall id :: id in remaining <==> id in rows && Claimable(rows[id], stamp) && id !in ids
        invariant forall id, i :: id in remaining && 0 <= i < |ids| ==> ids[i] < id
        decreases remaining
      {
        var least := Least(remaining);
        LongerBatch(rows, stamp, ids, least);
        ids := ids + [least];
        remaining := remaining - {least};
      }
    }

    /** Returns whether the failing statement threw. */
    method RecordFailure(item: Item) returns (threw: bool)
      modifies this
      ensures threw <==> item.id !in old(rows) || (item.attempts + 1 >= MaximumAttempts && item.id in old(deadLetters))
      ensures threw ==> rows == old(rows) && deadLetters == old(deadLetters)
      ensures !threw && item.attempts + 1 < MaximumAttempts ==>
                rows == old(rows)[item.id := old(rows)[item.id].(claimedAt := None)] && deadLetters == old(deadLetters)
      ensures !threw && item.attempts + 1 >= MaximumAttempts ==>
                rows == old(rows) - {item.id} && deadLetters == old(deadLetters)[item.id := item.attempts + 1]
    {
      var attempts := item.attempts + 1;
      if attempts < MaximumAttempts {
        if item.id !in rows {
          return true;
        }
        rows := rows[item.id := rows[item.id].(claimedAt := None)];
        return false;
      }
      if item.id in deadLetters || item.id !in rows {
        return true;
      }
      deadLetters := deadLetters[item.id := attempts];
      rows := rows - {item.id};
      return false;
    }

    /** Hands one claimed event to the handler and records the answer; the ghost run takes the same steps. */
    method Settle(item: Item, now: Instant, verdict: Verdict, ghost was: map<EventId, Row>,
                  ghost drain: DrainId, ghost before: System, ghost trace: seq<Event>, ghost rest: seq<Item>)
      returns (accepted: bool, threw: bool, ghost trace': seq<Event>)
      requires item.id in was && item.attempts == was[item.id].attempts && was[item.id].publishedAt.None?
      requires Pending(was, rows, deadLetters, item.id, now)
      requires Tracks(before, trace, rows, deadLetters, drain, [item] + rest)
      modifies this
      ensures !threw && (accepted <==> verdict.Accepted?)
      ensures SettledAs(was, rows, deadLetters, item.id, now, verdict)
      ensures SameElsewhere(old(rows), rows, item.id) && SameElsewhere(old(deadLetters), deadLetters, item.id)
      ensures Tracks(before, trace', rows, deadLetters, drain, rest)
    {
      match verdict {
        case Accepted(at) =>
          rows := rows[item.id := rows[item.id].(publishedAt := Some(at))];
          accepted, threw := true, false;
          RunExtends(before, trace, HandlerAccepts(drain));
          RunExtends(before, trace + [HandlerAccepts(drain)], MarkPublished(drain, at));
          trace' := trace + [HandlerAccepts(drain)] + [MarkPublished(drain, at)];
        case Rejected =>
          accepted := false;
          threw := RecordFailure(item);
          RunExtends(before, trace, Fail(drain));
          trace' := trace + [Fail(drain)];
      }
    }

    /** The claiming UPDATE: count the attempt and stamp the rows selected. */
    method StampClaim(batch: seq<EventId>, now: Instant, publish: EventId -> Verdict, ghost drain: DrainId,
                      ghost before: System)
      returns (claimed: seq<Item>, ghost trace: seq<Event>)
      requires ClaimableBatch(rows, now, batch) && rows.Keys !! deadLetters.Keys
      requires before.rows == rows && before.deadLetters == deadLetters
      requires drain !in before.drains && now <= before.now
      modifies this
      ensures forall id :: id in batch ==> id in old(rows)
      ensures claimed == ItemsOf(old(rows), now, batch)
      ensures Progress(old(rows), rows, deadLetters, batch, now, publish, 0)
      ensures Tracks(before, trace, rows, deadLetters, drain, claimed)
    {
      claimed := ItemsOf(rows, now, batch);
      ClaimTracks(before, rows, deadLetters, now, batch, drain);
      ClaimStarts(rows, deadLetters, now, batch, publish);
      rows := ClaimedRows(rows, now, batch);
      trace := [Claim(drain, now, batch)];
    }

    /** The claiming transaction: select, count the attempt, stamp. */
    method ClaimBatch(now: Instant, batchSize: nat, publish: EventId -> Verdict, ghost drain: DrainId,
                      ghost before: System)
      returns (batch: seq<EventId>, claimed: seq<Item>, ghost trace: seq<Event>)
      requires rows.Keys !! deadLetters.Keys && before.rows == rows && before.deadLetters == deadLetters
      requires drain !in before.drains && now <= before.now
      modifies this
      ensures ClaimableBatch(old(rows), now, batch) && |batch| <= batchSize
      ensures NonePassedOver(old(rows), now, batch, batchSize)
      ensures claimed == ItemsOf(old(rows), now, batch)
      ensures forall id :: id in batch ==> id in old(rows)
      ensures Progress(old(rows), rows, deadLetters, batch, now, publish, 0)
      ensures Tracks(before, trace, rows, deadLetters, drain, claimed)
    {
      batch := SelectClaimable(now, batchSize);
      claimed, trace := StampClaim(batch, now, publish, drain, before);
    }

    /** Hands the next claimed event to the handler, settles it and counts it. */
    method SettleNext(batch: seq<EventId>, claimed: seq<Item>, next: nat, soFar: nat, now: Instant,
                      publish: EventId -> Verdict,
                      ghost was: map<EventId, Row>, ghost drain: DrainId, ghost before: System, ghost trace: seq<Event>)
      returns (delivered: nat, threw: bool, ghost trace': seq<Event>)
      requires ClaimableBatch(was, now, batch) && claimed == ItemsOf(was, now, batch) && next < |batch|
      requires forall id :: id in batch ==> id in was
      requires soFar == CountAccepted(batch[..next], publish)
      requires Progress(was, rows, deadLetters, batch, now, publish, next)
      requires Tracks(before, trace, rows, deadLetters, drain, claimed[next..])
      modifies this
      ensures !threw && delivered == CountAccepted(batch[..next + 1], publish)
      ensures Progress(was, rows, deadLetters, batch, now, publish, next + 1)
      ensures Tracks(before, trace', rows, deadLetters, drain, claimed[next + 1..])
    {
      var item := claimed[next];
      ghost var rowsBefore, deadLettersBefore := rows, deadLetters;
      ClaimedItem(was, now, batch, next);
      OneMoreCounted(batch, publish, next);
      var accepted;
      accepted, threw, trace' := Settle(item, now, publish(item.id), was, drain, before, trace, claimed[next + 1..]);
      OneMoreSettled(was, rowsBefore, deadLettersBefore, rows, deadLetters, batch, now, publish, next);
      delivered := if accepted then soFar + 1 else soFar;
    }

    /** The loop over the claimed events. */
    method SettleBatch(batch: seq<EventId>, claimed: seq<Item>, now: Instant, publish: EventId -> Verdict,
                       ghost was: map<EventId, Row>, ghost drain: DrainId, ghost before: System,
                       ghost claim: seq<Event>)
      returns (delivered: nat, threw: bool, ghost trace: seq<Event>)
      requires ClaimableBatch(was, now, batch) && claimed == ItemsOf(was, now, batch)
      requires forall id :: id in batch ==> id in was
      requires Progress(was, rows, deadLetters, batch, now, publish, 0)
      requires Tracks(before, claim, rows, deadLetters, drain, claimed)
      modifies this
      ensures !threw && delivered == CountAccepted(batch, publish)
      ensures Progress(was, rows, deadLetters, batch, now, publish, |batch|)
      ensures Tracks(before, trace, rows, deadLetters, drain, [])
    {
      delivered, threw, trace := 0, false, claim;
      var next := 0;
      assert claimed[0..] == claimed;
      while next < |claimed| && !threw
        invariant 0 <= next <= |claimed| == |batch| && !threw
        invariant delivered == CountAccepted(batch[..next], publish)
        invariant Progress(was, rows, deadLetters, batch, now, publish, next)
        invariant Tracks(before, trace, rows, deadLetters, drain, claimed[next..])
      {
        delivered, threw, trace := SettleNext(batch, claimed, next, delivered, now, publish, was, drain, before, trace);
        next := next + 1;
      }
      assert batch[..next] == batch;
    }

    /** With nobody interfering a drain never throws, settles every row of its batch as the handler answered,
        touches no other row, and is a run of the outbox machine. */
    method DrainOnce(now: Instant, batchSize: nat, publish: EventId -> Verdict, ghost drain: DrainId,
                     ghost before: System)
      returns (delivered: nat, threw: bool, batch: seq<EventId>, ghost trace: seq<Event>)
      requires Sound(before) && before.rows == rows && before.deadLetters == deadLetters
      requires drain !in before.drains && now <= before.now
      modifies this
      ensures !threw && delivered == CountAccepted(batch, publish)
      ensures ClaimableBatch(old(rows), now, batch) && |batch| <= batchSize
      ensures NonePassedOver(old(rows), now, batch, batchSize)
      ensures forall id :: id in batch ==> id in old(rows)
      ensures Progress(old(rows), rows, deadLetters, batch, now, publish, |batch|)
      ensures Tracks(before, trace, rows, deadLetters, drain, [])
    {
      ghost var was := rows;
      var claimed;
      batch, claimed, trace := ClaimBatch(now, batchSize, publish, drain, before);
      delivered, threw, trace := SettleBatch(batch, claimed, now, publish, was, drain, before, trace);
    }
  }
}
