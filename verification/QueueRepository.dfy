/** The queue repository: reads and guarded or unguarded writes of `review_queue`, and the enqueue cascade. */
module QueueRepository {
  import opened Domain
  import opened Transitions
  import opened QueueInvariant
  import opened EnqueueSpec
  import opened TriggerSpec
  import opened Database

  datatype EnqueueResult = Enqueued(id: nat, created: bool) | Rethrown

  /** The ids of the rows in one of the given statuses, in any order. */
  predicate ListsRows(q: map<nat, QueueRow>, statuses: set<QueueStatus>, ids: seq<nat>) {
    && (forall i, j :: 0 <= i < j < |ids| ==> ids[i] != ids[j])
    && (forall i :: 0 <= i < |ids| ==> ids[i] in q && q[ids[i]].status in statuses)
    && (forall id :: id in q && q[id].status in statuses ==> id in ids)
  }

  predicate Ascending(ids: seq<nat>) {
    forall i, j :: 0 <= i < j < |ids| ==> ids[i] < ids[j]
  }

  function RowsBelow(q: map<nat, QueueRow>, statuses: set<QueueStatus>, n: nat): seq<nat> {
    if n == 0 then []
    else RowsBelow(q, statuses, n - 1) + (if n - 1 in q && q[n - 1].status in statuses then [n - 1] else [])
  }

  lemma {:induction false} RowsBelowAre(q: map<nat, QueueRow>, statuses: set<QueueStatus>, n: nat, id: nat)
    ensures id in RowsBelow(q, statuses, n) <==> id < n && id in q && q[id].status in statuses
    ensures Ascending(RowsBelow(q, statuses, n))
  {
    if n > 0 {
      var init := RowsBelow(q, statuses, n - 1);
      RowsBelowAre(q, statuses, n - 1, id);
      forall i | 0 <= i < |init| ensures init[i] < n - 1 { RowsBelowAre(q, statuses, n - 1, init[i]); }
    }
  }

  lemma RowsBelowList(q: map<nat, QueueRow>, statuses: set<QueueStatus>, n: nat)
    requires IdsBelow(q, n)
    ensures ListsRows(q, statuses, RowsBelow(q, statuses, n)) && Ascending(RowsBelow(q, statuses, n))
  {
    var ids := RowsBelow(q, statuses, n);
    RowsBelowAre(q, statuses, n, 0);
    forall i | 0 <= i < |ids| ensures ids[i] in q && q[ids[i]].status in statuses {
      RowsBelowAre(q, statuses, n, ids[i]);
    }
    forall id | id in q && q[id].status in statuses ensures id in ids { RowsBelowAre(q, statuses, n, id); }
  }

  /** The listing runs along the clocks of its rows. */
  predicate ByClock(q: map<nat, QueueRow>, ids: seq<nat>) {
    && (forall i :: 0 <= i < |ids| ==> ids[i] in q && q[ids[i]].retriggeredAt.Some?)
    && (forall i, j :: 0 <= i < j < |ids| ==> q[ids[i]].retriggeredAt.value <= q[ids[j]].retriggeredAt.value)
  }

  /** Puts an id behind all that are not after it. */
  lemma {:induction false} PutInByClock(q: map<nat, QueueRow>, ids: seq<nat>, id: nat) returns (ids': seq<nat>)
    requires ByClock(q, ids) && id in q && q[id].retriggeredAt.Some?
    ensures ByClock(q, ids') && multiset(ids') == multiset(ids) + multiset{id}
  {
    var n := |ids| - 1;
    if ids == [] || q[ids[n]].retriggeredAt.value <= q[id].retriggeredAt.value {
      ids' := ids + [id];
    } else {
      var init := PutInByClock(q, ids[..n], id);
      ids' := init + [ids[n]];
      assert ids == ids[..n] + [ids[n]];
      forall i | 0 <= i < |init| ensures q[init[i]].retriggeredAt.value <= q[ids[n]].retriggeredAt.value {
        assert init[i] in multiset(init);
        assert init[i] in ids[..n] || init[i] == id;
      }
    }
  }

  lemma {:induction false} SortByClock(q: map<nat, QueueRow>, ids: seq<nat>) returns (ids': seq<nat>)
    requires forall i :: 0 <= i < |ids| ==> ids[i] in q && q[ids[i]].retriggeredAt.Some?
    ensures ByClock(q, ids') && multiset(ids') == multiset(ids)
  {
    if ids == [] {
      ids' := [];
    } else {
      var n := |ids| - 1;
      var init := SortByClock(q, ids[..n]);
      ids' := PutInByClock(q, init, ids[n]);
      assert ids == ids[..n] + [ids[n]];
    }
  }

  /** A listing of the retriggered rows can be sorted by their clocks. */
  lemma ClockOrderExists(q: map<nat, QueueRow>, ids: seq<nat>) returns (ids': seq<nat>)
    requires QueueInv(q) && ListsRows(q, {Retriggered}, ids)
    ensures ListsRows(q, {Retriggered}, ids') && ByClock(q, ids')
  {
    ids' := SortByClock(q, ids);
    SameElements(ids, ids');
    forall i | 0 <= i < |ids'| ensures ids'[i] in q && q[ids'[i]].status in {Retriggered} {
      assert ids'[i] in multiset(ids');
      assert ids'[i] in ids;
    }
    forall id | id in q && q[id].status in {Retriggered} ensures id in ids' {
      assert id in multiset(ids);
    }
  }

  lemma SameElements(ids: seq<nat>, ids': seq<nat>)
    requires multiset(ids') == multiset(ids) && forall i, j :: 0 <= i < j < |ids| ==> ids[i] != ids[j]
    ensures forall i, j :: 0 <= i < j < |ids'| ==> ids'[i] != ids'[j]
  {
    forall i, j | 0 <= i < j < |ids'| ensures ids'[i] != ids'[j] {
      if ids'[i] == ids'[j] {
        var id := ids'[i];
        TwiceMeansTwo(ids', i, j);
        OnceMeansOne(ids, id);
      }
    }
  }

  lemma TwiceMeansTwo(ids: seq<nat>, i: nat, j: nat)
    requires i < j < |ids| && ids[i] == ids[j]
    ensures multiset(ids)[ids[i]] >= 2
  {
    assert ids == ids[..i + 1] + ids[i + 1..];
    assert ids[i] in ids[..i + 1] && ids[j] in ids[i + 1..];
  }

  lemma {:induction false} OnceMeansOne(ids: seq<nat>, id: nat)
    requires forall i, j :: 0 <= i < j < |ids| ==> ids[i] != ids[j]
    ensures multiset(ids)[id] <= 1
  {
    if ids != [] {
      var n := |ids| - 1;
      OnceMeansOne(ids[..n], id);
      assert ids == ids[..n] + [ids[n]];
    }
  }

  /** A row that keeps its comment, and is pending only if it was active, breaks no unique index. */
  lemma KeptCommentBreaksNoIndex(q: map<nat, QueueRow>, id: nat, r: QueueRow)
    requires QueueInv(q) && id in q && r.commentId == q[id].commentId && r.key == q[id].key
    requires r.status == Pending ==> Active(q[id])
    ensures !Violates(q, id, r)
  {
  }

  /** Resolving a row never breaks a unique index: not right after another row was rewritten either. */
  lemma ResolvingBreaksNoIndex(q: map<nat, QueueRow>, q0: map<nat, QueueRow>, other: nat, id: nat, res: Resolution,
                               now: int)
    requires QueueInv(q0) && id in q0 && other in q0 && q.Keys == q0.Keys
    requires q == q0 || (other != id && q == q0[other := q[other]] && q[other].commentId == q0[other].commentId)
    ensures !Violates(q, id, ResolvedAs(q[id], res, now))
  {
  }

  class QueueRepository {
    const db: Database
    const cfg: Config

    constructor (db: Database, cfg: Config)
      ensures this.db == db && this.cfg == cfg
    {
      this.db, this.cfg := db, cfg;
    }

    // -------------------------------------------------------------- queries

    method FindActive(key: PrKey, status: QueueStatus) returns (r: Option<nat>)
      requires QueueInv(db.queue) && status != Resolved
      ensures r == RowIn(db.queue, key, status)
    {
      var rows := set id | id in db.queue && db.queue[id].key == key && db.queue[id].status == status;
      if rows == {} {
        assert forall id :: id in db.queue && db.queue[id].key == key && db.queue[id].status == status ==> id in rows;
        r := None;
      } else {
        var id :| id in rows;
        r := Some(id);
      }
    }

    method FindReopenable(commentId: int, except: Option<nat>) returns (r: Option<nat>)
      requires QueueInv(db.queue)
      requires except.Some? && except.value in db.queue ==> db.queue[except.value].status != Resolved
      ensures r == ReopenableOf(db.queue, commentId)
    {
      var rows := set id | id in db.queue && Some(id) != except && db.queue[id].commentId == commentId
                           && db.queue[id].status == Resolved && Reopenable(db.queue[id].resolution);
      if rows == {} {
        assert forall id ::
          (id in db.queue && Some(id) != except && db.queue[id].commentId == commentId
           && db.queue[id].status == Resolved && Reopenable(db.queue[id].resolution)) ==> id in rows;
        r := None;
      } else {
        var id :| id in rows;
        CommentRowIs(db.queue, commentId, id);
        r := Some(id);
      }
    }

    method FindResolvedOf(d: EnqueueData) returns (r: Option<nat>)
      requires QueueInv(db.queue)
      ensures r == ResolvedOfComment(db.Snapshot(), d)
    {
      var rows := set id | id in db.queue && db.queue[id].key == d.key && db.queue[id].commentId == d.commentId
                           && db.queue[id].status == Resolved;
      if rows == {} {
        assert forall id ::
          (id in db.queue && db.queue[id].key == d.key && db.queue[id].commentId == d.commentId
           && db.queue[id].status == Resolved) ==> id in rows;
        r := None;
      } else {
        var id :| id in rows;
        CommentRowIs(db.queue, d.commentId, id);
        r := Some(id);
      }
    }

    /** The active rows, by ascending id. */
    method GetActiveQueue() returns (ids: seq<nat>)
      requires QueueOk(db.Snapshot())
      ensures ListsRows(db.queue, {Pending, Retriggered}, ids) && Ascending(ids)
    {
      ids := RowsBelow(db.queue, {Pending, Retriggered}, db.nextQueueId);
      RowsBelowList(db.queue, {Pending, Retriggered}, db.nextQueueId);
    }

    /** The retriggered rows, by ascending clock. */
    method GetRetriggeredQueue() returns (ids: seq<nat>)
      requires QueueOk(db.Snapshot())
      ensures ListsRows(db.queue, {Retriggered}, ids) && ByClock(db.queue, ids)
    {
      RowsBelowList(db.queue, {Retriggered}, db.nextQueueId);
      ghost var sorted := ClockOrderExists(db.queue, RowsBelow(db.queue, {Retriggered}, db.nextQueueId));
      ids :| ListsRows(db.queue, {Retriggered}, ids) && ByClock(db.queue, ids);
    }

    // -------------------------------------------------------------- enqueue

    /** The store and the result follow the cascade's specification; a rethrown error leaves the store as it was. */
    ghost predicate Follows(o: EnqueueOutcome, before: Tables, r: EnqueueResult)
      reads db
    {
      match o
      case Threw => r == Rethrown && db.Snapshot() == before
      case Done(t, id, created) => r == Enqueued(id, created) && db.Snapshot() == t
    }

    method Enqueue(d: EnqueueData, now: int) returns (r: EnqueueResult)
      requires QueueOk(db.Snapshot()) && CommentOf(db.queue, d.commentId, d.key)
      modifies db
      ensures Follows(EnqueueSpec.Enqueue(old(db.Snapshot()), d, cfg.detectionLookback, now), old(db.Snapshot()), r)
    {
      var retriggered := FindActive(d.key, Retriggered);
      if retriggered.Some? {
        r := AdoptRetriggered(d, retriggered.value, now);
        return;
      }
      var resolved := FindResolvedOf(d);
      if resolved.Some? && CoolingDown(d, now) {
        r := Enqueued(resolved.value, false);
        return;
      }
      if resolved.Some? && RecentlyResolved(db.queue[resolved.value], now) {
        r := Enqueued(resolved.value, false);
        return;
      }
      r := CreateQueueRow(d, now);
    }

    method AdoptRetriggered(d: EnqueueData, id: nat, now: int) returns (r: EnqueueResult)
      requires QueueOk(db.Snapshot())
      requires id in db.queue && db.queue[id].key == d.key && db.queue[id].status == Retriggered
      modifies db
      ensures Follows(Adopt(old(db.Snapshot()), d, id, cfg.detectionLookback, now), old(db.Snapshot()), r)
    {
      var row := db.queue[id];
      if row.commentId == d.commentId {
        r := AdoptSameComment(d, id, now);
        return;
      }
      var other := FindReopenable(d.commentId, Some(id));
      if other.Some? {
        r := SwapWithResolved(d, id, other.value, now);
        return;
      }
      var ok := db.UpdateRow(id, CommentReplaced(row, d.commentUrl, d.commentId, d.runId, now));
      r := if ok then Enqueued(id, false) else Rethrown;
    }

    method AdoptSameComment(d: EnqueueData, id: nat, now: int) returns (r: EnqueueResult)
      requires QueueOk(db.Snapshot())
      requires id in db.queue && db.queue[id].status == Retriggered
      modifies db
      ensures Follows(AdoptSame(old(db.Snapshot()), d, id, cfg.detectionLookback, now), old(db.Snapshot()), r)
    {
      var row := db.queue[id];
      if ReopensStale(db.Snapshot(), d, row, cfg.detectionLookback, now) {
        var reopened := ReopenStaleRetriggered(id, d.title, d.runId, d.cooldownUntil);
        r := Enqueued(id, true);
      } else if d.runId.Some? && row.commentRunId != d.runId {
        LegalRewriteKeepsInv(db.queue, id, RunAdopted(row, d.runId.value, now));
        var ok := db.UpdateRow(id, RunAdopted(row, d.runId.value, now));
        r := Enqueued(id, false);
      } else {
        r := Enqueued(id, false);
      }
    }

    method SwapWithResolved(d: EnqueueData, id: nat, other: nat, now: int) returns (r: EnqueueResult)
      requires QueueOk(db.Snapshot()) && id in db.queue && other in db.queue && id != other
      requires db.queue[id].status == Retriggered && db.queue[other].commentId == d.commentId
      modifies db
      ensures Follows(Swap(old(db.Snapshot()), d, id, other, now), old(db.Snapshot()), r)
    {
      if !EditedAfter(d, db.queue[other]) {
        r := Enqueued(id, false);
        return;
      }
      var ok := db.UpdateRow(other, ReopenedFor(db.queue[other], d));
      if !ok {
        r := Rethrown;
        return;
      }
      db.EnsureOrder(other);
      ResolvingBreaksNoIndex(db.queue, old(db.queue), other, id, Skipped, now);
      ok := db.UpdateRow(id, ResolvedAs(db.queue[id], Skipped, now));
      db.Record(EnqueuedEvent(d.key));
      r := Enqueued(other, true);
    }

    method CreateQueueRow(d: EnqueueData, now: int) returns (r: EnqueueResult)
      requires QueueOk(db.Snapshot())
      modifies db
      ensures Follows(Create(old(db.Snapshot()), d, now), old(db.Snapshot()), r)
    {
      var ok, id := db.InsertRow(NewRow(d, now));
      if !ok {
        r := HandleEnqueueConflict(d);
        return;
      }
      db.EnsureOrder(id);
      db.Record(EnqueuedEvent(d.key));
      r := Enqueued(id, true);
    }

    method HandleEnqueueConflict(d: EnqueueData) returns (r: EnqueueResult)
      requires QueueOk(db.Snapshot())
      modifies db
      ensures Follows(Recover(old(db.Snapshot()), d), old(db.Snapshot()), r)
    {
      var pending := FindActive(d.key, Pending);
      if pending.Some? {
        r := Enqueued(pending.value, false);
        return;
      }
      var other := FindReopenable(d.commentId, None);
      if other.None? {
        r := Rethrown;
        return;
      }
      if !EditedAfter(d, db.queue[other.value]) {
        r := Enqueued(other.value, false);
        return;
      }
      var ok := db.UpdateRow(other.value, ReopenedFor(db.queue[other.value], d));
      if !ok {
        r := Rethrown;
        return;
      }
      db.EnsureOrder(other.value);
      db.Record(EnqueuedEvent(d.key));
      r := Enqueued(other.value, true);
    }

    // -------------------------------------------------------------- writes keyed by id

    /** Unguarded: whatever the row's status. An unknown id is an error of the caller's transaction. */
    method MarkResolved(id: nat, res: Resolution, now: int) returns (found: bool)
      modifies db`queue
      requires QueueOk(db.Snapshot())
      ensures found <==> id in old(db.queue)
      ensures db.Snapshot() ==
        if found then WithRow(old(db.Snapshot()), id, ResolvedAs(old(db.queue)[id], res, now)) else old(db.Snapshot())
    {
      found := id in db.queue;
      if found {
        ResolvingBreaksNoIndex(db.queue, db.queue, id, id, res, now);
        var ok := db.UpdateRow(id, ResolvedAs(db.queue[id], res, now));
      }
    }

    /** Guarded on pending. */
    method MarkRetriggerSkipped(id: nat, reason: SkipReason, now: int) returns (changed: bool)
      requires QueueOk(db.Snapshot())
      modifies db`queue
      ensures changed <==> id in old(db.queue) && old(db.queue)[id].status == Pending
      ensures db.Snapshot() ==
        if changed then WithRow(old(db.Snapshot()), id, SkipMarked(old(db.queue)[id], reason, now))
        else old(db.Snapshot())
    {
      changed := id in db.queue && db.queue[id].status == Pending;
      if changed {
        LegalRewriteKeepsInv(db.queue, id, SkipMarked(db.queue[id], reason, now));
        var ok := db.UpdateRow(id, SkipMarked(db.queue[id], reason, now));
      }
    }

    /** Guarded on retriggered: whether this call flipped the row. */
    method MarkResolvedIfStillRetriggered(id: nat, res: Resolution, now: int) returns (changed: bool)
      requires QueueOk(db.Snapshot())
      modifies db`queue
      ensures changed <==> id in old(db.queue) && old(db.queue)[id].status == Retriggered
      ensures db.Snapshot() ==
        if changed then WithRow(old(db.Snapshot()), id, ResolvedAs(old(db.queue)[id], res, now)) else old(db.Snapshot())
    {
      changed := id in db.queue && db.queue[id].status == Retriggered;
      if changed {
        ResolvingBreaksNoIndex(db.queue, db.queue, id, id, res, now);
        var ok := db.UpdateRow(id, ResolvedAs(db.queue[id], res, now));
      }
    }

    /** Guarded on retriggered and on the run the caller loaded. */
    method AdoptRunIfStillRetriggered(id: nat, expected: Option<string>, run: string, now: int) returns (changed: bool)
      requires QueueOk(db.Snapshot())
      modifies db`queue
      ensures changed <==>
        id in old(db.queue) && old(db.queue)[id].status == Retriggered && old(db.queue)[id].commentRunId == expected
      ensures db.Snapshot() ==
        if changed then WithRow(old(db.Snapshot()), id, RunAdopted(old(db.queue)[id], run, now)) else old(db.Snapshot())
    {
      changed := id in db.queue && db.queue[id].status == Retriggered && db.queue[id].commentRunId == expected;
      if changed {
        LegalRewriteKeepsInv(db.queue, id, RunAdopted(db.queue[id], run, now));
        var ok := db.UpdateRow(id, RunAdopted(db.queue[id], run, now));
      }
    }

    /** Guarded on retriggered; a reopened row keeps or rejoins the queue order, and keeps its attempts. */
    method ReopenStaleRetriggered(id: nat, title: string, run: Option<string>, cooldown: Option<int>)
      returns (changed: bool)
      requires QueueOk(db.Snapshot())
      modifies db`queue, db`orders, db`nextOrderId
      ensures changed <==> id in old(db.queue) && old(db.queue)[id].status == Retriggered
      ensures db.Snapshot() ==
        if changed
        then WithOrder(WithRow(old(db.Snapshot()), id, Reopened(old(db.queue)[id], title, run, cooldown)), id)
        else old(db.Snapshot())
    {
      changed := id in db.queue && db.queue[id].status == Retriggered;
      if changed {
        LegalRewriteKeepsInv(db.queue, id, Reopened(db.queue[id], title, run, cooldown));
        var ok := db.UpdateRow(id, Reopened(db.queue[id], title, run, cooldown));
        db.EnsureOrder(id);
      }
    }

    /** Unguarded, after a post. */
    method MarkRetriggered(id: nat, until: int, url: string, ownRun: string, run: Option<string>, now: int)
      requires QueueOk(db.Snapshot()) && id in db.queue
      modifies db`queue
      ensures db.Snapshot() == WithRow(old(db.Snapshot()), id,
                                       MarkedRetriggered(old(db.queue)[id], until, url, ownRun, run, now))
    {
      var r := MarkedRetriggered(db.queue[id], until, url, ownRun, run, now);
      KeptCommentBreaksNoIndex(db.queue, id, r);
      var ok := db.UpdateRow(id, r);
    }

    /** Unguarded: one more attempt, parked as retriggered. */
    method BackOff(id: nat, now: int)
      requires QueueOk(db.Snapshot()) && id in db.queue
      modifies db`queue
      ensures db.Snapshot() == WithRow(old(db.Snapshot()), id, BackedOff(old(db.queue)[id], now))
    {
      KeptCommentBreaksNoIndex(db.queue, id, BackedOff(db.queue[id], now));
      var ok := db.UpdateRow(id, BackedOff(db.queue[id], now));
    }

    /** Unguarded: stores the attempts the caller computed. */
    method StoreAttempts(id: nat, attempts: nat)
      requires QueueOk(db.Snapshot()) && id in db.queue
      modifies db`queue
      ensures db.Snapshot() == WithRow(old(db.Snapshot()), id, old(db.queue)[id].(attempts := attempts))
    {
      var r := db.queue[id].(attempts := attempts);
      KeptCommentBreaksNoIndex(db.queue, id, r);
      var ok := db.UpdateRow(id, r);
    }

    /** Moves the row to a replacement comment. When a resolved row owns that comment already, this row is resolved
        instead; any other collision is rethrown. */
    method Reschedule(id: nat, url: string, commentId: int, run: Option<string>, original: string, now: int)
      returns (thrown: bool)
      requires QueueOk(db.Snapshot()) && id in db.queue
      modifies db`queue
      ensures var moved := Rescheduled(old(db.queue)[id], url, commentId, run, original, now);
        if !Violates(old(db.queue), id, moved) then
          !thrown && db.Snapshot() == WithRow(old(db.Snapshot()), id, moved)
        else if CommentResolved(old(db.queue), commentId) then
          && !thrown
          && db.Snapshot() == WithRow(old(db.Snapshot()), id, ResolvedAs(old(db.queue)[id], ReviewCompleted, now))
        else thrown && db.Snapshot() == old(db.Snapshot())
    {
      var ok := db.UpdateRow(id, Rescheduled(db.queue[id], url, commentId, run, original, now));
      thrown := !ok && !CommentResolved(db.queue, commentId);
      if !ok && !thrown {
        KeptCommentBreaksNoIndex(db.queue, id, ResolvedAs(db.queue[id], ReviewCompleted, now));
        ok := db.UpdateRow(id, ResolvedAs(db.queue[id], ReviewCompleted, now));
      }
    }

    /** Resolves every retriggered row whose clock is older than `age`. */
    method ResolveStaleRetriggered(age: int, now: int)
      modifies db`queue
      ensures db.Snapshot() == old(db.Snapshot()).(queue := Swept(old(db.queue), age, now))
    {
      db.queue := Swept(db.queue, age, now);
    }
  }
}
