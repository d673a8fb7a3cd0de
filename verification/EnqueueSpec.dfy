/** The four-stage cascade of `QueueRepository.enqueue` as a function of the tables, and what it promises. */
module EnqueueSpec {
  import opened Domain
  import opened Transitions
  import opened QueueInvariant

  const COMPLETED_GUARD_WINDOW := 5 * 60 * 1000

  /** `uuid` is the external identifier generated for a row, should one be inserted. */
  datatype EnqueueData = EnqueueData(
    uuid: string,
    key: PrKey,
    title: string,
    commentUrl: string,
    commentId: int,
    runId: Option<string>,
    commentUpdatedAt: Option<int>,
    cooldownUntil: Option<int>,
    commentType: Option<CommentType>,
    pullRequestId: nat)

  /** `Threw`: a unique index refused a write and nothing could be recovered; the transaction rolls back. */
  datatype EnqueueOutcome = Done(tables: Tables, id: nat, created: bool) | Threw

  predicate EditedAfter(d: EnqueueData, r: QueueRow) {
    d.commentUpdatedAt.Some? && r.resolvedAt.Some? && d.commentUpdatedAt.value > r.resolvedAt.value
  }

  predicate CoolingDown(d: EnqueueData, now: int) {
    d.cooldownUntil.Some? && now < d.cooldownUntil.value
  }

  predicate RecentlyResolved(r: QueueRow, now: int) {
    r.resolvedAt.Some? && r.resolvedAt.value >= now - COMPLETED_GUARD_WINDOW
  }

  predicate ReopensStale(t: Tables, d: EnqueueData, r: QueueRow, lookback: int, now: int) {
    && d.commentType == Some(ReviewSkipped)
    && d.pullRequestId in t.prs
    && var pr := t.prs[d.pullRequestId];
       ShouldReopenStale(r.retriggeredAt, pr.headSha, pr.reviewedHeadSha, lookback, now)
  }

  function ReopenedFor(r: QueueRow, d: EnqueueData): QueueRow {
    Reopened(r, d.title, d.runId, d.cooldownUntil)
  }

  function NewRow(d: EnqueueData, now: int): QueueRow {
    QueueRow(d.uuid, d.key, Some(d.pullRequestId), d.title, Pending, None, None, 0, None, None, 0,
             d.commentUrl, d.commentId, d.runId, None, None, None, None, d.cooldownUntil, now)
  }

  /** Stage one when the retriggered row `id` of the pull request carries the delivered comment. */
  ghost function AdoptSame(t: Tables, d: EnqueueData, id: nat, lookback: int, now: int): EnqueueOutcome
    requires id in t.queue
  {
    var row := t.queue[id];
    if ReopensStale(t, d, row, lookback, now) then
      Done(WithOrder(WithRow(t, id, ReopenedFor(row, d)), id), id, true)
    else if d.runId.Some? && row.commentRunId != d.runId then
      Done(WithRow(t, id, RunAdopted(row, d.runId.value, now)), id, false)
    else Done(t, id, false)
  }

  /** Stage one when the delivered comment has a reopenable resolved row `other` of its own. */
  ghost function Swap(t: Tables, d: EnqueueData, id: nat, other: nat, now: int): EnqueueOutcome
    requires id in t.queue && other in t.queue
  {
    var reopened := ReopenedFor(t.queue[other], d);
    if !EditedAfter(d, t.queue[other]) then Done(t, id, false)
    else if Violates(t.queue, other, reopened) then Threw
    else
      var t1 := WithOrder(WithRow(t, other, reopened), other);
      Done(WithEvent(WithRow(t1, id, ResolvedAs(t.queue[id], Skipped, now)), EnqueuedEvent(d.key)), other, true)
  }

  /** Stage one when no such row exists: the retriggered row takes the delivered comment over. */
  ghost function Recycle(t: Tables, d: EnqueueData, id: nat, now: int): EnqueueOutcome
    requires id in t.queue
  {
    var replaced := CommentReplaced(t.queue[id], d.commentUrl, d.commentId, d.runId, now);
    if Violates(t.queue, id, replaced) then Threw else Done(WithRow(t, id, replaced), id, false)
  }

  /** The resolved row of the delivered comment whose resolution allows reopening. */
  ghost function ReopenableOf(q: map<nat, QueueRow>, commentId: int): (r: Option<nat>)
    ensures r.Some? ==>
      && r.value in q && q[r.value].commentId == commentId
      && q[r.value].status == Resolved && Reopenable(q[r.value].resolution)
  {
    var other := ByComment(q, commentId);
    if other.Some? && q[other.value].status == Resolved && Reopenable(q[other.value].resolution) then other else None
  }

  ghost function Adopt(t: Tables, d: EnqueueData, id: nat, lookback: int, now: int): EnqueueOutcome
    requires id in t.queue
  {
    if t.queue[id].commentId == d.commentId then AdoptSame(t, d, id, lookback, now)
    else
      var other := ReopenableOf(t.queue, d.commentId);
      if other.Some? then Swap(t, d, id, other.value, now) else Recycle(t, d, id, now)
  }

  ghost function Insert(t: Tables, d: EnqueueData, now: int): Tables {
    var t1 := WithRow(t, t.nextQueueId, NewRow(d, now)).(nextQueueId := t.nextQueueId + 1);
    WithEvent(WithOrder(t1, t.nextQueueId), EnqueuedEvent(d.key))
  }

  /** Brings back the resolved row `other` of the delivered comment. */
  ghost function ReopenResolved(t: Tables, d: EnqueueData, other: nat): EnqueueOutcome
    requires other in t.queue
  {
    var reopened := ReopenedFor(t.queue[other], d);
    if Violates(t.queue, other, reopened) then Threw
    else Done(WithEvent(WithOrder(WithRow(t, other, reopened), other), EnqueuedEvent(d.key)), other, true)
  }

  /** Stage four after a unique index refused the insert. */
  ghost function Recover(t: Tables, d: EnqueueData): EnqueueOutcome {
    var pending := RowIn(t.queue, d.key, Pending);
    var other := ReopenableOf(t.queue, d.commentId);
    if pending.Some? then Done(t, pending.value, false)
    else if other.None? then Threw
    else if !EditedAfter(d, t.queue[other.value]) then Done(t, other.value, false)
    else ReopenResolved(t, d, other.value)
  }

  /** Stage four: insert a pending row, or recover from the conflict. */
  ghost function Create(t: Tables, d: EnqueueData, now: int): EnqueueOutcome {
    if Violates(t.queue, t.nextQueueId, NewRow(d, now)) then Recover(t, d)
    else Done(Insert(t, d, now), t.nextQueueId, true)
  }

  /** The resolved row of this very comment on this pull request, if any. */
  ghost function ResolvedOfComment(t: Tables, d: EnqueueData): (r: Option<nat>)
    ensures r.Some? ==> r.value in t.queue
  {
    var other := ByComment(t.queue, d.commentId);
    if other.Some? && t.queue[other.value].key == d.key && t.queue[other.value].status == Resolved then other else None
  }

  ghost function Enqueue(t: Tables, d: EnqueueData, lookback: int, now: int): EnqueueOutcome {
    var retriggered := RowIn(t.queue, d.key, Retriggered);
    if retriggered.Some? then Adopt(t, d, retriggered.value, lookback, now)
    else
      var resolved := ResolvedOfComment(t, d);
      if resolved.Some? && (CoolingDown(d, now) || RecentlyResolved(t.queue[resolved.value], now)) then
        Done(t, resolved.value, false)
      else Create(t, d, now)
  }

  predicate OutcomeOk(o: EnqueueOutcome) {
    o.Done? ==> QueueOk(o.tables)
  }

  /** Bringing back the resolved row `other` while resolving the retriggered row `id` of the same pull request. */
  lemma SwapKeepsInv(q: map<nat, QueueRow>, id: nat, other: nat, d: EnqueueData, now: int)
    requires QueueInv(q) && id in q && other in q && id != other
    requires q[id].status == Retriggered && q[id].key == q[other].key
    ensures QueueInv(q[other := ReopenedFor(q[other], d)][id := ResolvedAs(q[id], Skipped, now)])
    ensures !Violates(q, other, ReopenedFor(q[other], d))
  {
    var closed, reopened := ResolvedAs(q[id], Skipped, now), ReopenedFor(q[other], d);
    RowWriteKeepsInv(q, id, closed);
    RowWriteKeepsInv(q[id := closed], other, reopened);
    assert q[id := closed][other := reopened] == q[other := reopened][id := closed];
  }

  lemma SwapOk(t: Tables, d: EnqueueData, id: nat, other: nat, now: int)
    requires QueueOk(t) && id in t.queue && other in t.queue && id != other
    requires t.queue[id].status == Retriggered && t.queue[id].key == t.queue[other].key
    ensures OutcomeOk(Swap(t, d, id, other, now))
  {
    SwapKeepsInv(t.queue, id, other, d, now);
  }

  lemma AdoptSameKeepsInv(t: Tables, d: EnqueueData, id: nat, lookback: int, now: int)
    requires QueueOk(t) && id in t.queue && t.queue[id].status == Retriggered
    ensures OutcomeOk(AdoptSame(t, d, id, lookback, now))
  {
    if ReopensStale(t, d, t.queue[id], lookback, now) {
      LegalRewriteKeepsInv(t.queue, id, ReopenedFor(t.queue[id], d));
    } else if d.runId.Some? {
      LegalRewriteKeepsInv(t.queue, id, RunAdopted(t.queue[id], d.runId.value, now));
    }
  }

  lemma RecycleKeepsInv(t: Tables, d: EnqueueData, id: nat, now: int)
    requires QueueOk(t) && id in t.queue && t.queue[id].status == Retriggered
    ensures OutcomeOk(Recycle(t, d, id, now))
  {
    var replaced := CommentReplaced(t.queue[id], d.commentUrl, d.commentId, d.runId, now);
    if !Violates(t.queue, id, replaced) { RowWriteKeepsInv(t.queue, id, replaced); }
  }

  lemma AdoptKeepsInv(t: Tables, d: EnqueueData, id: nat, lookback: int, now: int)
    requires QueueOk(t) && CommentOf(t.queue, d.commentId, d.key)
    requires id in t.queue && t.queue[id].key == d.key && t.queue[id].status == Retriggered
    ensures OutcomeOk(Adopt(t, d, id, lookback, now))
  {
    var other := ReopenableOf(t.queue, d.commentId);
    if t.queue[id].commentId == d.commentId {
      AdoptSameKeepsInv(t, d, id, lookback, now);
    } else if other.Some? {
      SwapOk(t, d, id, other.value, now);
    } else {
      RecycleKeepsInv(t, d, id, now);
    }
  }

  lemma InsertKeepsInv(t: Tables, d: EnqueueData, now: int)
    requires QueueOk(t) && RowIn(t.queue, d.key, Retriggered).None?
    requires !Violates(t.queue, t.nextQueueId, NewRow(d, now))
    ensures QueueOk(Insert(t, d, now))
  {
    RowWriteKeepsInv(t.queue, t.nextQueueId, NewRow(d, now));
  }

  lemma RecoverKeepsInv(t: Tables, d: EnqueueData)
    requires QueueOk(t) && CommentOf(t.queue, d.commentId, d.key)
    requires RowIn(t.queue, d.key, Retriggered).None?
    ensures OutcomeOk(Recover(t, d))
  {
    var other := ReopenableOf(t.queue, d.commentId);
    if RowIn(t.queue, d.key, Pending).None? && other.Some? {
      RowWriteKeepsInv(t.queue, other.value, ReopenedFor(t.queue[other.value], d));
    }
  }

  lemma EnqueueKeepsInv(t: Tables, d: EnqueueData, lookback: int, now: int)
    requires QueueOk(t) && CommentOf(t.queue, d.commentId, d.key)
    ensures OutcomeOk(Enqueue(t, d, lookback, now))
  {
    var retriggered := RowIn(t.queue, d.key, Retriggered);
    if retriggered.Some? {
      AdoptKeepsInv(t, d, retriggered.value, lookback, now);
    } else {
      if !Violates(t.queue, t.nextQueueId, NewRow(d, now)) { InsertKeepsInv(t, d, now); }
      RecoverKeepsInv(t, d);
    }
  }

  // ---------------------------------------------------------------- what `created` means

  predicate HasPending(q: map<nat, QueueRow>, key: PrKey) {
    exists id :: id in q && q[id].status == Pending && q[id].key == key
  }

  /** `created` reports that the pull request went from no pending row to one, and `id` is then that row, carrying the
      delivered comment; without it, whether a pending row exists is unchanged. */
  predicate CreatedTruthfully(q: map<nat, QueueRow>, d: EnqueueData, o: EnqueueOutcome) {
    o.Done? ==>
      && o.id in o.tables.queue
      && o.tables.queue[o.id].key == d.key
      && (o.created ==>
            (&& !HasPending(q, d.key) && o.tables.queue[o.id].status == Pending
             && o.tables.queue[o.id].commentId == d.commentId))
      && (!o.created ==> (HasPending(q, d.key) <==> HasPending(o.tables.queue, d.key)))
  }

  lemma RetriggeredExcludesPending(q: map<nat, QueueRow>, id: nat)
    requires QueueInv(q) && id in q && q[id].status == Retriggered
    ensures !HasPending(q, q[id].key)
  {
  }

  /** A write that leaves the pull request with a retriggered row leaves it without a pending one. */
  lemma StaysRetriggered(t: Tables, d: EnqueueData, id: nat, o: EnqueueOutcome)
    requires QueueOk(t) && id in t.queue && t.queue[id].key == d.key && t.queue[id].status == Retriggered
    requires o.Done? && QueueOk(o.tables) && !o.created && o.id == id
    requires id in o.tables.queue && o.tables.queue[id].key == d.key && o.tables.queue[id].status == Retriggered
    ensures CreatedTruthfully(t.queue, d, o)
  {
    RetriggeredExcludesPending(t.queue, id);
    RetriggeredExcludesPending(o.tables.queue, id);
  }

  lemma AdoptSameCreates(t: Tables, d: EnqueueData, id: nat, lookback: int, now: int)
    requires QueueOk(t) && id in t.queue
    requires t.queue[id].key == d.key && t.queue[id].status == Retriggered && t.queue[id].commentId == d.commentId
    ensures CreatedTruthfully(t.queue, d, AdoptSame(t, d, id, lookback, now))
  {
    var o := AdoptSame(t, d, id, lookback, now);
    RetriggeredExcludesPending(t.queue, id);
    AdoptSameKeepsInv(t, d, id, lookback, now);
    if !o.created { StaysRetriggered(t, d, id, o); }
  }

  lemma SwapCreates(t: Tables, d: EnqueueData, id: nat, other: nat, now: int)
    requires QueueOk(t) && id in t.queue && other in t.queue && id != other
    requires t.queue[id].key == d.key && t.queue[id].status == Retriggered
    requires t.queue[other].key == d.key && t.queue[other].commentId == d.commentId
    ensures CreatedTruthfully(t.queue, d, Swap(t, d, id, other, now))
  {
    RetriggeredExcludesPending(t.queue, id);
  }

  lemma RecycleCreates(t: Tables, d: EnqueueData, id: nat, now: int)
    requires QueueOk(t) && id in t.queue && t.queue[id].key == d.key && t.queue[id].status == Retriggered
    ensures CreatedTruthfully(t.queue, d, Recycle(t, d, id, now))
  {
    RecycleKeepsInv(t, d, id, now);
    var o := Recycle(t, d, id, now);
    if o.Done? { StaysRetriggered(t, d, id, o); }
  }

  lemma AdoptCreates(t: Tables, d: EnqueueData, id: nat, lookback: int, now: int)
    requires QueueOk(t) && CommentOf(t.queue, d.commentId, d.key)
    requires id in t.queue && t.queue[id].key == d.key && t.queue[id].status == Retriggered
    ensures CreatedTruthfully(t.queue, d, Adopt(t, d, id, lookback, now))
  {
    var other := ReopenableOf(t.queue, d.commentId);
    if t.queue[id].commentId == d.commentId {
      AdoptSameCreates(t, d, id, lookback, now);
    } else if other.Some? {
      SwapCreates(t, d, id, other.value, now);
    } else {
      RecycleCreates(t, d, id, now);
    }
  }

  lemma InsertCreates(t: Tables, d: EnqueueData, now: int)
    requires QueueOk(t) && !Violates(t.queue, t.nextQueueId, NewRow(d, now))
    ensures CreatedTruthfully(t.queue, d, Done(Insert(t, d, now), t.nextQueueId, true))
  {
  }

  lemma ReopenResolvedCreates(t: Tables, d: EnqueueData, other: nat)
    requires other in t.queue && t.queue[other].key == d.key && t.queue[other].commentId == d.commentId
    requires !HasPending(t.queue, d.key)
    ensures CreatedTruthfully(t.queue, d, ReopenResolved(t, d, other))
  {
  }

  lemma RecoverCreates(t: Tables, d: EnqueueData)
    requires QueueOk(t) && CommentOf(t.queue, d.commentId, d.key)
    ensures CreatedTruthfully(t.queue, d, Recover(t, d))
  {
    var other := ReopenableOf(t.queue, d.commentId);
    if RowIn(t.queue, d.key, Pending).None? {
      assert !HasPending(t.queue, d.key);
      if other.Some? { ReopenResolvedCreates(t, d, other.value); }
    }
  }

  lemma CreatedMeansNewlyPending(t: Tables, d: EnqueueData, lookback: int, now: int)
    requires QueueOk(t) && CommentOf(t.queue, d.commentId, d.key)
    ensures CreatedTruthfully(t.queue, d, Enqueue(t, d, lookback, now))
  {
    var retriggered := RowIn(t.queue, d.key, Retriggered);
    if retriggered.Some? { AdoptCreates(t, d, retriggered.value, lookback, now); }
    RecoverCreates(t, d);
    if !Violates(t.queue, t.nextQueueId, NewRow(d, now)) { InsertCreates(t, d, now); }
  }

  // ---------------------------------------------------------------- idempotence

  lemma PendingRowIs(q: map<nat, QueueRow>, key: PrKey, id: nat)
    requires QueueInv(q) && id in q && q[id].key == key && q[id].status == Pending
    ensures RowIn(q, key, Pending) == Some(id) && RowIn(q, key, Retriggered).None?
  {
    var p := RowIn(q, key, Pending);
    assert p.Some?;
  }

  lemma RetriggeredRowIs(q: map<nat, QueueRow>, key: PrKey, id: nat)
    requires QueueInv(q) && id in q && q[id].key == key && q[id].status == Retriggered
    ensures RowIn(q, key, Retriggered) == Some(id)
  {
    var r := RowIn(q, key, Retriggered);
    assert r.Some?;
  }

  lemma CommentRowIs(q: map<nat, QueueRow>, commentId: int, id: nat)
    requires QueueInv(q) && id in q && q[id].commentId == commentId
    ensures ByComment(q, commentId) == Some(id)
  {
    var r := ByComment(q, commentId);
    assert r.Some?;
  }

  /** The resolved row of the delivered comment is still within its guard window, or the comment is cooling down. */
  ghost predicate Guarded(t: Tables, d: EnqueueData, now: int) {
    var resolved := ResolvedOfComment(t, d);
    resolved.Some? && (CoolingDown(d, now) || RecentlyResolved(t.queue[resolved.value], now))
  }

  /** While the pull request has a pending row, enqueueing changes nothing; it points at that row, or at the guarded
      resolved row of the delivered comment. */
  lemma PendingAbsorbs(t: Tables, d: EnqueueData, id: nat, lookback: int, now: int)
    requires QueueOk(t) && id in t.queue && t.queue[id].key == d.key && t.queue[id].status == Pending
    ensures Enqueue(t, d, lookback, now)
      == Done(t, if Guarded(t, d, now) then ResolvedOfComment(t, d).value else id, false)
  {
    PendingRowIs(t.queue, d.key, id);
    assert Violates(t.queue, t.nextQueueId, NewRow(d, now));
  }

  lemma AdoptSameTwice(t: Tables, d: EnqueueData, id: nat, lookback: int, now: int)
    requires id in t.queue && lookback >= 0
    requires !AdoptSame(t, d, id, lookback, now).created
    ensures var t' := AdoptSame(t, d, id, lookback, now).tables;
      id in t'.queue && AdoptSame(t', d, id, lookback, now) == Done(t', id, false)
  {
  }

  lemma RecycleThenAdopt(t: Tables, d: EnqueueData, id: nat, lookback: int, now: int)
    requires id in t.queue && lookback >= 0 && Recycle(t, d, id, now).Done?
    ensures var t' := Recycle(t, d, id, now).tables;
      && id in t'.queue && t'.queue[id].commentId == d.commentId
      && AdoptSame(t', d, id, lookback, now) == Done(t', id, false)
  {
  }

  lemma AdoptTwice(t: Tables, d: EnqueueData, id: nat, lookback: int, now: int)
    requires QueueOk(t) && CommentOf(t.queue, d.commentId, d.key) && lookback >= 0
    requires id in t.queue && t.queue[id].key == d.key && t.queue[id].status == Retriggered
    requires var o := Adopt(t, d, id, lookback, now); o.Done? && !o.created
    ensures var o := Adopt(t, d, id, lookback, now);
      o.id == id && id in o.tables.queue && Adopt(o.tables, d, id, lookback, now) == Done(o.tables, id, false)
  {
    if t.queue[id].commentId == d.commentId {
      AdoptSameTwice(t, d, id, lookback, now);
    } else if ReopenableOf(t.queue, d.commentId).None? {
      RecycleThenAdopt(t, d, id, lookback, now);
    }
  }

  /** Without a retriggered row, an enqueue that creates nothing writes nothing. */
  lemma NothingCreatedNothingWritten(t: Tables, d: EnqueueData, lookback: int, now: int)
    requires RowIn(t.queue, d.key, Retriggered).None?
    ensures var o := Enqueue(t, d, lookback, now); o.Done? && !o.created ==> o.tables == t
  {
  }

  lemma TwiceAfterCreation(t: Tables, d: EnqueueData, lookback: int, now: int)
    requires QueueOk(t) && CommentOf(t.queue, d.commentId, d.key)
    requires var o := Enqueue(t, d, lookback, now); o.Done? && o.created
    ensures var o := Enqueue(t, d, lookback, now); Enqueue(o.tables, d, lookback, now) == Done(o.tables, o.id, false)
  {
    var o := Enqueue(t, d, lookback, now);
    assert OutcomeOk(o) by { EnqueueKeepsInv(t, d, lookback, now); }
    assert CreatedTruthfully(t.queue, d, o) by { CreatedMeansNewlyPending(t, d, lookback, now); }
    CommentRowIs(o.tables.queue, d.commentId, o.id);
    PendingAbsorbs(o.tables, d, o.id, lookback, now);
  }

  lemma TwiceAfterAdoption(t: Tables, d: EnqueueData, id: nat, lookback: int, now: int)
    requires QueueOk(t) && CommentOf(t.queue, d.commentId, d.key) && lookback >= 0
    requires RowIn(t.queue, d.key, Retriggered) == Some(id)
    requires var o := Adopt(t, d, id, lookback, now); o.Done? && !o.created
    ensures var o := Adopt(t, d, id, lookback, now); Enqueue(o.tables, d, lookback, now) == Done(o.tables, o.id, false)
  {
    var o := Adopt(t, d, id, lookback, now);
    assert OutcomeOk(o) by { AdoptKeepsInv(t, d, id, lookback, now); }
    AdoptTwice(t, d, id, lookback, now);
    assert o.tables.queue[id].key == d.key && o.tables.queue[id].status == Retriggered;
    RetriggeredRowIs(o.tables.queue, d.key, id);
  }

  /** Enqueueing the same data again at the same instant changes nothing, points at the same row and reports
      `created: false`. */
  lemma EnqueueIsIdempotent(t: Tables, d: EnqueueData, lookback: int, now: int)
    requires QueueOk(t) && CommentOf(t.queue, d.commentId, d.key) && lookback >= 0
    requires Enqueue(t, d, lookback, now).Done?
    ensures var o := Enqueue(t, d, lookback, now);
      Enqueue(o.tables, d, lookback, now) == Done(o.tables, o.id, false)
  {
    var retriggered := RowIn(t.queue, d.key, Retriggered);
    if Enqueue(t, d, lookback, now).created {
      TwiceAfterCreation(t, d, lookback, now);
    } else if retriggered.Some? {
      TwiceAfterAdoption(t, d, retriggered.value, lookback, now);
    } else {
      NothingCreatedNothingWritten(t, d, lookback, now);
    }
  }

  // ---------------------------------------------------------------- frame and progress

  /** Enqueueing writes only to the queue and its order, and records at most its own event. */
  predicate EnqueueFrame(t: Tables, t': Tables, key: PrKey) {
    && t' == t.(queue := t'.queue, orders := t'.orders, events := t'.events,
                nextQueueId := t'.nextQueueId, nextOrderId := t'.nextOrderId)
    && (t'.events == t.events || t'.events == t.events + [EnqueuedEvent(key)])
  }

  /** A resolved row that is no longer resolved was reopened by the delivered comment, edited after the resolution. */
  predicate ReopensOnlyEdited(q: map<nat, QueueRow>, q': map<nat, QueueRow>, d: EnqueueData) {
    forall id :: id in q && id in q' && q[id].status == Resolved && q'[id].status != Resolved ==>
      && q'[id].status == Pending && q[id].commentId == d.commentId
      && Reopenable(q[id].resolution) && EditedAfter(d, q[id])
  }

  /** Row `r` may take the place of whatever is stored at `id`. */
  predicate RowAdvances(q: map<nat, QueueRow>, id: nat, r: QueueRow, d: EnqueueData) {
    if id in q then
      && RowProgress(q[id], r) && r.attempts == q[id].attempts
      && (r.commentId == q[id].commentId || (r.commentId == d.commentId && r.key == d.key))
      && (q[id].status == Resolved && r.status != Resolved ==>
            (&& r.status == Pending && q[id].commentId == d.commentId
             && Reopenable(q[id].resolution) && EditedAfter(d, q[id])))
    else r.key == d.key && r.pullRequestId == Some(d.pullRequestId) && r.commentId == d.commentId
  }

  /** No row takes a comment over but the delivered one, and only rows of its pull request do. */
  predicate CommentsStay(q: map<nat, QueueRow>, q': map<nat, QueueRow>, d: EnqueueData) {
    forall id :: id in q' ==>
      (id in q && q'[id].commentId == q[id].commentId) || (q'[id].commentId == d.commentId && q'[id].key == d.key)
  }

  predicate RowsAdvance(q: map<nat, QueueRow>, q': map<nat, QueueRow>, d: EnqueueData) {
    && QueueProgress(q, q')
    && ReopensOnlyEdited(q, q', d)
    && CommentsStay(q, q', d)
    && (forall id :: id in q && id in q' ==> q'[id].attempts == q[id].attempts)
    && forall id :: id in q' && id !in q ==> q'[id].key == d.key && q'[id].pullRequestId == Some(d.pullRequestId)
  }

  predicate Advances(t: Tables, d: EnqueueData, o: EnqueueOutcome) {
    o.Done? ==> EnqueueFrame(t, o.tables, d.key) && RowsAdvance(t.queue, o.tables.queue, d)
  }

  lemma OneRowAdvances(q: map<nat, QueueRow>, id: nat, r: QueueRow, d: EnqueueData)
    requires RowAdvances(q, id, r, d)
    ensures RowsAdvance(q, q[id := r], d)
  {
  }

  lemma TwoRowsAdvance(q: map<nat, QueueRow>, a: nat, r: QueueRow, b: nat, s: QueueRow, d: EnqueueData)
    requires a != b && RowAdvances(q, a, r, d) && RowAdvances(q, b, s, d)
    ensures RowsAdvance(q, q[a := r][b := s], d)
  {
  }

  lemma AdoptSameAdvances(t: Tables, d: EnqueueData, id: nat, lookback: int, now: int)
    requires id in t.queue && t.queue[id].status == Retriggered
    ensures Advances(t, d, AdoptSame(t, d, id, lookback, now))
  {
    if ReopensStale(t, d, t.queue[id], lookback, now) {
      OneRowAdvances(t.queue, id, ReopenedFor(t.queue[id], d), d);
    } else if d.runId.Some? {
      OneRowAdvances(t.queue, id, RunAdopted(t.queue[id], d.runId.value, now), d);
    }
  }

  lemma SwapAdvances(t: Tables, d: EnqueueData, id: nat, other: nat, now: int)
    requires id in t.queue && t.queue[id].status == Retriggered
    requires other in t.queue && t.queue[other].commentId == d.commentId
    requires t.queue[other].status == Resolved && Reopenable(t.queue[other].resolution)
    ensures Advances(t, d, Swap(t, d, id, other, now))
  {
    if EditedAfter(d, t.queue[other]) {
      TwoRowsAdvance(t.queue, other, ReopenedFor(t.queue[other], d), id, ResolvedAs(t.queue[id], Skipped, now), d);
    }
  }

  lemma RecycleAdvances(t: Tables, d: EnqueueData, id: nat, now: int)
    requires id in t.queue && t.queue[id].status == Retriggered && t.queue[id].key == d.key
    ensures Advances(t, d, Recycle(t, d, id, now))
  {
    OneRowAdvances(t.queue, id, CommentReplaced(t.queue[id], d.commentUrl, d.commentId, d.runId, now), d);
  }

  lemma AdoptAdvances(t: Tables, d: EnqueueData, id: nat, lookback: int, now: int)
    requires id in t.queue && t.queue[id].status == Retriggered && t.queue[id].key == d.key
    ensures Advances(t, d, Adopt(t, d, id, lookback, now))
  {
    var other := ReopenableOf(t.queue, d.commentId);
    if t.queue[id].commentId == d.commentId {
      AdoptSameAdvances(t, d, id, lookback, now);
    } else if other.Some? {
      SwapAdvances(t, d, id, other.value, now);
    } else {
      RecycleAdvances(t, d, id, now);
    }
  }

  lemma InsertAdvances(t: Tables, d: EnqueueData, now: int)
    requires QueueOk(t)
    ensures Advances(t, d, Done(Insert(t, d, now), t.nextQueueId, true))
  {
    OneRowAdvances(t.queue, t.nextQueueId, NewRow(d, now), d);
  }

  lemma ReopenResolvedAdvances(t: Tables, d: EnqueueData, other: nat)
    requires other in t.queue && t.queue[other].commentId == d.commentId && EditedAfter(d, t.queue[other])
    requires t.queue[other].status == Resolved && Reopenable(t.queue[other].resolution)
    ensures Advances(t, d, ReopenResolved(t, d, other))
  {
    OneRowAdvances(t.queue, other, ReopenedFor(t.queue[other], d), d);
  }

  lemma RecoverAdvances(t: Tables, d: EnqueueData)
    ensures Advances(t, d, Recover(t, d))
  {
    var other := ReopenableOf(t.queue, d.commentId);
    if other.Some? && EditedAfter(d, t.queue[other.value]) { ReopenResolvedAdvances(t, d, other.value); }
  }

  /** An enqueue is framed, loses no row, never lowers attempts, leaves terminal rows terminal, and reopens only the
      row of an edited comment. */
  lemma EnqueueAdvances(t: Tables, d: EnqueueData, lookback: int, now: int)
    requires QueueOk(t)
    ensures Advances(t, d, Enqueue(t, d, lookback, now))
  {
    var retriggered := RowIn(t.queue, d.key, Retriggered);
    if retriggered.Some? {
      AdoptAdvances(t, d, retriggered.value, lookback, now);
    } else if Violates(t.queue, t.nextQueueId, NewRow(d, now)) {
      RecoverAdvances(t, d);
    } else {
      InsertAdvances(t, d, now);
    }
  }

  /** Reopening a row does not reset its attempts, nor does anything else an enqueue does. */
  lemma EnqueueKeepsAttempts(t: Tables, d: EnqueueData, lookback: int, now: int, id: nat)
    requires QueueOk(t) && id in t.queue && Enqueue(t, d, lookback, now).Done?
    ensures var q' := Enqueue(t, d, lookback, now).tables.queue; id in q' && q'[id].attempts == t.queue[id].attempts
  {
    EnqueueAdvances(t, d, lookback, now);
  }

  /** On the create path, when no row of the pull request is retriggered, a row comes back only after the five-minute
      guard window and after any given cooldown. */
  lemma CreatePathWaits(t: Tables, d: EnqueueData, lookback: int, now: int, id: nat)
    requires QueueOk(t) && CommentOf(t.queue, d.commentId, d.key)
    requires RowIn(t.queue, d.key, Retriggered).None?
    requires var o := Enqueue(t, d, lookback, now);
      && o.Done? && id in t.queue && id in o.tables.queue
      && t.queue[id].status == Resolved && o.tables.queue[id].status != Resolved
    ensures t.queue[id].resolvedAt.value < now - COMPLETED_GUARD_WINDOW && !CoolingDown(d, now)
  {
    EnqueueAdvances(t, d, lookback, now);
    CommentRowIs(t.queue, d.commentId, id);
  }
}
