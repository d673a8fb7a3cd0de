/** When an enqueue brings a row to the queue, and what it leaves, read off the stored rows and the delivery. */
module EnqueueOutcomes {
  import opened Domain
  import opened Transitions
  import opened QueueInvariant
  import opened EnqueueSpec

  // ---------------------------------------------------------------- rows and delivery

  predicate IsRetriggered(q: map<nat, QueueRow>, d: EnqueueData, id: nat) {
    id in q && q[id].key == d.key && q[id].status == Retriggered
  }

  predicate IsPending(q: map<nat, QueueRow>, d: EnqueueData, id: nat) {
    id in q && q[id].key == d.key && q[id].status == Pending
  }

  predicate NoneActive(q: map<nat, QueueRow>, d: EnqueueData) {
    forall id :: id in q && q[id].key == d.key ==> q[id].status == Resolved
  }

  predicate CarriesIt(q: map<nat, QueueRow>, d: EnqueueData, id: nat) {
    id in q && q[id].commentId == d.commentId
  }

  predicate NoneCarriesIt(q: map<nat, QueueRow>, d: EnqueueData) {
    forall id :: id in q ==> q[id].commentId != d.commentId
  }

  /** Resolved as reviewed, failed or skipped. */
  predicate MayReturn(r: QueueRow) {
    && r.status == Resolved
    && (r.resolution == Some(ReviewCompleted) || r.resolution == Some(Failed) || r.resolution == Some(Skipped))
  }

  /** The delivered revision was made after the row was resolved. */
  predicate EditedSince(d: EnqueueData, r: QueueRow) {
    d.commentUpdatedAt.Some? && r.resolvedAt.Some? && r.resolvedAt.value < d.commentUpdatedAt.value
  }

  /** The delivered cooldown is still running, or the row was resolved in the last five minutes. */
  predicate HeldBack(d: EnqueueData, r: QueueRow, now: int) {
    || (d.cooldownUntil.Some? && now < d.cooldownUntil.value)
    || (r.resolvedAt.Some? && now - r.resolvedAt.value <= 300_000)
  }

  /** A push edited the comment of a stale trigger: the known head is not the reviewed one. */
  predicate PushedSince(t: Tables, d: EnqueueData, r: QueueRow, lookback: int, now: int) {
    && d.commentType == Some(ReviewSkipped) && d.pullRequestId in t.prs
    && t.prs[d.pullRequestId].headSha.Some? && t.prs[d.pullRequestId].headSha != t.prs[d.pullRequestId].reviewedHeadSha
    && r.retriggeredAt.Some? && r.retriggeredAt.value + lookback < now
  }

  /** The row waits again, for the delivered revision, with its attempts as they were. */
  function Afresh(r: QueueRow, d: EnqueueData): (r': QueueRow) {
    r.(status := Pending, resolution := None, resolvedAt := None, title := d.title, commentRunId := d.runId,
       cooldownUntil := d.cooldownUntil, lastSkippedAt := None, lastSkipReason := None, skipCount := 0)
  }

  /** The item has an order row: its own, or a new one without a position. */
  predicate InOrder(t: Tables, t': Tables, id: nat) {
    if id in t.orders then t'.orders == t.orders && t'.nextOrderId == t.nextOrderId
    else t'.orders == t.orders[id := OrderRow(t.nextOrderId, None)] && t'.nextOrderId == t.nextOrderId + 1
  }

  // ---------------------------------------------------------------- the pull request was retriggered

  lemma RetriggeredIs(q: map<nat, QueueRow>, d: EnqueueData, id: nat)
    requires QueueInv(q) && IsRetriggered(q, d, id)
    ensures RowIn(q, d.key, Retriggered) == Some(id)
  {
    RetriggeredRowIs(q, d.key, id);
  }

  /** For the comment the trigger waits on: a push reopens a stale trigger, a new run is adopted with a fresh clock, and
      anything else changes nothing. */
  lemma SameCommentSettles(t: Tables, d: EnqueueData, id: nat, lookback: int, now: int)
    requires QueueOk(t) && IsRetriggered(t.queue, d, id) && CarriesIt(t.queue, d, id)
    ensures
      var o, row := Enqueue(t, d, lookback, now), t.queue[id];
      var pushed := PushedSince(t, d, row, lookback, now);
      var newRun := d.runId.Some? && d.runId != row.commentRunId;
      && o.Done? && o.id == id && o.created == pushed
      && (pushed ==>
            && o.tables == t.(queue := t.queue[id := Afresh(row, d)], orders := o.tables.orders,
                              nextOrderId := o.tables.nextOrderId)
            && InOrder(t, o.tables, id))
      && (!pushed && newRun ==>
            o.tables == t.(queue := t.queue[id := row.(commentRunId := d.runId, retriggeredAt := Some(now))]))
      && (!pushed && !newRun ==> o.tables == t)
  {
    RetriggeredIs(t.queue, d, id);
  }

  lemma CarrierIs(q: map<nat, QueueRow>, d: EnqueueData, x: nat)
    requires QueueInv(q) && CarriesIt(q, d, x)
    ensures ByComment(q, d.commentId) == Some(x)
    ensures ReopenableOf(q, d.commentId) == if MayReturn(q[x]) then Some(x) else None
  {
    CommentRowIs(q, d.commentId, x);
  }

  /** For another comment that has a row of its own which may return: exactly an edit since brings that row back, and
      then the retriggered row is resolved as skipped. */
  lemma EditTakesTheTriggersPlace(t: Tables, d: EnqueueData, id: nat, x: nat, lookback: int, now: int)
    requires QueueOk(t) && CommentOf(t.queue, d.commentId, d.key) && IsRetriggered(t.queue, d, id)
    requires !CarriesIt(t.queue, d, id) && CarriesIt(t.queue, d, x) && MayReturn(t.queue[x])
    ensures
      var o, edited := Enqueue(t, d, lookback, now), EditedSince(d, t.queue[x]);
      && o.Done? && o.created == edited && o.id == (if edited then x else id)
      && (edited ==>
            && o.tables.queue == t.queue[x := Afresh(t.queue[x], d)]
                                        [id := t.queue[id].(status := Resolved, resolution := Some(Skipped),
                                                            resolvedAt := Some(now))]
            && o.tables == t.(queue := o.tables.queue, orders := o.tables.orders, nextOrderId := o.tables.nextOrderId,
                              events := t.events + [EnqueuedEvent(d.key)])
            && InOrder(t, o.tables, x))
      && (!edited ==> o.tables == t)
  {
    RetriggeredIs(t.queue, d, id);
    CarrierIs(t.queue, d, x);
    SwapKeepsInv(t.queue, id, x, d, now);
  }

  /** A comment without a row is taken over by the retriggered row; one whose row may not return is refused. */
  lemma NewCommentIsTakenOver(t: Tables, d: EnqueueData, id: nat, lookback: int, now: int)
    requires QueueOk(t) && CommentOf(t.queue, d.commentId, d.key) && IsRetriggered(t.queue, d, id)
    requires !CarriesIt(t.queue, d, id)
    requires forall x :: CarriesIt(t.queue, d, x) ==> !MayReturn(t.queue[x])
    ensures
      var o := Enqueue(t, d, lookback, now);
      && (o.Done? <==> NoneCarriesIt(t.queue, d))
      && (o.Done? ==>
            && o.id == id && !o.created
            && o.tables == t.(queue := t.queue[id := t.queue[id].(
                 commentUrl := d.commentUrl, commentId := d.commentId, commentRunId := d.runId,
                 retriggeredAt := Some(now))]))
  {
    RetriggeredIs(t.queue, d, id);
    if x :| CarriesIt(t.queue, d, x) {
      CarrierIs(t.queue, d, x);
      assert t.queue[x].commentId == d.commentId && x != id;
    }
  }

  // ---------------------------------------------------------------- no row of the pull request is retriggered

  lemma NonePending(q: map<nat, QueueRow>, d: EnqueueData)
    requires NoneActive(q, d)
    ensures RowIn(q, d.key, Pending).None? && RowIn(q, d.key, Retriggered).None?
  {
  }

  /** A comment of its own row, while the pull request has no active row: the row returns exactly when it may, was
      edited since and is not held back. A row that may not return and is not held back refuses the delivery. */
  lemma EditReturnsTheRow(t: Tables, d: EnqueueData, x: nat, lookback: int, now: int)
    requires QueueOk(t) && CommentOf(t.queue, d.commentId, d.key)
    requires NoneActive(t.queue, d) && CarriesIt(t.queue, d, x)
    ensures
      var o, row := Enqueue(t, d, lookback, now), t.queue[x];
      var held := HeldBack(d, row, now);
      && (o.Done? <==> held || MayReturn(row))
      && (o.Done? ==> o.id == x && (o.created <==> !held && EditedSince(d, row)))
      && (o.Done? && o.created ==>
            && o.tables == t.(queue := t.queue[x := Afresh(row, d)], orders := o.tables.orders,
                              nextOrderId := o.tables.nextOrderId, events := t.events + [EnqueuedEvent(d.key)])
            && InOrder(t, o.tables, x))
      && (o.Done? && !o.created ==> o.tables == t)
  {
    NonePending(t.queue, d);
    CarrierIs(t.queue, d, x);
    assert t.queue[x].key == d.key && x != t.nextQueueId;
    assert Violates(t.queue, t.nextQueueId, NewRow(d, now));
  }

  /** A comment no row carries, while the pull request has no active row, gets a new pending row under the next id. */
  lemma NewCommentGetsARow(t: Tables, d: EnqueueData, lookback: int, now: int)
    requires QueueOk(t) && NoneActive(t.queue, d) && NoneCarriesIt(t.queue, d)
    ensures
      var o, id := Enqueue(t, d, lookback, now), t.nextQueueId;
      && o.Done? && o.created && o.id == id
      && o.tables.queue == t.queue[id := QueueRow(
           d.uuid, d.key, Some(d.pullRequestId), d.title, Pending, None, None, 0, None, None, 0,
           d.commentUrl, d.commentId, d.runId, None, None, None, None, d.cooldownUntil, now)]
      && o.tables == t.(queue := o.tables.queue, nextQueueId := id + 1, orders := o.tables.orders,
                        nextOrderId := o.tables.nextOrderId, events := t.events + [EnqueuedEvent(d.key)])
      && InOrder(t, o.tables, id)
  {
    NonePending(t.queue, d);
    assert ResolvedOfComment(t, d).None?;
  }

  /** While the pull request has a pending row nothing is written: the answer is that row, or the delivered comment's
      own resolved row while it is held back. */
  lemma PendingRowAnswers(t: Tables, d: EnqueueData, id: nat, lookback: int, now: int)
    requires QueueOk(t) && CommentOf(t.queue, d.commentId, d.key) && IsPending(t.queue, d, id)
    ensures
      var o := Enqueue(t, d, lookback, now);
      && o.Done? && !o.created && o.tables == t
      && (forall x :: CarriesIt(t.queue, d, x) && t.queue[x].status == Resolved && HeldBack(d, t.queue[x], now) ==>
            o.id == x)
      && (o.id == id
          || (CarriesIt(t.queue, d, o.id) && t.queue[o.id].status == Resolved && HeldBack(d, t.queue[o.id], now)))
  {
    PendingAbsorbs(t, d, id, lookback, now);
    if x :| CarriesIt(t.queue, d, x) { CarrierIs(t.queue, d, x); }
  }

  // ---------------------------------------------------------------- exactly when

  /** A push reopens the stale trigger that waits on the delivered comment. */
  ghost predicate ReopensTrigger(t: Tables, d: EnqueueData, lookback: int, now: int) {
    exists id ::
      IsRetriggered(t.queue, d, id) && CarriesIt(t.queue, d, id) && PushedSince(t, d, t.queue[id], lookback, now)
  }

  /** The edited comment takes the place of a trigger that waits on another one. */
  ghost predicate ReplacesTrigger(t: Tables, d: EnqueueData) {
    exists id, x ::
      && IsRetriggered(t.queue, d, id) && !CarriesIt(t.queue, d, id)
      && CarriesIt(t.queue, d, x) && MayReturn(t.queue[x]) && EditedSince(d, t.queue[x])
  }

  /** Nothing of the pull request is active, and the comment is new, or its row returns. */
  ghost predicate EntersFreely(t: Tables, d: EnqueueData, now: int) {
    && NoneActive(t.queue, d)
    && (NoneCarriesIt(t.queue, d)
        || exists x :: CarriesIt(t.queue, d, x) && MayReturn(t.queue[x]) && EditedSince(d, t.queue[x])
                       && !HeldBack(d, t.queue[x], now))
  }

  /** Another row carries the delivered comment and may not return, and nothing else decides before. */
  ghost predicate IsRefused(t: Tables, d: EnqueueData, now: int) {
    exists x ::
      && CarriesIt(t.queue, d, x) && t.queue[x].status == Resolved && !MayReturn(t.queue[x])
      && ((exists id :: IsRetriggered(t.queue, d, id)) || (NoneActive(t.queue, d) && !HeldBack(d, t.queue[x], now)))
  }

  ghost predicate Decided(t: Tables, d: EnqueueData, o: EnqueueOutcome, lookback: int, now: int) {
    && (o.Threw? <==> IsRefused(t, d, now))
    && (o.Done? && o.created <==>
          (ReopensTrigger(t, d, lookback, now) || ReplacesTrigger(t, d) || EntersFreely(t, d, now)))
  }

  lemma OneTriggerOneCarrier(q: map<nat, QueueRow>, d: EnqueueData)
    requires QueueInv(q)
    ensures forall a, b :: IsRetriggered(q, d, a) && IsRetriggered(q, d, b) ==> a == b
    ensures forall x, y :: CarriesIt(q, d, x) && CarriesIt(q, d, y) ==> x == y
  {
  }

  lemma SameCommentCase(t: Tables, d: EnqueueData, id: nat, lookback: int, now: int)
    requires QueueOk(t) && IsRetriggered(t.queue, d, id) && CarriesIt(t.queue, d, id)
    ensures Decided(t, d, Enqueue(t, d, lookback, now), lookback, now)
  {
    OneTriggerOneCarrier(t.queue, d);
    hide Enqueue, QueueOk, PushedSince, EditedSince, HeldBack;
    SameCommentSettles(t, d, id, lookback, now);
  }

  lemma EditedCase(t: Tables, d: EnqueueData, id: nat, x: nat, lookback: int, now: int)
    requires QueueOk(t) && CommentOf(t.queue, d.commentId, d.key) && IsRetriggered(t.queue, d, id)
    requires !CarriesIt(t.queue, d, id) && CarriesIt(t.queue, d, x) && MayReturn(t.queue[x])
    ensures Decided(t, d, Enqueue(t, d, lookback, now), lookback, now)
  {
    OneTriggerOneCarrier(t.queue, d);
    hide Enqueue, QueueOk, PushedSince, EditedSince, HeldBack;
    EditTakesTheTriggersPlace(t, d, id, x, lookback, now);
  }

  lemma NewCommentCase(t: Tables, d: EnqueueData, id: nat, lookback: int, now: int)
    requires QueueOk(t) && CommentOf(t.queue, d.commentId, d.key) && IsRetriggered(t.queue, d, id)
    requires !CarriesIt(t.queue, d, id) && forall x :: CarriesIt(t.queue, d, x) ==> !MayReturn(t.queue[x])
    ensures Decided(t, d, Enqueue(t, d, lookback, now), lookback, now)
  {
    OneTriggerOneCarrier(t.queue, d);
    NewCommentIsTakenOver(t, d, id, lookback, now);
    if x :| CarriesIt(t.queue, d, x) { assert t.queue[x].key == d.key && t.queue[x].status == Resolved; }
    hide Enqueue, QueueOk, CommentOf, PushedSince, EditedSince, HeldBack, MayReturn;
  }

  lemma TriggeredCase(t: Tables, d: EnqueueData, id: nat, lookback: int, now: int)
    requires QueueOk(t) && CommentOf(t.queue, d.commentId, d.key) && IsRetriggered(t.queue, d, id)
    ensures Decided(t, d, Enqueue(t, d, lookback, now), lookback, now)
  {
    hide Enqueue, QueueOk, CommentOf, IsRetriggered, Decided;
    if CarriesIt(t.queue, d, id) {
      SameCommentCase(t, d, id, lookback, now);
    } else if x :| CarriesIt(t.queue, d, x) && MayReturn(t.queue[x]) {
      EditedCase(t, d, id, x, lookback, now);
    } else {
      NewCommentCase(t, d, id, lookback, now);
    }
  }

  lemma PendingCase(t: Tables, d: EnqueueData, id: nat, lookback: int, now: int)
    requires QueueOk(t) && CommentOf(t.queue, d.commentId, d.key) && IsPending(t.queue, d, id)
    ensures Decided(t, d, Enqueue(t, d, lookback, now), lookback, now)
  {
    PendingAbsorbs(t, d, id, lookback, now);
    assert forall o :: !IsRetriggered(t.queue, d, o);
  }

  lemma IdleCase(t: Tables, d: EnqueueData, lookback: int, now: int)
    requires QueueOk(t) && CommentOf(t.queue, d.commentId, d.key) && NoneActive(t.queue, d)
    ensures Decided(t, d, Enqueue(t, d, lookback, now), lookback, now)
  {
    assert forall o :: !IsRetriggered(t.queue, d, o);
    assert forall x, y :: CarriesIt(t.queue, d, x) && CarriesIt(t.queue, d, y) ==> x == y;
    if x :| CarriesIt(t.queue, d, x) {
      EditReturnsTheRow(t, d, x, lookback, now);
    } else {
      forall x | x in t.queue ensures t.queue[x].commentId != d.commentId { assert !CarriesIt(t.queue, d, x); }
      NewCommentGetsARow(t, d, lookback, now);
    }
  }

  /** Exactly when the cascade reports `created`, and exactly when it fails. */
  lemma CreatedExactlyWhen(t: Tables, d: EnqueueData, lookback: int, now: int)
    requires QueueOk(t) && CommentOf(t.queue, d.commentId, d.key)
    ensures
      var o := Enqueue(t, d, lookback, now);
      && (o.Threw? <==> IsRefused(t, d, now))
      && (o.Done? && o.created <==>
            (ReopensTrigger(t, d, lookback, now) || ReplacesTrigger(t, d) || EntersFreely(t, d, now)))
  {
    if id :| IsRetriggered(t.queue, d, id) {
      TriggeredCase(t, d, id, lookback, now);
    } else if id :| IsPending(t.queue, d, id) {
      PendingCase(t, d, id, lookback, now);
    } else {
      forall id | id in t.queue && t.queue[id].key == d.key ensures t.queue[id].status == Resolved {
        assert !IsRetriggered(t.queue, d, id) && !IsPending(t.queue, d, id);
      }
      IdleCase(t, d, lookback, now);
    }
  }

  // ---------------------------------------------------------------- the row that enters

  /** A row is newly pending exactly when `created` says so: it is then the row `id`, carries the delivery, and has the
      attempts it had, or none. Its entry is recorded unless it was a trigger. */
  predicate OnlyItsRowEnters(t: Tables, d: EnqueueData, o: EnqueueOutcome)
    requires o.Done?
  {
    && (o.created ==> NewlyPending(t, o.tables, o.id))
    && EntryRecorded(t, d, o)
    && forall id :: id in o.tables.queue && NewlyPending(t, o.tables, id) ==>
         && o.created && id == o.id
         && WaitsFor(o.tables.queue[id], d)
         && o.tables.queue[id].attempts == if id in t.queue then t.queue[id].attempts else 0
  }

  predicate EntryRecorded(t: Tables, d: EnqueueData, o: EnqueueOutcome)
    requires o.Done?
  {
    if o.created && !(o.id in t.queue && t.queue[o.id].status == Retriggered)
    then o.tables.events == t.events + [EnqueuedEvent(d.key)] else o.tables.events == t.events
  }

  predicate WaitsFor(r: QueueRow, d: EnqueueData) {
    && r.status == Pending && r.key == d.key && r.commentId == d.commentId && r.title == d.title
    && r.commentRunId == d.runId && r.cooldownUntil == d.cooldownUntil && r.skipCount == 0
  }

  predicate NewlyPending(t: Tables, t': Tables, id: nat) {
    && id in t'.queue && t'.queue[id].status == Pending
    && !(id in t.queue && t.queue[id].status == Pending)
  }

  lemma OneRowEnters(t: Tables, d: EnqueueData, o: EnqueueOutcome, r: QueueRow)
    requires o.Done? && o.created && o.tables.queue == t.queue[o.id := r]
    requires WaitsFor(r, d) && r.attempts == if o.id in t.queue then t.queue[o.id].attempts else 0
    requires o.id in t.queue ==> t.queue[o.id].status != Pending
    requires EntryRecorded(t, d, o)
    ensures OnlyItsRowEnters(t, d, o)
  {
  }

  lemma OneRowEntersForAnother(t: Tables, d: EnqueueData, o: EnqueueOutcome, r: QueueRow, id: nat, closed: QueueRow)
    requires o.Done? && o.created && id != o.id && o.tables.queue == t.queue[o.id := r][id := closed]
    requires WaitsFor(r, d) && r.attempts == if o.id in t.queue then t.queue[o.id].attempts else 0
    requires o.id in t.queue ==> t.queue[o.id].status != Pending
    requires closed.status == Resolved && EntryRecorded(t, d, o)
    ensures OnlyItsRowEnters(t, d, o)
  {
  }

  lemma NoRowEnters(t: Tables, d: EnqueueData, o: EnqueueOutcome)
    requires o.Done? && !o.created && o.tables == t
    ensures OnlyItsRowEnters(t, d, o)
  {
  }

  lemma StaleRowEnters(t: Tables, d: EnqueueData, id: nat, lookback: int, now: int)
    requires QueueOk(t) && IsRetriggered(t.queue, d, id) && CarriesIt(t.queue, d, id)
    ensures Enqueue(t, d, lookback, now).Done? && OnlyItsRowEnters(t, d, Enqueue(t, d, lookback, now))
  {
    hide Enqueue, QueueOk;
    SameCommentSettles(t, d, id, lookback, now);
  }

  lemma EditedRowEnters(t: Tables, d: EnqueueData, id: nat, x: nat, lookback: int, now: int)
    requires QueueOk(t) && CommentOf(t.queue, d.commentId, d.key) && IsRetriggered(t.queue, d, id)
    requires !CarriesIt(t.queue, d, id) && CarriesIt(t.queue, d, x) && MayReturn(t.queue[x])
    ensures Enqueue(t, d, lookback, now).Done? && OnlyItsRowEnters(t, d, Enqueue(t, d, lookback, now))
  {
    assert t.queue[x].key == d.key;
    hide Enqueue, QueueOk, CommentOf, OnlyItsRowEnters;
    EditTakesTheTriggersPlace(t, d, id, x, lookback, now);
    var o := Enqueue(t, d, lookback, now);
    if o.created {
      OneRowEntersForAnother(t, d, o, Afresh(t.queue[x], d), id, o.tables.queue[id]);
    } else {
      NoRowEnters(t, d, o);
    }
  }

  lemma TakenOverRowDoesNotEnter(t: Tables, d: EnqueueData, id: nat, lookback: int, now: int)
    requires QueueOk(t) && CommentOf(t.queue, d.commentId, d.key) && IsRetriggered(t.queue, d, id)
    requires !CarriesIt(t.queue, d, id) && forall x :: CarriesIt(t.queue, d, x) ==> !MayReturn(t.queue[x])
    requires Enqueue(t, d, lookback, now).Done?
    ensures OnlyItsRowEnters(t, d, Enqueue(t, d, lookback, now))
  {
    hide Enqueue, QueueOk, CommentOf;
    NewCommentIsTakenOver(t, d, id, lookback, now);
  }

  lemma TriggeredRowEnters(t: Tables, d: EnqueueData, id: nat, lookback: int, now: int)
    requires QueueOk(t) && CommentOf(t.queue, d.commentId, d.key) && IsRetriggered(t.queue, d, id)
    requires Enqueue(t, d, lookback, now).Done?
    ensures OnlyItsRowEnters(t, d, Enqueue(t, d, lookback, now))
  {
    hide Enqueue, QueueOk, CommentOf, IsRetriggered, OnlyItsRowEnters;
    if CarriesIt(t.queue, d, id) {
      StaleRowEnters(t, d, id, lookback, now);
    } else if x :| CarriesIt(t.queue, d, x) && MayReturn(t.queue[x]) {
      EditedRowEnters(t, d, id, x, lookback, now);
    } else {
      TakenOverRowDoesNotEnter(t, d, id, lookback, now);
    }
  }

  lemma ReturningRowEnters(t: Tables, d: EnqueueData, x: nat, lookback: int, now: int)
    requires QueueOk(t) && CommentOf(t.queue, d.commentId, d.key) && NoneActive(t.queue, d) && CarriesIt(t.queue, d, x)
    requires Enqueue(t, d, lookback, now).Done?
    ensures OnlyItsRowEnters(t, d, Enqueue(t, d, lookback, now))
  {
    assert t.queue[x].key == d.key && t.queue[x].status == Resolved;
    hide Enqueue, QueueOk, CommentOf, NoneActive, OnlyItsRowEnters;
    EditReturnsTheRow(t, d, x, lookback, now);
    var o := Enqueue(t, d, lookback, now);
    if o.created { OneRowEnters(t, d, o, Afresh(t.queue[x], d)); } else { NoRowEnters(t, d, o); }
  }

  lemma NewRowEnters(t: Tables, d: EnqueueData, lookback: int, now: int)
    requires QueueOk(t) && NoneActive(t.queue, d) && NoneCarriesIt(t.queue, d)
    ensures Enqueue(t, d, lookback, now).Done? && OnlyItsRowEnters(t, d, Enqueue(t, d, lookback, now))
  {
    assert t.nextQueueId !in t.queue;
    hide Enqueue, QueueOk, NoneActive, NoneCarriesIt, OnlyItsRowEnters;
    NewCommentGetsARow(t, d, lookback, now);
    var o := Enqueue(t, d, lookback, now);
    OneRowEnters(t, d, o, o.tables.queue[o.id]);
  }

  lemma IdleRowEnters(t: Tables, d: EnqueueData, lookback: int, now: int)
    requires QueueOk(t) && CommentOf(t.queue, d.commentId, d.key) && NoneActive(t.queue, d)
    requires Enqueue(t, d, lookback, now).Done?
    ensures OnlyItsRowEnters(t, d, Enqueue(t, d, lookback, now))
  {
    hide Enqueue, QueueOk, CommentOf, NoneActive, OnlyItsRowEnters;
    if x :| CarriesIt(t.queue, d, x) {
      ReturningRowEnters(t, d, x, lookback, now);
    } else {
      forall x | x in t.queue ensures t.queue[x].commentId != d.commentId { assert !CarriesIt(t.queue, d, x); }
      NewRowEnters(t, d, lookback, now);
    }
  }

  /** The row that an enqueue brings to the queue is its own, and waits for the delivered revision and cooldown. */
  lemma EnteringRowIsItsOwn(t: Tables, d: EnqueueData, lookback: int, now: int)
    requires QueueOk(t) && CommentOf(t.queue, d.commentId, d.key) && Enqueue(t, d, lookback, now).Done?
    ensures OnlyItsRowEnters(t, d, Enqueue(t, d, lookback, now))
  {
    if id :| IsRetriggered(t.queue, d, id) {
      TriggeredRowEnters(t, d, id, lookback, now);
    } else if id :| IsPending(t.queue, d, id) {
      PendingAbsorbs(t, d, id, lookback, now);
    } else {
      forall id | id in t.queue && t.queue[id].key == d.key ensures t.queue[id].status == Resolved {
        assert !IsRetriggered(t.queue, d, id) && !IsPending(t.queue, d, id);
      }
      IdleRowEnters(t, d, lookback, now);
    }
  }
}
