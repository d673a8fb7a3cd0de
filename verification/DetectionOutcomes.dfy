/** What the detectors leave, read off what was delivered, loaded and looked up. */
module DetectionOutcomes {
  import opened Domain
  import opened Transitions
  import opened QueueInvariant
  import opened EnqueueSpec
  import opened CommentLog
  import opened DetectionSpec
  import opened EnqueueOutcomes

  // ---------------------------------------------------------------- a comment is detected

  /** The revision is stored under its comment, unless a newer one is. */
  predicate Stored(log: map<int, CommentRow>, log': map<int, CommentRow>, d: Delivery, now: int) {
    if d.commentId !in log then
      log' == log[d.commentId := CommentRow(d.pullRequestId, d.content, d.ghCreatedAt, now, now)]
    else if log[d.commentId].content.ghUpdatedAt > d.content.ghUpdatedAt then log' == log
    else log' == log[d.commentId := log[d.commentId].(content := d.content, lastSeenAt := now)]
  }

  /** The recorded review is at least as new as the comment. */
  predicate Outreviewed(t: Tables, c: Detected, review: Option<int>) {
    && review.Some? && review.value in t.comments
    && t.comments[review.value].content.ghUpdatedAt >= c.delivery.content.ghUpdatedAt
  }

  predicate IsVerdictOf(log: map<int, CommentRow>, pr: nat, r: int) {
    && r in log && log[r].pullRequestId == pr
    && (log[r].content.kind == ReviewApproved || log[r].content.kind == ReviewChangesSuggested)
  }

  /** The review that decides is the last created verdict of the pull request; without a verdict none does. */
  lemma LastVerdictDecides(t: Tables, c: Detected, review: Option<int>, last: int)
    requires IsCompletedReview(t.comments, c.delivery.pullRequestId, review)
    ensures
      var log, pr := t.comments, c.delivery.pullRequestId;
      && ((forall r :: r in log ==> !IsVerdictOf(log, pr, r)) ==> !Outreviewed(t, c, review))
      && (IsVerdictOf(log, pr, last)
          && (forall r :: r in log && IsVerdictOf(log, pr, r) && r != last ==>
                log[r].ghCreatedAt < log[last].ghCreatedAt) ==>
            (Outreviewed(t, c, review) <==> log[last].content.ghUpdatedAt >= c.delivery.content.ghUpdatedAt))
  {
    if review.Some? { assert IsVerdictOf(t.comments, c.delivery.pullRequestId, review.value); }
  }

  /** A comment not newer than the recorded review is stored, and nothing else happens. */
  lemma OutreviewedIsOnlyStored(t: Tables, c: Detected, review: Option<int>, cfg: Config, now: int)
    requires Outreviewed(t, c, review)
    ensures
      var o := Handle(t, c, review, cfg, now);
      && o.Handled? && Stored(t.comments, o.tables.comments, c.delivery, now)
      && o.tables == t.(comments := o.tables.comments)
  {
  }

  /** When the pull request's limit was first and last detected. */
  function LimitStamped(p: PullRequest, now: int): (p': PullRequest) {
    p.(firstReviewLimitAt := if p.firstReviewLimitAt.Some? then p.firstReviewLimitAt else Some(now),
       lastReviewLimitAt := Some(now))
  }

  /** A verdict is counted and recorded with its url, and the head known by then counts as reviewed. */
  lemma VerdictIsCounted(t: Tables, c: Detected, review: Option<int>, cfg: Config, now: int)
    requires !Outreviewed(t, c, review) && c.delivery.pullRequestId in t.prs
    requires c.delivery.content.kind == ReviewApproved || c.delivery.content.kind == ReviewChangesSuggested
    ensures
      var o, pr, content := Handle(t, c, review, cfg, now), c.delivery.pullRequestId, c.delivery.content;
      && o.Handled? && Stored(t.comments, o.tables.comments, c.delivery, now)
      && o.tables == t.(
           comments := o.tables.comments,
           prs := t.prs[pr := LimitStamped(t.prs[pr], now).(
             reviewCount := t.prs[pr].reviewCount + 1, lastReviewAt := Some(now), lastReviewUrl := Some(content.url),
             lastReviewState := Some(content.kind), reviewedHeadSha := t.prs[pr].headSha)],
           events := t.events + [ReviewedEvent(c.key, content.kind, false)])
  {
  }

  /** What is enqueued for a comment that is no verdict: a skipped review waits for nothing, any other comment for the
      wait it states, and for the configured one if it states none. */
  function Delivered(c: Detected, cfg: Config): (d: EnqueueData) {
    var content := c.delivery.content;
    var stated := if c.wait.Some? then c.wait.value else cfg.fallbackWait;
    EnqueueData(c.uuid, c.key, c.title, content.url, c.delivery.commentId, content.runId, Some(content.ghUpdatedAt),
                if content.kind == ReviewSkipped then None else Some(content.ghUpdatedAt + stated),
                Some(content.kind), c.delivery.pullRequestId)
  }

  /** Whether the delivery brings a row to the queue. */
  ghost predicate Enters(t: Tables, d: EnqueueData, lookback: int, now: int) {
    ReopensTrigger(t, d, lookback, now) || ReplacesTrigger(t, d) || EntersFreely(t, d, now)
  }

  /** Storing the comment and stamping the detection does not change what the cascade sees. */
  lemma NotingDecidesNothing(t: Tables, noted: Tables, d: EnqueueData, pr: nat, lookback: int, now: int)
    requires pr in t.prs && noted.queue == t.queue && noted.prs == t.prs[pr := LimitStamped(t.prs[pr], now)]
    ensures Enters(noted, d, lookback, now) <==> Enters(t, d, lookback, now)
    ensures IsRefused(noted, d, now) <==> IsRefused(t, d, now)
  {
    forall r ensures PushedSince(noted, d, r, lookback, now) <==> PushedSince(t, d, r, lookback, now) {}
    assert ReopensTrigger(noted, d, lookback, now) <==> ReopensTrigger(t, d, lookback, now) by {
      if id :|
        IsRetriggered(t.queue, d, id) && CarriesIt(t.queue, d, id) && PushedSince(t, d, t.queue[id], lookback, now)
      {
        assert PushedSince(noted, d, noted.queue[id], lookback, now);
      }
    }
    assert ReplacesTrigger(noted, d) <==> ReplacesTrigger(t, d);
    assert EntersFreely(noted, d, now) <==> EntersFreely(t, d, now);
  }

  /** What handling a comment that is no verdict writes besides the queue: the stamps, the comment and its events. */
  predicate NotedBesides(t: Tables, t': Tables, c: Detected, now: int)
    requires c.delivery.pullRequestId in t.prs
  {
    var pr := c.delivery.pullRequestId;
    && Stored(t.comments, t'.comments, c.delivery, now)
    && t'.prs == t.prs[pr := LimitStamped(t.prs[pr], now)]
    && t'.posts == t.posts && t'.nextReviewAt == t.nextReviewAt && t'.paused == t.paused
  }

  /** The events of a handled comment: that it entered the queue, and that it was a skip. */
  predicate Recorded(es: seq<Event>, es': seq<Event>, c: Detected, entered: bool) {
    es' == es + (if entered then [DetectedEvent(c.key)] else [])
              + (if c.delivery.content.kind == ReviewSkipped then [SkippedEvent(c.key)] else [])
  }

  /** The handler notes the comment, and then enqueues what it delivers. */
  lemma HandlingEnqueues(t: Tables, c: Detected, review: Option<int>, cfg: Config, now: int)
    requires c.delivery.pullRequestId in t.prs && !Outreviewed(t, c, review) && !IsVerdict(c.delivery.content.kind)
    ensures
      var noted := Noted(t, c.delivery, now);
      var o, enqueued := Handle(t, c, review, cfg, now), Enqueue(noted, Delivered(c, cfg), cfg.detectionLookback, now);
      && noted.queue == t.queue && noted.events == t.events && noted.nextQueueId == t.nextQueueId
      && NotedBesides(t, noted, c, now)
      && (o.Handled? <==> enqueued.Done?)
      && (o.Handled? ==>
            && o.tables == enqueued.tables.(events := o.tables.events)
            && Recorded(enqueued.tables.events, o.tables.events, c, enqueued.created))
  {
    assert Delivered(c, cfg) == EnqueueDataOf(c, cfg.fallbackWait);
    hide Enqueue, EnqueueDataOf, Delivered;
  }

  /** What handling such a comment leaves: its stamps, and a newly pending row exactly if the delivery enters. */
  ghost predicate HandledAs(t: Tables, t': Tables, c: Detected, entered: bool, now: int)
    requires c.delivery.pullRequestId in t.prs
  {
    && NotedBesides(t, t', c, now)
    && ((exists id :: NewlyPending(t, t', id)) <==> entered)
    && (Recorded(t.events, t'.events, c, entered)
        || (entered && Recorded(t.events + [EnqueuedEvent(c.key)], t'.events, c, true)))
  }

  lemma EnteringIsHandled(t: Tables, noted: Tables, o: EnqueueOutcome, t': Tables, c: Detected, d: EnqueueData,
                          now: int)
    requires c.delivery.pullRequestId in t.prs && noted.queue == t.queue && noted.events == t.events
    requires NotedBesides(t, noted, c, now) && d.key == c.key
    requires o.Done? && EnqueueFrame(noted, o.tables, d.key) && OnlyItsRowEnters(noted, d, o)
    requires t' == o.tables.(events := t'.events) && Recorded(o.tables.events, t'.events, c, o.created)
    ensures HandledAs(t, t', c, o.created, now)
  {
    if o.created { assert NewlyPending(t, t', o.id); }
    forall id | NewlyPending(t, t', id) ensures o.created { assert NewlyPending(noted, o.tables, id); }
  }

  /** A comment that is no verdict and newer than the recorded review: its handling fails exactly when the cascade
      refuses it, and brings a row to the queue exactly when the delivery enters. */
  lemma CommentEntersExactlyWhen(t: Tables, c: Detected, review: Option<int>, cfg: Config, now: int)
    requires QueueOk(t) && CommentOf(t.queue, c.delivery.commentId, c.key) && c.delivery.pullRequestId in t.prs
    requires !Outreviewed(t, c, review) && !IsVerdict(c.delivery.content.kind)
    ensures
      var o, d := Handle(t, c, review, cfg, now), Delivered(c, cfg);
      && (o.HandleThrew? <==> IsRefused(t, d, now))
      && (o.Handled? ==> HandledAs(t, o.tables, c, Enters(t, d, cfg.detectionLookback, now), now))
  {
    var noted, d, lookback := Noted(t, c.delivery, now), Delivered(c, cfg), cfg.detectionLookback;
    HandlingEnqueues(t, c, review, cfg, now);
    hide Handle, Enqueue, Noted, HandledAs, OnlyItsRowEnters, EnqueueFrame, RowsAdvance;
    NotingDecidesNothing(t, noted, d, c.delivery.pullRequestId, lookback, now);
    CreatedExactlyWhen(noted, d, lookback, now);
    var o := Enqueue(noted, d, lookback, now);
    EnqueueAdvances(noted, d, lookback, now);
    if o.Done? {
      EnteringRowIsItsOwn(noted, d, lookback, now);
      EnteringIsHandled(t, noted, o, Handle(t, c, review, cfg, now).tables, c, d, now);
    }
  }

  /** A dismissed comment and a verdict bring no row to the queue. */
  lemma OnlyEnqueuedRowsEnter(t: Tables, c: Detected, review: Option<int>, cfg: Config, now: int, id: nat)
    requires c.delivery.pullRequestId in t.prs && Handle(t, c, review, cfg, now).Handled?
    requires NewlyPending(t, Handle(t, c, review, cfg, now).tables, id)
    ensures !Outreviewed(t, c, review) && !IsVerdict(c.delivery.content.kind)
  {
  }

  lemma DeliveredIs(c: Detected, cfg: Config)
    ensures Delivered(c, cfg).key == c.key && Delivered(c, cfg).commentId == c.delivery.commentId
  {
  }

  lemma NotedQueueOk(t: Tables, noted: Tables, d: EnqueueData)
    requires QueueOk(t) && CommentOf(t.queue, d.commentId, d.key)
    requires noted.queue == t.queue && noted.nextQueueId == t.nextQueueId
    ensures QueueOk(noted) && CommentOf(noted.queue, d.commentId, d.key)
  {
  }

  lemma EnteringRowIs(t: Tables, noted: Tables, d: EnqueueData, o: EnqueueOutcome, t': Tables, id: nat)
    requires o.Done? && OnlyItsRowEnters(noted, d, o) && noted.queue == t.queue && t'.queue == o.tables.queue
    requires NewlyPending(t, t', id)
    ensures id in o.tables.queue && WaitsFor(o.tables.queue[id], d)
    ensures o.tables.queue[id].attempts == if id in t.queue then t.queue[id].attempts else 0
  {
    assert NewlyPending(noted, o.tables, id);
  }

  lemma WaitsAsStated(r: QueueRow, c: Detected, cfg: Config)
    requires WaitsFor(r, Delivered(c, cfg))
    ensures
      var content := c.delivery.content;
      && r.key == c.key && r.commentId == c.delivery.commentId && r.title == c.title && r.commentRunId == content.runId
      && (content.kind == ReviewSkipped ==> r.cooldownUntil == None)
      && (content.kind != ReviewSkipped && c.wait.Some? ==> r.cooldownUntil == Some(content.ghUpdatedAt + c.wait.value))
      && (content.kind != ReviewSkipped && c.wait.None? ==>
            r.cooldownUntil == Some(content.ghUpdatedAt + cfg.fallbackWait))
  {
  }

  /** The row a detected comment brings to the queue is of its pull request, carries it, and waits as long as the
      comment says: not at all for a skipped review, otherwise for the stated wait, and for the configured one exactly
      when none is stated. */
  lemma EnteringRowWaits(t: Tables, c: Detected, review: Option<int>, cfg: Config, now: int, id: nat)
    requires QueueOk(t) && CommentOf(t.queue, c.delivery.commentId, c.key) && c.delivery.pullRequestId in t.prs
    requires Handle(t, c, review, cfg, now).Handled? && NewlyPending(t, Handle(t, c, review, cfg, now).tables, id)
    ensures
      var r, content := Handle(t, c, review, cfg, now).tables.queue[id], c.delivery.content;
      && r.key == c.key && r.commentId == c.delivery.commentId && r.title == c.title && r.commentRunId == content.runId
      && (content.kind == ReviewSkipped ==> r.cooldownUntil == None)
      && (content.kind != ReviewSkipped && c.wait.Some? ==> r.cooldownUntil == Some(content.ghUpdatedAt + c.wait.value))
      && (content.kind != ReviewSkipped && c.wait.None? ==>
            r.cooldownUntil == Some(content.ghUpdatedAt + cfg.fallbackWait))
      && r.attempts == (if id in t.queue then t.queue[id].attempts else 0)
  {
    hide Handle, Enqueue, Noted, QueueOk, CommentOf, NotedBesides;
    hide NewlyPending, OnlyItsRowEnters, Outreviewed, Delivered;
    OnlyEnqueuedRowsEnter(t, c, review, cfg, now, id);
    HandlingEnqueues(t, c, review, cfg, now);
    var noted, d := Noted(t, c.delivery, now), Delivered(c, cfg);
    DeliveredIs(c, cfg);
    var o := Enqueue(noted, d, cfg.detectionLookback, now);
    NotedQueueOk(t, noted, d);
    EnteringRowIsItsOwn(noted, d, cfg.detectionLookback, now);
    EnteringRowIs(t, noted, d, o, Handle(t, c, review, cfg, now).tables, id);
    WaitsAsStated(o.tables.queue[id], c, cfg);
  }

  // ---------------------------------------------------------------- the review detector settles an item

  /** What the detector makes of an item. */
  function Settled(t: Tables, id: nat, item: QueueRow, v: ItemView, lookback: int, now: int): (t': Tables) {
    Perform(t, id, item, DecideWrite(item, v, lookback, now), now)
  }

  /** The row is still retriggered, and its pull request was open when it was loaded. */
  predicate Undecided(t: Tables, id: nat, item: QueueRow, v: ItemView) {
    && id in t.queue && t.queue[id].status == Retriggered && item.retriggeredAt.Some?
    && v.prState != Some(PrState.Merged) && v.prState != Some(PrState.Closed)
  }

  predicate Registered(t: Tables, item: QueueRow) {
    item.pullRequestId.Some? && item.pullRequestId.value in t.prs
  }

  function Closed(r: QueueRow, res: Resolution, now: int): (r': QueueRow) {
    r.(status := Resolved, resolution := Some(res), resolvedAt := Some(now))
  }

  /** The row is resolved as reviewed, and the verdict counted and recorded with its url and the reviewed commit. */
  predicate ReviewIn(t: Tables, t': Tables, id: nat, item: QueueRow, url: string, verdict: CommentType,
                     commit: Option<string>, now: int)
    requires id in t.queue && Registered(t, item)
  {
    var pr := item.pullRequestId.value;
    t' == t.(
      queue := t.queue[id := Closed(t.queue[id], ReviewCompleted, now)],
      prs := t.prs[pr := t.prs[pr].(
        reviewCount := t.prs[pr].reviewCount + 1, lastReviewAt := Some(now), lastReviewUrl := Some(url),
        lastReviewState := Some(verdict), reviewedHeadSha := commit)],
      events := t.events + [ReviewedEvent(item.key, verdict, false)])
  }

  /** A found review is recorded as what it is: an approval or a request for changes, of its commit or else of the head
      known by then. */
  lemma FoundReviewIsRecorded(t: Tables, id: nat, item: QueueRow, v: ItemView, lookback: int, now: int)
    requires Undecided(t, id, item, v) && Registered(t, item) && v.edit.EditFallback? && v.lookup.ReviewFound?
    ensures
      var t', review := Settled(t, id, item, v, lookback, now), v.lookup.review;
      var commit := if review.commit.Some? then review.commit else t.prs[item.pullRequestId.value].headSha;
      && (review.approval ==> ReviewIn(t, t', id, item, review.url, ReviewApproved, commit, now))
      && (!review.approval ==> ReviewIn(t, t', id, item, review.url, ReviewChangesSuggested, commit, now))
  {
  }

  /** An edit to a verdict is recorded as that verdict, of the head known by then. */
  lemma EditedVerdictIsRecorded(t: Tables, id: nat, item: QueueRow, v: ItemView, lookback: int, now: int)
    requires Undecided(t, id, item, v) && Registered(t, item) && v.edit.EditResolved?
    ensures ReviewIn(t, Settled(t, id, item, v, lookback, now), id, item, v.edit.url, v.edit.verdict,
                     t.prs[item.pullRequestId.value].headSha, now)
  {
  }

  /** A merged or closed pull request resolves the row as such, and a terminal skip resolves it as skipped; nothing
      else is written. */
  lemma GoneAndSkippedAreResolved(t: Tables, id: nat, item: QueueRow, v: ItemView, lookback: int, now: int)
    requires id in t.queue && t.queue[id].status == Retriggered && item.retriggeredAt.Some?
    ensures
      var t', r := Settled(t, id, item, v, lookback, now), t.queue[id];
      && (v.prState == Some(PrState.Merged) ==> t' == t.(queue := t.queue[id := Closed(r, PrMerged, now)]))
      && (v.prState == Some(PrState.Closed) ==> t' == t.(queue := t.queue[id := Closed(r, PrClosedWithoutMerge, now)]))
      && (Undecided(t, id, item, v) && v.edit.EditSkipped? ==>
            t' == t.(queue := t.queue[id := Closed(r, Skipped, now)]))
  {
  }

  /** A new run of a stale trigger with an unreviewed head makes the row wait again, in the queue order and without a
      cooldown; any other new run is adopted with a fresh clock, unless another run was adopted in the meantime. */
  lemma NewRunReopensOrIsAdopted(t: Tables, id: nat, item: QueueRow, v: ItemView, lookback: int, now: int)
    requires Undecided(t, id, item, v) && v.edit.EditAdopted?
    ensures
      var t', r := Settled(t, id, item, v, lookback, now), t.queue[id];
      var stale := v.headSha.Some? && v.headSha != v.reviewedHeadSha && item.retriggeredAt.value + lookback < now;
      && (stale ==>
            && t' == t.(
                 queue := t.queue[id := r.(
                   status := Pending, resolution := None, resolvedAt := None, title := item.title,
                   commentRunId := Some(v.edit.run), cooldownUntil := None, lastSkippedAt := None,
                   lastSkipReason := None, skipCount := 0)],
                 orders := t'.orders, nextOrderId := t'.nextOrderId)
            && InOrder(t, t', id))
      && (!stale && r.commentRunId == item.commentRunId ==>
            t' == t.(queue := t.queue[id := r.(commentRunId := Some(v.edit.run), retriggeredAt := Some(now))]))
      && (!stale && r.commentRunId != item.commentRunId ==> t' == t)
  {
  }

  /** Without a decisive edit or a review, a recent last review stands for the review of a trigger without a run, and is
      recorded without a count; otherwise the row keeps waiting. */
  lemma RecentReviewStandsIn(t: Tables, id: nat, item: QueueRow, v: ItemView, lookback: int, now: int)
    requires Undecided(t, id, item, v) && v.edit.EditFallback? && v.lookup.NoReview?
    ensures
      var t' := Settled(t, id, item, v, lookback, now);
      var recent := v.lastReviewAt.Some? && v.lastReviewAt.value + lookback >= item.retriggeredAt.value;
      if item.commentRunId.None? && recent then
        t' == t.(queue := t.queue[id := Closed(t.queue[id], ReviewCompleted, now)],
                 events := t.events + [ReviewedEvent(item.key, ReviewApproved, true)])
      else t' == t
  {
  }

  /** Nothing is written for a row that is not retriggered any more, an item without a clock, a failed look or lookup,
      and a review of an unregistered pull request. */
  lemma OtherwiseNothingIsWritten(t: Tables, id: nat, item: QueueRow, v: ItemView, lookback: int, now: int)
    requires
      || !(id in t.queue && t.queue[id].status == Retriggered) || item.retriggeredAt.None?
      || (Undecided(t, id, item, v)
          && (|| v.edit.EditFailed? || (v.edit.EditFallback? && v.lookup.LookupFailed?)
              || (!Registered(t, item)
                  && (v.edit.EditResolved? || (v.edit.EditFallback? && v.lookup.ReviewFound?)))))
    ensures Settled(t, id, item, v, lookback, now) == t
  {
  }

  /** A review settles the item: an edit to a verdict, a review that was found, or a recent one that stands in. */
  predicate Reviewed(t: Tables, item: QueueRow, v: ItemView, lookback: int)
    requires item.retriggeredAt.Some?
  {
    || (Registered(t, item) && (v.edit.EditResolved? || (v.edit.EditFallback? && v.lookup.ReviewFound?)))
    || (v.edit.EditFallback? && v.lookup.NoReview? && item.commentRunId.None?
        && v.lastReviewAt.Some? && v.lastReviewAt.value + lookback >= item.retriggeredAt.value)
  }

  /** What the detector leaves of a retriggered row, exactly: resolved as merged or closed with its pull request, as
      skipped by a terminal skip, as reviewed by a review; pending again for a new run of a stale trigger whose head is
      not reviewed; and retriggered otherwise. */
  lemma SettlingLeavesExactly(t: Tables, id: nat, item: QueueRow, v: ItemView, lookback: int, now: int)
    requires id in t.queue && t.queue[id].status == Retriggered && t.queue[id].resolution.None?
    requires item.retriggeredAt.Some?
    ensures
      var t' := Settled(t, id, item, v, lookback, now);
      && id in t'.queue
      && var r, open := t'.queue[id], Undecided(t, id, item, v);
         && (r.resolution == Some(PrMerged) <==> v.prState == Some(PrState.Merged))
         && (r.resolution == Some(PrClosedWithoutMerge) <==> v.prState == Some(PrState.Closed))
         && (r.resolution == Some(Skipped) <==> open && v.edit.EditSkipped?)
         && (r.resolution == Some(ReviewCompleted) <==> open && Reviewed(t, item, v, lookback))
         && (r.status == Pending <==>
               open && v.edit.EditAdopted? && v.headSha.Some? && v.headSha != v.reviewedHeadSha
               && item.retriggeredAt.value + lookback < now)
         && (r.status == Resolved <==> r.resolution.Some?)
  {
    hide Settled, InOrder;
    if Undecided(t, id, item, v) {
      match v.edit {
        case EditFailed => OtherwiseNothingIsWritten(t, id, item, v, lookback, now);
        case EditResolved(_, _) =>
          if Registered(t, item) { EditedVerdictIsRecorded(t, id, item, v, lookback, now); }
          else { OtherwiseNothingIsWritten(t, id, item, v, lookback, now); }
        case EditSkipped => GoneAndSkippedAreResolved(t, id, item, v, lookback, now);
        case EditAdopted(_) => NewRunReopensOrIsAdopted(t, id, item, v, lookback, now);
        case EditFallback(_) => ReviewsSettleExactly(t, id, item, v, lookback, now);
      }
    } else {
      GoneAndSkippedAreResolved(t, id, item, v, lookback, now);
    }
  }

  lemma ReviewsSettleExactly(t: Tables, id: nat, item: QueueRow, v: ItemView, lookback: int, now: int)
    requires Undecided(t, id, item, v) && v.edit.EditFallback?
    ensures
      var t' := Settled(t, id, item, v, lookback, now);
      if Reviewed(t, item, v, lookback) then
        id in t'.queue && t'.queue[id] == Closed(t.queue[id], ReviewCompleted, now)
      else t' == t
  {
    match v.lookup {
      case ReviewFound(_) =>
        if Registered(t, item) { FoundReviewIsRecorded(t, id, item, v, lookback, now); }
      case NoReview => RecentReviewStandsIn(t, id, item, v, lookback, now);
      case LookupFailed =>
    }
  }
}
