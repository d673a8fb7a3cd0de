/** What the detectors write: the handler of detected comments and the guarded writes of the review detector. */
module DetectionSpec {
  import opened Domain
  import opened Transitions
  import opened EnqueueSpec
  import opened CommentLog

  // ---------------------------------------------------------------- EnqueueService.handle

  /** A classified comment on its way into the handler. `wait` is the stated wait, if any, and
      `uuid` the identifier generated for the row it may create. */
  datatype Detected = Detected(uuid: string, key: PrKey, title: string, delivery: Delivery, wait: Option<int>)

  /** `review` is what `findCompletedReview` may return: a newest completed review of the pull request. */
  predicate IsCompletedReview(log: map<int, CommentRow>, pr: nat, review: Option<int>) {
    match review
    case None => forall c :: c in log && log[c].pullRequestId == pr ==> !IsVerdict(log[c].content.kind)
    case Some(r) =>
      && r in log && log[r].pullRequestId == pr && IsVerdict(log[r].content.kind)
      && forall c :: c in log && log[c].pullRequestId == pr && IsVerdict(log[c].content.kind)
           ==> log[c].ghCreatedAt <= log[r].ghCreatedAt
  }

  /** A recorded review dismisses a comment it is at least as new as. */
  predicate Dismissed(log: map<int, CommentRow>, review: Option<int>, updatedAt: int) {
    review.Some? && review.value in log && updatedAt <= log[review.value].content.ghUpdatedAt
  }

  function EnqueueDataOf(c: Detected, fallbackWait: int): EnqueueData {
    var content := c.delivery.content;
    var cooldown :=
      if content.kind == ReviewSkipped then None
      else Some(content.ghUpdatedAt + (if c.wait.Some? then c.wait.value else fallbackWait));
    EnqueueData(c.uuid, c.key, c.title, content.url, c.delivery.commentId, content.runId, Some(content.ghUpdatedAt),
                cooldown, Some(content.kind), c.delivery.pullRequestId)
  }

  /** The comment is stored and the detection stamped on the pull request. */
  function Noted(t: Tables, d: Delivery, now: int): Tables
    requires d.pullRequestId in t.prs
  {
    t.(prs := t.prs[d.pullRequestId := LimitDetected(t.prs[d.pullRequestId], now)],
       comments := Upserted(t.comments, d, now))
  }

  datatype HandleOutcome = Handled(tables: Tables) | HandleThrew

  ghost function EnqueueDetected(t: Tables, c: Detected, cfg: Config, now: int): HandleOutcome {
    match Enqueue(t, EnqueueDataOf(c, cfg.fallbackWait), cfg.detectionLookback, now)
    case Threw => HandleThrew
    case Done(t1, _, created) =>
      var t2 := if created then WithEvent(t1, DetectedEvent(c.key)) else t1;
      Handled(if c.delivery.content.kind == ReviewSkipped then WithEvent(t2, SkippedEvent(c.key)) else t2)
  }

  function VerdictRecorded(t: Tables, c: Detected, now: int): Tables
    requires c.delivery.pullRequestId in t.prs
  {
    var pr, content := c.delivery.pullRequestId, c.delivery.content;
    t.(prs := t.prs[pr := ReviewRecorded(t.prs[pr], content.url, content.kind, None, now)],
       events := t.events + [ReviewedEvent(c.key, content.kind, false)])
  }

  /** A thrown transaction leaves the tables as they were. */
  ghost function Handle(t: Tables, c: Detected, review: Option<int>, cfg: Config, now: int): HandleOutcome {
    if Dismissed(t.comments, review, c.delivery.content.ghUpdatedAt) then
      Handled(t.(comments := Upserted(t.comments, c.delivery, now)))
    else if c.delivery.pullRequestId !in t.prs then HandleThrew
    else
      var noted := Noted(t, c.delivery, now);
      if IsVerdict(c.delivery.content.kind) then Handled(VerdictRecorded(noted, c, now))
      else EnqueueDetected(noted, c, cfg, now)
  }

  // ---------------------------------------------------------------- ReviewDetector.executeTick

  datatype EditOutcome =
    | EditResolved(url: string, verdict: CommentType)
    | EditSkipped
    | EditAdopted(run: string)
    | EditFallback(sourceType: Option<CommentType>)
    | EditFailed

  datatype CompletedReview = CompletedReview(url: string, approval: bool, commit: Option<string>)

  datatype ReviewLookup = ReviewFound(review: CompletedReview) | NoReview | LookupFailed

  /** What the tick loaded and fetched about one item: the columns of its pull request at the start of the tick, the
      outcome of the edit detection, and what the reviews API answered. */
  datatype ItemView = ItemView(
    prState: Option<PrState>,
    lastReviewAt: Option<int>,
    headSha: Option<string>,
    reviewedHeadSha: Option<string>,
    edit: EditOutcome,
    lookup: ReviewLookup)

  datatype Write =
    | Leave
    | Resolve(res: Resolution)
    | RecordReview(url: string, verdict: CommentType, sha: Option<string>)
    | ReviewedViaFallback
    | ReopenAsPending(run: string)
    | AdoptRun(run: string)

  /** The decision over one loaded item. */
  function DecideWrite(item: QueueRow, v: ItemView, lookback: int, now: int): Write {
    if item.retriggeredAt.None? then Leave
    else if v.prState == Some(PrState.Merged) then Resolve(PrMerged)
    else if v.prState == Some(PrState.Closed) then Resolve(PrClosedWithoutMerge)
    else
      match v.edit
      case EditFailed => Leave
      case EditResolved(url, verdict) => RecordReview(url, verdict, None)
      case EditSkipped => Resolve(Skipped)
      case EditAdopted(run) =>
        if ShouldReopenStale(item.retriggeredAt, v.headSha, v.reviewedHeadSha, lookback, now) then ReopenAsPending(run)
        else AdoptRun(run)
      case EditFallback(_) =>
        match v.lookup
        case LookupFailed => Leave
        case ReviewFound(r) =>
          RecordReview(r.url, if r.approval then ReviewApproved else ReviewChangesSuggested, r.commit)
        case NoReview =>
          var since := item.retriggeredAt.value - lookback;
          if item.commentRunId.None? && v.lastReviewAt.Some? && v.lastReviewAt.value >= since then ReviewedViaFallback
          else Leave
  }

  /** When an item is left retriggered for the sweep: nothing decisive was seen, and in particular a known run that
      produced nothing yet is never taken for reviewed by the last-review fallback. */
  lemma KnownRunsWaitForTheirReview(item: QueueRow, v: ItemView, lookback: int, now: int)
    requires item.retriggeredAt.Some? && v.edit.EditFallback? && (v.prState.Some? ==> v.prState.value == Open)
    ensures DecideWrite(item, v, lookback, now) == Leave <==>
      || v.lookup.LookupFailed?
      || (v.lookup.NoReview?
          && (|| item.commentRunId.Some? || v.lastReviewAt.None?
              || v.lastReviewAt.value < item.retriggeredAt.value - lookback))
    ensures item.commentRunId.Some? ==> !DecideWrite(item, v, lookback, now).ReviewedViaFallback?
  {
    match v.lookup {
      case LookupFailed =>
      case ReviewFound(_) =>
      case NoReview =>
    }
  }

  /** A row is reopened by the detector exactly for a fresh run of a stale trigger whose head is not reviewed. */
  lemma ReopensExactlyTheStale(item: QueueRow, v: ItemView, lookback: int, now: int)
    ensures DecideWrite(item, v, lookback, now).ReopenAsPending? <==>
      && item.retriggeredAt.Some? && v.prState != Some(PrState.Merged) && v.prState != Some(PrState.Closed)
      && v.edit.EditAdopted? && v.headSha.Some? && v.headSha != v.reviewedHeadSha
      && item.retriggeredAt.value < now - lookback
  {
    match v.edit {
      case EditFailed =>
      case EditResolved(_, _) =>
      case EditSkipped =>
      case EditAdopted(_) =>
      case EditFallback(_) => match v.lookup { case LookupFailed => case ReviewFound(_) => case NoReview => }
    }
  }

  /** The guard of every detector write. */
  predicate StillRetriggered(t: Tables, id: nat) {
    id in t.queue && t.queue[id].status == Retriggered
  }

  /** Applies a decision taken on the loaded item to the tables as they are when the write runs. */
  function Perform(t: Tables, id: nat, item: QueueRow, w: Write, now: int): Tables {
    if !StillRetriggered(t, id) then t
    else
      var row := t.queue[id];
      match w
      case Leave => t
      case Resolve(res) => WithRow(t, id, ResolvedAs(row, res, now))
      case RecordReview(url, verdict, sha) =>
        if item.pullRequestId.None? || item.pullRequestId.value !in t.prs then t
        else
          var pr := item.pullRequestId.value;
          WithRow(t, id, ResolvedAs(row, ReviewCompleted, now)).(
            prs := t.prs[pr := ReviewRecorded(t.prs[pr], url, verdict, sha, now)],
            events := t.events + [ReviewedEvent(item.key, verdict, false)])
      case ReviewedViaFallback =>
        WithEvent(WithRow(t, id, ResolvedAs(row, ReviewCompleted, now)), ReviewedEvent(item.key, ReviewApproved, true))
      case ReopenAsPending(run) => WithOrder(WithRow(t, id, Reopened(row, item.title, Some(run), None)), id)
      case AdoptRun(run) =>
        if row.commentRunId == item.commentRunId then WithRow(t, id, RunAdopted(row, run, now)) else t
  }

  /** A detector write changes nothing unless the row is still retriggered when it runs, and then only that row; an
      adoption moreover overwrites only the run the snapshot loaded, and touches nothing but run and clock. */
  lemma DetectorWriteIsGuarded(t: Tables, id: nat, item: QueueRow, w: Write, now: int)
    ensures var t' := Perform(t, id, item, w, now);
      && t'.queue.Keys == t.queue.Keys
      && (forall o :: o in t.queue && t'.queue[o] != t.queue[o] ==> o == id && t.queue[o].status == Retriggered)
      && (!StillRetriggered(t, id) ==> t' == t)
      && (w.AdoptRun? && t' != t ==>
            (&& t.queue[id].commentRunId == item.commentRunId
             && t'.queue[id] == t.queue[id].(commentRunId := Some(w.run), retriggeredAt := Some(now))
             && t' == t.(queue := t'.queue)))
  {
  }

  /** A review is recorded, by one count and one event, exactly when the same write resolves the row; a lost race
      records nothing. */
  lemma ReviewRecordedIffResolved(t: Tables, id: nat, item: QueueRow, w: Write, now: int)
    requires w.RecordReview? && item.pullRequestId.Some? && item.pullRequestId.value in t.prs
    ensures var t' := Perform(t, id, item, w, now); var pr := item.pullRequestId.value;
      && t'.prs.Keys == t.prs.Keys
      && (StillRetriggered(t, id) ==>
            (&& t'.queue[id].status == Resolved && t'.queue[id].resolution == Some(ReviewCompleted)
             && t'.prs[pr].reviewCount == t.prs[pr].reviewCount + 1
             && t'.events == t.events + [ReviewedEvent(item.key, w.verdict, false)]))
      && (!StillRetriggered(t, id) ==> t'.prs == t.prs && t'.events == t.events && t'.queue == t.queue)
  {
  }
}
