/** Edit detection: what an edit of the source comment of a retriggered item means for the item. */
module EditDetector {
  import opened Domain
  import opened CommentLog
  import opened DetectionSpec
  import opened TriggerSpec
  import opened Database
  import CommentRepository
  import CommentUrl

  /** GitHub's answer to the fetch of the source comment. */
  datatype CommentFetch =
    | CommentFetched(updatedAt: int, kind: CommentType, preview: Option<string>, runId: Option<string>)
    | NotFetched

  /** The stored row of the item's source comment. */
  function StoredFor(log: map<int, CommentRow>, item: QueueRow): Option<CommentRow> {
    if item.pullRequestId.Some? && item.commentId in log
       && log[item.commentId].pullRequestId == item.pullRequestId.value
    then Some(log[item.commentId]) else None
  }

  /** The revision that was fetched, as a delivery: url, creation and pull request stay those of the stored row. */
  function EditDelivery(item: QueueRow, stored: CommentRow, f: CommentFetch): Delivery
    requires f.CommentFetched?
  {
    Delivery(item.commentId, stored.pullRequestId, stored.ghCreatedAt,
             CommentContent(stored.content.url, f.kind, f.preview, f.runId, f.updatedAt))
  }

  /** An edit that was not seen before, of a comment that is stored. */
  predicate FreshEdit(log: map<int, CommentRow>, item: QueueRow, f: CommentFetch) {
    var stored := StoredFor(log, item);
    && stored.Some? && CommentUrl.SplitRepo(item.key.repo).Some?
    && f.CommentFetched? && f.updatedAt > stored.value.lastSeenAt
  }

  /** What a fresh edit means: a verdict resolves, a skip under a new run is adopted and under the same run or none
      is terminal, and anything else is left to the reviews. */
  function MeaningOf(stored: CommentRow, f: CommentFetch): EditOutcome
    requires f.CommentFetched?
  {
    match f.kind
    case ReviewApproved => EditResolved(stored.content.url, ReviewApproved)
    case ReviewChangesSuggested => EditResolved(stored.content.url, ReviewChangesSuggested)
    case ReviewSkipped =>
      if f.runId.Some? && f.runId != stored.content.runId then EditAdopted(f.runId.value) else EditSkipped
    case ReviewLimited => EditFallback(Some(ReviewLimited))
    case Unknown => EditFallback(Some(Unknown))
  }

  /** What looking at the source comment says of the item. */
  function EditOf(log: map<int, CommentRow>, item: QueueRow, f: CommentFetch): EditOutcome {
    var stored := StoredFor(log, item);
    if stored.None? then EditFallback(None)
    else if CommentUrl.SplitRepo(item.key.repo).None? || f.NotFetched? then EditFailed
    else if FreshEdit(log, item, f) then MeaningOf(stored.value, f)
    else EditFallback(Some(stored.value.content.kind))
  }

  function EditStored(log: map<int, CommentRow>, item: QueueRow, f: CommentFetch, now: int): map<int, CommentRow> {
    if FreshEdit(log, item, f) then Upserted(log, EditDelivery(item, StoredFor(log, item).value, f), now) else log
  }

  /** An item is resolved, skipped or adopted by looking at its comment exactly for a fresh edit to a verdict or a skip;
      it is adopted exactly when the skip carries a run other than the stored one. */
  lemma OnlyFreshEditsDecide(log: map<int, CommentRow>, item: QueueRow, f: CommentFetch)
    ensures
      var o := EditOf(log, item, f);
      && (o.EditResolved? <==> FreshEdit(log, item, f) && IsVerdict(f.kind))
      && (o.EditResolved? ==> o == EditResolved(StoredFor(log, item).value.content.url, f.kind))
      && (o.EditAdopted? <==>
            (&& FreshEdit(log, item, f) && f.kind == ReviewSkipped
             && f.runId.Some? && f.runId != StoredFor(log, item).value.content.runId))
      && (o.EditAdopted? ==> o == EditAdopted(f.runId.value))
      && (o.EditSkipped? <==>
            (&& FreshEdit(log, item, f) && f.kind == ReviewSkipped
             && (f.runId.None? || f.runId == StoredFor(log, item).value.content.runId)))
  {
    if f.CommentFetched? {
      match f.kind {
        case ReviewApproved =>
        case ReviewChangesSuggested =>
        case ReviewSkipped =>
        case ReviewLimited =>
        case Unknown =>
      }
    }
  }

  /** A look fails exactly when the comment is stored but its pull request cannot be named or the comment cannot be
      fetched; otherwise, without a decisive edit, the reviews decide, for the kind the comment has by then. */
  lemma OtherLooksLeaveItToReviews(log: map<int, CommentRow>, item: QueueRow, f: CommentFetch)
    ensures
      var o, id := EditOf(log, item, f), item.commentId;
      var stored := item.pullRequestId.Some? && id in log && log[id].pullRequestId == item.pullRequestId.value;
      var fetched := CommentUrl.SplitRepo(item.key.repo).Some? && f.CommentFetched?;
      && (FreshEdit(log, item, f) <==> stored && fetched && f.updatedAt > log[id].lastSeenAt)
      && (o.EditFailed? <==> stored && !fetched)
      && (!stored ==> o == EditFallback(None))
      && (stored && fetched && f.updatedAt <= log[id].lastSeenAt ==> o == EditFallback(Some(log[id].content.kind)))
      && (stored && fetched && f.updatedAt > log[id].lastSeenAt && (f.kind == ReviewLimited || f.kind == Unknown) ==>
            o == EditFallback(Some(f.kind)))
  {
    if f.CommentFetched? {
      match f.kind {
        case ReviewApproved =>
        case ReviewChangesSuggested =>
        case ReviewSkipped =>
        case ReviewLimited =>
        case Unknown =>
      }
    }
  }

  /** A fresh edit replaces the content, but for the url, unless a newer revision is stored; nothing else is stored. */
  lemma EditReplacesContent(log: map<int, CommentRow>, item: QueueRow, f: CommentFetch, now: int)
    ensures
      var log', id := EditStored(log, item, f, now), item.commentId;
      if FreshEdit(log, item, f) && log[id].content.ghUpdatedAt <= f.updatedAt then
        log' == log[id := log[id].(
          content := CommentContent(log[id].content.url, f.kind, f.preview, f.runId, f.updatedAt), lastSeenAt := now)]
      else log' == log
  {
    if FreshEdit(log, item, f) { assert log == log[item.commentId := log[item.commentId]]; }
  }

  /** Once an edit was stored by a clock that is not behind it, it is never fresh again while what was seen stays
      seen. */
  lemma EditIsDecisiveOnce(log: map<int, CommentRow>, log': map<int, CommentRow>, item: QueueRow, f: CommentFetch,
                           before: int, now: int)
    requires FreshEdit(log, item, f) && LogInv(log, before) && before <= now && f.updatedAt <= now
    requires forall p, c, u ::
      Seen(Upserted(log, EditDelivery(item, StoredFor(log, item).value, f), now), p, c, u) ==> Seen(log', p, c, u)
    ensures !FreshEdit(log', item, f)
  {
    var d := EditDelivery(item, StoredFor(log, item).value, f);
    UpsertMarksSeen(log, d, before, now);
    assert Seen(log', d.pullRequestId, d.commentId, f.updatedAt);
  }

  class EditDetector {
    const db: Database
    const comments: CommentRepository.CommentRepository

    constructor (db: Database)
      ensures this.db == db && comments.db == db
    {
      this.db := db;
      this.comments := new CommentRepository.CommentRepository(db);
    }

    /** A fresh edit, and only a fresh edit, is stored. */
    method DetectEdit(item: QueueRow, f: CommentFetch, now: int) returns (o: EditOutcome)
      requires comments.db == db
      modifies db`comments
      ensures o == EditOf(old(db.comments), item, f)
      ensures db.comments == EditStored(old(db.comments), item, f, now)
    {
      if item.pullRequestId.None? { return EditFallback(None); }
      var matching := comments.FindByCommentId(item.pullRequestId.value, item.commentId);
      if matching.None? { return EditFallback(None); }
      if CommentUrl.SplitRepo(item.key.repo).None? || f.NotFetched? { return EditFailed; }
      if f.updatedAt <= matching.value.lastSeenAt { return EditFallback(Some(matching.value.content.kind)); }
      comments.Upsert(EditDelivery(item, matching.value, f), now, None);
      if IsVerdict(f.kind) { return EditResolved(matching.value.content.url, f.kind); }
      if f.kind == ReviewSkipped {
        if f.runId.Some? && f.runId != matching.value.content.runId { return EditAdopted(f.runId.value); }
        return EditSkipped;
      }
      return EditFallback(Some(f.kind));
    }
  }
}
