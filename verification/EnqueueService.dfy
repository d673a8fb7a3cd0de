/** The handler of detected comments. */
module EnqueueService {
  import opened Domain
  import opened Transitions
  import opened QueueInvariant
  import opened EnqueueSpec
  import opened CommentLog
  import opened DetectionSpec
  import opened Database
  import QueueRepository
  import PullRequestRepository
  import CommentRepository

  class EnqueueService {
    const db: Database
    const cfg: Config
    const queue: QueueRepository.QueueRepository
    const pullRequests: PullRequestRepository.PullRequestRepository
    const comments: CommentRepository.CommentRepository

    constructor (db: Database, cfg: Config)
      ensures this.db == db && this.cfg == cfg && Valid()
    {
      this.db, this.cfg := db, cfg;
      this.queue := new QueueRepository.QueueRepository(db, cfg);
      this.pullRequests := new PullRequestRepository.PullRequestRepository(db);
      this.comments := new CommentRepository.CommentRepository(db);
    }

    predicate Valid() {
      queue.db == db && queue.cfg == cfg && pullRequests.db == db && comments.db == db
    }

    /** The store follows the handler's specification; an exception leaves it as it was. */
    ghost predicate Follows(o: HandleOutcome, before: Tables, thrown: bool)
      reads db
    {
      match o
      case HandleThrew => thrown && db.Snapshot() == before
      case Handled(t) => !thrown && db.Snapshot() == t
    }

    method Handle(c: Detected, now: int) returns (thrown: bool, ghost review: Option<int>)
      requires Valid() && QueueOk(db.Snapshot()) && CommentOf(db.queue, c.delivery.commentId, c.key)
      modifies db
      ensures IsCompletedReview(old(db.comments), c.delivery.pullRequestId, review)
      ensures Follows(DetectionSpec.Handle(old(db.Snapshot()), c, review, cfg, now), old(db.Snapshot()), thrown)
    {
      var existing := comments.FindCompletedReview(c.delivery.pullRequestId);
      review := existing;
      if existing.Some? && c.delivery.content.ghUpdatedAt <= db.comments[existing.value].content.ghUpdatedAt {
        comments.Upsert(c.delivery, now, None);
        return false, review;
      }
      thrown := HandleInTransaction(c, now);
    }

    /** What follows when no recorded review dismisses the comment: one transaction, undone when it throws. */
    method HandleInTransaction(c: Detected, now: int) returns (thrown: bool)
      requires Valid() && QueueOk(db.Snapshot()) && CommentOf(db.queue, c.delivery.commentId, c.key)
      modifies db
      ensures Follows(DetectionSpec.Handle(old(db.Snapshot()), c, None, cfg, now), old(db.Snapshot()), thrown)
    {
      var before := db.Snapshot();
      var found := pullRequests.RecordReviewLimitDetection(c.delivery.pullRequestId, now);
      if !found { return true; }
      comments.Upsert(c.delivery, now, None);
      assert db.Snapshot() == Noted(before, c.delivery, now);
      if IsVerdict(c.delivery.content.kind) {
        found := pullRequests.RecordReview(c.delivery.pullRequestId, c.delivery.content.url, c.delivery.content.kind,
                                           None, now);
        db.Record(ReviewedEvent(c.key, c.delivery.content.kind, false));
        return false;
      }
      thrown := EnqueueComment(c, now);
      if thrown { db.Load(before); }
    }

    method EnqueueComment(c: Detected, now: int) returns (thrown: bool)
      requires Valid() && QueueOk(db.Snapshot()) && CommentOf(db.queue, c.delivery.commentId, c.key)
      modifies db
      ensures Follows(EnqueueDetected(old(db.Snapshot()), c, cfg, now), old(db.Snapshot()), thrown)
    {
      var r := queue.Enqueue(EnqueueDataOf(c, cfg.fallbackWait), now);
      match r {
        case Rethrown => return true;
        case Enqueued(_, created) =>
          if created { db.Record(DetectedEvent(c.key)); }
          if c.delivery.content.kind == ReviewSkipped { db.Record(SkippedEvent(c.key)); }
          return false;
      }
    }
  }
}
