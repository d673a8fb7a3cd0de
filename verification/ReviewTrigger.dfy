/** Triggering a review: decide, post, and record the post in one transaction. */
module ReviewTrigger {
  import opened Domain
  import opened Transitions
  import opened QueueInvariant
  import opened TriggerSpec
  import opened Database
  import QueueRepository
  import PullRequestRepository
  import CommentUrl

  /** `Refused` carries the decision not to post; `Raised` is an exception with a terminal HTTP status or not. */
  datatype TriggerResult = Posted(url: string) | NotPending | Refused(plan: Plan) | Raised(terminal: bool)

  class ReviewTrigger {
    const db: Database
    const cfg: Config
    const queue: QueueRepository.QueueRepository
    const pullRequests: PullRequestRepository.PullRequestRepository

    constructor (db: Database, cfg: Config)
      ensures this.db == db && this.cfg == cfg && this.queue.db == db && this.pullRequests.db == db
    {
      this.db, this.cfg := db, cfg;
      this.queue := new QueueRepository.QueueRepository(db, cfg);
      this.pullRequests := new PullRequestRepository.PullRequestRepository(db);
    }

    predicate Valid() {
      queue.db == db && pullRequests.db == db
    }

    /** What the trigger promises for the plan it must follow. */
    ghost predicate Follows(before: Tables, id: nat, gh: Answers, source: TriggerSource, now: int, recordedAt: int,
                            r: TriggerResult)
      requires Triggerable(before, id)
      reads db
    {
      var p := Decide(before.queue[id], gh, cfg);
      match p
      case PostRetrigger(_, runId) => (
        match gh.post
        case PostOk(url) =>
          r == Posted(url) && db.Snapshot() == RecordPost(before, id, url, gh, runId, source, cfg, now, recordedAt)
        case PostFailed(terminal) => r == Raised(terminal) && db.Snapshot() == before)
      case Fail(terminal) => r == Raised(terminal) && db.Snapshot() == before
      case _ => r == Refused(p) && db.Snapshot() == before
    }

    method Trigger(id: nat, gh: Answers, source: TriggerSource, now: int, recordedAt: int) returns (r: TriggerResult)
      requires Valid() && QueueOk(db.Snapshot()) && id in db.queue
      requires db.queue[id].status == Pending ==> Triggerable(db.Snapshot(), id)
      modifies db
      ensures old(db.queue)[id].status != Pending ==> r == NotPending && db.Snapshot() == old(db.Snapshot())
      ensures old(db.queue)[id].status == Pending ==> Follows(old(db.Snapshot()), id, gh, source, now, recordedAt, r)
    {
      hide QueueOk, RecordPost;
      var row := db.queue[id];
      if row.status != Pending { return NotPending; }
      if CommentUrl.SplitRepo(row.key.repo).None? { return Raised(false); }
      var stored := EMPTY_BODY;
      match gh.source {
        case Fetched(body) => stored := body;
        case Gone =>
        case FetchFailed => return Raised(false);
      }
      if !stored.isEmpty && stored.rateLimitMarker && !stored.ownMarker {
        r := PostAndRecord(id, gh, Some(row.commentUrl), stored.runId, source, now, recordedAt);
        return;
      }
      if !stored.isEmpty && stored.kind == ReviewSkipped && !stored.ownMarker {
        r := PostAndRecord(id, gh, Some(row.commentUrl), stored.runId, source, now, recordedAt);
        return;
      }
      match gh.latest {
        case LatestFailed(terminal) => return Raised(terminal);
        case NoLatest =>
          if stored.isEmpty {
            r := PostAndRecord(id, gh, None, stored.runId, source, now, recordedAt);
            return;
          }
          return Refused(SkipStale);
        case Latest(commentId, url, updatedAt) =>
          match gh.replacement {
            case Gone => return Refused(ReplacementGone);
            case FetchFailed => return Raised(false);
            case Fetched(body) =>
              var wait := (if body.wait.Some? then body.wait.value else cfg.fallbackWait) + cfg.limitBuffer;
              var original := if row.originalCommentUrl.Some? then row.originalCommentUrl.value else row.commentUrl;
              return Refused(Reschedule(commentId, url, body.runId, original, updatedAt + wait));
          }
      }
    }

    /** Posts, and records the post: row, counter, event and account cooldown together. */
    method PostAndRecord(id: nat, gh: Answers, replyTo: Option<string>, runId: Option<string>, source: TriggerSource,
                         now: int, recordedAt: int) returns (r: TriggerResult)
      requires Valid() && QueueOk(db.Snapshot()) && Triggerable(db.Snapshot(), id)
      modifies db
      ensures match gh.post
        case PostOk(url) =>
          && r == Posted(url)
          && db.Snapshot() == RecordPost(old(db.Snapshot()), id, url, gh, runId, source, cfg, now, recordedAt)
        case PostFailed(terminal) => r == Raised(terminal) && db.Snapshot() == old(db.Snapshot())
    {
      match gh.post {
        case PostFailed(terminal) => return Raised(terminal);
        case PostOk(url) =>
          var row, until := db.queue[id], recordedAt + cfg.accountCooldown;
          queue.MarkRetriggered(id, until, url, gh.ownRunId, runId, recordedAt);
          var found := pullRequests.IncrementRetriggerCount(row.pullRequestId.value, recordedAt);
          db.Record(RetriggeredEvent(row.key));
          db.posts := db.posts + [Post(source, now, recordedAt)];
          var existing := db.nextReviewAt;
          db.nextReviewAt := if existing.Some? && existing.value > until then existing else Some(until);
          return Posted(url);
      }
    }
  }
}
