/** The direct scan of pull request comments: the nested loops over the listing. */
module DirectCommentChecker {
  import opened Domain
  import opened Transitions
  import opened QueueInvariant
  import opened CommentLog
  import opened DetectionSpec
  import opened Runs
  import opened DirectScanSpec
  import opened ScanOutcomes
  import opened Database
  import CommentUrl
  import PullRequestRepository
  import CommentRepository
  import EnqueueService

  class DirectCommentChecker {
    const db: Database
    const cfg: Config
    const pullRequests: PullRequestRepository.PullRequestRepository
    const comments: CommentRepository.CommentRepository
    const onDetected: EnqueueService.EnqueueService

    constructor (db: Database, cfg: Config)
      ensures this.db == db && this.cfg == cfg && Valid()
    {
      this.db, this.cfg := db, cfg;
      this.pullRequests := new PullRequestRepository.PullRequestRepository(db);
      this.comments := new CommentRepository.CommentRepository(db);
      this.onDetected := new EnqueueService.EnqueueService(db, cfg);
    }

    predicate Valid() {
      && pullRequests.db == db && comments.db == db
      && onDetected.db == db && onDetected.cfg == cfg && onDetected.Valid()
    }

    /** The end of a turn: what is new about the run id is recorded, and the handler takes over. */
    method HandOver(pr: CheckedPr, c: ListedComment, row: Option<CommentRow>, now: int)
      returns (result: CommentResult, ghost review: Option<int>)
      requires Valid() && QueueOk(db.Snapshot()) && AtHome(db.Snapshot(), pr, c)
      requires Treat(db.Snapshot(), pr.id, c) == HandedOver
      requires row.Some? <==>
        c.delivery.commentId in db.comments && db.comments[c.delivery.commentId].pullRequestId == pr.id
      requires row.Some? ==> row.value == db.comments[c.delivery.commentId]
      modifies db
      ensures IsCompletedReview(old(db.comments), pr.id, review)
      ensures (db.Snapshot(), result) == Checked(old(db.Snapshot()), pr, c, review, cfg, now)
    {
      if row.Some? {
        var storedRun, freshRun := row.value.content.runId, c.delivery.content.runId;
        if storedRun.Some? && freshRun.None? {
          db.Record(RunIdEvent(pr.key));
        } else if freshRun.Some? && freshRun != storedRun {
          db.Record(RunIdEvent(pr.key));
        }
      }
      var candidate := None;
      if c.delivery.content.kind == ReviewLimited {
        candidate := Some(ReviewLimitCandidate(c.delivery.content.ghUpdatedAt, c.wait));
      }
      var thrown;
      thrown, review := onDetected.Handle(DetectedOf(pr, c), now);
      result := CommentResult(thrown, !thrown, candidate);
    }

    /** One turn of the inner loop. */
    method CheckComment(pr: CheckedPr, c: ListedComment, now: int)
      returns (result: CommentResult, ghost review: Option<int>)
      requires Valid() && QueueOk(db.Snapshot()) && AtHome(db.Snapshot(), pr, c)
      modifies db
      ensures Treat(old(db.Snapshot()), pr.id, c) == HandedOver ==> IsCompletedReview(old(db.comments), pr.id, review)
      ensures (db.Snapshot(), result) == Checked(old(db.Snapshot()), pr, c, review, cfg, now)
    {
      review := None;
      var nothing := CommentResult(false, false, None);
      if !c.byReviewBot { return nothing, review; }
      if c.delivery.content.kind == Unknown {
        if c.walkthroughMarker && !QueuedBefore(db.queue, pr.id) {
          var stored := comments.FindByCommentId(pr.id, c.delivery.commentId);
          if stored.Some? && c.delivery.content.ghUpdatedAt <= stored.value.lastSeenAt { return nothing, review; }
          comments.Upsert(c.delivery, now, None);
          var found := pullRequests.RecordWalkthroughReview(pr.id, c.delivery.content.ghUpdatedAt);
        }
        return nothing, review;
      }
      if c.delivery.content.kind == ReviewLimited && c.ownMarker { return nothing, review; }
      var row := comments.FindByCommentId(pr.id, c.delivery.commentId);
      if row.Some? && c.delivery.content.ghUpdatedAt <= row.value.lastSeenAt { return nothing, review; }
      result, review := HandOver(pr, c, row, now);
    }

    /** One turn of the outer loop: the comments of one pull request, until one of them throws. `reviews` are the
        completed reviews found on the way. */
    method CheckPr(pr: CheckedPr, now: int, ghost prs: seq<CheckedPr>)
      returns (candidates: seq<ReviewLimitCandidate>, found: nat, ghost ok: bool, ghost reviews: seq<Option<int>>)
      requires Valid() && cfg.Valid() && SystemInv(db.Snapshot())
      requires pr in prs && AllApart(prs) && AllAtHome(db.Snapshot(), prs)
      modifies db
      ensures PrScanned(old(db.Snapshot()), pr, reviews, cfg, now)
      ensures PrReported(old(db.Snapshot()), db.Snapshot(), pr, reviews, candidates, found, cfg, now)
      ensures ok <==> PrSucceeded(old(db.Snapshot()), pr, reviews, cfg, now)
    {
      candidates, found, ok, reviews := [], 0, false, [];
      if CommentUrl.SplitRepo(pr.key.repo).None? || pr.listing.ListingFailed? { return; }
      var cs := pr.listing.comments;
      ghost var t := db.Snapshot();
      var j := 0;
      while j < |cs|
        invariant |reviews| == j <= |cs|
        invariant PrUnderway(t, db.Snapshot(), pr, reviews, cfg, now)
        invariant PrReported(t, db.Snapshot(), pr, reviews, candidates, found, cfg, now)
      {
        ScanPrKeeps(t, prs, pr, reviews, j, cfg, now, false);
        assert InScan(prs, pr, cs[j]);
        ghost var t1 := db.Snapshot();
        var result;
        ghost var review;
        result, review := CheckComment(pr, cs[j], now);
        CommentAdded(t, t1, pr, reviews, review, cfg, now);
        PrReportedGrows(t, t1, pr, reviews, candidates, found, review, cfg, now);
        reviews, j := reviews + [review], j + 1;
        if result.candidate.Some? { candidates := candidates + [result.candidate.value]; }
        if result.handedOver { found := found + 1; }
        if result.thrown { return; }
      }
      ok := true;
    }

    /** The scan: every pull request in turn, each until one of its comments throws. `ok`: nothing threw at all. */
    method Check(prs: seq<CheckedPr>, now: int)
      returns (candidates: seq<ReviewLimitCandidate>, found: nat, ghost ok: bool, ghost reviews: seq<seq<Option<int>>>)
      requires Valid() && cfg.Valid() && SystemInv(db.Snapshot())
      requires AllApart(Effective(prs)) && AllAtHome(db.Snapshot(), Effective(prs))
      modifies db
      ensures |reviews| == |Effective(prs)| && Scanned(old(db.Snapshot()), Effective(prs), reviews, cfg, now)
      ensures Reported(old(db.Snapshot()), db.Snapshot(), Effective(prs), reviews, candidates, found, cfg, now)
      ensures SystemInv(db.Snapshot()) && Onward(old(db.Snapshot()), db.Snapshot())
      ensures ok <==> Succeeded(old(db.Snapshot()), Effective(prs), reviews, cfg, now)
      ensures ok && AllTimely(Effective(prs), now) && LogInv(old(db.comments), now) ==>
        AllQuiet(db.Snapshot(), Effective(prs), |Effective(prs)|)
      ensures AllDistinct(Effective(prs)) ==>
        && candidates == AllLimits(old(db.Snapshot()), Effective(prs), reviews, |reviews|)
        && found == AllNews(old(db.Snapshot()), Effective(prs), reviews, |reviews|, cfg, now)
    {
      candidates, found, ok, reviews := [], 0, true, [];
      var checked := Effective(prs);
      ghost var t := db.Snapshot();
      var i := 0;
      while i < |checked|
        invariant |reviews| == i <= |checked|
        invariant ScanUpTo(t, db.Snapshot(), checked, reviews, candidates, found, ok, cfg, now)
      {
        ghost var t1 := db.Snapshot();
        ScanGoesOn(t, t1, checked, reviews, candidates, found, ok, cfg, now);
        var newCandidates, newFound;
        ghost var prOk, prReviews;
        newCandidates, newFound, prOk, prReviews := CheckPr(checked[i], now, checked);
        PrAdded(t, t1, db.Snapshot(), checked, reviews, candidates, found, ok, prReviews, newCandidates, newFound, cfg,
                now);
        ok, reviews := ok && prOk, reviews + [prReviews];
        candidates, found, i := candidates + newCandidates, found + newFound, i + 1;
      }
      ScanEnds(t, db.Snapshot(), checked, reviews, candidates, found, ok, cfg, now);
      if AllDistinct(checked) { ScanReportsTheLimits(t, checked, reviews, |reviews|, cfg, now); }
    }
  }
}
