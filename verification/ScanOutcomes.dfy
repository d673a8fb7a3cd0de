/** What the direct scan does with a comment, and what it reports, read off the listing and the stored comments. */
module ScanOutcomes {
  import opened Domain
  import opened Transitions
  import opened QueueInvariant
  import opened CommentLog
  import opened DetectionSpec
  import opened SystemInvariant
  import opened Runs
  import opened DirectScanSpec
  import opened DetectionOutcomes

  // ---------------------------------------------------------------- one comment

  /** The comment is stored for this pull request and was seen at this revision or later. */
  predicate AlreadyKnown(t: Tables, pr: nat, c: ListedComment) {
    var id := c.delivery.commentId;
    && id in t.comments && t.comments[id].pullRequestId == pr
    && t.comments[id].lastSeenAt >= c.delivery.content.ghUpdatedAt
  }

  /** A comment of the review bot that says something, is not the answer to a retrigger of our own, and is news. */
  predicate Newsworthy(t: Tables, pr: nat, c: ListedComment) {
    && c.byReviewBot && c.delivery.content.kind != Unknown
    && !(c.delivery.content.kind == ReviewLimited && c.ownMarker)
    && !AlreadyKnown(t, pr, c)
  }

  /** The walkthrough of a pull request that was never queued, and is news. */
  predicate FirstWalkthrough(t: Tables, pr: nat, c: ListedComment) {
    && c.byReviewBot && c.delivery.content.kind == Unknown && c.walkthroughMarker
    && (forall id :: id in t.queue ==> t.queue[id].pullRequestId != Some(pr))
    && !AlreadyKnown(t, pr, c)
  }

  predicate IsLimit(c: ListedComment) {
    c.delivery.content.kind == ReviewLimited
  }

  function LimitOf(c: ListedComment): (candidate: ReviewLimitCandidate) {
    ReviewLimitCandidate(c.delivery.content.ghUpdatedAt, c.wait)
  }

  /** The tables with the news about the run id recorded: it differs from the stored one. */
  function RunNoted(t: Tables, pr: CheckedPr, c: ListedComment): (t': Tables) {
    var id := c.delivery.commentId;
    if id in t.comments && t.comments[id].pullRequestId == pr.id
       && t.comments[id].content.runId != c.delivery.content.runId
    then t.(events := t.events + [RunIdEvent(pr.key)]) else t
  }

  /** A comment is handed over exactly when it is news, and then a limit is reported, also if the handler fails; a first
      walkthrough is stored and stamped; anything else is passed by. */
  lemma CheckedExactly(t: Tables, pr: CheckedPr, c: ListedComment, review: Option<int>, cfg: Config, now: int)
    ensures
      var (t', r) := Checked(t, pr, c, review, cfg, now);
      && r.candidate == (if Newsworthy(t, pr.id, c) && IsLimit(c) then Some(LimitOf(c)) else None)
      && (r.handedOver <==> Newsworthy(t, pr.id, c) && !r.thrown)
      && (Newsworthy(t, pr.id, c) ==>
            var o := Handle(RunNoted(t, pr, c), Detected(c.uuid, pr.key, pr.title, c.delivery, c.wait), review, cfg,
                            now);
            && (r.thrown <==> o.HandleThrew?)
            && t' == if o.Handled? then o.tables else RunNoted(t, pr, c))
      && (FirstWalkthrough(t, pr.id, c) && pr.id in t.prs ==>
            && !r.thrown && Stored(t.comments, t'.comments, c.delivery, now)
            && t' == t.(comments := t'.comments,
                        prs := t.prs[pr.id := t.prs[pr.id].(lastReviewAt := Some(c.delivery.content.ghUpdatedAt))]))
      && (!Newsworthy(t, pr.id, c) && !FirstWalkthrough(t, pr.id, c) ==> t' == t && !r.thrown)
  {
    hide Handle;
    assert SeenBefore(t, pr.id, c) <==> AlreadyKnown(t, pr.id, c);
    assert QueuedBefore(t.queue, pr.id) <==> !(forall id :: id in t.queue ==> t.queue[id].pullRequestId != Some(pr.id));
  }

  // ---------------------------------------------------------------- one pull request

  /** What is stored of a comment did not change. */
  predicate Unmoved(log: map<int, CommentRow>, log': map<int, CommentRow>, id: int) {
    (id in log <==> id in log') && (id in log ==> log'[id] == log[id])
  }

  lemma CheckingMovesItsOwn(t: Tables, pr: CheckedPr, c: ListedComment, review: Option<int>, cfg: Config, now: int,
                            id: int)
    requires QueueOk(t) && id != c.delivery.commentId
    ensures Unmoved(t.comments, Checked(t, pr, c, review, cfg, now).0.comments, id)
  {
    CheckedExactly(t, pr, c, review, cfg, now);
    var t1, d := RunNoted(t, pr, c), Detected(c.uuid, pr.key, pr.title, c.delivery, c.wait);
    if Handle(t1, d, review, cfg, now).Handled? { DetectKeepsPosts(t1, d, review, cfg, now); }
    if !Newsworthy(t, pr.id, c) && FirstWalkthrough(t, pr.id, c) {
      assert Treat(t, pr.id, c) == WalkthroughNoted;
    }
  }

  /** Whether a comment is news depends on what is stored of it only. */
  lemma NewsOfTheUnmoved(t: Tables, t': Tables, pr: nat, c: ListedComment)
    requires Unmoved(t.comments, t'.comments, c.delivery.commentId)
    ensures Newsworthy(t', pr, c) <==> Newsworthy(t, pr, c)
  {
  }

  /** The limits among the first `j` comments that are news to the tables `t`, in the order of the listing. */
  function Limits(t: Tables, pr: CheckedPr, j: nat): (candidates: seq<ReviewLimitCandidate>)
    requires j <= |CommentsOf(pr)|
  {
    if j == 0 then []
    else
      var init, c := Limits(t, pr, j - 1), CommentsOf(pr)[j - 1];
      if Newsworthy(t, pr.id, c) && IsLimit(c) then init + [LimitOf(c)] else init
  }

  /** How many of the first `j` comments are news to the tables `t`, those that throw aside. */
  function NewsCount(t: Tables, pr: CheckedPr, results: seq<CommentResult>, j: nat): nat
    requires j <= |CommentsOf(pr)| && j <= |results|
  {
    if j == 0 then 0
    else
      NewsCount(t, pr, results, j - 1)
      + (if Newsworthy(t, pr.id, CommentsOf(pr)[j - 1]) && !results[j - 1].thrown then 1 else 0)
  }

  /** No comment is listed twice. */
  predicate DistinctIds(pr: CheckedPr) {
    forall i, j :: 0 <= i < j < |CommentsOf(pr)| ==>
      CommentsOf(pr)[i].delivery.commentId != CommentsOf(pr)[j].delivery.commentId
  }

  /** The comments of a pull request are as they were before the scan. */
  predicate NoneMoved(t0: Tables, t: Tables, pr: CheckedPr) {
    forall i :: 0 <= i < |CommentsOf(pr)| ==> Unmoved(t0.comments, t.comments, CommentsOf(pr)[i].delivery.commentId)
  }

  predicate AmongFirst(pr: CheckedPr, j: nat, id: int)
    requires j <= |CommentsOf(pr)|
  {
    exists i :: 0 <= i < j && CommentsOf(pr)[i].delivery.commentId == id
  }

  /** However far the scan of a pull request gets, it moves no comment it has not reached. */
  lemma {:induction false} ScanMovesTheReached(t: Tables, prs: seq<CheckedPr>, pr: CheckedPr, reviews: seq<Option<int>>,
                                               j: nat, cfg: Config, now: int, id: int)
    requires cfg.Valid() && AllApart(prs) && pr in prs && SystemInv(t) && AllAtHome(t, prs)
    requires j <= |reviews| <= |CommentsOf(pr)| && ReviewsFound(t, pr, reviews, cfg, now) && !AmongFirst(pr, j, id)
    ensures Unmoved(t.comments, ScanPr(t, pr, reviews, j, cfg, now).0.comments, id)
  {
    hide AllApart, AllAtHome, SystemInv, ReviewsFound, Checked;
    if j > 0 {
      assert !AmongFirst(pr, j - 1, id);
      assert CommentsOf(pr)[j - 1].delivery.commentId != id;
      ScanMovesTheReached(t, prs, pr, reviews, j - 1, cfg, now, id);
      ScanStateOk(t, prs, pr, reviews, j - 1, cfg, now);
      CheckingMovesItsOwn(ScanPr(t, pr, reviews, j - 1, cfg, now).0, pr, CommentsOf(pr)[j - 1], reviews[j - 1], cfg,
                          now, id);
    }
  }

  lemma ScanStateOk(t: Tables, prs: seq<CheckedPr>, pr: CheckedPr, reviews: seq<Option<int>>, j: nat, cfg: Config,
                    now: int)
    requires cfg.Valid() && AllApart(prs) && pr in prs && SystemInv(t) && AllAtHome(t, prs)
    requires j <= |reviews| <= |CommentsOf(pr)| && ReviewsFound(t, pr, reviews, cfg, now)
    ensures QueueOk(ScanPr(t, pr, reviews, j, cfg, now).0)
  {
    ScanPrKeeps(t, prs, pr, reviews, j, cfg, now, false);
  }

  /** The candidates of a pull request are exactly the limits among its comments that were news before the scan, as
      far as it got, in the order of the listing; and it counts those that were handed over. */
  lemma {:induction false} PrReportsItsLimits(t0: Tables, t: Tables, prs: seq<CheckedPr>, pr: CheckedPr,
                                              reviews: seq<Option<int>>, j: nat, cfg: Config, now: int)
    requires cfg.Valid() && AllApart(prs) && pr in prs && SystemInv(t) && AllAtHome(t, prs)
    requires j <= |reviews| <= |CommentsOf(pr)| && ReviewsFound(t, pr, reviews, cfg, now)
    requires DistinctIds(pr) && NoneMoved(t0, t, pr)
    ensures
      var results := ScanPr(t, pr, reviews, j, cfg, now).1;
      && Candidates(results) == Limits(t0, pr, j)
      && HandedOverCount(results) == NewsCount(t0, pr, results, j)
  {
    hide AllApart, AllAtHome, SystemInv, ReviewsFound, Checked, Newsworthy;
    if j > 0 {
      PrReportsItsLimits(t0, t, prs, pr, reviews, j - 1, cfg, now);
      var (t1, results) := ScanPr(t, pr, reviews, j - 1, cfg, now);
      var c := CommentsOf(pr)[j - 1];
      assert !AmongFirst(pr, j - 1, c.delivery.commentId);
      ScanMovesTheReached(t, prs, pr, reviews, j - 1, cfg, now, c.delivery.commentId);
      NewsOfTheUnmoved(t0, t1, pr.id, c);
      CheckedExactly(t1, pr, c, reviews[j - 1], cfg, now);
      var result := Checked(t1, pr, c, reviews[j - 1], cfg, now).1;
      ResultsGrow(results, result);
      NewsCountGrows(t0, pr, results, result, j - 1);
    }
  }

  lemma {:induction false} NewsCountGrows(t: Tables, pr: CheckedPr, results: seq<CommentResult>, result: CommentResult,
                                          j: nat)
    requires j <= |CommentsOf(pr)| && j <= |results|
    ensures NewsCount(t, pr, results + [result], j) == NewsCount(t, pr, results, j)
  {
    if j > 0 { NewsCountGrows(t, pr, results, result, j - 1); }
  }

  // ---------------------------------------------------------------- the whole scan

  /** No comment is listed twice in the whole scan. */
  predicate AllDistinct(prs: seq<CheckedPr>) {
    && (forall i :: 0 <= i < |prs| ==> DistinctIds(prs[i]))
    && forall i, k :: 0 <= i < k < |prs| ==> ListedApart(prs[i], prs[k])
  }

  predicate ListedApart(pr: CheckedPr, pr': CheckedPr) {
    forall j :: 0 <= j < |CommentsOf(pr')| ==> !AmongFirst(pr, |CommentsOf(pr)|, CommentsOf(pr')[j].delivery.commentId)
  }

  /** The limits that are news to the tables `t`, in the order of the listing, as far as the scan got. */
  function AllLimits(t: Tables, prs: seq<CheckedPr>, reviews: seq<seq<Option<int>>>, i: nat):
    (candidates: seq<ReviewLimitCandidate>)
    requires ScanShape(prs, reviews) && i <= |reviews|
  {
    if i == 0 then [] else AllLimits(t, prs, reviews, i - 1) + Limits(t, prs[i - 1], |reviews[i - 1]|)
  }

  /** The number of comments that are news to the tables `t`, those that throw aside. */
  ghost function AllNews(t: Tables, prs: seq<CheckedPr>, reviews: seq<seq<Option<int>>>, i: nat, cfg: Config,
                         now: int): nat
    requires ScanShape(prs, reviews) && i <= |reviews|
  {
    if i == 0 then 0
    else
      var t1 := ScanPrs(t, prs, reviews, i - 1, cfg, now).0;
      var results := ScanPr(t1, prs[i - 1], reviews[i - 1], |reviews[i - 1]|, cfg, now).1;
      AllNews(t, prs, reviews, i - 1, cfg, now) + NewsCount(t, prs[i - 1], results, |reviews[i - 1]|)
  }

  lemma MovedNeither(log: map<int, CommentRow>, log': map<int, CommentRow>, log'': map<int, CommentRow>, id: int)
    requires Unmoved(log, log', id) && Unmoved(log', log'', id)
    ensures Unmoved(log, log'', id)
  {
  }

  lemma ScanStateBefore(t: Tables, prs: seq<CheckedPr>, reviews: seq<seq<Option<int>>>, i: nat, cfg: Config, now: int)
    requires cfg.Valid() && AllApart(prs) && SystemInv(t) && AllAtHome(t, prs)
    requires Scanned(t, prs, reviews, cfg, now) && i < |reviews|
    ensures
      var t1 := ScanPrs(t, prs, reviews, i, cfg, now).0;
      && SystemInv(t1) && AllAtHome(t1, prs)
      && |reviews[i]| <= |CommentsOf(prs[i])| && ReviewsFound(t1, prs[i], reviews[i], cfg, now)
  {
    ScanKeepsAll(t, prs, reviews, i, cfg, now, false);
    assert PrScannedAt(t, prs, reviews, i, cfg, now);
  }

  /** Scanning some pull requests moves no comment of another. */
  lemma {:induction false} ScanMovesItsOwn(t: Tables, prs: seq<CheckedPr>, reviews: seq<seq<Option<int>>>, i: nat,
                                           cfg: Config, now: int, id: int)
    requires cfg.Valid() && AllApart(prs) && SystemInv(t) && AllAtHome(t, prs)
    requires Scanned(t, prs, reviews, cfg, now) && i <= |reviews|
    requires forall k :: 0 <= k < i ==> !AmongFirst(prs[k], |CommentsOf(prs[k])|, id)
    ensures Unmoved(t.comments, ScanPrs(t, prs, reviews, i, cfg, now).0.comments, id)
  {
    hide AllApart, AllAtHome, SystemInv, ReviewsFound, Scanned;
    if i > 0 {
      ScannedHasShape(t, prs, reviews, cfg, now);
      ScanMovesItsOwn(t, prs, reviews, i - 1, cfg, now, id);
      ScanStateBefore(t, prs, reviews, i - 1, cfg, now);
      var t1 := ScanPrs(t, prs, reviews, i - 1, cfg, now).0;
      assert !AmongFirst(prs[i - 1], |reviews[i - 1]|, id);
      ScanMovesTheReached(t1, prs, prs[i - 1], reviews[i - 1], |reviews[i - 1]|, cfg, now, id);
      MovedNeither(t.comments, t1.comments, ScanPrs(t, prs, reviews, i, cfg, now).0.comments, id);
    }
  }

  lemma ScannedHasShape(t: Tables, prs: seq<CheckedPr>, reviews: seq<seq<Option<int>>>, cfg: Config, now: int)
    requires Scanned(t, prs, reviews, cfg, now)
    ensures ScanShape(prs, reviews)
  {
  }

  /** When its turn comes, the comments of a pull request are as they were before the scan. */
  lemma TurnFindsThemUnmoved(t: Tables, prs: seq<CheckedPr>, reviews: seq<seq<Option<int>>>, i: nat, cfg: Config,
                             now: int)
    requires cfg.Valid() && AllApart(prs) && SystemInv(t) && AllAtHome(t, prs)
    requires Scanned(t, prs, reviews, cfg, now) && i < |reviews| && AllDistinct(prs)
    ensures i < |prs| && NoneMoved(t, ScanPrs(t, prs, reviews, i, cfg, now).0, prs[i])
  {
    forall j | 0 <= j < |CommentsOf(prs[i])|
      ensures Unmoved(t.comments, ScanPrs(t, prs, reviews, i, cfg, now).0.comments,
                      CommentsOf(prs[i])[j].delivery.commentId)
    {
      assert forall k :: 0 <= k < i ==> ListedApart(prs[k], prs[i]);
      ScanMovesItsOwn(t, prs, reviews, i, cfg, now, CommentsOf(prs[i])[j].delivery.commentId);
    }
  }

  /** The candidates of a scan are exactly the limits in its listing that were news before it, as far as it got, in the
      order of the listing; and it counts exactly the news it handed over. */
  lemma {:induction false} ScanReportsTheLimits(t: Tables, prs: seq<CheckedPr>, reviews: seq<seq<Option<int>>>, i: nat,
                                                cfg: Config, now: int)
    requires cfg.Valid() && AllApart(prs) && SystemInv(t) && AllAtHome(t, prs) && AllDistinct(prs)
    requires Scanned(t, prs, reviews, cfg, now) && i <= |reviews|
    ensures
      var results := ScanPrs(t, prs, reviews, i, cfg, now).1;
      && Candidates(results) == AllLimits(t, prs, reviews, i)
      && HandedOverCount(results) == AllNews(t, prs, reviews, i, cfg, now)
  {
    hide AllApart, AllAtHome, SystemInv, ReviewsFound, Scanned, NoneMoved, ListedApart, DistinctIds, ScanPr;
    if i > 0 {
      ScannedHasShape(t, prs, reviews, cfg, now);
      ScanReportsTheLimits(t, prs, reviews, i - 1, cfg, now);
      ScanStateBefore(t, prs, reviews, i - 1, cfg, now);
      TurnFindsThemUnmoved(t, prs, reviews, i - 1, cfg, now);
      var (t1, results) := ScanPrs(t, prs, reviews, i - 1, cfg, now);
      PrReportsItsLimits(t, t1, prs, prs[i - 1], reviews[i - 1], |reviews[i - 1]|, cfg, now);
      ResultsJoin(results, ScanPr(t1, prs[i - 1], reviews[i - 1], |reviews[i - 1]|, cfg, now).1);
    }
  }
}
