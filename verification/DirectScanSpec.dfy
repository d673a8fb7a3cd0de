/** The direct scan of pull request comments as functions of the tables, and why scanning the same listing again does
    nothing. */
module DirectScanSpec {
  import opened Domain
  import opened Transitions
  import opened QueueInvariant
  import opened EnqueueSpec
  import opened CommentLog
  import opened DetectionSpec
  import opened Steps
  import opened SystemInvariant
  import opened Runs
  import CommentUrl

  const MAX_DIRECT_CHECK_PRS := 125

  /** A listed comment as the scan reads it. `uuid` is the identifier generated for a row it may create. */
  datatype ListedComment = ListedComment(
    uuid: string,
    byReviewBot: bool,
    walkthroughMarker: bool,
    ownMarker: bool,
    wait: Option<int>,
    delivery: Delivery)

  datatype Listing = Comments(comments: seq<ListedComment>) | ListingFailed

  datatype CheckedPr = CheckedPr(id: nat, key: PrKey, title: string, listing: Listing)

  /** What the scan does with one comment. */
  datatype Treatment = Ignored | AlreadySeen | WalkthroughNoted | HandedOver

  predicate QueuedBefore(q: map<nat, QueueRow>, pr: nat) {
    exists id :: id in q && q[id].pullRequestId == Some(pr)
  }

  predicate SeenBefore(t: Tables, pr: nat, c: ListedComment) {
    Seen(t.comments, pr, c.delivery.commentId, c.delivery.content.ghUpdatedAt)
  }

  function Treat(t: Tables, pr: nat, c: ListedComment): Treatment {
    if !c.byReviewBot then Ignored
    else if c.delivery.content.kind == Unknown then
      if c.walkthroughMarker && !QueuedBefore(t.queue, pr) then
        if SeenBefore(t, pr, c) then AlreadySeen else WalkthroughNoted
      else Ignored
    else if c.delivery.content.kind == ReviewLimited && c.ownMarker then Ignored
    else if SeenBefore(t, pr, c) then AlreadySeen
    else HandedOver
  }

  predicate Quiet(t: Tables, pr: nat, c: ListedComment) {
    Treat(t, pr, c) == Ignored || Treat(t, pr, c) == AlreadySeen
  }

  /** A comment that needed nothing needs nothing later. */
  lemma QuietStays(t: Tables, t': Tables, pr: nat, c: ListedComment)
    requires Quiet(t, pr, c) && QueueProgress(t.queue, t'.queue) && SeenKept(t.comments, t'.comments)
    ensures Quiet(t', pr, c)
  {
    if QueuedBefore(t.queue, pr) {
      var id :| id in t.queue && t.queue[id].pullRequestId == Some(pr);
      assert RowProgress(t.queue[id], t'.queue[id]);
    }
    if SeenBefore(t, pr, c) { assert SeenBefore(t', pr, c); }
  }

  function DetectedOf(pr: CheckedPr, c: ListedComment): Detected {
    Detected(c.uuid, pr.key, pr.title, c.delivery, c.wait)
  }

  datatype ReviewLimitCandidate = ReviewLimitCandidate(updatedAt: int, wait: Option<int>)

  datatype CommentResult = CommentResult(thrown: bool, handedOver: bool, candidate: Option<ReviewLimitCandidate>)

  /** The run id differs from the one stored for the comment. */
  predicate RunIdNews(t: Tables, pr: nat, c: ListedComment) {
    var d := c.delivery;
    && d.commentId in t.comments && t.comments[d.commentId].pullRequestId == pr
    && t.comments[d.commentId].content.runId != d.content.runId
  }

  /** What is written and reported for one comment; `review` is the completed review the handler finds. */
  ghost function Checked(t: Tables, pr: CheckedPr, c: ListedComment, review: Option<int>, cfg: Config, now: int):
    (Tables, CommentResult)
  {
    match Treat(t, pr.id, c)
    case WalkthroughNoted =>
      if pr.id !in t.prs then (t.(comments := Upserted(t.comments, c.delivery, now)), CommentResult(true, false, None))
      else (t.(comments := Upserted(t.comments, c.delivery, now),
          prs := t.prs[pr.id := t.prs[pr.id].(lastReviewAt := Some(c.delivery.content.ghUpdatedAt))]),
       CommentResult(false, false, None))
    case HandedOver => (
      var t1 := if RunIdNews(t, pr.id, c) then WithEvent(t, RunIdEvent(pr.key)) else t;
      var candidate :=
        if c.delivery.content.kind != ReviewLimited then None
        else Some(ReviewLimitCandidate(c.delivery.content.ghUpdatedAt, c.wait));
      match Handle(t1, DetectedOf(pr, c), review, cfg, now)
      case Handled(t2) => (t2, CommentResult(false, true, candidate))
      case HandleThrew => (t1, CommentResult(true, false, candidate)))
    case _ => (t, CommentResult(false, false, None))
  }

  /** The pull request is registered, and everything stored for the comment belongs to it. */
  predicate AtHome(t: Tables, pr: CheckedPr, c: ListedComment) {
    && c.delivery.pullRequestId == pr.id && pr.id in t.prs && t.prs[pr.id].key == pr.key
    && CommentOf(t.queue, c.delivery.commentId, pr.key) && CommentHome(t.comments, c.delivery)
  }

  // ---------------------------------------------------------------- what checking one comment keeps

  /** What a scan keeps of the tables; what was seen, if the clock is not behind what it delivers. */
  ghost predicate ScanKeeps(t: Tables, t': Tables, cfg: Config, now: int, timely: bool) {
    && SystemInv(t') && Onward(t, t')
    && (timely && LogInv(t.comments, now) ==> LogInv(t'.comments, now) && SeenKept(t.comments, t'.comments))
  }

  lemma ScanKeepsTwice(t: Tables, t': Tables, t'': Tables, cfg: Config, now: int, timely: bool)
    requires ScanKeeps(t, t', cfg, now, timely) && ScanKeeps(t', t'', cfg, now, timely)
    ensures ScanKeeps(t, t'', cfg, now, timely)
  {
    OnwardTwice(t, t', t'');
  }

  lemma StepScanKeeps(t: Tables, s: Step, cfg: Config, timely: bool)
    requires cfg.Valid() && SystemInv(t) && Enabled(t, s, cfg) && (timely ==> Timely(s))
    ensures ScanKeeps(t, Apply(t, s, cfg), cfg, s.now, timely)
  {
    StepKeepsInv(t, s, cfg);
    if timely && LogInv(t.comments, s.now) { StepKeepsLog(t, s, cfg, s.now); }
  }

  lemma NewsKept(t: Tables, key: PrKey, cfg: Config, now: int, timely: bool)
    requires cfg.Valid() && SystemInv(t)
    ensures ScanKeeps(t, WithEvent(t, RunIdEvent(key)), cfg, now, timely)
  {
    StepScanKeeps(t, Step(ObserveRunId(key), now, now), cfg, timely);
  }

  lemma WalkthroughKept(t: Tables, pr: CheckedPr, c: ListedComment, cfg: Config, now: int, timely: bool)
    requires cfg.Valid() && SystemInv(t) && AtHome(t, pr, c) && (timely ==> c.delivery.content.ghUpdatedAt <= now)
    ensures ScanKeeps(t, ApplyNote(t, Step(RecordWalkthrough(c.delivery), now, now), cfg), cfg, now, timely)
  {
    StepScanKeeps(t, Step(RecordWalkthrough(c.delivery), now, now), cfg, timely);
  }

  lemma HandlingKept(t: Tables, pr: CheckedPr, c: ListedComment, review: Option<int>, cfg: Config, now: int,
                     timely: bool)
    requires cfg.Valid() && SystemInv(t) && AtHome(t, pr, c) && (timely ==> c.delivery.content.ghUpdatedAt <= now)
    requires IsCompletedReview(t.comments, pr.id, review)
    requires Handle(t, DetectedOf(pr, c), review, cfg, now).Handled?
    ensures var t' := Handle(t, DetectedOf(pr, c), review, cfg, now).tables;
      ScanKeeps(t, t', cfg, now, timely) && t'.comments == Upserted(t.comments, c.delivery, now)
  {
    StepScanKeeps(t, Step(Detect(DetectedOf(pr, c), review), now, now), cfg, timely);
    DetectKeepsPosts(t, DetectedOf(pr, c), review, cfg, now);
  }

  /** A revision that was stored by a clock not behind it needs nothing more. */
  lemma DeliveredIsQuiet(t: Tables, t': Tables, pr: nat, c: ListedComment, before: int, now: int)
    requires LogInv(t.comments, before) && before <= now && c.delivery.content.ghUpdatedAt <= now
    requires CommentHome(t.comments, c.delivery) && c.delivery.pullRequestId == pr
    requires t'.comments == Upserted(t.comments, c.delivery, now)
    ensures Quiet(t', pr, c)
  {
    UpsertMarksSeen(t.comments, c.delivery, before, now);
    assert SeenBefore(t', pr, c);
  }

  /** Checking a comment keeps the system's invariant; and unless it throws it leaves the comment quiet, because every
      branch of the handler stores the revision it was given. */
  lemma CheckingKeeps(t: Tables, pr: CheckedPr, c: ListedComment, review: Option<int>, cfg: Config, now: int,
                      timely: bool)
    requires cfg.Valid() && SystemInv(t) && AtHome(t, pr, c) && (timely ==> c.delivery.content.ghUpdatedAt <= now)
    requires Treat(t, pr.id, c) == HandedOver ==> IsCompletedReview(t.comments, pr.id, review)
    ensures ScanKeeps(t, Checked(t, pr, c, review, cfg, now).0, cfg, now, timely)
    ensures timely && LogInv(t.comments, now) && !Checked(t, pr, c, review, cfg, now).1.thrown ==>
      Quiet(Checked(t, pr, c, review, cfg, now).0, pr.id, c)
  {
    var (t', result) := Checked(t, pr, c, review, cfg, now);
    match Treat(t, pr.id, c) {
      case WalkthroughNoted =>
        WalkthroughKept(t, pr, c, cfg, now, timely);
        if timely && LogInv(t.comments, now) { DeliveredIsQuiet(t, t', pr.id, c, now, now); }
      case HandedOver =>
        var t1 := if RunIdNews(t, pr.id, c) then WithEvent(t, RunIdEvent(pr.key)) else t;
        NewsKept(t, pr.key, cfg, now, timely);
        if !result.thrown {
          HandlingKept(t1, pr, c, review, cfg, now, timely);
          if RunIdNews(t, pr.id, c) { ScanKeepsTwice(t, t1, t', cfg, now, timely); }
          if timely && LogInv(t.comments, now) { DeliveredIsQuiet(t1, t', pr.id, c, now, now); }
        }
      case _ =>
    }
  }

  // ---------------------------------------------------------------- the second pass

  /** Step `k` of the run stores the revision: the handler took the comment, or the walkthrough was noted. */
  ghost predicate DealtWithAt(r: Run, cfg: Config, k: nat, pr: CheckedPr, c: ListedComment) {
    && k < |r.steps| && k < |r.states|
    && match r.steps[k].action
       case RecordWalkthrough(d) => d == c.delivery
       case Detect(detected, review) =>
         detected == DetectedOf(pr, c) && Handle(r.states[k], detected, review, cfg, r.steps[k].now).Handled?
       case _ => false
  }

  lemma DealingStores(t: Tables, s: Step, cfg: Config, d: Delivery)
    requires QueueOk(t) && Enabled(t, s, cfg)
    requires match s.action
      case RecordWalkthrough(d') => d' == d
      case Detect(c, review) => c.delivery == d && Handle(t, c, review, cfg, s.now).Handled?
      case _ => false
    ensures Apply(t, s, cfg).comments == Upserted(t.comments, d, s.now) && CommentHome(t.comments, d)
  {
    if s.action.Detect? { DetectKeepsPosts(t, s.action.comment, s.action.review, cfg, s.now); }
  }

  /** Once a scan needed nothing of a comment, or dealt with it, every later scan of the same revision needs nothing
      of it, whatever all components do in between, as long as the clock is not behind the timestamps of GitHub. */
  lemma ScannedStaysQuiet(r: Run, cfg: Config, before: int, k: nat, n: nat, pr: CheckedPr, c: ListedComment)
    requires cfg.Valid() && IsRun(r, cfg) && SystemInv(r.states[0]) && TimelyRun(r, before)
    requires LogInv(r.states[0].comments, before) && k <= n < |r.states| && c.delivery.pullRequestId == pr.id
    requires Quiet(r.states[k], pr.id, c) || (k < n && DealtWithAt(r, cfg, k, pr, c))
    ensures Quiet(r.states[n], pr.id, c)
  {
    var clock := SeenStaysSeen(r, cfg, before, k, k);
    var first := k;
    if !Quiet(r.states[k], pr.id, c) {
      first := k + 1;
      RunKeepsInv(r, cfg, k);
      DealingStores(r.states[k], r.steps[k], cfg, c.delivery);
      DeliveredIsQuiet(r.states[k], r.states[k + 1], pr.id, c, clock, r.steps[k].now);
    }
    RunGoesOnward(r, cfg, first, n);
    clock := SeenStaysSeen(r, cfg, before, first, n);
    QuietStays(r.states[first], r.states[n], pr.id, c);
  }

  // ---------------------------------------------------------------- the scan

  /** A comment id names one comment of one pull request, wherever it is listed. */
  predicate Apart(pr: CheckedPr, c: ListedComment, pr': CheckedPr, c': ListedComment) {
    c.delivery.commentId == c'.delivery.commentId ==> pr.id == pr'.id && pr.key == pr'.key
  }

  lemma HandlingKeepsHomes(t: Tables, pr: CheckedPr, c: ListedComment, review: Option<int>, cfg: Config, now: int,
                           pr': CheckedPr, c': ListedComment)
    requires QueueOk(t) && AtHome(t, pr, c) && AtHome(t, pr', c') && Apart(pr, c, pr', c')
    requires Handle(t, DetectedOf(pr, c), review, cfg, now).Handled?
    ensures var t' := Handle(t, DetectedOf(pr, c), review, cfg, now).tables;
      CommentOf(t'.queue, c'.delivery.commentId, pr'.key) && CommentHome(t'.comments, c'.delivery)
  {
    DetectKeepsQueue(t, DetectedOf(pr, c), review, cfg, now);
    DetectKeepsPosts(t, DetectedOf(pr, c), review, cfg, now);
    var t' := Handle(t, DetectedOf(pr, c), review, cfg, now).tables;
    assert CommentsStay(t.queue, t'.queue, EnqueueDataOf(DetectedOf(pr, c), cfg.fallbackWait));
  }

  /** Checking a comment moves no other comment to a foreign pull request. */
  lemma CheckingKeepsHomes(t: Tables, pr: CheckedPr, c: ListedComment, review: Option<int>, cfg: Config, now: int,
                           pr': CheckedPr, c': ListedComment)
    requires SystemInv(t) && AtHome(t, pr, c) && AtHome(t, pr', c') && Apart(pr, c, pr', c')
    requires SameIdentities(t.prs, Checked(t, pr, c, review, cfg, now).0.prs)
    ensures AtHome(Checked(t, pr, c, review, cfg, now).0, pr', c')
  {
    if Treat(t, pr.id, c) == HandedOver && !Checked(t, pr, c, review, cfg, now).1.thrown {
      var t1 := if RunIdNews(t, pr.id, c) then WithEvent(t, RunIdEvent(pr.key)) else t;
      HandlingKeepsHomes(t1, pr, c, review, cfg, now, pr', c');
    }
  }

  function CommentsOf(pr: CheckedPr): seq<ListedComment> {
    if pr.listing.Comments? then pr.listing.comments else []
  }

  predicate InScan(prs: seq<CheckedPr>, pr: CheckedPr, c: ListedComment) {
    pr in prs && c in CommentsOf(pr)
  }

  ghost predicate AllAtHome(t: Tables, prs: seq<CheckedPr>) {
    forall pr, c :: InScan(prs, pr, c) ==> AtHome(t, pr, c)
  }

  ghost predicate AllApart(prs: seq<CheckedPr>) {
    forall pr, c, pr', c' :: InScan(prs, pr, c) && InScan(prs, pr', c') ==> Apart(pr, c, pr', c')
  }

  ghost predicate AllTimely(prs: seq<CheckedPr>, now: int) {
    forall pr, c :: InScan(prs, pr, c) ==> c.delivery.content.ghUpdatedAt <= now
  }

  // ---------------------------------------------------------------- the scan of one pull request

  /** The first `j` comments of a pull request in turn, handled under the completed reviews found on the way. */
  ghost function ScanPr(t: Tables, pr: CheckedPr, reviews: seq<Option<int>>, j: nat, cfg: Config, now: int):
    (r: (Tables, seq<CommentResult>))
    requires j <= |reviews| && j <= |CommentsOf(pr)|
    ensures |r.1| == j
  {
    if j == 0 then (t, [])
    else
      var (t1, results) := ScanPr(t, pr, reviews, j - 1, cfg, now);
      var (t2, result) := Checked(t1, pr, CommentsOf(pr)[j - 1], reviews[j - 1], cfg, now);
      (t2, results + [result])
  }

  /** If comment `j` was handed over, it was handled under the completed review stored by then. */
  ghost predicate ReviewFound(t: Tables, pr: CheckedPr, reviews: seq<Option<int>>, j: nat, cfg: Config, now: int)
    requires j < |reviews| && j < |CommentsOf(pr)|
  {
    var t1 := ScanPr(t, pr, reviews, j, cfg, now).0;
    Treat(t1, pr.id, CommentsOf(pr)[j]) == HandedOver ==> IsCompletedReview(t1.comments, pr.id, reviews[j])
  }

  ghost predicate ReviewsFound(t: Tables, pr: CheckedPr, reviews: seq<Option<int>>, cfg: Config, now: int)
    requires |reviews| <= |CommentsOf(pr)|
  {
    forall j :: 0 <= j < |reviews| ==> ReviewFound(t, pr, reviews, j, cfg, now)
  }

  predicate NoneThrown(results: seq<CommentResult>) {
    forall i :: 0 <= i < |results| ==> !results[i].thrown
  }

  /** The comments of the pull request can be asked for, and were. */
  predicate Listed(pr: CheckedPr) {
    CommentUrl.SplitRepo(pr.key.repo).Some? && pr.listing.Comments?
  }

  /** The scan of one pull request reached the end of its comments and nothing threw. */
  ghost predicate PrSucceeded(t: Tables, pr: CheckedPr, reviews: seq<Option<int>>, cfg: Config, now: int) {
    && Listed(pr) && |reviews| == |CommentsOf(pr)|
    && NoneThrown(ScanPr(t, pr, reviews, |reviews|, cfg, now).1)
  }

  /** It threw: before the first comment, or at the last one it reached and not earlier. */
  ghost predicate PrStopped(t: Tables, pr: CheckedPr, reviews: seq<Option<int>>, cfg: Config, now: int)
    requires |reviews| <= |CommentsOf(pr)|
  {
    var n := |reviews| - 1;
    if reviews == [] then !Listed(pr)
    else
      && Listed(pr) && NoneThrown(ScanPr(t, pr, reviews, n, cfg, now).1)
      && ScanPr(t, pr, reviews, |reviews|, cfg, now).1[n].thrown
  }

  ghost predicate PrScanned(t: Tables, pr: CheckedPr, reviews: seq<Option<int>>, cfg: Config, now: int) {
    && |reviews| <= |CommentsOf(pr)| && ReviewsFound(t, pr, reviews, cfg, now)
    && (PrSucceeded(t, pr, reviews, cfg, now) || PrStopped(t, pr, reviews, cfg, now))
  }

  /** The first `j` comments depend on the first `j` reviews only. */
  lemma {:induction false} ScanPrAgrees(t: Tables, pr: CheckedPr, reviews: seq<Option<int>>, more: seq<Option<int>>,
                                        j: nat, cfg: Config, now: int)
    requires j <= |reviews| && j <= |CommentsOf(pr)|
    ensures ScanPr(t, pr, reviews + more, j, cfg, now) == ScanPr(t, pr, reviews, j, cfg, now)
  {
    if j > 0 { ScanPrAgrees(t, pr, reviews, more, j - 1, cfg, now); }
  }

  lemma ThrownSplit(results: seq<CommentResult>, result: CommentResult)
    ensures NoneThrown(results + [result]) <==> NoneThrown(results) && !result.thrown
  {
    assert forall i :: 0 <= i < |results| ==> (results + [result])[i] == results[i];
    assert (results + [result])[|results|] == result;
  }

  // ---------------------------------------------------------------- what it keeps

  /** A scan led from `t` to `t1`. */
  ghost predicate Underway(t: Tables, t1: Tables, prs: seq<CheckedPr>, cfg: Config, now: int, timely: bool) {
    ScanKeeps(t, t1, cfg, now, timely) && AllAtHome(t1, prs)
  }

  ghost predicate QuietUpTo(t: Tables, pr: CheckedPr, j: nat)
    requires j <= |CommentsOf(pr)|
  {
    forall i :: 0 <= i < j ==> Quiet(t, pr.id, CommentsOf(pr)[i])
  }

  /** What one more comment adds to a scan that has dealt with the first `j`. */
  lemma NextComment(t1: Tables, prs: seq<CheckedPr>, pr: CheckedPr, j: nat, review: Option<int>, cfg: Config, now: int,
                    timely: bool)
    requires cfg.Valid() && (timely ==> AllTimely(prs, now)) && AllApart(prs) && pr in prs && j < |CommentsOf(pr)|
    requires SystemInv(t1) && AllAtHome(t1, prs)
    requires Treat(t1, pr.id, CommentsOf(pr)[j]) == HandedOver ==> IsCompletedReview(t1.comments, pr.id, review)
    ensures
      var (t2, result) := Checked(t1, pr, CommentsOf(pr)[j], review, cfg, now);
      && Underway(t1, t2, prs, cfg, now, timely)
      && (timely && LogInv(t1.comments, now) && !result.thrown && QuietUpTo(t1, pr, j) ==> QuietUpTo(t2, pr, j + 1))
  {
    var c := CommentsOf(pr)[j];
    var (t2, result) := Checked(t1, pr, c, review, cfg, now);
    assert InScan(prs, pr, c);
    CheckingKeeps(t1, pr, c, review, cfg, now, timely);
    forall pr', c' | InScan(prs, pr', c') ensures AtHome(t2, pr', c') {
      CheckingKeepsHomes(t1, pr, c, review, cfg, now, pr', c');
    }
    if timely && LogInv(t1.comments, now) && QuietUpTo(t1, pr, j) {
      forall i | 0 <= i < j ensures Quiet(t2, pr.id, CommentsOf(pr)[i]) {
        QuietStays(t1, t2, pr.id, CommentsOf(pr)[i]);
      }
    }
  }

  /** What the scan of the first `j` comments keeps; and as long as nothing throws, it leaves what it reached quiet. */
  ghost predicate KeptUpTo(t: Tables, r: (Tables, seq<CommentResult>), prs: seq<CheckedPr>, pr: CheckedPr, j: nat,
                           cfg: Config, now: int, timely: bool)
    requires j <= |CommentsOf(pr)|
  {
    && Underway(t, r.0, prs, cfg, now, timely)
    && (timely && LogInv(t.comments, now) && NoneThrown(r.1) ==> QuietUpTo(r.0, pr, j))
  }

  lemma NothingYet(t: Tables, prs: seq<CheckedPr>, pr: CheckedPr, cfg: Config, now: int, timely: bool)
    requires SystemInv(t) && AllAtHome(t, prs)
    ensures KeptUpTo(t, (t, []), prs, pr, 0, cfg, now, timely)
  {
  }

  lemma NextTurn(t: Tables, r: (Tables, seq<CommentResult>), prs: seq<CheckedPr>, pr: CheckedPr, j: nat,
                 review: Option<int>, cfg: Config, now: int, timely: bool)
    requires cfg.Valid() && (timely ==> AllTimely(prs, now)) && AllApart(prs) && pr in prs && j < |CommentsOf(pr)|
    requires KeptUpTo(t, r, prs, pr, j, cfg, now, timely)
    requires Treat(r.0, pr.id, CommentsOf(pr)[j]) == HandedOver ==> IsCompletedReview(r.0.comments, pr.id, review)
    ensures
      var (t2, result) := Checked(r.0, pr, CommentsOf(pr)[j], review, cfg, now);
      KeptUpTo(t, (t2, r.1 + [result]), prs, pr, j + 1, cfg, now, timely)
  {
    var (t2, result) := Checked(r.0, pr, CommentsOf(pr)[j], review, cfg, now);
    NextComment(r.0, prs, pr, j, review, cfg, now, timely);
    ScanKeepsTwice(t, r.0, t2, cfg, now, timely);
    ThrownSplit(r.1, result);
  }

  /** However far the scan of a pull request gets, it keeps the system's invariant; and as long as nothing throws, it
      leaves what it reached quiet. */
  lemma {:induction false} ScanPrKeeps(t: Tables, prs: seq<CheckedPr>, pr: CheckedPr, reviews: seq<Option<int>>, j: nat,
                                       cfg: Config, now: int, timely: bool)
    requires cfg.Valid() && (timely ==> AllTimely(prs, now)) && AllApart(prs) && pr in prs
    requires SystemInv(t) && AllAtHome(t, prs)
    requires j <= |reviews| <= |CommentsOf(pr)| && ReviewsFound(t, pr, reviews, cfg, now)
    ensures KeptUpTo(t, ScanPr(t, pr, reviews, j, cfg, now), prs, pr, j, cfg, now, timely)
  {
    if j == 0 {
      NothingYet(t, prs, pr, cfg, now, timely);
    } else {
      ScanPrKeeps(t, prs, pr, reviews, j - 1, cfg, now, timely);
      assert ReviewFound(t, pr, reviews, j - 1, cfg, now);
      NextTurn(t, ScanPr(t, pr, reviews, j - 1, cfg, now), prs, pr, j - 1, reviews[j - 1], cfg, now, timely);
    }
  }

  // ---------------------------------------------------------------- the whole scan

  /** The pull requests the scan gets to. */
  function Effective(prs: seq<CheckedPr>): (scanned: seq<CheckedPr>)
    ensures scanned <= prs && |scanned| == if |prs| <= 125 then |prs| else 125
  {
    if |prs| > MAX_DIRECT_CHECK_PRS then prs[..MAX_DIRECT_CHECK_PRS] else prs
  }

  predicate ScanShape(prs: seq<CheckedPr>, reviews: seq<seq<Option<int>>>) {
    |reviews| <= |prs| && forall i :: 0 <= i < |reviews| ==> |reviews[i]| <= |CommentsOf(prs[i])|
  }

  /** The first `i` pull requests in turn; `reviews` tells how far each of them was scanned. */
  ghost function ScanPrs(t: Tables, prs: seq<CheckedPr>, reviews: seq<seq<Option<int>>>, i: nat, cfg: Config, now: int):
    (Tables, seq<CommentResult>)
    requires ScanShape(prs, reviews) && i <= |reviews|
  {
    if i == 0 then (t, [])
    else
      var (t1, results) := ScanPrs(t, prs, reviews, i - 1, cfg, now);
      var (t2, more) := ScanPr(t1, prs[i - 1], reviews[i - 1], |reviews[i - 1]|, cfg, now);
      (t2, results + more)
  }

  function Candidates(results: seq<CommentResult>): seq<ReviewLimitCandidate> {
    if results == [] then []
    else
      var last := results[|results| - 1];
      Candidates(results[..|results| - 1]) + (if last.candidate.Some? then [last.candidate.value] else [])
  }

  function HandedOverCount(results: seq<CommentResult>): nat {
    if results == [] then 0
    else HandedOverCount(results[..|results| - 1]) + (if results[|results| - 1].handedOver then 1 else 0)
  }

  /** Pull request `i` was scanned as far as it goes, from where the scan of those before it ended. */
  ghost predicate PrScannedAt(t: Tables, prs: seq<CheckedPr>, reviews: seq<seq<Option<int>>>, i: nat, cfg: Config,
                              now: int)
    requires ScanShape(prs, reviews) && i < |reviews|
  {
    PrScanned(ScanPrs(t, prs, reviews, i, cfg, now).0, prs[i], reviews[i], cfg, now)
  }

  /** It was listed and scanned to the end of its comments, and nothing threw. */
  ghost predicate PrSucceededAt(t: Tables, prs: seq<CheckedPr>, reviews: seq<seq<Option<int>>>, i: nat, cfg: Config,
                                now: int)
    requires ScanShape(prs, reviews) && i < |reviews|
  {
    PrSucceeded(ScanPrs(t, prs, reviews, i, cfg, now).0, prs[i], reviews[i], cfg, now)
  }

  /** The first pull requests, as many as `reviews`, were scanned. */
  ghost predicate Scanned(t: Tables, prs: seq<CheckedPr>, reviews: seq<seq<Option<int>>>, cfg: Config, now: int) {
    && ScanShape(prs, reviews)
    && forall i :: 0 <= i < |reviews| ==> PrScannedAt(t, prs, reviews, i, cfg, now)
  }

  /** And nothing threw. */
  ghost predicate Succeeded(t: Tables, prs: seq<CheckedPr>, reviews: seq<seq<Option<int>>>, cfg: Config, now: int)
    requires ScanShape(prs, reviews)
  {
    forall i :: 0 <= i < |reviews| ==> PrSucceededAt(t, prs, reviews, i, cfg, now)
  }

  /** The first `i` pull requests depend on the first `i` entries only. */
  lemma {:induction false} ScanPrsAgree(t: Tables, prs: seq<CheckedPr>, reviews: seq<seq<Option<int>>>,
                                        more: seq<Option<int>>, i: nat, cfg: Config, now: int)
    requires ScanShape(prs, reviews) && ScanShape(prs, reviews + [more]) && i <= |reviews|
    ensures ScanPrs(t, prs, reviews + [more], i, cfg, now) == ScanPrs(t, prs, reviews, i, cfg, now)
  {
    if i > 0 { ScanPrsAgree(t, prs, reviews, more, i - 1, cfg, now); }
  }

  ghost predicate AllQuiet(t: Tables, prs: seq<CheckedPr>, i: nat)
    requires i <= |prs|
  {
    forall k :: 0 <= k < i ==> QuietUpTo(t, prs[k], |CommentsOf(prs[k])|)
  }

  lemma AllQuietStays(t: Tables, t': Tables, prs: seq<CheckedPr>, i: nat)
    requires i <= |prs| && AllQuiet(t, prs, i)
    requires QueueProgress(t.queue, t'.queue) && SeenKept(t.comments, t'.comments)
    ensures AllQuiet(t', prs, i)
  {
    forall k | 0 <= k < i ensures QuietUpTo(t', prs[k], |CommentsOf(prs[k])|) {
      assert QuietUpTo(t, prs[k], |CommentsOf(prs[k])|);
      forall j | 0 <= j < |CommentsOf(prs[k])| ensures Quiet(t', prs[k].id, CommentsOf(prs[k])[j]) {
        QuietStays(t, t', prs[k].id, CommentsOf(prs[k])[j]);
      }
    }
  }

  /** What one more pull request adds to a scan that has dealt with the first `i`; `ok`: nothing threw so far. */
  lemma NextPr(t: Tables, t1: Tables, prs: seq<CheckedPr>, i: nat, more: seq<Option<int>>, cfg: Config, now: int,
               timely: bool, ok: bool)
    requires cfg.Valid() && (timely ==> AllTimely(prs, now)) && AllApart(prs) && i < |prs|
    requires Underway(t, t1, prs, cfg, now, timely) && PrScanned(t1, prs[i], more, cfg, now)
    requires timely && LogInv(t.comments, now) && ok ==> AllQuiet(t1, prs, i)
    ensures
      var t2 := ScanPr(t1, prs[i], more, |more|, cfg, now).0;
      && Underway(t, t2, prs, cfg, now, timely)
      && (timely && LogInv(t.comments, now) && ok && PrSucceeded(t1, prs[i], more, cfg, now) ==>
            AllQuiet(t2, prs, i + 1))
  {
    ScanPrKeeps(t1, prs, prs[i], more, |more|, cfg, now, timely);
    var t2 := ScanPr(t1, prs[i], more, |more|, cfg, now).0;
    ScanKeepsTwice(t, t1, t2, cfg, now, timely);
    if timely && LogInv(t.comments, now) && ok { AllQuietStays(t1, t2, prs, i); }
  }

  /** A scan keeps the system's invariant; and as long as nothing throws, by a clock not behind the comments, it leaves
      them quiet. */
  lemma {:induction false} ScanKeepsAll(t: Tables, prs: seq<CheckedPr>, reviews: seq<seq<Option<int>>>, i: nat,
                                        cfg: Config, now: int, timely: bool)
    requires cfg.Valid() && (timely ==> AllTimely(prs, now)) && AllApart(prs) && SystemInv(t) && AllAtHome(t, prs)
    requires Scanned(t, prs, reviews, cfg, now) && i <= |reviews|
    ensures
      var t' := ScanPrs(t, prs, reviews, i, cfg, now).0;
      && Underway(t, t', prs, cfg, now, timely)
      && (timely && LogInv(t.comments, now) && Succeeded(t, prs, reviews, cfg, now) ==> AllQuiet(t', prs, i))
  {
    if i > 0 {
      ScanKeepsAll(t, prs, reviews, i - 1, cfg, now, timely);
      assert PrScannedAt(t, prs, reviews, i - 1, cfg, now);
      NextPr(t, ScanPrs(t, prs, reviews, i - 1, cfg, now).0, prs, i - 1, reviews[i - 1], cfg, now, timely,
             Succeeded(t, prs, reviews, cfg, now));
      assert Succeeded(t, prs, reviews, cfg, now) ==> PrSucceededAt(t, prs, reviews, i - 1, cfg, now);
    }
  }

  /** A successful scan by a clock that is not behind the comments leaves every comment of its listing quiet. */
  lemma SuccessLeavesQuiet(t: Tables, prs: seq<CheckedPr>, reviews: seq<seq<Option<int>>>, cfg: Config, now: int)
    requires cfg.Valid() && SystemInv(t) && LogInv(t.comments, now)
    requires AllApart(prs) && AllAtHome(t, prs) && AllTimely(prs, now)
    requires Scanned(t, prs, reviews, cfg, now) && |reviews| == |prs| && Succeeded(t, prs, reviews, cfg, now)
    ensures
      var t' := ScanPrs(t, prs, reviews, |prs|, cfg, now).0;
      SystemInv(t') && Onward(t, t') && LogInv(t'.comments, now) && AllQuiet(t', prs, |prs|)
  {
    ScanKeepsAll(t, prs, reviews, |prs|, cfg, now, true);
  }

  // ---------------------------------------------------------------- scanning twice

  lemma ResultsGrow(results: seq<CommentResult>, result: CommentResult)
    ensures Candidates(results + [result])
      == Candidates(results) + (if result.candidate.Some? then [result.candidate.value] else [])
    ensures HandedOverCount(results + [result]) == HandedOverCount(results) + (if result.handedOver then 1 else 0)
  {
    assert (results + [result])[..|results|] == results;
  }

  lemma {:induction false} ResultsJoin(results: seq<CommentResult>, more: seq<CommentResult>)
    ensures Candidates(results + more) == Candidates(results) + Candidates(more)
    ensures HandedOverCount(results + more) == HandedOverCount(results) + HandedOverCount(more)
  {
    if more == [] {
      assert results + more == results;
    } else {
      var n := |more| - 1;
      ResultsJoin(results, more[..n]);
      assert (results + more)[..|results| + n] == results + more[..n];
    }
  }

  lemma {:induction false} QuietPrDoesNothing(t: Tables, pr: CheckedPr, reviews: seq<Option<int>>, j: nat, cfg: Config,
                                              now: int)
    requires j <= |reviews| && j <= |CommentsOf(pr)| && QuietUpTo(t, pr, |CommentsOf(pr)|)
    ensures
      var (t', results) := ScanPr(t, pr, reviews, j, cfg, now);
      t' == t && Candidates(results) == [] && HandedOverCount(results) == 0
  {
    if j > 0 {
      QuietPrDoesNothing(t, pr, reviews, j - 1, cfg, now);
      ResultsGrow(ScanPr(t, pr, reviews, j - 1, cfg, now).1,
                  Checked(t, pr, CommentsOf(pr)[j - 1], reviews[j - 1], cfg, now).1);
    }
  }

  lemma {:induction false} QuietScanDoesNothing(t: Tables, prs: seq<CheckedPr>, reviews: seq<seq<Option<int>>>, i: nat,
                                                cfg: Config, now: int)
    requires ScanShape(prs, reviews) && i <= |reviews| && AllQuiet(t, prs, |prs|)
    ensures
      var (t', results) := ScanPrs(t, prs, reviews, i, cfg, now);
      t' == t && Candidates(results) == [] && HandedOverCount(results) == 0
  {
    if i > 0 {
      QuietScanDoesNothing(t, prs, reviews, i - 1, cfg, now);
      QuietPrDoesNothing(t, prs[i - 1], reviews[i - 1], |reviews[i - 1]|, cfg, now);
      ResultsJoin(ScanPrs(t, prs, reviews, i - 1, cfg, now).1,
                  ScanPr(t, prs[i - 1], reviews[i - 1], |reviews[i - 1]|, cfg, now).1);
    }
  }

  /** After a scan that succeeded, and whatever run of the system follows, a scan of the same listing writes nothing,
      hands nothing over and returns no candidates. */
  lemma SecondScanDoesNothing(t: Tables, prs: seq<CheckedPr>, reviews: seq<seq<Option<int>>>, cfg: Config, now: int,
                              r: Run, n: nat, reviews': seq<seq<Option<int>>>, now': int)
    requires cfg.Valid() && SystemInv(t) && LogInv(t.comments, now)
    requires AllApart(prs) && AllAtHome(t, prs) && AllTimely(prs, now)
    requires Scanned(t, prs, reviews, cfg, now) && |reviews| == |prs| && Succeeded(t, prs, reviews, cfg, now)
    requires IsRun(r, cfg) && r.states[0] == ScanPrs(t, prs, reviews, |prs|, cfg, now).0 && TimelyRun(r, now)
    requires n < |r.states|
    requires ScanShape(prs, reviews')
    ensures
      var (t', results) := ScanPrs(r.states[n], prs, reviews', |reviews'|, cfg, now');
      t' == r.states[n] && Candidates(results) == [] && HandedOverCount(results) == 0
  {
    SuccessLeavesQuiet(t, prs, reviews, cfg, now);
    RunGoesOnward(r, cfg, 0, n);
    var clock := SeenStaysSeen(r, cfg, now, 0, n);
    AllQuietStays(r.states[0], r.states[n], prs, |prs|);
    QuietScanDoesNothing(r.states[n], prs, reviews', |reviews'|, cfg, now');
  }

  // ---------------------------------------------------------------- the loops of the scan

  /** The first comments of `pr`, as many as `reviews`, led from `t` to `t1`, and none of them threw. */
  ghost predicate PrUnderway(t: Tables, t1: Tables, pr: CheckedPr, reviews: seq<Option<int>>, cfg: Config, now: int) {
    && |reviews| <= |CommentsOf(pr)| && Listed(pr) && ReviewsFound(t, pr, reviews, cfg, now)
    && var (end, results) := ScanPr(t, pr, reviews, |reviews|, cfg, now);
       t1 == end && NoneThrown(results)
  }

  /** What the scan of one pull request leaves and reports. */
  ghost predicate PrReported(t: Tables, t': Tables, pr: CheckedPr, reviews: seq<Option<int>>,
                             candidates: seq<ReviewLimitCandidate>, found: nat, cfg: Config, now: int) {
    && |reviews| <= |CommentsOf(pr)|
    && var (end, results) := ScanPr(t, pr, reviews, |reviews|, cfg, now);
       t' == end && candidates == Candidates(results) && found == HandedOverCount(results)
  }

  /** What the scan of the first pull requests, as many as `reviews`, leaves and reports. */
  ghost predicate Reported(t: Tables, t': Tables, prs: seq<CheckedPr>, reviews: seq<seq<Option<int>>>,
                           candidates: seq<ReviewLimitCandidate>, found: nat, cfg: Config, now: int) {
    && ScanShape(prs, reviews)
    && var (end, results) := ScanPrs(t, prs, reviews, |reviews|, cfg, now);
       t' == end && candidates == Candidates(results) && found == HandedOverCount(results)
  }

  lemma ReviewsGrow(t: Tables, pr: CheckedPr, reviews: seq<Option<int>>, review: Option<int>, cfg: Config, now: int)
    requires |reviews| < |CommentsOf(pr)| && ReviewsFound(t, pr, reviews, cfg, now)
    requires
      var t1 := ScanPr(t, pr, reviews, |reviews|, cfg, now).0;
      Treat(t1, pr.id, CommentsOf(pr)[|reviews|]) == HandedOver ==> IsCompletedReview(t1.comments, pr.id, review)
    ensures ReviewsFound(t, pr, reviews + [review], cfg, now)
  {
    forall j | 0 <= j <= |reviews| ensures ReviewFound(t, pr, reviews + [review], j, cfg, now) {
      ScanPrAgrees(t, pr, reviews, [review], j, cfg, now);
      assert j < |reviews| ==> ReviewFound(t, pr, reviews, j, cfg, now);
    }
  }

  /** The report of one more comment. */
  lemma ScanPrGrows(t: Tables, pr: CheckedPr, reviews: seq<Option<int>>, review: Option<int>, cfg: Config, now: int)
    requires |reviews| < |CommentsOf(pr)|
    ensures
      var j := |reviews|;
      var (t1, results) := ScanPr(t, pr, reviews, j, cfg, now);
      var (t2, result) := Checked(t1, pr, CommentsOf(pr)[j], review, cfg, now);
      && ScanPr(t, pr, reviews + [review], j, cfg, now) == (t1, results)
      && ScanPr(t, pr, reviews + [review], j + 1, cfg, now) == (t2, results + [result])
  {
    ScanPrAgrees(t, pr, reviews, [review], |reviews|, cfg, now);
  }

  lemma PrReportedGrows(t: Tables, t1: Tables, pr: CheckedPr, reviews: seq<Option<int>>,
                        candidates: seq<ReviewLimitCandidate>, found: nat, review: Option<int>, cfg: Config, now: int)
    requires PrReported(t, t1, pr, reviews, candidates, found, cfg, now) && |reviews| < |CommentsOf(pr)|
    ensures
      var (t2, result) := Checked(t1, pr, CommentsOf(pr)[|reviews|], review, cfg, now);
      PrReported(t, t2, pr, reviews + [review],
                 candidates + (if result.candidate.Some? then [result.candidate.value] else []),
                 found + (if result.handedOver then 1 else 0), cfg, now)
  {
    ScanPrGrows(t, pr, reviews, review, cfg, now);
    ResultsGrow(ScanPr(t, pr, reviews, |reviews|, cfg, now).1,
                Checked(t1, pr, CommentsOf(pr)[|reviews|], review, cfg, now).1);
  }

  lemma CommentAdded(t: Tables, t1: Tables, pr: CheckedPr, reviews: seq<Option<int>>, review: Option<int>, cfg: Config,
                     now: int)
    requires PrUnderway(t, t1, pr, reviews, cfg, now) && |reviews| < |CommentsOf(pr)|
    requires Treat(t1, pr.id, CommentsOf(pr)[|reviews|]) == HandedOver ==> IsCompletedReview(t1.comments, pr.id, review)
    ensures
      var (t2, result) := Checked(t1, pr, CommentsOf(pr)[|reviews|], review, cfg, now);
      if result.thrown then
        PrScanned(t, pr, reviews + [review], cfg, now) && !PrSucceeded(t, pr, reviews + [review], cfg, now)
      else PrUnderway(t, t2, pr, reviews + [review], cfg, now)
  {
    ReviewsGrow(t, pr, reviews, review, cfg, now);
    ScanPrGrows(t, pr, reviews, review, cfg, now);
    ThrownSplit(ScanPr(t, pr, reviews, |reviews|, cfg, now).1,
                Checked(t1, pr, CommentsOf(pr)[|reviews|], review, cfg, now).1);
  }

  /** The scan has dealt with the first pull requests, as many as `reviews`; `ok`: nothing threw. */
  ghost predicate ScanUpTo(t: Tables, t1: Tables, prs: seq<CheckedPr>, reviews: seq<seq<Option<int>>>,
                           candidates: seq<ReviewLimitCandidate>, found: nat, ok: bool, cfg: Config, now: int) {
    && Scanned(t, prs, reviews, cfg, now)
    && Reported(t, t1, prs, reviews, candidates, found, cfg, now)
    && (ok <==> Succeeded(t, prs, reviews, cfg, now))
  }

  lemma ScannedGrows(t: Tables, prs: seq<CheckedPr>, reviews: seq<seq<Option<int>>>, more: seq<Option<int>>,
                     cfg: Config, now: int)
    requires Scanned(t, prs, reviews, cfg, now) && |reviews| < |prs|
    requires PrScanned(ScanPrs(t, prs, reviews, |reviews|, cfg, now).0, prs[|reviews|], more, cfg, now)
    ensures Scanned(t, prs, reviews + [more], cfg, now)
  {
    forall i | 0 <= i <= |reviews| ensures PrScannedAt(t, prs, reviews + [more], i, cfg, now) {
      ScanPrsAgree(t, prs, reviews, more, i, cfg, now);
      assert i < |reviews| ==> PrScannedAt(t, prs, reviews, i, cfg, now);
    }
  }

  lemma SucceededGrows(t: Tables, prs: seq<CheckedPr>, reviews: seq<seq<Option<int>>>, more: seq<Option<int>>,
                       cfg: Config, now: int)
    requires ScanShape(prs, reviews) && ScanShape(prs, reviews + [more])
    ensures Succeeded(t, prs, reviews + [more], cfg, now) <==>
      (&& Succeeded(t, prs, reviews, cfg, now)
       && PrSucceeded(ScanPrs(t, prs, reviews, |reviews|, cfg, now).0, prs[|reviews|], more, cfg, now))
  {
    forall i | 0 <= i < |reviews|
      ensures PrSucceededAt(t, prs, reviews + [more], i, cfg, now) <==> PrSucceededAt(t, prs, reviews, i, cfg, now)
    {
      ScanPrsAgree(t, prs, reviews, more, i, cfg, now);
    }
    ScanPrsAgree(t, prs, reviews, more, |reviews|, cfg, now);
    assert PrSucceededAt(t, prs, reviews + [more], |reviews|, cfg, now) <==>
      PrSucceeded(ScanPrs(t, prs, reviews, |reviews|, cfg, now).0, prs[|reviews|], more, cfg, now);
  }

  lemma ReportedGrows(t: Tables, t1: Tables, t2: Tables, prs: seq<CheckedPr>, reviews: seq<seq<Option<int>>>,
                      candidates: seq<ReviewLimitCandidate>, found: nat, more: seq<Option<int>>,
                      newCandidates: seq<ReviewLimitCandidate>, newFound: nat, cfg: Config, now: int)
    requires |reviews| < |prs| && Reported(t, t1, prs, reviews, candidates, found, cfg, now)
    requires PrReported(t1, t2, prs[|reviews|], more, newCandidates, newFound, cfg, now)
    ensures Reported(t, t2, prs, reviews + [more], candidates + newCandidates, found + newFound, cfg, now)
  {
    ScanPrsAgree(t, prs, reviews, more, |reviews|, cfg, now);
    ResultsJoin(ScanPrs(t, prs, reviews, |reviews|, cfg, now).1, ScanPr(t1, prs[|reviews|], more, |more|, cfg, now).1);
  }

  lemma PrAdded(t: Tables, t1: Tables, t2: Tables, prs: seq<CheckedPr>, reviews: seq<seq<Option<int>>>,
                candidates: seq<ReviewLimitCandidate>, found: nat, ok: bool, more: seq<Option<int>>,
                newCandidates: seq<ReviewLimitCandidate>, newFound: nat, cfg: Config, now: int)
    requires |reviews| < |prs| && ScanUpTo(t, t1, prs, reviews, candidates, found, ok, cfg, now)
    requires PrScanned(t1, prs[|reviews|], more, cfg, now)
    requires PrReported(t1, t2, prs[|reviews|], more, newCandidates, newFound, cfg, now)
    ensures ScanUpTo(t, t2, prs, reviews + [more], candidates + newCandidates, found + newFound,
                     ok && PrSucceeded(t1, prs[|reviews|], more, cfg, now), cfg, now)
  {
    ScannedGrows(t, prs, reviews, more, cfg, now);
    SucceededGrows(t, prs, reviews, more, cfg, now);
    ReportedGrows(t, t1, t2, prs, reviews, candidates, found, more, newCandidates, newFound, cfg, now);
  }

  /** What the next turn of the outer loop may rely on. */
  lemma ScanGoesOn(t: Tables, t1: Tables, prs: seq<CheckedPr>, reviews: seq<seq<Option<int>>>,
                   candidates: seq<ReviewLimitCandidate>, found: nat, ok: bool, cfg: Config, now: int)
    requires cfg.Valid() && AllApart(prs) && SystemInv(t) && AllAtHome(t, prs)
    requires ScanUpTo(t, t1, prs, reviews, candidates, found, ok, cfg, now)
    ensures SystemInv(t1) && AllAtHome(t1, prs)
  {
    ScanKeepsAll(t, prs, reviews, |reviews|, cfg, now, false);
  }

  /** What the whole scan leaves. */
  lemma ScanEnds(t: Tables, t1: Tables, prs: seq<CheckedPr>, reviews: seq<seq<Option<int>>>,
                 candidates: seq<ReviewLimitCandidate>, found: nat, ok: bool, cfg: Config, now: int)
    requires cfg.Valid() && AllApart(prs) && SystemInv(t) && AllAtHome(t, prs) && |reviews| == |prs|
    requires ScanUpTo(t, t1, prs, reviews, candidates, found, ok, cfg, now)
    ensures SystemInv(t1) && Onward(t, t1)
    ensures ok && AllTimely(prs, now) && LogInv(t.comments, now) ==> AllQuiet(t1, prs, |prs|)
  {
    ScanKeepsAll(t, prs, reviews, |prs|, cfg, now, AllTimely(prs, now));
  }
}
