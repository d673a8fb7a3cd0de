/** Runs from the empty tables on which documented properties fail. */
module Witnesses {
  import opened Domain
  import opened Transitions
  import opened QueueInvariant
  import opened EnqueueSpec
  import opened TriggerSpec
  import opened DetectionSpec
  import opened CommentLog
  import opened Steps
  import opened SystemInvariant
  import opened Runs
  import opened IsoText
  import opened CooldownText
  import CommentUrl

  // ---------------------------------------------------------------- pull requests with a pending row each

  function KeyOf(k: nat): PrKey {
    PrKey("o/r", k)
  }

  lemma KeysSplit(k: nat)
    ensures CommentUrl.SplitRepo(KeyOf(k).repo).Some?
  {
    CommentUrl.SplitsExactly("o/r", "o", "r");
  }

  /** Comment `id` on pull request `k`: a skipped review, edited at `at`. */
  function SkippedComment(k: nat, id: int, at: int): Detected {
    Detected("", KeyOf(k), "", Delivery(id, k, at, CommentContent("", ReviewSkipped, None, None, at)), None)
  }

  /** Pull request `k` and its row `k`, pending without a cooldown since the instant 0. */
  predicate HasPendingRow(t: Tables, k: nat, attempts: nat, commentId: int) {
    && k in t.prs && t.prs[k].key == KeyOf(k) && t.prs[k].lastReviewRequestedAt.None?
    && k in t.queue && t.queue[k].key == KeyOf(k) && t.queue[k].pullRequestId == Some(k)
    && t.queue[k].status == Pending && t.queue[k].createdAt == 0 && t.queue[k].cooldownUntil.None?
    && t.queue[k].attempts == attempts && t.queue[k].commentId == commentId
  }

  /** `n` pull requests are registered, the first `k` of them with such a row and a comment, and nothing was posted. */
  ghost predicate Seeded(t: Tables, n: nat, k: nat) {
    && (forall p :: p in t.prs <==> 0 <= p < n)
    && (forall p :: p in t.prs ==> t.prs[p].key == KeyOf(p) && t.prs[p].lastReviewRequestedAt.None?)
    && (forall id :: id in t.queue <==> 0 <= id < k)
    && (forall i: nat :: i < k ==> HasPendingRow(t, i, 0, i))
    && (forall c :: c in t.comments ==>
          0 <= c < k && t.comments[c].pullRequestId == c && !IsVerdict(t.comments[c].content.kind))
    && t.nextQueueId == k && t.posts == [] && t.nextReviewAt.None? && !t.paused
  }

  /** The tables after the first comment of pull request `k` was detected. */
  predicate Entered(t: Tables, t': Tables, k: nat, cfg: Config, now: int) {
    && t'.queue == t.queue[t.nextQueueId := NewRow(EnqueueDataOf(SkippedComment(k, k, now), cfg.fallbackWait), now)]
    && t'.nextQueueId == t.nextQueueId + 1
    && k in t.prs && t'.prs == t.prs[k := LimitDetected(t.prs[k], now)]
    && t'.comments == Upserted(t.comments, SkippedComment(k, k, now).delivery, now)
    && t'.posts == t.posts && t'.nextReviewAt == t.nextReviewAt && t'.paused == t.paused
  }

  /** A first skipped comment of a pull request without a row gets a pending row without a cooldown. */
  lemma FirstCommentEnters(t: Tables, k: nat, cfg: Config, now: int)
    requires k in t.prs && (forall id :: id in t.queue ==> t.queue[id].key != KeyOf(k) && t.queue[id].commentId != k)
    ensures
      var o := Handle(t, SkippedComment(k, k, now), None, cfg, now);
      o.Handled? && Entered(t, o.tables, k, cfg, now)
  {
    var c := SkippedComment(k, k, now);
    var noted, d := Noted(t, c.delivery, now), EnqueueDataOf(c, cfg.fallbackWait);
    assert RowIn(noted.queue, d.key, Retriggered).None?;
    assert ResolvedOfComment(noted, d).None?;
    assert !Violates(noted.queue, noted.nextQueueId, NewRow(d, now));
  }

  function ObserveStep(k: nat): Step {
    Step(ObservePr(k, KeyOf(k), PrState.Open, None), 0, 0)
  }

  function DetectStep(k: nat): Step {
    Step(Detect(SkippedComment(k, k, 0), None), 0, 0)
  }

  lemma ObserveOne(t: Tables, k: nat, cfg: Config)
    requires Seeded(t, k, k)
    ensures Enabled(t, ObserveStep(k), cfg) && Seeded(Apply(t, ObserveStep(k), cfg), k + 1, k)
  {
    var t1 := Observed(t, k, KeyOf(k), PrState.Open, None);
    assert Apply(t, ObserveStep(k), cfg) == t1;
    forall i: nat | i < k ensures HasPendingRow(t1, i, 0, i) { assert HasPendingRow(t, i, 0, i); }
  }

  /** A handled detection is what its step makes of the tables. */
  lemma DetectApplies(t: Tables, s: Step, cfg: Config)
    requires Enabled(t, s, cfg) && s.action.Detect? && Handle(t, s.action.comment, s.action.review, cfg, s.now).Handled?
    ensures Apply(t, s, cfg) == Handle(t, s.action.comment, s.action.review, cfg, s.now).tables
  {
  }

  lemma DetectIsEnabled(t: Tables, k: nat, cfg: Config)
    requires Seeded(t, k + 1, k)
    ensures Enabled(t, DetectStep(k), cfg)
    ensures k in t.prs && forall id :: id in t.queue ==> t.queue[id].key != KeyOf(k) && t.queue[id].commentId != k
  {
    forall id | id in t.queue ensures t.queue[id].key != KeyOf(k) && t.queue[id].commentId != k {
      assert HasPendingRow(t, id, 0, id);
    }
  }

  lemma EnteredIsSeeded(t: Tables, t': Tables, k: nat, cfg: Config)
    requires Seeded(t, k + 1, k) && Entered(t, t', k, cfg, 0)
    ensures Seeded(t', k + 1, k + 1)
  {
    forall i: nat | i < k + 1 ensures HasPendingRow(t', i, 0, i) { assert i < k ==> HasPendingRow(t, i, 0, i); }
  }

  lemma DetectOne(t: Tables, k: nat, cfg: Config)
    requires Seeded(t, k + 1, k)
    ensures Enabled(t, DetectStep(k), cfg) && Seeded(Apply(t, DetectStep(k), cfg), k + 1, k + 1)
  {
    hide Seeded, Entered, Enabled, Apply, Handle, SkippedComment;
    DetectIsEnabled(t, k, cfg);
    FirstCommentEnters(t, k, cfg, 0);
    DetectApplies(t, DetectStep(k), cfg);
    EnteredIsSeeded(t, Apply(t, DetectStep(k), cfg), k, cfg);
  }

  lemma NothingSeeded()
    ensures Seeded(EMPTY_TABLES, 0, 0)
  {
  }

  lemma NoSteps(cfg: Config)
    ensures RunUntil(Still(EMPTY_TABLES), EMPTY_TABLES, cfg, 0) && Last(Still(EMPTY_TABLES)) == EMPTY_TABLES
  {
  }

  /** The run that registers `k` pull requests and detects a skipped comment of each at the instant 0. */
  lemma {:induction false} Seed(cfg: Config, k: nat) returns (run: Run)
    ensures RunUntil(run, EMPTY_TABLES, cfg, 0) && |run.steps| == 2 * k && |run.states| == 2 * k + 1
    ensures Seeded(Last(run), k, k)
  {
    hide RunUntil, Seeded, Enabled, Apply;
    if k == 0 {
      run := Still(EMPTY_TABLES);
      NothingSeeded();
      NoSteps(cfg);
    } else {
      run := Seed(cfg, k - 1);
      ObserveOne(Last(run), k - 1, cfg);
      run := StepRuns(run, EMPTY_TABLES, cfg, ObserveStep(k - 1));
      DetectOne(Last(run), k - 1, cfg);
      run := StepRuns(run, EMPTY_TABLES, cfg, DetectStep(k - 1));
    }
  }

  // ---------------------------------------------------------------- attempts beyond the cap

  /** The source comment still asks for a review; `post` is what GitHub answers to the retrigger comment. */
  function Asking(post: PostAnswer): Answers {
    Answers(Fetched(Body(false, ReviewSkipped, false, false, None, None)), NoLatest, Fetch.Gone, post, "")
  }

  /** The source comment does not ask any more, and the latest limit comment is another one. */
  function Moving(commentId: int, updatedAt: int, wait: Option<int>): Answers {
    Answers(Fetched(Body(false, Unknown, false, false, None, None)), Latest(commentId, "", updatedAt),
            Fetched(Body(false, ReviewLimited, true, false, None, wait)), PostFailed(false), "")
  }

  /** One pull request with one row, pending after `n` attempts for comment `n`, and nothing in its way at `at`. */
  ghost predicate Moved(t: Tables, n: nat, at: int) {
    && (forall p :: p in t.prs <==> p == 0) && (forall id :: id in t.queue <==> id == 0)
    && HasPendingRow(t, 0, n, n)
    && (forall c :: c in t.comments ==> t.comments[c].pullRequestId == 0 && !IsVerdict(t.comments[c].content.kind))
    && t.nextQueueId == 1 && (t.nextReviewAt.Some? ==> t.nextReviewAt.value <= at) && !t.paused
  }

  lemma SeededIsMoved(t: Tables, at: int)
    requires Seeded(t, 1, 1)
    ensures Moved(t, 0, at)
  {
    assert HasPendingRow(t, 0, 0, 0);
  }

  lemma MovedMeans(t: Tables, n: nat, at: int)
    requires Moved(t, n, at)
    ensures 0 in t.queue && t.queue[0].status == Pending && t.queue[0].attempts == n
  {
  }

  /** The scheduler selects the row, and the latest limit comment is a new one whose wait has just passed. */
  function MoveStep(n: nat, cfg: Config): Step {
    var at := cfg.retriggerSpacing;
    Step(TriggerFromTick(0, Moving(n + 1, at - cfg.fallbackWait - cfg.limitBuffer, None)), at, at)
  }

  /** The row moves to the new comment, since no other row exists. */
  lemma RowMoves(t: Tables, n: nat, cfg: Config)
    requires cfg.Valid() && Moved(t, n, cfg.retriggerSpacing) && ValidTime(cfg.retriggerSpacing + cfg.accountCooldown)
    ensures
      var at, gh := cfg.retriggerSpacing, MoveStep(n, cfg).action.answers;
      Triggerable(t, 0) && Moved(SchedulerTrigger(t, 0, gh, cfg, at, at), n + 1, at)
  {
    var gh := MoveStep(n, cfg).action.answers;
    KeysSplit(0);
    RescheduledExactlyWhen(t.queue[0], gh, cfg);
    var p := Decide(t.queue[0], gh, cfg);
    hide Decide;
    assert !Violates(t.queue, 0,
                     Rescheduled(t.queue[0], p.url, p.commentId, p.runId, p.original, cfg.retriggerSpacing));
  }

  lemma MoveOnce(t: Tables, n: nat, cfg: Config)
    requires cfg.Valid() && Moved(t, n, cfg.retriggerSpacing) && ValidTime(cfg.retriggerSpacing + cfg.accountCooldown)
    ensures Enabled(t, MoveStep(n, cfg), cfg)
    ensures Moved(Apply(t, MoveStep(n, cfg), cfg), n + 1, cfg.retriggerSpacing)
  {
    RowMoves(t, n, cfg);
    hide SchedulerTrigger;
  }

  /** Against the documented cap: for every `n` there is a run in which one row is selected `n` times and is still
      pending, with `n` attempts. */
  lemma {:induction false} ReschedulesAreNotCapped(cfg: Config, n: nat) returns (run: Run)
    requires cfg.Valid() && ValidTime(cfg.retriggerSpacing + cfg.accountCooldown)
    ensures RunUntil(run, EMPTY_TABLES, cfg, cfg.retriggerSpacing) && |run.steps| == n + 2 && |run.states| == n + 3
    ensures forall k :: 2 <= k < |run.steps| ==> run.steps[k].action.TriggerFromTick? && run.steps[k].action.id == 0
    ensures 0 in Last(run).queue && Last(run).queue[0].status == Pending && Last(run).queue[0].attempts == n
    ensures Moved(Last(run), n, cfg.retriggerSpacing)
  {
    hide IsRun, Seeded, Moved, Enabled, Apply;
    if n == 0 {
      run := Seed(cfg, 1);
      SeededIsMoved(Last(run), cfg.retriggerSpacing);
    } else {
      run := ReschedulesAreNotCapped(cfg, n - 1);
      MoveOnce(Last(run), n - 1, cfg);
      run := StepRuns(run, EMPTY_TABLES, cfg, MoveStep(n - 1, cfg));
    }
    MovedMeans(Last(run), n, cfg.retriggerSpacing);
  }

  /** The scheduler selects the row and GitHub refuses the post for good. */
  function RefuseStep(cfg: Config): Step {
    Step(TriggerFromTick(0, Asking(PostFailed(true))), cfg.retriggerSpacing, cfg.retriggerSpacing)
  }

  /** The row failed after `n` attempts at `at`. */
  ghost predicate GivenUp(t: Tables, n: nat, at: int) {
    && (forall p :: p in t.prs <==> p == 0) && t.prs[0].key == KeyOf(0)
    && (forall id :: id in t.queue <==> id == 0) && t.nextQueueId == 1
    && (forall c :: c in t.comments ==> t.comments[c].pullRequestId == 0 && !IsVerdict(t.comments[c].content.kind))
    && t.queue[0].key == KeyOf(0) && t.queue[0].commentId == n && t.queue[0].attempts == n
    && t.queue[0].status == Resolved && t.queue[0].resolution == Some(Failed) && t.queue[0].resolvedAt == Some(at)
  }

  lemma RefusedOnce(t: Tables, n: nat, cfg: Config)
    requires cfg.Valid() && Moved(t, n, cfg.retriggerSpacing) && ValidTime(cfg.retriggerSpacing + cfg.accountCooldown)
    ensures Enabled(t, RefuseStep(cfg), cfg) && GivenUp(Apply(t, RefuseStep(cfg), cfg), n, cfg.retriggerSpacing)
  {
    KeysSplit(0);
    PostsExactlyWhenAsked(t.queue[0], Asking(PostFailed(true)), cfg);
    assert Apply(t, RefuseStep(cfg), cfg) == TerminalFailure(t, 0, cfg.retriggerSpacing);
  }

  /** The comment of the failed row is edited, and seen once the guard window has passed. */
  function ReopenStep(n: nat, cfg: Config): Step {
    var now := cfg.retriggerSpacing + COMPLETED_GUARD_WINDOW + 1;
    Step(Detect(SkippedComment(0, n, cfg.retriggerSpacing + 1), None), now, now)
  }

  lemma EditedCommentReopens(t: Tables, d: EnqueueData, n: nat, at: int, lookback: int, now: int)
    requires (forall id :: id in t.queue <==> id == 0) && t.nextQueueId == 1 && t.queue[0].key == d.key == KeyOf(0)
    requires t.queue[0].commentId == d.commentId
    requires t.queue[0].status == Resolved && t.queue[0].resolution == Some(Failed) && t.queue[0].resolvedAt == Some(at)
    requires d.cooldownUntil.None? && d.commentUpdatedAt.Some? && d.commentUpdatedAt.value > at
    requires now > at + COMPLETED_GUARD_WINDOW
    ensures Enqueue(t, d, lookback, now) == ReopenResolved(t, d, 0) && Enqueue(t, d, lookback, now).Done?
  {
    assert RowIn(t.queue, d.key, Retriggered).None? && RowIn(t.queue, d.key, Pending).None?;
    assert ByComment(t.queue, d.commentId) == Some(0) by { assert ByComment(t.queue, d.commentId).Some?; }
    assert 0 in t.queue && Violates(t.queue, t.nextQueueId, NewRow(d, now));
  }

  lemma GivenUpReopens(t: Tables, n: nat, cfg: Config)
    requires GivenUp(t, n, cfg.retriggerSpacing)
    ensures
      var s := ReopenStep(n, cfg);
      && Enabled(t, s, cfg) && Handle(t, s.action.comment, None, cfg, s.now).Handled?
      && var t' := Handle(t, s.action.comment, None, cfg, s.now).tables;
         0 in t'.queue && t'.queue[0].status == Pending && t'.queue[0].attempts == n
  {
    var s := ReopenStep(n, cfg);
    var c := s.action.comment;
    var noted, d := Noted(t, c.delivery, s.now), EnqueueDataOf(c, cfg.fallbackWait);
    EditedCommentReopens(noted, d, n, cfg.retriggerSpacing, cfg.detectionLookback, s.now);
  }

  /** Against the documented reset: for every `n` there is a run that ends with the reopening of a failed row, which
      comes back with its `n` attempts. */
  lemma ReopeningKeepsAttempts(cfg: Config, n: nat) returns (run: Run)
    requires cfg.Valid() && ValidTime(cfg.retriggerSpacing + cfg.accountCooldown)
    ensures IsRun(run, cfg) && run.states[0] == EMPTY_TABLES && |run.steps| == n + 4
    ensures GivenUp(run.states[n + 3], n, cfg.retriggerSpacing)
    ensures 0 in Last(run).queue && Last(run).queue[0].status == Pending && Last(run).queue[0].attempts == n
  {
    run := ReschedulesAreNotCapped(cfg, n);
    RefusedOnce(Last(run), n, cfg);
    run := StepRuns(run, EMPTY_TABLES, cfg, RefuseStep(cfg));
    GivenUpReopens(Last(run), n, cfg);
    DetectApplies(Last(run), ReopenStep(n, cfg), cfg);
    run := StepRuns(run, EMPTY_TABLES, cfg, ReopenStep(n, cfg));
  }

  // ---------------------------------------------------------------- a cooldown after the year 9999

  /** The defaults of the configuration schema. */
  const DEFAULT_CONFIG := Config(3_600_000, 7_200_000, 3_600_000, 60_000, 10, 259_200_000, 180_000, 5)

  /** An instant of the year 2027, and one of the year 11533. */
  const MOMENT := 1_800_000_000_000
  const FAR_MOMENT := 301_800_000_000_000

  /** What the scheduler reads off a limit comment of this moment that asks to wait for 4,999,999,999 minutes. */
  function FarMoveStep(): Step {
    Step(TriggerFromTick(0, Moving(2, MOMENT, Some(FAR_MOMENT - MOMENT - DEFAULT_CONFIG.limitBuffer))), MOMENT, MOMENT)
  }

  function DashboardPostStep(): Step {
    Step(TriggerFromDashboard(0, Asking(PostOk(""))), MOMENT, MOMENT)
  }

  function OfferStep(): Step {
    Step(OfferNextReview(MOMENT), MOMENT, MOMENT)
  }

  function AcknowledgeStep(): Step {
    Step(Acknowledge(0), MOMENT, MOMENT)
  }

  function TickPostStep(): Step {
    Step(TriggerFromTick(1, Asking(PostOk(""))), MOMENT, MOMENT)
  }

  /** Two pull requests; the second one's row is still as it was created. */
  ghost predicate SecondWaits(t: Tables) {
    && (forall p :: p in t.prs <==> 0 <= p < 2) && (forall id :: id in t.queue <==> 0 <= id < 2)
    && HasPendingRow(t, 1, 0, 1) && !t.paused
  }

  /** The wait of the limit comment has moved the account cooldown beyond the year 9999. */
  ghost predicate FarAway(t: Tables) {
    SecondWaits(t) && HasPendingRow(t, 0, 1, 2) && t.posts == [] && t.nextReviewAt == Some(FAR_MOMENT)
  }

  /** And the dashboard has posted for the first pull request. */
  ghost predicate DashboardPosted(t: Tables, next: int, acknowledged: bool) {
    && SecondWaits(t) && t.posts == [Post(DashboardRetriggerNow, MOMENT, MOMENT)] && t.nextReviewAt == Some(next)
    && (acknowledged ==> t.prs[0].lastReviewRequestedAt == Some(MOMENT) == t.prs[0].lastAcknowledgedAt)
    && (!acknowledged ==> t.prs[0].lastReviewRequestedAt == Some(MOMENT))
  }

  lemma FarMove(t: Tables)
    requires Seeded(t, 2, 2)
    ensures Enabled(t, FarMoveStep(), DEFAULT_CONFIG) && FarAway(Apply(t, FarMoveStep(), DEFAULT_CONFIG))
  {
    assert HasPendingRow(t, 0, 0, 0) && HasPendingRow(t, 1, 0, 1);
    var gh := FarMoveStep().action.answers;
    KeysSplit(0);
    RescheduledExactlyWhen(t.queue[0], gh, DEFAULT_CONFIG);
    var p := Decide(t.queue[0], gh, DEFAULT_CONFIG);
    assert !Violates(t.queue, 0, Rescheduled(t.queue[0], p.url, p.commentId, p.runId, p.original, MOMENT));
    assert Apply(t, FarMoveStep(), DEFAULT_CONFIG) == ApplyReschedule(t, 0, p, DEFAULT_CONFIG, MOMENT);
  }

  lemma DashboardPost(t: Tables)
    requires FarAway(t)
    ensures Enabled(t, DashboardPostStep(), DEFAULT_CONFIG)
    ensures DashboardPosted(Apply(t, DashboardPostStep(), DEFAULT_CONFIG), FAR_MOMENT, false)
  {
    var gh := DashboardPostStep().action.answers;
    KeysSplit(0);
    PostsExactlyWhenAsked(t.queue[0], gh, DEFAULT_CONFIG);
    assert Apply(t, DashboardPostStep(), DEFAULT_CONFIG) == DashboardTrigger(t, 0, gh, DEFAULT_CONFIG, MOMENT, MOMENT);
  }

  /** The poll offers an instant of this moment: its text comes after that of the stored one. */
  lemma OfferMovesBack(t: Tables)
    requires DashboardPosted(t, FAR_MOMENT, false)
    ensures Enabled(t, OfferStep(), DEFAULT_CONFIG)
    ensures DashboardPosted(Apply(t, OfferStep(), DEFAULT_CONFIG), MOMENT, false)
  {
    FarCooldownGivesWay();
  }

  lemma AcknowledgePost(t: Tables)
    requires DashboardPosted(t, MOMENT, false)
    ensures Enabled(t, AcknowledgeStep(), DEFAULT_CONFIG)
    ensures DashboardPosted(Apply(t, AcknowledgeStep(), DEFAULT_CONFIG), MOMENT, true)
  {
  }

  lemma TickPost(t: Tables)
    requires DashboardPosted(t, MOMENT, true)
    ensures Enabled(t, TickPostStep(), DEFAULT_CONFIG)
    ensures Apply(t, TickPostStep(), DEFAULT_CONFIG).posts
      == [Post(DashboardRetriggerNow, MOMENT, MOMENT), Post(Scheduler, MOMENT, MOMENT)]
  {
    var gh := TickPostStep().action.answers;
    KeysSplit(1);
    PostsExactlyWhenAsked(t.queue[1], gh, DEFAULT_CONFIG);
    assert Apply(t, TickPostStep(), DEFAULT_CONFIG) == SchedulerTrigger(t, 1, gh, DEFAULT_CONFIG, MOMENT, MOMENT);
  }

  /** Beyond the year 9999 the spacing of the posts fails: a run under the default configuration in which a scheduler
      post begins at the very instant of an earlier post. */
  lemma SpacingFailsAfterYear9999() returns (run: Run)
    ensures IsRun(run, DEFAULT_CONFIG) && DEFAULT_CONFIG.Valid() && run.states[0] == EMPTY_TABLES
    ensures
      var posts := Last(run).posts;
      && |posts| == 2 && posts[1].source == Scheduler
      && posts[1].gatedAt < posts[0].recordedAt + DEFAULT_CONFIG.accountCooldown
  {
    hide IsRun, Enabled, Apply, Seeded, FarAway, DashboardPosted;
    run := Seed(DEFAULT_CONFIG, 2);
    FarMove(Last(run));
    run := StepRuns(run, EMPTY_TABLES, DEFAULT_CONFIG, FarMoveStep());
    DashboardPost(Last(run));
    run := StepRuns(run, EMPTY_TABLES, DEFAULT_CONFIG, DashboardPostStep());
    OfferMovesBack(Last(run));
    run := StepRuns(run, EMPTY_TABLES, DEFAULT_CONFIG, OfferStep());
    AcknowledgePost(Last(run));
    run := StepRuns(run, EMPTY_TABLES, DEFAULT_CONFIG, AcknowledgeStep());
    TickPost(Last(run));
    run := StepRuns(run, EMPTY_TABLES, DEFAULT_CONFIG, TickPostStep());
  }
}
