/** The scheduler's gates over whole runs: what a post needs, how long a pause holds, and how long a request waits. */
module Gates {
  import opened Domain
  import opened Transitions
  import opened QueueInvariant
  import opened EnqueueSpec
  import opened TriggerSpec
  import opened DetectionSpec
  import opened CommentLog
  import opened Steps
  import opened Runs
  import QueueOrder

  // ---------------------------------------------------------------- behind the gates

  /** A request was made and not acknowledged since. */
  predicate Waits(requested: Option<int>, acknowledged: Option<int>) {
    requested.Some? && !(acknowledged.Some? && acknowledged.value >= requested.value)
  }

  predicate Unacknowledged(p: PullRequest) {
    Waits(p.lastReviewRequestedAt, p.lastAcknowledgedAt)
  }

  /** A scheduler post needs every gate open: no pause, no unacknowledged request or one as old as the spacing, no
      account cooldown; and a pending row past its own cooldown and older than the spacing. */
  lemma SchedulerPostsBehindGates(r: Run, cfg: Config, i: nat)
    requires IsRun(r, cfg) && i < |r.steps| && r.steps[i].action.TriggerFromTick?
    ensures
      var t, now, id := r.states[i], r.steps[i].now, r.steps[i].action.id;
      && !t.paused && (t.nextReviewAt.Some? ==> t.nextReviewAt.value <= now)
      && ((exists p :: p in t.prs && Unacknowledged(t.prs[p])) ==>
            exists p :: p in t.prs && Unacknowledged(t.prs[p])
                        && now - t.prs[p].lastReviewRequestedAt.value >= cfg.retriggerSpacing)
      && id in t.queue && t.queue[id].status == Pending && now - t.queue[id].createdAt >= cfg.retriggerSpacing
      && (t.queue[id].cooldownUntil.Some? ==> t.queue[id].cooldownUntil.value <= now)
  {
    var t := r.states[i];
    assert Enabled(t, r.steps[i], cfg);
    assert forall p :: p in t.prs ==> (Unacknowledged(t.prs[p]) <==> AwaitsAcknowledgement(t.prs[p]));
  }

  // ---------------------------------------------------------------- the pause

  lemma EnqueueKeepsPaused(t: Tables, d: EnqueueData, lookback: int, now: int)
    requires QueueOk(t) && CommentOf(t.queue, d.commentId, d.key)
    ensures var o := Enqueue(t, d, lookback, now); o.Done? ==> o.tables.paused == t.paused
  {
    EnqueueAdvances(t, d, lookback, now);
  }

  lemma DetectKeepsPaused(t: Tables, c: Detected, review: Option<int>, cfg: Config, now: int)
    requires QueueOk(t) && CommentOf(t.queue, c.delivery.commentId, c.key)
    ensures var o := Handle(t, c, review, cfg, now); o.Handled? ==> o.tables.paused == t.paused
  {
    if c.delivery.pullRequestId in t.prs {
      EnqueueKeepsPaused(Noted(t, c.delivery, now), EnqueueDataOf(c, cfg.fallbackWait), cfg.detectionLookback, now);
    }
    hide Enqueue, QueueOk;
  }

  lemma NoteKeepsPaused(t: Tables, s: Step, cfg: Config)
    requires Enabled(t, s, cfg) && NoteAction(s.action) && !s.action.SetPaused?
    ensures ApplyNote(t, s, cfg).paused == t.paused
  {
    if s.action.Reorder? { QueueOrder.AssigningFrames(t, s.action.ids, |s.action.ids|); }
  }

  lemma TriggerKeepsPaused(t: Tables, s: Step, cfg: Config)
    requires Enabled(t, s, cfg) && TriggerAction(s.action)
    ensures ApplyTrigger(t, s, cfg).paused == t.paused
  {
    match s.action {
      case TriggerFromTick(id, gh) => SelectionEffects(t, id, gh, cfg, s.now, s.recordedAt);
      case TriggerFromDashboard(id, gh) => DashboardEffects(t, id, gh, cfg, s.now, s.recordedAt);
    }
    hide SchedulerTrigger, DashboardTrigger, OnlyPlainSince, CooldownFollows, RetriggerCounted, Later;
  }

  lemma StepKeepsPaused(t: Tables, s: Step, cfg: Config)
    requires QueueOk(t) && Enabled(t, s, cfg) && !s.action.SetPaused?
    ensures Apply(t, s, cfg).paused == t.paused
  {
    if NoteAction(s.action) {
      NoteKeepsPaused(t, s, cfg);
    } else if s.action.Detect? {
      DetectKeepsPaused(t, s.action.comment, s.action.review, cfg, s.now);
    } else if TriggerAction(s.action) {
      TriggerKeepsPaused(t, s, cfg);
    }
    hide ApplyNote, ApplyTrigger, Handle, QueueOk, RecordPost, Decide;
  }

  /** Step `i` pauses or resumes the scheduler, and is the last one before state `j` that does. */
  predicate LastPauses(r: Run, i: nat, j: nat) {
    && i < j <= |r.steps| && r.steps[i].action.SetPaused?
    && forall k :: i < k < j ==> !r.steps[k].action.SetPaused?
  }

  lemma StillPaused(r: Run, i: nat, j: nat)
    requires LastPauses(r, i, j)
    ensures i < j <= |r.steps| && r.steps[i].action.SetPaused?
    ensures i + 1 < j ==> LastPauses(r, i, j - 1) && !r.steps[j - 1].action.SetPaused?
  {
  }

  /** Whoever pauses or resumes the scheduler decides until the next who does. */
  lemma {:induction false} PauseHolds(r: Run, cfg: Config, i: nat, j: nat)
    requires cfg.Valid() && IsRun(r, cfg) && SystemInv(r.states[0]) && LastPauses(r, i, j)
    ensures j < |r.states| && r.states[j].paused == r.steps[i].action.paused
    decreases j - i
  {
    hide *;
    StillPaused(r, i, j);
    PauseStep(r, cfg, j - 1);
    if i + 1 < j { PauseHolds(r, cfg, i, j - 1); }
  }

  /** Between a pause and the next time somebody resumes, no step is a scheduler's trigger. */
  lemma PausedPostsNothing(r: Run, cfg: Config, i: nat, j: nat)
    requires cfg.Valid() && IsRun(r, cfg) && SystemInv(r.states[0]) && LastPauses(r, i, j) && j < |r.steps|
    requires r.steps[i].action.paused
    ensures !r.steps[j].action.TriggerFromTick?
  {
    PauseHolds(r, cfg, i, j);
    assert Enabled(r.states[j], r.steps[j], cfg);
  }

  lemma PauseStep(r: Run, cfg: Config, i: nat)
    requires cfg.Valid() && IsRun(r, cfg) && SystemInv(r.states[0]) && i < |r.steps|
    ensures i + 1 < |r.states|
    ensures r.states[i + 1].paused
      == if r.steps[i].action.SetPaused? then r.steps[i].action.paused else r.states[i].paused
  {
    hide SystemInv;
    RunKeepsInv(r, cfg, i);
    InvIsQueueOk(r.states[i]);
    if !r.steps[i].action.SetPaused? { StepKeepsPaused(r.states[i], r.steps[i], cfg); }
  }

  lemma InvIsQueueOk(t: Tables)
    requires SystemInv(t)
    ensures QueueOk(t)
  {
  }

  // ---------------------------------------------------------------- requests and acknowledgements

  /** When a review of the pull request was last requested. */
  function RequestedAt(t: Tables, pr: nat): Option<int> {
    if pr in t.prs then t.prs[pr].lastReviewRequestedAt else None
  }

  function AcknowledgedAt(t: Tables, pr: nat): Option<int> {
    if pr in t.prs then t.prs[pr].lastAcknowledgedAt else None
  }

  /** The step posted a retrigger comment on the pull request. */
  predicate PostsOn(t: Tables, s: Step, t': Tables, pr: nat) {
    && TriggerAction(s.action) && s.action.id in t.queue && t.queue[s.action.id].pullRequestId == Some(pr)
    && t'.posts != t.posts
  }

  predicate SameStamps(t: Tables, t': Tables, pr: nat) {
    RequestedAt(t', pr) == RequestedAt(t, pr) && AcknowledgedAt(t', pr) == AcknowledgedAt(t, pr)
  }

  predicate Stamped(t: Tables, s: Step, t': Tables, pr: nat) {
    && RequestedAt(t', pr) == (if PostsOn(t, s, t', pr) then Some(s.recordedAt) else RequestedAt(t, pr))
    && AcknowledgedAt(t', pr) == (if s.action == Acknowledge(pr) then Some(s.now) else AcknowledgedAt(t, pr))
  }

  lemma NotingKeepsStamps(t: Tables, c: Detected, now: int, pr: nat)
    requires c.delivery.pullRequestId in t.prs
    ensures SameStamps(t, Noted(t, c.delivery, now), pr)
    ensures SameStamps(t, VerdictRecorded(Noted(t, c.delivery, now), c, now), pr)
  {
  }

  lemma EnqueueKeepsPrs(t: Tables, c: Detected, cfg: Config, now: int)
    requires QueueOk(t) && CommentOf(t.queue, c.delivery.commentId, c.key)
    ensures var o := EnqueueDetected(t, c, cfg, now); o.Handled? ==> o.tables.prs == t.prs
  {
    EnqueueAdvances(t, EnqueueDataOf(c, cfg.fallbackWait), cfg.detectionLookback, now);
    hide Enqueue, QueueOk, RowsAdvance;
  }

  lemma HandlingKeepsStamps(t: Tables, c: Detected, review: Option<int>, cfg: Config, now: int, pr: nat)
    requires QueueOk(t) && CommentOf(t.queue, c.delivery.commentId, c.key)
    ensures var o := Handle(t, c, review, cfg, now); o.Handled? ==> SameStamps(t, o.tables, pr)
  {
    if c.delivery.pullRequestId in t.prs {
      NotingKeepsStamps(t, c, now, pr);
      EnqueueKeepsPrs(Noted(t, c.delivery, now), c, cfg, now);
    }
    hide EnqueueDetected, Noted, VerdictRecorded, QueueOk, Upserted;
  }

  lemma DetectStamps(t: Tables, s: Step, cfg: Config, pr: nat)
    requires QueueOk(t) && Enabled(t, s, cfg) && s.action.Detect?
    ensures Stamped(t, s, Apply(t, s, cfg), pr)
  {
    HandlingKeepsStamps(t, s.action.comment, s.action.review, cfg, s.now, pr);
    hide Handle, QueueOk;
  }

  lemma TriggerStamps(t: Tables, s: Step, cfg: Config, pr: nat)
    requires Enabled(t, s, cfg) && TriggerAction(s.action)
    ensures Stamped(t, s, ApplyTrigger(t, s, cfg), pr)
  {
    match s.action {
      case TriggerFromTick(id, gh) => SelectionEffects(t, id, gh, cfg, s.now, s.recordedAt);
      case TriggerFromDashboard(id, gh) => DashboardEffects(t, id, gh, cfg, s.now, s.recordedAt);
    }
    hide SchedulerTrigger, DashboardTrigger, OnlyPlainSince, CooldownFollows, Later;
  }

  lemma NoteStamps(t: Tables, s: Step, cfg: Config, pr: nat)
    requires Enabled(t, s, cfg) && NoteAction(s.action)
    ensures Stamped(t, s, ApplyNote(t, s, cfg), pr)
  {
    if s.action.Reorder? { QueueOrder.AssigningFrames(t, s.action.ids, |s.action.ids|); }
    hide QueueOrder.Normalized, QueueOrder.Lists, Upserted, Offered;
  }

  lemma ScanStamps(t: Tables, s: Step, cfg: Config, pr: nat)
    requires Enabled(t, s, cfg) && ScanAction(s.action)
    ensures Stamped(t, s, ApplyScan(t, s, cfg), pr)
  {
    hide Swept, SkipMarked, ResolvedAs;
  }

  lemma DetectorKeepsStamps(t: Tables, id: nat, item: QueueRow, w: Write, now: int, pr: nat)
    ensures SameStamps(t, Perform(t, id, item, w, now), pr)
  {
    hide Reopened, RunAdopted, ResolvedAs;
  }

  lemma ObservingKeepsStamps(t: Tables, p: nat, key: PrKey, state: PrState, head: Option<string>, pr: nat)
    ensures SameStamps(t, Observed(t, p, key, state, head), pr)
  {
  }

  /** The request is stamped by a post on the pull request, the acknowledgement by its acknowledgement, and by nothing
      else. */
  lemma StepStamps(t: Tables, s: Step, cfg: Config, pr: nat)
    requires QueueOk(t) && Enabled(t, s, cfg)
    ensures Stamped(t, s, Apply(t, s, cfg), pr)
  {
    if NoteAction(s.action) {
      NoteStamps(t, s, cfg, pr);
    } else if TriggerAction(s.action) {
      TriggerStamps(t, s, cfg, pr);
    } else if s.action.Detect? {
      DetectStamps(t, s, cfg, pr);
    } else if ScanAction(s.action) {
      ScanStamps(t, s, cfg, pr);
    } else if s.action.DetectorWrite? {
      DetectorKeepsStamps(t, s.action.id, s.action.item, s.action.write, s.now, pr);
    } else {
      ObservingKeepsStamps(t, s.action.pr, s.action.key, s.action.state, s.action.headSha, pr);
    }
    hide RequestedAt, AcknowledgedAt, ApplyNote, ApplyTrigger, ApplyScan, Enabled, Handle, Perform, Observed, QueueOk;
  }

  /** Step `i` acknowledges the pull request, and none from there to state `j` posts on it. */
  ghost predicate LastAcknowledges(r: Run, i: nat, j: nat, pr: nat) {
    && i < j <= |r.steps| < |r.states| && r.steps[i].action == Acknowledge(pr)
    && forall k :: i <= k < j ==> !PostsOn(r.states[k], r.steps[k], r.states[k + 1], pr)
  }

  lemma StepOfRun(r: Run, cfg: Config, k: nat, pr: nat)
    requires cfg.Valid() && IsRun(r, cfg) && r.states[0] == EMPTY_TABLES && k < |r.steps|
    ensures |r.states| == |r.steps| + 1 && Stamped(r.states[k], r.steps[k], r.states[k + 1], pr)
    ensures r.steps[k].now <= r.steps[k].recordedAt
    ensures k + 1 < |r.steps| ==> r.steps[k].recordedAt <= r.steps[k + 1].now
  {
    EmptyTablesAreOk(cfg.accountCooldown, 0);
    RunKeepsInv(r, cfg, k);
    assert Enabled(r.states[k], r.steps[k], cfg);
    StepStamps(r.states[k], r.steps[k], cfg, pr);
  }

  /** In a run from empty tables no request is stamped later than the latest step. */
  lemma {:induction false} RequestsAreNotAhead(r: Run, cfg: Config, n: nat, pr: nat)
    requires cfg.Valid() && IsRun(r, cfg) && r.states[0] == EMPTY_TABLES && n < |r.steps|
    requires RequestedAt(r.states[n], pr).Some?
    ensures RequestedAt(r.states[n], pr).value <= r.steps[n].now
  {
    assert n > 0;
    StepOfRun(r, cfg, n - 1, pr);
    if RequestedAt(r.states[n - 1], pr).Some? { RequestsAreNotAhead(r, cfg, n - 1, pr); }
  }

  lemma StillAcknowledged(r: Run, i: nat, j: nat, pr: nat)
    requires LastAcknowledges(r, i, j, pr)
    ensures i < j <= |r.steps| < |r.states| && r.steps[i].action == Acknowledge(pr)
    ensures !PostsOn(r.states[j - 1], r.steps[j - 1], r.states[j], pr)
    ensures i + 1 < j ==> LastAcknowledges(r, i, j - 1, pr)
  {
  }

  /** An acknowledged pull request waits for no acknowledgement until the next post on it. */
  lemma {:induction false} AcknowledgedUntilNextPost(r: Run, cfg: Config, i: nat, j: nat, pr: nat)
    requires cfg.Valid() && IsRun(r, cfg) && r.states[0] == EMPTY_TABLES && LastAcknowledges(r, i, j, pr)
    ensures !Waits(RequestedAt(r.states[j], pr), AcknowledgedAt(r.states[j], pr))
    decreases j - i
  {
    hide IsRun, LastAcknowledges, PostsOn, RequestedAt, AcknowledgedAt;
    StillAcknowledged(r, i, j, pr);
    StepOfRun(r, cfg, j - 1, pr);
    if RequestedAt(r.states[j - 1], pr).Some? { RequestsAreNotAhead(r, cfg, j - 1, pr); }
    if i + 1 < j {
      AcknowledgedUntilNextPost(r, cfg, i, j - 1, pr);
    }
  }

  /** A post makes its pull request wait, unless it was acknowledged at that very instant. */
  lemma PostsWait(r: Run, cfg: Config, i: nat, pr: nat)
    requires cfg.Valid() && IsRun(r, cfg) && r.states[0] == EMPTY_TABLES && i < |r.steps|
    requires PostsOn(r.states[i], r.steps[i], r.states[i + 1], pr)
    ensures
      var t', acknowledged := r.states[i + 1], AcknowledgedAt(r.states[i], pr);
      && RequestedAt(t', pr) == Some(r.steps[i].recordedAt)
      && (Waits(RequestedAt(t', pr), AcknowledgedAt(t', pr)) <==>
            acknowledged.None? || acknowledged.value < r.steps[i].recordedAt)
  {
    StepOfRun(r, cfg, i, pr);
  }
}
