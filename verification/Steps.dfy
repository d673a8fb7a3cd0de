/** The system as a state machine: every transaction of the three loops and of the dashboard is a step. */
module Steps {
  import opened Domain
  import opened Transitions
  import opened QueueInvariant
  import opened EnqueueSpec
  import opened TriggerSpec
  import opened DetectionSpec
  import opened CommentLog
  import opened IsoText
  import opened CooldownText
  import QueueOrder

  datatype Action =
    | Detect(comment: Detected, review: Option<int>)
    | RecordWalkthrough(delivery: Delivery)
    | StoreEdit(delivery: Delivery)
    | ObserveRunId(key: PrKey)
    | Prune(id: nat, merged: bool)
    | ResolveScanned(id: nat, merged: bool)
    | SweepStale
    | MarkSkipped(id: nat, reason: SkipReason)
    | TriggerFromTick(id: nat, answers: Answers)
    | TriggerFromDashboard(id: nat, answers: Answers)
    | ResolveByHand(id: nat)
    | DetectorWrite(id: nat, item: QueueRow, write: Write)
    | ObservePr(pr: nat, key: PrKey, state: PrState, headSha: Option<string>)
    | Acknowledge(pr: nat)
    | OfferNextReview(at: int)
    | Reorder(ids: seq<nat>)
    | SetPaused(paused: bool)

  /** `now` is the clock at the start of the step; a post is recorded no earlier, at `recordedAt`. */
  datatype Step = Step(action: Action, now: int, recordedAt: int)

  /** The scheduler's gates, and the filters of its selection loop, for row `id`. */
  predicate GatesOpen(t: Tables, cfg: Config, now: int) {
    && !t.paused
    && !AcknowledgementHold(t.prs, cfg.retriggerSpacing, now)
    && (t.nextReviewAt.Some? ==> t.nextReviewAt.value <= now)
  }

  predicate Due(r: QueueRow, cfg: Config, now: int) {
    && (r.cooldownUntil.Some? ==> r.cooldownUntil.value <= now)
    && now - r.createdAt >= cfg.retriggerSpacing
  }

  predicate KeyFree(prs: map<nat, PullRequest>, key: PrKey) {
    forall p :: p in prs ==> prs[p].key != key
  }

  /** The stored row of a comment belongs to the pull request it is delivered for. */
  predicate CommentHome(log: map<int, CommentRow>, d: Delivery) {
    d.commentId in log ==> log[d.commentId].pullRequestId == d.pullRequestId
  }

  /** When a step can be taken. A comment belongs to one pull request; a trigger runs on the pending row it read, and
      its clock leaves room for the account cooldown; an item loaded by the review detector is a former state of its
      row. */
  predicate Enabled(t: Tables, s: Step, cfg: Config) {
    && s.now <= s.recordedAt
    && match s.action
       case Detect(c, review) =>
         && c.delivery.pullRequestId in t.prs && t.prs[c.delivery.pullRequestId].key == c.key
         && CommentOf(t.queue, c.delivery.commentId, c.key) && CommentHome(t.comments, c.delivery)
         && IsCompletedReview(t.comments, c.delivery.pullRequestId, review)
       case RecordWalkthrough(d) => d.pullRequestId in t.prs && CommentHome(t.comments, d)
       case StoreEdit(d) => CommentHome(t.comments, d)
       case Prune(id, _) => id in t.queue
       case ResolveScanned(id, _) => id in t.queue
       case MarkSkipped(id, _) => id in t.queue
       case TriggerFromTick(id, _) =>
         && Triggerable(t, id) && GatesOpen(t, cfg, s.now) && Due(t.queue[id], cfg, s.now)
         && ValidTime(s.recordedAt + cfg.accountCooldown)
       case TriggerFromDashboard(id, _) => Triggerable(t, id) && ValidTime(s.recordedAt + cfg.accountCooldown)
       case ResolveByHand(id) => id in t.queue
       case DetectorWrite(id, item, w) =>
         && id in t.queue && t.queue[id].key == item.key && t.queue[id].pullRequestId == item.pullRequestId
       case ObservePr(pr, key, _, _) => if pr in t.prs then t.prs[pr].key == key else KeyFree(t.prs, key)
       case Acknowledge(pr) => pr in t.prs
       case Reorder(ids) => QueueOrder.Lists(t, ids)
       case _ => true
  }

  function ClosedAs(merged: bool): Resolution {
    if merged then PrMerged else PrClosedWithoutMerge
  }

  function Dismiss(t: Tables, id: nat, merged: bool, now: int): Tables
    requires id in t.queue
  {
    WithEvent(WithRow(t, id, ResolvedAs(t.queue[id], ClosedAs(merged), now)), DismissedEvent(t.queue[id].key))
  }

  function Observed(t: Tables, pr: nat, key: PrKey, state: PrState, head: Option<string>): Tables {
    if pr in t.prs then
      t.(prs := t.prs[pr := t.prs[pr].(state := state, headSha := if head.Some? then head else t.prs[pr].headSha)])
    else
      t.(prs := t.prs[pr := PullRequest(key, state, head, None, 0, 0, None, None, None, None, None, None, None)])
  }

  /** Steps that resolve or mark rows outside a trigger. */
  predicate ScanAction(a: Action) {
    a.Prune? || a.ResolveScanned? || a.SweepStale? || a.MarkSkipped? || a.ResolveByHand?
  }

  predicate TriggerAction(a: Action) {
    a.TriggerFromTick? || a.TriggerFromDashboard?
  }

  /** Steps that leave the queue alone and count nothing. */
  predicate NoteAction(a: Action) {
    || a.RecordWalkthrough? || a.StoreEdit? || a.ObserveRunId? || a.Acknowledge? || a.OfferNextReview?
    || a.Reorder? || a.SetPaused?
  }

  function ApplyScan(t: Tables, s: Step, cfg: Config): Tables
    requires Enabled(t, s, cfg) && ScanAction(s.action)
  {
    match s.action
    case Prune(id, merged) => Dismiss(t, id, merged, s.now)
    case ResolveScanned(id, merged) => Dismiss(t, id, merged, s.now)
    case SweepStale => t.(queue := Swept(t.queue, cfg.maxRetriggerAge, s.now))
    case MarkSkipped(id, reason) =>
      if t.queue[id].status == Pending then WithRow(t, id, SkipMarked(t.queue[id], reason, s.now)) else t
    case ResolveByHand(id) => WithRow(t, id, ResolvedAs(t.queue[id], ManualReview, s.now))
  }

  function ApplyTrigger(t: Tables, s: Step, cfg: Config): Tables
    requires Enabled(t, s, cfg) && TriggerAction(s.action)
  {
    match s.action
    case TriggerFromTick(id, gh) => SchedulerTrigger(t, id, gh, cfg, s.now, s.recordedAt)
    case TriggerFromDashboard(id, gh) => DashboardTrigger(t, id, gh, cfg, s.now, s.recordedAt)
  }

  /** The poll offers the earliest instant it saw: the comparison of the texts decides, and an invalid date throws. */
  function Offered(t: Tables, at: int): Tables {
    if ValidTime(at) then t.(nextReviewAt := KeptByText(t.nextReviewAt, at)) else t
  }

  function ApplyNote(t: Tables, s: Step, cfg: Config): Tables
    requires Enabled(t, s, cfg) && NoteAction(s.action)
  {
    match s.action
    case RecordWalkthrough(d) =>
      t.(comments := Upserted(t.comments, d, s.now),
         prs := t.prs[d.pullRequestId := t.prs[d.pullRequestId].(lastReviewAt := Some(d.content.ghUpdatedAt))])
    case StoreEdit(d) => t.(comments := Upserted(t.comments, d, s.now))
    case ObserveRunId(key) => WithEvent(t, RunIdEvent(key))
    case Acknowledge(pr) => t.(prs := t.prs[pr := t.prs[pr].(lastAcknowledgedAt := Some(s.now))])
    case OfferNextReview(at) => Offered(t, at)
    case Reorder(ids) => QueueOrder.Normalized(t, ids)
    case SetPaused(paused) => t.(paused := paused)
  }

  ghost function Apply(t: Tables, s: Step, cfg: Config): Tables
    requires Enabled(t, s, cfg)
  {
    if ScanAction(s.action) then ApplyScan(t, s, cfg)
    else if TriggerAction(s.action) then ApplyTrigger(t, s, cfg)
    else if NoteAction(s.action) then ApplyNote(t, s, cfg)
    else
      match s.action
      case Detect(c, review) => (
        match Handle(t, c, review, cfg, s.now)
        case HandleThrew => t
        case Handled(t') => t')
      case DetectorWrite(id, item, w) => Perform(t, id, item, w, s.now)
      case ObservePr(pr, key, state, head) => Observed(t, pr, key, state, head)
  }
}
