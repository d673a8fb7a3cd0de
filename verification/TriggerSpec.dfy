/** What a trigger does to a pending row: the decision of `ReviewTrigger.trigger`, the recording of a post, and how
    the scheduler and the dashboard settle the outcome. */
module TriggerSpec {
  import opened Domain
  import opened QueueInvariant
  import opened Transitions
  import opened IsoText
  import CommentUrl

  /** What the trigger reads off a comment body. */
  datatype Body = Body(
    isEmpty: bool,
    kind: CommentType,
    rateLimitMarker: bool,
    ownMarker: bool,
    runId: Option<string>,
    wait: Option<int>)

  const EMPTY_BODY := Body(true, Unknown, false, false, None, None)

  /** `Gone` is a terminal HTTP status (404 or 410). */
  datatype Fetch = Fetched(body: Body) | Gone | FetchFailed

  datatype LatestAnswer =
    | Latest(commentId: int, url: string, updatedAt: int)
    | NoLatest
    | LatestFailed(terminal: bool)

  datatype PostAnswer = PostOk(url: string) | PostFailed(terminal: bool)

  /** Everything GitHub answers to one trigger, and the run id generated for the post. */
  datatype Answers = Answers(source: Fetch, latest: LatestAnswer, replacement: Fetch, post: PostAnswer,
                             ownRunId: string)

  datatype Plan =
    | PostRetrigger(replyTo: Option<string>, runId: Option<string>)
    | SkipStale
    | ReplacementGone
    | Reschedule(commentId: int, url: string, runId: Option<string>, original: string, earliest: int)
    | Fail(terminal: bool)

  /** When the latest limit comment lets the row be triggered again: its last edit, the wait it states or the fallback,
      and a buffer. */
  function EarliestOf(gh: Answers, cfg: Config): int
    requires gh.latest.Latest? && gh.replacement.Fetched?
  {
    var wait := gh.replacement.body.wait;
    gh.latest.updatedAt + (if wait.Some? then wait.value else cfg.fallbackWait) + cfg.limitBuffer
  }

  /** The decision tree over the source comment and the latest review-limit comment. */
  function Decide(row: QueueRow, gh: Answers, cfg: Config): Plan {
    if CommentUrl.SplitRepo(row.key.repo).None? || gh.source.FetchFailed? then Fail(false)
    else
      var stored := if gh.source.Fetched? then gh.source.body else EMPTY_BODY;
      if !stored.isEmpty && stored.rateLimitMarker && !stored.ownMarker then
        PostRetrigger(Some(row.commentUrl), stored.runId)
      else if !stored.isEmpty && stored.kind == ReviewSkipped && !stored.ownMarker then
        PostRetrigger(Some(row.commentUrl), stored.runId)
      else
        match gh.latest
        case LatestFailed(terminal) => Fail(terminal)
        case NoLatest => if stored.isEmpty then PostRetrigger(None, stored.runId) else SkipStale
        case Latest(commentId, url, updatedAt) =>
          match gh.replacement
          case Gone => ReplacementGone
          case FetchFailed => Fail(false)
          case Fetched(body) =>
            var original := if row.originalCommentUrl.Some? then row.originalCommentUrl.value else row.commentUrl;
            Reschedule(commentId, url, body.runId, original, EarliestOf(gh, cfg))
  }

  /** The source comment, as far as it was fetched, still asks for a retrigger. */
  predicate StillAsks(gh: Answers) {
    && gh.source.Fetched? && !gh.source.body.isEmpty && !gh.source.body.ownMarker
    && (gh.source.body.rateLimitMarker || gh.source.body.kind == ReviewSkipped)
  }

  /** When a trigger posts, and to what it replies: in reply to a source comment that still asks, or without a reply
      when the source is gone or empty and no limit comment is left. A comment of its own is never answered. */
  lemma PostsExactlyWhenAsked(row: QueueRow, gh: Answers, cfg: Config)
    ensures Decide(row, gh, cfg).PostRetrigger? <==>
      && CommentUrl.SplitRepo(row.key.repo).Some? && !gh.source.FetchFailed?
      && (StillAsks(gh) || ((gh.source.Gone? || gh.source.body.isEmpty) && gh.latest.NoLatest?))
    ensures Decide(row, gh, cfg).PostRetrigger? ==>
      Decide(row, gh, cfg).replyTo == if StillAsks(gh) then Some(row.commentUrl) else None
  {
    if gh.source.Fetched? {
      var body := gh.source.body;
      if !body.isEmpty && body.rateLimitMarker && !body.ownMarker {
      } else if !body.isEmpty && body.kind == ReviewSkipped && !body.ownMarker {
      }
    }
  }

  /** What GitHub has to answer for a row to be moved to another comment: its own comment does not ask any more, or is
      gone or empty, and there is a latest limit comment that could be fetched. */
  predicate MovesOn(row: QueueRow, gh: Answers) {
    && CommentUrl.SplitRepo(row.key.repo).Some? && !gh.source.FetchFailed? && !StillAsks(gh)
    && gh.latest.Latest? && gh.replacement.Fetched?
  }

  lemma RescheduledExactlyWhen(row: QueueRow, gh: Answers, cfg: Config)
    ensures Decide(row, gh, cfg).Reschedule? <==> MovesOn(row, gh)
    ensures MovesOn(row, gh) ==>
      var p := Decide(row, gh, cfg);
      && p.commentId == gh.latest.commentId && p.url == gh.latest.url && p.runId == gh.replacement.body.runId
      && p.original == (if row.originalCommentUrl.Some? then row.originalCommentUrl.value else row.commentUrl)
      && p.earliest == EarliestOf(gh, cfg)
  {
    if gh.source.Fetched? {
      var body := gh.source.body;
      if !body.isEmpty && body.rateLimitMarker && !body.ownMarker {
      } else if !body.isEmpty && body.kind == ReviewSkipped && !body.ownMarker {
      }
    }
  }

  /** The transaction that follows a successful post. */
  function RecordPost(t: Tables, id: nat, url: string, gh: Answers, runId: Option<string>, source: TriggerSource,
                      cfg: Config, now: int, recordedAt: int): Tables
    requires id in t.queue && t.queue[id].pullRequestId.Some? && t.queue[id].pullRequestId.value in t.prs
  {
    var row := t.queue[id];
    var pr := row.pullRequestId.value;
    var until := recordedAt + cfg.accountCooldown;
    t.(queue := t.queue[id := MarkedRetriggered(row, until, url, gh.ownRunId, runId, recordedAt)],
       prs := t.prs[pr := RetriggerCounted(t.prs[pr], recordedAt)],
       events := t.events + [RetriggeredEvent(row.key)],
       posts := t.posts + [Post(source, now, recordedAt)],
       nextReviewAt := Later(t.nextReviewAt, until))
  }

  // ---------------------------------------------------------------- the scheduler

  function GaveUp(t: Tables, id: nat, now: int): Tables
    requires id in t.queue
  {
    WithEvent(WithRow(t, id, ResolvedAs(t.queue[id], Failed, now)), FailedEvent(t.queue[id].key))
  }

  function GiveUpOrBackOff(t: Tables, id: nat, cfg: Config, now: int): Tables
    requires id in t.queue
  {
    if t.queue[id].attempts >= cfg.maxAttempts then GaveUp(t, id, now) else WithRow(t, id, BackedOff(t.queue[id], now))
  }

  function CountAttempt(t: Tables, id: nat, cfg: Config, now: int): Tables
    requires id in t.queue
  {
    var next := t.queue[id].attempts + 1;
    if next >= cfg.maxAttempts then GaveUp(t, id, now) else WithRow(t, id, t.queue[id].(attempts := next))
  }

  function TerminalFailure(t: Tables, id: nat, now: int): Tables
    requires id in t.queue
  {
    WithEvent(WithRow(t, id, ResolvedAs(t.queue[id], Failed, now)), DismissedEvent(t.queue[id].key))
  }

  function Failure(t: Tables, id: nat, terminal: bool, cfg: Config, now: int): Tables
    requires id in t.queue
  {
    if terminal then TerminalFailure(t, id, now) else GiveUpOrBackOff(t, id, cfg, now)
  }

  predicate CommentResolved(q: map<nat, QueueRow>, commentId: int) {
    exists o :: o in q && q[o].commentId == commentId && q[o].status == Resolved
  }

  /** A replacement comment that already belongs to a resolved row resolves this one. When it belongs to any other
      row, or the stated wait leads to no valid date, the transaction fails and the row backs off. */
  function ApplyReschedule(t: Tables, id: nat, p: Plan, cfg: Config, now: int): Tables
    requires id in t.queue && p.Reschedule?
  {
    var moved := Rescheduled(t.queue[id], p.url, p.commentId, p.runId, p.original, now);
    var next := Later(t.nextReviewAt, p.earliest);
    if !ValidTime(p.earliest) then GiveUpOrBackOff(t, id, cfg, now)
    else if !Violates(t.queue, id, moved) then WithRow(t, id, moved).(nextReviewAt := next)
    else if CommentResolved(t.queue, p.commentId) then
      WithRow(t, id, ResolvedAs(t.queue[id], ReviewCompleted, now)).(nextReviewAt := next)
    else GiveUpOrBackOff(t, id, cfg, now)
  }

  /** A row that can be triggered: pending, with a registered pull request. */
  predicate Triggerable(t: Tables, id: nat) {
    && id in t.queue && t.queue[id].status == Pending
    && t.queue[id].pullRequestId.Some? && t.queue[id].pullRequestId.value in t.prs
  }

  /** The part of a scheduler tick from the selected row to the last write. */
  function SchedulerTrigger(t: Tables, id: nat, gh: Answers, cfg: Config, now: int, recordedAt: int): Tables
    requires Triggerable(t, id)
  {
    var p := Decide(t.queue[id], gh, cfg);
    match p
    case PostRetrigger(_, runId) => (
      match gh.post
      case PostOk(url) =>
        CountAttempt(RecordPost(t, id, url, gh, runId, Scheduler, cfg, now, recordedAt), id, cfg, recordedAt)
      case PostFailed(terminal) => Failure(t, id, terminal, cfg, now))
    case SkipStale => WithRow(t, id, ResolvedAs(t.queue[id], StaleComment, now))
    case ReplacementGone => GiveUpOrBackOff(t, id, cfg, now)
    case Reschedule(_, _, _, _, _) => ApplyReschedule(t, id, p, cfg, now)
    case Fail(terminal) => Failure(t, id, terminal, cfg, now)
  }

  /** The dashboard button writes only when the comment was posted. */
  function DashboardTrigger(t: Tables, id: nat, gh: Answers, cfg: Config, now: int, recordedAt: int): Tables
    requires Triggerable(t, id)
  {
    var p := Decide(t.queue[id], gh, cfg);
    if p.PostRetrigger? && gh.post.PostOk? then
      RecordPost(t, id, gh.post.url, gh, p.runId, DashboardRetriggerNow, cfg, now, recordedAt)
    else t
  }

  // ---------------------------------------------------------------- what a trigger leaves behind

  /** A settled selection resolves the row, keeping its attempts, or leaves it active with exactly one more. Unless
      it was rescheduled, a row that stays active is retriggered with a fresh clock and had fewer attempts than the
      cap. */
  predicate Settled(r: QueueRow, r': QueueRow, rescheduled: bool, cap: nat, now: int) {
    && (if r'.status == Resolved then r'.attempts == r.attempts else r'.attempts == r.attempts + 1)
    && (r'.status == Pending ==> rescheduled)
    && (r'.status == Retriggered ==> r.attempts < cap && r'.retriggeredAt.Some? && r'.retriggeredAt.value >= now)
  }

  /** The shape of all proofs below: name the row that was stored. */
  lemma StoredRowSettles(t: Tables, t': Tables, id: nat, r: QueueRow, rescheduled: bool, cap: nat, now: int)
    requires LegalRewrite(t.queue, id, r) && t'.queue == t.queue[id := r]
    requires Settled(t.queue[id], r, rescheduled, cap, now)
    ensures RewritesOnly(t, t', id) && Settled(t.queue[id], t'.queue[id], rescheduled, cap, now)
  {
  }

  lemma BackOffSettles(t: Tables, id: nat, cfg: Config, now: int)
    requires id in t.queue && t.queue[id].status == Pending && RowShape(t.queue[id])
    ensures var t' := GiveUpOrBackOff(t, id, cfg, now);
      RewritesOnly(t, t', id) && Settled(t.queue[id], t'.queue[id], false, cfg.maxAttempts, now)
  {
  }

  lemma TerminalFailureSettles(t: Tables, id: nat, cfg: Config, now: int)
    requires id in t.queue && t.queue[id].status == Pending && RowShape(t.queue[id])
    ensures var t' := TerminalFailure(t, id, now);
      RewritesOnly(t, t', id) && Settled(t.queue[id], t'.queue[id], false, cfg.maxAttempts, now)
  {
  }

  lemma RecordPostRewrites(t: Tables, id: nat, url: string, gh: Answers, runId: Option<string>, source: TriggerSource,
                           cfg: Config, now: int, recordedAt: int)
    requires Triggerable(t, id) && RowShape(t.queue[id])
    ensures var t' := RecordPost(t, id, url, gh, runId, source, cfg, now, recordedAt);
      && RewritesOnly(t, t', id)
      && t'.queue[id].status == Retriggered && t'.queue[id].attempts == t.queue[id].attempts
      && t'.queue[id].retriggeredAt == Some(recordedAt)
  {
  }

  lemma CountAttemptSettles(t: Tables, t1: Tables, id: nat, cfg: Config, now: int)
    requires id in t.queue && t.queue[id].status == Pending && RowShape(t.queue[id])
    requires RewritesOnly(t, t1, id)
    requires t1.queue[id].status == Retriggered && t1.queue[id].attempts == t.queue[id].attempts
    requires t1.queue[id].commentId == t.queue[id].commentId && t1.queue[id].retriggeredAt == Some(now)
    ensures var t' := CountAttempt(t1, id, cfg, now);
      RewritesOnly(t, t', id) && Settled(t.queue[id], t'.queue[id], false, cfg.maxAttempts, now)
  {
    var t' := CountAttempt(t1, id, cfg, now);
    assert t'.queue == t.queue[id := t'.queue[id]];
  }

  lemma RescheduleSettles(t: Tables, id: nat, p: Plan, cfg: Config, now: int)
    requires id in t.queue && t.queue[id].status == Pending && RowShape(t.queue[id]) && p.Reschedule?
    ensures var t' := ApplyReschedule(t, id, p, cfg, now);
      RewritesOnly(t, t', id) && Settled(t.queue[id], t'.queue[id], true, cfg.maxAttempts, now)
  {
    var row, t' := t.queue[id], ApplyReschedule(t, id, p, cfg, now);
    var moved := Rescheduled(row, p.url, p.commentId, p.runId, p.original, now);
    if !ValidTime(p.earliest) {
      BackOffSettles(t, id, cfg, now);
    } else if !Violates(t.queue, id, moved) {
      StoredRowSettles(t, t', id, moved, true, cfg.maxAttempts, now);
    } else if CommentResolved(t.queue, p.commentId) {
      StoredRowSettles(t, t', id, ResolvedAs(row, ReviewCompleted, now), true, cfg.maxAttempts, now);
    } else {
      BackOffSettles(t, id, cfg, now);
    }
  }

  lemma PostSettles(t: Tables, id: nat, url: string, gh: Answers, runId: Option<string>, cfg: Config, now: int,
                    recordedAt: int)
    requires Triggerable(t, id) && RowShape(t.queue[id]) && now <= recordedAt
    ensures
      var t1 := RecordPost(t, id, url, gh, runId, Scheduler, cfg, now, recordedAt);
      var t' := CountAttempt(t1, id, cfg, recordedAt);
      RewritesOnly(t, t', id) && Settled(t.queue[id], t'.queue[id], false, cfg.maxAttempts, now)
  {
    RecordPostRewrites(t, id, url, gh, runId, Scheduler, cfg, now, recordedAt);
    CountAttemptSettles(t, RecordPost(t, id, url, gh, runId, Scheduler, cfg, now, recordedAt), id, cfg, recordedAt);
  }

  lemma FailureSettles(t: Tables, id: nat, terminal: bool, cfg: Config, now: int)
    requires id in t.queue && t.queue[id].status == Pending && RowShape(t.queue[id])
    ensures var t' := Failure(t, id, terminal, cfg, now);
      RewritesOnly(t, t', id) && Settled(t.queue[id], t'.queue[id], false, cfg.maxAttempts, now)
  {
    if terminal { TerminalFailureSettles(t, id, cfg, now); } else { BackOffSettles(t, id, cfg, now); }
  }

  lemma SkipStaleSettles(t: Tables, id: nat, cfg: Config, now: int)
    requires id in t.queue && t.queue[id].status == Pending && RowShape(t.queue[id])
    ensures var t' := WithRow(t, id, ResolvedAs(t.queue[id], StaleComment, now));
      RewritesOnly(t, t', id) && Settled(t.queue[id], t'.queue[id], false, cfg.maxAttempts, now)
  {
  }

  /** Every tick that selects a row settles it, and touches no other row. */
  lemma SelectionSettles(t: Tables, id: nat, gh: Answers, cfg: Config, now: int, recordedAt: int)
    requires Triggerable(t, id) && RowShape(t.queue[id]) && now <= recordedAt
    ensures var t' := SchedulerTrigger(t, id, gh, cfg, now, recordedAt);
      && RewritesOnly(t, t', id)
      && Settled(t.queue[id], t'.queue[id], Decide(t.queue[id], gh, cfg).Reschedule?, cfg.maxAttempts, now)
  {
    var p := Decide(t.queue[id], gh, cfg);
    match p {
      case PostRetrigger(_, runId) =>
        match gh.post {
          case PostOk(url) => PostSettles(t, id, url, gh, runId, cfg, now, recordedAt);
          case PostFailed(terminal) => FailureSettles(t, id, terminal, cfg, now);
        }
      case SkipStale => SkipStaleSettles(t, id, cfg, now);
      case ReplacementGone => BackOffSettles(t, id, cfg, now);
      case Reschedule(_, _, _, _, _) => RescheduleSettles(t, id, p, cfg, now);
      case Fail(terminal) => FailureSettles(t, id, terminal, cfg, now);
    }
  }

  /** No other row carries the comment. */
  predicate FreeFor(q: map<nat, QueueRow>, id: nat, commentId: int) {
    forall o :: o in q && o != id ==> q[o].commentId != commentId
  }

  lemma FailureAtTheCap(t: Tables, id: nat, terminal: bool, cfg: Config, now: int)
    requires id in t.queue && t.queue[id].attempts >= cfg.maxAttempts
    ensures Failure(t, id, terminal, cfg, now).queue[id].status == Resolved
  {
  }

  /** A pending row has no pending rival, so that only its new comment can break an index. */
  lemma MovedRowViolatesIffTaken(q: map<nat, QueueRow>, id: nat, r: QueueRow)
    requires QueueInv(q) && id in q && q[id].status == Pending && r.key == q[id].key && r.status == Pending
    ensures Violates(q, id, r) <==> !FreeFor(q, id, r.commentId)
  {
  }

  lemma RescheduleAtTheCap(t: Tables, id: nat, p: Plan, cfg: Config, now: int)
    requires QueueInv(t.queue) && id in t.queue && t.queue[id].status == Pending && p.Reschedule?
    requires t.queue[id].attempts >= cfg.maxAttempts
    ensures ApplyReschedule(t, id, p, cfg, now).queue[id].status != Resolved
      <==> ValidTime(p.earliest) && FreeFor(t.queue, id, p.commentId)
  {
    var moved := Rescheduled(t.queue[id], p.url, p.commentId, p.runId, p.original, now);
    MovedRowViolatesIffTaken(t.queue, id, moved);
    FailureAtTheCap(t, id, false, cfg, now);
  }

  /** Once the attempts are used up, a selection leaves the row unresolved exactly when GitHub's answers move it to a
      comment no other row carries, with a wait that leads to a valid date: reschedules are not capped, every other
      outcome is. */
  lemma OnlyReschedulesPassTheCap(t: Tables, id: nat, gh: Answers, cfg: Config, now: int, recordedAt: int)
    requires QueueInv(t.queue) && Triggerable(t, id) && t.queue[id].attempts >= cfg.maxAttempts
    ensures
      var t' := SchedulerTrigger(t, id, gh, cfg, now, recordedAt);
      && id in t'.queue
      && (t'.queue[id].status != Resolved <==>
            MovesOn(t.queue[id], gh) && ValidTime(EarliestOf(gh, cfg)) && FreeFor(t.queue, id, gh.latest.commentId))
  {
    var p := Decide(t.queue[id], gh, cfg);
    RescheduledExactlyWhen(t.queue[id], gh, cfg);
    match p {
      case PostRetrigger(_, runId) =>
        match gh.post {
          case PostOk(_) => SpentRowFailsAtItsNextPost(t, id, gh, cfg, now, recordedAt);
          case PostFailed(terminal) => FailureAtTheCap(t, id, terminal, cfg, now);
        }
      case SkipStale =>
      case ReplacementGone => FailureAtTheCap(t, id, false, cfg, now);
      case Reschedule(_, _, _, _, _) => RescheduleAtTheCap(t, id, p, cfg, now);
      case Fail(terminal) => FailureAtTheCap(t, id, terminal, cfg, now);
    }
  }

  /** A row one attempt short of the cap is spent: even a successful post resolves it as failed. A row that failed and
      was reopened with its attempts is such a row. */
  lemma SpentRowFailsAtItsNextPost(t: Tables, id: nat, gh: Answers, cfg: Config, now: int, recordedAt: int)
    requires Triggerable(t, id) && t.queue[id].attempts + 1 >= cfg.maxAttempts
    requires Decide(t.queue[id], gh, cfg).PostRetrigger? && gh.post.PostOk?
    ensures
      var t' := SchedulerTrigger(t, id, gh, cfg, now, recordedAt);
      && id in t'.queue && t'.queue[id].status == Resolved && t'.queue[id].resolution == Some(Failed)
      && t'.queue[id].attempts == t.queue[id].attempts
  {
    var p := Decide(t.queue[id], gh, cfg);
    var posted := RecordPost(t, id, gh.post.url, gh, p.runId, Scheduler, cfg, now, recordedAt);
    assert posted.queue[id].attempts == t.queue[id].attempts;
  }

  // ---------------------------------------------------------------- what a trigger does besides

  /** An event that neither counts as a retrigger nor as a review. */
  predicate Plain(e: Event) {
    !e.RetriggeredEvent? && !(e.ReviewedEvent? && !e.viaFallback)
  }

  predicate OnlyPlainSince(es: seq<Event>, es': seq<Event>) {
    es <= es' && forall i :: |es| <= i < |es'| ==> Plain(es'[i])
  }

  /** The account cooldown is left alone, or moved forward to where the latest limit comment puts it. */
  predicate CooldownFollows(next: Option<int>, next': Option<int>, gh: Answers, cfg: Config) {
    || next' == next
    || (&& gh.latest.Latest? && gh.replacement.Fetched? && ValidTime(EarliestOf(gh, cfg))
        && next' == Later(next, EarliestOf(gh, cfg)))
  }

  /** Nothing was posted: besides the queue, at most plain events and a later account cooldown. */
  predicate WithoutPost(t: Tables, t': Tables, gh: Answers, cfg: Config) {
    && t' == t.(queue := t'.queue, events := t'.events, nextReviewAt := t'.nextReviewAt)
    && OnlyPlainSince(t.events, t'.events)
    && CooldownFollows(t.nextReviewAt, t'.nextReviewAt, gh, cfg)
  }

  /** One comment was posted for row `id`: counted once, recorded once, and followed by the account cooldown. */
  predicate WithPost(t: Tables, t': Tables, id: nat, source: TriggerSource, cfg: Config, now: int, recordedAt: int) {
    && id in t.queue && t.queue[id].pullRequestId.Some? && t.queue[id].pullRequestId.value in t.prs
    && t' == t.(queue := t'.queue, prs := t'.prs, events := t'.events, posts := t'.posts,
                nextReviewAt := t'.nextReviewAt)
    && var pr := t.queue[id].pullRequestId.value;
    && t'.prs == t.prs[pr := RetriggerCounted(t.prs[pr], recordedAt)]
    && OnlyPlainSince(t.events + [RetriggeredEvent(t.queue[id].key)], t'.events)
    && t'.posts == t.posts + [Post(source, now, recordedAt)]
    && t'.nextReviewAt == Later(t.nextReviewAt, recordedAt + cfg.accountCooldown)
  }

  predicate TriggerEffects(t: Tables, t': Tables, id: nat, gh: Answers, source: TriggerSource, cfg: Config, now: int,
                           recordedAt: int) {
    WithoutPost(t, t', gh, cfg) || WithPost(t, t', id, source, cfg, now, recordedAt)
  }

  lemma FailurePostsNothing(t: Tables, id: nat, terminal: bool, gh: Answers, cfg: Config, now: int)
    requires id in t.queue
    ensures WithoutPost(t, Failure(t, id, terminal, cfg, now), gh, cfg)
  {
  }

  lemma ReschedulePostsNothing(t: Tables, id: nat, gh: Answers, cfg: Config, now: int)
    requires id in t.queue && Decide(t.queue[id], gh, cfg).Reschedule?
    ensures WithoutPost(t, ApplyReschedule(t, id, Decide(t.queue[id], gh, cfg), cfg, now), gh, cfg)
  {
    var p := Decide(t.queue[id], gh, cfg);
    RescheduledExactlyWhen(t.queue[id], gh, cfg);
    FailurePostsNothing(t, id, false, gh, cfg, now);
    if !ValidTime(p.earliest) {
    } else if !Violates(t.queue, id, Rescheduled(t.queue[id], p.url, p.commentId, p.runId, p.original, now)) {
    } else if CommentResolved(t.queue, p.commentId) {
    }
  }

  lemma CountedPost(t: Tables, id: nat, url: string, gh: Answers, runId: Option<string>, cfg: Config, now: int,
                    recordedAt: int)
    requires Triggerable(t, id)
    ensures var t1 := RecordPost(t, id, url, gh, runId, Scheduler, cfg, now, recordedAt);
      WithPost(t, CountAttempt(t1, id, cfg, recordedAt), id, Scheduler, cfg, now, recordedAt)
  {
  }

  /** A selection posts at most once, and a post is counted, recorded and followed by the account cooldown. */
  lemma SelectionEffects(t: Tables, id: nat, gh: Answers, cfg: Config, now: int, recordedAt: int)
    requires Triggerable(t, id)
    ensures TriggerEffects(t, SchedulerTrigger(t, id, gh, cfg, now, recordedAt), id, gh, Scheduler, cfg, now,
                           recordedAt)
  {
    var p := Decide(t.queue[id], gh, cfg);
    match p {
      case PostRetrigger(_, runId) =>
        match gh.post {
          case PostOk(url) => CountedPost(t, id, url, gh, runId, cfg, now, recordedAt);
          case PostFailed(terminal) => FailurePostsNothing(t, id, terminal, gh, cfg, now);
        }
      case SkipStale => assert WithoutPost(t, WithRow(t, id, ResolvedAs(t.queue[id], StaleComment, now)), gh, cfg);
      case ReplacementGone => FailurePostsNothing(t, id, false, gh, cfg, now);
      case Reschedule(_, _, _, _, _) => ReschedulePostsNothing(t, id, gh, cfg, now);
      case Fail(terminal) => FailurePostsNothing(t, id, terminal, gh, cfg, now);
    }
  }

  lemma DashboardEffects(t: Tables, id: nat, gh: Answers, cfg: Config, now: int, recordedAt: int)
    requires Triggerable(t, id)
    ensures TriggerEffects(t, DashboardTrigger(t, id, gh, cfg, now, recordedAt), id, gh, DashboardRetriggerNow, cfg,
                           now, recordedAt)
  {
  }
}
