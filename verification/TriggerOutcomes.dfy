/** What a selection leaves, for every answer of GitHub and every number of attempts, and when. */
module TriggerOutcomes {
  import opened Domain
  import opened Transitions
  import opened QueueInvariant
  import opened TriggerSpec
  import opened IsoText
  import CommentUrl

  // ---------------------------------------------------------------- what GitHub answered

  /** The comment the row waits for was looked at, and does not ask for a retrigger. */
  predicate LooksFurther(row: QueueRow, gh: Answers) {
    CommentUrl.SplitRepo(row.key.repo).Some? && !gh.source.FetchFailed? && !StillAsks(gh)
  }

  /** A retrigger is called for: by the comment itself, or because it is gone or empty and no limit comment is left. */
  predicate Asked(row: QueueRow, gh: Answers) {
    && CommentUrl.SplitRepo(row.key.repo).Some? && !gh.source.FetchFailed?
    && (StillAsks(gh) || ((gh.source.Gone? || gh.source.body.isEmpty) && gh.latest.NoLatest?))
  }

  /** The comment says something else by now, and no limit comment is left. */
  predicate Outdated(row: QueueRow, gh: Answers) {
    LooksFurther(row, gh) && gh.source.Fetched? && !gh.source.body.isEmpty && gh.latest.NoLatest?
  }

  predicate PostedFor(row: QueueRow, gh: Answers) {
    Asked(row, gh) && gh.post.PostOk?
  }

  /** GitHub says that the pull request is gone. */
  predicate RefusedForGood(row: QueueRow, gh: Answers) {
    (Asked(row, gh) && gh.post == PostFailed(true)) || (LooksFurther(row, gh) && gh.latest == LatestFailed(true))
  }

  /** Something could not be fetched or posted this time. */
  predicate Stumbled(row: QueueRow, gh: Answers) {
    || CommentUrl.SplitRepo(row.key.repo).None? || gh.source.FetchFailed?
    || (Asked(row, gh) && gh.post == PostFailed(false))
    || (LooksFurther(row, gh) && (gh.latest == LatestFailed(false) || (gh.latest.Latest? && !gh.replacement.Fetched?)))
  }

  /** When the latest limit comment lets a review be requested again. */
  function RetryAt(gh: Answers, cfg: Config): (at: int)
    requires gh.latest.Latest? && gh.replacement.Fetched?
  {
    match gh.replacement.body.wait
    case Some(wait) => gh.latest.updatedAt + wait + cfg.limitBuffer
    case None => gh.latest.updatedAt + cfg.fallbackWait + cfg.limitBuffer
  }

  /** The latest limit comment is a new one with a usable date. */
  predicate MovesToFree(q: map<nat, QueueRow>, id: nat, gh: Answers, cfg: Config)
    requires id in q
  {
    && MovesOn(q[id], gh) && ValidTime(RetryAt(gh, cfg))
    && forall o :: o in q && q[o].commentId == gh.latest.commentId ==> o == id
  }

  /** It belongs to a resolved row already. */
  predicate MovesToResolved(q: map<nat, QueueRow>, id: nat, gh: Answers, cfg: Config)
    requires id in q
  {
    && MovesOn(q[id], gh) && ValidTime(RetryAt(gh, cfg))
    && exists o :: o in q && q[o].commentId == gh.latest.commentId && q[o].status == Resolved
  }

  /** It belongs to another active row, or its date is unusable. */
  predicate MoveCollides(q: map<nat, QueueRow>, id: nat, gh: Answers, cfg: Config)
    requires id in q
  {
    && MovesOn(q[id], gh)
    && (!ValidTime(RetryAt(gh, cfg))
        || exists o :: o in q && q[o].commentId == gh.latest.commentId && o != id && q[o].status != Resolved)
  }

  predicate Failed(q: map<nat, QueueRow>, id: nat, gh: Answers, cfg: Config)
    requires id in q
  {
    Stumbled(q[id], gh) || MoveCollides(q, id, gh, cfg)
  }

  /** Every answer of GitHub is of exactly one of these kinds. */
  lemma AnswersAreOneOfSeven(q: map<nat, QueueRow>, id: nat, gh: Answers, cfg: Config)
    requires QueueInv(q) && id in q && q[id].status == Pending
    ensures
      var row := q[id];
      var kinds := [PostedFor(row, gh), RefusedForGood(row, gh), Stumbled(row, gh), Outdated(row, gh),
                    MovesToFree(q, id, gh, cfg), MovesToResolved(q, id, gh, cfg), MoveCollides(q, id, gh, cfg)];
      && (exists i :: 0 <= i < |kinds| && kinds[i])
      && (forall i, j :: 0 <= i < j < |kinds| ==> !(kinds[i] && kinds[j]))
  {
    var row := q[id];
    var kinds := [PostedFor(row, gh), RefusedForGood(row, gh), Stumbled(row, gh), Outdated(row, gh),
                  MovesToFree(q, id, gh, cfg), MovesToResolved(q, id, gh, cfg), MoveCollides(q, id, gh, cfg)];
    if MovesOn(row, gh) {
      MovesAreOneOfThree(q, id, gh, cfg);
      assert kinds[4] || kinds[5] || kinds[6];
    } else {
      assert kinds[0] || kinds[1] || kinds[2] || kinds[3];
    }
  }

  lemma MovesAreOneOfThree(q: map<nat, QueueRow>, id: nat, gh: Answers, cfg: Config)
    requires QueueInv(q) && id in q && q[id].status == Pending && MovesOn(q[id], gh)
    ensures MovesToFree(q, id, gh, cfg) || MovesToResolved(q, id, gh, cfg) || MoveCollides(q, id, gh, cfg)
    ensures !(MovesToFree(q, id, gh, cfg) && MovesToResolved(q, id, gh, cfg))
    ensures !(MovesToFree(q, id, gh, cfg) && MoveCollides(q, id, gh, cfg))
    ensures !(MovesToResolved(q, id, gh, cfg) && MoveCollides(q, id, gh, cfg))
  {
  }

  // ---------------------------------------------------------------- the decision

  /** The decision, read off the answers. */
  lemma DecisionsAre(row: QueueRow, gh: Answers, cfg: Config)
    ensures
      var p := Decide(row, gh, cfg);
      && (p.PostRetrigger? <==> Asked(row, gh))
      && (p.PostRetrigger? ==> p.runId == if gh.source.Fetched? then gh.source.body.runId else None)
      && (p.SkipStale? <==> Outdated(row, gh))
      && (p.Reschedule? <==> MovesOn(row, gh))
      && (p.Reschedule? ==> p.earliest == RetryAt(gh, cfg) && p.commentId == gh.latest.commentId)
      && (p == Fail(true) <==> LooksFurther(row, gh) && gh.latest == LatestFailed(true))
      && (p == Fail(false) || p.ReplacementGone? <==> Stumbled(row, gh) && !Asked(row, gh))
  {
    PostsExactlyWhenAsked(row, gh, cfg);
    RescheduledExactlyWhen(row, gh, cfg);
  }

  // ---------------------------------------------------------------- the outcome of each kind

  /** The row is resolved at `now`; the events are recorded. Nothing else changes in the queue. */
  predicate Ends(t: Tables, t': Tables, id: nat, res: Resolution, now: int)
    requires id in t.queue
  {
    t'.queue == t.queue[id := t.queue[id].(status := Resolved, resolution := Some(res), resolvedAt := Some(now))]
  }

  /** After a successful post the row stays retriggered, with one more attempt, exactly while that is below the cap;
      otherwise it has failed. */
  lemma PostSucceeds(t: Tables, id: nat, gh: Answers, cfg: Config, now: int, recordedAt: int)
    requires Triggerable(t, id) && PostedFor(t.queue[id], gh)
    ensures
      var t', row := SchedulerTrigger(t, id, gh, cfg, now, recordedAt), t.queue[id];
      var pr, until := row.pullRequestId.value, recordedAt + cfg.accountCooldown;
      var posted := row.(
        status := Retriggered, retriggeredAt := Some(recordedAt), retriggerCommentUrl := Some(gh.post.url),
        runId := Some(gh.ownRunId), cooldownUntil := Some(until),
        commentRunId := if gh.source.Fetched? && gh.source.body.runId.Some? then gh.source.body.runId
                        else row.commentRunId);
      && (if row.attempts + 1 < cfg.maxAttempts then
            && t'.queue == t.queue[id := posted.(attempts := row.attempts + 1)]
            && t'.events == t.events + [RetriggeredEvent(row.key)]
          else
            && t'.queue == t.queue[id := posted.(status := Resolved, resolution := Some(Resolution.Failed),
                                                 resolvedAt := Some(recordedAt))]
            && t'.events == t.events + [RetriggeredEvent(row.key)] + [FailedEvent(row.key)])
      && t'.prs == t.prs[pr := t.prs[pr].(retriggerCount := t.prs[pr].retriggerCount + 1,
                                          lastReviewRequestedAt := Some(recordedAt))]
      && t'.posts == t.posts + [Post(Scheduler, now, recordedAt)]
      && t'.nextReviewAt ==
         (if t.nextReviewAt.Some? && t.nextReviewAt.value > until then t.nextReviewAt else Some(until))
  {
    DecisionsAre(t.queue[id], gh, cfg);
  }

  /** What fails for the time being leaves the row retriggered, with one more attempt and a fresh clock, exactly while
      its attempts are below the cap; otherwise it has failed. Nothing else happens. */
  lemma FailureBacksOff(t: Tables, id: nat, gh: Answers, cfg: Config, now: int, recordedAt: int)
    requires QueueInv(t.queue) && Triggerable(t, id) && Failed(t.queue, id, gh, cfg)
    ensures
      var t', row := SchedulerTrigger(t, id, gh, cfg, now, recordedAt), t.queue[id];
      && t' == t.(queue := t'.queue, events := t'.events)
      && if row.attempts < cfg.maxAttempts then
           && t'.queue == t.queue[id := row.(status := Retriggered, attempts := row.attempts + 1,
                                             retriggeredAt := Some(now))]
           && t'.events == t.events
         else
           && Ends(t, t', id, Resolution.Failed, now)
           && t'.events == t.events + [FailedEvent(row.key)]
  {
    DecisionsAre(t.queue[id], gh, cfg);
    if MovesOn(t.queue[id], gh) {
      MovedRowCollides(t, id, gh, cfg, now);
    }
  }

  /** How the move of a pending row ends depends on who carries the new comment. */
  lemma MovedRowCollides(t: Tables, id: nat, gh: Answers, cfg: Config, now: int)
    requires QueueInv(t.queue) && Triggerable(t, id) && MovesOn(t.queue[id], gh)
    ensures
      var q, p := t.queue, Decide(t.queue[id], gh, cfg);
      && p.Reschedule?
      && var moved := Rescheduled(q[id], p.url, p.commentId, p.runId, p.original, now);
         && (Violates(q, id, moved) <==> exists o :: o in q && q[o].commentId == gh.latest.commentId && o != id)
         && (CommentResolved(q, p.commentId) <==>
               exists o :: o in q && q[o].commentId == gh.latest.commentId && q[o].status == Resolved)
  {
    DecisionsAre(t.queue[id], gh, cfg);
    var p := Decide(t.queue[id], gh, cfg);
    MovedRowViolatesIffTaken(t.queue, id, Rescheduled(t.queue[id], p.url, p.commentId, p.runId, p.original, now));
  }

  /** A terminal answer resolves the row as failed, whatever its attempts, and dismisses it. */
  lemma RefusalEnds(t: Tables, id: nat, gh: Answers, cfg: Config, now: int, recordedAt: int)
    requires Triggerable(t, id) && RefusedForGood(t.queue[id], gh)
    ensures
      var t' := SchedulerTrigger(t, id, gh, cfg, now, recordedAt);
      && Ends(t, t', id, Resolution.Failed, now)
      && t' == t.(queue := t'.queue, events := t.events + [DismissedEvent(t.queue[id].key)])
  {
    DecisionsAre(t.queue[id], gh, cfg);
  }

  /** An outdated comment resolves the row as stale. */
  lemma OutdatedEnds(t: Tables, id: nat, gh: Answers, cfg: Config, now: int, recordedAt: int)
    requires Triggerable(t, id) && Outdated(t.queue[id], gh)
    ensures
      var t' := SchedulerTrigger(t, id, gh, cfg, now, recordedAt);
      Ends(t, t', id, StaleComment, now) && t' == t.(queue := t'.queue)
  {
    DecisionsAre(t.queue[id], gh, cfg);
  }

  /** A move to a free comment keeps the row pending, counts the attempt, remembers the first comment, and puts the
      account cooldown no earlier than the new comment allows. */
  lemma MoveKeepsPending(t: Tables, id: nat, gh: Answers, cfg: Config, now: int, recordedAt: int)
    requires QueueInv(t.queue) && Triggerable(t, id) && MovesToFree(t.queue, id, gh, cfg)
    ensures
      var t', row, at := SchedulerTrigger(t, id, gh, cfg, now, recordedAt), t.queue[id], RetryAt(gh, cfg);
      && t'.queue == t.queue[id := row.(
           attempts := row.attempts + 1, commentUrl := gh.latest.url, commentId := gh.latest.commentId,
           commentRunId := gh.replacement.body.runId, retriggeredAt := Some(now),
           originalCommentUrl := if row.originalCommentUrl.Some? then row.originalCommentUrl else Some(row.commentUrl))]
      && t' == t.(queue := t'.queue, nextReviewAt := t'.nextReviewAt)
      && t'.nextReviewAt == (if t.nextReviewAt.Some? && t.nextReviewAt.value > at then t.nextReviewAt else Some(at))
  {
    DecisionsAre(t.queue[id], gh, cfg);
    RescheduledExactlyWhen(t.queue[id], gh, cfg);
    MovedRowCollides(t, id, gh, cfg, now);
  }

  /** A move to a comment whose row is resolved resolves this row as reviewed. */
  lemma MoveMeetsResolved(t: Tables, id: nat, gh: Answers, cfg: Config, now: int, recordedAt: int)
    requires QueueInv(t.queue) && Triggerable(t, id) && MovesToResolved(t.queue, id, gh, cfg)
    ensures
      var t', at := SchedulerTrigger(t, id, gh, cfg, now, recordedAt), RetryAt(gh, cfg);
      && Ends(t, t', id, ReviewCompleted, now)
      && t' == t.(queue := t'.queue, nextReviewAt := t'.nextReviewAt)
      && t'.nextReviewAt == (if t.nextReviewAt.Some? && t.nextReviewAt.value > at then t.nextReviewAt else Some(at))
  {
    DecisionsAre(t.queue[id], gh, cfg);
    MovedRowCollides(t, id, gh, cfg, now);
  }

  // ---------------------------------------------------------------- exactly when

  /** What a selection leaves of the row, exactly: retriggered after a post that stays below the cap or a failure
      below it; pending after a move to a free comment; failed after a post or failure at the cap, or a terminal
      answer; stale when outdated; reviewed when the comment it moves to is resolved. */
  lemma SelectionLeavesExactly(t: Tables, id: nat, gh: Answers, cfg: Config, now: int, recordedAt: int)
    requires QueueInv(t.queue) && Triggerable(t, id)
    ensures
      var q, a, cap := t.queue, t.queue[id].attempts, cfg.maxAttempts;
      var t' := SchedulerTrigger(t, id, gh, cfg, now, recordedAt);
      && id in t'.queue
      && var row' := t'.queue[id];
         && (row'.status == Retriggered <==>
               ((PostedFor(q[id], gh) && a + 1 < cap) || (Failed(q, id, gh, cfg) && a < cap)))
         && (row'.status == Pending <==> MovesToFree(q, id, gh, cfg))
         && (row'.status != Resolved ==> row'.attempts == a + 1)
         && (row'.status == Resolved ==> row'.attempts == a)
         && (row'.status == Resolved && row'.resolution == Some(Resolution.Failed) <==>
               (|| (PostedFor(q[id], gh) && a + 1 >= cap) || (Failed(q, id, gh, cfg) && a >= cap)
                || RefusedForGood(q[id], gh)))
         && (row'.status == Resolved && row'.resolution == Some(StaleComment) <==> Outdated(q[id], gh))
         && (row'.status == Resolved && row'.resolution == Some(ReviewCompleted) <==> MovesToResolved(q, id, gh, cfg))
  {
    AnswersAreOneOfSeven(t.queue, id, gh, cfg);
    if PostedFor(t.queue[id], gh) { PostSucceeds(t, id, gh, cfg, now, recordedAt); }
    if RefusedForGood(t.queue[id], gh) { RefusalEnds(t, id, gh, cfg, now, recordedAt); }
    if Failed(t.queue, id, gh, cfg) { FailureBacksOff(t, id, gh, cfg, now, recordedAt); }
    if Outdated(t.queue[id], gh) { OutdatedEnds(t, id, gh, cfg, now, recordedAt); }
    if MovesToFree(t.queue, id, gh, cfg) { MoveKeepsPending(t, id, gh, cfg, now, recordedAt); }
    if MovesToResolved(t.queue, id, gh, cfg) { MoveMeetsResolved(t, id, gh, cfg, now, recordedAt); }
  }

  // ---------------------------------------------------------------- the dashboard, and the gate behind a post

  /** The dashboard's trigger posts exactly when a retrigger is called for and GitHub takes it; the row then waits for
      its review, with its attempts as they were. Otherwise nothing changes. */
  lemma DashboardPostsExactly(t: Tables, id: nat, gh: Answers, cfg: Config, now: int, recordedAt: int)
    requires Triggerable(t, id)
    ensures
      var t', row := DashboardTrigger(t, id, gh, cfg, now, recordedAt), t.queue[id];
      && id in t'.queue
      && (!PostedFor(row, gh) ==> t' == t)
      && (PostedFor(row, gh) ==>
            (&& t'.queue[id].status == Retriggered && t'.queue[id].retriggeredAt == Some(recordedAt)
             && t'.queue[id].attempts == row.attempts && t'.queue[id].retriggerCommentUrl == Some(gh.post.url)
             && t'.queue[id].cooldownUntil == Some(recordedAt + cfg.accountCooldown)
             && t'.events == t.events + [RetriggeredEvent(row.key)]
             && t'.posts == t.posts + [Post(DashboardRetriggerNow, now, recordedAt)]))
  {
    DecisionsAre(t.queue[id], gh, cfg);
  }

  /** When nobody waits for an acknowledgement, a post closes the spacing gate for as long as the spacing, unless the
      pull request was acknowledged at that instant or later; and an acknowledgement opens it. */
  lemma PostClosesTheGate(prs: map<nat, PullRequest>, pr: nat, recordedAt: int, ack: int, spacing: int, later: int)
    requires pr in prs && ack >= recordedAt
    requires forall p :: p in prs && prs[p].lastReviewRequestedAt.Some? ==>
      && prs[p].lastAcknowledgedAt.Some?
      && prs[p].lastAcknowledgedAt.value >= prs[p].lastReviewRequestedAt.value
    ensures
      var requested := prs[pr].(lastReviewRequestedAt := Some(recordedAt));
      && (AcknowledgementHold(prs[pr := requested], spacing, later) <==>
            (&& (prs[pr].lastAcknowledgedAt.Some? ==> prs[pr].lastAcknowledgedAt.value < recordedAt)
             && later - recordedAt < spacing))
      && !AcknowledgementHold(prs[pr := requested.(lastAcknowledgedAt := Some(ack))], spacing, later)
  {
    var requested := prs[pr].(lastReviewRequestedAt := Some(recordedAt));
    forall p | p in prs && p != pr ensures !AwaitsAcknowledgement(prs[p]) {}
    assert prs[pr := requested][pr] == requested;
  }
}
