/** How single rows change, and the table constraints every write must respect. These functions specify the
    repository methods. */
module Transitions {
  import opened Domain

  // ---------------------------------------------------------------- queue rows

  function ResolvedAs(r: QueueRow, res: Resolution, now: int): QueueRow {
    r.(status := Resolved, resolution := Some(res), resolvedAt := Some(now))
  }

  function Reopened(r: QueueRow, title: string, run: Option<string>, cooldown: Option<int>): QueueRow {
    r.(status := Pending, resolution := None, resolvedAt := None, title := title, commentRunId := run,
       cooldownUntil := cooldown, lastSkippedAt := None, lastSkipReason := None, skipCount := 0)
  }

  function RunAdopted(r: QueueRow, run: string, now: int): QueueRow {
    r.(commentRunId := Some(run), retriggeredAt := Some(now))
  }

  function CommentReplaced(r: QueueRow, url: string, id: int, run: Option<string>, now: int): QueueRow {
    r.(commentUrl := url, commentId := id, commentRunId := run, retriggeredAt := Some(now))
  }

  /** An absent source run keeps the run the row already carries. */
  function MarkedRetriggered(r: QueueRow, until: int, url: string, ownRun: string, run: Option<string>,
                             now: int): QueueRow {
    r.(status := Retriggered, retriggeredAt := Some(now), retriggerCommentUrl := Some(url), runId := Some(ownRun),
       commentRunId := if run.Some? then run else r.commentRunId, cooldownUntil := Some(until))
  }

  function BackedOff(r: QueueRow, now: int): QueueRow {
    r.(attempts := r.attempts + 1, status := Retriggered, retriggeredAt := Some(now))
  }

  function Rescheduled(r: QueueRow, url: string, id: int, run: Option<string>, original: string, now: int): QueueRow {
    r.(attempts := r.attempts + 1, commentUrl := url, commentId := id, commentRunId := run,
       originalCommentUrl := Some(original), retriggeredAt := Some(now))
  }

  function SkipMarked(r: QueueRow, reason: SkipReason, now: int): QueueRow {
    r.(lastSkippedAt := Some(now), lastSkipReason := Some(reason), skipCount := r.skipCount + 1)
  }

  predicate Stale(r: QueueRow, age: int, now: int) {
    r.status == Retriggered && r.retriggeredAt.Some? && r.retriggeredAt.value < now - age
  }

  function Swept(q: map<nat, QueueRow>, age: int, now: int): map<nat, QueueRow> {
    map id | id in q :: if Stale(q[id], age, now) then ResolvedAs(q[id], Failed, now) else q[id]
  }

  predicate ShouldReopenStale(retriggeredAt: Option<int>, head: Option<string>, reviewedHead: Option<string>,
                              lookback: int, now: int) {
    head.Some? && head != reviewedHead && retriggeredAt.Some? && retriggeredAt.value < now - lookback
  }

  // ---------------------------------------------------------------- table constraints

  /** Storing `r` at `id` breaks a unique index of `review_queue`: `source_comment_id`, or (`repo_full_name`,
      `pr_number`) among the pending rows. */
  predicate Violates(q: map<nat, QueueRow>, id: nat, r: QueueRow) {
    exists o :: o in q && o != id
      && (q[o].commentId == r.commentId || (q[o].status == Pending && r.status == Pending && q[o].key == r.key))
  }

  function WithRow(t: Tables, id: nat, r: QueueRow): Tables {
    t.(queue := t.queue[id := r])
  }

  function WithEvent(t: Tables, e: Event): Tables {
    t.(events := t.events + [e])
  }

  /** Gives a queue item an order row unless it has one. */
  function WithOrder(t: Tables, id: nat): Tables {
    if id in t.orders then t
    else t.(orders := t.orders[id := OrderRow(t.nextOrderId, None)], nextOrderId := t.nextOrderId + 1)
  }

  // ---------------------------------------------------------------- lookups

  /** The row of a pull request in a given status, as `findFirst` returns it. */
  ghost function RowIn(q: map<nat, QueueRow>, key: PrKey, status: QueueStatus): (r: Option<nat>)
    ensures r.Some? ==> r.value in q && q[r.value].key == key && q[r.value].status == status
    ensures r.None? ==> forall id :: id in q ==> !(q[id].key == key && q[id].status == status)
  {
    if exists id :: id in q && q[id].key == key && q[id].status == status
    then var id :| id in q && q[id].key == key && q[id].status == status; Some(id)
    else None
  }

  ghost function ByComment(q: map<nat, QueueRow>, commentId: int): (r: Option<nat>)
    ensures r.Some? ==> r.value in q && q[r.value].commentId == commentId
    ensures r.None? ==> forall id :: id in q ==> q[id].commentId != commentId
  {
    if exists id :: id in q && q[id].commentId == commentId
    then var id :| id in q && q[id].commentId == commentId; Some(id)
    else None
  }

  // ---------------------------------------------------------------- pull requests and the account cooldown

  function ReviewRecorded(p: PullRequest, url: string, verdict: CommentType, sha: Option<string>,
                          now: int): PullRequest {
    p.(reviewCount := p.reviewCount + 1, lastReviewAt := Some(now), lastReviewUrl := Some(url),
       lastReviewState := Some(verdict), reviewedHeadSha := if sha.Some? then sha else p.headSha)
  }

  function RetriggerCounted(p: PullRequest, now: int): PullRequest {
    p.(retriggerCount := p.retriggerCount + 1, lastReviewRequestedAt := Some(now))
  }

  function LimitDetected(p: PullRequest, now: int): PullRequest {
    p.(lastReviewLimitAt := Some(now),
       firstReviewLimitAt := if p.firstReviewLimitAt.None? then Some(now) else p.firstReviewLimitAt)
  }

  /** The later of the stored instant, if any, and a new one. */
  function Later(existing: Option<int>, x: int): Option<int> {
    if existing.Some? && existing.value > x then existing else Some(x)
  }

  /** `a` is not after `b`, an absent instant being before all. */
  predicate NotAfter(a: Option<int>, b: Option<int>) {
    a.Some? ==> b.Some? && a.value <= b.value
  }

  /** A request is still waiting for CodeRabbit to acknowledge it. */
  predicate AwaitsAcknowledgement(p: PullRequest) {
    p.lastReviewRequestedAt.Some?
    && (p.lastAcknowledgedAt.None? || p.lastAcknowledgedAt.value < p.lastReviewRequestedAt.value)
  }

  /** The spacing gate of the scheduler. The query returns the oldest waiting request; it is younger than the
      spacing exactly when every waiting request is. */
  predicate AcknowledgementHold(prs: map<nat, PullRequest>, spacing: int, now: int) {
    && (exists p :: p in prs && AwaitsAcknowledgement(prs[p]))
    && (forall p :: p in prs && AwaitsAcknowledgement(prs[p]) ==> now - prs[p].lastReviewRequestedAt.value < spacing)
  }
}
