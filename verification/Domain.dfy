/** The rows, events and tables that the review queue keeps, as plain values. Instants and durations are
    integers of milliseconds. */
module Domain {

  datatype Option<+T> = None | Some(value: T)

  datatype QueueStatus = Pending | Retriggered | Resolved

  datatype Resolution =
    | ReviewCompleted | ManualReview | PrMerged | PrClosedWithoutMerge | Failed | Skipped | StaleComment

  datatype SkipReason = Cooldown | Settling

  datatype CommentType = ReviewLimited | ReviewSkipped | ReviewApproved | ReviewChangesSuggested | Unknown

  datatype TriggerSource = Scheduler | DashboardRetriggerNow

  datatype PrState = Open | Merged | Closed

  /** `repo_full_name` and `pr_number`: the identity of a pull request. */
  datatype PrKey = PrKey(repo: string, number: nat)

  datatype QueueRow = QueueRow(
    uuid: string,
    key: PrKey,
    pullRequestId: Option<nat>,
    title: string,
    status: QueueStatus,
    resolution: Option<Resolution>,
    resolvedAt: Option<int>,
    attempts: nat,
    lastSkippedAt: Option<int>,
    lastSkipReason: Option<SkipReason>,
    skipCount: nat,
    commentUrl: string,
    commentId: int,
    commentRunId: Option<string>,
    originalCommentUrl: Option<string>,
    retriggerCommentUrl: Option<string>,
    runId: Option<string>,
    retriggeredAt: Option<int>,
    cooldownUntil: Option<int>,
    createdAt: int)

  /** A `queue_order` row; the table is keyed by its unique `queue_item_id`. */
  datatype OrderRow = OrderRow(id: nat, position: Option<nat>)

  datatype PullRequest = PullRequest(
    key: PrKey,
    state: PrState,
    headSha: Option<string>,
    reviewedHeadSha: Option<string>,
    retriggerCount: nat,
    reviewCount: nat,
    lastReviewRequestedAt: Option<int>,
    lastReviewAt: Option<int>,
    lastAcknowledgedAt: Option<int>,
    lastReviewUrl: Option<string>,
    lastReviewState: Option<CommentType>,
    firstReviewLimitAt: Option<int>,
    lastReviewLimitAt: Option<int>)

  /** What one delivery of a GitHub comment says about it. */
  datatype CommentContent = CommentContent(
    url: string,
    kind: CommentType,
    preview: Option<string>,
    runId: Option<string>,
    ghUpdatedAt: int)

  datatype CommentRow = CommentRow(
    pullRequestId: nat,
    content: CommentContent,
    ghCreatedAt: int,
    firstSeenAt: int,
    lastSeenAt: int)

  datatype Event =
    | EnqueuedEvent(key: PrKey)
    | DetectedEvent(key: PrKey)
    | SkippedEvent(key: PrKey)
    | RetriggeredEvent(key: PrKey)
    | ReviewedEvent(key: PrKey, verdict: CommentType, viaFallback: bool)
    | FailedEvent(key: PrKey)
    | DismissedEvent(key: PrKey)
    | RunIdEvent(key: PrKey)

  /** A retrigger comment that reached GitHub and whose recording transaction committed: no earlier than
      `gatedAt`, the instant at which the trigger began, and no later than `recordedAt`. */
  datatype Post = Post(source: TriggerSource, gatedAt: int, recordedAt: int)

  datatype Tables = Tables(
    queue: map<nat, QueueRow>,
    orders: map<nat, OrderRow>,
    prs: map<nat, PullRequest>,
    comments: map<int, CommentRow>,
    events: seq<Event>,
    posts: seq<Post>,
    nextReviewAt: Option<int>,
    paused: bool,
    nextQueueId: nat,
    nextOrderId: nat)

  const EMPTY_TABLES := Tables(map[], map[], map[], map[], [], [], None, false, 0, 0)

  datatype Config = Config(
    accountCooldown: int,
    detectionLookback: int,
    fallbackWait: int,
    limitBuffer: int,
    maxAttempts: nat,
    maxRetriggerAge: int,
    retriggerSpacing: int,
    maxFetchesPerTick: nat)
  {
    /** The configuration schema demands positive integers. */
    predicate Valid() {
      && accountCooldown > 0 && detectionLookback > 0 && fallbackWait > 0 && limitBuffer > 0
      && maxAttempts > 0 && maxRetriggerAge > 0 && retriggerSpacing > 0 && maxFetchesPerTick > 0
    }
  }

  predicate Active(r: QueueRow) {
    r.status != Resolved
  }

  predicate IsVerdict(kind: CommentType) {
    kind == ReviewApproved || kind == ReviewChangesSuggested
  }

  /** Resolutions from which an edited comment may bring a row back. */
  predicate Reopenable(res: Option<Resolution>) {
    res == Some(ReviewCompleted) || res == Some(Failed) || res == Some(Skipped)
  }
}
