/** The invariant of the whole system, kept by every step, and the quantities no step lets go backwards. */
module SystemInvariant {
  import opened Domain
  import opened Transitions
  import opened QueueInvariant
  import opened EnqueueSpec
  import opened TriggerSpec
  import opened DetectionSpec
  import opened CommentLog
  import opened Steps
  import opened IsoText
  import opened CooldownText
  import QueueOrder

  // ---------------------------------------------------------------- the queue

  lemma DetectorWriteRewrites(t: Tables, id: nat, item: QueueRow, w: Write, now: int)
    requires QueueOk(t) && StillRetriggered(t, id)
    ensures var t' := Perform(t, id, item, w, now); t'.queue == t.queue || RewritesOnly(t, t', id)
  {
    var row, t' := t.queue[id], Perform(t, id, item, w, now);
    match w {
      case Leave =>
      case Resolve(res) => StoredRow(t, t', id, ResolvedAs(row, res, now));
      case RecordReview(_, _, _) =>
        if t'.queue != t.queue { StoredRow(t, t', id, ResolvedAs(row, ReviewCompleted, now)); }
      case ReviewedViaFallback => StoredRow(t, t', id, ResolvedAs(row, ReviewCompleted, now));
      case ReopenAsPending(run) => StoredRow(t, t', id, Reopened(row, item.title, Some(run), None));
      case AdoptRun(run) => if t'.queue != t.queue { StoredRow(t, t', id, RunAdopted(row, run, now)); }
    }
  }

  /** A row and its pull request agree on their identity. */
  predicate RowLinked(r: QueueRow, prs: map<nat, PullRequest>) {
    r.pullRequestId.Some? ==> r.pullRequestId.value in prs && prs[r.pullRequestId.value].key == r.key
  }

  predicate QueueKept(t: Tables, t': Tables) {
    && QueueOk(t') && QueueProgress(t.queue, t'.queue)
    && forall id :: id in t'.queue && id !in t.queue ==> RowLinked(t'.queue[id], t.prs)
  }

  lemma DetectorWriteKeepsQueue(t: Tables, id: nat, item: QueueRow, w: Write, now: int)
    requires QueueOk(t)
    ensures QueueKept(t, Perform(t, id, item, w, now))
  {
    var t' := Perform(t, id, item, w, now);
    if StillRetriggered(t, id) {
      DetectorWriteRewrites(t, id, item, w, now);
      if t'.queue != t.queue { RewriteKeepsQueueOk(t, t', id); }
    }
  }

  lemma DetectKeepsQueue(t: Tables, c: Detected, review: Option<int>, cfg: Config, now: int)
    requires QueueOk(t) && CommentOf(t.queue, c.delivery.commentId, c.key)
    requires c.delivery.pullRequestId in t.prs && t.prs[c.delivery.pullRequestId].key == c.key
    requires Handle(t, c, review, cfg, now).Handled?
    ensures QueueKept(t, Handle(t, c, review, cfg, now).tables)
    ensures ReopensOnlyEdited(t.queue, Handle(t, c, review, cfg, now).tables.queue, EnqueueDataOf(c, cfg.fallbackWait))
    ensures CommentsStay(t.queue, Handle(t, c, review, cfg, now).tables.queue, EnqueueDataOf(c, cfg.fallbackWait))
  {
    if !Dismissed(t.comments, review, c.delivery.content.ghUpdatedAt) && !IsVerdict(c.delivery.content.kind) {
      var noted, d := Noted(t, c.delivery, now), EnqueueDataOf(c, cfg.fallbackWait);
      assert OutcomeOk(Enqueue(noted, d, cfg.detectionLookback, now)) by {
        EnqueueKeepsInv(noted, d, cfg.detectionLookback, now);
      }
      assert Advances(noted, d, Enqueue(noted, d, cfg.detectionLookback, now)) by {
        EnqueueAdvances(noted, d, cfg.detectionLookback, now);
      }
    }
  }

  lemma ResolvingKeepsQueue(t: Tables, id: nat, res: Resolution, now: int)
    requires QueueOk(t) && id in t.queue && (Terminal(t.queue[id]) ==> !Reopenable(Some(res)))
    ensures QueueKept(t, WithRow(t, id, ResolvedAs(t.queue[id], res, now)))
  {
    StoredRow(t, WithRow(t, id, ResolvedAs(t.queue[id], res, now)), id, ResolvedAs(t.queue[id], res, now));
    RewriteKeepsQueueOk(t, WithRow(t, id, ResolvedAs(t.queue[id], res, now)), id);
  }

  lemma DismissKeepsQueue(t: Tables, id: nat, merged: bool, now: int)
    requires QueueOk(t) && id in t.queue
    ensures QueueKept(t, Dismiss(t, id, merged, now))
  {
    ResolvingKeepsQueue(t, id, ClosedAs(merged), now);
  }

  lemma SkipKeepsQueue(t: Tables, id: nat, reason: SkipReason, now: int)
    requires QueueOk(t) && id in t.queue && t.queue[id].status == Pending
    ensures QueueKept(t, WithRow(t, id, SkipMarked(t.queue[id], reason, now)))
  {
    var t' := WithRow(t, id, SkipMarked(t.queue[id], reason, now));
    StoredRow(t, t', id, SkipMarked(t.queue[id], reason, now));
    RewriteKeepsQueueOk(t, t', id);
  }

  lemma TickKeepsQueue(t: Tables, id: nat, gh: Answers, cfg: Config, now: int, recordedAt: int)
    requires QueueOk(t) && Triggerable(t, id) && now <= recordedAt
    ensures QueueKept(t, SchedulerTrigger(t, id, gh, cfg, now, recordedAt))
  {
    SelectionSettles(t, id, gh, cfg, now, recordedAt);
    SelectionEffects(t, id, gh, cfg, now, recordedAt);
    RewriteKeepsQueueOk(t, SchedulerTrigger(t, id, gh, cfg, now, recordedAt), id);
  }

  lemma DashboardKeepsQueue(t: Tables, id: nat, gh: Answers, cfg: Config, now: int, recordedAt: int)
    requires QueueOk(t) && Triggerable(t, id)
    ensures QueueKept(t, DashboardTrigger(t, id, gh, cfg, now, recordedAt))
  {
    var p := Decide(t.queue[id], gh, cfg);
    if p.PostRetrigger? && gh.post.PostOk? {
      RecordPostRewrites(t, id, gh.post.url, gh, p.runId, DashboardRetriggerNow, cfg, now, recordedAt);
      RewriteKeepsQueueOk(t, DashboardTrigger(t, id, gh, cfg, now, recordedAt), id);
    }
  }

  lemma ScanKeepsQueue(t: Tables, s: Step, cfg: Config)
    requires cfg.Valid() && QueueOk(t) && Enabled(t, s, cfg) && ScanAction(s.action)
    ensures QueueKept(t, ApplyScan(t, s, cfg))
  {
    match s.action {
      case Prune(id, merged) => DismissKeepsQueue(t, id, merged, s.now);
      case ResolveScanned(id, merged) => DismissKeepsQueue(t, id, merged, s.now);
      case SweepStale => SweepKeepsInv(t.queue, cfg.maxRetriggerAge, s.now);
      case MarkSkipped(id, reason) => if t.queue[id].status == Pending { SkipKeepsQueue(t, id, reason, s.now); }
      case ResolveByHand(id) => ResolvingKeepsQueue(t, id, ManualReview, s.now);
    }
  }

  lemma TriggerKeepsQueue(t: Tables, s: Step, cfg: Config)
    requires QueueOk(t) && Enabled(t, s, cfg) && TriggerAction(s.action)
    ensures QueueKept(t, ApplyTrigger(t, s, cfg))
  {
    match s.action {
      case TriggerFromTick(id, gh) => TickKeepsQueue(t, id, gh, cfg, s.now, s.recordedAt);
      case TriggerFromDashboard(id, gh) => DashboardKeepsQueue(t, id, gh, cfg, s.now, s.recordedAt);
    }
  }

  /** Every step keeps the queue well formed, with at most one active row for each pull request, and lets no row go
      backwards. */
  lemma StepKeepsQueue(t: Tables, s: Step, cfg: Config)
    requires cfg.Valid() && QueueOk(t) && Enabled(t, s, cfg)
    ensures QueueKept(t, Apply(t, s, cfg))
  {
    if ScanAction(s.action) {
      ScanKeepsQueue(t, s, cfg);
    } else if TriggerAction(s.action) {
      TriggerKeepsQueue(t, s, cfg);
    } else if NoteAction(s.action) {
      NoteEffects(t, s, cfg);
    } else {
      match s.action {
        case Detect(c, review) =>
          if Handle(t, c, review, cfg, s.now).Handled? { DetectKeepsQueue(t, c, review, cfg, s.now); }
        case DetectorWrite(id, item, w) => DetectorWriteKeepsQueue(t, id, item, w, s.now);
        case ObservePr(_, _, _, _) =>
      }
    }
  }

  // ---------------------------------------------------------------- links and counters

  predicate KeysDistinct(prs: map<nat, PullRequest>) {
    forall a, b :: a in prs && b in prs && a != b ==> prs[a].key != prs[b].key
  }

  predicate Linked(t: Tables) {
    KeysDistinct(t.prs) && forall id :: id in t.queue ==> RowLinked(t.queue[id], t.prs)
  }

  function Retriggers(es: seq<Event>, key: PrKey): nat {
    if es == [] then 0
    else Retriggers(es[..|es| - 1], key) + (if es[|es| - 1] == RetriggeredEvent(key) then 1 else 0)
  }

  predicate CountsAsReview(e: Event, key: PrKey) {
    e.ReviewedEvent? && e.key == key && !e.viaFallback
  }

  function Reviews(es: seq<Event>, key: PrKey): nat {
    if es == [] then 0
    else Reviews(es[..|es| - 1], key) + (if CountsAsReview(es[|es| - 1], key) then 1 else 0)
  }

  /** The counters of a pull request equal the numbers of its events; an unregistered one has none. */
  ghost predicate Counted(prs: map<nat, PullRequest>, es: seq<Event>) {
    && (forall p :: p in prs ==>
          prs[p].retriggerCount == Retriggers(es, prs[p].key) && prs[p].reviewCount == Reviews(es, prs[p].key))
    && (forall key :: KeyFree(prs, key) ==> Retriggers(es, key) == 0 && Reviews(es, key) == 0)
  }

  lemma AppendCounts(es: seq<Event>, e: Event, key: PrKey)
    ensures Retriggers(es + [e], key) == Retriggers(es, key) + (if e == RetriggeredEvent(key) then 1 else 0)
    ensures Reviews(es + [e], key) == Reviews(es, key) + (if CountsAsReview(e, key) then 1 else 0)
  {
    assert (es + [e])[..|es + [e]| - 1] == es;
  }

  lemma {:induction false} PlainEventsCountNothing(es: seq<Event>, es': seq<Event>, key: PrKey)
    requires OnlyPlainSince(es, es')
    ensures Retriggers(es', key) == Retriggers(es, key) && Reviews(es', key) == Reviews(es, key)
    decreases |es'|
  {
    if |es'| > |es| {
      PlainEventsCountNothing(es, es'[..|es'| - 1], key);
    } else {
      assert es' == es;
    }
  }

  /** Columns other than identity and counters do not matter to the count. */
  predicate SameCounters(prs: map<nat, PullRequest>, prs': map<nat, PullRequest>) {
    && prs'.Keys == prs.Keys
    && forall p :: p in prs ==>
         (&& prs'[p].key == prs[p].key
          && prs'[p].retriggerCount == prs[p].retriggerCount
          && prs'[p].reviewCount == prs[p].reviewCount)
  }

  lemma PlainStepKeepsCounted(prs: map<nat, PullRequest>, es: seq<Event>, prs': map<nat, PullRequest>, es': seq<Event>)
    requires Counted(prs, es) && SameCounters(prs, prs') && OnlyPlainSince(es, es')
    ensures Counted(prs', es')
  {
    forall key ensures Retriggers(es', key) == Retriggers(es, key) && Reviews(es', key) == Reviews(es, key) {
      PlainEventsCountNothing(es, es', key);
    }
    forall key | KeyFree(prs', key) ensures KeyFree(prs, key) {
      forall p | p in prs ensures prs[p].key != key { assert prs'[p].key != key; }
    }
  }

  /** One more retrigger or review, counted on the pull request whose event is recorded. */
  lemma CountingStepKeepsCounted(prs: map<nat, PullRequest>, es: seq<Event>, pr: nat, row: PullRequest, e: Event)
    requires Counted(prs, es) && KeysDistinct(prs) && pr in prs && row.key == prs[pr].key
    requires row.retriggerCount == prs[pr].retriggerCount + (if e == RetriggeredEvent(row.key) then 1 else 0)
    requires row.reviewCount == prs[pr].reviewCount + (if CountsAsReview(e, row.key) then 1 else 0)
    requires e.key == row.key
    ensures Counted(prs[pr := row], es + [e])
  {
    forall key
      ensures Retriggers(es + [e], key) == Retriggers(es, key) + (if e == RetriggeredEvent(key) then 1 else 0)
      ensures Reviews(es + [e], key) == Reviews(es, key) + (if CountsAsReview(e, key) then 1 else 0)
    {
      AppendCounts(es, e, key);
    }
    var prs', es' := prs[pr := row], es + [e];
    forall p | p in prs'
      ensures prs'[p].retriggerCount == Retriggers(es', prs'[p].key) && prs'[p].reviewCount == Reviews(es', prs'[p].key)
    {
      assert prs'[p].key == prs[p].key;
      assert p != pr ==> prs[p].key != row.key;
    }
    forall key | KeyFree(prs', key) ensures Retriggers(es', key) == 0 && Reviews(es', key) == 0 {
      assert prs'[pr].key != key;
      forall p | p in prs ensures prs[p].key != key { assert prs'[p].key != key; }
      assert KeyFree(prs, key);
    }
  }

  // ---------------------------------------------------------------- the ledger of every step

  predicate SameIdentities(prs: map<nat, PullRequest>, prs': map<nat, PullRequest>) {
    forall p :: p in prs ==> p in prs' && prs'[p].key == prs[p].key
  }

  ghost predicate LedgerOk(t: Tables) {
    KeysDistinct(t.prs) && Counted(t.prs, t.events)
  }

  ghost predicate LedgerKept(t: Tables, t': Tables) {
    LedgerOk(t') && SameIdentities(t.prs, t'.prs) && t.events <= t'.events
  }

  lemma PlainLedger(t: Tables, t': Tables)
    requires LedgerOk(t) && SameCounters(t.prs, t'.prs) && OnlyPlainSince(t.events, t'.events)
    ensures LedgerKept(t, t')
  {
    PlainStepKeepsCounted(t.prs, t.events, t'.prs, t'.events);
  }

  lemma LedgerKeptTwice(t: Tables, t': Tables, t'': Tables)
    requires LedgerKept(t, t') && LedgerKept(t', t'')
    ensures LedgerKept(t, t'')
  {
  }

  lemma VerdictKeepsLedger(t: Tables, c: Detected, now: int)
    requires LedgerOk(t) && c.delivery.pullRequestId in t.prs && t.prs[c.delivery.pullRequestId].key == c.key
    ensures LedgerKept(t, VerdictRecorded(t, c, now))
  {
    var t', pr := VerdictRecorded(t, c, now), c.delivery.pullRequestId;
    CountingStepKeepsCounted(t.prs, t.events, pr, t'.prs[pr], ReviewedEvent(c.key, c.delivery.content.kind, false));
  }

  /** The events recorded around an enqueue are plain. */
  lemma RecordingFramed(t: Tables, o: EnqueueOutcome, c: Detected)
    requires o.Done? && EnqueueFrame(t, o.tables, c.key)
    ensures var t2 := if o.created then WithEvent(o.tables, DetectedEvent(c.key)) else o.tables;
      var t' := if c.delivery.content.kind == ReviewSkipped then WithEvent(t2, SkippedEvent(c.key)) else t2;
      && t'.prs == t.prs && t'.comments == t.comments && t'.posts == t.posts && t'.nextReviewAt == t.nextReviewAt
      && OnlyPlainSince(t.events, t'.events)
  {
  }

  lemma EnqueueFramed(t: Tables, c: Detected, cfg: Config, now: int)
    requires QueueOk(t) && EnqueueDetected(t, c, cfg, now).Handled?
    ensures var t' := EnqueueDetected(t, c, cfg, now).tables;
      && t'.prs == t.prs && t'.comments == t.comments && t'.posts == t.posts && t'.nextReviewAt == t.nextReviewAt
      && OnlyPlainSince(t.events, t'.events)
  {
    var d := EnqueueDataOf(c, cfg.fallbackWait);
    var o := Enqueue(t, d, cfg.detectionLookback, now);
    assert Advances(t, d, o) by { EnqueueAdvances(t, d, cfg.detectionLookback, now); }
    RecordingFramed(t, o, c);
  }

  lemma DetectKeepsLedger(t: Tables, c: Detected, review: Option<int>, cfg: Config, now: int)
    requires QueueOk(t) && LedgerOk(t)
    requires c.delivery.pullRequestId in t.prs && t.prs[c.delivery.pullRequestId].key == c.key
    requires Handle(t, c, review, cfg, now).Handled?
    ensures LedgerKept(t, Handle(t, c, review, cfg, now).tables)
  {
    var t', noted := Handle(t, c, review, cfg, now).tables, Noted(t, c.delivery, now);
    if Dismissed(t.comments, review, c.delivery.content.ghUpdatedAt) {
      PlainLedger(t, t');
    } else {
      PlainLedger(t, noted);
      if IsVerdict(c.delivery.content.kind) {
        VerdictKeepsLedger(noted, c, now);
      } else {
        EnqueueFramed(noted, c, cfg, now);
        PlainLedger(noted, t');
      }
      LedgerKeptTwice(t, noted, t');
    }
  }

  lemma TriggerKeepsLedger(t: Tables, t': Tables, id: nat, gh: Answers, source: TriggerSource, cfg: Config, now: int,
                           recordedAt: int)
    requires LedgerOk(t) && id in t.queue && RowLinked(t.queue[id], t.prs)
    requires TriggerEffects(t, t', id, gh, source, cfg, now, recordedAt)
    ensures LedgerKept(t, t')
  {
    if WithoutPost(t, t', gh, cfg) {
      PlainLedger(t, t');
    } else {
      var pr, e := t.queue[id].pullRequestId.value, RetriggeredEvent(t.queue[id].key);
      CountingStepKeepsCounted(t.prs, t.events, pr, t'.prs[pr], e);
      PlainStepKeepsCounted(t'.prs, t.events + [e], t'.prs, t'.events);
    }
  }

  lemma RecordReviewKeepsLedger(t: Tables, id: nat, item: QueueRow, w: Write, now: int)
    requires LedgerOk(t) && StillRetriggered(t, id) && RowLinked(t.queue[id], t.prs)
    requires t.queue[id].key == item.key && t.queue[id].pullRequestId == item.pullRequestId
    requires w.RecordReview? && item.pullRequestId.Some?
    ensures LedgerKept(t, Perform(t, id, item, w, now))
  {
    var t', pr := Perform(t, id, item, w, now), item.pullRequestId.value;
    CountingStepKeepsCounted(t.prs, t.events, pr, t'.prs[pr], ReviewedEvent(item.key, w.verdict, false));
  }

  /** A detector write that records no review counts nothing. */
  lemma DetectorWriteIsPlain(t: Tables, id: nat, item: QueueRow, w: Write, now: int)
    requires !(w.RecordReview? && StillRetriggered(t, id) && item.pullRequestId.Some?)
    ensures
      var t' := Perform(t, id, item, w, now);
      SameCounters(t.prs, t'.prs) && OnlyPlainSince(t.events, t'.events)
  {
    match w {
      case Leave =>
      case Resolve(_) =>
      case RecordReview(_, _, _) =>
      case ReviewedViaFallback =>
      case ReopenAsPending(_) =>
      case AdoptRun(_) =>
    }
  }

  lemma DetectorWriteKeepsLedger(t: Tables, id: nat, item: QueueRow, w: Write, now: int)
    requires LedgerOk(t) && id in t.queue && RowLinked(t.queue[id], t.prs)
    requires t.queue[id].key == item.key && t.queue[id].pullRequestId == item.pullRequestId
    ensures LedgerKept(t, Perform(t, id, item, w, now))
  {
    hide LedgerOk, LedgerKept, RowLinked, Perform, SameCounters, OnlyPlainSince;
    if w.RecordReview? && StillRetriggered(t, id) && item.pullRequestId.Some? {
      RecordReviewKeepsLedger(t, id, item, w, now);
    } else {
      DetectorWriteIsPlain(t, id, item, w, now);
      PlainLedger(t, Perform(t, id, item, w, now));
    }
  }

  lemma ObserveKeepsLedger(t: Tables, pr: nat, key: PrKey, state: PrState, head: Option<string>)
    requires LedgerOk(t) && (if pr in t.prs then t.prs[pr].key == key else KeyFree(t.prs, key))
    ensures LedgerKept(t, Observed(t, pr, key, state, head))
  {
    var t' := Observed(t, pr, key, state, head);
    if pr in t.prs {
      PlainLedger(t, t');
    } else {
      forall k | KeyFree(t'.prs, k) ensures KeyFree(t.prs, k) {
        forall p | p in t.prs ensures t.prs[p].key != k { assert t'.prs[p].key != k; }
      }
    }
  }

  lemma TriggerActionKeepsLedger(t: Tables, s: Step, cfg: Config)
    requires Linked(t) && LedgerOk(t) && Enabled(t, s, cfg) && TriggerAction(s.action)
    ensures LedgerKept(t, ApplyTrigger(t, s, cfg))
  {
    match s.action {
      case TriggerFromTick(id, gh) =>
        SelectionEffects(t, id, gh, cfg, s.now, s.recordedAt);
        TriggerKeepsLedger(t, ApplyTrigger(t, s, cfg), id, gh, Scheduler, cfg, s.now, s.recordedAt);
      case TriggerFromDashboard(id, gh) =>
        DashboardEffects(t, id, gh, cfg, s.now, s.recordedAt);
        TriggerKeepsLedger(t, ApplyTrigger(t, s, cfg), id, gh, DashboardRetriggerNow, cfg, s.now, s.recordedAt);
    }
  }

  lemma ScanEffects(t: Tables, s: Step, cfg: Config)
    requires Enabled(t, s, cfg) && ScanAction(s.action)
    ensures var t' := ApplyScan(t, s, cfg);
      t' == t.(queue := t'.queue, events := t'.events) && OnlyPlainSince(t.events, t'.events)
  {
    match s.action {
      case Prune(_, _) =>
      case ResolveScanned(_, _) =>
      case SweepStale =>
      case MarkSkipped(_, _) =>
      case ResolveByHand(_) =>
    }
  }

  /** What a note leaves alone: queue, posts and all counters. */
  predicate NoteFrame(t: Tables, t': Tables) {
    && t'.queue == t.queue && t'.posts == t.posts && t'.nextQueueId == t.nextQueueId
    && SameCounters(t.prs, t'.prs) && OnlyPlainSince(t.events, t'.events)
  }

  lemma WalkthroughEffects(t: Tables, s: Step, cfg: Config)
    requires Enabled(t, s, cfg) && s.action.RecordWalkthrough?
    ensures var t' := ApplyNote(t, s, cfg);
      && NoteFrame(t, t') && t'.nextReviewAt == t.nextReviewAt
      && t'.comments == Upserted(t.comments, s.action.delivery, s.now)
  {
  }

  lemma OfferEffects(t: Tables, s: Step, cfg: Config)
    requires Enabled(t, s, cfg) && s.action.OfferNextReview?
    ensures var t' := ApplyNote(t, s, cfg);
      NoteFrame(t, t') && t'.comments == t.comments && t' == Offered(t, s.action.at)
  {
  }

  lemma ReorderEffects(t: Tables, s: Step, cfg: Config)
    requires Enabled(t, s, cfg) && s.action.Reorder?
    ensures var t' := ApplyNote(t, s, cfg);
      NoteFrame(t, t') && t'.comments == t.comments && t'.nextReviewAt == t.nextReviewAt
  {
    QueueOrder.AssigningFrames(t, s.action.ids, |s.action.ids|);
  }

  lemma OtherNoteEffects(t: Tables, s: Step, cfg: Config)
    requires Enabled(t, s, cfg) && NoteAction(s.action)
    requires !s.action.RecordWalkthrough? && !s.action.OfferNextReview? && !s.action.Reorder?
    ensures var t' := ApplyNote(t, s, cfg);
      && NoteFrame(t, t') && t'.nextReviewAt == t.nextReviewAt
      && t'.comments == (if s.action.StoreEdit? then Upserted(t.comments, s.action.delivery, s.now) else t.comments)
  {
    hide QueueOrder.Normalized, QueueOrder.Lists, Upserted, Offered;
    match s.action {
      case StoreEdit(_) =>
      case ObserveRunId(_) =>
      case Acknowledge(_) =>
      case SetPaused(_) =>
    }
  }

  lemma NoteEffects(t: Tables, s: Step, cfg: Config)
    requires Enabled(t, s, cfg) && NoteAction(s.action)
    ensures var t' := ApplyNote(t, s, cfg);
      && NoteFrame(t, t')
      && (!s.action.OfferNextReview? ==> t'.nextReviewAt == t.nextReviewAt)
      && (if s.action.RecordWalkthrough? || s.action.StoreEdit?
          then t'.comments == Upserted(t.comments, s.action.delivery, s.now)
          else t'.comments == t.comments)
  {
    if s.action.RecordWalkthrough? {
      WalkthroughEffects(t, s, cfg);
    } else if s.action.OfferNextReview? {
      OfferEffects(t, s, cfg);
    } else if s.action.Reorder? {
      ReorderEffects(t, s, cfg);
    } else {
      OtherNoteEffects(t, s, cfg);
    }
  }

  lemma DetectorWriteEffects(t: Tables, id: nat, item: QueueRow, w: Write, now: int)
    ensures var t' := Perform(t, id, item, w, now);
      t'.posts == t.posts && t'.nextReviewAt == t.nextReviewAt && t'.comments == t.comments
  {
    match w {
      case Leave =>
      case Resolve(_) =>
      case RecordReview(_, _, _) =>
      case ReviewedViaFallback =>
      case ReopenAsPending(_) =>
      case AdoptRun(_) =>
    }
  }

  /** Every step keeps the counters of each pull request equal to the numbers of its events. */
  lemma StepKeepsLedger(t: Tables, s: Step, cfg: Config)
    requires QueueOk(t) && Linked(t) && LedgerOk(t) && Enabled(t, s, cfg)
    ensures LedgerKept(t, Apply(t, s, cfg))
  {
    if TriggerAction(s.action) {
      TriggerActionKeepsLedger(t, s, cfg);
    } else if ScanAction(s.action) {
      ScanEffects(t, s, cfg);
      PlainLedger(t, ApplyScan(t, s, cfg));
    } else if NoteAction(s.action) {
      NoteEffects(t, s, cfg);
      PlainLedger(t, ApplyNote(t, s, cfg));
    } else {
      match s.action {
        case Detect(c, review) =>
          if Handle(t, c, review, cfg, s.now).Handled? { DetectKeepsLedger(t, c, review, cfg, s.now); }
        case DetectorWrite(id, item, w) => DetectorWriteKeepsLedger(t, id, item, w, s.now);
        case ObservePr(pr, key, state, head) => ObserveKeepsLedger(t, pr, key, state, head);
      }
    }
  }

  // ---------------------------------------------------------------- posts and the account cooldown

  /** Every recorded post pushed the account cooldown out in full, and every scheduler post began no sooner than that
      after every earlier recorded one. */
  predicate PostsSpaced(posts: seq<Post>, next: Option<int>, cooldown: int) {
    && (forall i :: 0 <= i < |posts| ==>
          posts[i].gatedAt <= posts[i].recordedAt && next.Some? && posts[i].recordedAt + cooldown <= next.value)
    && (forall i, j :: 0 <= i < j < |posts| && posts[j].source == Scheduler ==>
          posts[i].recordedAt + cooldown <= posts[j].gatedAt)
  }

  /** The account cooldown does not move back and no recorded post is forgotten. */
  predicate CooldownKept(t: Tables, t': Tables, cooldown: int) {
    && PostsSpaced(t'.posts, t'.nextReviewAt, cooldown)
    && NotAfter(t.nextReviewAt, t'.nextReviewAt)
    && t.posts <= t'.posts
  }

  /** What is stored as the account cooldown was a valid date. */
  predicate CooldownValid(t: Tables) {
    t.nextReviewAt.Some? ==> ValidTime(t.nextReviewAt.value)
  }

  /** No earlier instant is offered whose text comes after the stored one. */
  predicate OfferInOrder(t: Tables, s: Step) {
    s.action.OfferNextReview? ==> !MovesBack(t.nextReviewAt, s.action.at)
  }

  lemma TriggerKeepsCooldown(t: Tables, t': Tables, id: nat, gh: Answers, source: TriggerSource, cfg: Config, now: int,
                             recordedAt: int)
    requires PostsSpaced(t.posts, t.nextReviewAt, cfg.accountCooldown) && now <= recordedAt
    requires source == Scheduler && t.nextReviewAt.Some? ==> t.nextReviewAt.value <= now
    requires TriggerEffects(t, t', id, gh, source, cfg, now, recordedAt)
    ensures CooldownKept(t, t', cfg.accountCooldown)
  {
  }

  lemma DetectKeepsPosts(t: Tables, c: Detected, review: Option<int>, cfg: Config, now: int)
    requires QueueOk(t) && Handle(t, c, review, cfg, now).Handled?
    ensures var t' := Handle(t, c, review, cfg, now).tables;
      t'.posts == t.posts && t'.nextReviewAt == t.nextReviewAt && t'.comments == Upserted(t.comments, c.delivery, now)
  {
    if !Dismissed(t.comments, review, c.delivery.content.ghUpdatedAt) && !IsVerdict(c.delivery.content.kind) {
      EnqueueFramed(Noted(t, c.delivery, now), c, cfg, now);
    }
  }

  /** What a step that offers nothing does to the account cooldown: nothing, or it moves it forward to the cooldown of a
      post or to where a latest limit comment puts it. */
  predicate CooldownMoves(t: Tables, t': Tables, s: Step, cfg: Config) {
    || t'.nextReviewAt == t.nextReviewAt
    || (TriggerAction(s.action)
        && (CooldownFollows(t.nextReviewAt, t'.nextReviewAt, s.action.answers, cfg)
            || t'.nextReviewAt == Later(t.nextReviewAt, s.recordedAt + cfg.accountCooldown)))
  }

  lemma StepMovesCooldown(t: Tables, s: Step, cfg: Config)
    requires QueueOk(t) && Enabled(t, s, cfg) && !s.action.OfferNextReview?
    ensures CooldownMoves(t, Apply(t, s, cfg), s, cfg)
  {
    if ScanAction(s.action) {
      ScanEffects(t, s, cfg);
    } else if NoteAction(s.action) {
      NoteEffects(t, s, cfg);
    } else {
      match s.action {
        case TriggerFromTick(id, gh) => SelectionEffects(t, id, gh, cfg, s.now, s.recordedAt);
        case TriggerFromDashboard(id, gh) => DashboardEffects(t, id, gh, cfg, s.now, s.recordedAt);
        case Detect(c, review) =>
          if Handle(t, c, review, cfg, s.now).Handled? { DetectKeepsPosts(t, c, review, cfg, s.now); }
        case DetectorWrite(id, item, w) => DetectorWriteEffects(t, id, item, w, s.now);
        case ObservePr(_, _, _, _) =>
      }
    }
  }

  lemma StepKeepsCooldownValid(t: Tables, s: Step, cfg: Config)
    requires QueueOk(t) && CooldownValid(t) && Enabled(t, s, cfg)
    ensures CooldownValid(Apply(t, s, cfg))
  {
    if s.action.OfferNextReview? { OfferEffects(t, s, cfg); } else { StepMovesCooldown(t, s, cfg); }
  }

  /** A step moves the account cooldown back exactly when it offers an earlier instant out of text order. */
  lemma CooldownMovesBackExactly(t: Tables, s: Step, cfg: Config)
    requires QueueOk(t) && CooldownValid(t) && Enabled(t, s, cfg)
    ensures NotAfter(t.nextReviewAt, Apply(t, s, cfg).nextReviewAt) <==> OfferInOrder(t, s)
  {
    if s.action.OfferNextReview? {
      OfferEffects(t, s, cfg);
      if ValidTime(s.action.at) { MovesBackExactly(t.nextReviewAt, s.action.at); }
    } else {
      StepMovesCooldown(t, s, cfg);
    }
  }

  lemma StepKeepsPosts(t: Tables, s: Step, cfg: Config)
    requires QueueOk(t) && Enabled(t, s, cfg)
    ensures TriggerAction(s.action) || Apply(t, s, cfg).posts == t.posts
    ensures t.posts <= Apply(t, s, cfg).posts
  {
    if ScanAction(s.action) {
      ScanEffects(t, s, cfg);
    } else if NoteAction(s.action) {
      NoteEffects(t, s, cfg);
    } else {
      match s.action {
        case TriggerFromTick(id, gh) => SelectionEffects(t, id, gh, cfg, s.now, s.recordedAt);
        case TriggerFromDashboard(id, gh) => DashboardEffects(t, id, gh, cfg, s.now, s.recordedAt);
        case Detect(c, review) =>
          if Handle(t, c, review, cfg, s.now).Handled? { DetectKeepsPosts(t, c, review, cfg, s.now); }
        case DetectorWrite(id, item, w) => DetectorWriteEffects(t, id, item, w, s.now);
        case ObservePr(_, _, _, _) =>
      }
    }
  }

  lemma SamePostsStaySpaced(t: Tables, t': Tables, cooldown: int)
    requires PostsSpaced(t.posts, t.nextReviewAt, cooldown) && t'.posts == t.posts
    requires NotAfter(t.nextReviewAt, t'.nextReviewAt)
    ensures CooldownKept(t, t', cooldown)
  {
  }

  lemma TriggerActionKeepsCooldown(t: Tables, s: Step, cfg: Config)
    requires PostsSpaced(t.posts, t.nextReviewAt, cfg.accountCooldown) && Enabled(t, s, cfg) && TriggerAction(s.action)
    ensures CooldownKept(t, ApplyTrigger(t, s, cfg), cfg.accountCooldown)
  {
    match s.action {
      case TriggerFromTick(id, gh) =>
        SelectionEffects(t, id, gh, cfg, s.now, s.recordedAt);
        TriggerKeepsCooldown(t, ApplyTrigger(t, s, cfg), id, gh, Scheduler, cfg, s.now, s.recordedAt);
      case TriggerFromDashboard(id, gh) =>
        DashboardEffects(t, id, gh, cfg, s.now, s.recordedAt);
        TriggerKeepsCooldown(t, ApplyTrigger(t, s, cfg), id, gh, DashboardRetriggerNow, cfg, s.now, s.recordedAt);
    }
  }

  /** While no offer is out of order, no step moves the account cooldown back, and a scheduler post waits for it. */
  lemma StepKeepsCooldown(t: Tables, s: Step, cfg: Config)
    requires QueueOk(t) && CooldownValid(t) && Enabled(t, s, cfg) && OfferInOrder(t, s)
    requires PostsSpaced(t.posts, t.nextReviewAt, cfg.accountCooldown)
    ensures CooldownKept(t, Apply(t, s, cfg), cfg.accountCooldown)
  {
    if TriggerAction(s.action) {
      TriggerActionKeepsCooldown(t, s, cfg);
    } else {
      StepKeepsPosts(t, s, cfg);
      CooldownMovesBackExactly(t, s, cfg);
      SamePostsStaySpaced(t, Apply(t, s, cfg), cfg.accountCooldown);
    }
  }

  // ---------------------------------------------------------------- four-digit years

  /** Every instant that may become the account cooldown lies in the years 0 to 9999: what is offered, where a latest
      limit comment puts it, and the cooldown of a post. */
  predicate FourDigitStep(s: Step, cfg: Config) {
    match s.action
    case OfferNextReview(at) => ValidTime(at) ==> FourDigitInstant(at)
    case TriggerFromTick(_, gh) => FourDigitAnswers(gh, cfg) && FourDigitInstant(s.recordedAt + cfg.accountCooldown)
    case TriggerFromDashboard(_, gh) =>
      FourDigitAnswers(gh, cfg) && FourDigitInstant(s.recordedAt + cfg.accountCooldown)
    case _ => true
  }

  predicate FourDigitAnswers(gh: Answers, cfg: Config) {
    gh.latest.Latest? && gh.replacement.Fetched? && ValidTime(EarliestOf(gh, cfg)) ==>
      FourDigitInstant(EarliestOf(gh, cfg))
  }

  predicate FourDigitCooldown(t: Tables) {
    t.nextReviewAt.Some? ==> FourDigitInstant(t.nextReviewAt.value)
  }

  lemma StepKeepsFourDigits(t: Tables, s: Step, cfg: Config)
    requires QueueOk(t) && Enabled(t, s, cfg) && FourDigitStep(s, cfg) && FourDigitCooldown(t)
    ensures FourDigitCooldown(Apply(t, s, cfg)) && OfferInOrder(t, s)
  {
    if s.action.OfferNextReview? {
      OfferEffects(t, s, cfg);
      if ValidTime(s.action.at) { FourDigitsNeverMoveBack(t.nextReviewAt, s.action.at); }
    } else {
      StepMovesCooldown(t, s, cfg);
    }
  }

  // ---------------------------------------------------------------- the queue order

  lemma DetectKeepsOrders(t: Tables, c: Detected, review: Option<int>, cfg: Config, now: int)
    requires QueueOk(t) && QueueOrder.OrdersOk(t) && Handle(t, c, review, cfg, now).Handled?
    ensures QueueOrder.OrdersOk(Handle(t, c, review, cfg, now).tables)
  {
    if !Dismissed(t.comments, review, c.delivery.content.ghUpdatedAt) && !IsVerdict(c.delivery.content.kind) {
      QueueOrder.EnqueueKeepsOrdersOk(Noted(t, c.delivery, now), EnqueueDataOf(c, cfg.fallbackWait),
                                      cfg.detectionLookback, now);
    }
  }

  lemma NoteKeepsOrders(t: Tables, s: Step, cfg: Config)
    requires QueueOk(t) && QueueOrder.OrdersOk(t) && Enabled(t, s, cfg) && NoteAction(s.action)
    ensures QueueOrder.OrdersOk(ApplyNote(t, s, cfg))
  {
    if s.action.Reorder? { QueueOrder.AssigningKeepsOrdersOk(t, s.action.ids, |s.action.ids|); }
  }

  lemma TriggerKeepsOrders(t: Tables, s: Step, cfg: Config)
    requires QueueOrder.OrdersOk(t) && Enabled(t, s, cfg) && TriggerAction(s.action)
    ensures QueueOrder.OrdersOk(ApplyTrigger(t, s, cfg))
  {
    match s.action {
      case TriggerFromTick(id, gh) => SelectionEffects(t, id, gh, cfg, s.now, s.recordedAt);
      case TriggerFromDashboard(id, gh) => DashboardEffects(t, id, gh, cfg, s.now, s.recordedAt);
    }
  }

  lemma DetectorWriteKeepsOrders(t: Tables, id: nat, item: QueueRow, w: Write, now: int)
    requires QueueOk(t) && QueueOrder.OrdersOk(t)
    ensures QueueOrder.OrdersOk(Perform(t, id, item, w, now))
  {
    match w {
      case Leave =>
      case Resolve(_) =>
      case RecordReview(_, _, _) =>
      case ReviewedViaFallback =>
      case ReopenAsPending(_) =>
      case AdoptRun(_) =>
    }
  }

  /** Every step keeps the order rows numbered in increasing order and tied to queue rows. */
  lemma StepKeepsOrders(t: Tables, s: Step, cfg: Config)
    requires QueueOk(t) && QueueOrder.OrdersOk(t) && Enabled(t, s, cfg)
    ensures QueueOrder.OrdersOk(Apply(t, s, cfg))
  {
    if ScanAction(s.action) {
      ScanEffects(t, s, cfg);
    } else if TriggerAction(s.action) {
      TriggerKeepsOrders(t, s, cfg);
    } else if NoteAction(s.action) {
      NoteKeepsOrders(t, s, cfg);
    } else {
      match s.action {
        case Detect(c, review) =>
          if Handle(t, c, review, cfg, s.now).Handled? { DetectKeepsOrders(t, c, review, cfg, s.now); }
        case DetectorWrite(id, item, w) => DetectorWriteKeepsOrders(t, id, item, w, s.now);
        case ObservePr(_, _, _, _) =>
      }
    }
  }

  // ---------------------------------------------------------------- the comment log

  /** The local clock is not behind the timestamp of what is delivered. */
  predicate Timely(s: Step) {
    match s.action
    case Detect(c, _) => c.delivery.content.ghUpdatedAt <= s.now
    case RecordWalkthrough(d) => d.content.ghUpdatedAt <= s.now
    case StoreEdit(d) => d.content.ghUpdatedAt <= s.now
    case _ => true
  }

  /** Whatever was seen stays seen. */
  ghost predicate SeenKept(log: map<int, CommentRow>, log': map<int, CommentRow>) {
    forall p, c, u :: Seen(log, p, c, u) ==> Seen(log', p, c, u)
  }

  /** How a step may change the comment log: not at all, or by one delivery. */
  lemma StepTouchesLog(t: Tables, s: Step, cfg: Config) returns (d: Option<Delivery>)
    requires QueueOk(t) && Enabled(t, s, cfg) && Timely(s)
    ensures d.None? ==> Apply(t, s, cfg).comments == t.comments
    ensures d.Some? ==>
      && Apply(t, s, cfg).comments == Upserted(t.comments, d.value, s.now)
      && CommentHome(t.comments, d.value) && d.value.content.ghUpdatedAt <= s.now
  {
    d := None;
    if ScanAction(s.action) {
      ScanEffects(t, s, cfg);
    } else if NoteAction(s.action) {
      NoteEffects(t, s, cfg);
      if s.action.RecordWalkthrough? || s.action.StoreEdit? { d := Some(s.action.delivery); }
    } else {
      match s.action {
        case TriggerFromTick(id, gh) => SelectionEffects(t, id, gh, cfg, s.now, s.recordedAt);
        case TriggerFromDashboard(id, gh) => DashboardEffects(t, id, gh, cfg, s.now, s.recordedAt);
        case Detect(c, review) =>
          if Handle(t, c, review, cfg, s.now).Handled? {
            DetectKeepsPosts(t, c, review, cfg, s.now);
            d := Some(c.delivery);
          }
        case DetectorWrite(id, item, w) => DetectorWriteEffects(t, id, item, w, s.now);
        case ObservePr(_, _, _, _) =>
      }
    }
  }

  lemma StepKeepsLog(t: Tables, s: Step, cfg: Config, before: int)
    requires QueueOk(t) && Enabled(t, s, cfg) && Timely(s) && LogInv(t.comments, before) && before <= s.now
    ensures LogInv(Apply(t, s, cfg).comments, s.now) && SeenKept(t.comments, Apply(t, s, cfg).comments)
  {
    var d := StepTouchesLog(t, s, cfg);
    if d.Some? { UpsertMarksSeen(t.comments, d.value, before, s.now); }
  }
}
