/** Whole runs of the system: any sequence of enabled steps, in any order, under a clock that does not go back. */
module Runs {
  import opened Domain
  import opened Transitions
  import opened QueueInvariant
  import opened EnqueueSpec
  import opened TriggerSpec
  import opened DetectionSpec
  import opened CommentLog
  import opened Steps
  import opened SystemInvariant
  import QueueOrder

  datatype Run = Run(states: seq<Tables>, steps: seq<Step>)

  ghost predicate StepsTo(t: Tables, s: Step, t': Tables, cfg: Config) {
    Enabled(t, s, cfg) && t' == Apply(t, s, cfg)
  }

  ghost predicate IsRun(r: Run, cfg: Config) {
    && |r.states| == |r.steps| + 1
    && (forall i :: 0 <= i < |r.steps| ==>
          Enabled(r.states[i], r.steps[i], cfg) && r.states[i + 1] == Apply(r.states[i], r.steps[i], cfg))
    && (forall i, j :: 0 <= i < j < |r.steps| ==> r.steps[i].recordedAt <= r.steps[j].now)
  }

  ghost predicate SystemInv(t: Tables) {
    QueueOk(t) && Linked(t) && LedgerOk(t) && CooldownValid(t) && QueueOrder.OrdersOk(t)
  }

  lemma EmptyTablesAreOk(cooldown: int, now: int)
    ensures SystemInv(EMPTY_TABLES) && FourDigitCooldown(EMPTY_TABLES) && LogInv(EMPTY_TABLES.comments, now)
    ensures PostsSpaced(EMPTY_TABLES.posts, EMPTY_TABLES.nextReviewAt, cooldown)
  {
  }

  /** What no step takes back: rows and their identities, attempts, terminal resolutions, recorded events and posts. */
  predicate Onward(t: Tables, t': Tables) {
    && QueueProgress(t.queue, t'.queue)
    && SameIdentities(t.prs, t'.prs)
    && t.events <= t'.events && t.posts <= t'.posts
  }

  lemma OnwardTwice(t: Tables, t': Tables, t'': Tables)
    requires Onward(t, t') && Onward(t', t'')
    ensures Onward(t, t'')
  {
  }

  lemma LinksSurvive(t: Tables, t': Tables)
    requires Linked(t) && QueueKept(t, t') && LedgerKept(t, t')
    ensures Linked(t')
  {
  }

  lemma StepKeepsInv(t: Tables, s: Step, cfg: Config)
    requires cfg.Valid() && SystemInv(t) && Enabled(t, s, cfg)
    ensures SystemInv(Apply(t, s, cfg)) && Onward(t, Apply(t, s, cfg))
  {
    StepKeepsQueue(t, s, cfg);
    StepKeepsLedger(t, s, cfg);
    StepKeepsCooldownValid(t, s, cfg);
    StepKeepsPosts(t, s, cfg);
    StepKeepsOrders(t, s, cfg);
    LinksSurvive(t, Apply(t, s, cfg));
  }

  lemma {:induction false} RunKeepsInv(r: Run, cfg: Config, i: nat)
    requires cfg.Valid() && IsRun(r, cfg) && SystemInv(r.states[0]) && i < |r.states|
    ensures SystemInv(r.states[i])
  {
    if i > 0 {
      RunKeepsInv(r, cfg, i - 1);
      StepKeepsInv(r.states[i - 1], r.steps[i - 1], cfg);
    }
  }

  lemma {:induction false} RunGoesOnward(r: Run, cfg: Config, i: nat, j: nat)
    requires cfg.Valid() && IsRun(r, cfg) && SystemInv(r.states[0]) && i <= j < |r.states|
    ensures Onward(r.states[i], r.states[j])
    decreases j - i
  {
    if i < j {
      RunGoesOnward(r, cfg, i, j - 1);
      RunKeepsInv(r, cfg, j - 1);
      StepKeepsInv(r.states[j - 1], r.steps[j - 1], cfg);
      OnwardTwice(r.states[i], r.states[j - 1], r.states[j]);
    }
  }

  // ---------------------------------------------------------------- building runs

  /** A run of no steps. */
  function Still(t: Tables): Run {
    Run([t], [])
  }

  function Last(r: Run): Tables
    requires r.states != []
  {
    r.states[|r.states| - 1]
  }

  function Extended(r: Run, s: Step, t: Tables): Run {
    Run(r.states + [t], r.steps + [s])
  }

  lemma ExtendRun(r: Run, s: Step, cfg: Config)
    requires IsRun(r, cfg) && Enabled(Last(r), s, cfg)
    requires forall i :: 0 <= i < |r.steps| ==> r.steps[i].recordedAt <= s.now
    ensures IsRun(Extended(r, s, Apply(Last(r), s, cfg)), cfg)
  {
  }

  /** A run from `t0` up to an instant. */
  ghost predicate RunUntil(run: Run, t0: Tables, cfg: Config, until: int) {
    && IsRun(run, cfg) && run.states[0] == t0
    && forall i :: 0 <= i < |run.steps| ==> run.steps[i].recordedAt <= until
  }

  predicate Continues(run: Run, run': Run) {
    run.states <= run'.states && run.steps <= run'.steps
  }

  lemma ContinuesTwice(run: Run, run': Run, run'': Run)
    requires Continues(run, run') && Continues(run', run'')
    ensures Continues(run, run'') && |run.steps| <= |run'.steps| <= |run''.steps|
  {
  }

  lemma StepRuns(run: Run, t0: Tables, cfg: Config, s: Step) returns (run': Run)
    requires RunUntil(run, t0, cfg, s.now) && s.recordedAt == s.now && Enabled(Last(run), s, cfg)
    ensures RunUntil(run', t0, cfg, s.now) && Continues(run, run') && Last(run') == Apply(Last(run), s, cfg)
    ensures |run'.steps| == |run.steps| + 1 && run'.steps[|run.steps|] == s && |run'.states| == |run'.steps| + 1
  {
    ExtendRun(run, s, cfg);
    run' := Extended(run, s, Apply(Last(run), s, cfg));
  }

  /** `r`, then `s` from where `r` ended. */
  function Joined(r: Run, s: Run): Run
    requires s.states != []
  {
    Run(r.states + s.states[1..], r.steps + s.steps)
  }

  lemma StepOfJoined(r: Run, s: Run, cfg: Config, i: nat)
    requires IsRun(r, cfg) && IsRun(s, cfg) && Last(r) == s.states[0] && i < |r.steps| + |s.steps|
    ensures var joined := Joined(r, s); StepsTo(joined.states[i], joined.steps[i], joined.states[i + 1], cfg)
  {
    hide Enabled, Apply;
    var joined, n := Joined(r, s), |r.steps|;
    if i < n {
      assert StepsTo(r.states[i], r.steps[i], r.states[i + 1], cfg);
      assert joined.states[i] == r.states[i] && joined.states[i + 1] == r.states[i + 1];
      assert joined.steps[i] == r.steps[i];
    } else {
      assert StepsTo(s.states[i - n], s.steps[i - n], s.states[i + 1 - n], cfg);
      assert joined.states[i] == s.states[i - n] && joined.states[i + 1] == s.states[i + 1 - n];
      assert joined.steps[i] == s.steps[i - n];
    }
  }

  lemma JoinRuns(r: Run, s: Run, cfg: Config)
    requires IsRun(r, cfg) && IsRun(s, cfg) && Last(r) == s.states[0]
    requires forall i, j :: 0 <= i < |r.steps| && 0 <= j < |s.steps| ==> r.steps[i].recordedAt <= s.steps[j].now
    ensures IsRun(Joined(r, s), cfg) && Last(Joined(r, s)) == Last(s)
  {
    hide Enabled, Apply;
    var joined := Joined(r, s);
    forall i | 0 <= i < |joined.steps| ensures StepsTo(joined.states[i], joined.steps[i], joined.states[i + 1], cfg) {
      StepOfJoined(r, s, cfg, i);
    }
  }

  // ---------------------------------------------------------------- safety over runs

  /** In every reachable state each pull request has at most one active row. */
  lemma AtMostOneActiveRow(r: Run, cfg: Config, i: nat, a: nat, b: nat)
    requires cfg.Valid() && IsRun(r, cfg) && SystemInv(r.states[0]) && i < |r.states|
    requires a in r.states[i].queue && b in r.states[i].queue
    requires Active(r.states[i].queue[a]) && Active(r.states[i].queue[b])
    requires r.states[i].queue[a].key == r.states[i].queue[b].key
    ensures a == b
  {
    RunKeepsInv(r, cfg, i);
  }

  /** In every reachable state, resolution data mark exactly the resolved rows and every retriggered row has a clock. */
  lemma RowsAreWellShaped(r: Run, cfg: Config, i: nat, id: nat)
    requires cfg.Valid() && IsRun(r, cfg) && SystemInv(r.states[0]) && i < |r.states| && id in r.states[i].queue
    ensures var row := r.states[i].queue[id];
      && (row.status == Resolved <==> row.resolution.Some? && row.resolvedAt.Some?)
      && (row.status != Resolved ==> row.resolution.None? && row.resolvedAt.None?)
      && (row.status == Retriggered ==> row.retriggeredAt.Some?)
  {
    RunKeepsInv(r, cfg, i);
  }

  /** A merged, closed, manual or stale-comment resolution is for ever, and attempts never decrease, even across
      reopenings. */
  lemma RowsOnlyProgress(r: Run, cfg: Config, i: nat, j: nat, id: nat)
    requires cfg.Valid() && IsRun(r, cfg) && SystemInv(r.states[0]) && i <= j < |r.states| && id in r.states[i].queue
    ensures id in r.states[j].queue
    ensures r.states[i].queue[id].attempts <= r.states[j].queue[id].attempts
    ensures Terminal(r.states[i].queue[id]) ==> Terminal(r.states[j].queue[id])
  {
    RunGoesOnward(r, cfg, i, j);
  }

  /** The counters of every pull request equal the numbers of its events. */
  lemma CountersAreConserved(r: Run, cfg: Config, n: nat, p: nat)
    requires cfg.Valid() && IsRun(r, cfg) && SystemInv(r.states[0]) && n < |r.states| && p in r.states[n].prs
    ensures var t := r.states[n];
      && t.prs[p].retriggerCount == Retriggers(t.events, t.prs[p].key)
      && t.prs[p].reviewCount == Reviews(t.events, t.prs[p].key)
  {
    RunKeepsInv(r, cfg, n);
  }

  // ---------------------------------------------------------------- the account cooldown

  ghost predicate OffersInOrder(r: Run) {
    forall i :: 0 <= i < |r.steps| && i < |r.states| ==> OfferInOrder(r.states[i], r.steps[i])
  }

  predicate FourDigitRun(r: Run, cfg: Config) {
    forall i :: 0 <= i < |r.steps| ==> FourDigitStep(r.steps[i], cfg)
  }

  lemma {:induction false} FourDigitsStay(r: Run, cfg: Config, n: nat)
    requires cfg.Valid() && IsRun(r, cfg) && SystemInv(r.states[0]) && n < |r.states|
    requires FourDigitRun(r, cfg) && FourDigitCooldown(r.states[0])
    ensures FourDigitCooldown(r.states[n])
  {
    if n > 0 {
      FourDigitsStay(r, cfg, n - 1);
      RunKeepsInv(r, cfg, n - 1);
      StepKeepsFourDigits(r.states[n - 1], r.steps[n - 1], cfg);
    }
  }

  /** In a run whose instants all lie in the years 0 to 9999 no offer is out of order. */
  lemma FourDigitsKeepOrder(r: Run, cfg: Config)
    requires cfg.Valid() && IsRun(r, cfg) && SystemInv(r.states[0])
    requires FourDigitRun(r, cfg) && FourDigitCooldown(r.states[0])
    ensures OffersInOrder(r)
  {
    forall i | 0 <= i < |r.steps| ensures OfferInOrder(r.states[i], r.steps[i]) {
      FourDigitsStay(r, cfg, i);
      RunKeepsInv(r, cfg, i);
      StepKeepsFourDigits(r.states[i], r.steps[i], cfg);
    }
  }

  lemma {:induction false} RunKeepsSpacing(r: Run, cfg: Config, n: nat)
    requires cfg.Valid() && IsRun(r, cfg) && SystemInv(r.states[0]) && n < |r.states| && OffersInOrder(r)
    requires PostsSpaced(r.states[0].posts, r.states[0].nextReviewAt, cfg.accountCooldown)
    ensures PostsSpaced(r.states[n].posts, r.states[n].nextReviewAt, cfg.accountCooldown)
  {
    if n > 0 {
      RunKeepsSpacing(r, cfg, n - 1);
      RunKeepsInv(r, cfg, n - 1);
      StepKeepsCooldown(r.states[n - 1], r.steps[n - 1], cfg);
    }
  }

  /** As long as no offer is out of order the account cooldown never moves back. */
  lemma {:induction false} CooldownGoesOnward(r: Run, cfg: Config, i: nat, j: nat)
    requires cfg.Valid() && IsRun(r, cfg) && SystemInv(r.states[0]) && OffersInOrder(r) && i <= j < |r.states|
    ensures NotAfter(r.states[i].nextReviewAt, r.states[j].nextReviewAt)
    decreases j - i
  {
    if i < j {
      CooldownGoesOnward(r, cfg, i, j - 1);
      RunKeepsInv(r, cfg, j - 1);
      CooldownMovesBackExactly(r.states[j - 1], r.steps[j - 1], cfg);
    }
  }

  /** In a run whose instants all lie in the years 0 to 9999, the account cooldown never moves back, and every scheduler
      post begins at least the account cooldown after every earlier recorded post, whoever made it. */
  lemma SchedulerPostsAreSpaced(r: Run, cfg: Config, n: nat, m: nat, i: nat, j: nat)
    requires cfg.Valid() && IsRun(r, cfg) && SystemInv(r.states[0]) && n <= m < |r.states|
    requires PostsSpaced(r.states[0].posts, r.states[0].nextReviewAt, cfg.accountCooldown)
    requires FourDigitRun(r, cfg) && FourDigitCooldown(r.states[0])
    ensures NotAfter(r.states[n].nextReviewAt, r.states[m].nextReviewAt)
    ensures i < j < |r.states[m].posts| && r.states[m].posts[j].source == Scheduler ==>
      r.states[m].posts[i].gatedAt + cfg.accountCooldown
      <= r.states[m].posts[i].recordedAt + cfg.accountCooldown
      <= r.states[m].posts[j].gatedAt
  {
    FourDigitsKeepOrder(r, cfg);
    CooldownGoesOnward(r, cfg, n, m);
    RunKeepsSpacing(r, cfg, m);
  }

  /** A row resolved by hand is resolved as a manual review, and never becomes active again. */
  lemma HandResolutionIsFinal(r: Run, cfg: Config, i: nat, j: nat)
    requires cfg.Valid() && IsRun(r, cfg) && SystemInv(r.states[0]) && i < j < |r.states|
    requires r.steps[i].action.ResolveByHand?
    ensures
      var id := r.steps[i].action.id;
      && id in r.states[i].queue
      && r.states[i + 1].queue == r.states[i].queue[id := r.states[i].queue[id].(
           status := Resolved, resolution := Some(ManualReview), resolvedAt := Some(r.steps[i].now))]
      && id in r.states[j].queue && r.states[j].queue[id].status == Resolved
  {
    RowsOnlyProgress(r, cfg, i + 1, j, r.steps[i].action.id);
  }

  // ---------------------------------------------------------------- reopening

  lemma ScanKeepsResolved(t: Tables, s: Step, cfg: Config, id: nat)
    requires Enabled(t, s, cfg) && ScanAction(s.action) && id in t.queue && t.queue[id].status == Resolved
    ensures id in ApplyScan(t, s, cfg).queue && ApplyScan(t, s, cfg).queue[id].status == Resolved
  {
    match s.action {
      case Prune(_, _) =>
      case ResolveScanned(_, _) =>
      case SweepStale =>
      case MarkSkipped(_, _) =>
      case ResolveByHand(_) =>
    }
  }

  lemma OnlyDetectionReopens(t: Tables, s: Step, cfg: Config, id: nat)
    requires cfg.Valid() && QueueOk(t) && Enabled(t, s, cfg) && id in t.queue
    requires t.queue[id].status == Resolved && !s.action.Detect?
    ensures id in Apply(t, s, cfg).queue && Apply(t, s, cfg).queue[id].status == Resolved
  {
    if ScanAction(s.action) {
      ScanKeepsResolved(t, s, cfg, id);
    } else if NoteAction(s.action) {
      NoteEffects(t, s, cfg);
    } else {
      match s.action {
        case TriggerFromTick(o, gh) => SelectionSettles(t, o, gh, cfg, s.now, s.recordedAt);
        case TriggerFromDashboard(o, gh) =>
          var p := Decide(t.queue[o], gh, cfg);
          if p.PostRetrigger? && gh.post.PostOk? {
            RecordPostRewrites(t, o, gh.post.url, gh, p.runId, DashboardRetriggerNow, cfg, s.now, s.recordedAt);
          }
        case DetectorWrite(o, item, w) => DetectorWriteIsGuarded(t, o, item, w, s.now);
        case ObservePr(_, _, _, _) =>
      }
    }
  }

  /** The row was resolved and is not any more. */
  predicate Reopens(t: Tables, t': Tables, id: nat) {
    id in t.queue && t.queue[id].status == Resolved && id in t'.queue && t'.queue[id].status != Resolved
  }

  /** The step that brings a resolved row back. */
  ghost predicate LegalReopening(t: Tables, s: Step, cfg: Config, id: nat)
    requires id in t.queue
  {
    var row := t.queue[id];
    && s.action.Detect?
    && Reopenable(row.resolution) && row.resolvedAt.Some?
    && row.commentId == s.action.comment.delivery.commentId
    && s.action.comment.delivery.content.ghUpdatedAt > row.resolvedAt.value
    && (RowIn(t.queue, row.key, Retriggered).None? ==>
          && row.resolvedAt.value < s.now - COMPLETED_GUARD_WINDOW
          && !CoolingDown(EnqueueDataOf(s.action.comment, cfg.fallbackWait), s.now))
  }

  lemma DetectReopensLegally(t: Tables, s: Step, cfg: Config, id: nat)
    requires QueueOk(t) && Enabled(t, s, cfg) && s.action.Detect? && id in t.queue
    ensures Reopens(t, Apply(t, s, cfg), id) ==>
      Apply(t, s, cfg).queue[id].status == Pending && LegalReopening(t, s, cfg, id)
  {
    if Reopens(t, Apply(t, s, cfg), id) {
      var c := s.action.comment;
      DetectKeepsQueue(t, c, s.action.review, cfg, s.now);
      assert t.queue[id].key == c.key;
      if RowIn(t.queue, c.key, Retriggered).None? {
        CreatePathWaits(Noted(t, c.delivery, s.now), EnqueueDataOf(c, cfg.fallbackWait), cfg.detectionLookback, s.now,
                        id);
      }
    }
  }

  /** A resolved row becomes active only as pending, by the delivery of its own comment, edited after the row was
      resolved as completed, failed or skipped; and when no row of the pull request is retriggered, only after the
      guard window and any cooldown. */
  lemma ReopeningIsLegal(r: Run, cfg: Config, i: nat, id: nat)
    requires cfg.Valid() && IsRun(r, cfg) && SystemInv(r.states[0]) && i < |r.steps|
    requires id in r.states[i].queue
    ensures Reopens(r.states[i], r.states[i + 1], id) ==>
      r.states[i + 1].queue[id].status == Pending && LegalReopening(r.states[i], r.steps[i], cfg, id)
  {
    RunKeepsInv(r, cfg, i);
    if r.steps[i].action.Detect? {
      DetectReopensLegally(r.states[i], r.steps[i], cfg, id);
    } else if r.states[i].queue[id].status == Resolved {
      OnlyDetectionReopens(r.states[i], r.steps[i], cfg, id);
    }
  }

  // ---------------------------------------------------------------- the attempt cap

  /** Step `k` is a scheduler selection of row `id` that left it unresolved without rescheduling it. */
  ghost predicate Survives(r: Run, k: nat, id: nat) {
    && k < |r.steps| && k + 1 < |r.states|
    && r.steps[k].action.TriggerFromTick? && r.steps[k].action.id == id
    && id in r.states[k + 1].queue && r.states[k + 1].queue[id].status == Retriggered
  }

  ghost function Survivals(r: Run, n: nat, id: nat): nat {
    if n == 0 then 0 else Survivals(r, n - 1, id) + (if Survives(r, n - 1, id) then 1 else 0)
  }

  /** A selection leaves the row retriggered, still pending but rescheduled, or resolved. */
  lemma SurvivalCostsAnAttempt(t: Tables, s: Step, cfg: Config)
    requires QueueOk(t) && Enabled(t, s, cfg) && s.action.TriggerFromTick?
    ensures var id, t' := s.action.id, Apply(t, s, cfg);
      && id in t'.queue
      && (t'.queue[id].status == Retriggered ==>
            t'.queue[id].attempts == t.queue[id].attempts + 1 && t.queue[id].attempts < cfg.maxAttempts)
      && (t'.queue[id].status == Pending ==> Decide(t.queue[id], s.action.answers, cfg).Reschedule?)
  {
    SelectionSettles(t, s.action.id, s.action.answers, cfg, s.now, s.recordedAt);
  }

  /** Over a whole run, at most `maxAttempts` selections of a row leave it unresolved, reschedules aside; and never
      more than its attempts. */
  lemma {:induction false} SurvivalsAreCapped(r: Run, cfg: Config, n: nat, id: nat)
    requires cfg.Valid() && IsRun(r, cfg) && SystemInv(r.states[0]) && n < |r.states|
    ensures Survivals(r, n, id) <= cfg.maxAttempts
    ensures if id in r.states[n].queue then Survivals(r, n, id) <= r.states[n].queue[id].attempts
            else Survivals(r, n, id) == 0
  {
    if n > 0 {
      SurvivalsAreCapped(r, cfg, n - 1, id);
      RunKeepsInv(r, cfg, n - 1);
      StepKeepsInv(r.states[n - 1], r.steps[n - 1], cfg);
      if Survives(r, n - 1, id) { SurvivalCostsAnAttempt(r.states[n - 1], r.steps[n - 1], cfg); }
    }
  }

  // ---------------------------------------------------------------- stale rows, snapshots and seen comments

  /** A sweep leaves no retriggered row whose clock is older than the maximum age: such a row is resolved as failed. */
  lemma SweepResolvesTheStale(r: Run, cfg: Config, i: nat, id: nat)
    requires cfg.Valid() && IsRun(r, cfg) && SystemInv(r.states[0]) && i < |r.steps| && r.steps[i].action.SweepStale?
    requires id in r.states[i].queue && r.states[i].queue[id].status == Retriggered
    ensures
      var row, row' := r.states[i].queue[id], r.states[i + 1].queue[id];
      var limit := r.steps[i].now - cfg.maxRetriggerAge;
      && row.retriggeredAt.Some?
      && (row.retriggeredAt.value < limit ==> row'.status == Resolved && row'.resolution == Some(Failed))
      && (row.retriggeredAt.value >= limit ==> row' == row)
  {
    RunKeepsInv(r, cfg, i);
  }

  /** An item loaded in an earlier state of the run keeps the identity that a later guarded write relies on. */
  lemma SnapshotsKeepTheirIdentity(r: Run, cfg: Config, i: nat, j: nat, id: nat)
    requires cfg.Valid() && IsRun(r, cfg) && SystemInv(r.states[0]) && i <= j < |r.states| && id in r.states[i].queue
    ensures var item := r.states[i].queue[id];
      && id in r.states[j].queue && r.states[j].queue[id].key == item.key
      && r.states[j].queue[id].pullRequestId == item.pullRequestId
  {
    RunGoesOnward(r, cfg, i, j);
  }

  ghost predicate TimelyRun(r: Run, before: int) {
    forall i :: 0 <= i < |r.steps| ==> Timely(r.steps[i]) && before <= r.steps[i].now
  }

  /** While the clock is not behind GitHub's, a seen revision stays seen, whatever happens in between. */
  lemma {:induction false} SeenStaysSeen(r: Run, cfg: Config, before: int, i: nat, j: nat) returns (clock: int)
    requires cfg.Valid() && IsRun(r, cfg) && SystemInv(r.states[0]) && i <= j < |r.states|
    requires TimelyRun(r, before) && LogInv(r.states[0].comments, before)
    ensures SeenKept(r.states[i].comments, r.states[j].comments)
    ensures LogInv(r.states[j].comments, clock) && (forall k :: j <= k < |r.steps| ==> clock <= r.steps[k].now)
    decreases j
  {
    if j == 0 { return before; }
    var c := SeenStaysSeen(r, cfg, before, if i < j then i else j - 1, j - 1);
    RunKeepsInv(r, cfg, j - 1);
    StepKeepsLog(r.states[j - 1], r.steps[j - 1], cfg, c);
    clock := r.steps[j - 1].now;
  }

  // ---------------------------------------------------------------- from the empty tables

  /** What holds of every state that the system reaches from empty tables. */
  lemma ReachableTables(r: Run, cfg: Config, n: nat, id: nat)
    requires cfg.Valid() && IsRun(r, cfg) && r.states[0] == EMPTY_TABLES && n < |r.states|
    ensures
      var t := r.states[n];
      && (forall a, b :: a in t.queue && b in t.queue && Active(t.queue[a]) && Active(t.queue[b]) && a != b ==>
            t.queue[a].key != t.queue[b].key && t.queue[a].commentId != t.queue[b].commentId)
      && (forall a :: a in t.queue ==> RowShape(t.queue[a]) && RowLinked(t.queue[a], t.prs))
      && (forall p :: p in t.prs ==>
            (&& t.prs[p].retriggerCount == Retriggers(t.events, t.prs[p].key)
             && t.prs[p].reviewCount == Reviews(t.events, t.prs[p].key)))
      && QueueOrder.OrdersOk(t)
    ensures Survivals(r, n, id) <= cfg.maxAttempts
    ensures FourDigitRun(r, cfg) ==> PostsSpaced(r.states[n].posts, r.states[n].nextReviewAt, cfg.accountCooldown)
  {
    EmptyTablesAreOk(cfg.accountCooldown, 0);
    RunKeepsInv(r, cfg, n);
    SurvivalsAreCapped(r, cfg, n, id);
    if FourDigitRun(r, cfg) {
      FourDigitsKeepOrder(r, cfg);
      RunKeepsSpacing(r, cfg, n);
    }
  }

  /** In a timely run from empty tables no row of the comment log was touched in the future, and a seen revision stays
      seen. */
  lemma ReachableLogs(r: Run, cfg: Config, before: int, i: nat, j: nat)
    requires cfg.Valid() && IsRun(r, cfg) && r.states[0] == EMPTY_TABLES && i <= j < |r.states| && TimelyRun(r, before)
    ensures SeenKept(r.states[i].comments, r.states[j].comments)
    ensures j < |r.steps| ==> LogInv(r.states[j].comments, r.steps[j].now)
  {
    EmptyTablesAreOk(cfg.accountCooldown, before);
    var clock := SeenStaysSeen(r, cfg, before, i, j);
  }
}
