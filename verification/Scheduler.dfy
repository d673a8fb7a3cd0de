/** The scheduler loop: prune, sweep, gates, budgeted selection, one trigger. */
module Scheduler {
  import opened Domain
  import opened Transitions
  import opened QueueInvariant
  import opened TriggerSpec
  import opened IsoText
  import opened Steps
  import opened SystemInvariant
  import opened Runs
  import opened Gates
  import opened Ticks
  import opened SelectionSpec
  import opened QueueOrder
  import opened Database
  import QueueRepository
  import QueueOrderRepository
  import PullRequestRepository
  import ReviewTrigger
  import Pruner

  // ---------------------------------------------------------------- the tick

  /** How a tick ends: with an error, at one of the gates, or after a selection. */
  datatype TickOutcome =
    | TickFailed | SchedulerPaused | AwaitingAcknowledgement | AccountCoolingDown | Scanned(sel: Selection)

  /** What pruning these rows and sweeping leave, as far as they got. */
  function PrunedAndSwept(t: Tables, active: seq<nat>, fetch: nat -> PrFetch, fault: Fault, cfg: Config,
                          now: int): Tables {
    if fault.PruningThrows? then t
    else
      var pruned := Pruner.Pruned(t, active, |active|, fetch, now);
      if fault.SweepThrows? then pruned else pruned.(queue := Swept(pruned.queue, cfg.maxRetriggerAge, now))
  }

  /** What the gates, the selection and the trigger make of the tables `t` the sweep left; the selection stopped after
      `k` items of `order`. */
  ghost predicate TickEnded(t: Tables, t': Tables, o: TickOutcome, order: seq<nat>, k: nat, fetch: nat -> PrFetch,
                            gh: Answers, fault: Fault, cfg: Config, now: int, recordedAt: int) {
    if fault.GateThrows? then o == TickFailed && t' == t
    else if t.paused then o == SchedulerPaused && t' == t
    else if AcknowledgementHold(t.prs, cfg.retriggerSpacing, now) then o == AwaitingAcknowledgement && t' == t
    else if t.nextReviewAt.Some? && t.nextReviewAt.value > now then o == AccountCoolingDown && t' == t
    else
      && o.Scanned? && IsEffectiveOrder(t, order) && Selected(t.queue, order, k, o.sel, fetch, fault, cfg, now)
      && var scanned := Passed(t, order, k, fetch, cfg, now);
      if o.sel.Candidate? then
        && Triggerable(scanned, o.sel.id) && GatesOpen(scanned, cfg, now) && Due(scanned.queue[o.sel.id], cfg, now)
        && t' == SchedulerTrigger(scanned, o.sel.id, gh, cfg, now, recordedAt)
      else t' == scanned
  }

  /** What the gates let through, read off the tables: behind them the queue is scanned exactly when the scheduler is
      not paused, no request waits for its acknowledgement or one of the waiting is as old as the spacing, and no
      account cooldown is running. A closed gate changes nothing. */
  lemma GatesDecide(t: Tables, t': Tables, o: TickOutcome, order: seq<nat>, k: nat, fetch: nat -> PrFetch, gh: Answers,
                    fault: Fault, cfg: Config, now: int, recordedAt: int)
    requires TickEnded(t, t', o, order, k, fetch, gh, fault, cfg, now, recordedAt) && !fault.GateThrows?
    ensures o.Scanned? <==>
      (&& !t.paused
       && ((forall p :: p in t.prs ==> !Unacknowledged(t.prs[p]))
           || (exists p :: p in t.prs && Unacknowledged(t.prs[p])
                           && now - t.prs[p].lastReviewRequestedAt.value >= cfg.retriggerSpacing))
       && (t.nextReviewAt.None? || t.nextReviewAt.value <= now))
    ensures o.SchedulerPaused? <==> t.paused
    ensures !o.Scanned? ==> t' == t
  {
    assert forall p :: p in t.prs ==> (Unacknowledged(t.prs[p]) <==> AwaitsAcknowledgement(t.prs[p]));
  }

  /** What pruning and sweeping leave, read off the rows: an active row whose pull request is merged or closed is
      resolved as such; any other retriggered row whose clock is older than the maximum age has failed; the rest is as
      it was. */
  lemma CleanedUpExactly(t: Tables, active: seq<nat>, fetch: nat -> PrFetch, cfg: Config, now: int, id: nat)
    requires QueueRepository.ListsRows(t.queue, {Pending, Retriggered}, active) && id in t.queue
    ensures
      var t', r := PrunedAndSwept(t, active, fetch, NoFault, cfg, now), t.queue[id];
      && t'.queue.Keys == t.queue.Keys && t' == t.(queue := t'.queue, events := t'.events)
      && var r' := t'.queue[id];
         if r.status != Resolved && fetch(id) == FetchedMerged then
           r' == r.(status := Resolved, resolution := Some(PrMerged), resolvedAt := Some(now))
         else if r.status != Resolved && fetch(id) == FetchedClosed then
           r' == r.(status := Resolved, resolution := Some(PrClosedWithoutMerge), resolvedAt := Some(now))
         else if r.status == Retriggered && r.retriggeredAt.Some?
                 && r.retriggeredAt.value < now - cfg.maxRetriggerAge then
           r' == r.(status := Resolved, resolution := Some(Failed), resolvedAt := Some(now))
         else r' == r
  {
    Pruner.PruningResolvesTheGone(t, active, fetch, now);
  }

  /** No retriggered row is older than the maximum age. */
  predicate NoneStale(q: map<nat, QueueRow>, age: int, now: int) {
    forall id :: id in q ==> !Stale(q[id], age, now)
  }

  lemma PruningKeepsTickInv(t: Tables, t': Tables, fetch: nat -> PrFetch, now: int)
    requires TickInv(t) && QueueOk(t') && t' == t.(queue := Pruner.PrunedAll(t.queue, fetch, now), events := t'.events)
    ensures TickInv(t')
  {
  }

  lemma SweepingKeepsTickInv(t: Tables, cfg: Config, now: int)
    requires cfg.Valid() && TickInv(t)
    ensures
      var t' := t.(queue := Swept(t.queue, cfg.maxRetriggerAge, now));
      TickInv(t') && NoneStale(t'.queue, cfg.maxRetriggerAge, now)
  {
    SweepKeepsInv(t.queue, cfg.maxRetriggerAge, now);
  }

  lemma PassingKeepsNoneStale(q: map<nat, QueueRow>, passed: seq<nat>, fetch: nat -> PrFetch, cfg: Config, now: int)
    requires NoneStale(q, cfg.maxRetriggerAge, now)
    ensures NoneStale(PassedOverAll(q, passed, fetch, cfg, now), cfg.maxRetriggerAge, now)
  {
  }

  /** A settled selection restarts the clock of the row it leaves retriggered. */
  lemma TriggerKeepsNoneStale(t: Tables, id: nat, gh: Answers, cfg: Config, now: int, recordedAt: int)
    requires cfg.Valid() && QueueOk(t) && Triggerable(t, id) && now <= recordedAt
    requires NoneStale(t.queue, cfg.maxRetriggerAge, now)
    ensures NoneStale(SchedulerTrigger(t, id, gh, cfg, now, recordedAt).queue, cfg.maxRetriggerAge, now)
  {
    SelectionSettles(t, id, gh, cfg, now, recordedAt);
  }

  /** The selected item is listed with its pull request, due, and untouched by the passing over. */
  lemma CandidateIsTriggerable(t: Tables, t': Tables, order: seq<nat>, k: nat, id: nat, fetch: nat -> PrFetch,
                               fault: Fault,
    cfg: Config, now: int)
    requires IsEffectiveOrder(t, order) && Linked(t) && GatesOpen(t, cfg, now)
    requires Selected(t.queue, order, k, Candidate(id), fetch, fault, cfg, now)
    requires t' == Passed(t, order, k, fetch, cfg, now)
    ensures Triggerable(t', id) && GatesOpen(t', cfg, now) && Due(t'.queue[id], cfg, now)
  {
    PassedOnly(t, order, k, fetch, cfg, now);
    NextIsAsLoaded(t, order, k, fetch, cfg, now);
    assert Listed(t, order[k]);
    assert RowLinked(t.queue[id], t.prs);
  }

  // ---------------------------------------------------------------- a tick is a run

  lemma SweepingIsARun(run: Run, t0: Tables, cfg: Config, now: int) returns (run': Run)
    requires Scanning(run, t0, cfg, now)
    ensures Scanning(run', t0, cfg, now)
    ensures Last(run') == Last(run).(queue := Swept(Last(run).queue, cfg.maxRetriggerAge, now))
  {
    var s := Step(SweepStale, now, now);
    ScanOnce(run, t0, cfg, s);
    run' := Extended(run, s, ApplyScan(Last(run), s, cfg));
  }

  lemma StartIsARun(t: Tables, active: seq<nat>, fetch: nat -> PrFetch, fault: Fault, cfg: Config, now: int)
    returns (run: Run)
    ensures Scanning(run, t, cfg, now) && Last(run) == PrunedAndSwept(t, active, fetch, fault, cfg, now)
  {
    if fault.PruningThrows? { return Still(t); }
    run := Pruner.PruningIsARun(t, active, |active|, fetch, cfg, now);
    if !fault.SweepThrows? { run := SweepingIsARun(run, t, cfg, now); }
  }

  lemma TriggerEndsTheScan(scan: Run, t0: Tables, id: nat, gh: Answers, cfg: Config, now: int, recordedAt: int)
    returns (run: Run)
    requires Scanning(scan, t0, cfg, now) && now <= recordedAt && ValidTime(recordedAt + cfg.accountCooldown)
    requires var t := Last(scan); Triggerable(t, id) && GatesOpen(t, cfg, now) && Due(t.queue[id], cfg, now)
    ensures IsRun(run, cfg) && run.states[0] == t0
    ensures Last(run) == SchedulerTrigger(Last(scan), id, gh, cfg, now, recordedAt)
    ensures scan.steps <= run.steps && |run.steps| == |scan.steps| + 1
  {
    var s := Step(TriggerFromTick(id, gh), now, recordedAt);
    assert forall i :: 0 <= i < |scan.steps| ==> TickScan(scan.steps[i], now);
    ExtendRun(scan, s, cfg);
    run := Extended(scan, s, ApplyTrigger(Last(scan), s, cfg));
  }

  lemma EndIsARun(scan: Run, t0: Tables, t': Tables, o: TickOutcome, order: seq<nat>, k: nat, fetch: nat -> PrFetch,
                  gh: Answers, fault: Fault, cfg: Config, now: int, recordedAt: int) returns (scan': Run, run: Run)
    requires Scanning(scan, t0, cfg, now) && now <= recordedAt && ValidTime(recordedAt + cfg.accountCooldown)
    requires TickEnded(Last(scan), t', o, order, k, fetch, gh, fault, cfg, now, recordedAt)
    ensures Scanning(scan', t0, cfg, now) && IsRun(run, cfg) && run.states[0] == t0 && Last(run) == t'
    ensures scan'.steps <= run.steps && |run.steps| <= |scan'.steps| + 1
  {
    scan', run := scan, scan;
    if o.Scanned? {
      scan' := PassingIsARun(scan, t0, Last(scan), order, k, fetch, cfg, now);
      if o.sel.Candidate? {
        run := TriggerEndsTheScan(scan', t0, o.sel.id, gh, cfg, now, recordedAt);
      } else {
        run := scan';
      }
    }
  }

  /** What a whole tick makes of the tables. */
  ghost predicate TickMakes(t: Tables, t': Tables, active: seq<nat>, pruneFetch: nat -> PrFetch, o: TickOutcome,
                            order: seq<nat>, k: nat, scanFetch: nat -> PrFetch, gh: Answers, fault: Fault, cfg: Config,
                            now: int, recordedAt: int) {
    var swept := PrunedAndSwept(t, active, pruneFetch, fault, cfg, now);
    if fault.PruningThrows? || fault.SweepThrows? then o == TickFailed && t' == swept
    else TickEnded(swept, t', o, order, k, scanFetch, gh, fault, cfg, now, recordedAt)
  }

  /** A whole tick is a run of the system: scan steps, then at most one trigger. So whatever runs keep, ticks keep. */
  lemma TickIsARun(t: Tables, t': Tables, active: seq<nat>, pruneFetch: nat -> PrFetch, o: TickOutcome, order: seq<nat>,
                   k: nat, scanFetch: nat -> PrFetch, gh: Answers, fault: Fault, cfg: Config, now: int, recordedAt: int)
    returns (scan: Run, run: Run)
    requires TickMakes(t, t', active, pruneFetch, o, order, k, scanFetch, gh, fault, cfg, now, recordedAt)
    requires now <= recordedAt && ValidTime(recordedAt + cfg.accountCooldown)
    ensures Scanning(scan, t, cfg, now) && IsRun(run, cfg) && run.states[0] == t && Last(run) == t'
    ensures scan.steps <= run.steps && |run.steps| <= |scan.steps| + 1
  {
    scan := StartIsARun(t, active, pruneFetch, fault, cfg, now);
    run := scan;
    if !fault.PruningThrows? && !fault.SweepThrows? {
      scan, run := EndIsARun(scan, t, t', o, order, k, scanFetch, gh, fault, cfg, now, recordedAt);
    }
  }

  class Scheduler {
    const db: Database
    const cfg: Config
    const queue: QueueRepository.QueueRepository
    const queueOrder: QueueOrderRepository.QueueOrderRepository
    const pullRequests: PullRequestRepository.PullRequestRepository
    const trigger: ReviewTrigger.ReviewTrigger
    const pruner: Pruner.Pruner

    constructor (db: Database, cfg: Config)
      requires cfg.Valid()
      ensures this.db == db && this.cfg == cfg && Valid()
    {
      this.db, this.cfg := db, cfg;
      this.queue := new QueueRepository.QueueRepository(db, cfg);
      this.queueOrder := new QueueOrderRepository.QueueOrderRepository(db);
      this.pullRequests := new PullRequestRepository.PullRequestRepository(db);
      this.trigger := new ReviewTrigger.ReviewTrigger(db, cfg);
      this.pruner := new Pruner.Pruner(db, cfg);
    }

    predicate Valid() {
      && cfg.Valid() && queue.db == db && queueOrder.db == db && pullRequests.db == db
      && trigger.db == db && trigger.cfg == cfg && trigger.Valid()
      && pruner.db == db && pruner.cfg == cfg && pruner.queue.db == db
    }

    /** A skip is recorded only while the item is pending. */
    method SkipCandidate(id: nat, reason: SkipReason, now: int)
      requires Valid() && QueueOk(db.Snapshot()) && id in db.queue
      modifies db`queue
      ensures db.Snapshot() ==
        if old(db.queue)[id].status == Pending
        then WithRow(old(db.Snapshot()), id, SkipMarked(old(db.queue)[id], reason, now))
        else old(db.Snapshot())
    {
      var changed := queue.MarkRetriggerSkipped(id, reason, now);
    }

    method ResolveTerminalCandidate(id: nat, merged: bool, now: int)
      requires Valid() && QueueOk(db.Snapshot()) && id in db.queue
      modifies db
      ensures db.Snapshot() == Dismiss(old(db.Snapshot()), id, merged, now)
    {
      var found := queue.MarkResolved(id, ClosedAs(merged), now);
      db.Record(DismissedEvent(db.queue[id].key));
    }

    /** One turn of the loop: chosen, or passed over; and whether its state was fetched. */
    method Consider(id: nat, state: PrFetch, now: int) returns (fetched: bool, chosen: bool)
      requires Valid() && QueueOk(db.Snapshot()) && id in db.queue
      modifies db
      ensures fetched == WorthFetching(old(db.queue)[id], cfg, now) && chosen == (fetched && state == FetchedOpen)
      ensures db.Snapshot() == Considered(old(db.Snapshot()), id, state, cfg, now) && QueueOk(db.Snapshot())
    {
      TurnKeepsQueueOk(db.Snapshot(), id, state, cfg, now);
      fetched, chosen := false, false;
      var row := db.queue[id];
      assert db.queue == db.queue[id := row];
      if row.status != Pending {
      } else if OnCooldown(row, now) {
        SkipCandidate(id, SkipReason.Cooldown, now);
      } else if StillSettling(row, cfg, now) {
        SkipCandidate(id, SkipReason.Settling, now);
      } else {
        fetched := true;
        if state == FetchedOpen {
          chosen := true;
        } else if FetchedGone(state) {
          ResolveTerminalCandidate(id, state == FetchedMerged, now);
        }
      }
    }

    /** Finds the first eligible item within the fetch budget; every item passed over is skipped, resolved or left,
        as its own state demands. */
    method SelectNextEligibleItem(order: seq<nat>, fetch: nat -> PrFetch, fault: Fault, now: int)
      returns (sel: Selection, k: nat)
      requires Valid() && QueueOk(db.Snapshot()) && IsEffectiveOrder(db.Snapshot(), order)
      modifies db
      ensures Selected(old(db.Snapshot()).queue, order, k, sel, fetch, fault, cfg, now)
      ensures k <= |order| && AnswersAt(old(db.Snapshot()).queue, order, k, sel, fetch, fault, cfg, now)
      ensures db.Snapshot() == Passed(old(db.Snapshot()), order, k, fetch, cfg, now) && QueueOk(db.Snapshot())
    {
      assert cfg.Valid();
      hide *;
      ghost var t := db.Snapshot();
      WalkBegins(t, order, fetch, fault, cfg, now);
      var fetches, decided := 0, None;
      k := 0;
      while k < |order| && decided.None?
        invariant k <= |order| && db.Snapshot() == Passed(t, order, k, fetch, cfg, now) && QueueOk(db.Snapshot())
        invariant Walking(t.queue, order, k, fetches, decided, fetch, fault, cfg, now)
        decreases |order| - k, decided.None?
      {
        NextIsAsLoaded(t, order, k, fetch, cfg, now);
        PassedTurn(t, order, k, fetch, cfg, now);
        ghost var k0, fetches0 := k, fetches;
        decided, k, fetches := TakeTurn(order[k], k, fetches, fetch(order[k]), fault, now);
        TurnDecides(t.queue, order, k0, fetches0, decided, k, fetches, fetch, fault, cfg, now);
      }
      WalkEnds(t.queue, order, k, fetches, decided, fetch, fault, cfg, now);
      sel := if decided.Some? then decided.value else NoneDue;
      SelectionAnswers(t.queue, order, k, sel, fetch, fault, cfg, now);
    }

    /** Considers the item at index `k` of the order, and decides the selection or goes on. */
    method TakeTurn(id: nat, k: nat, fetches: nat, state: PrFetch, fault: Fault, now: int)
      returns (decided: Option<Selection>, k': nat, fetches': nat)
      requires Valid() && QueueOk(db.Snapshot()) && id in db.Snapshot().queue
      modifies db
      ensures Turned(old(db.Snapshot()).queue[id], id, state, k, fetches, decided, k', fetches', fault, cfg, now)
      ensures db.Snapshot() == if k' == k then old(db.Snapshot())
                               else Considered(old(db.Snapshot()), id, state, cfg, now)
      ensures QueueOk(db.Snapshot())
    {
      if fault == ItemThrows(k) { return Some(SelectionThrew), k, fetches; }
      ghost var t := db.Snapshot();
      var fetched, chosen := Consider(id, state, now);
      if chosen {
        EligibleIsLeft(t, id, cfg, now);
        return Some(Candidate(id)), k, fetches;
      }
      k', fetches' := k + 1, fetches + (if fetched then 1 else 0);
      decided := if fetched && fetches' >= cfg.maxFetchesPerTick then Some(Deferred) else None;
    }

    // -------------------------------------------------------------- the tick

    /** Prune, sweep, gates, selection, trigger. The sweep comes before the gates, so that a tick that gets past it
        leaves no stale row, even while the scheduler is paused; and nothing is selected while a gate is closed. */
    method ExecuteTick(pruneFetch: nat -> PrFetch, scanFetch: nat -> PrFetch, gh: Answers, fault: Fault, now: int,
                       recordedAt: int)
      returns (o: TickOutcome, ghost active: seq<nat>, ghost order: seq<nat>, ghost k: nat)
      requires Valid() && TickInv(db.Snapshot()) && now <= recordedAt
      modifies db
      ensures !fault.PruningThrows? ==> QueueRepository.ListsRows(old(db.queue), {Pending, Retriggered}, active)
      ensures TickMakes(old(db.Snapshot()), db.Snapshot(), active, pruneFetch, o, order, k, scanFetch, gh, fault, cfg,
                        now, recordedAt)
      ensures !fault.PruningThrows? && !fault.SweepThrows? ==> NoneStale(db.queue, cfg.maxRetriggerAge, now)
    {
      o, order, k := TickFailed, [], 0;
      var thrown;
      thrown, active := PruneAndSweep(pruneFetch, fault, now);
      if !thrown { o, order, k := RunGatesAndTrigger(scanFetch, gh, fault, now, recordedAt); }
    }

    method PruneAndSweep(fetch: nat -> PrFetch, fault: Fault, now: int) returns (thrown: bool, ghost active: seq<nat>)
      requires Valid() && TickInv(db.Snapshot())
      modifies db
      ensures !fault.PruningThrows? ==> QueueRepository.ListsRows(old(db.queue), {Pending, Retriggered}, active)
      ensures thrown == (fault.PruningThrows? || fault.SweepThrows?)
      ensures db.Snapshot() == PrunedAndSwept(old(db.Snapshot()), active, fetch, fault, cfg, now)
      ensures !thrown ==> TickInv(db.Snapshot()) && NoneStale(db.queue, cfg.maxRetriggerAge, now)
    {
      hide Linked, QueueOk, NoneStale, QueueRepository.ListsRows, Pruner.Pruned, Pruner.PrunedAll, Swept;
      ghost var t := db.Snapshot();
      thrown, active := true, [];
      if fault == PruningThrows { return; }
      var pruned := pruner.Prune(fetch, now);
      active := pruned;
      if fault == SweepThrows { return; }
      PruningKeepsTickInv(t, db.Snapshot(), fetch, now);
      SweepingKeepsTickInv(db.Snapshot(), cfg, now);
      queue.ResolveStaleRetriggered(cfg.maxRetriggerAge, now);
      thrown := false;
    }

    /** The tick after its sweep. */
    method RunGatesAndTrigger(fetch: nat -> PrFetch, gh: Answers, fault: Fault, now: int, recordedAt: int)
      returns (o: TickOutcome, ghost order: seq<nat>, ghost k: nat)
      requires Valid() && TickInv(db.Snapshot()) && now <= recordedAt && NoneStale(db.queue, cfg.maxRetriggerAge, now)
      modifies db
      ensures TickEnded(old(db.Snapshot()), db.Snapshot(), o, order, k, fetch, gh, fault, cfg, now, recordedAt)
      ensures NoneStale(db.queue, cfg.maxRetriggerAge, now)
    {
      o, order, k := TickFailed, [], 0;
      if fault == GateThrows { return; }
      var pendingAck := pullRequests.FindPendingAcknowledgement();
      PullRequestRepository.OldestDecidesTheHold(db.prs, pendingAck, cfg.retriggerSpacing, now);
      if db.paused {
        o := SchedulerPaused;
      } else if pendingAck.Some? && now - db.prs[pendingAck.value].lastReviewRequestedAt.value < cfg.retriggerSpacing {
        o := AwaitingAcknowledgement;
      } else if db.nextReviewAt.Some? && db.nextReviewAt.value > now {
        o := AccountCoolingDown;
      } else {
        var sel;
        sel, order, k := SelectAndTrigger(fetch, gh, fault, now, recordedAt);
        o := Scanned(sel);
      }
    }

    /** Behind the open gates. */
    method SelectAndTrigger(fetch: nat -> PrFetch, gh: Answers, fault: Fault, now: int, recordedAt: int)
      returns (sel: Selection, order: seq<nat>, ghost k: nat)
      requires Valid() && TickInv(db.Snapshot()) && now <= recordedAt && NoneStale(db.queue, cfg.maxRetriggerAge, now)
      requires GatesOpen(db.Snapshot(), cfg, now) && !fault.GateThrows?
      modifies db
      ensures TickEnded(old(db.Snapshot()), db.Snapshot(), Scanned(sel), order, k, fetch, gh, fault, cfg, now,
                        recordedAt)
      ensures NoneStale(db.queue, cfg.maxRetriggerAge, now)
    {
      ghost var t := db.Snapshot();
      order := queueOrder.ReadEffectiveOrder();
      var passed;
      sel, passed := SelectNextEligibleItem(order, fetch, fault, now);
      k := passed;
      PassedOnly(t, order, k, fetch, cfg, now);
      PassingKeepsNoneStale(t.queue, order[..k], fetch, cfg, now);
      if sel.Candidate? {
        CandidateIsTriggerable(t, db.Snapshot(), order, k, sel.id, fetch, fault, cfg, now);
        TriggerKeepsNoneStale(db.Snapshot(), sel.id, gh, cfg, now, recordedAt);
        TriggerAndSettle(sel.id, gh, now, recordedAt);
      }
    }

    // -------------------------------------------------------------- settling the outcome

    /** Backs off, or resolves as failed when the attempts are used up. */
    method BackOffOrFail(id: nat, now: int)
      requires Valid() && QueueOk(db.Snapshot()) && id in db.queue
      modifies db
      ensures db.Snapshot() == GiveUpOrBackOff(old(db.Snapshot()), id, cfg, now)
    {
      if db.queue[id].attempts >= cfg.maxAttempts {
        var found := queue.MarkResolved(id, Failed, now);
        db.Record(FailedEvent(db.queue[id].key));
      } else {
        queue.BackOff(id, now);
      }
    }

    /** The handler of an exception: a terminal HTTP status resolves the row, anything else backs off. */
    method SettleException(id: nat, terminal: bool, now: int)
      requires Valid() && QueueOk(db.Snapshot()) && id in db.queue
      modifies db
      ensures db.Snapshot() == Failure(old(db.Snapshot()), id, terminal, cfg, now)
    {
      if terminal {
        var found := queue.MarkResolved(id, Failed, now);
        db.Record(DismissedEvent(db.queue[id].key));
      } else {
        BackOffOrFail(id, now);
      }
    }

    /** A reschedule that collides with a foreign row, or leads to no valid date, is rolled back and handled as an
        exception. */
    method SettleReschedule(id: nat, p: Plan, now: int)
      requires Valid() && QueueOk(db.Snapshot()) && id in db.queue && p.Reschedule?
      modifies db
      ensures db.Snapshot() == ApplyReschedule(old(db.Snapshot()), id, p, cfg, now)
    {
      var before := db.Snapshot();
      var thrown := queue.Reschedule(id, p.url, p.commentId, p.runId, p.original, now);
      if thrown || !ValidTime(p.earliest) {
        db.Load(before);
        SettleException(id, false, now);
        return;
      }
      var existing := db.nextReviewAt;
      db.nextReviewAt := if existing.Some? && existing.value > p.earliest then existing else Some(p.earliest);
    }

    /** A refusal of the trigger. */
    method SettleRefusal(id: nat, p: Plan, now: int)
      requires Valid() && QueueOk(db.Snapshot()) && id in db.queue
      requires p.SkipStale? || p.ReplacementGone? || p.Reschedule?
      modifies db
      ensures db.Snapshot() == match p
        case Reschedule(_, _, _, _, _) => ApplyReschedule(old(db.Snapshot()), id, p, cfg, now)
        case SkipStale => WithRow(old(db.Snapshot()), id, ResolvedAs(old(db.queue)[id], StaleComment, now))
        case _ => GiveUpOrBackOff(old(db.Snapshot()), id, cfg, now)
    {
      match p {
        case Reschedule(_, _, _, _, _) => SettleReschedule(id, p, now);
        case SkipStale => var found := queue.MarkResolved(id, StaleComment, now);
        case ReplacementGone => BackOffOrFail(id, now);
      }
    }

    /** After a successful trigger: one more attempt, or failed at the cap. `attempts` is the value that was loaded. */
    method SettleSuccess(id: nat, attempts: nat, now: int)
      requires Valid() && QueueOk(db.Snapshot()) && id in db.queue && db.queue[id].attempts == attempts
      modifies db
      ensures db.Snapshot() == CountAttempt(old(db.Snapshot()), id, cfg, now)
    {
      var newAttempts := attempts + 1;
      if newAttempts >= cfg.maxAttempts {
        var found := queue.MarkResolved(id, Failed, now);
        db.Record(FailedEvent(db.queue[id].key));
      } else {
        queue.StoreAttempts(id, newAttempts);
      }
    }

    /** From the selected row to the last write of the tick. */
    method TriggerAndSettle(id: nat, gh: Answers, now: int, recordedAt: int)
      requires Valid() && QueueOk(db.Snapshot()) && Triggerable(db.Snapshot(), id) && now <= recordedAt
      modifies db
      ensures db.Snapshot() == SchedulerTrigger(old(db.Snapshot()), id, gh, cfg, now, recordedAt)
    {
      ghost var t := db.Snapshot();
      var attempts := db.queue[id].attempts;
      var r := trigger.Trigger(id, gh, TriggerSource.Scheduler, now, recordedAt);
      match r {
        case Posted(url) =>
          var runId := Decide(t.queue[id], gh, cfg).runId;
          RecordPostRewrites(t, id, url, gh, runId, TriggerSource.Scheduler, cfg, now, recordedAt);
          RewriteKeepsQueueOk(t, db.Snapshot(), id);
          SettleSuccess(id, attempts, recordedAt);
        case NotPending =>
        case Refused(p) => SettleRefusal(id, p, now);
        case Raised(terminal) => SettleException(id, terminal, now);
      }
    }
  }
}
