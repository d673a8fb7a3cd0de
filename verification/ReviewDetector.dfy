/** The review detector: a tick loads the retriggered rows once, then decides and writes one item after another while
    the other components keep running. */
module ReviewDetector {
  import opened Domain
  import opened Transitions
  import opened QueueInvariant
  import opened CommentLog
  import opened DetectionSpec
  import opened Steps
  import opened SystemInvariant
  import opened Runs
  import opened ReviewTick
  import opened Database
  import EditDetector
  import CommentUrl
  import QueueRepository
  import PullRequestRepository

  class ReviewDetector {
    const db: Database
    const cfg: Config
    const queue: QueueRepository.QueueRepository
    const pullRequests: PullRequestRepository.PullRequestRepository
    const editDetector: EditDetector.EditDetector

    constructor (db: Database, cfg: Config)
      ensures this.db == db && this.cfg == cfg && Valid()
    {
      this.db, this.cfg := db, cfg;
      this.queue := new QueueRepository.QueueRepository(db, cfg);
      this.pullRequests := new PullRequestRepository.PullRequestRepository(db);
      this.editDetector := new EditDetector.EditDetector(db);
    }

    predicate Valid() {
      queue.db == db && pullRequests.db == db && editDetector.db == db && editDetector.comments.db == db
    }

    // -------------------------------------------------------------- the guarded writes

    /** Resolves the row and records the review in one transaction, or loses the race and does neither. */
    method ResolveReviewed(id: nat, item: QueueRow, url: string, verdict: CommentType, sha: Option<string>, now: int)
      requires Valid() && QueueOk(db.Snapshot())
      modifies db
      ensures db.Snapshot() == Perform(old(db.Snapshot()), id, item, RecordReview(url, verdict, sha), now)
    {
      var before := db.Snapshot();
      var resolved := queue.MarkResolvedIfStillRetriggered(id, ReviewCompleted, now);
      if !resolved { return; }
      var found := false;
      if item.pullRequestId.Some? {
        found := pullRequests.RecordReview(item.pullRequestId.value, url, verdict, sha, now);
      }
      if found { db.Record(ReviewedEvent(item.key, verdict, false)); } else { db.Load(before); }
    }

    /** A skip, a merge or a close resolves the row, if it is still retriggered. */
    method ResolveQuietly(id: nat, item: QueueRow, res: Resolution, now: int)
      requires Valid() && QueueOk(db.Snapshot())
      modifies db`queue
      ensures db.Snapshot() == Perform(old(db.Snapshot()), id, item, Resolve(res), now)
    {
      var resolved := queue.MarkResolvedIfStillRetriggered(id, res, now);
    }

    method SettleAdopted(id: nat, item: QueueRow, v: ItemView, run: string, now: int)
      requires Valid() && QueueOk(db.Snapshot())
      modifies db
      ensures db.Snapshot() == Perform(old(db.Snapshot()), id, item,
        if ShouldReopenStale(item.retriggeredAt, v.headSha, v.reviewedHeadSha, cfg.detectionLookback, now)
        then ReopenAsPending(run) else AdoptRun(run), now)
    {
      if ShouldReopenStale(item.retriggeredAt, v.headSha, v.reviewedHeadSha, cfg.detectionLookback, now) {
        var reopened := queue.ReopenStaleRetriggered(id, item.title, Some(run), None);
      } else {
        var adopted := queue.AdoptRunIfStillRetriggered(id, item.commentRunId, run, now);
      }
    }

    method SettleFallback(id: nat, item: QueueRow, v: ItemView, now: int)
      requires Valid() && QueueOk(db.Snapshot()) && item.retriggeredAt.Some?
      requires v.edit.EditFallback? && v.prState != Some(PrState.Merged) && v.prState != Some(PrState.Closed)
      modifies db
      ensures db.Snapshot()
        == Perform(old(db.Snapshot()), id, item, DecideWrite(item, v, cfg.detectionLookback, now), now)
    {
      var since := item.retriggeredAt.value - cfg.detectionLookback;
      match v.lookup {
        case LookupFailed =>
        case ReviewFound(r) =>
          ResolveReviewed(id, item, r.url, if r.approval then ReviewApproved else ReviewChangesSuggested, r.commit,
                          now);
        case NoReview =>
          if item.commentRunId.None? && v.lastReviewAt.Some? && v.lastReviewAt.value >= since {
            var resolved := queue.MarkResolvedIfStillRetriggered(id, ReviewCompleted, now);
            if resolved { db.Record(ReviewedEvent(item.key, ReviewApproved, true)); }
          }
      }
    }

    /** The branches of the loop body: whatever the decision, it is carried out on the tables as they are now. */
    method Settle(id: nat, item: QueueRow, v: ItemView, now: int)
      requires Valid() && QueueOk(db.Snapshot())
      modifies db
      ensures db.Snapshot()
        == Perform(old(db.Snapshot()), id, item, DecideWrite(item, v, cfg.detectionLookback, now), now)
    {
      if item.retriggeredAt.None? { return; }
      if v.prState == Some(PrState.Merged) || v.prState == Some(PrState.Closed) {
        ResolveQuietly(id, item, if v.prState == Some(PrState.Merged) then PrMerged else PrClosedWithoutMerge, now);
        return;
      }
      match v.edit {
        case EditFailed =>
        case EditResolved(url, verdict) => ResolveReviewed(id, item, url, verdict, None, now);
        case EditSkipped => ResolveQuietly(id, item, Skipped, now);
        case EditAdopted(run) => SettleAdopted(id, item, v, run, now);
        case EditFallback(_) => SettleFallback(id, item, v, now);
      }
    }

    // -------------------------------------------------------------- the tick

    /** The other components run until the next moment. */
    method Interleave(k: nat, w: World)
      modifies db
      ensures db.Snapshot() == w.Between(k, old(db.Snapshot()))
    {
      db.Load(w.Between(k, db.Snapshot()));
    }

    /** Unless its row is settled by what was loaded, the source comment of the item is looked at; the others run
        before and after. */
    method LookAtItem(tick: Tick, i: nat) returns (v: ItemView)
      requires Valid() && tick.Valid() && i < |tick.ids|
      modifies db
      ensures v == tick.View(i, old(db.Snapshot())) && db.Snapshot() == tick.BeforeWrite(i, old(db.Snapshot()))
    {
      var item, edit := tick.Item(i), EditFailed;
      Interleave(2 * i, tick.world);
      v := tick.Loaded(i);
      var gone := v.prState == Some(PrState.Merged) || v.prState == Some(PrState.Closed);
      if item.retriggeredAt.Some? && !gone {
        edit := editDetector.DetectEdit(item, tick.fetch(tick.ids[i]), tick.world.clock(2 * i + 1));
      }
      Interleave(2 * i + 1, tick.world);
      v := v.(edit := edit);
    }

    /** One item: the decision on what was loaded and fetched is carried out on the tables as they are by then. */
    method ProcessItem(tick: Tick, i: nat) returns (v: ItemView)
      requires Valid() && tick.cfg == cfg && tick.Valid() && i < |tick.ids|
      requires QueueOk(tick.BeforeWrite(i, db.Snapshot()))
      modifies db
      ensures v == tick.View(i, old(db.Snapshot())) && db.Snapshot() == tick.AfterWrite(i, old(db.Snapshot()))
    {
      v := LookAtItem(tick, i);
      Settle(tick.ids[i], tick.Item(i), v, tick.world.clock(2 * i + 2));
    }

    /** The items one after another. */
    method ProcessItems(tick: Tick) returns (views: seq<ItemView>)
      requires Valid() && tick.cfg == cfg && cfg.Valid() && tick.world.Fair(cfg)
      requires tick.Valid() && db.Snapshot() == tick.loaded && SystemInv(tick.loaded)
      modifies db
      ensures db.Snapshot() == tick.After(|tick.ids|)
      ensures |views| == |tick.ids| && forall i :: 0 <= i < |views| ==> views[i] == tick.View(i, tick.After(i))
    {
      hide *;
      views := [];
      NothingDone(tick);
      for i := 0 to |tick.ids|
        invariant db.Snapshot() == tick.After(i)
        invariant |views| == i && forall j :: 0 <= j < i ==> views[j] == tick.View(j, tick.After(j))
      {
        WriteMeetsGoodTables(tick, i);
        OneMore(tick, i);
        var v := ProcessItem(tick, i);
        views := views + [v];
      }
    }

    /** A tick. Every row that was retriggered when the tick began is dealt with once, the longest retriggered first:
        decided on what was loaded at the beginning and fetched since, whatever the other components do in between. */
    method ExecuteTick(fetch: nat -> EditDetector.CommentFetch, lookup: nat -> ReviewLookup, w: World)
      returns (tick: Tick, views: seq<ItemView>)
      requires Valid() && cfg.Valid() && w.Fair(cfg) && SystemInv(db.Snapshot())
      modifies db
      ensures QueueRepository.ListsRows(old(db.queue), {Retriggered}, tick.ids)
      ensures QueueRepository.ByClock(old(db.queue), tick.ids)
      ensures tick == Tick(tick.ids, old(db.Snapshot()), fetch, lookup, w, cfg) && tick.Valid()
      ensures db.Snapshot() == tick.After(|tick.ids|)
      ensures |views| == |tick.ids| && forall i :: 0 <= i < |views| ==> views[i] == tick.View(i, tick.After(i))
    {
      var ids := queue.GetRetriggeredQueue();
      tick := Tick(ids, db.Snapshot(), fetch, lookup, w, cfg);
      views := ProcessItems(tick);
    }
  }
}
