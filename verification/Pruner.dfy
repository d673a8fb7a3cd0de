/** Pruning: active rows whose pull request is merged or closed are resolved, one transaction each. */
module Pruner {
  import opened Domain
  import opened Transitions
  import opened QueueInvariant
  import opened Steps
  import opened Runs
  import opened Ticks
  import opened Database
  import QueueRepository

  function PrunedOne(t: Tables, id: nat, state: PrFetch, now: int): Tables {
    if id in t.queue && FetchedGone(state) then Dismiss(t, id, state == FetchedMerged, now) else t
  }

  /** The tables after the first `k` of the listed rows. */
  function Pruned(t: Tables, ids: seq<nat>, k: nat, fetch: nat -> PrFetch, now: int): Tables
    requires k <= |ids|
  {
    if k == 0 then t else PrunedOne(Pruned(t, ids, k - 1, fetch, now), ids[k - 1], fetch(ids[k - 1]), now)
  }

  function PrunedRow(r: QueueRow, f: PrFetch, now: int): QueueRow {
    if FetchedGone(f) then ResolvedAs(r, ClosedAs(f.FetchedMerged?), now) else r
  }

  /** Every active row whose pull request is gone, resolved. */
  function PrunedAll(q: map<nat, QueueRow>, fetch: nat -> PrFetch, now: int): map<nat, QueueRow> {
    map id | id in q :: if Active(q[id]) then PrunedRow(q[id], fetch(id), now) else q[id]
  }

  function PrunedOf(q: map<nat, QueueRow>, ids: seq<nat>, fetch: nat -> PrFetch, now: int): map<nat, QueueRow> {
    map id | id in q :: if id in ids then PrunedRow(q[id], fetch(id), now) else q[id]
  }

  lemma {:induction false} PrunedOnly(t: Tables, ids: seq<nat>, k: nat, fetch: nat -> PrFetch, now: int)
    requires k <= |ids| && forall i :: 0 <= i < |ids| ==> ids[i] in t.queue
    ensures var t' := Pruned(t, ids, k, fetch, now);
      t' == t.(queue := PrunedOf(t.queue, ids[..k], fetch, now), events := t'.events)
  {
    if k == 0 {
      assert t.queue == PrunedOf(t.queue, ids[..0], fetch, now);
    } else {
      PrunedOnly(t, ids, k - 1, fetch, now);
      assert ids[..k] == ids[..k - 1] + [ids[k - 1]];
      assert PrunedOf(t.queue, ids[..k], fetch, now)
        == (PrunedOf(t.queue, ids[..k - 1], fetch, now)
            [ids[k - 1] := PrunedRow(t.queue[ids[k - 1]], fetch(ids[k - 1]), now)]);
    }
  }

  /** Pruning the listed active rows resolves exactly the active rows whose pull request is gone. */
  lemma PruningResolvesTheGone(t: Tables, ids: seq<nat>, fetch: nat -> PrFetch, now: int)
    requires QueueRepository.ListsRows(t.queue, {Pending, Retriggered}, ids)
    ensures var t' := Pruned(t, ids, |ids|, fetch, now);
      t' == t.(queue := PrunedAll(t.queue, fetch, now), events := t'.events)
  {
    PrunedOnly(t, ids, |ids|, fetch, now);
    assert ids[..|ids|] == ids;
    forall id | id in t.queue ensures id in ids <==> Active(t.queue[id]) {}
  }

  /** The dismissals of the first `k` listed rows whose pull request is gone, in their order. */
  function Dismissals(q: map<nat, QueueRow>, ids: seq<nat>, k: nat, fetch: nat -> PrFetch): (es: seq<Event>)
    requires k <= |ids|
  {
    if k == 0 then []
    else
      var init, id := Dismissals(q, ids, k - 1, fetch), ids[k - 1];
      if id in q && (fetch(id) == FetchedMerged || fetch(id) == FetchedClosed) then init + [DismissedEvent(q[id].key)]
      else init
  }

  /** Pruning records exactly the dismissals of the rows it resolves. */
  lemma {:induction false} PruningRecordsDismissals(t: Tables, ids: seq<nat>, k: nat, fetch: nat -> PrFetch, now: int)
    requires k <= |ids| && forall i :: 0 <= i < |ids| ==> ids[i] in t.queue
    ensures Pruned(t, ids, k, fetch, now).events == t.events + Dismissals(t.queue, ids, k, fetch)
  {
    if k > 0 {
      PruningRecordsDismissals(t, ids, k - 1, fetch, now);
      PrunedOnly(t, ids, k - 1, fetch, now);
    }
  }

  /** Pruning is a run of pruning steps. */
  lemma {:induction false} PruningIsARun(t: Tables, ids: seq<nat>, k: nat, fetch: nat -> PrFetch, cfg: Config, now: int)
    returns (run: Run)
    requires k <= |ids|
    ensures Scanning(run, t, cfg, now) && Last(run) == Pruned(t, ids, k, fetch, now)
  {
    if k == 0 { return Still(t); }
    run := PruningIsARun(t, ids, k - 1, fetch, cfg, now);
    var id := ids[k - 1];
    if id in Last(run).queue && FetchedGone(fetch(id)) {
      var s := Step(Action.Prune(id, fetch(id) == FetchedMerged), now, now);
      ScanOnce(run, t, cfg, s);
      run := Extended(run, s, ApplyScan(Last(run), s, cfg));
    }
  }

  class Pruner {
    const db: Database
    const cfg: Config
    const queue: QueueRepository.QueueRepository

    constructor (db: Database, cfg: Config)
      ensures this.db == db && this.cfg == cfg && this.queue.db == db
    {
      this.db, this.cfg := db, cfg;
      this.queue := new QueueRepository.QueueRepository(db, cfg);
    }

    /** Loads the active rows and resolves those whose pull request is fetched as merged or closed; an unfetchable one
        is left alone. */
    method Prune(fetch: nat -> PrFetch, now: int) returns (active: seq<nat>)
      requires queue.db == db && QueueOk(db.Snapshot())
      modifies db
      ensures QueueRepository.ListsRows(old(db.queue), {Pending, Retriggered}, active)
      ensures QueueRepository.Ascending(active)
      ensures QueueOk(db.Snapshot())
      ensures db.Snapshot() == Pruned(old(db.Snapshot()), active, |active|, fetch, now)
      ensures db.Snapshot() == old(db.Snapshot()).(queue := PrunedAll(old(db.queue), fetch, now), events := db.events)
    {
      ghost var t := db.Snapshot();
      active := queue.GetActiveQueue();
      for i := 0 to |active|
        invariant QueueOk(db.Snapshot()) && db.queue.Keys == t.queue.Keys
        invariant db.Snapshot() == Pruned(t, active, i, fetch, now)
      {
        ResolvePruned(active[i], fetch(active[i]), now);
      }
      PruningResolvesTheGone(t, active, fetch, now);
    }

    method ResolvePruned(id: nat, state: PrFetch, now: int)
      requires queue.db == db && QueueOk(db.Snapshot()) && id in db.queue
      modifies db
      ensures db.Snapshot() == PrunedOne(old(db.Snapshot()), id, state, now)
      ensures QueueOk(db.Snapshot()) && db.queue.Keys == old(db.queue).Keys
    {
      if !FetchedGone(state) { return; }
      var merged := state == FetchedMerged;
      LegalRewriteKeepsInv(db.queue, id, ResolvedAs(db.queue[id], ClosedAs(merged), now));
      var found := queue.MarkResolved(id, ClosedAs(merged), now);
      db.Record(DismissedEvent(db.queue[id].key));
    }
  }
}
