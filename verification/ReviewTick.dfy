/** A tick of the review detector as a function of the tables, of what GitHub answers and of what the other components
    do meanwhile; and the run of the system that it is. */
module ReviewTick {
  import opened Domain
  import opened Transitions
  import opened QueueInvariant
  import opened CommentLog
  import opened DetectionSpec
  import opened Steps
  import opened SystemInvariant
  import opened Runs
  import opened EditDetector
  import opened DetectionOutcomes
  import CommentUrl

  /** What surrounds a tick: the moments of its clock, and what all other components do between two of them. */
  datatype World = World(clock: nat -> int, others: (nat, Tables) -> Run) {
    ghost predicate FairAt(cfg: Config, k: nat, t: Tables) {
      var run := others(k, t);
      && IsRun(run, cfg) && run.states[0] == t
      && forall i :: 0 <= i < |run.steps| ==> clock(k) <= run.steps[i].now && run.steps[i].recordedAt <= clock(k + 1)
    }

    ghost predicate Fair(cfg: Config) {
      (forall k: nat :: clock(k) <= clock(k + 1)) && (forall k, t :: FairAt(cfg, k, t))
    }

    /** The tables after the other components ran. */
    function Between(k: nat, t: Tables): Tables {
      if others(k, t).states == [] then t else Last(others(k, t))
    }
  }

  /** A tick: the listed items, the tables they were loaded from, and GitHub's answers about each item. */
  datatype Tick = Tick(
    ids: seq<nat>,
    loaded: Tables,
    fetch: nat -> CommentFetch,
    lookup: nat -> ReviewLookup,
    world: World,
    cfg: Config)
  {
    predicate Valid() {
      forall i :: 0 <= i < |ids| ==> ids[i] in loaded.queue
    }

    function Item(i: nat): QueueRow
      requires Valid() && i < |ids|
    {
      loaded.queue[ids[i]]
    }

    /** What the tick loads of the pull request of item `i`. Reviews are not asked for when the name does not split. */
    function Loaded(i: nat): ItemView
      requires Valid() && i < |ids|
    {
      var item := Item(i);
      var reviews := if CommentUrl.SplitRepo(item.key.repo).Some? then lookup(ids[i]) else LookupFailed;
      if item.pullRequestId.Some? && item.pullRequestId.value in loaded.prs then
        var p := loaded.prs[item.pullRequestId.value];
        ItemView(Some(p.state), p.lastReviewAt, p.headSha, p.reviewedHeadSha, EditFailed, reviews)
      else ItemView(None, None, None, None, EditFailed, reviews)
    }

    /** The source comment of item `i` is looked at unless what was loaded settles the item. */
    predicate Looks(i: nat)
      requires Valid() && i < |ids|
    {
      && Item(i).retriggeredAt.Some?
      && Loaded(i).prState != Some(PrState.Merged) && Loaded(i).prState != Some(PrState.Closed)
    }

    /** Item `i` is dealt with from the tables `t` on: the others run, the source comment is looked at, which stores a
        fresh edit, the others run again, and the decision is carried out on the tables as they are by then. */
    function BeforeLook(i: nat, t: Tables): Tables {
      world.Between(2 * i, t)
    }

    function AfterLook(i: nat, t: Tables): Tables
      requires Valid() && i < |ids|
    {
      var t1 := BeforeLook(i, t);
      if Looks(i) then t1.(comments := EditStored(t1.comments, Item(i), fetch(ids[i]), world.clock(2 * i + 1))) else t1
    }

    function View(i: nat, t: Tables): ItemView
      requires Valid() && i < |ids|
    {
      Loaded(i).(edit := if Looks(i) then EditOf(BeforeLook(i, t).comments, Item(i), fetch(ids[i])) else EditFailed)
    }

    function BeforeWrite(i: nat, t: Tables): Tables
      requires Valid() && i < |ids|
    {
      world.Between(2 * i + 1, AfterLook(i, t))
    }

    function Decision(i: nat, t: Tables): Write
      requires Valid() && i < |ids|
    {
      DecideWrite(Item(i), View(i, t), cfg.detectionLookback, world.clock(2 * i + 2))
    }

    function AfterWrite(i: nat, t: Tables): Tables
      requires Valid() && i < |ids|
    {
      Perform(BeforeWrite(i, t), ids[i], Item(i), Decision(i, t), world.clock(2 * i + 2))
    }

    /** The tables after the first `n` items. */
    function After(n: nat): Tables
      requires Valid() && n <= |ids|
    {
      if n == 0 then loaded else AfterWrite(n - 1, After(n - 1))
    }

    /** The step that stores the edit of item `i`. */
    function EditStep(i: nat, t: Tables): Step
      requires Valid() && i < |ids| && FreshEdit(BeforeLook(i, t).comments, Item(i), fetch(ids[i]))
    {
      var stored := StoredFor(BeforeLook(i, t).comments, Item(i)).value;
      var now := world.clock(2 * i + 1);
      Step(StoreEdit(EditDelivery(Item(i), stored, fetch(ids[i]))), now, now)
    }

    /** The step that writes item `i`. */
    function WriteStep(i: nat, t: Tables): Step
      requires Valid() && i < |ids|
    {
      var now := world.clock(2 * i + 2);
      Step(DetectorWrite(ids[i], Item(i), Decision(i, t)), now, now)
    }
  }

  // ---------------------------------------------------------------- the run of a tick

  lemma OthersRun(run: Run, t0: Tables, cfg: Config, w: World, k: nat) returns (run': Run)
    requires w.Fair(cfg) && RunUntil(run, t0, cfg, w.clock(k))
    ensures RunUntil(run', t0, cfg, w.clock(k + 1)) && Continues(run, run') && Last(run') == w.Between(k, Last(run))
  {
    var others := w.others(k, Last(run));
    assert w.FairAt(cfg, k, Last(run));
    JoinRuns(run, others, cfg);
    run' := Joined(run, others);
    assert w.clock(k) <= w.clock(k + 1);
  }

  /** State `k` of the run is the one in which the source comment of item `i` was looked at; an edit is stored by the
      step that follows it. */
  ghost predicate LookedAt(tick: Tick, run: Run, i: nat, k: nat)
    requires tick.Valid() && i < |tick.ids|
  {
    && k < |run.states| && run.states[k] == tick.BeforeLook(i, tick.After(i))
    && (tick.Looks(i) && FreshEdit(run.states[k].comments, tick.Item(i), tick.fetch(tick.ids[i])) ==>
          k < |run.steps| && run.steps[k] == tick.EditStep(i, tick.After(i)))
  }

  /** Step `k` of the run is the write of item `i`. */
  ghost predicate WrittenAt(tick: Tick, run: Run, i: nat, k: nat)
    requires tick.Valid() && i < |tick.ids|
  {
    && k < |run.steps| && k + 1 < |run.states|
    && run.states[k] == tick.BeforeWrite(i, tick.After(i))
    && run.steps[k] == tick.WriteStep(i, tick.After(i))
    && run.states[k + 1] == tick.After(i + 1)
  }

  lemma LookedAtStays(tick: Tick, run: Run, run': Run, i: nat, k: nat)
    requires tick.Valid() && i < |tick.ids| && LookedAt(tick, run, i, k) && Continues(run, run')
    ensures LookedAt(tick, run', i, k)
  {
    assert run'.states[k] == run.states[k];
    assert k < |run.steps| ==> run'.steps[k] == run.steps[k];
  }

  lemma WrittenAtStays(tick: Tick, run: Run, run': Run, i: nat, k: nat)
    requires tick.Valid() && i < |tick.ids| && WrittenAt(tick, run, i, k) && Continues(run, run')
    ensures WrittenAt(tick, run', i, k)
  {
    assert run'.states[k] == run.states[k] && run'.states[k + 1] == run.states[k + 1] && run'.steps[k] == run.steps[k];
  }

  /** An edit is stored by a step of its own. */
  lemma LookRuns(tick: Tick, i: nat, run: Run, t0: Tables) returns (run': Run)
    requires tick.Valid() && i < |tick.ids| && RunUntil(run, t0, tick.cfg, tick.world.clock(2 * i + 1))
    requires Last(run) == tick.BeforeLook(i, tick.After(i))
    ensures RunUntil(run', t0, tick.cfg, tick.world.clock(2 * i + 1)) && Last(run') == tick.AfterLook(i, tick.After(i))
    ensures Continues(run, run') && LookedAt(tick, run', i, |run.steps|)
  {
    run' := run;
    if tick.Looks(i) && FreshEdit(Last(run).comments, tick.Item(i), tick.fetch(tick.ids[i])) {
      run' := StepRuns(run, t0, tick.cfg, tick.EditStep(i, tick.After(i)));
    }
    assert run'.states[|run.steps|] == Last(run);
  }

  /** The others run, and the source comment of the item is looked at. */
  lemma LookIsARun(tick: Tick, i: nat, run: Run) returns (run': Run, look: nat)
    requires tick.world.Fair(tick.cfg) && tick.Valid() && i < |tick.ids|
    requires RunUntil(run, tick.loaded, tick.cfg, tick.world.clock(2 * i)) && Last(run) == tick.After(i)
    ensures RunUntil(run', tick.loaded, tick.cfg, tick.world.clock(2 * i + 1))
    ensures Last(run') == tick.AfterLook(i, tick.After(i))
    ensures Continues(run, run') && |run.steps| <= look <= |run'.steps| && LookedAt(tick, run', i, look)
  {
    hide RunUntil, World.Fair, LookedAt;
    var run1 := OthersRun(run, tick.loaded, tick.cfg, tick.world, 2 * i);
    run' := LookRuns(tick, i, run1, tick.loaded);
    look := |run1.steps|;
  }

  /** The identity a guarded write relies on survives whatever ran since the item was loaded. */
  lemma WriteIsEnabled(tick: Tick, i: nat, run: Run)
    requires tick.cfg.Valid() && SystemInv(tick.loaded) && tick.Valid() && i < |tick.ids|
    requires RunUntil(run, tick.loaded, tick.cfg, tick.world.clock(2 * i + 2))
    ensures QueueOk(Last(run)) && Enabled(Last(run), tick.WriteStep(i, tick.After(i)), tick.cfg)
  {
    RunKeepsInv(run, tick.cfg, |run.steps|);
    SnapshotsKeepTheirIdentity(run, tick.cfg, 0, |run.steps|, tick.ids[i]);
  }

  lemma WriteApplies(t: Tables, s: Step, cfg: Config)
    requires Enabled(t, s, cfg) && s.action.DetectorWrite?
    ensures Apply(t, s, cfg) == Perform(t, s.action.id, s.action.item, s.action.write, s.now)
  {
  }

  lemma WriteRuns(tick: Tick, i: nat, run: Run, t0: Tables) returns (run': Run)
    requires tick.Valid() && i < |tick.ids| && RunUntil(run, t0, tick.cfg, tick.world.clock(2 * i + 2))
    requires Last(run) == tick.BeforeWrite(i, tick.After(i))
    requires Enabled(Last(run), tick.WriteStep(i, tick.After(i)), tick.cfg)
    ensures RunUntil(run', t0, tick.cfg, tick.world.clock(2 * i + 2)) && Continues(run, run')
    ensures Last(run') == tick.After(i + 1)
    ensures |run'.steps| == |run.steps| + 1 && WrittenAt(tick, run', i, |run.steps|)
  {
    var s := tick.WriteStep(i, tick.After(i));
    WriteApplies(Last(run), s, tick.cfg);
    run' := StepRuns(run, t0, tick.cfg, s);
    assert run'.states[|run.steps|] == Last(run) && run'.states[|run.steps| + 1] == Last(run');
  }

  lemma BeforeWriteIs(tick: Tick, i: nat)
    requires tick.Valid() && i < |tick.ids|
    ensures tick.BeforeWrite(i, tick.After(i)) == tick.world.Between(2 * i + 1, tick.AfterLook(i, tick.After(i)))
  {
  }

  /** The others run again, and the item is written. */
  lemma WriteIsARun(tick: Tick, i: nat, run: Run) returns (run': Run)
    requires tick.cfg.Valid() && tick.world.Fair(tick.cfg) && SystemInv(tick.loaded) && tick.Valid() && i < |tick.ids|
    requires RunUntil(run, tick.loaded, tick.cfg, tick.world.clock(2 * i + 1))
    requires Last(run) == tick.AfterLook(i, tick.After(i))
    ensures RunUntil(run', tick.loaded, tick.cfg, tick.world.clock(2 * i + 2)) && Last(run') == tick.After(i + 1)
    ensures Continues(run, run') && |run.steps| < |run'.steps| && WrittenAt(tick, run', i, |run'.steps| - 1)
    ensures QueueOk(tick.BeforeWrite(i, tick.After(i)))
  {
    hide *;
    var run1 := OthersRun(run, tick.loaded, tick.cfg, tick.world, 2 * i + 1);
    assert 2 * i + 1 + 1 == 2 * i + 2;
    BeforeWriteIs(tick, i);
    WriteIsEnabled(tick, i, run1);
    run' := WriteRuns(tick, i, run1, tick.loaded);
    ContinuesTwice(run, run1, run');
  }

  /** The first `n` items were looked at and written in the run: each is looked at before it is written, and written
      before the next one is looked at. */
  ghost predicate Passes(tick: Tick, run: Run, looks: seq<nat>, writes: seq<nat>, n: nat)
    requires tick.Valid() && n <= |tick.ids|
  {
    && |looks| == |writes| == n
    && (forall i :: 0 <= i < n ==> LookedAt(tick, run, i, looks[i]) && WrittenAt(tick, run, i, writes[i]))
    && (forall i :: 0 <= i < n ==> looks[i] <= writes[i])
    && (forall i, j :: 0 <= i < j < n ==> writes[i] < looks[j])
  }

  lemma PassesOneMore(tick: Tick, run: Run, run': Run, looks: seq<nat>, writes: seq<nat>, n: nat, look: nat, write: nat)
    requires tick.Valid() && n < |tick.ids| && Passes(tick, run, looks, writes, n) && Continues(run, run')
    requires |run.steps| <= look <= write && LookedAt(tick, run', n, look) && WrittenAt(tick, run', n, write)
    ensures Passes(tick, run', looks + [look], writes + [write], n + 1)
  {
    forall i | 0 <= i < n ensures LookedAt(tick, run', i, looks[i]) && WrittenAt(tick, run', i, writes[i]) {
      LookedAtStays(tick, run, run', i, looks[i]);
      WrittenAtStays(tick, run, run', i, writes[i]);
    }
  }

  /** One item: its look and its write. */
  lemma ItemIsARun(tick: Tick, i: nat, run: Run) returns (run': Run, look: nat)
    requires tick.cfg.Valid() && tick.world.Fair(tick.cfg) && SystemInv(tick.loaded) && tick.Valid() && i < |tick.ids|
    requires RunUntil(run, tick.loaded, tick.cfg, tick.world.clock(2 * i)) && Last(run) == tick.After(i)
    ensures RunUntil(run', tick.loaded, tick.cfg, tick.world.clock(2 * i + 2)) && Last(run') == tick.After(i + 1)
    ensures Continues(run, run') && |run.steps| <= look < |run'.steps|
    ensures LookedAt(tick, run', i, look) && WrittenAt(tick, run', i, |run'.steps| - 1)
    ensures QueueOk(tick.BeforeWrite(i, tick.After(i)))
  {
    var middle;
    middle, look := LookIsARun(tick, i, run);
    run' := WriteIsARun(tick, i, middle);
    LookedAtStays(tick, middle, run', i, look);
  }

  lemma NothingPassed(tick: Tick)
    requires tick.Valid()
    ensures RunUntil(Still(tick.loaded), tick.loaded, tick.cfg, tick.world.clock(0))
    ensures Last(Still(tick.loaded)) == tick.After(0)
    ensures Passes(tick, Still(tick.loaded), [], [], 0)
  {
  }

  /** A tick is a run of the system, whatever the other components do: in it every item is looked at and written once,
      in the order of the listing. */
  lemma {:induction false} TickIsARun(tick: Tick, n: nat) returns (run: Run, looks: seq<nat>, writes: seq<nat>)
    requires tick.cfg.Valid() && tick.world.Fair(tick.cfg) && SystemInv(tick.loaded) && tick.Valid() && n <= |tick.ids|
    ensures RunUntil(run, tick.loaded, tick.cfg, tick.world.clock(2 * n)) && Last(run) == tick.After(n)
    ensures Passes(tick, run, looks, writes, n)
  {
    hide *;
    if n == 0 {
      NothingPassed(tick);
      run, looks, writes := Still(tick.loaded), [], [];
    } else {
      var init, look;
      init, looks, writes := TickIsARun(tick, n - 1);
      assert 2 * n == 2 * (n - 1) + 2;
      run, look := ItemIsARun(tick, n - 1, init);
      PassesOneMore(tick, init, run, looks, writes, n - 1, look, |run.steps| - 1);
      looks, writes := looks + [look], writes + [|run.steps| - 1];
    }
  }

  /** The row of a loaded item and its pull request are still there when the item is written. */
  lemma ItemStays(tick: Tick, i: nat, run: Run, k: nat)
    requires tick.cfg.Valid() && SystemInv(tick.loaded) && tick.Valid() && i < |tick.ids|
    requires RunUntil(run, tick.loaded, tick.cfg, tick.world.clock(2 * i + 2)) && WrittenAt(tick, run, i, k)
    ensures tick.ids[i] in tick.BeforeWrite(i, tick.After(i)).queue
    ensures tick.Item(i).pullRequestId.Some? ==>
      tick.Item(i).pullRequestId.value in tick.BeforeWrite(i, tick.After(i)).prs
  {
    RunGoesOnward(run, tick.cfg, 0, k);
    assert RowLinked(tick.Item(i), tick.loaded.prs);
  }

  /** What a turn of the tick's loop may rely on. */
  lemma WriteMeetsGoodTables(tick: Tick, i: nat)
    requires tick.cfg.Valid() && tick.world.Fair(tick.cfg) && SystemInv(tick.loaded) && tick.Valid() && i < |tick.ids|
    ensures QueueOk(tick.BeforeWrite(i, tick.After(i)))
    ensures tick.ids[i] in tick.BeforeWrite(i, tick.After(i)).queue
    ensures tick.Item(i).pullRequestId.Some? ==>
      tick.Item(i).pullRequestId.value in tick.BeforeWrite(i, tick.After(i)).prs
  {
    hide *;
    var run, looks, writes := TickIsARun(tick, i);
    var run', look := ItemIsARun(tick, i, run);
    ItemStays(tick, i, run', |run'.steps| - 1);
  }

  lemma NothingDone(tick: Tick)
    requires tick.Valid()
    ensures tick.After(0) == tick.loaded
  {
  }

  lemma OneMore(tick: Tick, i: nat)
    requires tick.Valid() && i < |tick.ids|
    ensures tick.After(i + 1) == tick.AfterWrite(i, tick.After(i))
  {
  }

  // ---------------------------------------------------------------- what a tick promises

  /** Race safety of a tick, whatever ran between loading an item and writing it: its write changes nothing unless the
      row is still retriggered by then, and then only that row; and an adoption overwrites only the run that was
      loaded. */
  lemma WritesAreGuarded(tick: Tick, i: nat)
    requires tick.Valid() && i < |tick.ids|
    ensures
      var t, t', id := tick.BeforeWrite(i, tick.After(i)), tick.After(i + 1), tick.ids[i];
      var decision := tick.Decision(i, tick.After(i));
      && t'.queue.Keys == t.queue.Keys
      && (forall o :: o in t.queue && t'.queue[o] != t.queue[o] ==> o == id && t.queue[o].status == Retriggered)
      && (!StillRetriggered(t, id) ==> t' == t)
      && (decision.AdoptRun? && t' != t ==>
            (&& t.queue[id].commentRunId == tick.Item(i).commentRunId
             && t'.queue[id] == RunAdopted(t.queue[id], decision.run, tick.world.clock(2 * i + 2))
             && t' == t.(queue := t'.queue)))
  {
    DetectorWriteIsGuarded(tick.BeforeWrite(i, tick.After(i)), tick.ids[i], tick.Item(i),
                           tick.Decision(i, tick.After(i)), tick.world.clock(2 * i + 2));
  }

  /** In the paths that record a review, it is counted and recorded exactly when that same write resolves the row. */
  lemma ReviewsAreRecordedByTheWinner(tick: Tick, i: nat)
    requires tick.cfg.Valid() && tick.world.Fair(tick.cfg) && SystemInv(tick.loaded) && tick.Valid() && i < |tick.ids|
    requires tick.Item(i).pullRequestId.Some? && tick.Decision(i, tick.After(i)).RecordReview?
    ensures
      var t, t', id := tick.BeforeWrite(i, tick.After(i)), tick.After(i + 1), tick.ids[i];
      var pr := tick.Item(i).pullRequestId.value;
      && pr in t.prs && pr in t'.prs && id in t.queue && id in t'.queue
      && (t'.prs[pr].reviewCount == t.prs[pr].reviewCount + 1 <==>
            (t.queue[id].status == Retriggered && t'.queue[id].status == Resolved))
      && (t'.events != t.events <==> (t.queue[id].status == Retriggered && t'.queue[id].status == Resolved))
  {
    WriteMeetsGoodTables(tick, i);
    ReviewRecordedIffResolved(tick.BeforeWrite(i, tick.After(i)), tick.ids[i], tick.Item(i),
                              tick.Decision(i, tick.After(i)), tick.world.clock(2 * i + 2));
  }

  /** What an item is decided on: the columns of its pull request as they were loaded, and what GitHub answered. */
  lemma ViewsAreAsLoaded(tick: Tick, i: nat, t: Tables)
    requires tick.Valid() && i < |tick.ids|
    ensures
      var v, item := tick.View(i, t), tick.loaded.queue[tick.ids[i]];
      && (Registered(tick.loaded, item) ==>
            var p := tick.loaded.prs[item.pullRequestId.value];
            && v.prState == Some(p.state) && v.lastReviewAt == p.lastReviewAt
            && v.headSha == p.headSha && v.reviewedHeadSha == p.reviewedHeadSha)
      && (!Registered(tick.loaded, item) ==>
            v.prState == None && v.lastReviewAt == None && v.headSha == None && v.reviewedHeadSha == None)
      && (CommentUrl.SplitRepo(item.key.repo).Some? ==> v.lookup == tick.lookup(tick.ids[i]))
      && (CommentUrl.SplitRepo(item.key.repo).None? ==> v.lookup == LookupFailed)
      && (item.retriggeredAt.Some? && v.prState != Some(PrState.Merged) && v.prState != Some(PrState.Closed) ==>
            v.edit == EditOf(tick.world.Between(2 * i, t).comments, item, tick.fetch(tick.ids[i])))
  {
  }

  /** The comment of item `i` is stored, and was fetched, when it is looked at. */
  predicate Fetches(tick: Tick, i: nat)
    requires tick.Valid() && i < |tick.ids|
  {
    var item, log := tick.loaded.queue[tick.ids[i]], tick.BeforeLook(i, tick.After(i)).comments;
    && item.retriggeredAt.Some? && Registered(tick.loaded, item)
    && tick.loaded.prs[item.pullRequestId.value].state == PrState.Open
    && CommentUrl.SplitRepo(item.key.repo).Some? && tick.fetch(tick.ids[i]).CommentFetched?
    && item.commentId in log && log[item.commentId].pullRequestId == item.pullRequestId.value
  }

  /** The row of item `i` is still retriggered when it is written. */
  predicate StillWaits(tick: Tick, i: nat)
    requires tick.Valid() && i < |tick.ids|
  {
    var t := tick.BeforeWrite(i, tick.After(i));
    tick.ids[i] in t.queue && t.queue[tick.ids[i]].status == Retriggered
  }

  /** When the source comment was edited to a verdict since it was last seen, and no other component settled the row in
      the meantime, the tick records that verdict. */
  lemma FreshVerdictIsRecorded(tick: Tick, i: nat)
    requires tick.cfg.Valid() && tick.world.Fair(tick.cfg) && SystemInv(tick.loaded) && tick.Valid() && i < |tick.ids|
    requires Fetches(tick, i) && StillWaits(tick, i)
    requires tick.fetch(tick.ids[i]).kind == ReviewApproved || tick.fetch(tick.ids[i]).kind == ReviewChangesSuggested
    requires tick.fetch(tick.ids[i]).updatedAt
      > tick.BeforeLook(i, tick.After(i)).comments[tick.Item(i).commentId].lastSeenAt
    ensures
      var t, item := tick.BeforeWrite(i, tick.After(i)), tick.Item(i);
      && Registered(t, item)
      && ReviewIn(t, tick.After(i + 1), tick.ids[i], item,
                  tick.BeforeLook(i, tick.After(i)).comments[item.commentId].content.url,
                  tick.fetch(tick.ids[i]).kind, t.prs[item.pullRequestId.value].headSha, tick.world.clock(2 * i + 2))
  {
    WriteMeetsGoodTables(tick, i);
    hide World.Fair, SystemInv;
    ViewsAreAsLoaded(tick, i, tick.After(i));
    OnlyFreshEditsDecide(tick.BeforeLook(i, tick.After(i)).comments, tick.Item(i), tick.fetch(tick.ids[i]));
    EditedVerdictIsRecorded(tick.BeforeWrite(i, tick.After(i)), tick.ids[i], tick.Item(i), tick.View(i, tick.After(i)),
                            tick.cfg.detectionLookback, tick.world.clock(2 * i + 2));
  }

  /** When the source comment was not edited since it was last seen, and the reviews of the pull request hold one for
      the trigger, the tick records that review. */
  lemma ReviewOfUneditedIsRecorded(tick: Tick, i: nat)
    requires tick.cfg.Valid() && tick.world.Fair(tick.cfg) && SystemInv(tick.loaded) && tick.Valid() && i < |tick.ids|
    requires Fetches(tick, i) && StillWaits(tick, i) && tick.lookup(tick.ids[i]).ReviewFound?
    requires tick.fetch(tick.ids[i]).updatedAt
      <= tick.BeforeLook(i, tick.After(i)).comments[tick.Item(i).commentId].lastSeenAt
    ensures
      var t, item, review := tick.BeforeWrite(i, tick.After(i)), tick.Item(i), tick.lookup(tick.ids[i]).review;
      && Registered(t, item)
      && ReviewIn(t, tick.After(i + 1), tick.ids[i], item, review.url,
                  if review.approval then ReviewApproved else ReviewChangesSuggested,
                  if review.commit.Some? then review.commit else t.prs[item.pullRequestId.value].headSha,
                  tick.world.clock(2 * i + 2))
  {
    WriteMeetsGoodTables(tick, i);
    hide World.Fair, SystemInv;
    ViewsAreAsLoaded(tick, i, tick.After(i));
    FoundReviewIsRecorded(tick.BeforeWrite(i, tick.After(i)), tick.ids[i], tick.Item(i), tick.View(i, tick.After(i)),
                          tick.cfg.detectionLookback, tick.world.clock(2 * i + 2));
  }
}
