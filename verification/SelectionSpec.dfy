/** The selection loop of the scheduler: which items are passed over, what becomes of them, and which one is taken. */
module SelectionSpec {
  import opened Domain
  import opened Transitions
  import opened QueueInvariant
  import opened Steps
  import opened Runs
  import opened Ticks
  import opened QueueOrder

  predicate OnCooldown(r: QueueRow, now: int) {
    r.cooldownUntil.Some? && r.cooldownUntil.value > now
  }

  predicate StillSettling(r: QueueRow, cfg: Config, now: int) {
    now - r.createdAt < cfg.retriggerSpacing
  }

  /** A pending item whose state is worth a fetch. */
  predicate WorthFetching(r: QueueRow, cfg: Config, now: int) {
    r.status == Pending && !OnCooldown(r, now) && !StillSettling(r, cfg, now)
  }

  /** What the loop does to an item it passes over. */
  function PassedOver(r: QueueRow, f: PrFetch, cfg: Config, now: int): QueueRow {
    if r.status != Pending then r
    else if OnCooldown(r, now) then SkipMarked(r, SkipReason.Cooldown, now)
    else if StillSettling(r, cfg, now) then SkipMarked(r, SkipReason.Settling, now)
    else match f
      case FetchedMerged => ResolvedAs(r, PrMerged, now)
      case FetchedClosed => ResolvedAs(r, PrClosedWithoutMerge, now)
      case _ => r
  }

  function PassedOverAll(q: map<nat, QueueRow>, passed: seq<nat>, fetch: nat -> PrFetch, cfg: Config,
                         now: int): map<nat, QueueRow> {
    map id | id in q :: if id in passed then PassedOver(q[id], fetch(id), cfg, now) else q[id]
  }

  /** How many fetches the loop makes for the first `k` items of the order. */
  function Fetches(q: map<nat, QueueRow>, order: seq<nat>, k: nat, cfg: Config, now: int): nat
    requires k <= |order|
  {
    if k == 0 then 0
    else
      var last := if order[k - 1] in q && WorthFetching(q[order[k - 1]], cfg, now) then 1 else 0;
      Fetches(q, order, k - 1, cfg, now) + last
  }

  predicate Eligible(q: map<nat, QueueRow>, id: nat, fetch: nat -> PrFetch, cfg: Config, now: int) {
    id in q && WorthFetching(q[id], cfg, now) && fetch(id) == FetchedOpen
  }

  datatype Selection = Candidate(id: nat) | Deferred | NoneDue | SelectionThrew

  /** Where a database error ends a tick before an item is selected, if anywhere: while the active rows are loaded, in
      the sweep, at the gates, or at the item of the order with this index. */
  datatype Fault = NoFault | PruningThrows | SweepThrows | GateThrows | ItemThrows(at: nat)

  /** What a selection that stopped after `k` items means. */
  predicate Selected(q: map<nat, QueueRow>, order: seq<nat>, k: nat, sel: Selection, fetch: nat -> PrFetch,
                     fault: Fault, cfg: Config, now: int) {
    && k <= |order|
    && (forall i :: 0 <= i < k ==> !Eligible(q, order[i], fetch, cfg, now) && fault != ItemThrows(i))
    && match sel
       case Candidate(id) =>
         && k < |order| && order[k] == id && Eligible(q, id, fetch, cfg, now) && fault != ItemThrows(k)
         && Fetches(q, order, k + 1, cfg, now) <= cfg.maxFetchesPerTick
       case Deferred => Fetches(q, order, k, cfg, now) == cfg.maxFetchesPerTick
       case NoneDue => k == |order| && Fetches(q, order, k, cfg, now) < cfg.maxFetchesPerTick
       case SelectionThrew =>
         k < |order| && fault == ItemThrows(k) && Fetches(q, order, k, cfg, now) < cfg.maxFetchesPerTick
  }

  // ---------------------------------------------------------------- what the loop leaves

  /** One turn of the loop, for an item in this state. */
  function Considered(t: Tables, id: nat, state: PrFetch, cfg: Config, now: int): Tables {
    if id !in t.queue then t
    else
      t.(queue := t.queue[id := PassedOver(t.queue[id], state, cfg, now)],
         events := if WorthFetching(t.queue[id], cfg, now) && FetchedGone(state)
                   then t.events + [DismissedEvent(t.queue[id].key)]
                   else t.events)
  }

  /** The tables after the first `k` items of the order. */
  function Passed(t: Tables, order: seq<nat>, k: nat, fetch: nat -> PrFetch, cfg: Config, now: int): Tables
    requires k <= |order|
  {
    if k == 0 then t
    else Considered(Passed(t, order, k - 1, fetch, cfg, now), order[k - 1], fetch(order[k - 1]), cfg, now)
  }

  lemma PassOne(q: map<nat, QueueRow>, order: seq<nat>, k: nat, fetch: nat -> PrFetch, cfg: Config, now: int)
    requires k < |order| && order[k] in q && order[k] !in order[..k]
    ensures var before, id := PassedOverAll(q, order[..k], fetch, cfg, now), order[k];
      && before[id] == q[id]
      && PassedOverAll(q, order[..k + 1], fetch, cfg, now) == before[id := PassedOver(q[id], fetch(id), cfg, now)]
  {
    assert order[..k + 1] == order[..k] + [order[k]];
  }

  lemma PassedOverIsLegal(q: map<nat, QueueRow>, id: nat, state: PrFetch, cfg: Config, now: int)
    requires QueueInv(q) && id in q
    ensures LegalRewrite(q, id, PassedOver(q[id], state, cfg, now))
  {
  }

  lemma PassOneMore(t: Tables, t1: Tables, order: seq<nat>, k: nat, fetch: nat -> PrFetch, cfg: Config, now: int)
    requires IsEffectiveOrder(t, order) && k < |order|
    requires t1 == t.(queue := PassedOverAll(t.queue, order[..k], fetch, cfg, now), events := t1.events)
    ensures var t2 := Considered(t1, order[k], fetch(order[k]), cfg, now);
      t2 == t.(queue := PassedOverAll(t.queue, order[..k + 1], fetch, cfg, now), events := t2.events)
  {
    assert Listed(t, order[k]) && order[k] !in order[..k];
    PassOne(t.queue, order, k, fetch, cfg, now);
  }

  /** Passing over items rewrites each of them once, from the state it was loaded in, and nothing else but events. */
  lemma {:induction false} PassedOnly(t: Tables, order: seq<nat>, k: nat, fetch: nat -> PrFetch, cfg: Config, now: int)
    requires IsEffectiveOrder(t, order) && k <= |order|
    ensures var t' := Passed(t, order, k, fetch, cfg, now);
      t' == t.(queue := PassedOverAll(t.queue, order[..k], fetch, cfg, now), events := t'.events)
  {
    if k == 0 {
      assert t.queue == PassedOverAll(t.queue, order[..0], fetch, cfg, now);
    } else {
      PassedOnly(t, order, k - 1, fetch, cfg, now);
      PassOneMore(t, Passed(t, order, k - 1, fetch, cfg, now), order, k - 1, fetch, cfg, now);
    }
  }

  lemma NextIsAsLoaded(t: Tables, order: seq<nat>, k: nat, fetch: nat -> PrFetch, cfg: Config, now: int)
    requires IsEffectiveOrder(t, order) && k < |order|
    ensures var t1 := Passed(t, order, k, fetch, cfg, now);
      order[k] in t.queue && order[k] in t1.queue && t1.queue[order[k]] == t.queue[order[k]]
  {
    PassedOnly(t, order, k, fetch, cfg, now);
    assert Listed(t, order[k]) && order[k] !in order[..k];
  }

  lemma TurnKeepsQueueOk(t: Tables, id: nat, state: PrFetch, cfg: Config, now: int)
    requires QueueOk(t) && id in t.queue
    ensures QueueOk(Considered(t, id, state, cfg, now))
  {
    PassedOverIsLegal(t.queue, id, state, cfg, now);
    LegalRewriteKeepsInv(t.queue, id, PassedOver(t.queue[id], state, cfg, now));
  }

  /** One turn is one step of the system, or none. */
  lemma TurnIsAStep(t: Tables, id: nat, state: PrFetch, cfg: Config, now: int) returns (s: Option<Step>)
    ensures s.None? ==> Considered(t, id, state, cfg, now) == t
    ensures s.Some? ==>
      && TickScan(s.value, now) && Enabled(t, s.value, cfg)
      && ApplyScan(t, s.value, cfg) == Considered(t, id, state, cfg, now)
  {
    s := None;
    if id in t.queue { assert t.queue == t.queue[id := t.queue[id]]; }
    if id in t.queue && t.queue[id].status == Pending {
      if OnCooldown(t.queue[id], now) {
        s := Some(Step(MarkSkipped(id, SkipReason.Cooldown), now, now));
      } else if StillSettling(t.queue[id], cfg, now) {
        s := Some(Step(MarkSkipped(id, SkipReason.Settling), now, now));
      } else if FetchedGone(state) {
        s := Some(Step(ResolveScanned(id, state == FetchedMerged), now, now));
      }
    }
  }

  lemma {:induction false} PassingIsARun(run: Run, t0: Tables, t: Tables, order: seq<nat>, k: nat,
                                         fetch: nat -> PrFetch, cfg: Config, now: int)
    returns (run': Run)
    requires Scanning(run, t0, cfg, now) && Last(run) == t && k <= |order|
    ensures Scanning(run', t0, cfg, now) && Last(run') == Passed(t, order, k, fetch, cfg, now)
  {
    if k == 0 { return run; }
    run' := PassingIsARun(run, t0, t, order, k - 1, fetch, cfg, now);
    var s := TurnIsAStep(Last(run'), order[k - 1], fetch(order[k - 1]), cfg, now);
    if s.Some? {
      ScanOnce(run', t0, cfg, s.value);
      run' := Extended(run', s.value, ApplyScan(Last(run'), s.value, cfg));
    }
  }

  /** The walk has come past the first `k` items, none of them eligible, with so many fetches. */
  ghost predicate WalkedTo(q: map<nat, QueueRow>, order: seq<nat>, k: nat, fetches: nat, fetch: nat -> PrFetch,
                           fault: Fault, cfg: Config, now: int) {
    && k <= |order| && fetches == Fetches(q, order, k, cfg, now)
    && forall i :: 0 <= i < k ==> !Eligible(q, order[i], fetch, cfg, now) && fault != ItemThrows(i)
  }

  /** The walk goes on within its budget, or is decided. */
  ghost predicate Walking(q: map<nat, QueueRow>, order: seq<nat>, k: nat, fetches: nat, decided: Option<Selection>,
                          fetch: nat -> PrFetch, fault: Fault, cfg: Config, now: int) {
    match decided
    case None => WalkedTo(q, order, k, fetches, fetch, fault, cfg, now) && fetches < cfg.maxFetchesPerTick
    case Some(sel) => Selected(q, order, k, sel, fetch, fault, cfg, now)
  }

  /** What one turn, for the row `r`, decides. */
  predicate Turned(r: QueueRow, id: nat, state: PrFetch, k: nat, fetches: nat, decided: Option<Selection>, k': nat,
                   fetches': nat, fault: Fault, cfg: Config, now: int) {
    var fetched := WorthFetching(r, cfg, now);
    if fault == ItemThrows(k) then decided == Some(SelectionThrew) && k' == k
    else if fetched && state == FetchedOpen then decided == Some(Candidate(id)) && k' == k
    else
      && k' == k + 1 && fetches' == fetches + (if fetched then 1 else 0)
      && decided == if fetched && fetches' >= cfg.maxFetchesPerTick then Some(Deferred) else None
  }

  lemma TurnDecides(q: map<nat, QueueRow>, order: seq<nat>, k: nat, fetches: nat, decided: Option<Selection>, k': nat,
                    fetches': nat, fetch: nat -> PrFetch, fault: Fault, cfg: Config, now: int)
    requires Walking(q, order, k, fetches, None, fetch, fault, cfg, now) && k < |order| && order[k] in q
    requires Turned(q[order[k]], order[k], fetch(order[k]), k, fetches, decided, k', fetches', fault, cfg, now)
    ensures Walking(q, order, k', fetches', decided, fetch, fault, cfg, now)
    ensures if decided.Some? && !decided.value.Deferred? then k' == k else k' == k + 1
  {
  }

  lemma WalkBegins(t: Tables, order: seq<nat>, fetch: nat -> PrFetch, fault: Fault, cfg: Config, now: int)
    requires cfg.Valid()
    ensures Passed(t, order, 0, fetch, cfg, now) == t && Walking(t.queue, order, 0, 0, None, fetch, fault, cfg, now)
  {
  }

  lemma PassedTurn(t: Tables, order: seq<nat>, k: nat, fetch: nat -> PrFetch, cfg: Config, now: int)
    requires k < |order|
    ensures Passed(t, order, k + 1, fetch, cfg, now)
      == Considered(Passed(t, order, k, fetch, cfg, now), order[k], fetch(order[k]), cfg, now)
  {
  }

  lemma WalkEnds(q: map<nat, QueueRow>, order: seq<nat>, k: nat, fetches: nat, decided: Option<Selection>,
                 fetch: nat -> PrFetch, fault: Fault, cfg: Config, now: int)
    requires Walking(q, order, k, fetches, decided, fetch, fault, cfg, now) && (k == |order| || decided.Some?)
    ensures Selected(q, order, k, if decided.Some? then decided.value else NoneDue, fetch, fault, cfg, now)
  {
  }

  lemma EligibleIsLeft(t: Tables, id: nat, cfg: Config, now: int)
    requires id in t.queue && WorthFetching(t.queue[id], cfg, now)
    ensures Considered(t, id, FetchedOpen, cfg, now) == t
  {
    assert t.queue == t.queue[id := t.queue[id]];
  }

  // ---------------------------------------------------------------- from the fields of the rows

  /** Pending, past any cooldown of its own, and older than the spacing. */
  predicate Ripe(r: QueueRow, cfg: Config, now: int) {
    && r.status == Pending
    && (r.cooldownUntil.None? || r.cooldownUntil.value <= now)
    && now - r.createdAt >= cfg.retriggerSpacing
  }

  /** An item is worth a fetch exactly when it is ripe, that is, pending and due. */
  lemma WorthFetchingIsRipe(r: QueueRow, cfg: Config, now: int)
    ensures WorthFetching(r, cfg, now) <==> Ripe(r, cfg, now)
    ensures Ripe(r, cfg, now) <==> r.status == Pending && Due(r, cfg, now)
  {
  }

  /** What the loop does to an item it passes over: a cooldown still running or a row too young is marked as such, a
      ripe item whose pull request is gone is resolved, and anything else is left. */
  lemma PassedOverExactly(r: QueueRow, f: PrFetch, cfg: Config, now: int)
    ensures
      var r' := PassedOver(r, f, cfg, now);
      var cooling := r.status == Pending && r.cooldownUntil.Some? && r.cooldownUntil.value > now;
      var settling := r.status == Pending && !cooling && now - r.createdAt < cfg.retriggerSpacing;
      && (cooling ==> r' == r.(lastSkippedAt := Some(now), lastSkipReason := Some(SkipReason.Cooldown),
                               skipCount := r.skipCount + 1))
      && (settling ==> r' == r.(lastSkippedAt := Some(now), lastSkipReason := Some(SkipReason.Settling),
                                skipCount := r.skipCount + 1))
      && (r'.skipCount != r.skipCount ==> cooling || settling)
      && (Ripe(r, cfg, now) && f == FetchedMerged ==>
            r' == r.(status := Resolved, resolution := Some(PrMerged), resolvedAt := Some(now)))
      && (Ripe(r, cfg, now) && f == FetchedClosed ==>
            r' == r.(status := Resolved, resolution := Some(PrClosedWithoutMerge), resolvedAt := Some(now)))
      && (r' != r ==> cooling || settling || (Ripe(r, cfg, now) && (f == FetchedMerged || f == FetchedClosed)))
  {
    match f {
      case FetchedOpen =>
      case FetchedMerged =>
      case FetchedClosed =>
      case Unfetchable =>
    }
  }

  /** The ripe items among the first `k`, by their index. */
  function RipeBefore(q: map<nat, QueueRow>, order: seq<nat>, k: nat, cfg: Config, now: int): set<nat>
    requires k <= |order|
  {
    set i: nat | i < k && order[i] in q && Ripe(q[order[i]], cfg, now)
  }

  /** One fetch is made for each ripe item. */
  lemma {:induction false} FetchesAreTheRipe(q: map<nat, QueueRow>, order: seq<nat>, k: nat, cfg: Config, now: int)
    requires k <= |order|
    ensures Fetches(q, order, k, cfg, now) == |RipeBefore(q, order, k, cfg, now)|
  {
    if k > 0 {
      FetchesAreTheRipe(q, order, k - 1, cfg, now);
      var init, all := RipeBefore(q, order, k - 1, cfg, now), RipeBefore(q, order, k, cfg, now);
      if order[k - 1] in q {
        WorthFetchingIsRipe(q[order[k - 1]], cfg, now);
        assert Ripe(q[order[k - 1]], cfg, now) ==> all == init + {k - 1};
      }
      assert order[k - 1] !in q || !Ripe(q[order[k - 1]], cfg, now) ==> all == init;
    }
  }

  lemma FewerRipeBefore(q: map<nat, QueueRow>, order: seq<nat>, j: nat, k: nat, cfg: Config, now: int)
    requires j <= k <= |order|
    ensures |RipeBefore(q, order, j, cfg, now)| <= |RipeBefore(q, order, k, cfg, now)|
    decreases k - j
  {
    if j < k {
      FewerRipeBefore(q, order, j, k - 1, cfg, now);
      FetchesAreTheRipe(q, order, k - 1, cfg, now);
      FetchesAreTheRipe(q, order, k, cfg, now);
    }
  }

  /** A ripe item whose pull request is fetched as open. */
  predicate Takeable(q: map<nat, QueueRow>, id: nat, fetch: nat -> PrFetch, cfg: Config, now: int) {
    id in q && Ripe(q[id], cfg, now) && fetch(id) == FetchedOpen
  }

  /** What the loop answers at index `k`, read off the rows: it takes the first takeable item within the budget of
      fetches; or the budget was used up before it; or there is no such item; or an error came first. */
  predicate AnswersAt(q: map<nat, QueueRow>, order: seq<nat>, k: nat, sel: Selection, fetch: nat -> PrFetch,
                      fault: Fault, cfg: Config, now: int)
    requires k <= |order|
  {
    && (forall i :: 0 <= i < k ==> !Takeable(q, order[i], fetch, cfg, now) && fault != ItemThrows(i))
    && var fetches := |RipeBefore(q, order, k, cfg, now)|;
       match sel
       case Candidate(id) =>
         && k < |order| && order[k] == id && Takeable(q, id, fetch, cfg, now) && fault != ItemThrows(k)
         && fetches < cfg.maxFetchesPerTick
       case Deferred => fetches == cfg.maxFetchesPerTick
       case NoneDue => k == |order| && fetches < cfg.maxFetchesPerTick
       case SelectionThrew => k < |order| && fault == ItemThrows(k) && fetches < cfg.maxFetchesPerTick
  }

  lemma SelectionAnswers(q: map<nat, QueueRow>, order: seq<nat>, k: nat, sel: Selection, fetch: nat -> PrFetch,
                         fault: Fault, cfg: Config, now: int)
    requires Selected(q, order, k, sel, fetch, fault, cfg, now)
    ensures k <= |order| && AnswersAt(q, order, k, sel, fetch, fault, cfg, now)
  {
    forall i | 0 <= i < |order|
      ensures Takeable(q, order[i], fetch, cfg, now) <==> Eligible(q, order[i], fetch, cfg, now)
    {
      if order[i] in q { WorthFetchingIsRipe(q[order[i]], cfg, now); }
    }
    FetchesAreTheRipe(q, order, k, cfg, now);
    if sel.Candidate? { assert Fetches(q, order, k + 1, cfg, now) == Fetches(q, order, k, cfg, now) + 1; }
  }

  /** The rows, the order and what is fetched determine the answer. */
  lemma OnlyOneAnswerFits(q: map<nat, QueueRow>, order: seq<nat>, k: nat, sel: Selection, k': nat, sel': Selection,
                          fetch: nat -> PrFetch, fault: Fault, cfg: Config, now: int)
    requires k <= k' <= |order|
    requires AnswersAt(q, order, k, sel, fetch, fault, cfg, now)
    requires AnswersAt(q, order, k', sel', fetch, fault, cfg, now)
    ensures sel == sel'
  {
    FewerRipeBefore(q, order, k, k', cfg, now);
    FewerRipeBefore(q, order, k', |order|, cfg, now);
  }

  /** In particular an item is taken when it is the first takeable one and the fetches before it leave it room; and
      none is due only if no listed item is takeable. */
  lemma TakeableIsTaken(q: map<nat, QueueRow>, order: seq<nat>, k: nat, sel: Selection, fetch: nat -> PrFetch,
                        fault: Fault, cfg: Config, now: int, j: nat)
    requires Selected(q, order, k, sel, fetch, fault, cfg, now) && j < |order| && Takeable(q, order[j], fetch, cfg, now)
    ensures sel != NoneDue
    ensures
      && (forall i :: 0 <= i < j ==> !Takeable(q, order[i], fetch, cfg, now))
      && (forall i :: 0 <= i <= j ==> fault != ItemThrows(i))
      && |RipeBefore(q, order, j, cfg, now)| < cfg.maxFetchesPerTick
      ==> sel == Candidate(order[j])
  {
    SelectionAnswers(q, order, k, sel, fetch, fault, cfg, now);
    if k <= j { FewerRipeBefore(q, order, k, j, cfg, now); }
  }

  // ---------------------------------------------------------------- what passing over leaves and records

  /** The dismissals of the ripe items among the first `k` whose pull request is gone, in their order. */
  function Dismissals(q: map<nat, QueueRow>, order: seq<nat>, k: nat, fetch: nat -> PrFetch, cfg: Config, now: int):
    (es: seq<Event>)
    requires k <= |order|
  {
    if k == 0 then []
    else
      var init, id := Dismissals(q, order, k - 1, fetch, cfg, now), order[k - 1];
      if id in q && Ripe(q[id], cfg, now) && (fetch(id) == FetchedMerged || fetch(id) == FetchedClosed)
      then init + [DismissedEvent(q[id].key)] else init
  }

  lemma TurnRecordsDismissal(t: Tables, id: nat, state: PrFetch, cfg: Config, now: int)
    requires id in t.queue
    ensures Considered(t, id, state, cfg, now).events
      == t.events + (if Ripe(t.queue[id], cfg, now) && (state == FetchedMerged || state == FetchedClosed)
                     then [DismissedEvent(t.queue[id].key)] else [])
  {
    WorthFetchingIsRipe(t.queue[id], cfg, now);
  }

  /** The loop records exactly the dismissals of the items it resolves. */
  lemma {:induction false} PassingRecordsDismissals(t: Tables, order: seq<nat>, k: nat, fetch: nat -> PrFetch,
                                                    cfg: Config, now: int)
    requires IsEffectiveOrder(t, order) && k <= |order|
    ensures Passed(t, order, k, fetch, cfg, now).events == t.events + Dismissals(t.queue, order, k, fetch, cfg, now)
  {
    hide IsEffectiveOrder, Considered, Ripe;
    if k > 0 {
      PassingRecordsDismissals(t, order, k - 1, fetch, cfg, now);
      NextIsAsLoaded(t, order, k - 1, fetch, cfg, now);
      TurnRecordsDismissal(Passed(t, order, k - 1, fetch, cfg, now), order[k - 1], fetch(order[k - 1]), cfg, now);
    }
  }
}
