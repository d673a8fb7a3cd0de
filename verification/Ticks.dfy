/** Runs of the scan steps a scheduler tick takes before it triggers anything. */
module Ticks {
  import opened Domain
  import opened Transitions
  import opened QueueInvariant
  import opened Steps
  import opened SystemInvariant
  import opened Runs

  datatype PrFetch = FetchedOpen | FetchedMerged | FetchedClosed | Unfetchable

  predicate FetchedGone(f: PrFetch) {
    f.FetchedMerged? || f.FetchedClosed?
  }

  predicate TickInv(t: Tables) {
    QueueOk(t) && Linked(t)
  }

  lemma ScanKeepsTickInv(t: Tables, s: Step, cfg: Config)
    requires cfg.Valid() && TickInv(t) && Enabled(t, s, cfg) && ScanAction(s.action)
    ensures TickInv(ApplyScan(t, s, cfg))
  {
    ScanKeepsQueue(t, s, cfg);
    ScanEffects(t, s, cfg);
  }

  /** The scan steps of a tick, all at its clock, starting from `t0`. */
  ghost predicate Scanning(run: Run, t0: Tables, cfg: Config, now: int) {
    && IsRun(run, cfg) && run.states[0] == t0
    && forall i :: 0 <= i < |run.steps| ==> TickScan(run.steps[i], now)
  }

  predicate TickScan(s: Step, now: int) {
    s.now == now && s.recordedAt == now && ScanAction(s.action) && !s.action.ResolveByHand?
  }

  lemma {:induction false} ScanningKeepsTickInv(run: Run, t0: Tables, cfg: Config, now: int, i: nat)
    requires cfg.Valid() && TickInv(t0) && Scanning(run, t0, cfg, now) && i < |run.states|
    ensures TickInv(run.states[i])
  {
    if i > 0 {
      ScanningKeepsTickInv(run, t0, cfg, now, i - 1);
      assert TickScan(run.steps[i - 1], now);
      ScanKeepsTickInv(run.states[i - 1], run.steps[i - 1], cfg);
    }
  }

  lemma ScanOnce(run: Run, t0: Tables, cfg: Config, s: Step)
    requires Scanning(run, t0, cfg, s.now) && TickScan(s, s.now) && Enabled(Last(run), s, cfg)
    ensures Scanning(Extended(run, s, ApplyScan(Last(run), s, cfg)), t0, cfg, s.now)
  {
    assert forall i :: 0 <= i < |run.steps| ==> TickScan(run.steps[i], s.now);
    ExtendRun(run, s, cfg);
  }
}
