/** The lifecycle of the interval loops: timer, tick, bootstrap and stop as single-threaded stretches of code between
    two awaits, under every interleaving. */
module IntervalService {
  import opened Domain

  /** The fields of the service, and what is pending around them: executions of `executeTick` that have not settled,
      calls of `tick` and of `stop` that await the execution with a given number, and whether a `stop` has settled. */
  datatype Service = Service(
    interval: bool,
    tickPromise: Option<nat>,
    stopped: bool,
    inFlight: set<nat>,
    ticks: set<nat>,
    stops: set<nat>,
    stopSettled: bool,
    executions: nat)

  const NEW_SERVICE := Service(false, None, false, {}, {}, {}, false, 0)

  /** What can happen next. `guard` is what a subclass adds to the tick guard; `ExecuteSettles` is success or
      failure. */
  datatype Event =
    | TimerFires(guard: bool)
    | BootstrapCalled(guard: bool)
    | IntervalSet
    | ExecuteSettles(p: nat)
    | TickResumes(p: nat)
    | StopCalled
    | StopResumes(p: nat)

  predicate Possible(s: Service, e: Event) {
    match e
    case TimerFires(_) => s.interval
    case ExecuteSettles(p) => p in s.inFlight
    case TickResumes(p) => p in s.ticks && p !in s.inFlight
    case StopResumes(p) => p in s.stops && p !in s.inFlight
    case _ => true
  }

  predicate TickGuard(s: Service, guard: bool) {
    !s.stopped && s.tickPromise.None? && guard
  }

  function Ticked(s: Service, guard: bool): Service {
    if !TickGuard(s, guard) then s
    else
      s.(inFlight := s.inFlight + {s.executions}, ticks := s.ticks + {s.executions}, tickPromise := Some(s.executions),
         executions := s.executions + 1)
  }

  function Next(s: Service, e: Event): Service {
    match e
    case TimerFires(guard) => Ticked(s, guard)
    case BootstrapCalled(guard) => if s.tickPromise.Some? then s else Ticked(s, guard)
    case IntervalSet => s.(interval := true)
    case ExecuteSettles(p) => s.(inFlight := s.inFlight - {p})
    case TickResumes(p) => s.(ticks := s.ticks - {p}, tickPromise := None)
    case StopCalled =>
      s.(stopped := true, interval := false,
         stops := if s.tickPromise.Some? then s.stops + {s.tickPromise.value} else s.stops,
         stopSettled := s.stopSettled || s.tickPromise.None?)
    case StopResumes(p) => s.(stops := s.stops - {p}, stopSettled := true)
  }

  ghost predicate IsRun(states: seq<Service>, events: seq<Event>) {
    && |states| == |events| + 1 && states[0] == NEW_SERVICE
    && forall i :: 0 <= i < |events| ==> Possible(states[i], events[i]) && states[i + 1] == Next(states[i], events[i])
  }

  /** The execution awaited by the only suspended `tick` is the only one that may be in flight; a pending or settled
      `stop` leaves nothing in flight but what it awaits. */
  predicate Inv(s: Service) {
    && s.ticks == (if s.tickPromise.Some? then {s.tickPromise.value} else {})
    && s.inFlight <= s.ticks
    && (forall p :: p in s.ticks ==> p < s.executions)
    && (s.stops != {} || s.stopSettled ==> s.stopped)
    && (forall p :: p in s.stops ==> s.inFlight <= {p})
    && (s.stopSettled ==> s.inFlight == {})
  }

  lemma EventKeepsInv(s: Service, e: Event)
    requires Inv(s) && Possible(s, e)
    ensures Inv(Next(s, e))
  {
    match e {
      case TimerFires(_) =>
      case BootstrapCalled(_) =>
      case IntervalSet =>
      case ExecuteSettles(_) =>
      case TickResumes(_) =>
      case StopCalled =>
      case StopResumes(_) =>
    }
  }

  lemma {:induction false} RunKeepsInv(states: seq<Service>, events: seq<Event>, i: nat)
    requires IsRun(states, events) && i < |states|
    ensures Inv(states[i])
  {
    if i > 0 {
      RunKeepsInv(states, events, i - 1);
      EventKeepsInv(states[i - 1], events[i - 1]);
    }
  }

  /** Under every interleaving at most one execution is in flight. */
  lemma AtMostOneInFlight(states: seq<Service>, events: seq<Event>, i: nat, p: nat, q: nat)
    requires IsRun(states, events) && i < |states| && p in states[i].inFlight && q in states[i].inFlight
    ensures p == q
  {
    RunKeepsInv(states, events, i);
  }

  /** From the moment `stop` is called no execution begins, and once a `stop` settled none is in flight ever after. */
  lemma {:induction false} StopStops(states: seq<Service>, events: seq<Event>, i: nat, j: nat)
    requires IsRun(states, events) && i <= j < |states| && states[i].stopped
    ensures states[j].stopped && states[j].executions == states[i].executions
    ensures states[i].stopSettled ==> states[j].stopSettled && states[j].inFlight == {}
    decreases j - i
  {
    if i < j {
      StopStops(states, events, i, j - 1);
      RunKeepsInv(states, events, j - 1);
    } else {
      RunKeepsInv(states, events, i);
    }
  }

  /** A tick begins an execution exactly when the service is not stopped, no tick is suspended and the subclass
      agrees. */
  lemma GuardIsExact(states: seq<Service>, events: seq<Event>, i: nat, guard: bool)
    requires IsRun(states, events) && i < |states|
    ensures Ticked(states[i], guard).executions == states[i].executions + 1 <==>
      !states[i].stopped && states[i].ticks == {} && guard
  {
    RunKeepsInv(states, events, i);
  }

  // ---------------------------------------------------------------- the state, read off the events so far

  /** Event `j` calls `executeTick`, and its promise gets the number `p`. */
  predicate Begins(states: seq<Service>, j: nat, p: nat)
    requires j + 1 < |states|
  {
    states[j].executions == p && states[j + 1].executions == p + 1
  }

  /** A firing of the timer, or a bootstrap call, begins an execution exactly when no tick is suspended, the service was
      not stopped and the subclass agrees. Nothing else begins one, and each gets a number of its own. */
  lemma BeginsExactlyWhen(states: seq<Service>, events: seq<Event>, j: nat, p: nat)
    requires IsRun(states, events) && j < |events|
    ensures Begins(states, j, p) <==>
      && (events[j] == TimerFires(true) || events[j] == BootstrapCalled(true))
      && !states[j].stopped && states[j].ticks == {} && states[j].executions == p
    ensures states[j + 1].executions == states[j].executions || Begins(states, j, states[j].executions)
  {
    RunKeepsInv(states, events, j);
    match events[j] {
      case TimerFires(_) =>
      case BootstrapCalled(_) =>
      case IntervalSet =>
      case ExecuteSettles(_) =>
      case TickResumes(_) =>
      case StopCalled =>
      case StopResumes(_) =>
    }
  }

  /** The service is stopped exactly when `stop` has been called, and its timer runs exactly when it was set and no
      call of `stop` came after. */
  lemma {:induction false} TimerRunsExactlyWhen(states: seq<Service>, events: seq<Event>, i: nat)
    requires IsRun(states, events) && i < |states|
    ensures states[i].stopped <==> exists j :: 0 <= j < i && events[j].StopCalled?
    ensures states[i].interval <==>
      exists j :: 0 <= j < i && events[j].IntervalSet? && forall k :: j < k < i ==> !events[k].StopCalled?
  {
    if i > 0 {
      TimerRunsExactlyWhen(states, events, i - 1);
      assert states[i] == Next(states[i - 1], events[i - 1]);
    }
  }

  lemma OneStep(states: seq<Service>, events: seq<Event>, j: nat, p: nat)
    requires IsRun(states, events) && j < |events|
    ensures p in states[j + 1].inFlight <==>
      Begins(states, j, p) || (p in states[j].inFlight && events[j] != ExecuteSettles(p))
    ensures p in states[j + 1].ticks <==>
      Begins(states, j, p) || (p in states[j].ticks && events[j] != TickResumes(p))
    ensures p in states[j + 1].stops <==>
      (events[j].StopCalled? && p in states[j].ticks) || (p in states[j].stops && events[j] != StopResumes(p))
  {
    RunKeepsInv(states, events, j);
  }

  /** An execution is in flight exactly from its begin until it settles. */
  lemma {:induction false} InFlightExactlyWhen(states: seq<Service>, events: seq<Event>, i: nat, p: nat)
    requires IsRun(states, events) && i < |states|
    ensures p in states[i].inFlight <==>
      exists j :: 0 <= j < i && Begins(states, j, p) && forall k :: j < k < i ==> events[k] != ExecuteSettles(p)
  {
    if i > 0 {
      InFlightExactlyWhen(states, events, i - 1, p);
      OneStep(states, events, i - 1, p);
      hide Next, Possible, Inv, Begins;
    }
  }

  /** Its tick is suspended exactly from then until it resumes, which frees the service for the next one. */
  lemma {:induction false} SuspendedExactlyWhen(states: seq<Service>, events: seq<Event>, i: nat, p: nat)
    requires IsRun(states, events) && i < |states|
    ensures p in states[i].ticks <==>
      exists j :: 0 <= j < i && Begins(states, j, p) && forall k :: j < k < i ==> events[k] != TickResumes(p)
  {
    if i > 0 {
      SuspendedExactlyWhen(states, events, i - 1, p);
      OneStep(states, events, i - 1, p);
      hide Next, Possible, Inv, Begins;
    }
  }

  /** A `stop` has settled exactly when one was called while no tick was suspended, or one resumed after the execution
      it awaited. */
  lemma {:induction false} StopSettledExactlyWhen(states: seq<Service>, events: seq<Event>, i: nat)
    requires IsRun(states, events) && i < |states|
    ensures states[i].stopSettled <==>
      exists j :: 0 <= j < i && (events[j].StopResumes? || (events[j].StopCalled? && states[j].ticks == {}))
  {
    if i > 0 {
      StopSettledExactlyWhen(states, events, i - 1);
      RunKeepsInv(states, events, i - 1);
      assert states[i] == Next(states[i - 1], events[i - 1]);
    }
  }

  /** A call of `stop` awaits the suspended tick's execution until it resumes. */
  lemma {:induction false} StopAwaitsExactly(states: seq<Service>, events: seq<Event>, i: nat, p: nat)
    requires IsRun(states, events) && i < |states|
    ensures p in states[i].stops <==>
      exists j :: 0 <= j < i && events[j].StopCalled? && p in states[j].ticks
                  && forall k :: j < k < i ==> events[k] != StopResumes(p)
  {
    if i > 0 {
      StopAwaitsExactly(states, events, i - 1, p);
      OneStep(states, events, i - 1, p);
      hide Next, Possible, Inv, Begins;
    }
  }

  class IntervalService {
    var interval: bool
    var tickPromise: Option<nat>
    var stopped: bool
    /** What is pending around the service. */
    ghost var inFlight: set<nat>
    ghost var ticks: set<nat>
    ghost var stops: set<nat>
    ghost var stopSettled: bool
    /** Numbers the calls of `executeTick`. */
    var executions: nat

    ghost function State(): Service
      reads this
    {
      Service(interval, tickPromise, stopped, inFlight, ticks, stops, stopSettled, executions)
    }

    constructor ()
      ensures State() == NEW_SERVICE
    {
      interval, tickPromise, stopped, executions := false, None, false, 0;
      inFlight, ticks, stops, stopSettled := {}, {}, {}, false;
    }

    predicate Guard(guard: bool)
      reads this
    {
      !stopped && tickPromise == None && guard
    }

    /** `tick` up to its await. */
    method Tick(guard: bool) returns (awaited: Option<nat>)
      modifies this
      ensures State() == Ticked(old(State()), guard)
      ensures awaited == if TickGuard(old(State()), guard) then Some(old(executions)) else None
    {
      if !Guard(guard) { return None; }
      awaited := Some(executions);
      inFlight, ticks := inFlight + {executions}, ticks + {executions};
      tickPromise := awaited;
      executions := executions + 1;
    }

    /** The `finally` block of a `tick` that awaited execution `p`. */
    method ResumeTick(ghost p: nat)
      requires Possible(State(), TickResumes(p))
      modifies this
      ensures State() == Next(old(State()), TickResumes(p))
    {
      tickPromise := None;
      ticks := ticks - {p};
    }

    /** Awaits the execution in flight, or ticks. */
    method BootstrapTick(guard: bool) returns (awaited: Option<nat>)
      modifies this
      ensures State() == Next(old(State()), BootstrapCalled(guard))
      ensures old(tickPromise).Some? ==> awaited == old(tickPromise)
    {
      if tickPromise.Some? { return tickPromise; }
      awaited := Tick(guard);
    }

    /** What `start` does after its first tick has settled. */
    method SetInterval()
      modifies this
      ensures State() == Next(old(State()), IntervalSet)
    {
      interval := true;
    }

    /** `stop` up to its await; without one it settles at once. */
    method Stop() returns (awaited: Option<nat>)
      modifies this
      ensures State() == Next(old(State()), StopCalled) && awaited == old(tickPromise)
    {
      stopped := true;
      if interval { interval := false; }
      awaited := tickPromise;
      if tickPromise.Some? { stops := stops + {tickPromise.value}; } else { stopSettled := true; }
    }
  }
}
