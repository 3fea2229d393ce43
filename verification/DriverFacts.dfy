// What every run of the cycle driver satisfies, for every machine and runner.
module DriverFacts {
  import opened Common
  import opened Totals
  import opened Canonical
  import opened Driver

  ghost function Visits(sm: StateMachine, visits: map<StateId, nat>): nat {
    Total(Keys(Caps(sm)), visits)
  }

  ghost function CapTotal(sm: StateMachine): nat {
    Total(Keys(Caps(sm)), Caps(sm))
  }

  ghost predicate Within(sm: StateMachine, visits: map<StateId, nat>, id: StateId) {
    id in sm.states ==> At(visits, id) <= sm.states[id].maxVisits
  }

  ghost predicate AllWithin(sm: StateMachine, visits: map<StateId, nat>) {
    forall id | id in sm.states :: Within(sm, visits, id)
  }

  // ---- bounds and accounting ---------------------------------------------------

  lemma BumpCounts(sm: StateMachine, c: Ctx, id: StateId)
    requires id in sm.states
    ensures Visits(sm, Bump(c, id).visits) == Visits(sm, c.visits) + 1
  {
    hide Keys;
    KeysListed(Caps(sm));
    TotalUpdate(Keys(Caps(sm)), c.visits, id, At(c.visits, id) + 1);
  }

  // The driver's own bound tripped.
  ghost predicate BoundTripped(v: Verdict) {
    v.Aborted? && v.meta.errorText.VisitedTooOften?
  }

  ghost predicate Accounted(sm: StateMachine, c: Ctx, r: Trip) {
    r.ctx.iter - c.iter == Visits(sm, r.ctx.visits) - Visits(sm, c.visits)
  }

  // The state a failure names has the visit count the failure reports; only
  // the driver's own bound leaves a state over its cap, by exactly one.
  ghost predicate Bounded(sm: StateMachine, r: Trip) {
    && (r.verdict.Aborted? ==> r.verdict.meta.visitN == At(r.ctx.visits, r.verdict.meta.stateId))
    && (!BoundTripped(r.verdict) ==> AllWithin(sm, r.ctx.visits))
    && (BoundTripped(r.verdict) ==>
      var s := r.verdict.meta.stateId;
      && r.verdict.meta.kind == RecursionBound
      && s in sm.states && r.verdict.meta.visitN == sm.states[s].maxVisits + 1
      && forall id | id in sm.states && id != s :: Within(sm, r.ctx.visits, id))
  }

  lemma {:induction false} DriveAccounted(sm: StateMachine, env: Env, c: Ctx, current: StateId, override: Option<string>)
    ensures Accounted(sm, c, Drive(sm, env, c, current, override))
    decreases Budget(Caps(sm), c.visits)
  {
    hide Budget, Visits;
    var turn := Step(sm, env, c, current, override);
    if current !in sm.terminals && current in sm.states { BumpCounts(sm, c, current); }
    if turn.Go? {
      StepDrops(sm, env, c, current, override);
      DriveAccounted(sm, env, turn.ctx, turn.id, turn.override);
    }
  }

  lemma StepBounded(sm: StateMachine, env: Env, c: Ctx, current: StateId, override: Option<string>)
    requires AllWithin(sm, c.visits)
    ensures match Step(sm, env, c, current, override)
      case Stop(trip) => Bounded(sm, trip)
      case Go(e, d, id, o) => AllWithin(sm, d.visits)
  {
    hide Perform;
    if current in sm.states && current !in sm.terminals {
      var d := Bump(c, current);
      PerformKeepsVisits(sm.states[current], env, d, current, At(d.visits, current), override);
    }
  }

  lemma PerformKeepsVisits(state: State, env: Env, d: Ctx, id: StateId, n: nat, override: Option<string>)
    ensures match Perform(state, env, d, id, n, override)
      case Stop(trip) => trip.ctx == d && trip.verdict.Aborted? && trip.verdict.meta.stateId == id
        && trip.verdict.meta.visitN == n && !BoundTripped(trip.verdict)
      case Go(e, f, next, o) => f.visits == d.visits
  {
  }

  // The trace is not part of what is bounded.
  lemma BoundedPrepend(sm: StateMachine, e: Event, r: Trip)
    requires Bounded(sm, r)
    ensures Bounded(sm, Prepend(e, r))
  {
  }

  lemma {:induction false} DriveBounded(sm: StateMachine, env: Env, c: Ctx, current: StateId, override: Option<string>)
    requires AllWithin(sm, c.visits)
    ensures Bounded(sm, Drive(sm, env, c, current, override))
    decreases Budget(Caps(sm), c.visits)
  {
    hide Budget, Step, Bounded, AllWithin;
    StepBounded(sm, env, c, current, override);
    var turn := Step(sm, env, c, current, override);
    if turn.Go? {
      StepDrops(sm, env, c, current, override);
      DriveBounded(sm, env, turn.ctx, turn.id, turn.override);
      BoundedPrepend(sm, turn.event, Drive(sm, env, turn.ctx, turn.id, turn.override));
    }
  }

  // Counts within caps, except one over by one, add up to at most the cap total
  // plus one.
  lemma TotalWithin(sm: StateMachine, visits: map<StateId, nat>, over: StateId)
    requires forall id | id in sm.states && id != over :: Within(sm, visits, id)
    requires over in sm.states ==> At(visits, over) <= sm.states[over].maxVisits + 1
    ensures Visits(sm, visits) <= CapTotal(sm) + 1
  {
    hide Keys;
    KeysListed(Caps(sm));
    var caps := Caps(sm);
    if over in sm.states {
      var raised := caps[over := caps[over] + 1];
      TotalMono(Keys(Caps(sm)), visits, raised);
      TotalUpdate(Keys(Caps(sm)), caps, over, caps[over] + 1);
    } else {
      TotalMono(Keys(Caps(sm)), visits, caps);
    }
  }

  // A cycle started with fresh counters: `iter` is the number of visits and is
  // at most one more than all the caps together.
  lemma CycleBounds(sm: StateMachine, env: Env)
    ensures var r := Drive(sm, env, FRESH, sm.start, None);
      && r.ctx.iter == Visits(sm, r.ctx.visits) <= CapTotal(sm) + 1
      && Bounded(sm, r)
  {
    var r := Drive(sm, env, FRESH, sm.start, None);
    DriveAccounted(sm, env, FRESH, sm.start, None);
    TotalEmpty(Keys(Caps(sm)));
    DriveBounded(sm, env, FRESH, sm.start, None);
    TotalWithin(sm, r.ctx.visits, if BoundTripped(r.verdict) then r.verdict.meta.stateId else "");
  }

  // ---- the outcome override is sticky --------------------------------------------

  function LastOverride(trace: seq<Event>, override: Option<string>): Option<string> {
    if trace == [] then override
    else
      var e := trace[0];
      LastOverride(trace[1..], if e.Executed? then NewOverride(e.captures, override) else override)
  }

  // The outcome of a finished cycle is the last `outcome` any directive of the
  // run carried, whether or not that directive led to the terminal; without one
  // it is the terminal's own.
  lemma {:induction false} OverrideSticks(sm: StateMachine, env: Env, c: Ctx, current: StateId, override: Option<string>)
    ensures var r := Drive(sm, env, c, current, override);
      r.verdict.Finished? ==>
        exists t :: t in sm.terminals && r.verdict.result.terminalId == sm.terminals[t].id
          && r.verdict.result.outcome == LastOverride(r.trace, override).GetOr(sm.terminals[t].outcome)
    decreases Budget(Caps(sm), c.visits)
  {
    hide Budget;
    var turn := Step(sm, env, c, current, override);
    if turn.Go? {
      StepDrops(sm, env, c, current, override);
      OverrideSticks(sm, env, turn.ctx, turn.id, turn.override);
      var rest := Drive(sm, env, turn.ctx, turn.id, turn.override);
      assert ([turn.event] + rest.trace)[1..] == rest.trace;
    }
  }

  // ---- what its documentation promises instead ----------------------------------

  function EdgeOutcome(e: Event): Option<string> {
    if e.Executed? && e.captures.directive.Some? then e.captures.directive.value.outcome else None
  }

  // The override documented for the edge that reaches the terminal, and no other.
  function Documented(trace: seq<Event>, own: string): string {
    if trace == [] then own else EdgeOutcome(trace[|trace| - 1]).GetOr(own)
  }

  lemma {:induction false} LastOverrideFromEnd(trace: seq<Event>, override: Option<string>)
    requires trace != []
    ensures var last := EdgeOutcome(trace[|trace| - 1]);
      LastOverride(trace, override) == if last.Some? then last else LastOverride(trace[..|trace| - 1], override)
    decreases |trace|
  {
    if |trace| > 1 {
      var e := trace[0];
      LastOverrideFromEnd(trace[1..], if e.Executed? then NewOverride(e.captures, override) else override);
      assert trace[1..][..|trace| - 2] == trace[..|trace| - 1][1..];
    }
  }

  lemma OverrideAgrees(trace: seq<Event>, own: string)
    ensures LastOverride(trace, None).GetOr(own) == Documented(trace, own)
            <==> (trace == [] || EdgeOutcome(trace[|trace| - 1]).Some? || LastOverride(trace[..|trace| - 1], None).GetOr(own) == own)
  {
    if trace != [] { LastOverrideFromEnd(trace, None); }
  }

  // A finished run reports the documented outcome exactly when its edge into the
  // terminal carries an outcome itself, or the last one that an earlier state left,
  // if any did, is the terminal's own.
  lemma DocumentedExactly(sm: StateMachine, env: Env)
    requires Keyed(sm) && Drive(sm, env, FRESH, sm.start, None).verdict.Finished?
    ensures var r := Drive(sm, env, FRESH, sm.start, None); var end := r.verdict.result;
      && end.terminalId in sm.terminals
      && (end.outcome == Documented(r.trace, sm.terminals[end.terminalId].outcome)
          <==> (r.trace == [] || EdgeOutcome(r.trace[|r.trace| - 1]).Some?
                || LastOverride(r.trace[..|r.trace| - 1], None).GetOr(sm.terminals[end.terminalId].outcome) == sm.terminals[end.terminalId].outcome))
  {
    var r := Drive(sm, env, FRESH, sm.start, None);
    OverrideSticks(sm, env, FRESH, sm.start, None);
    hide Drive;
    OverrideAgrees(r.trace, sm.terminals[r.verdict.result.terminalId].outcome);
  }
}
